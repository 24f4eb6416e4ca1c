/** Lines and white space as Go's `strings` package sees them: splitting and joining at newlines,
    and trimming the UTF-8 encodings of Unicode white space from both ends. */
module TextLines {
  import opened ByteStrings

  const NL: Bytes := "\n"

  /** The pieces between newlines; there is always one more piece than there are newlines. */
  function Lines(s: Bytes): (r: seq<Bytes>)
    ensures r != []
    decreases |s|
  {
    var i := Index(s, NL);
    if i == -1 then [s] else [s[..i]] + Lines(s[i + 1..])
  }

  /** The pieces put back together with newlines between them. */
  function Join(ls: seq<Bytes>): Bytes {
    if ls == [] then []
    else if |ls| == 1 then ls[0]
    else ls[0] + NL + Join(ls[1..])
  }

  lemma NewlineAt(s: Bytes, i: int)
    ensures At(s, NL, i) <==> 0 <= i < |s| && s[i] == '\n'
  {
    if 0 <= i < |s| && s[i] == '\n' {
      assert forall k | 0 <= k < |NL| :: NL[k] == '\n' == s[i + k];
    } else if At(s, NL, i) {
      AtByte(s, NL, i, 0);
    }
  }

  /** The first newline of `a + "\n" + b` is that of `a`, or the one in the middle. */
  lemma FirstNewline(a: Bytes, b: Bytes)
    ensures Index(a + NL + b, NL) == if Index(a, NL) == -1 then |a| else Index(a, NL)
  {
    assert a + NL + b == a + (NL + b);
    if Index(a, NL) != -1 {
      IndexExtends(a, NL, NL + b);
    } else {
      NewlineAt(a + NL + b, |a|);
      forall k | 0 <= k < |a|
        ensures !At(a + (NL + b), NL, k)
      {
        AtPrefix(a, NL + b, NL, k);
      }
    }
  }

  /** A newline separates lines. */
  lemma {:induction false} LinesOfParts(a: Bytes, b: Bytes)
    ensures Lines(a + NL + b) == Lines(a) + Lines(b)
    decreases |a|
  {
    FirstNewline(a, b);
    var i, s := Index(a, NL), a + NL + b;
    if i == -1 {
      assert s[..|a|] == a && s[|a| + 1..] == b;
    } else {
      assert s[..i] == a[..i] && s[i + 1..] == a[i + 1..] + NL + b;
      LinesOfParts(a[i + 1..], b);
    }
  }

  /** A part of what follows the newline at `i` is a part of the whole. */
  lemma PartBehind(s: Bytes, i: nat, k: nat, l: Bytes)
    requires i < |s| && k + |l| <= |s| - i - 1 && s[i + 1..][k..k + |l|] == l
    ensures s[i + 1 + k..i + 1 + k + |l|] == l
    ensures k + |l| < |s| - i - 1 ==> s[i + 1 + k + |l|] == s[i + 1..][k + |l|]
  {
    assert s[i + 1..][k..k + |l|] == s[i + 1 + k..i + 1 + k + |l|];
  }

  /** The lines begin with what the first newline ends. */
  lemma FirstLine(s: Bytes)
    ensures Index(s, NL) == -1 ==> Lines(s) == [s]
    ensures Index(s, NL) != -1 ==>
      && Index(s, NL) < |s| && s[Index(s, NL)] == '\n'
      && Lines(s) == [s[..Index(s, NL)]] + Lines(s[Index(s, NL) + 1..])
  {
    NewlineAt(s, Index(s, NL));
  }

  /** Line `l` occurs in `s`, at `k`, and ends at a newline or is the last one. */
  lemma {:induction false} LineIsPart(s: Bytes, l: Bytes) returns (k: nat)
    requires l in Lines(s)
    ensures k + |l| <= |s| && s[k..k + |l|] == l
    ensures k + |l| < |s| ==> s[k + |l|] == '\n'
    ensures k + |l| == |s| ==> l == Lines(s)[|Lines(s)| - 1]
    decreases |s|
  {
    var i := Index(s, NL);
    FirstLine(s);
    hide Lines;
    if i == -1 {
      k := 0;
    } else if l == s[..i] {
      k := 0;
    } else {
      var j := LineIsPart(s[i + 1..], l);
      PartBehind(s, i, j, l);
      k := i + 1 + j;
    }
  }

  // ---- white space ----

  predicate AsciiSpace(c: char) {
    c == ' ' || c == '\t' || c == '\n' || c == '\U{0B}' || c == '\U{0C}' || c == '\r'
  }

  /** U+0085 and U+00A0. */
  predicate Space2(a: char, b: char) {
    a == '\U{C2}' && (b == '\U{85}' || b == '\U{A0}')
  }

  /** U+1680, U+2000..U+200A, U+2028, U+2029, U+202F, U+205F and U+3000. */
  predicate Space3(a: char, b: char, c: char) {
    || (a == '\U{E1}' && b == '\U{9A}' && c == '\U{80}')
    || (a == '\U{E2}' && b == '\U{80}' && '\U{80}' <= c <= '\U{8A}')
    || (a == '\U{E2}' && b == '\U{80}' && (c == '\U{A8}' || c == '\U{A9}' || c == '\U{AF}'))
    || (a == '\U{E2}' && b == '\U{81}' && c == '\U{9F}')
    || (a == '\U{E3}' && b == '\U{80}' && c == '\U{80}')
  }

  /** `s` is the encoding of one white-space character. */
  predicate OneSpace(s: Bytes) {
    || (|s| == 1 && AsciiSpace(s[0]))
    || (|s| == 2 && Space2(s[0], s[1]))
    || (|s| == 3 && Space3(s[0], s[1], s[2]))
  }

  predicate StartsWithSpace(s: Bytes, n: nat) { n <= |s| && OneSpace(s[..n]) }

  predicate EndsWithSpace(s: Bytes, n: nat) { n <= |s| && OneSpace(s[|s| - n..]) }

  /** Length of the white-space character `s` begins with, 0 if there is none. */
  function SpacePrefix(s: Bytes): (n: nat)
    ensures n > 0 ==> StartsWithSpace(s, n)
    ensures n == 0 ==> forall k: nat :: !StartsWithSpace(s, k)
  {
    if StartsWithSpace(s, 1) then 1
    else if StartsWithSpace(s, 2) then 2
    else if StartsWithSpace(s, 3) then 3
    else 0
  }

  /** Length of the white-space character `s` ends with, 0 if there is none. */
  function SpaceSuffix(s: Bytes): (n: nat)
    ensures n > 0 ==> EndsWithSpace(s, n)
    ensures n == 0 ==> forall k: nat :: !EndsWithSpace(s, k)
  {
    if EndsWithSpace(s, 1) then 1
    else if EndsWithSpace(s, 2) then 2
    else if EndsWithSpace(s, 3) then 3
    else 0
  }

  function TrimLeft(s: Bytes): Bytes
    decreases |s|
  {
    var n := SpacePrefix(s);
    if n == 0 then s else TrimLeft(s[n..])
  }

  function TrimRight(s: Bytes): Bytes
    decreases |s|
  {
    var n := SpaceSuffix(s);
    if n == 0 then s else TrimRight(s[..|s| - n])
  }

  /** `s` without white space at either end. */
  function TrimSpace(s: Bytes): Bytes {
    TrimRight(TrimLeft(s))
  }

  lemma {:induction false} TrimLeftIsSuffix(s: Bytes)
    ensures HasSuffix(s, TrimLeft(s))
    decreases |s|
  {
    hide OneSpace;
    var n := SpacePrefix(s);
    if n > 0 {
      TrimLeftIsSuffix(s[n..]);
    }
  }

  lemma {:induction false} TrimRightIsPrefix(s: Bytes)
    ensures HasPrefix(s, TrimRight(s))
    decreases |s|
  {
    hide OneSpace;
    var n := SpaceSuffix(s);
    if n > 0 {
      var r := s[..|s| - n];
      TrimRightIsPrefix(r);
      assert r[..|TrimRight(r)|] == s[..|TrimRight(r)|];
    }
  }

  /** What trimming leaves is a stretch of the original. */
  lemma TrimIsPart(s: Bytes) returns (k: nat)
    ensures k + |TrimSpace(s)| <= |s| && s[k..k + |TrimSpace(s)|] == TrimSpace(s)
  {
    var t, u := TrimLeft(s), TrimSpace(s);
    TrimLeftIsSuffix(s);
    TrimRightIsPrefix(t);
    hide TrimLeft, TrimRight;
    k := |s| - |t|;
    assert s[k..][..|u|] == s[k..k + |u|];
  }

  // ---- text that is white space only ----

  predicate SpaceOnly(s: Bytes)
    decreases |s|
  {
    s == "" || (SpacePrefix(s) > 0 && SpaceOnly(s[SpacePrefix(s)..]))
  }

  lemma {:induction false} SpaceOnlyTrims(s: Bytes)
    ensures SpaceOnly(s) <==> TrimLeft(s) == ""
    ensures SpaceOnly(s) ==> TrimSpace(s) == ""
    ensures SpacePrefix(TrimLeft(s)) == 0
    decreases |s|
  {
    if SpacePrefix(s) > 0 {
      SpaceOnlyTrims(s[SpacePrefix(s)..]);
    }
  }

  lemma {:induction false} TrimmedAwayStartsWithSpace(s: Bytes) returns (k: nat)
    requires s != "" && TrimRight(s) == ""
    ensures StartsWithSpace(s, k)
    decreases |s|
  {
    hide OneSpace, SpaceSuffix;
    var n := SpaceSuffix(s);
    var r := s[..|s| - n];
    assert n > 0 && TrimRight(r) == "" && |r| < |s|;
    hide TrimRight;
    if r == "" {
      k := n;
      assert s[..n] == s[|s| - n..];
    } else {
      k := TrimmedAwayStartsWithSpace(r);
      assert s[..k] == r[..k];
    }
  }

  /** Trimming leaves nothing exactly of white space. */
  lemma TrimSpaceEmpty(s: Bytes)
    ensures TrimSpace(s) == "" <==> SpaceOnly(s)
  {
    SpaceOnlyTrims(s);
    if TrimSpace(s) == "" && TrimLeft(s) != "" {
      var k := TrimmedAwayStartsWithSpace(TrimLeft(s));
    }
  }

  lemma SpaceInFront(a: Bytes, s: Bytes)
    requires OneSpace(a) && SpaceOnly(s)
    ensures SpaceOnly(a + s)
  {
    var t := a + s;
    assert t[..|a|] == a && t[|a|..] == s;
    if |a| >= 2 {
      assert t[..1][0] == a[0];
    }
    if |a| == 3 {
      assert t[..2][0] == a[0];
    }
    assert SpacePrefix(t) == |a|;
  }

  lemma LinesBehindPlain(a: Bytes, s: Bytes)
    requires Index(a, NL) == -1
    ensures Lines(a + s) == [a + Lines(s)[0]] + Lines(s)[1..]
  {
    var i := Index(s, NL);
    forall k | 0 <= k < |a|
      ensures !At(a + s, NL, k)
    {
      NewlineAt(a + s, k);
      NewlineAt(a, k);
    }
    IndexPlainPrefix(a, s, NL);
    if i != -1 {
      assert (a + s)[..|a| + i] == a + s[..i];
      assert (a + s)[|a| + i + 1..] == s[i + 1..];
    }
  }

  /** Lines of white space are white space. */
  lemma {:induction false} SpaceOnlyLines(s: Bytes)
    requires SpaceOnly(s)
    ensures forall l | l in Lines(s) :: SpaceOnly(l)
    decreases |s|
  {
    if s != "" {
      var n := SpacePrefix(s);
      var a, t := s[..n], s[n..];
      assert s == a + t;
      SpaceOnlyLines(t);
      if s[0] == '\n' {
        NewlineAt(s, 0);
        assert s[..1] == NL;
        assert n == 1 && Index(s, NL) == 0;
      } else {
        NewlineAt(a, Index(a, NL));
        assert Index(a, NL) == -1;
        LinesBehindPlain(a, t);
        SpaceInFront(a, Lines(t)[0]);
      }
    } else {
      NewlineAt("", Index("", NL));
    }
  }

  lemma BlankTextHasBlankLines(s: Bytes)
    requires TrimSpace(s) == ""
    ensures forall l | l in Lines(s) :: TrimSpace(l) == ""
  {
    hide TrimSpace;
    TrimSpaceEmpty(s);
    SpaceOnlyLines(s);
    forall l | l in Lines(s)
      ensures TrimSpace(l) == ""
    {
      TrimSpaceEmpty(l);
    }
  }

  predicate Solid(c: char) { '!' <= c <= '~' }

  lemma SpaceIsNotSolid(s: Bytes)
    requires OneSpace(s)
    ensures s != "" && !Solid(s[0]) && !Solid(s[|s| - 1])
  {
  }

  lemma NoSpaceInFront(s: Bytes)
    requires s != "" && Solid(s[0])
    ensures SpacePrefix(s) == 0
  {
    hide OneSpace;
    var n := SpacePrefix(s);
    if n > 0 {
      SpaceIsNotSolid(s[..n]);
    }
  }

  lemma NoSpaceBehind(s: Bytes)
    requires s != "" && Solid(s[|s| - 1])
    ensures SpaceSuffix(s) == 0
  {
    hide OneSpace;
    var n := SpaceSuffix(s);
    if n > 0 {
      SpaceIsNotSolid(s[|s| - n..]);
    }
  }

  /** Text with an ASCII character other than white space at both ends is left alone, and so is what
      follows a blank in front of it. */
  lemma TrimSolid(s: Bytes)
    requires s != "" && Solid(s[0]) && Solid(s[|s| - 1])
    ensures TrimSpace(s) == s && TrimSpace(" " + s) == s
  {
    hide SpacePrefix, SpaceSuffix;
    NoSpaceInFront(s);
    NoSpaceBehind(s);
    OneBlankInFront(s);
    assert (" " + s)[1..] == s;
  }

  lemma OneBlankInFront(s: Bytes)
    ensures SpacePrefix(" " + s) == 1
  {
    assert (" " + s)[..1] == " ";
  }
}
