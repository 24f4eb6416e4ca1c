/** The OpenAI keepalive-frame filter: bare `data: null`, `data:null` and `data:` lines are dropped
    from the part of the stream that ends in a blank line, the rest is held back. */
module FrameFiltering {
  import opened ByteStrings
  import opened TextLines

  const BLANK: Bytes := "\n\n"

  /** A line the filter wants to drop. */
  predicate Bare(line: Bytes) {
    var t := TrimSpace(line);
    t == "data: null" || t == "data:null" || t == "data:"
  }

  function Kept(ls: seq<Bytes>): seq<Bytes> {
    if ls == [] then [] else (if Bare(ls[0]) then [] else [ls[0]]) + Kept(ls[1..])
  }

  /** The substring test that decides whether the lines are looked at. */
  predicate Suspicious(ready: Bytes) {
    Contains(ready, "data: null") || Contains(ready, "data:null") || Contains(ready, "data:\n")
  }

  function Clean(ready: Bytes): Bytes {
    if Suspicious(ready) then Join(Kept(Lines(ready))) else ready
  }

  /** One call of the filter: the held tail and the bytes handed on. */
  function NextPending(pending: Bytes, chunk: Bytes): Bytes {
    var combined := pending + chunk;
    var k := LastIndex(combined, BLANK);
    if k == -1 then combined else combined[k + 2..]
  }

  function Emitted(pending: Bytes, chunk: Bytes): Bytes {
    var combined := pending + chunk;
    var k := LastIndex(combined, BLANK);
    if k == -1 then [] else Clean(combined[..k + 2])
  }

  function RunPending(pending: Bytes, chunks: seq<Bytes>): Bytes
    decreases |chunks|
  {
    if chunks == [] then pending else RunPending(NextPending(pending, chunks[0]), chunks[1..])
  }

  function RunOut(pending: Bytes, chunks: seq<Bytes>): Bytes
    decreases |chunks|
  {
    if chunks == [] then []
    else Emitted(pending, chunks[0]) + RunOut(NextPending(pending, chunks[0]), chunks[1..])
  }

  // ---- the whole-stream meaning ----

  /** `s` without its bare lines, each dropped with the newline that ends it. */
  function DropBare(s: Bytes): (r: Bytes)
    ensures |r| <= |s|
    decreases |s|
  {
    var i := Index(s, NL);
    if i == -1 then if Bare(s) then [] else s
    else (if Bare(s[..i]) then [] else s[..i] + NL) + DropBare(s[i + 1..])
  }

  /** Bare lines dropped up to the last blank line, everything behind it kept as it is. */
  function DropReleased(s: Bytes): Bytes {
    var k := LastIndex(s, BLANK);
    if k == -1 then s else DropBare(s[..k + 2]) + s[k + 2..]
  }

  /** The region is cleaned as intended: the test fires, or no line is a bare `data:`. */
  predicate RegionFiltered(ready: Bytes) {
    Suspicious(ready) || forall l | l in Lines(ready) :: TrimSpace(l) != "data:"
  }

  /** Every region a run releases is cleaned as intended. */
  predicate RunFiltered(pending: Bytes, chunks: seq<Bytes>)
    decreases |chunks|
  {
    chunks == [] ||
    (var combined := pending + chunks[0];
     var k := LastIndex(combined, BLANK);
     (k == -1 || RegionFiltered(combined[..k + 2]))
     && RunFiltered(NextPending(pending, chunks[0]), chunks[1..]))
  }

  // ---- one region ----

  predicate EndsLine(s: Bytes) { s == "" || s[|s| - 1] == '\n' }

  lemma SplitAtNewline(s: Bytes, i: nat)
    requires i == Index(s, NL)
    ensures i < |s| && s == s[..i] + NL + s[i + 1..]
    ensures EndsLine(s) ==> EndsLine(s[i + 1..])
  {
    NewlineAt(s, i);
  }

  lemma {:induction false} KeptNotEmpty(s: Bytes)
    requires EndsLine(s)
    ensures Kept(Lines(s)) != []
    decreases |s|
  {
    var i := Index(s, NL);
    if i == -1 {
      NoNewlineEndsLine(s);
      NotBare("");
    } else {
      SplitAtNewline(s, i);
      KeptNotEmpty(s[i + 1..]);
      assert Lines(s)[1..] == Lines(s[i + 1..]);
    }
  }

  lemma NoNewlineEndsLine(s: Bytes)
    requires EndsLine(s) && Index(s, NL) == -1
    ensures s == ""
  {
    NewlineAt(s, |s| - 1);
  }

  lemma NotBare(l: Bytes)
    requires |l| < 5
    ensures !Bare(l)
  {
    var k := TrimIsPart(l);
  }

  /** Splitting, filtering the lines and joining is dropping the bare lines one by one. */
  lemma {:induction false} JoinKeptIsDropBare(s: Bytes)
    requires EndsLine(s)
    ensures Join(Kept(Lines(s))) == DropBare(s)
    decreases |s|
  {
    var i := Index(s, NL);
    if i == -1 {
      NoNewlineEndsLine(s);
      NotBare("");
      assert Kept([""]) == [""] + Kept([]);
    } else {
      SplitAtNewline(s, i);
      var l, z := s[..i], s[i + 1..];
      JoinKeptIsDropBare(z);
      KeptNotEmpty(z);
      assert Lines(s)[1..] == Lines(z);
      var k := Kept(Lines(z));
      if !Bare(l) {
        assert ([l] + k)[1..] == k;
        assert Kept(Lines(s)) == [l] + k;
      } else {
        assert Kept(Lines(s)) == k;
      }
    }
  }

  /** Dropping changes the bytes exactly when there is a bare line. */
  lemma {:induction false} DropBareChanges(s: Bytes)
    ensures DropBare(s) == s <==> forall l | l in Lines(s) :: !Bare(l)
    decreases |s|
  {
    var i := Index(s, NL);
    if i == -1 {
      if Bare(s) && s == "" {
        NotBare(s);
      }
    } else {
      SplitAtNewline(s, i);
      var l, z := s[..i], s[i + 1..];
      DropBareChanges(z);
      if Bare(l) {
        assert l in Lines(s);
        assert |DropBare(s)| < |s|;
      } else {
        assert DropBare(s) == (l + NL) + DropBare(z);
        assert s[|l + NL|..] == z && DropBare(s)[|l + NL|..] == DropBare(z);
        assert forall x :: x in Lines(s) <==> x == l || x in Lines(z);
      }
    }
  }

  /** The two `null` forms never pass the substring test. */
  lemma NullIsSuspicious(s: Bytes, l: Bytes)
    requires l in Lines(s)
    ensures TrimSpace(l) == "data: null" || TrimSpace(l) == "data:null" ==> Suspicious(s)
  {
    TrimmedLineIsPart(s, l);
  }

  lemma TrimmedLineIsPart(s: Bytes, l: Bytes)
    requires l in Lines(s)
    ensures Contains(s, TrimSpace(l))
  {
    hide TrimSpace;
    var i := LineIsPart(s, l);
    var k := TrimIsPart(l);
    PartAt(s, l, TrimSpace(l), i, k);
  }

  lemma PartAt(s: Bytes, l: Bytes, t: Bytes, i: nat, k: nat)
    requires i + |l| <= |s| && s[i..i + |l|] == l
    requires k + |t| <= |l| && l[k..k + |t|] == t
    ensures At(s, t, i + k) && Contains(s, t)
  {
    assert forall j | 0 <= j < |t| :: t[j] == l[k..k + |t|][j] == s[i..i + |l|][k + j];
  }

  /** A released region against its meaning: exact condition, and never too little. */
  lemma CleanAgainstDropBare(ready: Bytes)
    requires EndsLine(ready)
    ensures |DropBare(ready)| <= |Clean(ready)|
    ensures Clean(ready) == DropBare(ready) <==> RegionFiltered(ready)
  {
    if Suspicious(ready) {
      JoinKeptIsDropBare(ready);
    } else {
      DropBareChanges(ready);
      forall l | l in Lines(ready)
        ensures Bare(l) <==> TrimSpace(l) == "data:"
      {
        NullIsSuspicious(ready, l);
      }
    }
  }

  // ---- how the meaning composes ----

  /** What is kept of a line that a newline ends. */
  function KeptLine(l: Bytes): Bytes { if Bare(l) then [] else l + NL }

  lemma DropBareLine(s: Bytes, l: Bytes, z: Bytes)
    requires s == l + NL + z && Index(l, NL) == -1
    ensures DropBare(s) == KeptLine(l) + DropBare(z)
  {
    FirstNewline(l, z);
    assert s[..|l|] == l && s[|l| + 1..] == z;
  }

  lemma DropBareFirst(l: Bytes, z: Bytes, b: Bytes)
    requires Index(l, NL) == -1 && DropBare(z + b) == DropBare(z) + DropBare(b)
    ensures DropBare(l + NL + z + b) == DropBare(l + NL + z) + DropBare(b)
  {
    hide *;
    DropBareLine(l + NL + z, l, z);
    assert l + NL + z + b == l + NL + (z + b);
    DropBareLine(l + NL + z + b, l, z + b);
    assert KeptLine(l) + (DropBare(z) + DropBare(b)) == KeptLine(l) + DropBare(z) + DropBare(b);
  }

  lemma {:induction false} DropBareParts(a: Bytes, b: Bytes)
    requires EndsLine(a)
    ensures DropBare(a + b) == DropBare(a) + DropBare(b)
    decreases |a|
  {
    hide Bare;
    var i := Index(a, NL);
    if i == -1 {
      NoNewlineEndsLine(a);
      NotBare("");
      assert a + b == b;
    } else {
      SplitAtNewline(a, i);
      var l, z := a[..i], a[i + 1..];
      PlainLine(a, i);
      DropBareParts(z, b);
      DropBareFirst(l, z, b);
    }
  }

  lemma PlainLine(s: Bytes, i: nat)
    requires i == Index(s, NL)
    ensures i <= |s| && Index(s[..i], NL) == -1
  {
    var k := Index(s[..i], NL);
    if k != -1 {
      NewlineAt(s[..i], k);
      NewlineAt(s, k);
    }
  }

  lemma BlankAt(s: Bytes, i: int)
    ensures At(s, BLANK, i) <==> 0 <= i < |s| - 1 && s[i] == '\n' && s[i + 1] == '\n'
  {
    if 0 <= i < |s| - 1 && s[i] == '\n' && s[i + 1] == '\n' {
      assert forall k | 0 <= k < |BLANK| :: BLANK[k] == '\n' == s[i + k];
    } else if At(s, BLANK, i) {
      AtByte(s, BLANK, i, 0);
      AtByte(s, BLANK, i, 1);
    }
  }

  /** Where the last blank line of `ready + t` lies. */
  lemma LastBlankOfParts(ready: Bytes, t: Bytes)
    requires HasSuffix(ready, BLANK)
    ensures var n, k, q := |ready|, LastIndex(ready + t, BLANK), LastIndex(t, BLANK);
      if q != -1 then k == n + q
      else k == n - 2 || (k == n - 1 && HasPrefix(t, NL))
  {
    var n, s := |ready|, ready + t;
    var k, q := LastIndex(s, BLANK), LastIndex(t, BLANK);
    assert ready[n - 2..] == BLANK;
    BlankAt(s, n - 2);
    AtShift(ready, t, BLANK, q);
    AtShift(ready, t, BLANK, k - n);
    BlankAt(s, n - 1);
  }

  /** A region that ends in a blank line is cleaned on its own, whatever follows it. */
  lemma DropReleasedParts(ready: Bytes, t: Bytes)
    requires HasSuffix(ready, BLANK)
    ensures DropReleased(ready + t) == DropBare(ready) + DropReleased(t)
  {
    hide DropBare;
    var n, s := |ready|, ready + t;
    var k, q := LastIndex(s, BLANK), LastIndex(t, BLANK);
    LastBlankOfParts(ready, t);
    EndsInBlank(ready);
    if q != -1 {
      assert t == t[..q + 2] + t[q + 2..];
      ReleasedSplit(s, ready, t[..q + 2], t[q + 2..]);
    } else if k == n - 2 {
      assert s[..n] == ready && s[n..] == t;
    } else {
      assert t == NL + t[1..];
      ReleasedSplit(s, ready, NL, t[1..]);
      OneNewline();
    }
  }

  lemma EndsInBlank(ready: Bytes)
    requires HasSuffix(ready, BLANK)
    ensures |ready| >= 2 && EndsLine(ready)
  {
    assert ready[|ready| - 2..] == BLANK;
    assert ready[|ready| - 1] == ready[|ready| - 2..][1];
  }

  lemma ThreeParts(a: Bytes, b: Bytes, c: Bytes)
    ensures a + (b + c) == a + b + c
    ensures (a + b + c)[..|a| + |b|] == a + b && (a + b + c)[|a| + |b|..] == c
  {
  }

  lemma ReleasedSplit(s: Bytes, ready: Bytes, more: Bytes, t: Bytes)
    requires s == ready + (more + t) && EndsLine(ready)
    requires LastIndex(s, BLANK) == |ready| + |more| - 2 >= 0
    ensures DropReleased(s) == DropBare(ready) + (DropBare(more) + t)
  {
    hide DropBare, EndsLine;
    DropBareParts(ready, more);
    ThreeParts(ready, more, t);
    assert s == ready + more + t;
    assert DropBare(ready) + DropBare(more) + t == DropBare(ready) + (DropBare(more) + t);
  }

  lemma OneNewline()
    ensures DropBare(NL) == NL
  {
    NewlineAt(NL, 0);
    assert NL[..0] == "" && NL[1..] == "";
    NotBare("");
    NewlineAt("", 0);
    assert Index("", NL) == -1;
    assert "" + NL + "" == NL;
  }

  // ---- whole runs ----

  /** Chunked filtering, the held tail included, against the whole-stream meaning: nothing is ever
      lost, and the two agree exactly when every released region is cleaned as intended. */
  lemma {:induction false} FilterAgreesExactly(pending: Bytes, chunks: seq<Bytes>)
    requires LastIndex(pending, BLANK) == -1
    ensures var total := RunOut(pending, chunks) + RunPending(pending, chunks);
      && |DropReleased(pending + Concat(chunks))| <= |total|
      && (total == DropReleased(pending + Concat(chunks)) <==> RunFiltered(pending, chunks))
    decreases |chunks|
  {
    hide DropReleased, RegionFiltered, Clean;
    if chunks == [] {
      HeldIsReleased(pending);
    } else {
      NextPendingHasNoBlank(pending, chunks[0]);
      FilterAgreesExactly(NextPending(pending, chunks[0]), chunks[1..]);
      FilterStep(pending, chunks);
      hide RunOut, RunPending, RunFiltered, Concat, NextPending;
    }
  }

  lemma NextPendingHasNoBlank(pending: Bytes, chunk: Bytes)
    ensures LastIndex(NextPending(pending, chunk), BLANK) == -1
  {
    var k := LastIndex(pending + chunk, BLANK);
    if k != -1 {
      RegionSplits(pending + chunk, k);
    }
  }

  /** If the rest of a run agrees exactly, so does the run. */
  lemma FilterStep(pending: Bytes, chunks: seq<Bytes>)
    requires LastIndex(pending, BLANK) == -1 && chunks != []
    requires var n := NextPending(pending, chunks[0]);
      var rest := RunOut(n, chunks[1..]) + RunPending(n, chunks[1..]);
      && |DropReleased(n + Concat(chunks[1..]))| <= |rest|
      && (rest == DropReleased(n + Concat(chunks[1..])) <==> RunFiltered(n, chunks[1..]))
    ensures var total := RunOut(pending, chunks) + RunPending(pending, chunks);
      && |DropReleased(pending + Concat(chunks))| <= |total|
      && (total == DropReleased(pending + Concat(chunks)) <==> RunFiltered(pending, chunks))
  {
    var combined, n, next := pending + chunks[0], NextPending(pending, chunks[0]), Concat(chunks[1..]);
    var k := LastIndex(combined, BLANK);
    TotalUnfolds(pending, chunks);
    FilteredUnfolds(pending, chunks);
    InputUnfolds(pending, chunks);
    hide DropReleased, Clean, RegionFiltered, RunOut, RunPending, RunFiltered, Concat;
    var rest := RunOut(n, chunks[1..]) + RunPending(n, chunks[1..]);
    if k == -1 {
      assert [] + rest == rest;
    } else {
      RegionSplits(combined, k);
      RegionAgrees(combined, k, next, rest);
    }
  }

  lemma FilteredUnfolds(pending: Bytes, chunks: seq<Bytes>)
    requires chunks != []
    ensures var combined := pending + chunks[0];
      var k := LastIndex(combined, BLANK);
      RunFiltered(pending, chunks) <==>
        (k == -1 || RegionFiltered(combined[..k + 2])) && RunFiltered(NextPending(pending, chunks[0]), chunks[1..])
  {
    hide NextPending, RegionFiltered;
  }

  lemma InputUnfolds(pending: Bytes, chunks: seq<Bytes>)
    requires chunks != []
    ensures pending + Concat(chunks) == pending + chunks[0] + Concat(chunks[1..])
  {
  }

  /** One chunk more in front of what a run hands on and holds. */
  lemma TotalUnfolds(pending: Bytes, chunks: seq<Bytes>)
    requires chunks != []
    ensures var n := NextPending(pending, chunks[0]);
      RunOut(pending, chunks) + RunPending(pending, chunks) ==
        Emitted(pending, chunks[0]) + (RunOut(n, chunks[1..]) + RunPending(n, chunks[1..]))
  {
    hide Emitted, NextPending;
  }

  lemma HeldIsReleased(pending: Bytes)
    requires LastIndex(pending, BLANK) == -1
    ensures DropReleased(pending + []) == [] + pending
  {
    assert pending + [] == pending;
  }

  lemma RegionAgrees(combined: Bytes, k: nat, next: Bytes, total: Bytes)
    requires k == LastIndex(combined, BLANK) && k + 2 <= |combined|
    requires |DropReleased(combined[k + 2..] + next)| <= |total|
    ensures |DropReleased(combined + next)| <= |Clean(combined[..k + 2]) + total|
    ensures Clean(combined[..k + 2]) + total == DropReleased(combined + next)
      <==> RegionFiltered(combined[..k + 2]) && total == DropReleased(combined[k + 2..] + next)
  {
    hide Bare;
    hide DropReleased, DropBare, Clean, RegionFiltered;
    var ready, n := combined[..k + 2], combined[k + 2..];
    RegionSplits(combined, k);
    CleanAgainstDropBare(ready);
    DropReleasedParts(ready, n + next);
    assert combined + next == ready + (n + next);
    SamePartsOrLonger(Clean(ready), total, DropBare(ready), DropReleased(n + next));
  }

  lemma RegionSplits(s: Bytes, k: nat)
    requires k == LastIndex(s, BLANK)
    ensures k + 2 <= |s| && HasSuffix(s[..k + 2], BLANK) && EndsLine(s[..k + 2])
    ensures s == s[..k + 2] + s[k + 2..]
    ensures LastIndex(s[k + 2..], BLANK) == -1
  {
    BlankAt(s, k);
    var i := LastIndex(s[k + 2..], BLANK);
    AtShift(s[..k + 2], s[k + 2..], BLANK, i);
  }

  lemma SamePartsOrLonger(a: Bytes, b: Bytes, x: Bytes, y: Bytes)
    requires |x| <= |a| && |y| <= |b|
    ensures |x + y| <= |a + b| && (a + b == x + y <==> a == x && b == y)
  {
    if a + b == x + y {
      assert |a| == |x|;
      assert a == (a + b)[..|a|] && x == (x + y)[..|x|] && b == (a + b)[|a|..] && y == (x + y)[|x|..];
    }
  }

  /** No bare `data:` line carries white space behind it. */
  ghost predicate NoTrailingBlanks(s: Bytes) {
    forall l | l in Lines(s) :: TrimSpace(l) == "data:" ==> HasSuffix(l, "data:")
  }

  lemma {:induction false} FilteredWithoutTrailingBlanks(pending: Bytes, chunks: seq<Bytes>)
    requires NoTrailingBlanks(pending + Concat(chunks))
    ensures RunFiltered(pending, chunks)
    decreases |chunks|
  {
    if chunks != [] {
      var c, cs := chunks[0], chunks[1..];
      var combined, n := pending + c, NextPending(pending, c);
      var k := LastIndex(combined, BLANK);
      assert pending + (c + Concat(cs)) == combined + Concat(cs);
      if k != -1 {
        var ready := combined[..k + 2];
        RegionSplits(combined, k);
        var a := ready[..|ready| - 1];
        assert ready == a + NL + "" && combined + Concat(cs) == a + NL + (n + Concat(cs));
        LinesOfParts(a, "");
        LinesOfParts(a, n + Concat(cs));
        EmptyLine();
        RegionWithoutTrailingBlanks(ready);
      }
      FilteredWithoutTrailingBlanks(n, cs);
    }
  }

  lemma EmptyLine()
    ensures Lines("") == [""] && TrimSpace("") == ""
  {
    NewlineAt("", 0);
    assert Index("", NL) == -1;
    var k := TrimIsPart("");
  }

  lemma RegionWithoutTrailingBlanks(ready: Bytes)
    requires HasSuffix(ready, BLANK) && NoTrailingBlanks(ready)
    ensures RegionFiltered(ready)
  {
    hide TrimSpace;
    forall l | l in Lines(ready) && TrimSpace(l) == "data:"
      ensures Suspicious(ready)
    {
      var i := LineIsPart(ready, l);
      var a := ready[..|ready| - 1];
      assert ready == a + NL + "";
      LinesOfParts(a, "");
      EmptyLine();
      DataLineAt(ready, l, i);
    }
  }

  lemma DataLineAt(s: Bytes, l: Bytes, i: nat)
    requires i + |l| < |s| && s[i..i + |l|] == l && s[i + |l|] == '\n' && HasSuffix(l, "data:")
    ensures Contains(s, "data:\n")
  {
    var k := i + |l| - 5;
    assert l[|l| - 5..] == s[k..k + 5];
    assert s[k..k + 6] == s[k..k + 5] + [s[k + 5]] == "data:\n";
    assert forall j | 0 <= j < 6 :: "data:\n"[j] == s[k..k + 6][j] == s[k + j];
    assert At(s, "data:\n", k);
  }

  /** Split frames are still filtered: for every chunking the outputs and the held tail are the
      stream without its bare lines up to the last blank line. */
  lemma FilterAgrees(chunks: seq<Bytes>)
    requires NoTrailingBlanks(Concat(chunks))
    ensures RunOut([], chunks) + RunPending([], chunks) == DropReleased(Concat(chunks))
  {
    assert [] + Concat(chunks) == Concat(chunks);
    BlankAt([], LastIndex([], BLANK));
    FilteredWithoutTrailingBlanks([], chunks);
    FilterAgreesExactly([], chunks);
  }

  // ---- where the code is narrower than its comment ----

  lemma TrimBlankBehind()
    ensures TrimSpace("data: ") == "data:"
  {
    var s := "data: ";
    assert s[..1] == "d" && s[5..] == " " && s[..5] == "data:" && "data:"[4..] == ":";
    assert SpacePrefix(s) == 0 && SpaceSuffix(s) == 1 && SpaceSuffix("data:") == 0;
  }

  /** A single chunk that ends in a blank line is filtered as intended only if its region is. */
  lemma OneRegion(s: Bytes)
    requires HasSuffix(s, BLANK) && !RegionFiltered(s)
    ensures RunOut([], [s]) + RunPending([], [s]) != DropReleased(s)
  {
    hide RunOut, RunPending, DropReleased, Suspicious, TrimSpace;
    BlankAt([], LastIndex([], BLANK));
    assert [] + Concat([s]) == s + Concat([]) == s;
    FilterAgreesExactly([], [s]);
    WholeChunkIsRegion(s);
  }

  lemma WholeChunkIsRegion(s: Bytes)
    requires HasSuffix(s, BLANK)
    ensures RunFiltered([], [s]) ==> RegionFiltered(s)
  {
    hide RegionFiltered;
    LastBlankAtEnd(s);
    var chunks := [s];
    assert [] + chunks[0] == s && s[..|s|] == s;
  }

  lemma LastBlankAtEnd(s: Bytes)
    requires HasSuffix(s, BLANK)
    ensures LastIndex(s, BLANK) == |s| - 2
  {
    assert s[|s| - 2..] == BLANK;
    BlankAt(s, |s| - 2);
    BlankAt(s, LastIndex(s, BLANK));
  }

  lemma NoNewlineIn(l: Bytes)
    requires forall c | c in l :: c != '\n'
    ensures Lines(l) == [l]
  {
    forall k | 0 <= k < |l|
      ensures l[k] != '\n'
    {
      assert l[k] in l;
    }
    NewlineAt(l, Index(l, NL));
  }

  lemma NotSuspicious(s: Bytes)
    requires s == "data: \n\n"
    ensures !Suspicious(s)
  {
    var k := Index(s, "data:\n");
    if k != -1 {
      AtByte(s, "data:\n", k, 0);
      AtByte(s, "data:\n", k, 5);
    }
  }

  /** A bare `data:` with a blank behind it passes the substring test and is handed on. */
  lemma BlankBehindDataIsKept() returns (s: Bytes)
    ensures s == "data: \n\n"
    ensures RunOut([], [s]) + RunPending([], [s]) != DropReleased(s)
  {
    hide RunOut, RunPending, DropReleased, RegionFiltered;
    s := "data: \n\n";
    BareLineOverlooked(s);
    assert s[|s| - 2..] == BLANK;
    OneRegion(s);
  }

  lemma BareLineOverlooked(s: Bytes)
    requires s == "data: \n\n"
    ensures !RegionFiltered(s)
  {
    hide Suspicious, TrimSpace;
    var l := "data: ";
    TrimBlankBehind();
    NotSuspicious(s);
    assert s == l + NL + NL;
    LinesOfParts(l, NL);
    NoNewlineIn(l);
    assert l in Lines(s);
  }

  // ---- the closure as an object ----

  /** Nothing of a stream without a blank line is handed on before its end. */
  lemma {:induction false} HeldWithoutBlank(pending: Bytes, chunks: seq<Bytes>)
    requires LastIndex(pending + Concat(chunks), BLANK) == -1
    ensures RunOut(pending, chunks) == [] && RunPending(pending, chunks) == pending + Concat(chunks)
    decreases |chunks|
  {
    hide Clean;
    if chunks == [] {
      assert pending + [] == pending;
    } else {
      var b, next := pending + chunks[0], Concat(chunks[1..]);
      InputUnfolds(pending, chunks);
      var k := LastIndex(b, BLANK);
      if k != -1 {
        AtPrefix(b, next, BLANK, k);
      }
      HeldWithoutBlank(b, chunks[1..]);
    }
  }

  /** In particular nothing of a stream whose lines all end in CRLF, for the test looks for two LFs. */
  lemma CrLfStreamIsHeld(chunks: seq<Bytes>)
    requires var s := Concat(chunks); forall i | 0 <= i < |s| && s[i] == '\n' :: i > 0 && s[i - 1] == '\r'
    ensures RunOut([], chunks) == [] && RunPending([], chunks) == Concat(chunks)
  {
    hide RunOut, RunPending;
    var s := Concat(chunks);
    assert [] + s == s;
    BlankAt(s, LastIndex(s, BLANK));
    HeldWithoutBlank([], chunks);
  }

  class FrameFilter {
    var openaiPending: Bytes

    constructor ()
      ensures openaiPending == []
    {
      openaiPending := [];
    }

    /** One call: hands on the part that ends in a blank line, cleaned, and holds the rest. */
    method Filter(chunk: Bytes) returns (out: Bytes)
      modifies this
      ensures openaiPending == NextPending(old(openaiPending), chunk)
      ensures out == Emitted(old(openaiPending), chunk)
    {
      hide Join, Lines, Kept, Contains;
      var combined := chunk;
      if |openaiPending| > 0 {
        combined := openaiPending + chunk;
        openaiPending := [];
      } else {
        assert [] + chunk == chunk;
      }
      var lastIdx := LastIndex(combined, BLANK);
      if lastIdx == -1 {
        openaiPending := combined;
        return [];
      }
      var readyEnd := lastIdx + 2;
      var ready := combined[..readyEnd];
      openaiPending := combined[readyEnd..];
      var hasBadFrame := Contains(ready, "data: null") || Contains(ready, "data:null") || Contains(ready, "data:\n");
      if hasBadFrame {
        var kept := KeepLines(Lines(ready));
        var cleaned := Join(kept);
        if cleaned != ready {
          return cleaned;
        }
        return ready;
      }
      return ready;
    }

    lemma KeptFrom(ls: seq<Bytes>, i: nat)
      requires i < |ls|
      ensures Kept(ls[i..]) == (if Bare(ls[i]) then [] else [ls[i]]) + Kept(ls[i + 1..])
    {
      assert ls[i..][1..] == ls[i + 1..];
    }

    method KeepLines(lines: seq<Bytes>) returns (kept: seq<Bytes>)
      ensures kept == Kept(lines)
    {
      hide TrimSpace;
      kept := [];
      for i := 0 to |lines|
        invariant kept + Kept(lines[i..]) == Kept(lines)
      {
        var t := TrimSpace(lines[i]);
        KeptFrom(lines, i);
        if t != "data: null" && t != "data:null" && t != "data:" {
          assert !Bare(lines[i]);
          assert kept + ([lines[i]] + Kept(lines[i + 1..])) == kept + [lines[i]] + Kept(lines[i + 1..]);
          kept := kept + [lines[i]];
        }
      }
    }
  }
}
