/** The classifier against a reader that knows neither chunks nor blocks. The reader takes one byte
    at a time, looks at a line when its newline arrives and closes a group of lines at a blank one.
    It shows what a cut stream still guarantees when CR and LF do get separated. */
module ClassifierLines {
  import opened ByteStrings
  import opened TextLines
  import opened FrameClassification
  import FF = FrameFiltering

  /** The line being read, whether the current group has a field or a ping line, and what was seen. */
  datatype Reader = Reader(line: Bytes, field: bool, ping: bool, data: bool, marks: Marks)

  function AtGroupStart(s: Seen): Reader { Reader([], false, false, s.data, s.marks) }

  function EndLine(u: UsageOf, r: Reader): Reader {
    if r.line == [] then Reader([], false, false, r.data || (r.field && !r.ping), r.marks)
    else Reader([], r.field || IsField(r.line), r.ping || IsPing(r.line), r.data, MarkLine(u, r.marks, r.line))
  }

  function ReadByte(u: UsageOf, r: Reader, c: char): Reader {
    if c == '\n' then EndLine(u, r) else r.(line := r.line + [c])
  }

  function Read(u: UsageOf, r: Reader, s: Bytes): Reader
    decreases |s|
  {
    if s == [] then r else Read(u, ReadByte(u, r, s[0]), s[1..])
  }

  /** End of the text: the last line and the last group are complete. */
  function Finish(u: UsageOf, r: Reader): Seen {
    var q := EndLine(u, EndLine(u, r));
    Seen(q.data, q.marks)
  }

  /** The normalised chunks one after the other. */
  function NormalizeAll(chunks: seq<Bytes>): Bytes {
    if chunks == [] then [] else Normalize(chunks[0]) + NormalizeAll(chunks[1..])
  }

  lemma {:induction false} ReadParts(u: UsageOf, r: Reader, a: Bytes, b: Bytes)
    ensures Read(u, r, a + b) == Read(u, Read(u, r, a), b)
    decreases |a|
  {
    hide EndLine;
    if a == [] {
      assert a + b == b;
    } else {
      assert (a + b)[1..] == a[1..] + b;
      ReadParts(u, ReadByte(u, r, a[0]), a[1..], b);
    }
  }

  lemma ReadNewline(u: UsageOf, r: Reader)
    ensures Read(u, r, NL) == EndLine(u, r)
  {
    hide EndLine;
    assert NL[1..] == "";
  }

  lemma {:induction false} ReadPlain(u: UsageOf, r: Reader, l: Bytes)
    requires Index(l, NL) == -1
    ensures Read(u, r, l) == r.(line := r.line + l)
    decreases |l|
  {
    hide EndLine;
    if l == [] {
      assert r.line + l == r.line;
    } else {
      NewlineAt(l, 0);
      var k := Index(l[1..], NL);
      NewlineAt(l[1..], k);
      NewlineAt(l, k + 1);
      ReadPlain(u, ReadByte(u, r, l[0]), l[1..]);
      assert r.line + [l[0]] + l[1..] == r.line + l;
    }
  }

  /** One line with its newline. */
  lemma ReadLine(u: UsageOf, r: Reader, l: Bytes, z: Bytes)
    requires Index(l, NL) == -1 && r.line == []
    ensures Read(u, r, l + NL + z) == Read(u, EndLine(u, r.(line := l)), z)
  {
    hide EndLine;
    ReadParts(u, r, l + NL, z);
    ReadParts(u, r, l, NL);
    ReadPlain(u, r, l);
    assert r.line + l == l;
    ReadNewline(u, r.(line := l));
  }

  /** What a group of lines does to the reader. */
  function GroupEnd(u: UsageOf, r: Reader, ls: seq<Bytes>): Reader {
    Reader([], false, false,
           r.data || ((r.field || AnyField(ls)) && !(r.ping || AnyPing(ls))),
           MarkLines(u, r.marks, ls))
  }

  lemma BlankLineIsNothing(l: Bytes)
    requires TrimSpace(l) == ""
    ensures !IsField(l) && !IsPing(l)
  {
  }

  lemma GroupEndFirst(u: UsageOf, r: Reader, l: Bytes, ls: seq<Bytes>)
    requires l != []
    ensures GroupEnd(u, r, [l] + ls) == GroupEnd(u, EndLine(u, r.(line := l)), ls)
  {
    hide IsField, IsPing, MarkLine;
    assert ([l] + ls)[1..] == ls;
    assert forall x :: x in [l] + ls <==> x == l || x in ls;
  }

  lemma GroupEndEmpty(u: UsageOf, r: Reader, ls: seq<Bytes>)
    ensures GroupEnd(u, r, [""] + ls) == GroupEnd(u, r, ls)
  {
    EmptyIsBlank();
    BlankLineIsNothing("");
    assert MarkLine(u, r.marks, "") == r.marks;
    hide IsField, IsPing, MarkLine;
    assert ([""] + ls)[1..] == ls;
    assert forall x :: x in [""] + ls <==> x == "" || x in ls;
  }

  lemma EmptyIsBlank()
    ensures TrimSpace("") == ""
  {
    var k := TrimIsPart("");
  }

  /** The first line of `s`, with what two newlines more make of the rest. */
  lemma FirstOfGroup(s: Bytes, i: nat)
    requires i == Index(s, NL)
    ensures i < |s| && Index(s[..i], NL) == -1 && Lines(s) == [s[..i]] + Lines(s[i + 1..])
    ensures s + NL + NL == s[..i] + NL + (s[i + 1..] + NL + NL)
    ensures s[..i] == [] <==> s[0] == '\n'
  {
    hide Lines;
    FirstLine(s);
    FF.PlainLine(s, i);
    FF.SplitAtNewline(s, i);
    TwoNewlinesMore(s[..i], s[i + 1..]);
    NewlineAt(s, 0);
    assert i == 0 <==> s[..i] == [];
  }

  lemma TwoNewlinesMore(l: Bytes, z: Bytes)
    ensures l + NL + z + NL + NL == l + NL + (z + NL + NL)
  {
  }

  /** Lines without a blank line among them, then a blank line: one group. */
  lemma {:induction false} ReadGroup(u: UsageOf, r: Reader, s: Bytes)
    requires r.line == [] && Index(s, FF.BLANK) == -1
    requires s != [] && s[0] == '\n' ==> !r.field && !r.ping
    ensures Read(u, r, s + NL + NL) == GroupEnd(u, r, Lines(s))
    decreases |s|
  {
    hide EndLine, GroupEnd, IsField, IsPing, MarkLine, Read, Lines;
    var i := Index(s, NL);
    if i == -1 {
      ReadLastLine(u, r, s);
    } else {
      FirstOfGroup(s, i);
      FirstLine(s);
      NoBlankBehind(s, i);
      var l, z := s[..i], s[i + 1..];
      LineEnd(u, r, l);
      ReadLine(u, r, l, z + NL + NL);
      ReadGroup(u, EndLine(u, r.(line := l)), z);
      GroupEndLine(u, r, l, Lines(z));
    }
  }

  lemma GroupEndLine(u: UsageOf, r: Reader, l: Bytes, ls: seq<Bytes>)
    requires r.line == [] && (l == [] ==> !r.field && !r.ping)
    ensures GroupEnd(u, r, [l] + ls) == GroupEnd(u, EndLine(u, r.(line := l)), ls)
  {
    if l == [] {
      LineEnd(u, r, l);
      GroupEndEmpty(u, r, ls);
    } else {
      GroupEndFirst(u, r, l, ls);
    }
    hide GroupEnd, EndLine;
  }

  lemma LineEnd(u: UsageOf, r: Reader, l: Bytes)
    requires r.line == []
    ensures EndLine(u, r.(line := l)).line == []
    ensures l == [] && !r.field && !r.ping ==> EndLine(u, r.(line := l)) == r
  {
  }

  lemma ReadLastLine(u: UsageOf, r: Reader, s: Bytes)
    requires r.line == [] && Index(s, NL) == -1
    ensures Read(u, r, s + NL + NL) == GroupEnd(u, r, Lines(s))
  {
    hide IsField, IsPing, MarkLine;
    ReadLine(u, r, s, NL);
    ReadNewline(u, EndLine(u, r.(line := s)));
    assert Lines(s) == [s] + [];
    if s == [] {
      GroupEndEmpty(u, r, []);
    } else {
      GroupEndFirst(u, r, s, []);
    }
  }

  lemma NoBlankBehind(s: Bytes, i: nat)
    requires i < |s| && s[i] == '\n' && Index(s, FF.BLANK) == -1
    ensures Index(s[i + 1..], FF.BLANK) == -1
    ensures i + 1 < |s| ==> s[i + 1..][0] != '\n'
  {
    FF.BlankAt(s, i);
    assert s == s[..i + 1] + s[i + 1..];
    AtShift(s[..i + 1], s[i + 1..], FF.BLANK, Index(s[i + 1..], FF.BLANK));
  }

  /** Skipping a block of white space is only a shortcut. */
  lemma BlockIsGroup(u: UsageOf, s: Seen, block: Bytes)
    ensures AtGroupStart(Classified(u, s, block)) == GroupEnd(u, AtGroupStart(s), Lines(block))
  {
    if TrimSpace(block) == "" {
      hide TrimSpace, Lines;
      BlankTextHasBlankLines(block);
      var ls := Lines(block);
      forall l | l in ls
        ensures !IsField(l) && !IsPing(l)
      {
        BlankLineIsNothing(l);
      }
      MarkBlankLines(u, s.marks, ls);
    }
  }

  lemma {:induction false} MarkBlankLines(u: UsageOf, m: Marks, ls: seq<Bytes>)
    requires forall l | l in ls :: !IsField(l)
    ensures MarkLines(u, m, ls) == m
    decreases |ls|
  {
    hide IsField;
    if ls != [] {
      assert ls[0] in ls;
      assert MarkLine(u, m, ls[0]) == m;
      MarkBlankLines(u, m, ls[1..]);
    }
  }

  /** A complete block, with the blank line behind it. */
  lemma ReadBlock(u: UsageOf, s: Seen, block: Bytes)
    requires Index(block, FF.BLANK) == -1
    ensures Read(u, AtGroupStart(s), block + NL + NL) == AtGroupStart(Classified(u, s, block))
  {
    hide Read, GroupEnd, Classified;
    ReadGroup(u, AtGroupStart(s), block);
    BlockIsGroup(u, s, block);
  }

  /** Draining the carry moves finished groups from the text into the flags and nothing else. */
  lemma {:induction false} DrainIsRead(u: UsageOf, c: Classifier)
    ensures var d := Drain(u, c);
      Read(u, AtGroupStart(d.seen), d.carry) == Read(u, AtGroupStart(c.seen), c.carry)
    decreases |c.carry|
  {
    hide Read, Classified;
    var i := Index(c.carry, FF.BLANK);
    if i != -1 {
      var b, z := c.carry[..i], c.carry[i + 2..];
      FF.BlankAt(c.carry, i);
      assert c.carry == b + NL + NL + z;
      FirstBlockHasNoBlank(c.carry, i);
      ReadBlock(u, c.seen, b);
      ReadParts(u, AtGroupStart(c.seen), b + NL + NL, z);
      DrainIsRead(u, Classifier(z, Classified(u, c.seen, b)));
    }
  }

  lemma FirstBlockHasNoBlank(s: Bytes, i: nat)
    requires i == Index(s, FF.BLANK) && i <= |s|
    ensures Index(s[..i], FF.BLANK) == -1
  {
    var k := Index(s[..i], FF.BLANK);
    assert s == s[..i] + s[i..];
    if k != -1 {
      AtPrefix(s[..i], s[i..], FF.BLANK, k);
    }
  }

  /** The classifier has seen what the reader sees in the normalised chunks. */
  lemma {:induction false} AnalyzeAllIsRead(u: UsageOf, c: Classifier, chunks: seq<Bytes>)
    ensures var d := AnalyzedAll(u, c, chunks);
      Read(u, AtGroupStart(d.seen), d.carry) == Read(u, AtGroupStart(c.seen), c.carry + NormalizeAll(chunks))
    decreases |chunks|
  {
    hide Read, Drain, Normalize;
    if chunks == [] {
      assert c.carry + [] == c.carry;
    } else {
      var t := c.carry + Normalize(chunks[0]);
      var a := Drain(u, c.(carry := t));
      var z := NormalizeAll(chunks[1..]);
      DrainIsRead(u, c.(carry := t));
      AnalyzeAllIsRead(u, a, chunks[1..]);
      ReadParts(u, AtGroupStart(a.seen), a.carry, z);
      ReadParts(u, AtGroupStart(c.seen), t, z);
      assert c.carry + NormalizeAll(chunks) == t + z;
    }
  }

  /** Flushing reads the rest of the carry as the reader does at the end of the text. */
  lemma FlushIsFinish(u: UsageOf, c: Classifier)
    requires Index(c.carry, FF.BLANK) == -1
    ensures Flushed(u, c).seen == Finish(u, Read(u, AtGroupStart(c.seen), c.carry))
  {
    hide Read, EndLine, Classified;
    var s, k := c.seen, c.carry;
    var r := Read(u, AtGroupStart(s), k);
    ReadBlock(u, s, k);
    ReadParts(u, AtGroupStart(s), k + NL, NL);
    ReadParts(u, AtGroupStart(s), k, NL);
    ReadNewline(u, r);
    ReadNewline(u, EndLine(u, r));
    TrailingBlankLines(u, s, k);
    if k == "" {
      EmptyBlock(u, s);
    }
  }

  lemma EmptyBlock(u: UsageOf, s: Seen)
    ensures Classified(u, s, "") == s
  {
    EmptyIsBlank();
  }

  lemma TrailingBlankLines(u: UsageOf, s: Seen, block: Bytes)
    ensures Classified(u, s, block + "\n\n") == Classified(u, s, block)
  {
    hide Classified, GroupEnd;
    assert block + "\n\n" == block + NL + NL + "";
    LinesOfParts(block + NL, "");
    LinesOfParts(block, "");
    NewlineAt("", Index("", NL));
    assert Lines("") == [""];
    assert block + NL + "" == block + NL;
    GroupEndTrailing(u, AtGroupStart(s), Lines(block));
    GroupEndTrailing(u, AtGroupStart(s), Lines(block) + [""]);
    BlockIsGroup(u, s, block);
    BlockIsGroup(u, s, block + "\n\n");
  }

  lemma GroupEndTrailing(u: UsageOf, r: Reader, ls: seq<Bytes>)
    ensures GroupEnd(u, r, ls + [""]) == GroupEnd(u, r, ls)
  {
    EmptyIsBlank();
    BlankLineIsNothing("");
    hide IsField, IsPing;
    assert forall x :: x in ls + [""] <==> x in ls || x == "";
    MarkTrailing(u, r.marks, ls);
  }

  lemma {:induction false} MarkTrailing(u: UsageOf, m: Marks, ls: seq<Bytes>)
    requires !IsField("")
    ensures MarkLines(u, m, ls + [""]) == MarkLines(u, m, ls)
    decreases |ls|
  {
    hide IsField;
    if ls == [] {
      assert ls + [""] == [""];
      assert MarkLine(u, m, "") == m;
    } else {
      assert (ls + [""])[1..] == ls[1..] + [""];
      MarkTrailing(u, MarkLine(u, m, ls[0]), ls[1..]);
    }
  }

  /** After the flush the classifier has seen exactly what the reader sees in the whole text. */
  lemma ClassifierIsReader(u: UsageOf, chunks: seq<Bytes>)
    ensures Flushed(u, AnalyzedAll(u, FRESH, chunks)).seen
         == Finish(u, Read(u, AtGroupStart(FRESH.seen), NormalizeAll(chunks)))
  {
    hide Read, Finish;
    FF.BlankAt([], Index([], FF.BLANK));
    CarryHasNoBlankLine(u, FRESH, chunks);
    AnalyzeAllIsRead(u, FRESH, chunks);
    assert FRESH.carry + NormalizeAll(chunks) == NormalizeAll(chunks);
    FlushIsFinish(u, AnalyzedAll(u, FRESH, chunks));
  }

  // ---- streams cut between CR and LF ----

  /** `q` read the stream in one piece, `p` read it with additional newlines behind newlines. */
  predicate Refines(q: Reader, p: Reader) {
    && p.line == q.line && p.marks == q.marks
    && (q.data ==> p.data)
    && (p.ping ==> q.ping)
    && (q.field ==> q.ping || p.data || p.field)
  }

  lemma {:induction false} RefinesRead(u: UsageOf, q: Reader, p: Reader, s: Bytes)
    requires Refines(q, p)
    ensures Refines(Read(u, q, s), Read(u, p, s))
    decreases |s|
  {
    if s != [] {
      hide IsField, IsPing, MarkLine;
      RefinesRead(u, ReadByte(u, q, s[0]), ReadByte(u, p, s[0]), s[1..]);
    }
  }

  lemma ReadFrom(u: UsageOf, q: Reader, p: Reader, late: bool, s: Bytes)
    requires if late then Refines(EndLine(u, q), p) && p.line == [] else Refines(q, p)
    requires late ==> s != [] && s[0] == '\n'
    ensures Refines(Read(u, q, s), Read(u, p, s))
  {
    hide IsField, IsPing, MarkLine;
    if late {
      RefinesRead(u, EndLine(u, q), EndLine(u, p), s[1..]);
    } else {
      RefinesRead(u, q, p, s);
    }
  }

  /** `late`: the cut reader has already ended the line whose LF opens the next chunk. */
  lemma {:induction false} CutsRefine(u: UsageOf, q: Reader, p: Reader, late: bool, chunks: seq<Bytes>)
    requires if late then Refines(EndLine(u, q), p) && p.line == [] else Refines(q, p)
    requires late ==> Concat(chunks) != [] && Concat(chunks)[0] == '\n'
    ensures Refines(Read(u, q, Normalize(Concat(chunks))), Read(u, p, NormalizeAll(chunks)))
    decreases |chunks|
  {
    hide EndLine, Refines, Normalize, Read;
    if chunks == [] {
      NormalizeEmpty();
      ReadEmpty(u, q);
      ReadEmpty(u, p);
    } else {
      var c, cs := chunks[0], chunks[1..];
      var next, n := Concat(cs), Normalize(c);
      NormalizeParts(c, next);
      ReadParts(u, p, n, NormalizeAll(cs));
      if c == [] {
        NormalizeEmpty();
        assert c + next == next && n + NormalizeAll(cs) == NormalizeAll(cs);
        CutsRefine(u, q, p, late, cs);
      } else if CutsCrLf(c, next) {
        var x := n[..|n| - 1];
        assert n == x + NL;
        NormalizeFirst(c);
        ReadFrom(u, q, p, late, x);
        EndBoth(u, Read(u, q, x), Read(u, p, x));
        ReadParts(u, p, x, NL);
        ReadNewline(u, Read(u, p, x));
        ReadParts(u, q, x, Normalize(next));
        CutsRefine(u, Read(u, q, x), Read(u, p, n), true, cs);
      } else {
        NormalizeFirst(c);
        ReadFrom(u, q, p, late, n);
        ReadParts(u, q, n, Normalize(next));
        CutsRefine(u, Read(u, q, n), Read(u, p, n), false, cs);
      }
    }
  }

  lemma NormalizeEmpty()
    ensures Normalize([]) == []
  {
  }

  lemma ReadEmpty(u: UsageOf, r: Reader)
    ensures Read(u, r, []) == r
  {
  }

  lemma EndBoth(u: UsageOf, q: Reader, p: Reader)
    requires Refines(q, p)
    ensures Refines(EndLine(u, q), EndLine(u, p)) && EndLine(u, p).line == []
  {
    hide IsField, IsPing, MarkLine;
  }

  /** A leading LF stays the first byte; a CR at the end adds at least one more. */
  lemma NormalizeFirst(c: Bytes)
    requires c != []
    ensures c[0] == '\n' ==> Normalize(c) != [] && Normalize(c)[0] == '\n'
    ensures c[0] == '\n' && c[|c| - 1] == '\r' ==> |Normalize(c)| >= 2
  {
    if c[0] == '\n' {
      var t := CrLfToLf(c[1..]);
      assert CrLfToLf(c) == ['\n'] + t;
      if |c| >= 2 {
        assert t != [];
      }
    }
  }

  /** Wherever the stream is cut, the marker flag and the token totals after the flush are those of
      the uncut stream, and no data event is lost. Flushing once more changes nothing. */
  lemma CutsLoseNothing(u: UsageOf, chunks: seq<Bytes>)
    ensures var cut := Flushed(u, AnalyzedAll(u, FRESH, chunks));
      var whole := Flushed(u, Analyzed(u, FRESH, Concat(chunks)));
      && cut.seen.marks == whole.seen.marks
      && (whole.seen.data ==> cut.seen.data)
      && Flushed(u, cut) == cut
  {
    hide Read, Normalize, AtGroupStart, Analyzed, Finish, Classified;
    var s := AtGroupStart(FRESH.seen);
    ClassifierIsReader(u, chunks);
    OneChunk(u, Concat(chunks));
    CutsRefine(u, s, s, false, chunks);
    FinishRefines(u, Read(u, s, Normalize(Concat(chunks))), Read(u, s, NormalizeAll(chunks)));
  }

  lemma OneChunk(u: UsageOf, s: Bytes)
    ensures Flushed(u, Analyzed(u, FRESH, s)).seen == Finish(u, Read(u, AtGroupStart(FRESH.seen), Normalize(s)))
  {
    hide Read, Normalize, Analyzed, Finish, Flushed;
    var chunks := [s];
    ClassifierIsReader(u, chunks);
    assert chunks[1..] == [];
    assert NormalizeAll(chunks) == Normalize(s) + NormalizeAll([]) == Normalize(s);
    assert AnalyzedAll(u, FRESH, chunks) == AnalyzedAll(u, Analyzed(u, FRESH, s), []);
  }

  lemma FinishRefines(u: UsageOf, q: Reader, p: Reader)
    requires Refines(q, p)
    ensures Finish(u, q).marks == Finish(u, p).marks && (Finish(u, q).data ==> Finish(u, p).data)
  {
    hide IsField, IsPing, MarkLine;
  }

  // ---- what a separated CRLF can change ----

  lemma {:induction false} NormalizePlain(s: Bytes)
    requires forall c | c in s :: c != '\r'
    ensures Normalize(s) == s
    decreases |s|
  {
    if s != [] {
      assert s[0] in s && forall c | c in s[1..] :: c in s;
      NormalizePlain(s[1..]);
      assert s == [s[0]] + s[1..];
    }
  }

  lemma PlainLines(a: Bytes, b: Bytes)
    requires forall c | c in a + b :: c != '\n'
    ensures Lines(a) == [a] && Lines(a + NL + b) == [a, b]
    ensures Index(a, FF.BLANK) == -1 && Index(b, FF.BLANK) == -1 && Index(a + NL + b, FF.BLANK) == -1
  {
    forall k
      ensures 0 <= k < |a| ==> a[k] != '\n'
      ensures 0 <= k < |b| ==> b[k] != '\n'
    {
      assert 0 <= k < |a| ==> a[k] in a + b;
      assert 0 <= k < |b| ==> b[k] in a + b;
    }
    FF.NoNewlineIn(a);
    FF.NoNewlineIn(b);
    LinesOfParts(a, b);
    FF.BlankAt(a, Index(a, FF.BLANK));
    FF.BlankAt(b, Index(b, FF.BLANK));
    var s := a + NL + b;
    FF.BlankAt(s, Index(s, FF.BLANK));
  }

  /** A group that is a ping line and one other field shows a data event once the two are split. */
  lemma SplitPingShowsData(u: UsageOf, a: Bytes, b: Bytes)
    requires forall c | c in a + b :: c != '\n'
    requires IsPing(a) && IsField(b) && !IsPing(b)
    ensures !Finish(u, Read(u, AtGroupStart(FRESH.seen), a + NL + b + NL + NL)).data
    ensures Finish(u, Read(u, AtGroupStart(FRESH.seen), a + NL + NL + (b + NL + NL))).data
  {
    hide Read, IsField, IsPing, MarkLine;
    var s, r := FRESH.seen, AtGroupStart(FRESH.seen);
    PlainLines(a, b);
    assert b == b + [] && forall c | c in b + [] :: c in a + b;
    PlainLines(b, []);
    assert a in [a] && a in [a, b] && b in [b];
    ReadGroup(u, r, a + NL + b);
    ReadGroup(u, r, a);
    ReadParts(u, r, a + NL + NL, b + NL + NL);
    ReadGroup(u, GroupEnd(u, r, [a]), b);
    FieldOfPing(a);
  }

  lemma FieldOfPing(a: Bytes)
    ensures IsPing(a) ==> IsField(a)
  {
    hide TrimSpace;
  }

  /** Two chunks that separate a CR from its LF: the uncut stream shows no data event, the cut one
      shows one. */
  lemma SeparatedCrLfExample(u: UsageOf) returns (chunks: seq<Bytes>)
    ensures chunks == ["event: ping\r", "\ndata: 1\n\n"]
    ensures !Flushed(u, Analyzed(u, FRESH, Concat(chunks))).seen.data
    ensures Flushed(u, AnalyzedAll(u, FRESH, chunks)).seen.data
  {
    hide Flushed, Analyzed, AnalyzedAll, Finish, Read, Normalize, AtGroupStart, IsPing, IsField;
    var a, b := "event: ping", "data: 1";
    PingAndField();
    var x, y := a + "\r", "\n" + b + NL + NL;
    chunks := [x, y];
    assert x == "event: ping\r" && y == "\ndata: 1\n\n";
    NormalizePlain(a);
    NormalizePlain(y);
    NormalizeParts(a, "\r");
    LoneCrNormalized();
    NormalizeParts(x, y);
    assert Concat([y]) == y + Concat([]) == y;
    assert chunks[1..] == [y] && Concat(chunks) == x + y;
    assert (a + NL)[..|a|] == a;
    assert Normalize(x + y) == a + NL + b + NL + NL;
    assert NormalizeAll([y]) == Normalize(y) + NormalizeAll([]) == y;
    assert NormalizeAll(chunks) == a + NL + NL + (b + NL + NL);
    OneChunk(u, x + y);
    ClassifierIsReader(u, chunks);
    SplitPingShowsData(u, a, b);
  }

  lemma LoneCrNormalized()
    ensures Normalize("\r") == "\n"
  {
    assert CrLfToLf("\r") == ['\r'] + CrLfToLf([]);
    assert CrToLf("\r") == ['\n'] + CrToLf([]);
  }

  lemma PingAndField()
    ensures IsPing("event: ping") && IsField("data: 1") && !IsPing("data: 1")
  {
    hide TrimSpace;
    TrimSolid("event: ping");
    TrimSolid("data: 1");
    TrimSolid("ping");
    assert "event: ping"[6..] == " " + "ping";
    assert Lower("data: 1"[0]) != "event:"[0];
  }
}
