/** What a clean result reports of the stream, against one pass over what the client was sent. The
    classifier never sees the held tails; when that shows, and when it does not. */
module PumpReports {
  import opened ByteStrings
  import opened TextLines
  import opened FrameClassification
  import opened Eom
  import opened SseEvents
  import opened PumpModel
  import opened PumpSafety
  import opened PumpDelivery
  import CL = ClassifierLines
  import CG = ClassifierGroups
  import FF = FrameFiltering
  import TS = ThinkStripping
  import Spans = ThinkSpans

  // ---- what the result reports ----

  /** What the stages handed on, chunk by chunk. */
  function StageOuts(o: Options, chunks: seq<Bytes>): seq<Bytes> {
    if chunks == [] then []
    else
      var n := |chunks| - 1;
      StageOuts(o, chunks[..n]) + [StageOut(o, RunStages(o, chunks[..n]), chunks[n])]
  }

  lemma {:induction false} AnalyzedSnoc(u: UsageOf, c: Classifier, chunks: seq<Bytes>, x: Bytes)
    ensures AnalyzedAll(u, c, chunks + [x]) == Analyzed(u, AnalyzedAll(u, c, chunks), x)
    decreases |chunks|
  {
    hide Analyzed;
    if chunks == [] {
      assert ([] + [x])[1..] == [];
    } else {
      assert (chunks + [x])[1..] == chunks[1..] + [x];
      AnalyzedSnoc(u, Analyzed(u, c, chunks[0]), chunks[1..], x);
    }
  }

  lemma {:induction false} StagesClassify(o: Options, chunks: seq<Bytes>)
    requires o.isSSE
    ensures var st := RunStages(o, chunks);
      && st.cls == AnalyzedAll(o.usageOf, FrameClassification.FRESH, StageOuts(o, chunks))
      && st.out == Concat(StageOuts(o, chunks))
    decreases |chunks|
  {
    if chunks != [] {
      var n := |chunks| - 1;
      var x := StageOut(o, RunStages(o, chunks[..n]), chunks[n]);
      StagesClassify(o, chunks[..n]);
      hide StageOut, Analyzed, AnalyzedAll, Concat, Stripped, TS.NextState, FF.NextPending;
      AnalyzedSnoc(o.usageOf, FrameClassification.FRESH, StageOuts(o, chunks[..n]), x);
      ConcatSnoc(StageOuts(o, chunks[..n]), x);
    }
  }

  lemma CleanDoneReports(o: Options, st: Stages)
    ensures var r := CleanDone(o, st).result;
      && r.usage == Flushed(o.usageOf, st.cls).seen.marks.usage
      && (r.status == 200 ==> (r.empty <==> o.isSSE && !Flushed(o.usageOf, st.cls).seen.data))
  {
    hide Flushed, Unterminated;
  }

  /** What one call with all of `t`, and the flush, see. */
  function OnePass(u: UsageOf, t: Bytes): Seen { Flushed(u, Analyzed(u, FrameClassification.FRESH, t)).seen }

  /** A delivered 200 reports the flushed classifier of its stages. */
  lemma ReportIsClassifier(c: Config, s: State, r: Result)
    requires Reachable(c, s) && r in s.out.results && r.status == 200 && c.o.isSSE
    ensures s.rd.stages == RunStages(c.o, s.up.read)
    ensures PayloadOf(s.out.wire) == s.rd.stages.out + Tail(s.rd.stages)
    ensures s.rd.stages.out == Concat(StageOuts(c.o, s.up.read))
    ensures var u := c.o.usageOf;
      var seen := Flushed(u, AnalyzedAll(u, FrameClassification.FRESH, StageOuts(c.o, s.up.read))).seen;
      r.usage == seen.marks.usage && (r.empty <==> !seen.data)
  {
    hide RunStages, PayloadOf, Flushed, AnalyzedAll, Tail, Unterminated, StageOuts;
    Status200IsComplete(c, s, r);
    ReachableInv(c, s);
    DeliveredDone(c, s, r);
    GoodDoneShape(c, s.up.read, s.rd, s.out.ended[0]);
    CleanDoneReports(c.o, s.rd.stages);
    StagesClassify(c.o, s.up.read);
    hide Reachable, Inv, GoodDone, CleanDone, Complete;
  }

  /** The totals of an SSE stream that ended with status 200 are those of one pass over all that was
      sent in front of the tail, however the stream was cut. It is reported empty for a pass without
      data exactly if that text shows data or the normalised chunks show none; in particular if no cut
      separates CR and LF. */
  lemma ReportedTotals(c: Config, s: State, r: Result)
    requires Reachable(c, s) && r in s.out.results && r.status == 200 && c.o.isSSE
    ensures var front, outs := OnePass(c.o.usageOf, s.rd.stages.out), StageOuts(c.o, s.up.read);
      && r.usage == front.marks.usage
      && (r.empty ==> !front.data)
      && ((r.empty <==> !front.data) <==>
            CG.ShowsData(Normalize(s.rd.stages.out)) || !CG.ShowsData(CL.NormalizeAll(outs)))
      && (NoCutCrLf(outs) ==> (r.empty <==> !front.data))
  {
    var u, outs := c.o.usageOf, StageOuts(c.o, s.up.read);
    ReportIsClassifier(c, s, r);
    CG.ReportsAlikeExactly(u, outs);
    CL.CutsLoseNothing(u, outs);
    if NoCutCrLf(outs) {
      FF.BlankAt([], Index([], FF.BLANK));
      ChunkingIsIrrelevant(u, FrameClassification.FRESH, outs);
    }
    hide Reachable, RunStages, PayloadOf, Flushed, Analyzed, AnalyzedAll, Tail, NoCutCrLf, StageOuts, CG.ShowsData,
      Normalize, CL.NormalizeAll, Concat;
  }

  // ---- one pass over two parts ----

  function AddMarks(m: Marks, k: Marks): Marks { Marks(m.stop || k.stop, m.usage.Plus(k.usage)) }

  function AddSeen(s: Seen, t: Seen): Seen { Seen(s.data || t.data, AddMarks(s.marks, t.marks)) }

  /** The reader as it would be had it seen `s` before. */
  function Shifted(s: Seen, r: CL.Reader): CL.Reader {
    r.(data := s.data || r.data, marks := AddMarks(s.marks, r.marks))
  }

  lemma MarkLineShift(u: UsageOf, m: Marks, k: Marks, l: Bytes)
    ensures MarkLine(u, AddMarks(m, k), l) == AddMarks(m, MarkLine(u, k, l))
  {
    hide IsField, TrimSpace, HasPrefixFold;
  }

  lemma EndLineShift(u: UsageOf, s: Seen, r: CL.Reader)
    ensures CL.EndLine(u, Shifted(s, r)) == Shifted(s, CL.EndLine(u, r))
  {
    hide IsField, IsPing, MarkLine;
    MarkLineShift(u, s.marks, r.marks, r.line);
  }

  lemma {:induction false} ReadShift(u: UsageOf, s: Seen, r: CL.Reader, t: Bytes)
    ensures CL.Read(u, Shifted(s, r), t) == Shifted(s, CL.Read(u, r, t))
    decreases |t|
  {
    if t != [] {
      EndLineShift(u, s, r);
      hide CL.EndLine;
      ReadShift(u, s, CL.ReadByte(u, r, t[0]), t[1..]);
    }
  }

  lemma FinishShift(u: UsageOf, s: Seen, r: CL.Reader)
    ensures CL.Finish(u, Shifted(s, r)) == AddSeen(s, CL.Finish(u, r))
  {
    EndLineShift(u, s, r);
    EndLineShift(u, s, CL.EndLine(u, r));
    hide CL.EndLine;
  }

  lemma NormalizeEndsLine(x: Bytes)
    requires FF.EndsLine(x)
    ensures FF.EndsLine(Normalize(x))
  {
    if x == "" {
      CL.NormalizeEmpty();
    } else {
      var y := x[..|x| - 1];
      assert x == y + NL;
      NormalizeParts(y, NL);
      CG.OneByteNormalized('\n');
      hide Normalize;
      assert Normalize(NL) == NL;
    }
  }

  /** Behind whole lines and an empty one no group is open. */
  lemma ReadEndsGroup(u: UsageOf, r: CL.Reader, a: Bytes)
    requires EndsGroup(a) && r == CL.AtGroupStart(Seen(r.data, r.marks))
    ensures var q := CL.Read(u, r, Normalize(a)); q == CL.AtGroupStart(Seen(q.data, q.marks))
  {
    hide CL.Read, Normalize, CL.EndLine;
    if a == "" {
      CL.NormalizeEmpty();
      CL.ReadEmpty(u, r);
    } else {
      var x := a[..|a| - 1];
      assert a == x + NL;
      NormalizeParts(x, NL);
      CG.OneByteNormalized('\n');
      NormalizeEndsLine(x);
      var n := Normalize(x);
      CL.ReadParts(u, r, n, NL);
      CL.ReadNewline(u, CL.Read(u, r, n));
      NothingPending(u, r, n);
      EmptyLineEndsGroup(u, CL.Read(u, r, n));
    }
  }

  lemma NothingPending(u: UsageOf, r: CL.Reader, n: Bytes)
    requires FF.EndsLine(n) && r.line == []
    ensures CL.Read(u, r, n).line == []
  {
    if n != "" {
      var y := n[..|n| - 1];
      assert n == y + NL;
      CL.ReadParts(u, r, y, NL);
      CL.ReadNewline(u, CL.Read(u, r, y));
      hide CL.Read;
    }
  }

  lemma EmptyLineEndsGroup(u: UsageOf, r: CL.Reader)
    requires r.line == []
    ensures var q := CL.EndLine(u, r); q == CL.AtGroupStart(Seen(q.data, q.marks))
  {
  }

  lemma OnePassIsRead(u: UsageOf, t: Bytes)
    ensures OnePass(u, t) == CL.Finish(u, CL.Read(u, CL.AtGroupStart(FrameClassification.FRESH.seen), Normalize(t)))
  {
    hide CL.Read, CL.Finish, Normalize, Flushed, Analyzed;
    CL.OneChunk(u, t);
  }

  lemma FinishAtGroupStart(u: UsageOf, s: Seen)
    ensures CL.Finish(u, CL.AtGroupStart(s)) == s
    ensures Shifted(s, CL.AtGroupStart(FrameClassification.FRESH.seen)) == CL.AtGroupStart(s)
  {
  }

  /** A text that ends a group is seen independently of what follows it. */
  lemma OnePassParts(u: UsageOf, a: Bytes, b: Bytes)
    requires EndsGroup(a)
    ensures OnePass(u, a + b) == AddSeen(OnePass(u, a), OnePass(u, b))
  {
    hide CL.Read, CL.Finish, Normalize, OnePass, AddSeen;
    var r := CL.AtGroupStart(FrameClassification.FRESH.seen);
    NormalizeParts(a, b);
    var q := CL.Read(u, r, Normalize(a));
    CL.ReadParts(u, r, Normalize(a), Normalize(b));
    ReadEndsGroup(u, r, a);
    var s := Seen(q.data, q.marks);
    FinishAtGroupStart(u, s);
    ReadShift(u, s, r, Normalize(b));
    FinishShift(u, s, CL.Read(u, r, Normalize(b)));
    OnePassIsRead(u, a);
    OnePassIsRead(u, b);
    OnePassIsRead(u, a + b);
    hide Shifted;
  }

  // ---- the report of a filtered stream ----

  lemma EndsGroupParts(a: Bytes, b: Bytes)
    requires EndsGroup(a) && EndsGroup(b)
    ensures EndsGroup(a + b)
  {
    if b == "" {
      assert a + b == a;
    } else {
      assert (a + b)[..|a + b| - 1] == a + b[..|b| - 1];
    }
  }

  /** What a filtered stream has handed on ends a group, and no cut in it separates CR and LF. */
  lemma {:induction false} FilteredOutsEndGroups(o: Options, chunks: seq<Bytes>)
    requires Filters(o)
    ensures EndsGroup(RunStages(o, chunks).out)
    ensures forall x | x in StageOuts(o, chunks) :: EndsGroup(x)
    decreases |chunks|
  {
    if chunks != [] {
      var n := |chunks| - 1;
      var st := RunStages(o, chunks[..n]);
      FilteredOutsEndGroups(o, chunks[..n]);
      FilterOutputEndsGroup(st.pending, Stripped(o, st, chunks[n]));
      EndsGroupParts(st.out, StageOut(o, st, chunks[n]));
      hide EndsGroup, Analyzed, FF.Emitted, Stripped, TS.NextState, FF.NextPending;
    }
  }

  lemma {:induction false} GroupsAreNotCut(xs: seq<Bytes>)
    requires forall x | x in xs :: EndsGroup(x)
    ensures NoCutCrLf(xs)
    decreases |xs|
  {
    if xs != [] {
      assert xs[0] in xs && forall x | x in xs[1..] :: x in xs;
      GroupsAreNotCut(xs[1..]);
    }
  }

  /** A clean result of a filtered stream, against one pass over what the client was sent: the token
      totals are those of the pass exactly if the tail carries none, and the stream is reported empty
      for a pass without data exactly if the part in front of the tail shows data or the tail shows
      none either. */
  lemma ReportAgreesExactly(c: Config, s: State, r: Result)
    requires Reachable(c, s) && r in s.out.results && r.status == 200 && Filters(c.o)
    ensures var u := c.o.usageOf;
      var sent, front := OnePass(u, PayloadOf(s.out.wire)), OnePass(u, s.rd.stages.out);
      var tail := OnePass(u, Tail(s.rd.stages));
      && sent == AddSeen(front, tail)
      && r.usage == front.marks.usage && (r.empty <==> !front.data)
      && (r.usage == sent.marks.usage <==> tail.marks.usage == NO_USAGE)
      && ((r.empty <==> !sent.data) <==> front.data || !tail.data)
  {
    hide Reachable, RunStages, StageOuts, NoCutCrLf, EndsGroup, PayloadOf, Tail, Unterminated, Flushed, Analyzed,
      OnePass, AnalyzedAll, CG.ShowsData, Normalize, CL.NormalizeAll, Concat;
    ReportIsClassifier(c, s, r);
    ReportedTotals(c, s, r);
    FilteredOutsEndGroups(c.o, s.up.read);
    GroupsAreNotCut(StageOuts(c.o, s.up.read));
    OnePassParts(c.o.usageOf, s.rd.stages.out, Tail(s.rd.stages));
  }

  // ---- runs ----

  /** A stream of one read whose whole output is held to the end. */
  predicate HeldWhole(c: Config) {
    && Filters(c.o) && c.clean && c.upstream != []
    && StageOut(c.o, STAGES0, c.upstream) == []
    && !Unterminated(StageNext(c.o, STAGES0, c.upstream)) && Tail(StageNext(c.o, STAGES0, c.upstream)) != []
  }

  lemma Extend(c: Config, s: State, a: Action)
    requires Reachable(c, s) && Enabled(c, s, a)
    ensures Reachable(c, Apply(c, s, a))
  {
    var actions :| Exec(c, actions) == Ends(s);
    var more := actions + [a];
    assert more[..|more| - 1] == actions;
    hide Apply, Enabled, Init;
    assert Exec(c, more) == Ends(Apply(c, s, a));
  }

  lemma InitReachable(c: Config)
    ensures Reachable(c, Init(c))
  {
    assert Exec(c, []) == Ends(Init(c));
  }

  /** The read comes back with everything and the end, and the reader decides on a clean end. */
  lemma HeldRead(c: Config) returns (s: State)
    requires HeldWhole(c)
    ensures Reachable(c, s)
    ensures var st := StageNext(c.o, STAGES0, c.upstream);
      s == Init(c).(up := Upstream([], false, NoRead, [c.upstream]),
                    rd := Reader(RTail(Tail(st), CleanDone(c.o, st)), st, []))
  {
    hide Reachable, StageNext, StageOut, Tail, Unterminated, CleanDone;
    s := Init(c);
    InitReachable(c);
    assert HasPrefix(c.upstream, c.upstream);
    Extend(c, s, ReadReturns(c.upstream, Eof));
    s := Apply(c, s, ReadReturns(c.upstream, Eof));
    assert s.up == Upstream([], false, ReadRes(c.upstream, Eof), []);
    Extend(c, s, TakeRead);
    s := Apply(c, s, TakeRead);
    assert [] + [c.upstream] == [c.upstream];
    Extend(c, s, ReaderStep);
    s := Apply(c, s, ReaderStep);
  }

  /** The tail is queued and written, then the done frame ends the stream. */
  lemma HeldWrite(c: Config, s: State, tail: Bytes, done: Frame) returns (t: State)
    requires Reachable(c, s) && s.rd.pc == RTail(tail, done) && done.Done? && done.reason == ""
    requires s.queue == [] && s.out == Init(c).out && s.rd.sent == []
    ensures Reachable(c, t) && t.out.wire == [Piece(TailPayload, tail)] && t.out.results == [done.result]
    ensures t.up == s.up && t.rd.stages == s.rd.stages
  {
    hide Reachable;
    Extend(c, s, ReaderSend);
    t := Apply(c, s, ReaderSend);
    assert t.queue == [TailData(tail)];
    Extend(c, t, Dequeue);
    t := Apply(c, t, Dequeue);
    Extend(c, t, WriteOk);
    t := Apply(c, t, WriteOk);
    t := HeldDone(c, t, done);
  }

  lemma HeldDone(c: Config, s: State, done: Frame) returns (t: State)
    requires Reachable(c, s) && s.rd.pc == RFinish(done) && done.Done? && done.reason == ""
    requires s.queue == [] && s.out.pc.OSelect? && s.out.results == []
    ensures Reachable(c, t) && t.out.wire == s.out.wire && t.out.results == [done.result]
    ensures t.up == s.up && t.rd.stages == s.rd.stages
  {
    hide Reachable;
    Extend(c, s, ReaderSend);
    t := Apply(c, s, ReaderSend);
    assert t.queue == [done];
    Extend(c, t, Dequeue);
    t := Apply(c, t, Dequeue);
    Extend(c, t, OutputStep);
    t := Apply(c, t, OutputStep);
  }

  /** A stream that is held to its end can be delivered with status 200, its tail the only write. */
  lemma HeldStreamIsDelivered(c: Config) returns (s: State, r: Result)
    requires HeldWhole(c)
    ensures var st := StageNext(c.o, STAGES0, c.upstream);
      && Reachable(c, s) && s.out.results == [r] && r == CleanDone(c.o, st).result && r.status == 200
      && s.out.wire == [Piece(TailPayload, Tail(st))] && s.rd.stages == st
  {
    hide Reachable, StageNext, StageOut, Tail, Unterminated, CleanDone;
    var st := StageNext(c.o, STAGES0, c.upstream);
    CleanDoneShape(c.o, st);
    CleanDoneReason(c.o, st);
    s := HeldRead(c);
    s := HeldWrite(c, s, Tail(st), CleanDone(c.o, st));
    r := CleanDone(c.o, st).result;
  }

  lemma CleanDoneReason(o: Options, st: Stages)
    ensures CleanDone(o, st).reason == "" <==> !Unterminated(st)
  {
    hide Flushed, Unterminated;
  }

  // ---- two such streams ----

  lemma DataLineIsHeld(o: Options)
    requires Filters(o) && !o.strip
    ensures StageOut(o, STAGES0, "data: 1\n") == []
    ensures var st := StageNext(o, STAGES0, "data: 1\n"); !Unterminated(st) && Tail(st) == "data: 1\n" && st.out == []
  {
    var x := "data: 1\n";
    assert "" + x == x;
    assert LastIndex(x, FF.BLANK) == -1 by {
      FF.BlankAt(x, LastIndex(x, FF.BLANK));
    }
    hide Analyzed;
  }

  /** A single field line that is no ping is a group that shows data. */
  lemma OneLineShowsData(l: Bytes)
    requires forall c | c in l :: c != '\n'
    requires l != "" && IsField(l) && !IsPing(l)
    ensures CG.ShowsData(l + NL)
  {
    hide IsField, IsPing;
    assert l == l + [];
    CL.PlainLines(l, []);
    assert l + NL == l + NL + [];
    OneGroup(l);
    assert l in [l];
  }

  lemma OneGroup(l: Bytes)
    requires l != ""
    ensures [l] in CG.Groups([l, []])
  {
    var ls: seq<Bytes> := [l, []];
    assert ls[1..] == [[]] && ls[1..][1..] == [];
    assert [l] + [] == [l];
  }

  lemma DataLineShowsData(u: UsageOf)
    ensures OnePass(u, "data: 1\n").data
  {
    hide IsField, IsPing, CG.ShowsData, Flushed, Analyzed, Normalize;
    CL.PingAndField();
    OneLineShowsData("data: 1");
    assert "data: 1" + NL == "data: 1\n";
    CL.NormalizePlain("data: 1\n");
    CG.WholeFlag(u, "data: 1\n");
  }

  lemma NothingShown()
    ensures !CG.ShowsData([])
  {
    var ls: seq<Bytes> := [[]];
    assert Lines([]) == ls && ls[1..] == [];
    assert CG.Groups(ls) == [[]] + CG.Groups([]) == [[], []];
  }

  lemma NothingShowsNoData(u: UsageOf)
    ensures !OnePass(u, []).data
  {
    hide Flushed, Analyzed, Normalize, CG.ShowsData;
    CL.NormalizeEmpty();
    CG.WholeFlag(u, []);
    NothingShown();
  }

  /** Every stream that is held whole can be delivered and is then reported empty, wrongly exactly if
      one pass over what the client was sent sees a data event. */
  lemma HeldStreamIsReportedEmpty(c: Config) returns (s: State, r: Result)
    requires HeldWhole(c)
    ensures Reachable(c, s) && s.out.results == [r] && r.status == 200 && r.empty
    ensures PayloadOf(s.out.wire) == Tail(StageNext(c.o, STAGES0, c.upstream))
    ensures (r.empty <==> !OnePass(c.o.usageOf, PayloadOf(s.out.wire)).data)
      <==> !OnePass(c.o.usageOf, Tail(StageNext(c.o, STAGES0, c.upstream))).data
  {
    hide Reachable, StageNext, Unterminated, Tail, OnePass, CleanDone;
    s, r := HeldStreamIsDelivered(c);
    OnePayload(s.out.wire[0]);
    assert r in s.out.results;
    ReportAgreesExactly(c, s, r);
    HeldOut(c.o, c.upstream);
    NothingShowsNoData(c.o.usageOf);
    hide AddSeen, StageOut;
  }

  lemma HeldOut(o: Options, x: Bytes)
    requires StageOut(o, STAGES0, x) == []
    ensures StageNext(o, STAGES0, x).out == []
  {
    hide StageOut, Analyzed;
  }

  /** A run that ends with status 200 and the report of an empty stream, although one pass over what
      the client was sent, the line `data: 1`, sees a data event. */
  lemma SentDataIsReportedEmpty(c: Config) returns (s: State, r: Result)
    requires Filters(c.o) && !c.o.strip && c.clean && c.upstream == "data: 1\n"
    ensures Reachable(c, s) && s.out.results == [r] && r.status == 200 && r.empty
    ensures PayloadOf(s.out.wire) == "data: 1\n" && OnePass(c.o.usageOf, PayloadOf(s.out.wire)).data
  {
    hide Reachable, StageNext, StageOut, Unterminated, Tail, OnePass;
    DataLineIsHeld(c.o);
    s, r := HeldStreamIsReportedEmpty(c);
    DataLineShowsData(c.o.usageOf);
  }

  lemma OnePayload(x: Piece)
    requires IsPayload(x)
    ensures PayloadOf([x]) == x.bytes
  {
    assert [x][..0] == [];
  }

  /** A run in which the client is written `<a` for the upstream bytes `a<`. */
  lemma TailsReachTheClientSwapped(c: Config) returns (s: State)
    requires Filters(c.o) && c.o.strip && c.clean && c.upstream == "a<"
    ensures Reachable(c, s) && PayloadOf(s.out.wire) == "<a"
    ensures |s.out.results| == 1 && s.out.results[0].status == 200
  {
    hide Reachable, StageNext, StageOut, Unterminated, Tail, CleanDone;
    var x := TailsOutOfOrder(c.o);
    SwappedIsHeld(c.o);
    var r: Result;
    s, r := HeldStreamIsDelivered(c);
    OnePayload(s.out.wire[0]);
  }

  lemma SwappedIsHeld(o: Options)
    requires Filters(o) && o.strip
    ensures var st := StageNext(o, STAGES0, "a<");
      StageOut(o, STAGES0, "a<") == [] && !Unterminated(st) && Tail(st) == "<a"
  {
    var x := TailsOutOfOrder(o);
    assert [x][..0] == [];
    hide FF.Emitted, FF.NextPending, TS.Emitted, Analyzed, Tail;
    assert RunStages(o, [x]) == StageNext(o, STAGES0, x);
    assert RunStages(o, [x]).out == [] + StageOut(o, STAGES0, x);
  }
}
