/** How a stream ends: what each done frame reports of the stages, when the synthetic end is due in
    terms of what the stream has shown, and which event every abnormal end goes back to. */
module PumpEnds {
  import opened ByteStrings
  import opened FrameClassification
  import opened Eom
  import opened SseEvents
  import opened PumpModel
  import opened PumpSafety
  import opened PumpReports
  import CL = ClassifierLines
  import PP = PumpProgress

  // ---- what a done frame reports ----

  const REASONS: set<Bytes> := {
    "", "upstream_ended_mid_frame", "upstream_closed", "upstream_stream_error", "sse_idle_timeout",
    "client_disconnected"}

  predicate ByCancel(reason: Bytes) { reason in {"sse_idle_timeout", "client_disconnected"} }

  /** The classifier an end reports: flushed, unless the stream was cancelled. */
  function Reported(o: Options, st: Stages, reason: Bytes): Classifier {
    if ByCancel(reason) then st.cls else Flushed(o.usageOf, st.cls)
  }

  /** Status and error text belong to the reason; flags and totals to the classifier. */
  predicate Truthful(o: Options, st: Stages, f: Frame) {
    && f.Done? && f.reason in REASONS
    && f.sawStop == Reported(o, st, f.reason).seen.marks.stop
    && f.result.usage == Reported(o, st, f.reason).seen.marks.usage
    && f.result.chunks == st.chunks
    && f.result.status == (if f.reason == "" then 200 else if f.reason == "sse_idle_timeout" then 504 else 502)
    && (f.reason != "upstream_stream_error" ==> f.result.error == f.reason)
    && (f.result.empty <==> f.reason == "" && o.isSSE && !Reported(o, st, "").seen.data)
  }

  lemma CleanIsTruthful(o: Options, st: Stages)
    ensures Truthful(o, st, CleanDone(o, st))
  {
    hide Flushed, Unterminated;
  }

  lemma BrokenIsTruthful(o: Options, st: Stages, error: Bytes)
    ensures Truthful(o, st, BrokenDone(o, st, "upstream_closed", "upstream_closed"))
    ensures Truthful(o, st, BrokenDone(o, st, "upstream_stream_error", error))
  {
    hide Flushed;
  }

  lemma CancelIsTruthful(o: Options, st: Stages, idle: bool)
    ensures Truthful(o, st, CancelDone(st, idle))
  {
    hide Flushed;
  }

  lemma GoodIsTruthful(c: Config, read: seq<Bytes>, rd: Reader, f: Frame)
    requires GoodDone(c, read, rd, f)
    ensures Truthful(c.o, rd.stages, f)
  {
    CleanIsTruthful(c.o, rd.stages);
    BrokenIsTruthful(c.o, rd.stages, f.result.error);
    CancelIsTruthful(c.o, rd.stages, true);
    CancelIsTruthful(c.o, rd.stages, false);
    hide Truthful, CleanDone, BrokenDone, CancelDone, Unterminated, Tail, Concat;
  }

  lemma {:induction false} ChunksCounted(o: Options, chunks: seq<Bytes>)
    ensures RunStages(o, chunks).chunks == |chunks|
    decreases |chunks|
  {
    hide StageOut, Analyzed, Stripped;
    if chunks != [] {
      ChunksCounted(o, chunks[..|chunks| - 1]);
    }
  }

  /** The marks an end reports, from the bytes alone: those of one pass over all that the stages handed
      on, or, for a cancelled stream, those of the blocks that were complete. */
  function EndMarks(o: Options, read: seq<Bytes>, out: Bytes, reason: Bytes): Marks {
    if ByCancel(reason) then AnalyzedAll(o.usageOf, FrameClassification.FRESH, StageOuts(o, read)).seen.marks
    else OnePass(o.usageOf, out).marks
  }

  lemma ReportedMarks(o: Options, read: seq<Bytes>, reason: Bytes)
    requires o.isSSE
    ensures var st := RunStages(o, read); Reported(o, st, reason).seen.marks == EndMarks(o, read, st.out, reason)
  {
    hide RunStages, StageOuts, Flushed, Analyzed, AnalyzedAll, Concat;
    StagesClassify(o, read);
    CL.CutsLoseNothing(o.usageOf, StageOuts(o, read));
  }

  /** Every delivered result but that of a write failure is one of six ends; status, error, number of
      chunks and token totals are those of the stream as it was read. */
  lemma EveryEndIsReported(c: Config, s: State)
    requires Reachable(c, s) && s.out.results != []
    ensures s.out.broken ==> s.out.results == [WRITE_FAILED]
    ensures !s.out.broken ==>
      && |s.out.ended| == 1 && Truthful(c.o, s.rd.stages, s.out.ended[0])
      && s.out.results == [s.out.ended[0].result]
      && s.out.ended[0].result.chunks == |s.up.read|
      && (c.o.isSSE ==>
            s.out.ended[0].result.usage == EndMarks(c.o, s.up.read, s.rd.stages.out, s.out.ended[0].reason).usage)
  {
    ReachableInv(c, s);
    StagesOfRead(c, s);
    DeliveredParts(c, s);
    hide Inv, Reachable, RunStages, Truthful, EndMarks, Reported;
    if !s.out.broken {
      var f := s.out.ended[0];
      ChunksCounted(c.o, s.up.read);
      TruthfulReport(c.o, s.rd.stages, f);
      if c.o.isSSE {
        ReportedMarks(c.o, s.up.read, f.reason);
      }
    }
  }

  lemma TruthfulReport(o: Options, st: Stages, f: Frame)
    requires Truthful(o, st, f)
    ensures f.result.chunks == st.chunks && f.result.usage == Reported(o, st, f.reason).seen.marks.usage
    ensures f.sawStop == Reported(o, st, f.reason).seen.marks.stop && f.reason in REASONS
  {
  }

  lemma StagesOfRead(c: Config, s: State)
    requires Inv(c, s)
    ensures s.rd.stages == RunStages(c.o, s.up.read)
  {
  }

  lemma DeliveredParts(c: Config, s: State)
    requires Inv(c, s) && s.out.results != []
    ensures s.out.broken ==> s.out.results == [WRITE_FAILED]
    ensures !s.out.broken ==>
      && |s.out.ended| == 1 && Truthful(c.o, s.rd.stages, s.out.ended[0])
      && s.out.results == [s.out.ended[0].result]
  {
    hide InvRead, InvSent, InvQueue, InvFifo, InvTerminal, InvTerminalBytes, Truthful;
    if !s.out.broken {
      TakenIsGood(c, s);
      GoodIsTruthful(c, s.up.read, s.rd, s.out.ended[0]);
      hide GoodDone;
    }
  }

  // ---- the synthetic end ----

  /** The end of an SSE stream that a client could mistake for a complete answer: abnormal, not for a
      disconnect, and no stop marker was seen. */
  predicate Due(c: Config, read: seq<Bytes>, out: Bytes, reason: Bytes) {
    c.o.isSSE && reason != "" && reason != "client_disconnected" && !EndMarks(c.o, read, out, reason).stop
  }

  /** With a result delivered, the wire ends in the two writes of the synthetic end exactly if it is
      due, and holds none of them otherwise; a torn-down stream holds none. */
  lemma SyntheticEndExactly(c: Config, s: State)
    requires Reachable(c, s) && s.out.results != []
    ensures s.out.broken ==> NoTerminal(s.out.wire)
    ensures !s.out.broken ==> |s.out.ended| == 1 && s.out.ended[0].Done?
    ensures !s.out.broken ==>
      && (TerminalSuffix(s.out.wire, 2) <==> Due(c, s.up.read, s.rd.stages.out, s.out.ended[0].reason))
      && (NoTerminal(s.out.wire) <==> !Due(c, s.up.read, s.rd.stages.out, s.out.ended[0].reason))
  {
    SyntheticEndOfFrame(c, s);
    ReachableInv(c, s);
    StagesOfRead(c, s);
    DeliveredParts(c, s);
    hide Inv, Reachable, RunStages, EndMarks, Reported, SSEErrorFrame, AbnormalFinish;
    NoneOrTwo(s.out.wire);
    if !s.out.broken {
      var f := s.out.ended[0];
      TruthfulReport(c.o, s.rd.stages, f);
      hide Truthful, TerminalSuffix, NoTerminal;
      if c.o.isSSE {
        ReportedMarks(c.o, s.up.read, f.reason);
      }
    }
  }

  lemma NoneOrTwo(w: seq<Piece>)
    ensures TerminalSuffix(w, 0) <==> NoTerminal(w)
    ensures TerminalSuffix(w, 2) ==> !NoTerminal(w)
  {
    assert w[..|w| - 0] == w && w[|w| - 0..] == [];
    if |w| >= 2 {
      assert w[|w| - 2..][0] in w[|w| - 2..] && w[|w| - 2..][0] in w;
    }
  }

  // ---- what an end goes back to ----

  /** The done frame that a reader step decides on. */
  predicate Decides(c: Config, s: State, f: Frame) {
    && (s.rd.pc.RSwitch? || s.rd.pc.RCancel?)
    && var pc := NextReaderPc(c, s.rd.pc, s.rd.stages, s.flags);
       (pc.RFinish? || pc.RTail?) && pc.done == f
  }

  /** Action `n` of the run decided on `f`; had the output torn the stream down by then, it has now. */
  predicate DecidedAt(c: Config, actions: seq<Action>, n: nat, f: Frame, broken: bool) {
    && n < |actions| && actions[n] == ReaderStep
    && Exec(c, actions[..n]).Ends? && Decides(c, Exec(c, actions[..n]).s, f)
    && (Exec(c, actions[..n]).s.out.broken ==> broken)
  }

  /** A done frame on its way: held by the reader, queued, or taken. */
  predicate UnderWay(s: State, f: Frame) {
    || ((s.rd.pc.RFinish? || s.rd.pc.RTail?) && s.rd.pc.done == f)
    || (f.Done? && f in s.queue)
    || f in s.out.ended
  }

  lemma SentIsUnderWay(c: Config, s: State, f: Frame)
    requires InvSent(c, s.up.read, s.rd) && Enabled(c, s, ReaderSend) && UnderWay(Apply(c, s, ReaderSend), f)
    ensures UnderWay(s, f)
  {
    hide GoodDone, Complete, Tail, CleanDone;
  }

  lemma TakenIsUnderWay(c: Config, s: State, f: Frame)
    requires Enabled(c, s, Dequeue) && UnderWay(Apply(c, s, Dequeue), f)
    ensures UnderWay(s, f)
  {
    hide Injects;
    assert s.queue[0] in s.queue && forall g | g in s.queue[1..] :: g in s.queue;
  }

  lemma ReaderDecides(c: Config, s: State, a: Action, f: Frame)
    requires Enabled(c, s, a) && ByReader(a) && !a.ReaderSend? && UnderWay(Apply(c, s, a), f)
    ensures UnderWay(s, f) || (a == ReaderStep && Decides(c, s, f))
  {
    hide StageOut, StageNext, NextReaderPc;
  }

  /** A step that decides on nothing brings no done frame under way. */
  lemma NothingNewUnderWay(c: Config, s: State, a: Action, f: Frame)
    requires InvSent(c, s.up.read, s.rd) && Enabled(c, s, a) && UnderWay(Apply(c, s, a), f)
    ensures UnderWay(s, f) || (a == ReaderStep && Decides(c, s, f))
  {
    hide InvSent, Decides;
    if a.ReaderSend? {
      SentIsUnderWay(c, s, f);
    } else if a.Dequeue? {
      TakenIsUnderWay(c, s, f);
    } else if ByReader(a) {
      ReaderDecides(c, s, a, f);
    } else {
      NoDoneMoves(c, s, a);
    }
    hide Apply, Enabled;
  }

  lemma NoDoneMoves(c: Config, s: State, a: Action)
    requires Enabled(c, s, a) && !ByReader(a) && !a.Dequeue?
    ensures var t := Apply(c, s, a);
      t.rd == s.rd && t.out.ended == s.out.ended && (t.queue == s.queue || t.queue == s.queue + [Liveness])
  {
    Frames(c, s, a);
    EndedStays(c, s, a);
    hide Apply, Enabled;
  }

  lemma {:induction false} DecidedOnce(c: Config, actions: seq<Action>, f: Frame) returns (n: nat)
    requires Exec(c, actions).Ends? && UnderWay(Exec(c, actions).s, f)
    ensures DecidedAt(c, actions, n, f, Exec(c, actions).s.out.broken)
    decreases |actions|
  {
    hide Apply, Enabled, Decides, UnderWay, Inv, Init;
    if actions == [] {
      NothingAtFirst(c, f);
    } else {
      var m := |actions| - 1;
      var before := actions[..m];
      var s, a := Exec(c, before).s, actions[m];
      ExecInv(c, before);
      SentOf(c, s);
      NothingNewUnderWay(c, s, a, f);
      PP.BrokenStays(c, s, a);
      if UnderWay(s, f) {
        n := DecidedOnce(c, before, f);
        assert before[..n] == actions[..n];
      } else {
        n := m;
      }
    }
  }

  lemma NothingAtFirst(c: Config, f: Frame)
    ensures !UnderWay(Init(c), f)
  {
  }

  lemma SentOf(c: Config, s: State)
    requires Inv(c, s)
    ensures InvSent(c, s.up.read, s.rd)
  {
  }

  /** Who raised the shared flags. */
  predicate InvCauses(actions: seq<Action>, s: State) {
    && (s.flags.idle ==> IdleFires in actions)
    && (s.wpc.WMarked? || s.wpc.WClosed? ==> s.flags.idle)
    && (s.flags.cancelled ==> ClientGone in actions || s.flags.idle || s.out.broken || s.mpc.MReturned?)
    && (s.rd.pc.RCancel? ==> s.flags.cancelled || s.flags.idle)
  }

  lemma CausesByReader(c: Config, s: State, a: Action, actions: seq<Action>)
    requires InvCauses(actions, s) && Enabled(c, s, a) && ByReader(a)
    ensures InvCauses(actions + [a], Apply(c, s, a))
  {
    hide StageOut, StageNext, CleanDone, BrokenDone, CancelDone, Tail, Unterminated;
  }

  lemma CausesByOthers(c: Config, s: State, a: Action, actions: seq<Action>)
    requires InvOutput(c, s.out, s.mpc, s.flags.stop)
    requires InvCauses(actions, s) && Enabled(c, s, a) && !ByReader(a)
    ensures InvCauses(actions + [a], Apply(c, s, a))
  {
    hide Writing, Injects, PieceKind;
    assert a in actions + [a];
    assert forall x | x in actions :: x in actions + [a];
  }

  lemma {:induction false} ExecCauses(c: Config, actions: seq<Action>)
    ensures Exec(c, actions).Ends? ==> InvCauses(actions, Exec(c, actions).s)
    decreases |actions|
  {
    hide Apply, Enabled, Inv, InvCauses, InvOutput;
    if actions == [] {
      FirstCauses(c);
    } else {
      var n := |actions| - 1;
      var before := actions[..n];
      ExecCauses(c, before);
      if Exec(c, actions).Ends? {
        var s, a := Exec(c, before).s, actions[n];
        ExecInv(c, before);
        PP.InvParts(c, s);
        assert actions == before + [a];
        if ByReader(a) {
          CausesByReader(c, s, a, before);
        } else {
          CausesByOthers(c, s, a, before);
        }
      }
    }
  }

  lemma FirstCauses(c: Config)
    ensures InvCauses([], Init(c))
  {
  }

  /** While the reader still decides, no result can have come but from a torn-down stream. */
  lemma DecidingIsBefore(c: Config, s: State)
    requires Inv(c, s) && (s.rd.pc.RSwitch? || s.rd.pc.RCancel?) && s.mpc.MReturned?
    ensures s.out.broken
  {
    hide InvRead, InvSent, InvFifo, InvTerminal, InvTerminalBytes, GoodDone;
  }

  lemma ReasonOf(c: Config, s: State, f: Frame)
    requires Decides(c, s, f)
    ensures f.Done?
    ensures s.rd.pc.RCancel? ==> f.reason == (if s.flags.idle then "sse_idle_timeout" else "client_disconnected")
    ensures s.rd.pc.RCancel? ==> (f.result.status == 504 <==> s.flags.idle)
    ensures s.rd.pc.RSwitch? || s.rd.pc.RCancel?
    ensures s.rd.pc.RSwitch? ==> !ByCancel(f.reason) && f.result.status != 504
    ensures f.reason == "upstream_stream_error" ==> s.rd.pc.RSwitch? && f.result.error == ErrText(s.rd.pc.err)
    ensures f.reason in {"", "upstream_ended_mid_frame"} ==> s.rd.pc.RSwitch? && s.rd.pc.err == Eof && !s.flags.closed
  {
    hide Flushed, Unterminated, Tail, ErrText;
  }

  /** The facts that a done frame decided on in state `t`, behind the actions `before`, stands for. */
  predicate Cause(before: seq<Action>, t: State, f: Frame) {
    && f.Done?
    && (f.result.status == 504 <==> t.rd.pc.RCancel? && t.flags.idle)
    && (f.reason == "sse_idle_timeout" ==> IdleFires in before)
    && (f.reason == "client_disconnected" ==> ClientGone in before && !t.flags.idle)
    && (f.reason == "upstream_stream_error" ==> t.rd.pc.RSwitch? && f.result.error == ErrText(t.rd.pc.err))
    && (f.reason in {"", "upstream_ended_mid_frame"} ==> t.rd.pc.RSwitch? && t.rd.pc.err == Eof && !t.flags.closed)
  }

  lemma DecidedForACause(c: Config, before: seq<Action>, t: State, f: Frame)
    requires Inv(c, t) && InvCauses(before, t) && Decides(c, t, f) && !t.out.broken
    ensures Cause(before, t, f)
  {
    ReasonOf(c, t, f);
    if t.mpc.MReturned? {
      DecidingIsBefore(c, t);
    }
    hide Inv, Decides, ErrText;
  }

  /** Why a stream ended as it did. With a result delivered for the done frame `f`, one step of the run
      decided on it: 504 exactly if the cancellation was handled with the idle flag raised, and then
      the watchdog had fired; a disconnect only behind a client that had gone; the text of a stream
      error is that of the read error; a clean end or an open span only behind a believed EOF. */
  lemma EndHasCause(c: Config, actions: seq<Action>) returns (n: nat, t: State)
    requires Exec(c, actions).Ends? && Exec(c, actions).s.out.results != [] && !Exec(c, actions).s.out.broken
    ensures |Exec(c, actions).s.out.ended| == 1
    ensures n < |actions| && actions[n] == ReaderStep && Exec(c, actions[..n]) == Ends(t)
    ensures Decides(c, t, Exec(c, actions).s.out.ended[0])
    ensures Cause(actions[..n], t, Exec(c, actions).s.out.ended[0])
  {
    hide Exec, Decides, Inv, InvCauses, Cause;
    var s := Exec(c, actions).s;
    ExecInv(c, actions);
    DeliveredPc(c, s);
    var f := s.out.ended[0];
    assert f in s.out.ended;
    n := DecidedOnce(c, actions, f);
    t := Exec(c, actions[..n]).s;
    ExecInv(c, actions[..n]);
    ExecCauses(c, actions[..n]);
    DecidedForACause(c, actions[..n], t, f);
  }
}
