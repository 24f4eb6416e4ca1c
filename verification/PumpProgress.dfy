/** Progress of the pump: the only states in which every goroutine waits for the outside are an idle
    stream and a stream that is completely torn down, no run goes on without ticks or empty reads,
    and a queued done frame is taken after at most eight frames. */
module PumpProgress {
  import opened ByteStrings
  import opened FrameClassification
  import opened SseEvents
  import opened PumpModel
  import opened PumpSafety

  // ---- no wedge ----

  /** Steps that need nothing from the outside but that a write ends, in success or at its deadline,
      and that a read whose body is closed returns. */
  predicate Internal(s: State, a: Action) {
    match a
    case ReadReturns(_, _) => s.flags.closed
    case Tick => false
    case IdleFires => false
    case ClientGone => false
    case _ => true
  }

  ghost predicate Waiting(c: Config, s: State) {
    forall a | Enabled(c, s, a) :: !Internal(s, a)
  }

  /** A live stream between two reads: everything queued is written, the reader waits for the
      upstream, and on an SSE stream the keepalive and the watchdog are at their tickers. */
  predicate Quiet(c: Config, s: State) {
    && s.rd.pc.RWait? && s.up.inflight && s.queue == [] && s.out.pc.OSelect? && s.mpc.MWait?
    && !s.flags.closed && !s.flags.cancelled && !s.flags.stop
    && (if c.o.isSSE then s.kpc.KWait? && s.wpc.WWait? else s.kpc.KExit? && s.wpc.WExit?)
  }

  /** Every goroutine has ended, the read in flight included. */
  predicate TornDown(s: State) {
    && s.rd.pc.RExit? && !s.up.inflight && s.out.pc.OExit? && s.mpc.MReturned?
    && s.kpc.KExit? && s.wpc.WExit?
  }

  predicate InvReaderLive(up: Upstream, rd: Reader, closed: bool) {
    && (rd.pc.RWait? ==> up.inflight || up.readBuf.ReadRes?)
    && (up.inflight && (rd.pc == RCancel(false) || rd.pc.RTail? || rd.pc.RFinish? || rd.pc.RExit?) ==> closed)
  }

  predicate InvEnding(c: Config, s: State) {
    && (s.mpc.MReturned? ==> s.flags.cancelled)
    && (s.flags.stop <==> s.mpc.MCancel? || s.mpc.MReturned?)
    && (if c.o.isSSE then s.kpc.KExit? || s.wpc.WExit? ==> Ending(s) else s.kpc.KExit? && s.wpc.WExit?)
  }

  /** An exited reader has left its done frame behind, unless the output was gone by then. */
  predicate InvDone(s: State) {
    && |s.queue| <= CAPACITY
    && (s.rd.pc.RExit? ==> DoneCount(s.queue) + |s.out.ended| == 1 || s.out.broken)
  }

  lemma ReaderLiveKept(c: Config, s: State, a: Action)
    requires InvRead(c, s.up, s.rd, s.flags.closed) && InvReaderLive(s.up, s.rd, s.flags.closed) && Enabled(c, s, a)
    ensures var t := Apply(c, s, a); InvReaderLive(t.up, t.rd, t.flags.closed)
  {
    hide StageOut, StageNext, CleanDone, BrokenDone, CancelDone, RunStages, Tail, Unterminated;
    Frames(c, s, a);
    if !ByReader(a) && !a.ReadReturns? {
      hide Apply, Enabled;
    }
  }

  lemma EndingKept(c: Config, s: State, a: Action)
    requires InvEnding(c, s) && Enabled(c, s, a)
    ensures InvEnding(c, Apply(c, s, a))
  {
    Frames(c, s, a);
    if s.rd.pc.RExit? {
      ExitStays(c, s, a);
    }
    TickersMove(c, s, a);
    MainMoves(c, s, a);
    hide Apply, Enabled;
  }

  lemma MainMoves(c: Config, s: State, a: Action)
    requires InvEnding(c, s) && Enabled(c, s, a)
    ensures var t := Apply(c, s, a);
      && (t.mpc.MReturned? ==> t.flags.cancelled)
      && (t.flags.stop <==> t.mpc.MCancel? || t.mpc.MReturned?)
  {
    if !a.MainStep? {
      Frames(c, s, a);
      hide Apply, Enabled;
    }
  }

  lemma ExitStays(c: Config, s: State, a: Action)
    requires Enabled(c, s, a) && s.rd.pc.RExit?
    ensures Apply(c, s, a).rd.pc.RExit?
  {
    if !ByReader(a) {
      Frames(c, s, a);
    }
  }

  /** The keepalive and the watchdog only end with the stream, and for good. */
  lemma TickersMove(c: Config, s: State, a: Action)
    requires Enabled(c, s, a)
    ensures var t := Apply(c, s, a);
      && (s.kpc.KExit? ==> t.kpc.KExit?) && (s.wpc.WExit? ==> t.wpc.WExit?)
      && (t.kpc.KExit? ==> s.kpc.KExit? || Ending(s))
      && (t.wpc.WExit? ==> s.wpc.WExit? || Ending(s) || t.flags.cancelled)
  {
    hide StageOut, StageNext, CleanDone, BrokenDone, CancelDone, Tail, Unterminated, Writing;
  }

  lemma DoneSent(c: Config, s: State)
    requires InvSent(c, s.up.read, s.rd) && InvDone(s) && Enabled(c, s, ReaderSend)
    requires DoneCount(s.queue) + |s.out.ended| == 0
    ensures InvDone(Apply(c, s, ReaderSend))
  {
    hide Complete, Tail, CleanDone;
    QueueAppend(s.queue, Offered(s.rd.pc));
    hide DoneCount;
  }

  lemma DoneTaken(c: Config, s: State)
    requires InvDone(s) && Enabled(c, s, Dequeue)
    ensures InvDone(Apply(c, s, Dequeue))
  {
    hide Injects;
  }

  /** If the reader finds the output gone, that has torn down or delivered a done frame. */
  lemma OutIsOver(c: Config, s: State)
    requires InvOutput(c, s.out, s.mpc, s.flags.stop) && InvDone(s) && Enabled(c, s, ReaderSeesOutDone)
    requires DoneCount(s.queue) + |s.out.ended| <= 1
    ensures InvDone(Apply(c, s, ReaderSeesOutDone))
  {
    hide DoneCount, Injects;
  }

  lemma DoneKept(c: Config, s: State, a: Action)
    requires Inv(c, s) && InvDone(s) && Enabled(c, s, a)
    ensures InvDone(Apply(c, s, a))
  {
    hide InvRead, InvSent, InvFifo, InvTerminal, InvTerminalBytes, InvOutput, GoodDone, DoneCount;
    match a {
      case ReaderSend => DoneSent(c, s); hide Apply, Enabled;
      case KeepaliveSend => QueueAppend(s.queue, Liveness);
      case Dequeue => DoneTaken(c, s); hide Apply, Enabled;
      case ReaderSeesOutDone => OutIsOver(c, s); hide Apply, Enabled;
      case _ =>
        BrokenStays(c, s, a);
        Frames(c, s, a);
        EndedStays(c, s, a);
        ExitedBefore(c, s, a);
        hide Apply, Enabled;
    }
  }

  lemma BrokenStays(c: Config, s: State, a: Action)
    requires Enabled(c, s, a)
    ensures s.out.broken ==> Apply(c, s, a).out.broken
  {
    if !ByOutput(a) {
      Frames(c, s, a);
    }
  }

  lemma ExitedBefore(c: Config, s: State, a: Action)
    requires Enabled(c, s, a) && !a.ReaderSend? && !a.ReaderSeesOutDone?
    ensures Apply(c, s, a).rd.pc.RExit? ==> s.rd.pc.RExit?
  {
    hide StageOut, StageNext, CleanDone, BrokenDone, CancelDone, Tail, Unterminated;
    if !ByReader(a) {
      Frames(c, s, a);
    }
  }

  predicate InvLive(c: Config, s: State) {
    Inv(c, s) && InvReaderLive(s.up, s.rd, s.flags.closed) && InvEnding(c, s) && InvDone(s)
  }

  lemma {:induction false} ExecLive(c: Config, actions: seq<Action>)
    ensures Exec(c, actions).Ends? ==> InvLive(c, Exec(c, actions).s)
    decreases |actions|
  {
    hide Apply, Enabled, Inv, InvReaderLive, InvEnding, InvDone, Init;
    ExecInv(c, actions);
    if actions == [] {
      InitLive(c);
    } else {
      var n := |actions| - 1;
      ExecLive(c, actions[..n]);
      if Exec(c, actions).Ends? {
        var s := Exec(c, actions[..n]).s;
        InvParts(c, s);
        ReaderLiveKept(c, s, actions[n]);
        EndingKept(c, s, actions[n]);
        DoneKept(c, s, actions[n]);
      }
    }
  }

  lemma InvParts(c: Config, s: State)
    requires Inv(c, s)
    ensures InvRead(c, s.up, s.rd, s.flags.closed) && InvOutput(c, s.out, s.mpc, s.flags.stop)
  {
  }

  lemma InitLive(c: Config)
    ensures var s := Init(c); InvReaderLive(s.up, s.rd, s.flags.closed) && InvEnding(c, s) && InvDone(s)
  {
  }

  lemma Blocked(c: Config, s: State, a: Action)
    requires Waiting(c, s) && Internal(s, a)
    ensures !Enabled(c, s, a)
  {
  }

  lemma StalledReader(c: Config, s: State)
    requires Waiting(c, s)
    ensures !s.rd.pc.RSwitch? && !s.rd.pc.RCancel? && !(s.rd.pc.RWait? && s.up.readBuf.ReadRes?)
    ensures Room(s) ==> !s.rd.pc.RSend? && !s.rd.pc.RTail? && !s.rd.pc.RFinish?
    ensures s.flags.cancelled ==> !s.rd.pc.RWait? && !s.rd.pc.RSend?
    ensures s.out.pc.OExit? ==> !s.rd.pc.RTail? && !s.rd.pc.RFinish?
    ensures s.up.inflight ==> !s.flags.closed
  {
    hide Waiting;
    Blocked(c, s, TakeRead);
    Blocked(c, s, ReaderStep);
    Blocked(c, s, ReaderSend);
    Blocked(c, s, ReaderSeesCancel);
    Blocked(c, s, ReaderSeesOutDone);
    if s.flags.closed {
      Blocked(c, s, ReadReturns([], Eof));
      assert s.up.rest[..0] == [];
    }
  }

  lemma StalledOthers(c: Config, s: State)
    requires Waiting(c, s)
    ensures (s.out.pc.OSelect? && s.queue == [] && !s.flags.stop) || s.out.pc.OExit?
    ensures Room(s) ==> !s.kpc.KTicked?
    ensures !s.wpc.WMarked? && !s.wpc.WClosed? && (Ending(s) ==> s.wpc.WExit? && s.kpc.KExit?)
    ensures if s.mpc.MWait? then s.out.results == [] else s.mpc.MReturned?
  {
    hide Waiting, Writing;
    Blocked(c, s, Dequeue);
    Blocked(c, s, WriteOk);
    Blocked(c, s, OutputStep);
    Blocked(c, s, OutputSeesStop);
    Blocked(c, s, KeepaliveSend);
    Blocked(c, s, KeepaliveEnds);
    Blocked(c, s, WatchdogStep);
    Blocked(c, s, WatchdogEnds);
    Blocked(c, s, MainStep);
  }

  lemma OnlyOutsideMoves(c: Config, s: State, a: Action)
    requires InvRead(c, s.up, s.rd, s.flags.closed) && InvOutput(c, s.out, s.mpc, s.flags.stop) && InvEnding(c, s)
    requires Quiet(c, s) || TornDown(s)
    requires Enabled(c, s, a)
    ensures !Internal(s, a)
  {
    hide Writing, EofIsTrue, RunStages, Concat;
  }

  /** No wedge: in a reachable state no goroutine can move on its own exactly if the stream is live
      and idle, or all goroutines have ended; the latter only with the one result delivered. */
  lemma NoWedge(c: Config, s: State)
    requires Reachable(c, s)
    ensures Waiting(c, s) <==> Quiet(c, s) || TornDown(s)
    ensures Quiet(c, s) ==> s.out.results == []
    ensures TornDown(s) ==> |s.out.results| == 1
  {
    var actions :| Exec(c, actions) == Ends(s);
    ExecLive(c, actions);
    hide Exec, InvRead, InvFifo, InvTerminal, InvTerminalBytes, InvSent, GoodDone;
    if Quiet(c, s) || TornDown(s) {
      forall a | Enabled(c, s, a)
        ensures !Internal(s, a)
      {
        OnlyOutsideMoves(c, s, a);
      }
    } else if Waiting(c, s) {
      StalledIsQuietOrDone(c, s);
    }
  }

  lemma StalledIsQuietOrDone(c: Config, s: State)
    requires InvLive(c, s) && Waiting(c, s)
    ensures Quiet(c, s) || TornDown(s)
  {
    StalledReader(c, s);
    StalledOthers(c, s);
    hide Waiting, InvRead, InvFifo, InvTerminal, InvTerminalBytes, InvSent, GoodDone;
  }

  /** A cancelled stream, a closed body or a queued done frame leaves no rest but the end: whenever
      the goroutines come to a stop, all of them have ended with one result delivered. */
  lemma EndedStreamsAreTornDown(c: Config, s: State)
    requires Reachable(c, s) && Waiting(c, s)
    requires s.flags.cancelled || s.flags.closed || s.queue != []
    ensures TornDown(s) && |s.out.results| == 1
  {
    hide Reachable, Waiting;
    NoWedge(c, s);
  }

  // ---- runs are bounded ----

  function ReaderRank(pc: ReaderPc): nat {
    match pc
    case RSend(_, _) => 21
    case RWait => 15
    case RSwitch(_, arm) => if arm == 1 then 14 else if arm == 2 then 13 else if arm == 3 then 12 else 11
    case RTail(_, _) => 10
    case RCancel(closing) => if closing then 7 else 6
    case RFinish(_) => 5
    case RExit => 0
  }

  function OutputRank(pc: OutputPc): nat {
    match pc
    case OWrite(_) => 12
    case OSelect => 10
    case OBreak(step) => if step == 1 then 5 else if step == 2 then 4 else 3
    case OError(_, _) => 4
    case OFinish(_) => 3
    case ODeliver(_) => 2
    case OReturn => 1
    case OExit => 0
  }

  function BufRank(b: ReadBuf): nat {
    if b.NoRead? then 0 else if b.data != [] then 7 else if b.err == NoErr then 2 else 0
  }

  function FlagRank(s: State): nat {
    (if s.flags.cancelled then 0 else 1)
    + (match s.kpc case KTicked => 6 case KWait => 1 case KExit => 0)
    + (match s.wpc case WWait => 3 case WMarked => 2 case WClosed => 1 case WExit => 0)
    + (match s.mpc case MWait => 3 case MStop => 2 case MCancel => 1 case MReturned => 0)
  }

  function ReadRank(up: Upstream): nat { 7 * |up.rest| + (if up.inflight then 1 else 0) + BufRank(up.readBuf) }

  /** What is left to do. */
  function Rank(s: State): nat {
    ReadRank(s.up) + ReaderRank(s.rd.pc) + 4 * |s.queue| + OutputRank(s.out.pc) + FlagRank(s)
  }

  /** Work that only the outside can bring: a tick of the keepalive, a read of nothing. */
  function Credit(a: Action): nat {
    match a
    case Tick => 6
    case ReadReturns(data, err) => if data == [] && err == NoErr then 2 else 0
    case _ => 0
  }

  function Credits(actions: seq<Action>): nat {
    if actions == [] then 0 else Credits(actions[..|actions| - 1]) + Credit(actions[|actions| - 1])
  }

  lemma OutputRanks(c: Config, o: Output, b: Bytes, ok: bool, f: Frame)
    ensures IsWriting(o.pc) ==> OutputRank(Written(o, b, ok).pc) < OutputRank(o.pc)
    ensures o.pc.OBreak? || o.pc.ODeliver? || o.pc.OReturn? ==> OutputRank(OutputStepped(o).pc) < OutputRank(o.pc)
    ensures o.pc.OSelect? ==> OutputRank(Taken(c, o, f).pc) < OutputRank(o.pc) + 4
  {
    hide Injects, PieceKind;
  }

  lemma OutputStepRanks(c: Config, s: State, a: Action)
    requires Enabled(c, s, a) && ByOutput(a)
    ensures Rank(Apply(c, s, a)) + 1 <= Rank(s)
  {
    hide Writing, ReadRank, ReaderRank;
    match a {
      case Dequeue => OutputRanks(c, s.out, [], true, s.queue[0]); hide Taken, OutputRank, FlagRank;
      case WriteOk => OutputRanks(c, s.out, Writing(c, s.out.pc), true, Liveness); hide Written, OutputRank, FlagRank;
      case WriteFails(n) =>
        OutputRanks(c, s.out, Writing(c, s.out.pc)[..n], false, Liveness);
        hide Written, OutputRank, FlagRank;
      case OutputStep => OutputRanks(c, s.out, [], true, Liveness); hide OutputStepped, OutputRank;
      case OutputSeesStop =>
    }
  }

  lemma ReaderPcRanks(c: Config, pc: ReaderPc, st: Stages, flags: Flags)
    requires pc.RSwitch? || pc.RCancel?
    ensures ReaderRank(NextReaderPc(c, pc, st, flags)) < ReaderRank(pc)
  {
    hide CleanDone, BrokenDone, CancelDone, Tail, Unterminated;
  }

  lemma TakeReadRanks(c: Config, s: State)
    requires s.rd.pc.RWait? && s.up.readBuf.ReadRes? && !s.up.inflight
    ensures var t := ApplyTakeRead(c, s);
      ReadRank(t.up) + ReaderRank(t.rd.pc) < ReadRank(s.up) + ReaderRank(s.rd.pc) && t == s.(up := t.up, rd := t.rd)
  {
    hide StageOut, StageNext;
  }

  lemma SendRanks(s: State)
    requires s.rd.pc.RSend? || s.rd.pc.RTail? || s.rd.pc.RFinish?
    requires s.rd.pc.RSend? ==> !s.up.inflight
    ensures var t := ApplyReaderSend(s);
      && ReadRank(t.up) + ReaderRank(t.rd.pc) + 4 < ReadRank(s.up) + ReaderRank(s.rd.pc)
      && |t.queue| == |s.queue| + 1 && t == s.(up := t.up, rd := t.rd, queue := t.queue)
  {
  }

  lemma ReaderStepRanks(c: Config, s: State, a: Action)
    requires InvRead(c, s.up, s.rd, s.flags.closed) && Enabled(c, s, a) && ByReader(a)
    ensures Rank(Apply(c, s, a)) + 1 <= Rank(s)
  {
    hide StageOut, StageNext, RunStages, Writing, Concat, EofIsTrue, ReadRank, BufRank;
    match a {
      case TakeRead => TakeReadRanks(c, s); hide ApplyTakeRead, ReaderRank;
      case ReaderSend => SendRanks(s); hide ApplyReaderSend, ReaderRank;
      case ReaderStep => ReaderPcRanks(c, s.rd.pc, s.rd.stages, s.flags); hide NextReaderPc, ReaderRank;
      case _ =>
    }
  }

  lemma ReadRanks(c: Config, s: State, data: Bytes, err: ReadErr)
    requires InvRead(c, s.up, s.rd, s.flags.closed) && Enabled(c, s, ReadReturns(data, err))
    ensures Rank(Apply(c, s, ReadReturns(data, err))) + 1 <= Rank(s) + Credit(ReadReturns(data, err))
  {
    hide ReaderRank, OutputRank, EofIsTrue, RunStages, Concat;
    var up, rest := s.up, s.up.rest[|data|..];
    assert |rest| == |up.rest| - |data| && (data != [] ==> |data| >= 1);
    assert ReadRank(up) == 7 * |up.rest| + 1;
    assert ReadRank(up.(inflight := false, readBuf := ReadRes(data, err), rest := rest)) ==
      7 * |rest| + BufRank(ReadRes(data, err));
  }

  lemma TickerRanks(c: Config, s: State, a: Action)
    requires Enabled(c, s, a) && !ByReader(a) && !ByOutput(a) && !a.ReadReturns?
    ensures Rank(Apply(c, s, a)) + 1 <= Rank(s) + Credit(a)
  {
    hide ReaderRank, OutputRank, ReadRank;
  }

  lemma StepRanks(c: Config, s: State, a: Action)
    requires InvRead(c, s.up, s.rd, s.flags.closed) && Enabled(c, s, a)
    ensures Rank(Apply(c, s, a)) + 1 <= Rank(s) + Credit(a)
  {
    hide Apply, Enabled, Rank, InvRead;
    if ByReader(a) {
      ReaderStepRanks(c, s, a);
    } else if ByOutput(a) {
      OutputStepRanks(c, s, a);
    } else if a.ReadReturns? {
      assert a == ReadReturns(a.data, a.err);
      ReadRanks(c, s, a.data, a.err);
    } else {
      TickerRanks(c, s, a);
    }
  }

  /** No run goes on by itself: it has at most seven steps for each upstream byte and 34 more, but
      for six for every keepalive tick and two for every read that returned nothing. */
  lemma {:induction false} RunsAreBounded(c: Config, actions: seq<Action>)
    requires Exec(c, actions).Ends?
    ensures |actions| + Rank(Exec(c, actions).s) <= 7 * |c.upstream| + 34 + Credits(actions)
    decreases |actions|
  {
    hide Apply, Enabled, InvRead, Rank, Credit;
    if actions == [] {
      assert Rank(Init(c)) <= 7 * |c.upstream| + 34 by { InitRank(c); }
    } else {
      var n := |actions| - 1;
      RunsAreBounded(c, actions[..n]);
      ExecInv(c, actions[..n]);
      InvParts(c, Exec(c, actions[..n]).s);
      StepRanks(c, Exec(c, actions[..n]).s, actions[n]);
    }
  }

  lemma InitRank(c: Config)
    ensures Rank(Init(c)) <= 7 * |c.upstream| + 34
  {
  }

  // ---- the done frame is taken within eight dequeues ----

  /** Frames in front of the done frame. */
  function Ahead(q: seq<Frame>): nat {
    if q == [] || q[0].Done? then 0 else 1 + Ahead(q[1..])
  }

  function Dequeues(actions: seq<Action>): nat {
    if actions == [] then 0
    else Dequeues(actions[..|actions| - 1]) + if actions[|actions| - 1].Dequeue? then 1 else 0
  }

  lemma {:induction false} AheadAppend(q: seq<Frame>, f: Frame)
    requires DoneCount(q) > 0
    ensures Ahead(q + [f]) == Ahead(q) && Ahead(q) < |q|
    ensures DoneCount(q + [f]) > 0
  {
    if q[0].Done? {
      assert (q + [f])[0] == q[0] && (q + [f])[1..] == q[1..] + [f];
    } else {
      assert (q + [f])[1..] == q[1..] + [f];
      AheadAppend(q[1..], f);
    }
  }

  /** The output is done with the queue. */
  predicate PastQueue(pc: OutputPc) { !pc.OSelect? && !pc.OWrite? }

  lemma DoneStepsUp(c: Config, s: State, a: Action)
    requires DoneCount(s.queue) > 0 && Enabled(c, s, a)
    ensures var t := Apply(c, s, a);
      PastQueue(t.out.pc) || (DoneCount(t.queue) > 0 && Ahead(s.queue) == Ahead(t.queue) + if a.Dequeue? then 1 else 0)
    ensures a.Dequeue? && Ahead(s.queue) == 0 ==> PastQueue(Apply(c, s, a).out.pc)
  {
    hide StageOut, StageNext, CleanDone, BrokenDone, CancelDone, RunStages, Tail, Unterminated, Writing, Injects;
    match a {
      case ReaderSend => AheadAppend(s.queue, Offered(s.rd.pc));
      case KeepaliveSend => AheadAppend(s.queue, Liveness);
      case Dequeue =>
      case _ => Frames(c, s, a); hide Apply, Enabled;
    }
  }

  lemma PastQueueStays(c: Config, s: State, a: Action)
    requires PastQueue(s.out.pc) && Enabled(c, s, a)
    ensures PastQueue(Apply(c, s, a).out.pc) && !a.Dequeue?
  {
    if !ByOutput(a) {
      Frames(c, s, a);
      hide Apply, Enabled;
    }
  }

  /** Once a done frame is queued, in every run from there the output takes at most eight frames,
      whatever keepalives arrive: it has either left the queue for good or moved every dequeue one
      frame closer to the done frame. */
  lemma {:induction false} DoneWithinEight(c: Config, s: State, actions: seq<Action>)
    requires |s.queue| <= CAPACITY && DoneCount(s.queue) > 0 && Run(c, s, actions).Ends?
    ensures var t := Run(c, s, actions).s;
      && Dequeues(actions) <= Ahead(s.queue) + 1 <= CAPACITY
      && (PastQueue(t.out.pc)
          || (DoneCount(t.queue) > 0 && Dequeues(actions) + Ahead(t.queue) == Ahead(s.queue)))
    decreases |actions|
  {
    hide Apply, Enabled, PastQueue;
    AheadAppend(s.queue, Liveness);
    hide Ahead, DoneCount;
    if actions != [] {
      var n := |actions| - 1;
      DoneWithinEight(c, s, actions[..n]);
      var t := Run(c, s, actions[..n]).s;
      if PastQueue(t.out.pc) {
        PastQueueStays(c, t, actions[n]);
      } else {
        DoneStepsUp(c, t, actions[n]);
      }
    }
  }
}
