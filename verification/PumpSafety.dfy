/** What every reachable state of the pump satisfies: nothing is lost, reordered or duplicated, at
    most one done frame and one result exist, the synthetic end is written exactly when it is due,
    and a result with status 200 means that everything the upstream sent has been written. */
module PumpSafety {
  import opened ByteStrings
  import opened FrameClassification
  import opened Eom
  import opened SseEvents
  import opened PumpModel

  function FrameBytes(f: Frame): Bytes {
    match f
    case Data(b) => b
    case TailData(b) => b
    case _ => []
  }

  function QueueBytes(q: seq<Frame>): Bytes {
    if q == [] then [] else FrameBytes(q[0]) + QueueBytes(q[1..])
  }

  function DoneCount(q: seq<Frame>): nat {
    if q == [] then 0 else (if q[0].Done? then 1 else 0) + DoneCount(q[1..])
  }

  /** Behind a done frame only keepalives are queued. */
  predicate DoneLast(q: seq<Frame>) {
    q == [] || (if q[0].Done? then QueueBytes(q[1..]) == [] && DoneCount(q[1..]) == 0 else DoneLast(q[1..]))
  }

  function InOutput(pc: OutputPc): Bytes { if pc.OWrite? then FrameBytes(pc.f) else [] }

  function Buffered(b: ReadBuf): Bytes { if b.ReadRes? then b.data else [] }

  // ---- invariants ----

  /** An EOF is only believed if nothing is left. */
  predicate EofIsTrue(c: Config, up: Upstream, closed: bool, err: ReadErr) {
    err == Eof ==> closed || (up.rest == [] && c.clean)
  }

  /** Every upstream byte is read, in the buffer of the finished read, or still to come. */
  predicate InvRead(c: Config, up: Upstream, rd: Reader, closed: bool) {
    && Concat(up.read) + Buffered(up.readBuf) + up.rest == c.upstream
    && (up.inflight ==> up.readBuf.NoRead?)
    && (rd.pc.RSend? || rd.pc.RSwitch? ==>
          !up.inflight && up.readBuf.NoRead? && EofIsTrue(c, up, closed, rd.pc.err))
    && (up.readBuf.ReadRes? ==> EofIsTrue(c, up, closed, up.readBuf.err))
    && rd.stages == RunStages(c.o, up.read)
  }

  /** The upstream came to a clean end, all of it went through the stages, and no span is open. */
  predicate Complete(c: Config, read: seq<Bytes>, st: Stages) {
    c.clean && Concat(read) == c.upstream && !Unterminated(st)
  }

  /** The done frame of a clean end: everything was read and sent, the tail only without an open span. */
  predicate IsClean(c: Config, read: seq<Bytes>, rd: Reader, f: Frame) {
    && f == CleanDone(c.o, rd.stages) && c.clean && Concat(read) == c.upstream
    && rd.sent == rd.stages.out + if Unterminated(rd.stages) then [] else Tail(rd.stages)
  }

  predicate IsBroken(o: Options, st: Stages, f: Frame) {
    || f == BrokenDone(o, st, "upstream_closed", "upstream_closed")
    || (f.Done? && f == BrokenDone(o, st, "upstream_stream_error", f.result.error))
  }

  predicate IsCancelled(st: Stages, f: Frame) { f == CancelDone(st, true) || f == CancelDone(st, false) }

  /** A done frame is that of a clean end, a broken or a cancelled stream, and reports what the stages
      and the classifier have come to. */
  predicate GoodDone(c: Config, read: seq<Bytes>, rd: Reader, f: Frame) {
    f.Done? && (IsClean(c, read, rd, f) || IsBroken(c.o, rd.stages, f) || IsCancelled(rd.stages, f))
  }

  /** What has been queued, against what the stages handed on. */
  predicate InvSent(c: Config, read: seq<Bytes>, rd: Reader) {
    match rd.pc
    case RWait => rd.sent == rd.stages.out
    case RSwitch(_, _) => rd.sent == rd.stages.out
    case RSend(d, _) => rd.sent + d == rd.stages.out
    case RTail(d, f) =>
      f == CleanDone(c.o, rd.stages) && Complete(c, read, rd.stages)
      && rd.sent == rd.stages.out && d == Tail(rd.stages)
    case RFinish(f) => GoodDone(c, read, rd, f)
    case _ => true
  }

  /** At most one done frame exists; it is the reader's last act. */
  predicate InvQueue(c: Config, read: seq<Bytes>, rd: Reader, q: seq<Frame>, ended: seq<Frame>) {
    && DoneCount(q) + |ended| <= 1
    && DoneLast(q)
    && (DoneCount(q) + |ended| == 1 ==> rd.pc.RExit?)
    && (ended != [] ==> QueueBytes(q) == [])
    && (forall f | f in q && f.Done? :: GoodDone(c, read, rd, f))
    && (forall f | f in ended :: GoodDone(c, read, rd, f))
  }

  /** The output carries the done frame it took to the result, unchanged, and delivers once. */
  predicate InvOutput(c: Config, o: Output, mpc: MainPc, stop: bool) {
    && (match o.pc
        case OSelect => o.ended == [] && o.results == [] && !o.broken
        case OWrite(f) => o.ended == [] && o.results == [] && !o.broken && !f.Done?
        case OBreak(_) => o.ended == [] && o.results == [] && o.broken
        case OError(reason, result) =>
          |o.ended| == 1 && o.results == [] && !o.broken && Injects(c, o.ended[0])
          && reason == o.ended[0].reason && result == o.ended[0].result
        case OFinish(result) =>
          |o.ended| == 1 && o.results == [] && !o.broken && Injects(c, o.ended[0]) && result == o.ended[0].result
        case ODeliver(result) =>
          |o.ended| == 1 && o.results == [] && !o.broken && o.ended[0].Done? && result == o.ended[0].result
        case _ =>
          if o.broken then o.ended == [] && o.results == [WRITE_FAILED]
          else |o.ended| == 1 && o.ended[0].Done? && o.results == [o.ended[0].result])
    && (!mpc.MWait? ==> o.results != [])
    && (stop ==> !mpc.MWait?)
  }

  /** The wire holds the queued payload in order; a failed write leaves a prefix of it. */
  predicate InvFifo(sent: Bytes, q: seq<Frame>, o: Output) {
    if o.broken then HasPrefix(sent, PayloadOf(o.wire))
    else PayloadOf(o.wire) + InOutput(o.pc) + QueueBytes(q) == sent
  }

  predicate NoTerminal(w: seq<Piece>) { forall x | x in w :: x.kind != Terminal }

  /** The last `n` writes, and no others, belong to the synthetic end. */
  predicate TerminalSuffix(w: seq<Piece>, n: nat) {
    n <= |w| && NoTerminal(w[..|w| - n]) && forall x | x in w[|w| - n..] :: x.kind == Terminal
  }

  predicate InvTerminal(c: Config, o: Output) {
    TerminalSuffix(o.wire,
      if o.pc.OFinish? then 1
      else if (o.pc.ODeliver? || o.pc.OReturn? || o.pc.OExit?) && |o.ended| == 1 && Injects(c, o.ended[0]) then 2
      else 0)
  }

  /** Each write of the synthetic end is its frame, or a prefix of it if that write failed. */
  predicate InvTerminalBytes(c: Config, o: Output) {
    |o.ended| == 1 && o.ended[0].Done? && Injects(c, o.ended[0]) ==>
      var n, e := |o.wire|, SSEErrorFrame(c.o.format, o.ended[0].reason);
      if o.pc.OFinish? then n >= 1 && HasPrefix(e, o.wire[n - 1].bytes)
      else if o.pc.ODeliver? || o.pc.OReturn? || o.pc.OExit? then
        n >= 2 && HasPrefix(e, o.wire[n - 2].bytes) && HasPrefix(AbnormalFinish(c.o.format), o.wire[n - 1].bytes)
      else true
  }

  predicate Inv(c: Config, s: State) {
    && InvRead(c, s.up, s.rd, s.flags.closed)
    && InvSent(c, s.up.read, s.rd)
    && InvQueue(c, s.up.read, s.rd, s.queue, s.out.ended)
    && InvOutput(c, s.out, s.mpc, s.flags.stop)
    && InvFifo(s.rd.sent, s.queue, s.out)
    && InvTerminal(c, s.out)
    && InvTerminalBytes(c, s.out)
  }

  // ---- queues and wires ----

  lemma AppendFirst(q: seq<Frame>, f: Frame)
    requires q != []
    ensures (q + [f])[0] == q[0] && (q + [f])[1..] == q[1..] + [f]
  {
  }

  lemma {:induction false} QueueBytesAppend(q: seq<Frame>, f: Frame)
    ensures QueueBytes(q + [f]) == QueueBytes(q) + FrameBytes(f)
  {
    hide FrameBytes;
    if q == [] {
      assert (q + [f])[0] == f && (q + [f])[1..] == [];
      assert FrameBytes(f) + [] == [] + FrameBytes(f);
    } else {
      AppendFirst(q, f);
      QueueBytesAppend(q[1..], f);
      assert FrameBytes(q[0]) + (QueueBytes(q[1..]) + FrameBytes(f)) == QueueBytes(q) + FrameBytes(f);
    }
  }

  lemma {:induction false} DoneCountAppend(q: seq<Frame>, f: Frame)
    ensures DoneCount(q + [f]) == DoneCount(q) + (if f.Done? then 1 else 0)
  {
    if q == [] {
      assert (q + [f])[0] == f && (q + [f])[1..] == [];
    } else {
      AppendFirst(q, f);
      DoneCountAppend(q[1..], f);
    }
  }

  lemma {:induction false} QueueAppend(q: seq<Frame>, f: Frame)
    ensures QueueBytes(q + [f]) == QueueBytes(q) + FrameBytes(f)
    ensures DoneCount(q + [f]) == DoneCount(q) + (if f.Done? then 1 else 0)
    ensures DoneLast(q) && (DoneCount(q) == 0 || f.Liveness?) ==> DoneLast(q + [f])
  {
    QueueBytesAppend(q, f);
    DoneCountAppend(q, f);
    if q == [] {
      assert (q + [f])[0] == f && (q + [f])[1..] == [];
    } else {
      AppendFirst(q, f);
      QueueAppend(q[1..], f);
    }
  }

  lemma {:induction false} DoneCounted(q: seq<Frame>)
    ensures DoneCount(q) == 0 <==> forall f | f in q :: !f.Done?
    ensures DoneCount(q) == 0 ==> DoneLast(q)
  {
    if q != [] {
      DoneCounted(q[1..]);
      assert forall f :: f in q <==> f == q[0] || f in q[1..];
    }
  }

  lemma WireAppend(w: seq<Piece>, x: Piece)
    ensures PayloadOf(w + [x]) == PayloadOf(w) + (if IsPayload(x) then x.bytes else [])
    ensures AllBytes(w + [x]) == AllBytes(w) + x.bytes
  {
    assert (w + [x])[..|w|] == w;
  }

  lemma TerminalAppend(w: seq<Piece>, n: nat, x: Piece)
    requires TerminalSuffix(w, n)
    ensures x.kind == Terminal ==> TerminalSuffix(w + [x], n + 1)
    ensures x.kind != Terminal && n == 0 ==> TerminalSuffix(w + [x], 0)
  {
    var v := w + [x];
    assert v[..|v| - (n + 1)] == w[..|w| - n] && v[|v| - (n + 1)..] == w[|w| - n..] + [x];
    assert v[..|v|] == v && w[..|w|] == w && v[|v|..] == [];
  }

  // ---- what a step leaves alone ----

  predicate ByReader(a: Action) {
    a.TakeRead? || a.ReaderSend? || a.ReaderSeesCancel? || a.ReaderStep? || a.ReaderSeesOutDone?
  }

  predicate ByOutput(a: Action) {
    a.Dequeue? || a.WriteOk? || a.WriteFails? || a.OutputStep? || a.OutputSeesStop?
  }

  /** Only the reader and its read touch the reader's state, only the output its own; the shared
      flags are only ever raised. */
  lemma Frames(c: Config, s: State, a: Action)
    requires Enabled(c, s, a)
    ensures var t := Apply(c, s, a);
      && (!ByReader(a) ==> t.rd == s.rd)
      && (!ByReader(a) && !a.ReadReturns? ==> t.up == s.up)
      && (!ByOutput(a) ==> t.out == s.out)
      && (!a.ReaderSend? && !a.KeepaliveSend? && !a.Dequeue? ==> t.queue == s.queue)
      && (a.KeepaliveSend? ==> t.queue == s.queue + [Liveness])
      && (!a.MainStep? ==> t.mpc == s.mpc && t.flags.stop == s.flags.stop)
      && (s.flags.closed ==> t.flags.closed) && (s.flags.cancelled ==> t.flags.cancelled)
      && (s.flags.idle ==> t.flags.idle)
  {
    hide StageOut, StageNext, RunStages, CleanDone, BrokenDone, CancelDone, Tail, Unterminated, Writing;
  }

  // ---- every step keeps the invariants ----

  lemma InitInv(c: Config)
    ensures Inv(c, Init(c))
  {
    hide StageNext;
    assert Concat([]) + [] + c.upstream == c.upstream;
  }

  lemma ReadKept(c: Config, s: State, a: Action)
    requires InvRead(c, s.up, s.rd, s.flags.closed) && Enabled(c, s, a)
    ensures var t := Apply(c, s, a); InvRead(c, t.up, t.rd, t.flags.closed)
  {
    hide StageNext, StageOut, CleanDone, BrokenDone, CancelDone, Tail, Unterminated, RunStages, Concat;
    match a {
      case ReadReturns(data, err) => ReturnsKept(c, s, data, err);
      case TakeRead => TakeReadKept(c, s);
      case ReaderSend => Frames(c, s, a);
      case ReaderStep => Frames(c, s, a);
      case ReaderSeesCancel => Frames(c, s, a);
      case ReaderSeesOutDone => Frames(c, s, a);
      case _ => Frames(c, s, a); hide Apply, Enabled;
    }
  }

  lemma ReturnsKept(c: Config, s: State, data: Bytes, err: ReadErr)
    requires InvRead(c, s.up, s.rd, s.flags.closed) && Enabled(c, s, ReadReturns(data, err))
    ensures var t := Apply(c, s, ReadReturns(data, err)); InvRead(c, t.up, t.rd, t.flags.closed)
  {
    hide RunStages, Concat;
    var rest := s.up.rest[|data|..];
    assert s.up.rest == data + rest;
    assert Concat(s.up.read) + [] + s.up.rest == Concat(s.up.read) + data + rest;
  }

  /** What taking a finished read changes. */
  lemma TakeReadShape(c: Config, s: State)
    requires Enabled(c, s, TakeRead)
    ensures var t, data, err := Apply(c, s, TakeRead), s.up.readBuf.data, s.up.readBuf.err;
      && t.flags == s.flags && t.up.readBuf == NoRead && t.up.rest == s.up.rest && t.rd.sent == s.rd.sent
      && t.up.read == (if data == [] then s.up.read else s.up.read + [data])
      && t.rd.stages == (if data == [] then s.rd.stages else StageNext(c.o, s.rd.stages, data))
      && (t.rd.pc.RWait? || t.rd.pc.RSend? || t.rd.pc.RSwitch?)
      && (!t.rd.pc.RWait? ==> t.rd.pc.err == err && t.up.inflight == s.up.inflight)
  {
    hide StageNext, StageOut;
  }

  lemma TakeReadKept(c: Config, s: State)
    requires InvRead(c, s.up, s.rd, s.flags.closed) && Enabled(c, s, TakeRead)
    ensures var t := Apply(c, s, TakeRead); InvRead(c, t.up, t.rd, t.flags.closed)
  {
    TakeReadShape(c, s);
    var read, data := s.up.read, s.up.readBuf.data;
    ConcatSnoc(read, data);
    RunStagesSnoc(c.o, read, data);
    hide Apply, StageNext, Concat, RunStages;
    assert Concat(read) + data + [] == Concat(read) + data;
    assert data == [] ==> Concat(read) + data == Concat(read);
  }

  lemma RunStagesSnoc(o: Options, chunks: seq<Bytes>, x: Bytes)
    ensures RunStages(o, chunks + [x]) == StageNext(o, RunStages(o, chunks), x)
  {
    hide StageNext;
    assert (chunks + [x])[..|chunks|] == chunks;
  }

  lemma SentKept(c: Config, s: State, a: Action)
    requires InvRead(c, s.up, s.rd, s.flags.closed) && InvSent(c, s.up.read, s.rd) && Enabled(c, s, a)
    ensures var t := Apply(c, s, a); InvSent(c, t.up.read, t.rd)
  {
    hide StageOut, StageNext, Tail, Unterminated, RunStages, CleanDone, CancelDone, BrokenDone;
    match a {
      case TakeRead => TakeSent(c, s);
      case ReaderStep => StepSent(c, s);
      case ReaderSend => CleanDoneShape(c.o, s.rd.stages);
      case ReadReturns(_, _) =>
      case _ => Frames(c, s, a);
    }
  }

  lemma CleanDoneShape(o: Options, st: Stages)
    ensures var f := CleanDone(o, st);
      f.Done? && (f.result.status == 200 <==> !Unterminated(st))
      && (f.result.status == 200 ==> f.reason == "" && f.result.error == "")
      && (f.result.status != 200 ==> f.result.status == 502 && f.reason != "" && !f.result.empty)
  {
    hide Flushed, Unterminated;
  }

  lemma TakeSent(c: Config, s: State)
    requires InvSent(c, s.up.read, s.rd) && Enabled(c, s, TakeRead)
    ensures var t := Apply(c, s, TakeRead); InvSent(c, t.up.read, t.rd)
  {
    hide StageOut, GoodDone;
    var out := StageOut(c.o, s.rd.stages, s.up.readBuf.data);
    assert s.rd.stages.out + [] == s.rd.stages.out;
  }

  lemma AbnormalShape(o: Options, st: Stages, idle: bool, reason: Bytes, error: Bytes)
    requires reason != ""
    ensures var f := CancelDone(st, idle);
      f.Done? && f.result.status in {502, 504} && f.reason != "" && !f.result.empty
    ensures var f := BrokenDone(o, st, reason, error);
      && f.Done? && f.result.status == 502 && f.reason == reason && !f.result.empty
      && f.result.error == error
  {
    hide Flushed;
  }

  /** A good done frame reports 200 only for a complete stream that is queued with its tail. */
  lemma GoodDoneShape(c: Config, read: seq<Bytes>, rd: Reader, f: Frame)
    requires GoodDone(c, read, rd, f)
    ensures f.result.status == 200 ==>
      f == CleanDone(c.o, rd.stages) && Complete(c, read, rd.stages) && rd.sent == rd.stages.out + Tail(rd.stages)
    ensures f.result.status != 200 ==> f.result.status in {502, 504} && f.reason != "" && !f.result.empty
  {
    var st := rd.stages;
    CleanDoneShape(c.o, st);
    AbnormalShape(c.o, st, true, "upstream_closed", "upstream_closed");
    AbnormalShape(c.o, st, false, "upstream_stream_error", f.result.error);
    hide CleanDone, BrokenDone, CancelDone, Tail, Unterminated, Concat;
  }

  /** A believed EOF means that the whole upstream has been read. */
  lemma EofIsComplete(c: Config, up: Upstream, rd: Reader, closed: bool)
    requires InvRead(c, up, rd, closed) && rd.pc.RSwitch? && rd.pc.err == Eof && !closed
    ensures c.clean && Concat(up.read) == c.upstream
  {
    hide RunStages, Concat;
    assert Concat(up.read) + [] + [] == Concat(up.read);
  }

  lemma StepSent(c: Config, s: State)
    requires InvRead(c, s.up, s.rd, s.flags.closed) && InvSent(c, s.up.read, s.rd) && Enabled(c, s, ReaderStep)
    ensures var t := Apply(c, s, ReaderStep); InvSent(c, t.up.read, t.rd)
  {
    if s.rd.pc.RSwitch? {
      SwitchSent(c, s.up, s.rd, s.flags);
    } else {
      hide CleanDone, BrokenDone, IsClean;
    }
    hide NextReaderPc, InvRead;
  }

  lemma SwitchSent(c: Config, up: Upstream, rd: Reader, flags: Flags)
    requires InvRead(c, up, rd, flags.closed) && InvSent(c, up.read, rd) && rd.pc.RSwitch?
    ensures InvSent(c, up.read, rd.(pc := NextReaderPc(c, rd.pc, rd.stages, flags)))
  {
    hide InvRead, GoodDone, Tail, Unterminated, CleanDone, Concat;
    if rd.pc.arm == 1 {
      if rd.pc.err == Eof && !flags.closed {
        CleanSent(c, up, rd, flags);
      }
    } else if rd.pc.arm > 3 || rd.pc.arm == 0 {
      BrokenSent(c, up, rd, flags);
    }
  }

  lemma CleanSent(c: Config, up: Upstream, rd: Reader, flags: Flags)
    requires InvRead(c, up, rd, flags.closed) && rd.sent == rd.stages.out
    requires rd.pc == RSwitch(Eof, 1) && !flags.closed
    ensures c.clean && Concat(up.read) == c.upstream
    ensures Unterminated(rd.stages) || Tail(rd.stages) == [] ==>
      GoodDone(c, up.read, rd.(pc := RFinish(CleanDone(c.o, rd.stages))), CleanDone(c.o, rd.stages))
  {
    EofIsComplete(c, up, rd, flags.closed);
    CleanDoneShape(c.o, rd.stages);
    hide InvRead, Tail, Unterminated, CleanDone, Concat;
    assert rd.stages.out + [] == rd.stages.out;
  }

  lemma BrokenSent(c: Config, up: Upstream, rd: Reader, flags: Flags)
    requires rd.pc.RSwitch? && (rd.pc.arm > 3 || rd.pc.arm == 0)
    ensures var pc := NextReaderPc(c, rd.pc, rd.stages, flags);
      pc.RFinish? && GoodDone(c, up.read, rd.(pc := pc), pc.done)
  {
    AbnormalShape(c.o, rd.stages, flags.idle, "upstream_stream_error", ErrText(rd.pc.err));
    AbnormalShape(c.o, rd.stages, flags.idle, "upstream_closed", "upstream_closed");
    hide IsClean, CleanDone, BrokenDone, CancelDone, ErrText;
  }

  /** A done frame that is good stays good: nothing it speaks of changes any more. */
  lemma QueueKept(c: Config, s: State, a: Action)
    requires Inv(c, s) && Enabled(c, s, a)
    ensures var t := Apply(c, s, a); InvQueue(c, t.up.read, t.rd, t.queue, t.out.ended)
  {
    hide InvRead, InvOutput, InvFifo, InvTerminal, InvTerminalBytes, InvQueue, InvSent;
    match a {
      case ReaderSend => SendQueued(c, s); hide Apply, Enabled;
      case KeepaliveSend => Frames(c, s, a); EndedStays(c, s, a); hide Apply, Enabled; KeepaliveQueued(c, s);
      case Dequeue => NothingEnded(c, s); DequeueQueued(c, s); hide Apply, Enabled;
      case _ => Frames(c, s, a); EndedStays(c, s, a); hide Apply, Enabled; NothingQueued(c, s, Apply(c, s, a));
    }
  }

  lemma NothingEnded(c: Config, s: State)
    requires InvOutput(c, s.out, s.mpc, s.flags.stop) && Enabled(c, s, Dequeue)
    ensures s.out.ended == []
  {
  }

  lemma KeepaliveQueued(c: Config, s: State)
    requires InvQueue(c, s.up.read, s.rd, s.queue, s.out.ended)
    ensures InvQueue(c, s.up.read, s.rd, s.queue + [Liveness], s.out.ended)
  {
    hide GoodDone;
    QueueAppend(s.queue, Liveness);
    assert QueueBytes(s.queue) + [] == QueueBytes(s.queue);
    hide DoneCount, DoneLast, QueueBytes;
  }

  /** With queue and output unchanged, the reader either did nothing or is not done yet. */
  lemma NothingQueued(c: Config, s: State, t: State)
    requires InvQueue(c, s.up.read, s.rd, s.queue, s.out.ended)
    requires t.queue == s.queue && t.out.ended == s.out.ended
    requires (t.rd == s.rd && t.up.read == s.up.read) || !s.rd.pc.RExit?
    ensures InvQueue(c, t.up.read, t.rd, t.queue, t.out.ended)
  {
    hide GoodDone;
    DoneCounted(s.queue);
    hide DoneCount, DoneLast, QueueBytes;
  }

  /** Only a dequeue adds to the done frames taken, only reads and the reader to the chunks, and an
      exited reader does nothing more. */
  lemma EndedStays(c: Config, s: State, a: Action)
    requires Enabled(c, s, a) && !a.Dequeue?
    ensures Apply(c, s, a).out.ended == s.out.ended
    ensures !ByReader(a) ==> Apply(c, s, a).up.read == s.up.read
    ensures ByReader(a) ==> !s.rd.pc.RExit?
  {
    hide StageOut, StageNext, CleanDone, BrokenDone, CancelDone;
    if !ByOutput(a) {
      Frames(c, s, a);
    }
  }

  lemma SendQueued(c: Config, s: State)
    requires InvSent(c, s.up.read, s.rd) && InvQueue(c, s.up.read, s.rd, s.queue, s.out.ended)
    requires Enabled(c, s, ReaderSend)
    ensures var t := Apply(c, s, ReaderSend); InvQueue(c, t.up.read, t.rd, t.queue, t.out.ended)
  {
    hide CleanDone, Complete, Tail;
    DoneCounted(s.queue);
    QueueAppend(s.queue, Offered(s.rd.pc));
    assert s.out.ended == [];
  }

  lemma DequeueQueued(c: Config, s: State)
    requires InvQueue(c, s.up.read, s.rd, s.queue, s.out.ended) && Enabled(c, s, Dequeue)
    requires s.out.ended == []
    ensures var t := Apply(c, s, Dequeue); InvQueue(c, t.up.read, t.rd, t.queue, t.out.ended)
  {
    hide GoodDone;
    DoneCounted(s.queue[1..]);
    assert s.queue[0] in s.queue && forall f | f in s.queue[1..] :: f in s.queue;
  }

  lemma OutputKept(c: Config, s: State, a: Action)
    requires InvQueue(c, s.up.read, s.rd, s.queue, s.out.ended) && InvOutput(c, s.out, s.mpc, s.flags.stop)
    requires Enabled(c, s, a)
    ensures var t := Apply(c, s, a); InvOutput(c, t.out, t.mpc, t.flags.stop)
  {
    hide StageOut, StageNext, CleanDone, BrokenDone, CancelDone, InvQueue, Writing;
    match a {
      case Dequeue =>
      case WriteOk =>
      case WriteFails(_) =>
      case OutputStep =>
      case OutputSeesStop =>
      case MainStep =>
      case _ => Frames(c, s, a);
    }
  }

  /** Only a send changes what has been queued. */
  lemma SentFrame(c: Config, s: State, a: Action)
    requires Enabled(c, s, a) && !a.ReaderSend?
    ensures Apply(c, s, a).rd.sent == s.rd.sent
  {
    hide StageOut, StageNext, CleanDone, BrokenDone, CancelDone;
    if !ByReader(a) {
      Frames(c, s, a);
    }
  }

  lemma FifoKept(c: Config, s: State, a: Action)
    requires Inv(c, s) && Enabled(c, s, a)
    ensures var t := Apply(c, s, a); InvFifo(t.rd.sent, t.queue, t.out)
  {
    hide InvRead, InvSent, InvQueue, InvTerminal, InvTerminalBytes, StageOut, StageNext, CleanDone, BrokenDone,
      CancelDone, PayloadOf, QueueBytes;
    match a {
      case ReaderSend => SendFifo(c, s);
      case KeepaliveSend => QueueAppend(s.queue, Liveness);
      case Dequeue => DequeueFifo(c, s);
      case WriteOk => WriteFifo(c, s, |Writing(c, s.out.pc)|);
        assert Writing(c, s.out.pc)[..|Writing(c, s.out.pc)|] == Writing(c, s.out.pc);
      case WriteFails(n) => WriteFifo(c, s, n);
      case OutputStep =>
      case OutputSeesStop =>
      case _ =>
        SentFrame(c, s, a);
        Frames(c, s, a);
        hide Apply, Enabled;
    }
  }

  lemma DequeueFifo(c: Config, s: State)
    requires InvFifo(s.rd.sent, s.queue, s.out) && Enabled(c, s, Dequeue)
    ensures var t := Apply(c, s, Dequeue); InvFifo(t.rd.sent, t.queue, t.out)
  {
    hide PayloadOf, Injects;
    var w, q := PayloadOf(s.out.wire), QueueBytes(s.queue[1..]);
    assert w + [] + (FrameBytes(s.queue[0]) + q) == w + FrameBytes(s.queue[0]) + q;
    assert w + [] + q == w + q;
  }

  lemma SendFifo(c: Config, s: State)
    requires InvSent(c, s.up.read, s.rd) && InvFifo(s.rd.sent, s.queue, s.out) && Enabled(c, s, ReaderSend)
    ensures var t := Apply(c, s, ReaderSend); InvFifo(t.rd.sent, t.queue, t.out)
  {
    hide CleanDone, Complete, Tail;
    var f := Offered(s.rd.pc);
    QueueAppend(s.queue, f);
    AppendSent(PayloadOf(s.out.wire), InOutput(s.out.pc), QueueBytes(s.queue), FrameBytes(f));
    hide PayloadOf, QueueBytes, GoodDone;
    assert s.rd.sent + [] == s.rd.sent;
  }

  lemma AppendSent(w: Bytes, x: Bytes, q: Bytes, b: Bytes)
    ensures w + x + (q + b) == (w + x + q) + b
    ensures forall sent: Bytes :: HasPrefix(sent, w) ==> HasPrefix(sent + b, w)
  {
    forall sent: Bytes | HasPrefix(sent, w)
      ensures HasPrefix(sent + b, w)
    {
      assert (sent + b)[..|w|] == sent[..|w|];
    }
  }

  /** A write of `n` bytes: a complete one moves the bytes from the output to the wire, a partial
      one leaves a prefix of what was queued. */
  lemma WriteFifo(c: Config, s: State, n: nat)
    requires InvOutput(c, s.out, s.mpc, s.flags.stop) && InvFifo(s.rd.sent, s.queue, s.out)
    requires IsWriting(s.out.pc) && n <= |Writing(c, s.out.pc)|
    ensures n == |Writing(c, s.out.pc)| ==> InvFifo(s.rd.sent, s.queue, Written(s.out, Writing(c, s.out.pc)[..n], true))
    ensures InvFifo(s.rd.sent, s.queue, Written(s.out, Writing(c, s.out.pc)[..n], false))
  {
    var b, w, q := Writing(c, s.out.pc), PayloadOf(s.out.wire), QueueBytes(s.queue);
    InOutputIsWritten(c, s);
    WireAppend(s.out.wire, Piece(PieceKind(s.out.pc), b[..n]));
    WriteSplits(w, b, n, q);
    hide PayloadOf, QueueBytes, Writing, InOutput, AllBytes;
  }

  lemma InOutputIsWritten(c: Config, s: State)
    requires InvOutput(c, s.out, s.mpc, s.flags.stop) && IsWriting(s.out.pc)
    ensures !s.out.broken
    ensures PieceKind(s.out.pc) in {Payload, TailPayload} ==> InOutput(s.out.pc) == Writing(c, s.out.pc)
    ensures PieceKind(s.out.pc) !in {Payload, TailPayload} ==> InOutput(s.out.pc) == []
    ensures InOutput(OSelect) == [] && InOutput(OBreak(1)) == []
    ensures s.out.pc.OError? ==> InOutput(OFinish(s.out.pc.result)) == []
    ensures s.out.pc.OFinish? ==> InOutput(ODeliver(s.out.pc.result)) == []
  {
    hide SSEErrorFrame, AbnormalFinish, Injects;
  }

  lemma WriteSplits(w: Bytes, b: Bytes, n: nat, q: Bytes)
    requires n <= |b|
    ensures w + [] == w && (n == |b| ==> b[..n] == b)
    ensures HasPrefix(w + b + q, w + b[..n]) && HasPrefix(w + q, w)
  {
    assert (w + b + q)[..|w| + n] == w + b[..n];
  }

  lemma TerminalKept(c: Config, s: State, a: Action)
    requires InvOutput(c, s.out, s.mpc, s.flags.stop) && InvTerminal(c, s.out) && Enabled(c, s, a)
    ensures InvTerminal(c, Apply(c, s, a).out)
  {
    hide TerminalSuffix, StageOut, StageNext, CleanDone, BrokenDone, CancelDone, SSEErrorFrame, AbnormalFinish;
    match a {
      case WriteOk => WriteTerminal(c, s, Writing(c, s.out.pc));
      case WriteFails(n) => WriteTerminal(c, s, Writing(c, s.out.pc)[..n]);
      case Dequeue =>
      case OutputStep =>
      case OutputSeesStop =>
      case _ => Frames(c, s, a);
    }
  }

  lemma WriteTerminal(c: Config, s: State, b: Bytes)
    requires InvOutput(c, s.out, s.mpc, s.flags.stop) && InvTerminal(c, s.out) && IsWriting(s.out.pc)
    ensures InvTerminal(c, Written(s.out, b, true)) && InvTerminal(c, Written(s.out, b, false))
  {
    hide TerminalSuffix;
    TerminalAppend(s.out.wire, if s.out.pc.OFinish? then 1 else 0, Piece(PieceKind(s.out.pc), b));
  }

  lemma TerminalBytesKept(c: Config, s: State, a: Action)
    requires InvOutput(c, s.out, s.mpc, s.flags.stop) && InvTerminalBytes(c, s.out) && Enabled(c, s, a)
    ensures InvTerminalBytes(c, Apply(c, s, a).out)
  {
    hide StageOut, StageNext, CleanDone, BrokenDone, CancelDone, SSEErrorFrame, AbnormalFinish;
    match a {
      case WriteOk =>
        WriteTerminalBytes(c, s, |Writing(c, s.out.pc)|, true);
        assert Writing(c, s.out.pc)[..|Writing(c, s.out.pc)|] == Writing(c, s.out.pc);
        hide Writing;
      case WriteFails(n) => WriteTerminalBytes(c, s, n, false); hide Writing;
      case Dequeue =>
      case OutputStep =>
      case OutputSeesStop =>
      case _ => Frames(c, s, a); hide Apply, Enabled;
    }
  }

  lemma WriteTerminalBytes(c: Config, s: State, n: nat, ok: bool)
    requires InvOutput(c, s.out, s.mpc, s.flags.stop) && InvTerminalBytes(c, s.out)
    requires IsWriting(s.out.pc) && n <= |Writing(c, s.out.pc)|
    ensures InvTerminalBytes(c, Written(s.out, Writing(c, s.out.pc)[..n], ok))
  {
    hide SSEErrorFrame, AbnormalFinish;
  }

  lemma StepInv(c: Config, s: State, a: Action)
    requires Inv(c, s) && Enabled(c, s, a)
    ensures Inv(c, Apply(c, s, a))
  {
    hide Apply, Enabled, InvRead, InvSent, InvQueue, InvOutput, InvFifo, InvTerminal, InvTerminalBytes;
    ReadKept(c, s, a);
    SentKept(c, s, a);
    QueueKept(c, s, a);
    OutputKept(c, s, a);
    FifoKept(c, s, a);
    TerminalKept(c, s, a);
    TerminalBytesKept(c, s, a);
  }

  lemma {:induction false} ExecInv(c: Config, actions: seq<Action>)
    ensures Exec(c, actions).Ends? ==> Inv(c, Exec(c, actions).s)
    decreases |actions|
  {
    hide Apply, Enabled, Inv, Init;
    if actions == [] {
      InitInv(c);
    } else {
      var n := |actions| - 1;
      ExecInv(c, actions[..n]);
      if Exec(c, actions).Ends? {
        StepInv(c, Exec(c, actions[..n]).s, actions[n]);
      }
    }
  }

  // ---- main results about runs ----

  /** A state some run of the pump ends in. */
  ghost predicate Reachable(c: Config, s: State) {
    exists actions :: Exec(c, actions) == Ends(s)
  }

  lemma ReachableInv(c: Config, s: State)
    requires Reachable(c, s)
    ensures Inv(c, s)
  {
    hide Inv, Exec;
    var actions :| Exec(c, actions) == Ends(s);
    ExecInv(c, actions);
  }

  /** Where a delivered 200 comes from. */
  lemma DeliveredDone(c: Config, s: State, r: Result)
    requires Inv(c, s) && r in s.out.results && r.status == 200
    ensures !s.out.broken && |s.out.ended| == 1 && s.out.ended[0].Done? && s.out.ended[0].result == r
    ensures GoodDone(c, s.up.read, s.rd, s.out.ended[0]) && QueueBytes(s.queue) == []
    ensures (s.out.pc.OReturn? || s.out.pc.OExit?) && !Injects(c, s.out.ended[0])
  {
    hide InvRead, InvSent, InvFifo, InvTerminal;
    TakenIsGood(c, s);
    hide GoodDone;
    CleanDoneShape(c.o, s.rd.stages);
    hide CleanDone;
  }

  /** A result that no write failure delivered is that of the one done frame taken, a good one. */
  lemma TakenIsGood(c: Config, s: State)
    requires Inv(c, s) && s.out.results != [] && !s.out.broken
    ensures |s.out.ended| == 1 && s.out.results == [s.out.ended[0].result]
    ensures GoodDone(c, s.up.read, s.rd, s.out.ended[0])
    ensures s.out.ended[0].result.status == 200 ==>
      s.out.ended[0] == CleanDone(c.o, s.rd.stages) && Complete(c, s.up.read, s.rd.stages)
      && s.rd.sent == s.rd.stages.out + Tail(s.rd.stages)
    ensures s.out.ended[0].result.status != 200 ==>
      s.out.ended[0].result.status in {502, 504} && s.out.ended[0].reason != "" && !s.out.ended[0].result.empty
  {
    hide InvRead, InvSent, InvFifo, InvTerminal, InvTerminalBytes, GoodDone, Complete, CleanDone, Tail;
    assert s.out.ended[0] in s.out.ended;
    GoodDoneShape(c, s.up.read, s.rd, s.out.ended[0]);
  }

  /** A result with status 200 means: the upstream came to its clean end, the chunks the reader took
      are all it sent, and the client was written exactly what the stages made of them followed by
      the held tail, in this order, with no write failed and no synthetic end. No interleaving of
      cancellation, idle time-out and write failures can produce it otherwise. */
  lemma Status200IsComplete(c: Config, s: State, r: Result)
    requires Reachable(c, s) && r in s.out.results && r.status == 200
    ensures c.clean && Concat(s.up.read) == c.upstream
    ensures s.rd.stages == RunStages(c.o, s.up.read) && !Unterminated(s.rd.stages)
    ensures PayloadOf(s.out.wire) == s.rd.stages.out + Tail(s.rd.stages)
    ensures !s.out.broken && NoTerminal(s.out.wire)
    ensures r.error == "" && r.chunks == s.rd.stages.chunks
  {
    ReachableInv(c, s);
    DeliveredDone(c, s, r);
    CleanDoneShape(c.o, s.rd.stages);
    CleanDoneChunks(c.o, s.rd.stages);
    hide InvSent, InvQueue, InvOutput, StageNext, RunStages, Tail, Unterminated, CleanDone, PayloadOf, QueueBytes;
    assert s.out.wire[..|s.out.wire| - 0] == s.out.wire;
    assert PayloadOf(s.out.wire) + [] + [] == PayloadOf(s.out.wire);
  }

  lemma CleanDoneChunks(o: Options, st: Stages)
    ensures CleanDone(o, st).result.chunks == st.chunks
  {
    hide Flushed, Unterminated;
  }

  /** What a delivered result can look like. */
  predicate PumpOutcome(r: Result) {
    && r.status in {200, 502, 504}
    && (r.status == 200 ==> r.error == "")
    && (r.empty ==> r.status == 200)
  }

  /** At every moment there is at most one result and at most one done frame, queued or taken, and
      what was written without keepalives is a prefix of what the reader queued. */
  lemma OneResultInOrder(c: Config, s: State)
    requires Reachable(c, s)
    ensures |s.out.results| <= 1 && DoneCount(s.queue) + |s.out.ended| <= 1
    ensures HasPrefix(s.rd.sent, PayloadOf(s.out.wire))
    ensures forall r | r in s.out.results :: PumpOutcome(r)
  {
    ReachableInv(c, s);
    hide InvRead, InvSent, GoodDone, PumpOutcome, PayloadOf, QueueBytes;
    forall r | r in s.out.results
      ensures PumpOutcome(r)
    {
      DeliveredOutcome(c, s, r);
    }
    var w := PayloadOf(s.out.wire);
    if !s.out.broken {
      assert s.rd.sent == w + (InOutput(s.out.pc) + QueueBytes(s.queue));
    }
  }

  lemma DeliveredOutcome(c: Config, s: State, r: Result)
    requires Inv(c, s) && r in s.out.results
    ensures PumpOutcome(r)
  {
    hide InvRead, InvSent, InvQueue, InvFifo, InvTerminal, InvTerminalBytes, CleanDone, Complete, Tail;
    CleanDoneShape(c.o, s.rd.stages);
    if !s.out.broken {
      TakenIsGood(c, s);
      hide GoodDone;
    }
  }

  /** Once a result is delivered nothing more is written and no second result appears. */
  lemma NothingAfterResult(c: Config, s: State, a: Action)
    requires Reachable(c, s) && s.out.results != [] && Enabled(c, s, a)
    ensures Apply(c, s, a).out.wire == s.out.wire && Apply(c, s, a).out.results == s.out.results
  {
    ReachableInv(c, s);
    hide InvRead, InvSent, InvQueue, InvFifo, InvTerminal, StageNext, StageOut, CleanDone, BrokenDone, CancelDone;
    if !ByOutput(a) {
      Frames(c, s, a);
    }
  }

  /** The synthetic end that a done frame calls for: with the result delivered, the wire ends in exactly
      two contiguous writes of it, and holds none otherwise. */
  lemma SyntheticEndOfFrame(c: Config, s: State)
    requires Reachable(c, s) && s.out.results != []
    ensures TerminalSuffix(s.out.wire, if |s.out.ended| == 1 && Injects(c, s.out.ended[0]) then 2 else 0)
    ensures s.out.ended == [] <==> s.out.broken
    ensures |s.out.ended| == 1 && Injects(c, s.out.ended[0]) ==>
      && |s.out.wire| >= 2
      && HasPrefix(SSEErrorFrame(c.o.format, s.out.ended[0].reason), s.out.wire[|s.out.wire| - 2].bytes)
      && HasPrefix(AbnormalFinish(c.o.format), s.out.wire[|s.out.wire| - 1].bytes)
  {
    ReachableInv(c, s);
    DeliveredPc(c, s);
    hide Inv, Reachable, Injects, TerminalSuffix, SSEErrorFrame, AbnormalFinish;
  }

  lemma DeliveredPc(c: Config, s: State)
    requires Inv(c, s) && s.out.results != []
    ensures s.out.pc.OReturn? || s.out.pc.OExit?
    ensures if s.out.broken then s.out.ended == [] else |s.out.ended| == 1 && s.out.ended[0].Done?
    ensures InvTerminal(c, s.out) && InvTerminalBytes(c, s.out)
  {
    hide InvRead, InvSent, InvQueue, InvFifo, InvTerminal, InvTerminalBytes, Injects;
  }

  /** If both of its writes were complete, a classifier that reads all the client was written, from
      scratch, reports a terminal marker, whatever partial frame came before. */
  lemma SyntheticEndSeenByClient(c: Config, s: State)
    requires Reachable(c, s) && s.out.results != [] && |s.out.ended| == 1 && Injects(c, s.out.ended[0])
    requires |s.out.wire| >= 2
    requires |s.out.wire[|s.out.wire| - 2].bytes| == |SSEErrorFrame(c.o.format, s.out.ended[0].reason)|
    requires |s.out.wire[|s.out.wire| - 1].bytes| == |AbnormalFinish(c.o.format)|
    ensures Flushed(c.o.usageOf, Analyzed(c.o.usageOf, FrameClassification.FRESH, AllBytes(s.out.wire))).seen.marks.stop
  {
    hide Flushed, Analyzed, SSEErrorFrame, AbnormalFinish, Reachable, TerminalSuffix;
    SyntheticEndOfFrame(c, s);
    var w, n := s.out.wire, |s.out.wire|;
    var v := w[..n - 2];
    assert w[..n - 1][..n - 2] == v;
    assert AllBytes(w) == AllBytes(v) + w[n - 2].bytes + w[n - 1].bytes;
    var e, f := SSEErrorFrame(c.o.format, s.out.ended[0].reason), AbnormalFinish(c.o.format);
    assert e[..|e|] == e && f[..|f|] == f;
    SyntheticEndIsSeen(c.o.usageOf, c.o.format, s.out.ended[0].reason, AllBytes(v));
  }
}
