/** The SSE pump as a step relation: an output, a reader with its read in flight, a keepalive and a
    watchdog goroutine around one bounded channel, the caller that waits for the result, and a client
    that may go away at any moment. Every step is one atomic action of the Go program: a channel
    operation, a read or write of a shared flag, or a write to the client. */
module PumpModel {
  import opened ByteStrings
  import opened FrameClassification
  import opened Eom
  import opened SseEvents
  import TS = ThinkStripping
  import Spans = ThinkSpans
  import FF = FrameFiltering

  const CAPACITY := 8

  datatype Options = Options(isSSE: bool, format: StreamFormat, strip: bool, idleTimeout: bool, usageOf: UsageOf)

  /** What the upstream would deliver before its end, and whether that end is a clean one. */
  datatype Config = Config(o: Options, upstream: Bytes, clean: bool)

  // ---- the three stages of the reader ----

  /** State of the stages, the number of chunks, and (for the proofs) all they handed on. */
  datatype Stages = Stages(think: TS.State, pending: Bytes, cls: Classifier, chunks: nat, out: Bytes)

  const STAGES0: Stages := Stages(TS.FRESH, [], FrameClassification.FRESH, 0, [])

  predicate Filters(o: Options) { o.isSSE && o.format == OpenAI }

  /** What the think stage hands to the frame filter. */
  function Stripped(o: Options, st: Stages, chunk: Bytes): Bytes {
    if o.strip then TS.Emitted(st.think, chunk) else chunk
  }

  /** What one chunk becomes. */
  function StageOut(o: Options, st: Stages, chunk: Bytes): Bytes {
    if Filters(o) then FF.Emitted(st.pending, Stripped(o, st, chunk)) else chunk
  }

  function StageNext(o: Options, st: Stages, chunk: Bytes): Stages {
    var out := StageOut(o, st, chunk);
    Stages(if Filters(o) && o.strip then TS.NextState(st.think, chunk) else st.think,
           if Filters(o) then FF.NextPending(st.pending, Stripped(o, st, chunk)) else st.pending,
           if o.isSSE then Analyzed(o.usageOf, st.cls, out) else st.cls,
           st.chunks + 1,
           st.out + out)
  }

  function RunStages(o: Options, chunks: seq<Bytes>): Stages {
    if chunks == [] then STAGES0
    else StageNext(o, RunStages(o, chunks[..|chunks| - 1]), chunks[|chunks| - 1])
  }

  /** The held bytes a clean end forwards: the stripper's prefix, then the filter's tail. */
  function Tail(st: Stages): Bytes { TS.FlushText(st.think).out + st.pending }

  predicate Unterminated(st: Stages) { TS.FlushText(st.think).open }

  // ---- frames and results ----

  datatype Result = Result(status: int, chunks: nat, error: Bytes, empty: bool, usage: Usage)

  datatype Frame =
    | Data(bytes: Bytes)
    | TailData(bytes: Bytes)
    | Liveness
    | Done(reason: Bytes, sawStop: bool, result: Result)

  datatype ReadErr = NoErr | Eof | UnexpectedEof | ClosedPipe | Failed(text: Bytes)

  datatype ReadBuf = NoRead | ReadRes(data: Bytes, err: ReadErr)

  function ResultOf(st: Stages, cls: Classifier, status: int, error: Bytes, empty: bool): Result {
    Result(status, st.chunks, error, empty, cls.seen.marks.usage)
  }

  /** `handleCleanEnd`, as the frames it sends: at most one tail, then the done frame. */
  function CleanDone(o: Options, st: Stages): Frame {
    var cls := Flushed(o.usageOf, st.cls);
    if Unterminated(st) then
      Done("upstream_ended_mid_frame", cls.seen.marks.stop,
           ResultOf(st, cls, 502, "upstream_ended_mid_frame", false))
    else
      Done("", cls.seen.marks.stop, ResultOf(st, cls, 200, "", o.isSSE && !cls.seen.data))
  }

  /** `handleUpstreamClosed` and `handleStreamError`. */
  function BrokenDone(o: Options, st: Stages, reason: Bytes, error: Bytes): Frame {
    var cls := Flushed(o.usageOf, st.cls);
    Done(reason, cls.seen.marks.stop, ResultOf(st, cls, 502, error, false))
  }

  /** `handleCtxCancel`. */
  function CancelDone(st: Stages, idle: bool): Frame {
    if idle then Done("sse_idle_timeout", st.cls.seen.marks.stop, ResultOf(st, st.cls, 504, "sse_idle_timeout", false))
    else Done("client_disconnected", st.cls.seen.marks.stop, ResultOf(st, st.cls, 502, "client_disconnected", false))
  }

  const WRITE_FAILED: Result := Result(502, 0, "client_write_failed", false, NO_USAGE)

  function ErrText(e: ReadErr): Bytes {
    match e
    case Failed(text) => text
    case Eof => "EOF"
    case UnexpectedEof => "unexpected EOF"
    case ClosedPipe => "io: read/write on closed pipe"
    case NoErr => ""
  }

  // ---- program counters ----

  datatype ReaderPc =
    | RWait
    | RSend(data: Bytes, err: ReadErr)
    | RSwitch(err: ReadErr, arm: nat)
    | RCancel(closing: bool)
    | RTail(data: Bytes, done: Frame)
    | RFinish(done: Frame)
    | RExit

  datatype OutputPc =
    | OSelect
    | OWrite(f: Frame)
    | OError(reason: Bytes, result: Result)
    | OFinish(result: Result)
    | ODeliver(result: Result)
    | OBreak(step: nat)
    | OReturn
    | OExit

  datatype KeepalivePc = KWait | KTicked | KExit

  datatype WatchdogPc = WWait | WMarked | WClosed | WExit

  datatype MainPc = MWait | MStop | MCancel | MReturned

  /** The upstream body: what is still to come, the read in flight or its unclaimed result, and (for
      the proofs) the chunks the reader has taken. */
  datatype Upstream = Upstream(rest: Bytes, inflight: bool, readBuf: ReadBuf, read: seq<Bytes>)

  /** The shared flags: body closed, stream context cancelled, idle, and the closed `stop` channel. */
  datatype Flags = Flags(closed: bool, cancelled: bool, idle: bool, stop: bool)

  /** The reader; `sent` is the payload it has queued so far. */
  datatype Reader = Reader(pc: ReaderPc, stages: Stages, sent: Bytes)

  /** The output: what it wrote, what it sent on the result channel, and (for the proofs) whether a
      write failed and which done frames it took. */
  datatype Output = Output(pc: OutputPc, wire: seq<Piece>, results: seq<Result>, broken: bool, ended: seq<Frame>)

  datatype State = State(
    up: Upstream, flags: Flags, rd: Reader, queue: seq<Frame>, out: Output,
    kpc: KeepalivePc, wpc: WatchdogPc, mpc: MainPc)

  function Init(c: Config): State {
    State(Upstream(c.upstream, true, NoRead, []), Flags(false, false, false, false),
          Reader(RWait, STAGES0, []), [], Output(OSelect, [], [], false, []),
          if c.o.isSSE then KWait else KExit, if c.o.isSSE then WWait else WExit, MWait)
  }

  // ---- actions ----

  datatype Action =
    | ReadReturns(data: Bytes, err: ReadErr)
    | TakeRead
    | ReaderSend
    | ReaderSeesCancel
    | ReaderStep
    | ReaderSeesOutDone
    | Dequeue
    | WriteOk
    | WriteFails(n: nat)
    | OutputStep
    | OutputSeesStop
    | Tick
    | KeepaliveSend
    | KeepaliveSkip
    | KeepaliveEnds
    | IdleFires
    | WatchdogStep
    | WatchdogEnds
    | ClientGone
    | MainStep

  predicate Room(s: State) { |s.queue| < CAPACITY }

  /** The channels that end the keepalive and the watchdog. */
  predicate Ending(s: State) { s.flags.stop || s.rd.pc.RExit? || s.flags.cancelled }

  /** The bytes the output is about to write. */
  function Writing(c: Config, pc: OutputPc): Bytes {
    match pc
    case OWrite(Data(b)) => b
    case OWrite(TailData(b)) => b
    case OWrite(Liveness) => KEEPALIVE
    case OError(reason, _) => SSEErrorFrame(c.o.format, reason)
    case OFinish(_) => AbnormalFinish(c.o.format)
    case _ => []
  }

  predicate IsWriting(pc: OutputPc) { pc.OWrite? || pc.OError? || pc.OFinish? }

  predicate Enabled(c: Config, s: State, a: Action) {
    match a
    case ReadReturns(data, err) =>
      // a read never invents bytes, and only a finished or closed body reports EOF
      s.up.inflight && HasPrefix(s.up.rest, data)
      && (err == Eof ==> s.flags.closed || (data == s.up.rest && c.clean))
    case TakeRead => s.rd.pc.RWait? && s.up.readBuf.ReadRes?
    case ReaderSend => (s.rd.pc.RSend? || s.rd.pc.RTail? || s.rd.pc.RFinish?) && Room(s)
    case ReaderSeesCancel => (s.rd.pc.RWait? || s.rd.pc.RSend?) && s.flags.cancelled
    case ReaderStep => s.rd.pc.RSwitch? || s.rd.pc.RCancel?
    case ReaderSeesOutDone => (s.rd.pc.RTail? || s.rd.pc.RFinish?) && s.out.pc.OExit?
    case Dequeue => s.out.pc.OSelect? && s.queue != []
    case WriteOk => IsWriting(s.out.pc)
    case WriteFails(n) => IsWriting(s.out.pc) && n <= |Writing(c, s.out.pc)|
    case OutputStep => s.out.pc.OBreak? || s.out.pc.ODeliver? || s.out.pc.OReturn?
    case OutputSeesStop => s.out.pc.OSelect? && s.flags.stop
    case Tick => s.kpc.KWait?
    case KeepaliveSend => s.kpc.KTicked? && Room(s)
    case KeepaliveSkip => s.kpc.KTicked? && !Room(s) && !Ending(s)
    case KeepaliveEnds => !s.kpc.KExit? && Ending(s)
    case IdleFires => s.wpc.WWait? && c.o.idleTimeout
    case WatchdogStep => s.wpc.WMarked? || s.wpc.WClosed?
    case WatchdogEnds => s.wpc.WWait? && Ending(s)
    case ClientGone => !s.flags.cancelled
    case MainStep => if s.mpc.MWait? then s.out.results != [] else !s.mpc.MReturned?
  }

  // ---- the reader ----

  /** Behind a handled chunk: read on, or look at the read error. */
  function AfterChunk(s: State, err: ReadErr): State {
    if err == NoErr then s.(rd := s.rd.(pc := RWait), up := s.up.(inflight := true))
    else s.(rd := s.rd.(pc := RSwitch(err, 1)))
  }

  function ApplyTakeRead(c: Config, s: State): State
    requires s.up.readBuf.ReadRes?
  {
    var ReadRes(data, err) := s.up.readBuf;
    if data == [] then AfterChunk(s.(up := s.up.(readBuf := NoRead)), err)
    else
      var st := s.rd.stages;
      var t := s.(up := s.up.(readBuf := NoRead, read := s.up.read + [data]),
                  rd := s.rd.(stages := StageNext(c.o, st, data)));
      if StageOut(c.o, st, data) == [] then AfterChunk(t, err)
      else t.(rd := t.rd.(pc := RSend(StageOut(c.o, st, data), err)))
  }

  /** The frame the reader is blocked on. */
  function Offered(pc: ReaderPc): Frame
    requires pc.RSend? || pc.RTail? || pc.RFinish?
  {
    match pc
    case RSend(data, _) => Data(data)
    case RTail(data, _) => TailData(data)
    case RFinish(done) => done
  }

  function ApplyReaderSend(s: State): State
    requires s.rd.pc.RSend? || s.rd.pc.RTail? || s.rd.pc.RFinish?
  {
    var t := s.(queue := s.queue + [Offered(s.rd.pc)]);
    match s.rd.pc
    case RSend(data, err) => AfterChunk(t.(rd := s.rd.(sent := s.rd.sent + data)), err)
    case RTail(data, done) => t.(rd := s.rd.(sent := s.rd.sent + data, pc := RFinish(done)))
    case RFinish(done) => t.(rd := s.rd.(pc := RExit))
  }

  /** The arms of the switch on the read error, and the second half of `handleCtxCancel`. */
  function NextReaderPc(c: Config, pc: ReaderPc, st: Stages, flags: Flags): ReaderPc
    requires pc.RSwitch? || pc.RCancel?
  {
    match pc
    case RCancel(closing) => if closing then RCancel(false) else RFinish(CancelDone(st, flags.idle))
    case RSwitch(err, arm) =>
      if arm == 1 then
        if err != Eof || flags.closed then RSwitch(err, 2)
        else if Unterminated(st) || Tail(st) == [] then RFinish(CleanDone(c.o, st))
        else RTail(Tail(st), CleanDone(c.o, st))
      else if arm == 2 then if flags.idle then RCancel(true) else RSwitch(err, 3)
      else if arm == 3 then if flags.cancelled then RCancel(true) else RSwitch(err, 4)
      else if flags.closed || err == UnexpectedEof || err == ClosedPipe then
        RFinish(BrokenDone(c.o, st, "upstream_closed", "upstream_closed"))
      else RFinish(BrokenDone(c.o, st, "upstream_stream_error", ErrText(err)))
  }

  function ApplyReaderStep(c: Config, s: State): State
    requires s.rd.pc.RSwitch? || s.rd.pc.RCancel?
  {
    s.(rd := s.rd.(pc := NextReaderPc(c, s.rd.pc, s.rd.stages, s.flags)),
       flags := if s.rd.pc == RCancel(true) then s.flags.(closed := true) else s.flags)
  }

  // ---- the output ----

  /** Whether a done frame calls for the synthetic end. */
  predicate Injects(c: Config, f: Frame) {
    f.Done? && f.reason != "" && c.o.isSSE && !f.sawStop && f.reason != "client_disconnected"
  }

  function Taken(c: Config, o: Output, f: Frame): Output {
    if !f.Done? then o.(pc := OWrite(f))
    else o.(ended := o.ended + [f],
            pc := if Injects(c, f) then OError(f.reason, f.result) else ODeliver(f.result))
  }

  function PieceKind(pc: OutputPc): Kind {
    match pc
    case OWrite(Data(_)) => Payload
    case OWrite(TailData(_)) => TailPayload
    case OWrite(Liveness) => Keepalive
    case _ => Terminal
  }

  /** A write that put `b` on the wire; a failed one tears the stream down unless it is part of the
      synthetic end, whose errors are ignored. */
  function Written(o: Output, b: Bytes, ok: bool): Output {
    var p := o.(wire := o.wire + [Piece(PieceKind(o.pc), b)]);
    match o.pc
    case OError(_, result) => p.(pc := OFinish(result))
    case OFinish(result) => p.(pc := ODeliver(result))
    case _ => if ok then p.(pc := OSelect) else p.(pc := OBreak(1), broken := true)
  }

  /** Tear-down after a failed write in its order (close the body, cancel, deliver), the delivery of
      a done frame's result, and the closing of `outDone`. */
  function OutputStepped(o: Output): Output {
    match o.pc
    case OBreak(step) =>
      if step == 1 then o.(pc := OBreak(2))
      else if step == 2 then o.(pc := OBreak(3))
      else o.(results := o.results + [WRITE_FAILED], pc := OReturn)
    case ODeliver(result) => o.(results := o.results + [result], pc := OReturn)
    case _ => o.(pc := OExit)
  }

  function OutputFlags(pc: OutputPc, flags: Flags): Flags {
    if pc == OBreak(1) then flags.(closed := true)
    else if pc == OBreak(2) then flags.(cancelled := true)
    else flags
  }

  // ---- one step ----

  function ApplyMain(s: State): State {
    match s.mpc
    case MWait => s.(mpc := MStop)
    case MStop => s.(flags := s.flags.(stop := true), mpc := MCancel)
    case _ => s.(flags := s.flags.(cancelled := true), mpc := MReturned)
  }

  function Apply(c: Config, s: State, a: Action): State
    requires Enabled(c, s, a)
  {
    match a
    case ReadReturns(data, err) =>
      s.(up := s.up.(inflight := false, readBuf := ReadRes(data, err), rest := s.up.rest[|data|..]))
    case TakeRead => ApplyTakeRead(c, s)
    case ReaderSend => ApplyReaderSend(s)
    case ReaderSeesCancel => s.(rd := s.rd.(pc := RCancel(true)))
    case ReaderStep => ApplyReaderStep(c, s)
    case ReaderSeesOutDone => s.(rd := s.rd.(pc := RExit))
    case Dequeue => s.(queue := s.queue[1..], out := Taken(c, s.out, s.queue[0]))
    case WriteOk => s.(out := Written(s.out, Writing(c, s.out.pc), true))
    case WriteFails(n) => s.(out := Written(s.out, Writing(c, s.out.pc)[..n], false))
    case OutputStep => s.(out := OutputStepped(s.out), flags := OutputFlags(s.out.pc, s.flags))
    case OutputSeesStop => s.(out := s.out.(pc := OExit))
    case Tick => s.(kpc := KTicked)
    case KeepaliveSend => s.(queue := s.queue + [Liveness], kpc := KWait)
    case KeepaliveSkip => s.(kpc := KWait)
    case KeepaliveEnds => s.(kpc := KExit)
    case IdleFires => s.(flags := s.flags.(idle := true), wpc := WMarked)
    case WatchdogStep =>
      if s.wpc.WMarked? then s.(flags := s.flags.(closed := true), wpc := WClosed)
      else s.(flags := s.flags.(cancelled := true), wpc := WExit)
    case WatchdogEnds => s.(wpc := WExit)
    case ClientGone => s.(flags := s.flags.(cancelled := true))
    case MainStep => ApplyMain(s)
  }

  /** The state after a list of actions, if each of them was enabled in its turn. */
  datatype Outcome = Stuck | Ends(s: State)

  function Run(c: Config, s: State, actions: seq<Action>): Outcome {
    if actions == [] then Ends(s)
    else
      var a := actions[|actions| - 1];
      match Run(c, s, actions[..|actions| - 1])
      case Stuck => Stuck
      case Ends(t) => if Enabled(c, t, a) then Ends(Apply(c, t, a)) else Stuck
  }

  function Exec(c: Config, actions: seq<Action>): Outcome { Run(c, Init(c), actions) }
}
