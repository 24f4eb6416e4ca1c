/** Where keepalives land in an OpenAI stream: between events. Until the tail of the clean end or the
    synthetic end is written, a client that parses what it was sent sees the same events with and
    without the keepalives, in every reachable state of the pump. */
module KeepalivePlacement {
  import opened ByteStrings
  import opened FrameClassification
  import opened Eom
  import opened SseEvents
  import opened PumpModel
  import opened PumpSafety
  import FF = FrameFiltering

  ghost predicate WellPlaced(x: Piece) {
    && (x.kind == Payload ==> Aligned(x.bytes))
    && (x.kind == Keepalive ==> x.bytes == KEEPALIVE)
  }

  /** The writes that were not cut short. */
  function Whole(o: Output): seq<Piece> {
    if o.broken && o.wire != [] then o.wire[..|o.wire| - 1] else o.wire
  }

  /** All filtered chunks on their way, and those written, end at an event boundary. */
  ghost predicate InvAligned(s: State) {
    && (s.rd.pc.RSend? ==> Aligned(s.rd.pc.data))
    && (forall f | f in s.queue && f.Data? :: Aligned(f.bytes))
    && (s.out.pc.OWrite? && s.out.pc.f.Data? ==> Aligned(s.out.pc.f.bytes))
    && (forall x | x in Whole(s.out) :: WellPlaced(x))
  }

  lemma TakeAligned(c: Config, s: State)
    requires Filters(c.o) && InvAligned(s) && Enabled(c, s, TakeRead)
    ensures InvAligned(Apply(c, s, TakeRead))
  {
    hide FF.Emitted, StageNext, Aligned, WellPlaced, Stripped;
    var data := s.up.readBuf.data;
    FilterOutputAligned(s.rd.stages.pending, Stripped(c.o, s.rd.stages, data));
  }

  lemma DequeueAligned(c: Config, s: State)
    requires InvAligned(s) && Enabled(c, s, Dequeue)
    ensures InvAligned(Apply(c, s, Dequeue))
  {
    hide Aligned, WellPlaced, Injects;
    var f := s.queue[0];
    assert f in s.queue;
    assert Whole(Taken(c, s.out, f)) == Whole(s.out);
    forall g | g in s.queue[1..] && g.Data?
      ensures Aligned(g.bytes)
    {
      assert g in s.queue;
    }
  }

  lemma SendAligned(c: Config, s: State)
    requires InvSent(c, s.up.read, s.rd) && InvAligned(s) && Enabled(c, s, ReaderSend)
    ensures InvAligned(Apply(c, s, ReaderSend))
  {
    hide Aligned, WellPlaced, CleanDone, Complete, Tail;
    var f := Offered(s.rd.pc);
    forall g | g in s.queue + [f] && g.Data?
      ensures Aligned(g.bytes)
    {
    }
  }

  lemma WriteAligned(c: Config, s: State, n: nat, ok: bool)
    requires InvOutput(c, s.out, s.mpc, s.flags.stop) && InvAligned(s)
    requires IsWriting(s.out.pc) && n <= |Writing(c, s.out.pc)|
    requires ok ==> n == |Writing(c, s.out.pc)|
    ensures InvAligned(s.(out := Written(s.out, Writing(c, s.out.pc)[..n], ok)))
  {
    hide SSEErrorFrame, AbnormalFinish, Aligned;
    var b := Writing(c, s.out.pc);
    var x := Piece(PieceKind(s.out.pc), b[..n]);
    var o := Written(s.out, b[..n], ok);
    assert o.wire == s.out.wire + [x] && Whole(s.out) == s.out.wire;
    if o.broken {
      assert Whole(o) == s.out.wire;
    } else {
      assert ok ==> b[..n] == b;
      assert WellPlaced(x);
    }
  }

  lemma AlignedKept(c: Config, s: State, a: Action)
    requires Filters(c.o) && Inv(c, s) && InvAligned(s) && Enabled(c, s, a)
    ensures InvAligned(Apply(c, s, a))
  {
    hide InvRead, InvSent, InvQueue, InvFifo, InvTerminal, InvTerminalBytes, StageOut, StageNext, CleanDone,
      BrokenDone, CancelDone, Tail, Aligned, WellPlaced, SSEErrorFrame, AbnormalFinish;
    match a {
      case TakeRead => TakeAligned(c, s);
      case WriteOk =>
        WriteAligned(c, s, |Writing(c, s.out.pc)|, true);
        assert Writing(c, s.out.pc)[..|Writing(c, s.out.pc)|] == Writing(c, s.out.pc);
      case WriteFails(n) => WriteAligned(c, s, n, false);
      case Dequeue => DequeueAligned(c, s);
      case ReaderSend => SendAligned(c, s);
      case ReaderStep =>
      case ReaderSeesCancel =>
      case ReaderSeesOutDone =>
      case OutputStep =>
      case OutputSeesStop =>
      case _ => Frames(c, s, a);
    }
  }

  lemma {:induction false} ExecAligned(c: Config, actions: seq<Action>)
    requires Filters(c.o)
    ensures Exec(c, actions).Ends? ==> InvAligned(Exec(c, actions).s)
    decreases |actions|
  {
    hide Apply, Enabled, Inv, InvAligned;
    if actions == [] {
      assert InvAligned(Init(c)) by { InitAligned(c); }
    } else {
      var n := |actions| - 1;
      ExecAligned(c, actions[..n]);
      if Exec(c, actions).Ends? {
        ExecInv(c, actions[..n]);
        AlignedKept(c, Exec(c, actions[..n]).s, actions[n]);
      }
    }
  }

  lemma InitAligned(c: Config)
    ensures InvAligned(Init(c))
  {
  }

  /** In an OpenAI stream, at every moment and for every part `v` of the wire before a tail, the
      synthetic end or a torn write: each of its writes is a complete keepalive or leads from one
      event boundary to the next, and the client dispatches the same events as if no keepalive had
      been written. */
  lemma KeepalivesFallBetweenEvents(c: Config, s: State, v: seq<Piece>)
    requires Reachable(c, s) && Filters(c.o) && v <= Whole(s.out)
    requires forall x | x in v :: x.kind == Payload || x.kind == Keepalive
    ensures PlacedBetweenEvents(v)
    ensures Events(AllBytes(v)) == Events(PayloadOf(v))
  {
    hide Exec, Aligned, AllBytes, PayloadOf, Events;
    var actions :| Exec(c, actions) == Ends(s);
    ExecAligned(c, actions);
    forall x | x in v
      ensures x in Whole(s.out)
    {
      var i :| 0 <= i < |v| && v[i] == x;
      assert Whole(s.out)[i] == v[i];
    }
    KeepalivesAreInvisible(v);
  }
}
