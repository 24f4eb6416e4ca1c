/** The request handler over its shared breaker, health tracker and recorder: each of its methods has
    exactly the effects that the request log lists, on exactly these objects. */
module RequestHandling {
  import opened ByteStrings
  import opened RetryRules
  import opened RequestEffects
  import CB = CircuitBreaking
  import MH = ModelHealth
  import MS = ModelStatistics
  import PM = PumpModel
  import RR = RequestResults

  // ---- effects as events of the shared objects ----

  function BreakerEvent(e: Effect): seq<CB.Event> {
    match e
    case BreakerFailed(now) => [CB.Event.Failure(now)]
    case BreakerSucceeded => [CB.Success]
    case _ => []
  }

  /** Marks of a request that names no model, and those for a status below 500, are dropped. */
  function HealthEvent(model: string, e: Effect): seq<MH.Event> {
    match e
    case MarkedFailed(status, now) => if model == "" || status < 500 then [] else [MH.Event.Failed(model, now)]
    case MarkedExhausted(now) => if model == "" then [] else [MH.Exhausted(model, now)]
    case MarkedDegraded(now) => if model == "" then [] else [MH.Degraded(model, now)]
    case _ => []
  }

  function RecorderEvent(model: string, e: Effect): seq<MS.Event> {
    if e.Recorded? then [MS.Finished(MS.OrUnknown(model), e.args)] else []
  }

  datatype Reply = Reply(status: int, payload: Payload)

  function ReplyOf(e: Effect): seq<Reply> { if e.Head? then [Reply(e.status, e.payload)] else [] }

  function BreakerEvents(log: seq<Effect>): seq<CB.Event> {
    if log == [] then [] else BreakerEvents(log[..|log| - 1]) + BreakerEvent(log[|log| - 1])
  }

  function HealthEvents(model: string, log: seq<Effect>): seq<MH.Event> {
    if log == [] then [] else HealthEvents(model, log[..|log| - 1]) + HealthEvent(model, log[|log| - 1])
  }

  function RecorderEvents(model: string, log: seq<Effect>): seq<MS.Event> {
    if log == [] then [] else RecorderEvents(model, log[..|log| - 1]) + RecorderEvent(model, log[|log| - 1])
  }

  function Replies(log: seq<Effect>): seq<Reply> {
    if log == [] then [] else Replies(log[..|log| - 1]) + ReplyOf(log[|log| - 1])
  }

  /** One more effect is one more event, or none. */
  lemma EventsAppend(model: string, log: seq<Effect>, e: Effect)
    ensures BreakerEvents(log + [e]) == BreakerEvents(log) + BreakerEvent(e)
    ensures HealthEvents(model, log + [e]) == HealthEvents(model, log) + HealthEvent(model, e)
    ensures RecorderEvents(model, log + [e]) == RecorderEvents(model, log) + RecorderEvent(model, e)
    ensures Replies(log + [e]) == Replies(log) + ReplyOf(e)
  {
    hide BreakerEvent, HealthEvent, RecorderEvent, ReplyOf;
    assert (log + [e])[..|log|] == log;
  }

  /** The histories of the shared objects when a request came in. */
  datatype Histories = Histories(breaker: seq<CB.Event>, health: seq<MH.Event>, recorder: seq<MS.Event>)

  /** A request on its way: the objects it shares with others, its response, and its effects so far. */
  class Exchange {
    const model: string
    const breaker: CB.Breaker
    const health: MH.Health
    const recorder: MS.Recorder
    var replies: seq<Reply>
    ghost const before: Histories
    ghost var log: seq<Effect>

    /** The shared objects are where the effects have taken them, and the response is what they sent. */
    ghost predicate Valid()
      reads this, breaker, health, recorder
    {
      && breaker.Valid() && health.Valid() && recorder.Valid()
      && breaker.history == before.breaker + BreakerEvents(log)
      && health.history == before.health + HealthEvents(model, log)
      && recorder.history == before.recorder + RecorderEvents(model, log)
      && replies == Replies(log)
    }

    constructor (model: string, breaker: CB.Breaker, health: MH.Health, recorder: MS.Recorder)
      requires breaker.Valid() && health.Valid() && recorder.Valid()
      ensures Valid() && log == []
      ensures this.model == model && this.breaker == breaker && this.health == health && this.recorder == recorder
      ensures before == Histories(breaker.history, health.history, recorder.history)
    {
      this.model, this.breaker, this.health, this.recorder := model, breaker, health, recorder;
      before := Histories(breaker.history, health.history, recorder.history);
      replies, log := [], [];
    }

    ghost method Note(e: Effect)
      requires Valid() && Traceless(e)
      modifies this`log
      ensures Valid() && log == old(log) + [e]
    {
      hide BreakerEvents, HealthEvents, RecorderEvents, Replies, MH.Ties, MS.Ties, CB.Streak, CB.Deadline;
      EventsAppend(model, log, e);
      log := log + [e];
    }

    method RecordFailure(now: int)
      requires Valid()
      modifies this`log, breaker
      ensures Valid() && log == old(log) + [BreakerFailed(now)]
    {
      hide BreakerEvents, HealthEvents, RecorderEvents, Replies, MH.Ties, MS.Ties, CB.Streak, CB.Deadline;
      EventsAppend(model, log, BreakerFailed(now));
      breaker.RecordFailure(now);
      log := log + [BreakerFailed(now)];
    }

    method RecordSuccess()
      requires Valid()
      modifies this`log, breaker
      ensures Valid() && log == old(log) + [BreakerSucceeded]
    {
      hide BreakerEvents, HealthEvents, RecorderEvents, Replies, MH.Ties, MS.Ties, CB.Streak, CB.Deadline;
      EventsAppend(model, log, BreakerSucceeded);
      breaker.RecordSuccess();
      log := log + [BreakerSucceeded];
    }

    method MarkFailed(status: int, now: int)
      requires Valid()
      modifies this`log, health
      ensures Valid() && log == old(log) + [MarkedFailed(status, now)]
    {
      hide BreakerEvents, HealthEvents, RecorderEvents, Replies, MH.Ties, MS.Ties, CB.Streak, CB.Deadline;
      EventsAppend(model, log, MarkedFailed(status, now));
      health.MarkFailed(model, status, now);
      log := log + [MarkedFailed(status, now)];
    }

    method MarkExhausted(now: int)
      requires Valid()
      modifies this`log, health
      ensures Valid() && log == old(log) + [MarkedExhausted(now)]
    {
      hide BreakerEvents, HealthEvents, RecorderEvents, Replies, MH.Ties, MS.Ties, CB.Streak, CB.Deadline;
      EventsAppend(model, log, MarkedExhausted(now));
      health.MarkExhausted(model, now);
      log := log + [MarkedExhausted(now)];
    }

    method MarkDegraded(now: int)
      requires Valid()
      modifies this`log, health
      ensures Valid() && log == old(log) + [MarkedDegraded(now)]
    {
      hide BreakerEvents, HealthEvents, RecorderEvents, Replies, MH.Ties, MS.Ties, CB.Streak, CB.Deadline;
      EventsAppend(model, log, MarkedDegraded(now));
      health.MarkDegraded(model, now);
      log := log + [MarkedDegraded(now)];
    }

    method Result(args: MS.ResultArgs)
      requires Valid()
      modifies this`log, recorder
      ensures Valid() && log == old(log) + [Recorded(args)]
    {
      hide BreakerEvents, HealthEvents, RecorderEvents, Replies, MH.Ties, MS.Ties, CB.Streak, CB.Deadline;
      EventsAppend(model, log, Recorded(args));
      recorder.Result(model, args);
      log := log + [Recorded(args)];
    }

    method Respond(status: int, payload: Payload)
      requires Valid()
      modifies this`log, this`replies
      ensures Valid() && log == old(log) + [Head(status, payload)]
    {
      hide BreakerEvents, HealthEvents, RecorderEvents, Replies, MH.Ties, MS.Ties, CB.Streak, CB.Deadline;
      EventsAppend(model, log, Head(status, payload));
      replies := replies + [Reply(status, payload)];
      log := log + [Head(status, payload)];
    }
  }

  class Handler {
    const cfg: Config
    const breaker: CB.Breaker
    const health: MH.Health
    const recorder: MS.Recorder

    constructor (cfg: Config, breaker: CB.Breaker, health: MH.Health, recorder: MS.Recorder)
      ensures this.cfg == cfg && this.breaker == breaker && this.health == health && this.recorder == recorder
    {
      this.cfg, this.breaker, this.health, this.recorder := cfg, breaker, health, recorder;
    }

    /** A failed attempt: true if the request is over. */
    method HandleTransportError(x: Exchange, attempt: nat, a: Attempt) returns (stop: bool)
      requires x.Valid() && a.answer.Failure?
      modifies x`log, x`replies, x.breaker, x.health, x.recorder
      ensures var v := FailureVerdict(cfg, attempt, a);
        x.Valid() && x.log == old(x.log) + v.effects && stop == !v.again
    {
      hide Exchange.Valid, RetryDelay, IsRetryable, TransportMessage;
      x.Note(Failed);
      var message := TransportMessage(a.answer.error);
      if a.answer.timedOut {
        message := "timeout";
      }
      if a.goneAtError {
        return true;
      }
      if attempt < cfg.maxRetries && IsRetryable(0, message, cfg.retryOn5xx) {
        x.Note(Slept(RetryDelay(attempt, cfg.retryDelayMs)));
        return a.goneInBackoff;
      }
      x.RecordFailure(a.clock(0));
      x.MarkFailed(503, a.clock(1));
      var status, code := 502, "proxy_error";
      if a.answer.timedOut {
        status, code := 504, "timeout";
      }
      x.Result(PlainArgs(status, 0, message, false));
      x.Respond(status, ErrorBody(code));
      return true;
    }

    /** A 403 or 405 met by the first attempt: true if the request is over. */
    method HandleWafResponse(x: Exchange, a: Attempt) returns (stop: bool)
      requires x.Valid() && a.answer.Response?
      modifies x`log, x`replies, x.breaker, x.health, x.recorder
      ensures var v := WafVerdict(cfg, a);
        x.Valid() && x.log == old(x.log) + v.effects && stop == !v.again
    {
      hide Exchange.Valid, RetryDelay, IsWafBlock, StatusText, EmptyOutput;
      var Response(status, body, cut, _, _) := a.answer;
      if cut {
        x.RecordFailure(a.clock(0));
        x.Result(PlainArgs(502, 0, "upstream_response_error", false));
        x.Respond(502, ErrorBody("proxy_error"));
        return true;
      }
      var empty := EmptyOutput(cfg, status, body);
      if empty {
        x.MarkDegraded(a.clock(2));
      }
      if !IsWafBlock(status, body) {
        x.Result(PlainArgs(status, a.durationMs, StatusText(status), empty));
        x.Respond(status, Whole(body));
        return true;
      }
      x.Note(Warmed);
      x.Note(Slept(RetryDelay(0, cfg.retryDelayMs)));
      return a.goneInBackoff;
    }

    method ForwardNon200(x: Exchange, a: Attempt)
      requires x.Valid() && a.answer.Response?
      modifies x`log, x`replies, x.health, x.recorder
      ensures x.Valid() && x.log == old(x.log) + ForwardEffects(cfg, a)
    {
      hide Exchange.Valid, StatusText, EmptyOutput;
      var Response(status, body, cut, _, _) := a.answer;
      if cut && !MayBeExempt(status) {
        x.Result(PlainArgs(502, 0, "upstream_response_error", false));
        x.Respond(502, ErrorBody("upstream_response_error"));
        return;
      }
      var empty := EmptyOutput(cfg, status, body);
      if empty {
        x.MarkDegraded(a.clock(2));
      }
      x.Result(PlainArgs(status, a.durationMs, StatusText(status), empty));
      x.Respond(status, Whole(body));
    }

    /** Behind the head the caller wrote: the pump's result is recorded, then the model is marked. */
    method StreamSSE(x: Exchange, a: Attempt, res: PM.Result)
      requires x.Valid()
      modifies x`log, x.health, x.recorder
      ensures x.Valid() && old(x.log) <= x.log
      ensures [Head(200, Pumped)] + x.log[|old(x.log)|..] == StreamEffects(cfg, a, res)
    {
      hide Exchange.Valid;
      x.Result(MS.ResultArgs(res.status, a.durationMs, res.chunks, res.error, res.empty, false));
      if res.error in {"sse_idle_timeout", "upstream_ended_mid_frame"} {
        x.MarkDegraded(a.clock(1));
      }
      if res.empty {
        x.MarkDegraded(a.clock(2));
      }
      if res.status == 200 && a.durationMs >= cfg.slowMs {
        x.MarkDegraded(a.clock(3));
      }
    }

    method CopyBody(x: Exchange, a: Attempt)
      requires x.Valid()
      modifies x`log, x.health, x.recorder
      ensures x.Valid() && old(x.log) <= x.log
      ensures [Head(200, Copied)] + x.log[|old(x.log)|..] == CopyEffects(cfg, a)
    {
      hide Exchange.Valid;
      x.Result(PlainArgs(200, a.durationMs, "", false));
      if a.durationMs >= cfg.slowMs {
        x.MarkDegraded(a.clock(3));
      }
    }

    /** What the breaker and the health tracker learn from a final response. */
    method Account(x: Exchange, a: Attempt, status: int, noPenalty: bool)
      requires x.Valid()
      modifies x`log, x.breaker, x.health
      ensures x.Valid() && x.log == old(x.log) + Accounting(a, status, noPenalty)
    {
      hide Exchange.Valid;
      if status == 429 {
        x.MarkExhausted(a.clock(1));
      }
      if status >= 500 && !noPenalty {
        x.MarkFailed(status, a.clock(1));
      }
      if status >= 500 && !noPenalty {
        x.RecordFailure(a.clock(0));
      } else if status < 400 {
        x.RecordSuccess();
      }
    }

    method Deliver(x: Exchange, a: Attempt)
      requires x.Valid() && a.answer.Response?
      modifies x`log, x`replies, x.health, x.recorder
      ensures x.Valid() && x.log == old(x.log) + DeliveryEffects(cfg, a)
    {
      hide Exchange.Valid, ForwardEffects, StreamEffects, CopyEffects;
      var Response(status, body, cut, eventStream, pumped) := a.answer;
      var isSSE := eventStream || (status == 200 && cfg.wantsStream);
      if status != 200 {
        ForwardNon200(x, a);
        return;
      }
      ghost var was := x.log;
      x.Respond(200, if isSSE then Pumped else Copied);
      if isSSE {
        StreamSSE(x, a, pumped);
      } else {
        CopyBody(x, a);
      }
      assert x.log == was + ([x.log[|was|]] + x.log[|was| + 1..]);
    }

    /** A response that is not a first 403 or 405: true if the request is over. */
    method HandleResponse(x: Exchange, attempt: nat, a: Attempt) returns (stop: bool)
      requires x.Valid() && a.answer.Response?
      modifies x`log, x`replies, x.breaker, x.health, x.recorder
      ensures var v := ResponseVerdict(cfg, attempt, a);
        x.Valid() && x.log == old(x.log) + v.effects && stop == !v.again
    {
      hide Exchange.Valid, Accounting, DeliveryEffects, IsRetryable, IsContentFilterRejection, IsAccountSideRejection,
        RetryDelay;
      var Response(status, body, cut, eventStream, pumped) := a.answer;
      var noPenalty := false;
      ExemptStatuses(status, body);
      if MayBeExempt(status) {
        noPenalty := !cut && (IsContentFilterRejection(status, body) || IsAccountSideRejection(status, body));
      }
      if !noPenalty && IsRetryable(status, "", cfg.retryOn5xx) && attempt < cfg.maxRetries {
        x.Note(Slept(RetryDelay(attempt, cfg.retryDelayMs)));
        return a.goneInBackoff;
      }
      Account(x, a, status, noPenalty);
      Deliver(x, a);
      return true;
    }

    /** The retry loop. */
    method DoRequest(x: Exchange, world: nat -> Attempt)
      requires x.Valid()
      modifies x`log, x`replies, x.breaker, x.health, x.recorder
      ensures x.Valid() && x.log == old(x.log) + Effects(cfg, world, 0)
    {
      hide Exchange.Valid, FailureVerdict, WafVerdict, ResponseVerdict;
      var attempt := 0;
      while true
        invariant attempt <= Retries(cfg) && x.Valid()
        invariant x.log + Effects(cfg, world, attempt) == old(x.log) + Effects(cfg, world, 0)
        decreases Retries(cfg) - attempt
      {
        var a := world(attempt);
        ghost var was, v := x.log, AttemptVerdict(cfg, attempt, a);
        RetriesAreBounded(cfg, attempt, a);
        if a.goneBefore {
          return;
        }
        var stop: bool;
        if a.answer.Failure? {
          stop := HandleTransportError(x, attempt, a);
        } else {
          x.Note(Received(a.answer.status));
          if a.answer.status in {403, 405} && attempt == 0 {
            stop := HandleWafResponse(x, a);
          } else {
            stop := HandleResponse(x, attempt, a);
          }
        }
        assert x.log == was + v.effects;
        if stop {
          return;
        }
        attempt := attempt + 1;
      }
    }

    /** A request behind the checks on its body: while the circuit is open it is turned away, and
        nothing of it reaches the upstream. */
    method ServeProxy(model: string, world: nat -> Attempt, now: int) returns (replies: seq<Reply>)
      requires breaker.Valid() && health.Valid() && recorder.Valid()
      modifies breaker, health, recorder
      ensures breaker.Valid() && health.Valid() && recorder.Valid()
      ensures var log := Admitted(cfg, world, now <= CB.Deadline(old(breaker.history)));
        && breaker.history == old(breaker.history) + BreakerEvents(log)
        && health.history == old(health.history) + HealthEvents(model, log)
        && recorder.history == old(recorder.history) + MS.Begun(model) + RecorderEvents(model, log)
        && replies == Replies(log)
    {
      hide Effects, BreakerEvents, HealthEvents, RecorderEvents, Replies, MH.Ties, MS.Ties, CB.Streak, CB.Deadline;
      if model != "" {
        recorder.Start(model);
      }
      var x := new Exchange(model, breaker, health, recorder);
      var open := breaker.IsOpen(now);
      if open {
        x.Respond(503, ErrorBody("circuit_open"));
      } else {
        DoRequest(x, world);
      }
      assert x.log == Admitted(cfg, world, open);
      replies := x.replies;
    }
  }

  /** The effects of a request that meets an open or a closed circuit. */
  function Admitted(cfg: Config, world: nat -> Attempt, open: bool): seq<Effect> {
    if open then [Head(503, ErrorBody("circuit_open"))] else Effects(cfg, world, 0)
  }

  // ---- one request, seen from the shared objects ----

  lemma TotalAppend(log: seq<Effect>, e: Effect, w: Effect -> int)
    ensures Total(log + [e], w) == Total(log, w) + w(e)
  {
    TotalParts(log, [e], w);
    TotalTwo(e, e, w);
  }

  lemma {:induction false} EventsAreCounted(model: string, log: seq<Effect>)
    ensures |RecorderEvents(model, log)| == Total(log, Records) && |Replies(log)| == Total(log, Heads)
    ensures forall x | x in RecorderEvents(model, log) ::
      x.Finished? && x.id == MS.OrUnknown(model) && Recorded(x.args) in log
    decreases |log|
  {
    hide Total;
    if log == [] {
      NothingCounted();
    } else {
      var n := |log| - 1;
      var a, e := log[..n], log[n];
      assert log == a + [e];
      EventsAreCounted(model, a);
      TotalAppend(a, e, Records);
      TotalAppend(a, e, Heads);
      forall x | x in RecorderEvents(model, log)
        ensures x.Finished? && x.id == MS.OrUnknown(model) && Recorded(x.args) in log
      {
        if x in RecorderEvents(model, a) {
          assert Recorded(x.args) in a;
        } else {
          assert x in RecorderEvent(model, e);
        }
      }
    }
  }

  lemma NothingCounted()
    ensures forall w: Effect -> int :: Total([], w) == 0
  {
  }

  lemma {:induction false} BreakerEventsAreCounted(log: seq<Effect>)
    ensures Total(log, BreakerFailures) >= 0 && Total(log, BreakerSuccesses) >= 0
    ensures |BreakerEvents(log)| == Total(log, BreakerFailures) + Total(log, BreakerSuccesses)
    ensures forall x | x in BreakerEvents(log) ::
      if x.Failure? then Total(log, BreakerFailures) > 0 else Total(log, BreakerSuccesses) > 0
    decreases |log|
  {
    hide Total;
    if log == [] {
      NothingCounted();
    } else {
      var n := |log| - 1;
      assert log == log[..n] + [log[n]];
      BreakerEventsAreCounted(log[..n]);
      TotalAppend(log[..n], log[n], BreakerFailures);
      TotalAppend(log[..n], log[n], BreakerSuccesses);
    }
  }

  lemma {:induction false} TracelessEvents(model: string, log: seq<Effect>)
    requires forall e | e in log :: Traceless(e)
    ensures BreakerEvents(log) == [] && HealthEvents(model, log) == []
    ensures RecorderEvents(model, log) == [] && Replies(log) == []
    decreases |log|
  {
    if log != [] {
      var n := |log| - 1;
      assert log[n] in log && forall e | e in log[..n] :: e in log;
      TracelessEvents(model, log[..n]);
      assert BreakerEvent(log[n]) == [] && HealthEvent(model, log[n]) == [] && RecorderEvent(model, log[n]) == [];
      hide BreakerEvent, HealthEvent, RecorderEvent;
    }
  }

  /** The breaker learns of one failure, one success, or nothing, as the last attempt deserves. */
  lemma BreakerLearnsOnce(cfg: Config, world: nat -> Attempt)
    ensures var es, n := BreakerEvents(Effects(cfg, world, 0)), Last(cfg, world, 0);
      if !RR.Leaves(cfg, n, world(n)) && RR.Fault(n, world(n).answer) then |es| == 1 && es[0].Failure?
      else es == if !RR.Leaves(cfg, n, world(n)) && RR.Healthy(world(n).answer) then [CB.Success] else []
  {
    var n := Last(cfg, world, 0);
    RR.OneAnswerOrNoTrace(cfg, world, 0);
    FaultIsNotHealthy(n, world(n).answer);
    hide Effects, Last, Total, RR.Leaves, RR.Answers, RR.Fault, RR.Healthy;
    OneBreakerEvent(Effects(cfg, world, 0));
  }

  lemma FaultIsNotHealthy(k: nat, answer: Answer)
    ensures !(RR.Fault(k, answer) && RR.Healthy(answer))
  {
  }

  lemma OneBreakerEvent(log: seq<Effect>)
    requires Total(log, BreakerFailures) + Total(log, BreakerSuccesses) <= 1
    ensures var es := BreakerEvents(log);
      if Total(log, BreakerFailures) == 1 then |es| == 1 && es[0].Failure?
      else es == if Total(log, BreakerSuccesses) == 1 then [CB.Success] else []
  {
    BreakerEventsAreCounted(log);
    hide Total, BreakerEvents;
    var es := BreakerEvents(log);
    assert |es| > 0 ==> es[0] in es;
  }

  lemma RecordedOnce(cfg: Config, world: nat -> Attempt, model: string)
    requires RR.PumpIsSound(world) && !RR.Leaves(cfg, Last(cfg, world, 0), world(Last(cfg, world, 0)))
    ensures var log := Effects(cfg, world, 0); var rs := RecorderEvents(model, log);
      |Replies(log)| == 1 && |rs| == 1
      && rs[0].Finished? && rs[0].id == MS.OrUnknown(model) && MS.HandlerArgs(rs[0].args)
  {
    RR.OneAnswerOrNoTrace(cfg, world, 0);
    hide Effects, Last, Total, RR.Leaves, RR.Answers, RR.PumpIsSound, MS.HandlerArgs, RecorderEvents, Replies,
      RR.Fault, RR.Healthy;
    var log := Effects(cfg, world, 0);
    EventsAreCounted(model, log);
    var x := RecorderEvents(model, log)[0];
    assert x in RecorderEvents(model, log);
    RR.RecordedResultsAreConsistent(cfg, world, 0, Recorded(x.args));
  }

  /** What a request does to the objects it shares with others: nothing at all if its client leaves;
      otherwise it is answered once and recorded once, under its model and with a consistent result. */
  lemma RequestIsAccountedOnce(cfg: Config, world: nat -> Attempt, model: string)
    requires RR.PumpIsSound(world)
    ensures var log, n := Effects(cfg, world, 0), Last(cfg, world, 0);
      var rs := RecorderEvents(model, log);
      if RR.Leaves(cfg, n, world(n)) then
        BreakerEvents(log) == [] && HealthEvents(model, log) == [] && rs == [] && Replies(log) == []
      else
        |Replies(log)| == 1 && |rs| == 1
        && rs[0].Finished? && rs[0].id == MS.OrUnknown(model) && MS.HandlerArgs(rs[0].args)
  {
    var n := Last(cfg, world, 0);
    if RR.Leaves(cfg, n, world(n)) {
      RR.OneAnswerOrNoTrace(cfg, world, 0);
      hide Effects, Last, Total, RR.Leaves, RR.Answers, RR.Fault, RR.Healthy, BreakerEvents, HealthEvents,
        RecorderEvents, Replies;
      TracelessEvents(model, Effects(cfg, world, 0));
    } else {
      RecordedOnce(cfg, world, model);
      hide Effects, Last, RR.Leaves, MS.HandlerArgs, RecorderEvents, Replies, BreakerEvents, HealthEvents;
    }
  }

  /** For the statistics, a served request is two steps of the interleaving, with any steps of other
      requests between them: it begins, and it ends with its one result or vanishes. Turned away by the
      open circuit, it vanishes. The others do what they would have done without it. */
  lemma RequestIsTwoSteps(
      cfg: Config, world: nat -> Attempt, model: string, open: bool, s: MS.Serving, others: seq<MS.Step>)
    returns (x: MS.Step, y: MS.Step)
    requires RR.PumpIsSound(world) && MS.ServeFrom(s, others).Reached?
    ensures MS.CanStep(s, x) && MS.ServeFrom(MS.After(s, x), others).Reached?
    ensures var t, alone := MS.ServeFrom(MS.After(s, x), others).s, MS.ServeFrom(s, others).s;
      && MS.CanStep(t, y) && s.history <= alone.history
      && MS.After(t, y) == MS.Serving(alone.inFlight,
           s.history + MS.Begun(model) + alone.history[|s.history|..]
           + RecorderEvents(model, Admitted(cfg, world, open)))
  {
    RequestIsAccountedOnce(cfg, world, model);
    OpenRecordsNothing(model);
    MS.OthersGoOn(s, model, others);
    var n, alone := Last(cfg, world, 0), MS.ServeFrom(s, others).s;
    var es := RecorderEvents(model, Admitted(cfg, world, open));
    x := MS.Begin(model);
    assert s.history[|s.history|..] == [] && s.history + MS.Begun(model) + [] == s.history + MS.Begun(model);
    assert MS.After(s, x) == MS.Joined(s, model, s.history);
    var t := MS.Joined(alone, model, s.history);
    assert t.inFlight - multiset{model} == alone.inFlight;
    hide Effects, Last, RR.PumpIsSound, RR.Leaves, MS.HandlerArgs, RecorderEvents, MS.ServeFrom;
    if open || RR.Leaves(cfg, n, world(n)) {
      y := MS.Vanish(model);
      assert t.history + [] == t.history;
    } else {
      y := MS.End(model, es[0].args);
      assert es == [es[0]];
    }
  }

  lemma OpenRecordsNothing(model: string)
    ensures RecorderEvents(model, [Head(503, ErrorBody("circuit_open"))]) == []
  {
    var log := [Head(503, ErrorBody("circuit_open"))];
    assert log[..0] == [];
  }
}
