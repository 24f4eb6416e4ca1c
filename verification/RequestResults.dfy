/** What holds of every request, whatever the upstream answers and whenever the client leaves: how
    often it is tried, how long it waits, and what it leaves behind in the breaker, the health
    tracker, the recorder and at the client. */
module RequestResults {
  import opened ByteStrings
  import opened RetryRules
  import opened RequestEffects
  import CB = CircuitBreaking
  import MS = ModelStatistics
  import PM = PumpModel
  import PS = PumpSafety

  /** The answer calls for another attempt, if the client is still there. */
  predicate TriesAgain(cfg: Config, k: nat, answer: Answer) {
    match answer
    case Failure(error, timedOut) =>
      k < cfg.maxRetries
      && IsRetryable(0, if timedOut then "timeout" else TransportMessage(error), cfg.retryOn5xx)
    case Response(status, body, cut, _, _) =>
      if status in {403, 405} && k == 0 then !cut && IsWafBlock(status, body)
      else ServerError(status) && cfg.retryOn5xx && !Exempted(answer) && k < cfg.maxRetries
  }

  /** The client is found gone before the attempt, at its failure, or in the backoff behind it. */
  predicate Leaves(cfg: Config, k: nat, a: Attempt) {
    a.goneBefore || (a.answer.Failure? && a.goneAtError) || (TriesAgain(cfg, k, a.answer) && a.goneInBackoff)
  }

  /** An outcome that counts against the upstream if it is final. */
  predicate Fault(k: nat, answer: Answer) {
    match answer
    case Failure(_, _) => true
    case Response(status, _, cut, _, _) =>
      (k == 0 && status in {403, 405} && cut) || (status >= 500 && !Exempted(answer))
  }

  predicate Healthy(answer: Answer) { answer.Response? && answer.status < 400 }

  /** Whether the attempt ends the request with an answer. */
  predicate Answers(cfg: Config, k: nat, a: Attempt) { !TriesAgain(cfg, k, a.answer) && !Leaves(cfg, k, a) }

  predicate Sleeps(cfg: Config, k: nat, a: Attempt) {
    TriesAgain(cfg, k, a.answer) && !a.goneBefore && !(a.answer.Failure? && a.goneAtError)
  }

  /** What the effects of one attempt add up to. */
  ghost predicate Sums(cfg: Config, k: nat, a: Attempt, log: seq<Effect>) {
    && Total(log, Attempts) == If(!a.goneBefore)
    && Total(log, Responses) == If(!a.goneBefore && a.answer.Response?)
    && Total(log, Heads) == Total(log, Records) == If(Answers(cfg, k, a))
    && Total(log, BreakerFailures) == If(Answers(cfg, k, a) && Fault(k, a.answer))
    && Total(log, BreakerSuccesses) == If(Answers(cfg, k, a) && Healthy(a.answer))
    && (!Answers(cfg, k, a) ==> forall e | e in log :: Traceless(e))
    && Total(log, SleptNs) == if Sleeps(cfg, k, a) then RetryDelay(k, cfg.retryDelayMs) else 0
  }

  lemma FailureSum(cfg: Config, k: nat, a: Attempt, w: Effect -> int)
    requires a.answer.Failure? && !a.goneBefore
    ensures var log := FailureVerdict(cfg, k, a).effects;
      Total(log, w) ==
        if a.goneAtError then w(Failed)
        else if TriesAgain(cfg, k, a.answer) then w(Failed) + w(log[1])
        else w(Failed) + w(log[1]) + w(log[2]) + w(log[3]) + w(log[4])
  {
    hide RetryDelay, IsRetryable, TransportMessage, Total;
    var log := FailureVerdict(cfg, k, a).effects;
    TotalTwo(Failed, if |log| == 2 then log[1] else Failed, w);
    if |log| == 5 {
      TotalFive(log[0], log[1], log[2], log[3], log[4], w);
    }
  }

  /** `w` looks neither at health marks nor at the cookie warm-up. */
  ghost predicate BlindToMarks(w: Effect -> int) {
    w(Warmed) == 0 && forall e: Effect | HealthMarks(e) == 1 :: w(e) == 0
  }

  lemma OptionalMark(log: seq<Effect>, b: bool, e: Effect, w: Effect -> int)
    requires BlindToMarks(w) && HealthMarks(e) == 1
    ensures Total(log + if b then [e] else [], w) == Total(log, w)
  {
    TotalParts(log, if b then [e] else [], w);
    TotalTwo(e, e, w);
  }

  lemma WafSum(cfg: Config, a: Attempt, w: Effect -> int)
    requires a.answer.Response? && a.answer.status in {403, 405}
    ensures var log := WafVerdict(cfg, a).effects;
      Total(log, w) ==
        if a.answer.cut then w(log[0]) + w(log[1]) + w(log[2]) else w(log[0]) + w(log[1])
    ensures var log := WafVerdict(cfg, a).effects;
      if a.answer.cut then log[0].BreakerFailed? && log[1].Recorded? && log[2].Head?
      else if IsWafBlock(a.answer.status, a.answer.body) then log == [Warmed, Slept(RetryDelay(0, cfg.retryDelayMs))]
      else log[0].Recorded? && log[1].Head?
  {
    hide RetryDelay, IsWafBlock, StatusText, Total;
    var log := WafVerdict(cfg, a).effects;
    if a.answer.cut {
      TotalFive(log[0], log[1], log[2], log[0], log[0], w);
    } else {
      assert |log| == 2 && log == [log[0], log[1]];
      TotalTwo(log[0], log[1], w);
    }
  }

  lemma AccountingSum(a: Attempt, status: int, exempt: bool, w: Effect -> int)
    requires BlindToMarks(w)
    ensures Total(Accounting(a, status, exempt), w) ==
      if status >= 500 && !exempt then w(BreakerFailed(a.clock(0)))
      else if status < 400 then w(BreakerSucceeded) else 0
  {
    var e, f := MarkedFailed(status, a.clock(1)), BreakerFailed(a.clock(0));
    TotalTwo(e, f, w);
    TotalTwo(BreakerSucceeded, MarkedExhausted(a.clock(1)), w);
    TotalTwo(MarkedExhausted(a.clock(1)), f, w);
    hide Total;
    if status == 429 {
      assert Accounting(a, status, exempt) == [MarkedExhausted(a.clock(1))];
    } else {
      var log := if status >= 500 && !exempt then [e, f] else if status < 400 then [BreakerSucceeded] else [];
      assert Accounting(a, status, exempt) == log;
      assert Total([], w) == 0 by { TotalParts([], [], w); }
    }
  }

  lemma ForwardSum(cfg: Config, a: Attempt, w: Effect -> int) returns (r: Effect, h: Effect)
    requires a.answer.Response? && BlindToMarks(w)
    ensures r.Recorded? && h.Head?
    ensures Total(ForwardEffects(cfg, a), w) == w(r) + w(h)
  {
    hide StatusText, Total;
    var log := ForwardEffects(cfg, a);
    r, h := log[|log| - 2], log[|log| - 1];
    TotalTwo(r, h, w);
    if |log| == 2 {
      assert log == [r, h];
    } else {
      assert log == [log[0]] + [r, h];
      TotalParts([log[0]], [r, h], w);
      TotalTwo(log[0], r, w);
    }
  }

  lemma StreamSum(cfg: Config, a: Attempt, p: PM.Result, w: Effect -> int) returns (r: Effect, h: Effect)
    requires BlindToMarks(w)
    ensures r.Recorded? && h.Head?
    ensures Total(StreamEffects(cfg, a, p), w) == w(h) + w(r)
  {
    h := Head(200, Pumped);
    r := Recorded(MS.ResultArgs(p.status, a.durationMs, p.chunks, p.error, p.empty, false));
    TotalTwo(h, r, w);
    var abnormal := p.error in {"sse_idle_timeout", "upstream_ended_mid_frame"};
    var slow := p.status == 200 && a.durationMs >= cfg.slowMs;
    hide Total, BlindToMarks;
    OptionalMark([h, r], abnormal, MarkedDegraded(a.clock(1)), w);
    var log := [h, r] + if abnormal then [MarkedDegraded(a.clock(1))] else [];
    OptionalMark(log, p.empty, MarkedDegraded(a.clock(2)), w);
    OptionalMark(log + Degraded(a, p.empty), slow, MarkedDegraded(a.clock(3)), w);
  }

  lemma CopySum(cfg: Config, a: Attempt, w: Effect -> int) returns (r: Effect, h: Effect)
    requires BlindToMarks(w)
    ensures r.Recorded? && h.Head?
    ensures Total(CopyEffects(cfg, a), w) == w(h) + w(r)
  {
    h, r := Head(200, Copied), Recorded(PlainArgs(200, a.durationMs, "", false));
    TotalTwo(h, r, w);
    OptionalMark([h, r], a.durationMs >= cfg.slowMs, MarkedDegraded(a.clock(3)), w);
  }

  lemma ResponseSum(cfg: Config, k: nat, a: Attempt, w: Effect -> int) returns (r: Effect, h: Effect)
    requires a.answer.Response? && BlindToMarks(w) && !(a.answer.status in {403, 405} && k == 0)
    ensures r.Recorded? && h.Head?
    ensures var v := ResponseVerdict(cfg, k, a);
      if TriesAgain(cfg, k, a.answer) then
        v == Verdict([Slept(RetryDelay(k, cfg.retryDelayMs))], !a.goneInBackoff)
      else
        !v.again && Total(v.effects, w) == w(r) + w(h) +
          if a.answer.status >= 500 && !Exempted(a.answer) then w(BreakerFailed(a.clock(0)))
          else if a.answer.status < 400 then w(BreakerSucceeded) else 0
  {
    var Response(status, body, cut, eventStream, pumped) := a.answer;
    ResponsesRetryByStatus(status, cfg.retryOn5xx);
    AccountingSum(a, status, Exempted(a.answer), w);
    if status != 200 {
      r, h := ForwardSum(cfg, a, w);
    } else if eventStream || cfg.wantsStream {
      r, h := StreamSum(cfg, a, pumped, w);
    } else {
      r, h := CopySum(cfg, a, w);
    }
    TotalParts(Accounting(a, status, Exempted(a.answer)), DeliveryEffects(cfg, a), w);
    hide Total, Accounting, ForwardEffects, StreamEffects, CopyEffects, IsRetryable, IsExempt, RetryDelay, BlindToMarks;
  }

  lemma Weights()
    ensures BlindToMarks(Attempts) && BlindToMarks(Responses) && BlindToMarks(Heads) && BlindToMarks(Records)
    ensures BlindToMarks(BreakerFailures) && BlindToMarks(BreakerSuccesses) && BlindToMarks(SleptNs)
  {
  }

  /** The response verdict with `w` summed up, behind the effect of receiving it. */
  lemma ReceivedSum(status: int, log: seq<Effect>, w: Effect -> int)
    ensures Total([Received(status)] + log, w) == w(Received(status)) + Total(log, w)
  {
    TotalParts([Received(status)], log, w);
    TotalTwo(Received(status), Failed, w);
  }

  /** What `w` adds up to for an attempt with result record `r` and response head `h`. */
  function Expected(cfg: Config, k: nat, a: Attempt, w: Effect -> int, r: Effect, h: Effect): int {
    if a.goneBefore then 0
    else
      (if a.answer.Failure? then w(Failed) else w(Received(a.answer.status)))
      + (if Answers(cfg, k, a) then w(r) + w(h) else 0)
      + (if Answers(cfg, k, a) && Fault(k, a.answer) then w(BreakerFailed(a.clock(0))) else 0)
      + (if Answers(cfg, k, a) && Healthy(a.answer) then w(BreakerSucceeded) else 0)
      + (if Sleeps(cfg, k, a) then w(Slept(RetryDelay(k, cfg.retryDelayMs))) else 0)
  }

  ghost predicate AddsUp(cfg: Config, k: nat, a: Attempt, w: Effect -> int, r: Effect, h: Effect) {
    && r.Recorded? && h.Head?
    && Total(AttemptVerdict(cfg, k, a).effects, w) == Expected(cfg, k, a, w, r, h)
    && (AttemptVerdict(cfg, k, a).again <==> TriesAgain(cfg, k, a.answer) && !Leaves(cfg, k, a))
  }

  lemma FailureAddsUp(cfg: Config, k: nat, a: Attempt, w: Effect -> int) returns (r: Effect, h: Effect)
    requires a.answer.Failure? && !a.goneBefore && BlindToMarks(w)
    ensures AddsUp(cfg, k, a, w, r, h)
  {
    r, h := Recorded(PlainArgs(0, 0, "", false)), Head(0, Pumped);
    FailureSum(cfg, k, a, w);
    if Answers(cfg, k, a) {
      var log := FailureVerdict(cfg, k, a).effects;
      r, h := log[3], log[4];
    }
    hide Total, RetryDelay, IsRetryable, TransportMessage;
  }

  lemma WafAddsUp(cfg: Config, a: Attempt, w: Effect -> int) returns (r: Effect, h: Effect)
    requires a.answer.Response? && a.answer.status in {403, 405} && !a.goneBefore && BlindToMarks(w)
    ensures AddsUp(cfg, 0, a, w, r, h)
  {
    hide Total, RetryDelay, IsWafBlock, IsExempt, StatusText;
    r, h := Recorded(PlainArgs(0, 0, "", false)), Head(0, Pumped);
    WafSum(cfg, a, w);
    var log := WafVerdict(cfg, a).effects;
    ReceivedSum(a.answer.status, log, w);
    if a.answer.cut {
      r, h := log[1], log[2];
    } else if !IsWafBlock(a.answer.status, a.answer.body) {
      r, h := log[0], log[1];
    }
  }

  lemma ResponseAddsUp(cfg: Config, k: nat, a: Attempt, w: Effect -> int) returns (r: Effect, h: Effect)
    requires a.answer.Response? && !(a.answer.status in {403, 405} && k == 0) && !a.goneBefore && BlindToMarks(w)
    ensures AddsUp(cfg, k, a, w, r, h)
  {
    r, h := ResponseSum(cfg, k, a, w);
    var v := ResponseVerdict(cfg, k, a);
    ReceivedSum(a.answer.status, v.effects, w);
    TotalTwo(Slept(RetryDelay(k, cfg.retryDelayMs)), Failed, w);
    hide Total, RetryDelay, IsWafBlock, IsExempt, ResponseVerdict, BlindToMarks;
  }

  lemma AttemptSum(cfg: Config, k: nat, a: Attempt, w: Effect -> int) returns (r: Effect, h: Effect)
    requires BlindToMarks(w)
    ensures AddsUp(cfg, k, a, w, r, h)
  {
    if a.goneBefore {
      r, h := Recorded(PlainArgs(0, 0, "", false)), Head(0, Pumped);
    } else if a.answer.Failure? {
      r, h := FailureAddsUp(cfg, k, a, w);
    } else if a.answer.status in {403, 405} && k == 0 {
      r, h := WafAddsUp(cfg, a, w);
    } else {
      r, h := ResponseAddsUp(cfg, k, a, w);
    }
  }

  /** An attempt that does not answer the client leaves nothing behind. */
  lemma RetriedAttemptsLeaveNoTrace(cfg: Config, k: nat, a: Attempt)
    requires !Answers(cfg, k, a)
    ensures forall e | e in AttemptVerdict(cfg, k, a).effects :: Traceless(e)
  {
    hide RetryDelay, IsWafBlock, IsExempt, StatusText, Accounting, ForwardEffects, StreamEffects, CopyEffects, Total;
    if a.answer.Response? {
      ResponsesRetryByStatus(a.answer.status, cfg.retryOn5xx);
    }
    hide IsRetryable;
  }

  lemma AttemptSums(cfg: Config, k: nat, a: Attempt)
    ensures Sums(cfg, k, a, AttemptVerdict(cfg, k, a).effects)
    ensures AttemptVerdict(cfg, k, a).again <==> TriesAgain(cfg, k, a.answer) && !Leaves(cfg, k, a)
  {
    Weights();
    if !Answers(cfg, k, a) {
      RetriedAttemptsLeaveNoTrace(cfg, k, a);
    }
    hide BlindToMarks, AttemptVerdict, Total, TriesAgain, Exempted, RetryDelay, Fault, Healthy, Leaves, Sleeps;
    var r, h := AttemptSum(cfg, k, a, Attempts);
    r, h := AttemptSum(cfg, k, a, Responses);
    r, h := AttemptSum(cfg, k, a, Heads);
    r, h := AttemptSum(cfg, k, a, Records);
    r, h := AttemptSum(cfg, k, a, BreakerFailures);
    r, h := AttemptSum(cfg, k, a, BreakerSuccesses);
    r, h := AttemptSum(cfg, k, a, SleptNs);
    hide Answers;
  }

  // ---- the whole request ----

  /** The effects from `k` on are those of the attempts up to the last one. */
  lemma EffectsUnfold(cfg: Config, world: nat -> Attempt, k: nat, w: Effect -> int)
    ensures var v := AttemptVerdict(cfg, k, world(k));
      Total(Effects(cfg, world, k), w) ==
        Total(v.effects, w) + (if v.again then Total(Effects(cfg, world, k + 1), w) else 0)
  {
    hide AttemptVerdict;
    var v := AttemptVerdict(cfg, k, world(k));
    TotalParts(v.effects, if v.again then Effects(cfg, world, k + 1) else [], w);
  }

  /** However the upstream behaves, a request takes at most max(MaxRetries, 1) + 1 attempts. */
  lemma {:induction false} AttemptsAreBounded(cfg: Config, world: nat -> Attempt, k: nat)
    requires k <= Retries(cfg)
    ensures Total(Effects(cfg, world, k), Attempts) <= Retries(cfg) + 1 - k
    decreases Retries(cfg) - k
  {
    hide AttemptVerdict, Total, Effects, TriesAgain, Leaves;
    EffectsUnfold(cfg, world, k, Attempts);
    AttemptSums(cfg, k, world(k));
    RetriesAreBounded(cfg, k, world(k));
    if AttemptVerdict(cfg, k, world(k)).again {
      AttemptsAreBounded(cfg, world, k + 1);
    }
  }

  /** With retries of server errors switched off, at most two responses are received for a request:
      only a block page met by the first attempt is followed by another response. */
  lemma {:induction false} TwoResponses(cfg: Config, world: nat -> Attempt, k: nat)
    requires !cfg.retryOn5xx && k <= Retries(cfg)
    ensures Total(Effects(cfg, world, k), Responses) <= if k == 0 then 2 else 1
    decreases Retries(cfg) - k
  {
    hide AttemptVerdict, Total, Effects, IsRetryable, IsWafBlock, IsExempt;
    EffectsUnfold(cfg, world, k, Responses);
    AttemptSums(cfg, k, world(k));
    RetriesAreBounded(cfg, k, world(k));
    if AttemptVerdict(cfg, k, world(k)).again {
      TwoResponses(cfg, world, k + 1);
    }
  }

  /** The delays of a request are those of the attempts that are followed by a backoff. */
  lemma {:induction false} BackoffIsBounded(cfg: Config, world: nat -> Attempt, k: nat)
    requires k <= Retries(cfg)
    requires cfg.retryDelayMs * CB.Pow2(Retries(cfg) - 1) * NS_PER_MS < CB.TWO_63
    ensures 0 <= Total(Effects(cfg, world, k), SleptNs)
      <= Delays(Retries(cfg), cfg.retryDelayMs) - Delays(k, cfg.retryDelayMs)
    decreases Retries(cfg) - k
  {
    EffectsUnfold(cfg, world, k, SleptNs);
    RetriesAreBounded(cfg, k, world(k));
    OneBackoff(cfg, k, world(k));
    hide AttemptVerdict, Total, Effects, RetryDelay, Delays, CB.Pow2;
    if AttemptVerdict(cfg, k, world(k)).again {
      BackoffIsBounded(cfg, world, k + 1);
    }
  }

  /** One attempt sleeps no longer than what its number adds to the delays. */
  lemma OneBackoff(cfg: Config, k: nat, a: Attempt)
    requires k <= Retries(cfg)
    requires cfg.retryDelayMs * CB.Pow2(Retries(cfg) - 1) * NS_PER_MS < CB.TWO_63
    ensures var slept := Total(AttemptVerdict(cfg, k, a).effects, SleptNs);
      && 0 <= slept <= Delays(Retries(cfg), cfg.retryDelayMs) - Delays(k, cfg.retryDelayMs)
      && (k < Retries(cfg) ==> slept <= Delays(k + 1, cfg.retryDelayMs) - Delays(k, cfg.retryDelayMs))
  {
    AttemptSums(cfg, k, a);
    SleepsAreBounded(cfg, k, a);
    DelaysGrow(cfg, k);
    if k < Retries(cfg) {
      DelaysGrow(cfg, k + 1);
    }
    hide AttemptVerdict, Total, TriesAgain, Leaves, RetryDelay, Sleeps, CB.Pow2;
  }

  lemma SleepsAreBounded(cfg: Config, k: nat, a: Attempt)
    ensures Sleeps(cfg, k, a) ==> k < Retries(cfg)
  {
  }

  lemma {:induction false} DelaysGrow(cfg: Config, k: nat)
    requires k <= Retries(cfg)
    requires cfg.retryDelayMs * CB.Pow2(Retries(cfg) - 1) * NS_PER_MS < CB.TWO_63
    ensures Delays(k, cfg.retryDelayMs) <= Delays(Retries(cfg), cfg.retryDelayMs)
    ensures k < Retries(cfg) ==> RetryDelay(k, cfg.retryDelayMs) >= 0
    decreases Retries(cfg) - k
  {
    if k < Retries(cfg) {
      CB.Pow2Monotone(k, Retries(cfg) - 1);
      Scaled(cfg.retryDelayMs, CB.Pow2(k), CB.Pow2(Retries(cfg) - 1));
      DelayDoubles(k, cfg.retryDelayMs);
      DelaysGrow(cfg, k + 1);
    }
  }

  lemma Scaled(b: nat, p: nat, q: nat)
    requires p <= q
    ensures 0 <= b * p * NS_PER_MS <= b * q * NS_PER_MS
  {
  }

  /** As long as the largest delay fits 64 bits, a request waits at most
      base * (2^max(MaxRetries, 1) - 1) milliseconds between its attempts. */
  lemma TotalBackoff(cfg: Config, world: nat -> Attempt)
    requires cfg.retryDelayMs * CB.Pow2(Retries(cfg) - 1) * NS_PER_MS < CB.TWO_63
    ensures 0 <= Total(Effects(cfg, world, 0), SleptNs) <= cfg.retryDelayMs * (CB.Pow2(Retries(cfg)) - 1) * NS_PER_MS
  {
    hide Total, Effects, RetryDelay;
    BackoffIsBounded(cfg, world, 0);
    DelaysAddUp(Retries(cfg), cfg.retryDelayMs);
  }

  /** A request either is abandoned by the client and then leaves nothing behind, or ends with exactly
      one response head and one recorded result. Its last attempt alone decides what the breaker
      learns: one failure if that attempt is a fault, one success if its status is below 400. */
  lemma {:induction false} OneAnswerOrNoTrace(cfg: Config, world: nat -> Attempt, k: nat)
    requires k <= Retries(cfg)
    ensures var log, n := Effects(cfg, world, k), Last(cfg, world, k); var a := world(n);
      && (Answers(cfg, n, a) || Leaves(cfg, n, a))
      && Total(log, Heads) == Total(log, Records) == If(!Leaves(cfg, n, a))
      && Total(log, BreakerFailures) == If(!Leaves(cfg, n, a) && Fault(n, a.answer))
      && Total(log, BreakerSuccesses) == If(!Leaves(cfg, n, a) && Healthy(a.answer))
      && (Leaves(cfg, n, a) ==> forall e | e in log :: Traceless(e))
    decreases Retries(cfg) - k
  {
    AttemptSums(cfg, k, world(k));
    RetriesAreBounded(cfg, k, world(k));
    EffectsUnfold(cfg, world, k, Heads);
    EffectsUnfold(cfg, world, k, Records);
    EffectsUnfold(cfg, world, k, BreakerFailures);
    EffectsUnfold(cfg, world, k, BreakerSuccesses);
    hide AttemptVerdict, Total, TriesAgain, Leaves, Fault, Healthy, RetryDelay;
    if AttemptVerdict(cfg, k, world(k)).again {
      OneAnswerOrNoTrace(cfg, world, k + 1);
    }
  }

  /** Every pump result of this upstream is one a run of the pump can deliver. */
  ghost predicate PumpIsSound(world: nat -> Attempt) {
    forall k | world(k).answer.Response? :: PS.PumpOutcome(world(k).answer.pumped)
  }

  lemma FinalRecords(cfg: Config, a: Attempt, e: Effect)
    requires a.answer.Response? && PS.PumpOutcome(a.answer.pumped) && e.Recorded?
    requires if a.answer.status != 200 then e in ForwardEffects(cfg, a)
      else e in StreamEffects(cfg, a, a.answer.pumped) || e in CopyEffects(cfg, a)
    ensures MS.HandlerArgs(e.args)
  {
    hide Digits;
    if a.answer.status != 200 {
      assert e.args.error != "";
    }
  }

  lemma WafRecords(cfg: Config, a: Attempt, e: Effect)
    requires a.answer.Response? && a.answer.status in {403, 405} && e.Recorded?
    requires e in WafVerdict(cfg, a).effects
    ensures MS.HandlerArgs(e.args)
  {
    hide RetryDelay, IsWafBlock, Digits;
  }

  lemma FailureRecords(cfg: Config, k: nat, a: Attempt, e: Effect)
    requires a.answer.Failure? && e.Recorded? && e in FailureVerdict(cfg, k, a).effects
    ensures MS.HandlerArgs(e.args)
  {
    hide RetryDelay, IsRetryable, TransportMessage;
  }

  lemma AttemptRecords(cfg: Config, k: nat, a: Attempt, e: Effect)
    requires a.answer.Response? ==> PS.PumpOutcome(a.answer.pumped)
    requires e in AttemptVerdict(cfg, k, a).effects && e.Recorded?
    ensures MS.HandlerArgs(e.args)
  {
    hide FailureVerdict, WafVerdict, ForwardEffects, StreamEffects, CopyEffects, RetryDelay, IsExempt, IsRetryable;
    if a.answer.Failure? {
      FailureRecords(cfg, k, a, e);
    } else if a.answer.status in {403, 405} && k == 0 {
      WafRecords(cfg, a, e);
    } else {
      FinalRecords(cfg, a, e);
    }
  }

  /** What the recorder is told is always consistent: a success, or a failure with no empty output. */
  lemma {:induction false} RecordedResultsAreConsistent(cfg: Config, world: nat -> Attempt, k: nat, e: Effect)
    requires PumpIsSound(world) && e in Effects(cfg, world, k) && e.Recorded?
    ensures MS.HandlerArgs(e.args)
    decreases Retries(cfg) - k
  {
    hide AttemptVerdict, PS.PumpOutcome;
    RetriesAreBounded(cfg, k, world(k));
    if e in AttemptVerdict(cfg, k, world(k)).effects {
      AttemptRecords(cfg, k, world(k), e);
    } else {
      RecordedResultsAreConsistent(cfg, world, k + 1, e);
    }
  }

  /** A final response other than 200 reaches the client with its status and body exactly if the body
      could be read or its status is one of those whose body is looked at first; of such a body that
      breaks off, what came is forwarded as if it were complete. All others become a 502. */
  lemma OtherStatusesAreForwarded(cfg: Config, k: nat, a: Attempt)
    requires a.answer.Response? && Answers(cfg, k, a) && a.answer.status != 200
    ensures var log, forwarded := AttemptVerdict(cfg, k, a).effects, !a.answer.cut || MayBeExempt(a.answer.status);
      && (Head(a.answer.status, Whole(a.answer.body)) in log <==> forwarded)
      && (!forwarded ==> Head(502, CutBody(k, a.answer.status)) in log)
  {
    ResponsesRetryByStatus(a.answer.status, cfg.retryOn5xx);
    if a.answer.status in {403, 405} && k == 0 {
      WafHead(cfg, a);
    } else {
      ForwardHead(cfg, a);
      hide ForwardEffects, Accounting, IsExempt, IsRetryable, RetryDelay;
      AccountingHasNoHead(a, a.answer.status, Exempted(a.answer));
    }
  }

  /** The error body a broken-off response is answered with. */
  function CutBody(k: nat, status: int): Payload {
    ErrorBody(if status in {403, 405} && k == 0 then "proxy_error" else "upstream_response_error")
  }

  lemma WafHead(cfg: Config, a: Attempt)
    requires a.answer.Response? && a.answer.status in {403, 405} && Answers(cfg, 0, a)
    ensures var log := AttemptVerdict(cfg, 0, a).effects;
      if a.answer.cut then
        Head(502, ErrorBody("proxy_error")) in log && Head(a.answer.status, Whole(a.answer.body)) !in log
      else Head(a.answer.status, Whole(a.answer.body)) in log
  {
    hide RetryDelay, IsWafBlock, StatusText;
    var log := WafVerdict(cfg, a).effects;
    if a.answer.cut {
      assert log[2] == Head(502, ErrorBody("proxy_error"));
    }
  }

  lemma ForwardHead(cfg: Config, a: Attempt)
    requires a.answer.Response?
    ensures var log := ForwardEffects(cfg, a);
      if a.answer.cut && !MayBeExempt(a.answer.status) then
        Head(502, ErrorBody("upstream_response_error")) in log && Head(a.answer.status, Whole(a.answer.body)) !in log
      else Head(a.answer.status, Whole(a.answer.body)) in log
  {
    hide StatusText;
    var log := ForwardEffects(cfg, a);
    assert log[|log| - 1] in log;
  }

  lemma AccountingHasNoHead(a: Attempt, status: int, exempt: bool)
    ensures forall e | e in Accounting(a, status, exempt) :: !e.Head?
  {
  }

  /** But for streams, whose head is out before their end is known, the status recorded is the status
      the client was answered with. */
  lemma RecordMatchesHead(cfg: Config, k: nat, a: Attempt, e: Effect, f: Effect)
    requires e in AttemptVerdict(cfg, k, a).effects && e.Recorded?
    requires f in AttemptVerdict(cfg, k, a).effects && f.Head?
    ensures f.payload == Pumped || f.status == e.args.status
    ensures f.payload == Pumped ==> f.status == 200 && e.args.status == a.answer.pumped.status
  {
    hide FailureVerdict, WafVerdict, ForwardEffects, StreamEffects, CopyEffects, RetryDelay, IsExempt, IsRetryable;
    if a.answer.Failure? {
      FailureStatuses(cfg, k, a, e, f);
    } else if a.answer.status in {403, 405} && k == 0 {
      WafStatuses(cfg, a, e, f);
    } else {
      DeliveryStatuses(cfg, a, e, f);
    }
  }

  lemma FailureStatuses(cfg: Config, k: nat, a: Attempt, e: Effect, f: Effect)
    requires a.answer.Failure? && e.Recorded? && f.Head?
    requires e in FailureVerdict(cfg, k, a).effects && f in FailureVerdict(cfg, k, a).effects
    ensures f.payload != Pumped && f.status == e.args.status
  {
    hide RetryDelay, IsRetryable, TransportMessage;
  }

  lemma WafStatuses(cfg: Config, a: Attempt, e: Effect, f: Effect)
    requires a.answer.Response? && e.Recorded? && f.Head?
    requires e in WafVerdict(cfg, a).effects && f in WafVerdict(cfg, a).effects
    ensures f.payload != Pumped && f.status == e.args.status
  {
    hide RetryDelay, IsWafBlock, StatusText;
  }

  lemma DeliveryStatuses(cfg: Config, a: Attempt, e: Effect, f: Effect)
    requires a.answer.Response? && e.Recorded? && f.Head?
    requires e in DeliveryEffects(cfg, a) && f in DeliveryEffects(cfg, a)
    ensures f.payload == Pumped || f.status == e.args.status
    ensures f.payload == Pumped ==> f.status == 200 && e.args.status == a.answer.pumped.status
  {
    hide StatusText;
  }

  /** Which final attempts lock a model for a failure: a transport error, and a response of 500 or more
      that is not exempt. A first 403 or 405 whose body breaks off counts against the breaker only. */
  lemma HealthLearnsOfFaults(cfg: Config, k: nat, a: Attempt)
    requires Answers(cfg, k, a)
    ensures var log := AttemptVerdict(cfg, k, a).effects;
      && ((exists e | e in log :: e.MarkedFailed?) <==>
            a.answer.Failure? || (a.answer.status >= 500 && !Exempted(a.answer)))
      && ((exists e | e in log :: e.MarkedExhausted?) <==> a.answer.Response? && a.answer.status == 429)
  {
    var log := AttemptVerdict(cfg, k, a).effects;
    if a.answer.Failure? {
      FailureMarks(cfg, k, a);
    } else {
      ResponsesRetryByStatus(a.answer.status, cfg.retryOn5xx);
      hide ForwardEffects, StreamEffects, CopyEffects, WafVerdict, IsRetryable, IsExempt, IsWafBlock, RetryDelay;
      OtherEffectsMarkNothing(cfg, a);
      if a.answer.status == 429 {
        assert MarkedExhausted(a.clock(1)) in log;
      } else if a.answer.status >= 500 && !Exempted(a.answer) {
        assert MarkedFailed(a.answer.status, a.clock(1)) in log;
      }
    }
  }

  lemma FailureMarks(cfg: Config, k: nat, a: Attempt)
    requires a.answer.Failure? && Answers(cfg, k, a)
    ensures MarkedFailed(503, a.clock(1)) in AttemptVerdict(cfg, k, a).effects
    ensures forall e | e in AttemptVerdict(cfg, k, a).effects :: !e.MarkedExhausted?
  {
    hide RetryDelay, IsRetryable, TransportMessage;
    var log := AttemptVerdict(cfg, k, a).effects;
    assert log[2] == MarkedFailed(503, a.clock(1));
  }

  predicate NoLock(e: Effect) { !e.MarkedFailed? && !e.MarkedExhausted? }

  lemma OtherEffectsMarkNothing(cfg: Config, a: Attempt)
    requires a.answer.Response?
    ensures forall e | e in DeliveryEffects(cfg, a) :: NoLock(e)
    ensures forall e | e in WafVerdict(cfg, a).effects :: NoLock(e)
  {
    hide StatusText, RetryDelay, IsWafBlock;
  }
}
