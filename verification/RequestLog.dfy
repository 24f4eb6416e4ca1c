/** The retry loop as the list of effects one request has on the upstream, the breaker, the health
    tracker, the recorder and the client, and what holds of that list whatever the upstream does. */
module RequestEffects {
  import opened ByteStrings
  import opened RetryRules
  import MS = ModelStatistics
  import PM = PumpModel

  datatype Config = Config(
    maxRetries: nat, retryDelayMs: nat, retryOn5xx: bool, slowMs: int, wantsStream: bool, lacksText: Bytes -> bool)

  /** What the upstream answers: its status, the body up to its end or to where the read failed, and
      for a streamed body what the pump returns for it. */
  datatype Answer =
    | Failure(error: TransportError, timedOut: bool)
    | Response(status: int, body: Bytes, cut: bool, eventStream: bool, pumped: PM.Result)

  /** One attempt: whether the client is found gone before it, when it fails, or during the backoff
      behind it; the upstream's answer; the duration measured; the clock as it is read. */
  datatype Attempt = Attempt(
    goneBefore: bool, goneAtError: bool, goneInBackoff: bool, answer: Answer, durationMs: nat, clock: nat -> int)

  datatype Payload = ErrorBody(code: Bytes) | Whole(body: Bytes) | Pumped | Copied

  datatype Effect =
    | Received(status: int)
    | Failed
    | Warmed
    | Slept(ns: int)
    | BreakerFailed(now: int)
    | BreakerSucceeded
    | MarkedFailed(status: int, now: int)
    | MarkedExhausted(now: int)
    | MarkedDegraded(now: int)
    | Recorded(args: MS.ResultArgs)
    | Head(status: int, payload: Payload)

  /** The effects of one attempt, and whether another one follows. */
  datatype Verdict = Verdict(effects: seq<Effect>, again: bool)

  function Digits(n: nat): Bytes {
    if n < 10 then ["0123456789"[n]] else Digits(n / 10) + ["0123456789"[n % 10]]
  }

  function StatusText(status: int): Bytes {
    "http_" + if status < 0 then "-" + Digits(-status) else Digits(status)
  }

  /** `ResponseHasEmptyOutput`, with what the JSON of the body says as a parameter. */
  predicate EmptyOutput(cfg: Config, status: int, body: Bytes) {
    status == 200 && body != "" && cfg.lacksText(body)
  }

  function Degraded(a: Attempt, empty: bool): seq<Effect> {
    if empty then [MarkedDegraded(a.clock(2))] else []
  }

  function PlainArgs(status: int, ms: int, error: Bytes, empty: bool): MS.ResultArgs {
    MS.ResultArgs(status, ms, 0, error, empty, false)
  }

  // ---- the five ways an attempt ends ----

  function FailureVerdict(cfg: Config, k: nat, a: Attempt): Verdict
    requires a.answer.Failure?
  {
    var message := if a.answer.timedOut then "timeout" else TransportMessage(a.answer.error);
    if a.goneAtError then Verdict([Failed], false)
    else if k < cfg.maxRetries && IsRetryable(0, message, cfg.retryOn5xx) then
      Verdict([Failed, Slept(RetryDelay(k, cfg.retryDelayMs))], !a.goneInBackoff)
    else
      var (status, code) := if a.answer.timedOut then (504, "timeout") else (502, "proxy_error");
      Verdict([Failed, BreakerFailed(a.clock(0)), MarkedFailed(503, a.clock(1)),
               Recorded(PlainArgs(status, 0, message, false)), Head(status, ErrorBody(code))], false)
  }

  function WafVerdict(cfg: Config, a: Attempt): Verdict
    requires a.answer.Response?
  {
    var Response(status, body, cut, _, _) := a.answer;
    if cut then
      Verdict([BreakerFailed(a.clock(0)), Recorded(PlainArgs(502, 0, "upstream_response_error", false)),
               Head(502, ErrorBody("proxy_error"))], false)
    else
      var empty := EmptyOutput(cfg, status, body);
      if IsWafBlock(status, body) then
        Verdict(Degraded(a, empty) + [Warmed, Slept(RetryDelay(0, cfg.retryDelayMs))], !a.goneInBackoff)
      else
        Verdict(Degraded(a, empty)
          + [Recorded(PlainArgs(status, a.durationMs, StatusText(status), empty)), Head(status, Whole(body))], false)
  }

  /** What the health tracker and the breaker learn from a final response. */
  function Accounting(a: Attempt, status: int, exempt: bool): seq<Effect> {
    (if status == 429 then [MarkedExhausted(a.clock(1))] else [])
    + (if status >= 500 && !exempt then [MarkedFailed(status, a.clock(1)), BreakerFailed(a.clock(0))]
       else if status < 400 then [BreakerSucceeded] else [])
  }

  /** A final response with a status other than 200. A body that was already looked at is forwarded
      as far as it came; one that breaks off only now becomes a 502. */
  function ForwardEffects(cfg: Config, a: Attempt): seq<Effect>
    requires a.answer.Response?
  {
    var Response(status, body, cut, _, _) := a.answer;
    if cut && !MayBeExempt(status) then
      [Recorded(PlainArgs(502, 0, "upstream_response_error", false)), Head(502, ErrorBody("upstream_response_error"))]
    else
      var empty := EmptyOutput(cfg, status, body);
      Degraded(a, empty)
      + [Recorded(PlainArgs(status, a.durationMs, StatusText(status), empty)), Head(status, Whole(body))]
  }

  function StreamEffects(cfg: Config, a: Attempt, r: PM.Result): seq<Effect> {
    [Head(200, Pumped),
     Recorded(MS.ResultArgs(r.status, a.durationMs, r.chunks, r.error, r.empty, false))]
    + (if r.error in {"sse_idle_timeout", "upstream_ended_mid_frame"} then [MarkedDegraded(a.clock(1))] else [])
    + Degraded(a, r.empty)
    + (if r.status == 200 && a.durationMs >= cfg.slowMs then [MarkedDegraded(a.clock(3))] else [])
  }

  function CopyEffects(cfg: Config, a: Attempt): seq<Effect> {
    [Head(200, Copied), Recorded(PlainArgs(200, a.durationMs, "", false))]
    + (if a.durationMs >= cfg.slowMs then [MarkedDegraded(a.clock(3))] else [])
  }

  /** A final response on its way to the client. */
  function DeliveryEffects(cfg: Config, a: Attempt): seq<Effect>
    requires a.answer.Response?
  {
    if a.answer.status != 200 then ForwardEffects(cfg, a)
    else if a.answer.eventStream || cfg.wantsStream then StreamEffects(cfg, a, a.answer.pumped)
    else CopyEffects(cfg, a)
  }

  predicate Exempted(answer: Answer)
    requires answer.Response?
  {
    !answer.cut && IsExempt(answer.status, answer.body)
  }

  function ResponseVerdict(cfg: Config, k: nat, a: Attempt): Verdict
    requires a.answer.Response?
  {
    var status := a.answer.status;
    if !Exempted(a.answer) && IsRetryable(status, "", cfg.retryOn5xx) && k < cfg.maxRetries then
      Verdict([Slept(RetryDelay(k, cfg.retryDelayMs))], !a.goneInBackoff)
    else
      Verdict(Accounting(a, status, Exempted(a.answer)) + DeliveryEffects(cfg, a), false)
  }

  function Answered(cfg: Config, k: nat, a: Attempt): Verdict
    requires a.answer.Response?
  {
    var v := if a.answer.status in {403, 405} && k == 0 then WafVerdict(cfg, a) else ResponseVerdict(cfg, k, a);
    v.(effects := [Received(a.answer.status)] + v.effects)
  }

  function AttemptVerdict(cfg: Config, k: nat, a: Attempt): Verdict {
    if a.goneBefore then Verdict([], false)
    else if a.answer.Failure? then FailureVerdict(cfg, k, a)
    else Answered(cfg, k, a)
  }

  // ---- the whole request ----

  /** The number of attempts that may be followed by another one. */
  function Retries(cfg: Config): nat { if cfg.maxRetries > 1 then cfg.maxRetries else 1 }

  lemma RetriesAreBounded(cfg: Config, k: nat, a: Attempt)
    ensures AttemptVerdict(cfg, k, a).again ==> k < Retries(cfg)
  {
  }

  /** All effects from attempt `k` on, for an upstream and a client that behave as `world` says. */
  function Effects(cfg: Config, world: nat -> Attempt, k: nat): seq<Effect>
    decreases Retries(cfg) - k
  {
    RetriesAreBounded(cfg, k, world(k));
    var v := AttemptVerdict(cfg, k, world(k));
    v.effects + if v.again then Effects(cfg, world, k + 1) else []
  }

  /** The last attempt. */
  function Last(cfg: Config, world: nat -> Attempt, k: nat): (n: nat)
    ensures k <= n && (k <= Retries(cfg) ==> n <= Retries(cfg))
    decreases Retries(cfg) - k
  {
    RetriesAreBounded(cfg, k, world(k));
    if AttemptVerdict(cfg, k, world(k)).again then Last(cfg, world, k + 1) else k
  }

  // ---- totals ----

  /** The sum of `w` over the effects. */
  function Total(log: seq<Effect>, w: Effect -> int): int {
    if log == [] then 0 else w(log[0]) + Total(log[1..], w)
  }

  function If(b: bool): int { if b then 1 else 0 }

  function Attempts(e: Effect): int { If(e.Received? || e.Failed?) }

  function Responses(e: Effect): int { If(e.Received?) }

  function Heads(e: Effect): int { If(e.Head?) }

  function Records(e: Effect): int { If(e.Recorded?) }

  function BreakerFailures(e: Effect): int { If(e.BreakerFailed?) }

  function BreakerSuccesses(e: Effect): int { If(e.BreakerSucceeded?) }

  function HealthMarks(e: Effect): int { If(e.MarkedFailed? || e.MarkedExhausted? || e.MarkedDegraded?) }

  function SleptNs(e: Effect): int { if e.Slept? then e.ns else 0 }

  /** Effects that leave nothing behind: no accounting, no mark, no record, no answer. */
  predicate Traceless(e: Effect) { e.Received? || e.Failed? || e.Warmed? || e.Slept? }

  lemma {:induction false} TotalParts(a: seq<Effect>, b: seq<Effect>, w: Effect -> int)
    ensures Total(a + b, w) == Total(a, w) + Total(b, w)
    decreases |a|
  {
    if a == [] {
      assert a + b == b;
    } else {
      assert (a + b)[1..] == a[1..] + b;
      TotalParts(a[1..], b, w);
    }
  }

  lemma TotalTwo(e: Effect, f: Effect, w: Effect -> int)
    ensures Total([e], w) == w(e)
    ensures Total([e, f], w) == w(e) + w(f)
  {
    assert [e][1..] == [] && [e, f][1..] == [f] && [f][1..] == [];
  }

  lemma TotalFive(e: Effect, f: Effect, g: Effect, h: Effect, i: Effect, w: Effect -> int)
    ensures Total([e, f, g], w) == w(e) + w(f) + w(g)
    ensures Total([e, f, g, h, i], w) == w(e) + w(f) + w(g) + w(h) + w(i)
  {
    TotalTwo(f, g, w);
    TotalTwo(h, i, w);
    assert [e, f, g][1..] == [f, g];
    assert [e, f, g, h, i] == [e, f, g] + [h, i];
    TotalParts([e, f, g], [h, i], w);
  }
}
