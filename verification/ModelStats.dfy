/** Per-model request statistics: the recorder against the history of starts and results, and what
    holds of its counters for every interleaving of requests that the handler can produce. */
module ModelStatistics {

  const UNKNOWN := "unknown"

  datatype ResultArgs = ResultArgs(
    status: int, durationMs: int, chunks: int, error: string, empty: bool, wafBlock: bool)

  datatype Stats = Stats(
    requests: nat, successes: nat, failures: nat, emptyOutputs: nat, slowResponses: nat, wafBlocks: nat,
    rateLimits: nat, upstreamErrors: nat, totalMs: int, maxMs: int, totalChunks: int, lastStatus: int,
    lastError: string)

  const NO_STATS := Stats(0, 0, 0, 0, 0, 0, 0, 0, 0, 0, 0, 0, "")

  function OrUnknown(id: string): string { if id == "" then UNKNOWN else id }

  /** Go's integer division, toward zero. */
  function Quotient(a: int, b: int): int
    requires b > 0
  {
    if a >= 0 then a / b else -(-a / b)
  }

  /** Division rounded half up. */
  function RoundDiv(total: int, count: int): int {
    if count <= 0 then 0 else Quotient(total + count / 2, count)
  }

  /** Rounding errs by at most half a unit. */
  lemma RoundDivWithinHalf(total: int, count: int)
    requires total >= 0 && count > 0
    ensures 2 * total - count <= 2 * (RoundDiv(total, count) * count) <= 2 * total + count
  {
    var t := total + count / 2;
    assert t == t / count * count + t % count;
  }

  predicate IsSuccess(a: ResultArgs) { 200 <= a.status < 300 && a.error == "" }

  predicate IsFailure(a: ResultArgs) { a.error != "" || a.status >= 400 || a.empty }

  predicate IsEmpty(a: ResultArgs) { a.empty }

  predicate IsWaf(a: ResultArgs) { a.wafBlock }

  predicate IsRateLimit(a: ResultArgs) { a.status == 429 }

  predicate IsUpstreamError(a: ResultArgs) { a.status >= 500 }

  // ---- histories ----

  datatype Event = Started(id: string) | Finished(id: string, args: ResultArgs)

  function Requests(h: seq<Event>, id: string): nat {
    if h == [] then 0
    else Requests(h[..|h| - 1], id) + if h[|h| - 1] == Started(id) then 1 else 0
  }

  /** The results of `id`, in order. */
  function Results(h: seq<Event>, id: string): seq<ResultArgs> {
    if h == [] then []
    else
      var e := h[|h| - 1];
      Results(h[..|h| - 1], id) + if e.Finished? && e.id == id then [e.args] else []
  }

  function CountIf(xs: seq<ResultArgs>, p: ResultArgs -> bool): nat {
    if xs == [] then 0 else CountIf(xs[..|xs| - 1], p) + if p(xs[|xs| - 1]) then 1 else 0
  }

  function SlowCount(xs: seq<ResultArgs>, slowMs: int): nat {
    if xs == [] then 0
    else SlowCount(xs[..|xs| - 1], slowMs) + if xs[|xs| - 1].durationMs >= slowMs then 1 else 0
  }

  function TotalMs(xs: seq<ResultArgs>): int {
    if xs == [] then 0 else TotalMs(xs[..|xs| - 1]) + xs[|xs| - 1].durationMs
  }

  function TotalChunks(xs: seq<ResultArgs>): int {
    if xs == [] then 0 else TotalChunks(xs[..|xs| - 1]) + xs[|xs| - 1].chunks
  }

  function MaxMs(xs: seq<ResultArgs>): int {
    if xs == [] then 0
    else
      var m, d := MaxMs(xs[..|xs| - 1]), xs[|xs| - 1].durationMs;
      if d > m then d else m
  }

  /** What the counters of a model should be, counter by counter. */
  function Tally(n: nat, xs: seq<ResultArgs>, slowMs: int): Stats {
    Stats(n,
      CountIf(xs, IsSuccess), CountIf(xs, IsFailure), CountIf(xs, IsEmpty), SlowCount(xs, slowMs),
      CountIf(xs, IsWaf), CountIf(xs, IsRateLimit), CountIf(xs, IsUpstreamError),
      TotalMs(xs), MaxMs(xs), TotalChunks(xs),
      if xs == [] || xs[|xs| - 1].status <= 0 then 0 else xs[|xs| - 1].status,
      if xs == [] then "" else xs[|xs| - 1].error)
  }

  function TallyOf(h: seq<Event>, id: string, slowMs: int): Stats {
    Tally(Requests(h, id), Results(h, id), slowMs)
  }

  /** One more result, as the recorder accounts for it. */
  function Accounted(s: Stats, a: ResultArgs, slowMs: int): Stats {
    s.(lastStatus := if a.status > 0 then a.status else 0,
       lastError := a.error,
       totalMs := s.totalMs + a.durationMs,
       maxMs := if a.durationMs > s.maxMs then a.durationMs else s.maxMs,
       totalChunks := s.totalChunks + a.chunks,
       successes := s.successes + if IsSuccess(a) then 1 else 0,
       failures := s.failures + if IsFailure(a) then 1 else 0,
       emptyOutputs := s.emptyOutputs + if a.empty then 1 else 0,
       wafBlocks := s.wafBlocks + if a.wafBlock then 1 else 0,
       rateLimits := s.rateLimits + if a.status == 429 then 1 else 0,
       upstreamErrors := s.upstreamErrors + if a.status >= 500 then 1 else 0,
       slowResponses := s.slowResponses + if a.durationMs >= slowMs then 1 else 0)
  }

  lemma TallyAppend(n: nat, xs: seq<ResultArgs>, a: ResultArgs, slowMs: int)
    ensures Tally(n, xs + [a], slowMs) == Accounted(Tally(n, xs, slowMs), a, slowMs)
  {
    assert (xs + [a])[..|xs|] == xs;
  }

  /** Each model that was ever mentioned has exactly the counters its history calls for. */
  ghost predicate Ties(h: seq<Event>, stats: map<string, Stats>, slowMs: int) {
    && (forall id | id in stats :: stats[id] == TallyOf(h, id, slowMs))
    && (forall id | id !in stats :: Requests(h, id) == 0 && Results(h, id) == [])
  }

  /** An event touches the counters of its own model only. */
  lemma EventAppend(h: seq<Event>, e: Event, id: string)
    ensures Requests(h + [e], id) == Requests(h, id) + if e == Started(id) then 1 else 0
    ensures Results(h + [e], id) == Results(h, id) + if e.Finished? && e.id == id then [e.args] else []
  {
    assert (h + [e])[..|h|] == h;
  }

  function Known(stats: map<string, Stats>, id: string): Stats { if id in stats then stats[id] else NO_STATS }

  lemma OthersTie(h: seq<Event>, stats: map<string, Stats>, slowMs: int, e: Event)
    requires Ties(h, stats, slowMs)
    ensures forall id | id in stats && id != e.id :: stats[id] == TallyOf(h + [e], id, slowMs)
    ensures forall id | id !in stats && id != e.id :: Requests(h + [e], id) == 0 && Results(h + [e], id) == []
    ensures Known(stats, e.id) == TallyOf(h, e.id, slowMs)
  {
    forall id | id != e.id
      ensures Requests(h + [e], id) == Requests(h, id) && Results(h + [e], id) == Results(h, id)
    {
      EventAppend(h, e, id);
      assert Results(h, id) + [] == Results(h, id);
    }
    hide Requests, Results;
  }

  lemma StartTies(h: seq<Event>, stats: map<string, Stats>, slowMs: int, id: string)
    requires Ties(h, stats, slowMs)
    ensures var s := Known(stats, id);
      Ties(h + [Started(id)], stats[id := s.(requests := s.requests + 1)], slowMs)
  {
    OthersTie(h, stats, slowMs, Started(id));
    EventAppend(h, Started(id), id);
    assert Results(h, id) + [] == Results(h, id);
    hide Requests, Results, Known, CountIf, TotalMs, MaxMs, TotalChunks, SlowCount;
  }

  lemma TallyOfResult(h: seq<Event>, id: string, args: ResultArgs, slowMs: int)
    ensures TallyOf(h + [Finished(id, args)], id, slowMs) == Accounted(TallyOf(h, id, slowMs), args, slowMs)
  {
    EventAppend(h, Finished(id, args), id);
    hide Requests, Results;
    TallyAppend(Requests(h, id), Results(h, id), args, slowMs);
    hide Tally, Accounted;
  }

  lemma ResultTies(h: seq<Event>, stats: map<string, Stats>, slowMs: int, id: string, args: ResultArgs)
    requires Ties(h, stats, slowMs)
    ensures Ties(h + [Finished(id, args)], stats[id := Accounted(Known(stats, id), args, slowMs)], slowMs)
  {
    OthersTie(h, stats, slowMs, Finished(id, args));
    TallyOfResult(h, id, args, slowMs);
    hide Requests, Results, Known, Accounted, TallyOf;
  }

  // ---- the recorder ----

  class Recorder {
    var stats: map<string, Stats>
    const slowResponseMs: int
    ghost var history: seq<Event>

    ghost predicate Valid()
      reads this
    {
      Ties(history, stats, slowResponseMs)
    }

    constructor (slowMs: int)
      ensures Valid() && history == [] && slowResponseMs == slowMs
    {
      slowResponseMs := slowMs;
      stats, history := map[], [];
    }

    method Start(modelID: string)
      requires Valid()
      modifies this
      ensures Valid() && history == old(history) + [Started(OrUnknown(modelID))]
    {
      hide Ties;
      var id := OrUnknown(modelID);
      StartTies(history, stats, slowResponseMs, id);
      var s := if id in stats then stats[id] else NO_STATS;
      stats := stats[id := s.(requests := s.requests + 1)];
      history := history + [Started(id)];
    }

    method Result(modelID: string, args: ResultArgs)
      requires Valid()
      modifies this
      ensures Valid() && history == old(history) + [Finished(OrUnknown(modelID), args)]
    {
      hide Ties;
      var id := OrUnknown(modelID);
      ResultTies(history, stats, slowResponseMs, id, args);
      var s := if id in stats then stats[id] else NO_STATS;
      var totalMs, maxMs, totalChunks := s.totalMs + args.durationMs, s.maxMs, s.totalChunks + args.chunks;
      if args.durationMs > maxMs {
        maxMs := args.durationMs;
      }
      var successes, failures, emptyOutputs, wafBlocks := s.successes, s.failures, s.emptyOutputs, s.wafBlocks;
      if 200 <= args.status < 300 && args.error == "" {
        successes := successes + 1;
      }
      if args.error != "" || args.status >= 400 || args.empty {
        failures := failures + 1;
      }
      if args.empty {
        emptyOutputs := emptyOutputs + 1;
      }
      if args.wafBlock {
        wafBlocks := wafBlocks + 1;
      }
      var rateLimits, upstreamErrors, slowResponses := s.rateLimits, s.upstreamErrors, s.slowResponses;
      if args.status == 429 {
        rateLimits := rateLimits + 1;
      }
      if args.status >= 500 {
        upstreamErrors := upstreamErrors + 1;
      }
      if args.durationMs >= slowResponseMs {
        slowResponses := slowResponses + 1;
      }
      s := Stats(s.requests, successes, failures, emptyOutputs, slowResponses, wafBlocks, rateLimits, upstreamErrors,
        totalMs, maxMs, totalChunks, if args.status > 0 then args.status else 0, args.error);
      stats := stats[id := s];
      history := history + [Finished(id, args)];
    }

    /** The averages of a snapshot. */
    method Averages(id: string) returns (avgMs: int, avgChunks: int)
      requires Valid() && id in stats
      ensures avgMs == RoundDiv(TallyOf(history, id, slowResponseMs).totalMs, Requests(history, id))
      ensures avgChunks == RoundDiv(TallyOf(history, id, slowResponseMs).totalChunks, Requests(history, id))
    {
      var s := stats[id];
      avgMs, avgChunks := 0, 0;
      if s.requests > 0 {
        avgMs, avgChunks := RoundDiv(s.totalMs, s.requests), RoundDiv(s.totalChunks, s.requests);
      }
    }
  }

  // ---- every interleaving of requests ----

  /** What the handler passes to `Result`: an outcome without success is a failure with no empty
      output, and a duration is not negative. */
  predicate HandlerArgs(a: ResultArgs) {
    a.durationMs >= 0 && (IsSuccess(a) || ((a.error != "" || a.status >= 400) && !a.empty))
  }

  /** Steps of concurrently served requests: one begins, ends with its result, or ends silently. A
      request that names no model is not counted as started. */
  datatype Step = Begin(model: string) | End(model: string, args: ResultArgs) | Vanish(model: string)

  datatype Serving = Serving(inFlight: multiset<string>, history: seq<Event>)

  predicate CanStep(s: Serving, x: Step) {
    (x.Begin? || x.model in s.inFlight) && (x.End? ==> HandlerArgs(x.args))
  }

  function After(s: Serving, x: Step): Serving
    requires CanStep(s, x)
  {
    match x
    case Begin(m) => Serving(s.inFlight + multiset{m}, s.history + if m == "" then [] else [Started(m)])
    case End(m, a) => Serving(s.inFlight - multiset{m}, s.history + [Finished(OrUnknown(m), a)])
    case Vanish(m) => Serving(s.inFlight - multiset{m}, s.history)
  }

  /** The state after `steps`, if each was possible in its turn. */
  datatype Served = Impossible | Reached(s: Serving)

  function ServeFrom(s: Serving, steps: seq<Step>): Served {
    if steps == [] then Reached(s)
    else
      match ServeFrom(s, steps[..|steps| - 1])
      case Impossible => Impossible
      case Reached(t) =>
        if CanStep(t, steps[|steps| - 1]) then Reached(After(t, steps[|steps| - 1])) else Impossible
  }

  function Serve(steps: seq<Step>): Served { ServeFrom(Serving(multiset{}, []), steps) }

  /** `s` with one more request in flight, begun behind the history `h`. */
  function Joined(s: Serving, model: string, h: seq<Event>): Serving
    requires h <= s.history
  {
    Serving(s.inFlight + multiset{model}, h + Begun(model) + s.history[|h|..])
  }

  function Begun(model: string): seq<Event> { if model == "" then [] else [Started(model)] }

  lemma JoinedStep(s: Serving, model: string, h: seq<Event>, x: Step)
    requires h <= s.history && CanStep(s, x)
    ensures h <= After(s, x).history && CanStep(Joined(s, model, h), x)
    ensures After(Joined(s, model, h), x) == Joined(After(s, x), model, h)
  {
    var more := After(s, x).history[|s.history|..];
    assert After(s, x).history == s.history + more;
    assert After(s, x).history[|h|..] == s.history[|h|..] + more;
    assert h + Begun(model) + s.history[|h|..] + more == h + Begun(model) + (s.history[|h|..] + more);
    if !x.Begin? {
      assert s.inFlight - multiset{x.model} + multiset{model} == s.inFlight + multiset{model} - multiset{x.model};
    }
  }

  /** The steps of other requests are possible and do the same while one more request is in flight. */
  lemma {:induction false} OthersGoOn(s: Serving, model: string, steps: seq<Step>)
    requires ServeFrom(s, steps).Reached?
    ensures s.history <= ServeFrom(s, steps).s.history
    ensures ServeFrom(Joined(s, model, s.history), steps) == Reached(Joined(ServeFrom(s, steps).s, model, s.history))
    decreases |steps|
  {
    if steps != [] {
      var n := |steps| - 1;
      OthersGoOn(s, model, steps[..n]);
      JoinedStep(ServeFrom(s, steps[..n]).s, model, s.history, steps[n]);
      hide Joined, After, CanStep;
    }
  }

  lemma ServedStep(s: Serving, x: Step, id: string)
    requires CanStep(s, x) && id != UNKNOWN && id != ""
    requires |Results(s.history, id)| + s.inFlight[id] <= Requests(s.history, id)
    requires forall a | a in Results(s.history, id) :: HandlerArgs(a)
    ensures var t := After(s, x);
      && |Results(t.history, id)| + t.inFlight[id] <= Requests(t.history, id)
      && forall a | a in Results(t.history, id) :: HandlerArgs(a)
  {
    hide HandlerArgs;
    var t := After(s, x);
    if x.End? {
      EventAppend(s.history, Finished(OrUnknown(x.model), x.args), id);
    } else if x.Begin? && x.model != "" {
      EventAppend(s.history, Started(x.model), id);
    } else {
      assert t.history == s.history;
    }
    hide Requests, Results;
  }

  lemma {:induction false} ServedCounts(steps: seq<Step>, id: string)
    requires Serve(steps).Reached? && id != UNKNOWN && id != ""
    ensures var s := Serve(steps).s; |Results(s.history, id)| + s.inFlight[id] <= Requests(s.history, id)
    ensures forall a | a in Results(Serve(steps).s.history, id) :: HandlerArgs(a)
    decreases |steps|
  {
    if steps != [] {
      ServedCounts(steps[..|steps| - 1], id);
      var s, x := Serve(steps[..|steps| - 1]).s, steps[|steps| - 1];
      ServedStep(s, x, id);
    }
  }

  lemma {:induction false} OutcomesAddUp(xs: seq<ResultArgs>)
    requires forall a | a in xs :: HandlerArgs(a)
    ensures CountIf(xs, IsSuccess) + CountIf(xs, IsFailure) == |xs| + CountIf(xs, IsEmpty)
    decreases |xs|
  {
    if xs != [] {
      var n := |xs| - 1;
      assert xs[n] in xs && forall a | a in xs[..n] :: a in xs;
      OutcomesAddUp(xs[..n]);
    }
  }

  lemma Scaled(n: nat, m: int, k: int)
    requires m <= k
    ensures n * m + k <= (n + 1) * k
  {
  }

  lemma {:induction false} TotalBetweenMaxAndAllMax(xs: seq<ResultArgs>)
    requires forall a | a in xs :: HandlerArgs(a)
    ensures 0 <= MaxMs(xs) <= TotalMs(xs) <= |xs| * MaxMs(xs)
    decreases |xs|
  {
    if xs != [] {
      var n := |xs| - 1;
      assert xs[n] in xs && forall a | a in xs[..n] :: a in xs;
      TotalBetweenMaxAndAllMax(xs[..n]);
      var m, k := MaxMs(xs[..n]), MaxMs(xs);
      Scaled(n, m, k);
    }
  }

  /** For every interleaving of requests and every named model: no more results than requests,
      successes and failures add up to the results but for empty outputs counted as both, and the
      duration statistics are consistent. */
  lemma StatsAreConsistent(steps: seq<Step>, id: string, slowMs: int)
    requires Serve(steps).Reached? && id != UNKNOWN && id != ""
    ensures var h := Serve(steps).s.history; var s := TallyOf(h, id, slowMs);
      && |Results(h, id)| <= s.requests
      && s.successes + s.failures == |Results(h, id)| + s.emptyOutputs
      && 0 <= s.maxMs <= s.totalMs <= |Results(h, id)| * s.maxMs
      && RoundDiv(s.totalMs, s.requests) <= s.maxMs
      && (s.requests > 0 ==>
            2 * s.totalMs - s.requests <= 2 * (RoundDiv(s.totalMs, s.requests) * s.requests)
              <= 2 * s.totalMs + s.requests)
  {
    var h := Serve(steps).s.history;
    var xs, r := Results(h, id), Requests(h, id);
    ServedCounts(steps, id);
    OutcomesAddUp(xs);
    TotalBetweenMaxAndAllMax(xs);
    var total, m := TotalMs(xs), MaxMs(xs);
    if r > 0 {
      RoundDivWithinHalf(total, r);
      AverageBelowMax(total, r, |xs|, m);
    }
  }

  lemma AverageBelowMax(total: int, r: int, n: int, m: int)
    requires 0 <= n <= r && r > 0 && 0 <= total <= n * m && m >= 0
    ensures RoundDiv(total, r) <= m
  {
    MulMonotone2(n, r, m);
    QuotientBelow(total + r / 2, r, m);
  }

  lemma MulMonotone2(a: int, b: int, m: int)
    requires 0 <= a <= b && m >= 0
    ensures a * m <= b * m
  {
  }

  lemma QuotientBelow(x: int, r: int, m: int)
    requires r > 0 && x >= 0 && x < r * m + r
    ensures x / r <= m
  {
    var q := x / r;
    assert x == q * r + x % r;
    MulMonotone(m + 1, q, r);
    Distribute(m, r);
  }

  lemma Distribute(m: int, r: int)
    ensures (m + 1) * r == r * m + r
  {
  }

  lemma MulMonotone(a: int, b: int, r: int)
    requires r > 0
    ensures a <= b ==> a * r <= b * r
  {
  }
}
