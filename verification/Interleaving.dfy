/** Requests served at the same time. A request never reads what it shares with others, so any order in
    which the effects of several requests reach the shared objects is a run, and what they leave there
    is what each of them leaves. */
module RequestInterleaving {
  import opened RequestEffects
  import opened RequestResults

  /** An effect, and the number of the request it belongs to. */
  datatype Tagged = Tagged(id: nat, effect: Effect)

  /** The effects in the order in which they happened. */
  function Untagged(log: seq<Tagged>): seq<Effect> {
    if log == [] then [] else [log[0].effect] + Untagged(log[1..])
  }

  /** The effects of one request. */
  function Of(log: seq<Tagged>, id: nat): seq<Effect> {
    if log == [] then []
    else (if log[0].id == id then [log[0].effect] else []) + Of(log[1..], id)
  }

  /** Requests `0` to `n - 1`, each run to its end, their effects mixed in any order. */
  ghost predicate Interleaves(cfg: Config, worlds: nat -> nat -> Attempt, n: nat, log: seq<Tagged>) {
    && (forall x | x in log :: x.id < n)
    && (forall id | 0 <= id < n :: Of(log, id) == Effects(cfg, worlds(id), 0))
  }

  function SumOfTotals(log: seq<Tagged>, n: nat, w: Effect -> int): int {
    if n == 0 then 0 else SumOfTotals(log, n - 1, w) + Total(Of(log, n - 1), w)
  }

  lemma TotalCons(e: Effect, log: seq<Effect>, w: Effect -> int)
    ensures Total([e] + log, w) == w(e) + Total(log, w)
  {
    assert ([e] + log)[1..] == log;
  }

  lemma {:induction false} OneMoreEffect(log: seq<Tagged>, n: nat, w: Effect -> int)
    requires log != []
    ensures SumOfTotals(log, n, w) == SumOfTotals(log[1..], n, w) + if log[0].id < n then w(log[0].effect) else 0
  {
    if n > 0 {
      OneMoreEffect(log, n - 1, w);
      TotalCons(log[0].effect, Of(log[1..], n - 1), w);
      assert [] + Of(log[1..], n - 1) == Of(log[1..], n - 1);
      hide Total;
    }
  }

  lemma NoEffects(n: nat, w: Effect -> int)
    ensures SumOfTotals([], n, w) == 0
  {
  }

  /** All effects together weigh what the requests weigh one by one. */
  lemma {:induction false} TotalsAddUp(log: seq<Tagged>, n: nat, w: Effect -> int)
    requires forall x | x in log :: x.id < n
    ensures Total(Untagged(log), w) == SumOfTotals(log, n, w)
    decreases |log|
  {
    if log == [] {
      NoEffects(n, w);
    } else {
      assert log[0] in log && forall x | x in log[1..] :: x in log;
      TotalsAddUp(log[1..], n, w);
      OneMoreEffect(log, n, w);
      TotalCons(log[0].effect, Untagged(log[1..]), w);
      hide SumOfTotals, Total;
    }
  }

  /** How many of the first `n` requests end in a way that `p` picks. */
  function Ending(cfg: Config, worlds: nat -> nat -> Attempt, n: nat, p: (nat, Attempt) -> bool): nat {
    if n == 0 then 0
    else
      var k := Last(cfg, worlds(n - 1), 0);
      var a := worlds(n - 1)(k);
      Ending(cfg, worlds, n - 1, p) + if !Leaves(cfg, k, a) && p(k, a) then 1 else 0
  }

  predicate Always(k: nat, a: Attempt) { true }

  predicate InFault(k: nat, a: Attempt) { Fault(k, a.answer) }

  predicate InHealth(k: nat, a: Attempt) { Healthy(a.answer) }

  /** `w` weighs a request as one exactly if it ends in a way that `p` picks. */
  ghost predicate Counts(cfg: Config, world: nat -> Attempt, w: Effect -> int, p: (nat, Attempt) -> bool) {
    var k := Last(cfg, world, 0);
    Total(Effects(cfg, world, 0), w) == if !Leaves(cfg, k, world(k)) && p(k, world(k)) then 1 else 0
  }

  lemma EachCounts(cfg: Config, world: nat -> Attempt)
    ensures Counts(cfg, world, Heads, Always) && Counts(cfg, world, Records, Always)
    ensures Counts(cfg, world, BreakerFailures, InFault) && Counts(cfg, world, BreakerSuccesses, InHealth)
  {
    OneAnswerOrNoTrace(cfg, world, 0);
    hide Total, Effects, Last, Leaves, Fault, Healthy, Answers;
  }

  lemma {:induction false} SumOfEndings(
      cfg: Config, worlds: nat -> nat -> Attempt, log: seq<Tagged>, n: nat, w: Effect -> int, p: (nat, Attempt) -> bool)
    requires forall id | 0 <= id < n :: Of(log, id) == Effects(cfg, worlds(id), 0) && Counts(cfg, worlds(id), w, p)
    ensures SumOfTotals(log, n, w) == Ending(cfg, worlds, n, p)
  {
    hide Total, Effects, Last, Leaves, Of;
    if n > 0 {
      SumOfEndings(cfg, worlds, log, n - 1, w, p);
    }
  }

  /** However any number of requests overlap: the responses sent and the results recorded are as many
      as the requests whose client stayed, the breaker is told of as many failures as of those ended
      in a fault, and of as many successes as ended with a status below 400. */
  lemma OverlappingRequestsAddUp(cfg: Config, worlds: nat -> nat -> Attempt, n: nat, log: seq<Tagged>)
    requires Interleaves(cfg, worlds, n, log)
    ensures Total(Untagged(log), Heads) == Total(Untagged(log), Records) == Ending(cfg, worlds, n, Always)
    ensures Total(Untagged(log), BreakerFailures) == Ending(cfg, worlds, n, InFault)
    ensures Total(Untagged(log), BreakerSuccesses) == Ending(cfg, worlds, n, InHealth)
  {
    hide Total, Effects, Of, Untagged, Ending, Counts, SumOfTotals;
    forall id | 0 <= id < n
      ensures Counts(cfg, worlds(id), Heads, Always) && Counts(cfg, worlds(id), Records, Always)
      ensures Counts(cfg, worlds(id), BreakerFailures, InFault) && Counts(cfg, worlds(id), BreakerSuccesses, InHealth)
    {
      EachCounts(cfg, worlds(id));
    }
    SumOfEndings(cfg, worlds, log, n, Heads, Always);
    SumOfEndings(cfg, worlds, log, n, Records, Always);
    SumOfEndings(cfg, worlds, log, n, BreakerFailures, InFault);
    SumOfEndings(cfg, worlds, log, n, BreakerSuccesses, InHealth);
    TotalsAddUp(log, n, Heads);
    TotalsAddUp(log, n, Records);
    TotalsAddUp(log, n, BreakerFailures);
    TotalsAddUp(log, n, BreakerSuccesses);
  }
}
