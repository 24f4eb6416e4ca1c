/** Per-model failure locks: the two maps of the tracker against the history of marks and probe
    outcomes, in whatever order requests and the recovery probe interleave. */
module ModelHealth {

  const EXHAUST_LOCK_MS := 120_000
  const DEGRADE_LOCK_MS := 60_000
  const BACKOFF_MS: seq<int> := [30_000, 60_000, 120_000, 300_000, 600_000]

  function LadderIndex(count: int): (i: int)
    ensures count >= 1 ==> 0 <= i < |BACKOFF_MS|
  {
    if count - 1 >= |BACKOFF_MS| then |BACKOFF_MS| - 1 else count - 1
  }

  /** The cooldown of the `count`-th consecutive failure. */
  function Cooldown(count: int): int
    requires count >= 1
  {
    BACKOFF_MS[LadderIndex(count)]
  }

  /** Cooldowns never shrink as failures add up, and lie between 30 s and 600 s. */
  lemma CooldownGrows(a: int, b: int)
    requires 1 <= a <= b
    ensures 30_000 <= Cooldown(a) <= Cooldown(b) <= 600_000
    ensures Cooldown(b) == 600_000 <==> b >= 5
  {
  }

  // ---- histories ----

  datatype Event =
    | Failed(id: string, now: int)
    | Exhausted(id: string, now: int)
    | Degraded(id: string, now: int)
    | Extended(id: string, now: int)
    | Cleared(id: string)

  /** Failures and extensions of `id` since its lock was last cleared. */
  function Count(h: seq<Event>, id: string): nat {
    if h == [] then 0
    else
      var e, before := h[|h| - 1], h[..|h| - 1];
      if e.id != id then Count(before, id)
      else match e
        case Cleared(_) => 0
        case Failed(_, _) => Count(before, id) + 1
        case Extended(_, _) => Count(before, id) + 1
        case _ => Count(before, id)
  }

  /** The latest event of `id`, -1 if there is none. */
  function Latest(h: seq<Event>, id: string): (i: int)
    ensures -1 <= i < |h|
    ensures i >= 0 ==> h[i].id == id
    ensures forall j | i < j < |h| :: h[j].id != id
  {
    if h == [] then -1 else if h[|h| - 1].id == id then |h| - 1 else Latest(h[..|h| - 1], id)
  }

  predicate Locked(h: seq<Event>, id: string) {
    Latest(h, id) != -1 && !h[Latest(h, id)].Cleared?
  }

  /** When the lock of `id` ends: set by its latest event alone, which for a failure or an extension
      steps up the ladder. */
  function Until(h: seq<Event>, id: string): int
    requires Locked(h, id)
  {
    var i := Latest(h, id);
    var count := Count(h[..i + 1], id);
    if h[i].Exhausted? then h[i].now + EXHAUST_LOCK_MS
    else if h[i].Degraded? then h[i].now + DEGRADE_LOCK_MS
    else h[i].now + Cooldown(if count >= 1 then count else 1)
  }

  /** Number of events that count against `id`. */
  function Strikes(h: seq<Event>, id: string): nat {
    if h == [] then 0
    else
      var e := h[|h| - 1];
      Strikes(h[..|h| - 1], id) + if (e.Failed? || e.Extended?) && e.id == id then 1 else 0
  }

  /** The count is the number of failures and extensions behind the last clearing, wherever it was. */
  lemma {:induction false} CountSinceCleared(h: seq<Event>, t: seq<Event>, id: string)
    requires forall e | e in t :: e != Cleared(id)
    requires h == [] || h[|h| - 1] == Cleared(id)
    ensures Count(h + t, id) == Strikes(t, id)
    decreases |t|
  {
    if t == [] {
      assert h + t == h;
    } else {
      var n := |t| - 1;
      assert (h + t)[..|h + t| - 1] == h + t[..n];
      assert t[n] in t && forall e | e in t[..n] :: e in t;
      CountSinceCleared(h, t[..n], id);
    }
  }

  /** A model with a fail count is locked. */
  lemma {:induction false} CountedIsLocked(h: seq<Event>, id: string)
    ensures Count(h, id) > 0 ==> Locked(h, id)
    decreases |h|
  {
    if h != [] {
      CountedIsLocked(h[..|h| - 1], id);
    }
  }

  lemma LatestStrikeCounts(h: seq<Event>, id: string)
    requires Locked(h, id) && (h[Latest(h, id)].Failed? || h[Latest(h, id)].Extended?)
    ensures Count(h[..Latest(h, id) + 1], id) >= 1
  {
    var i := Latest(h, id);
    assert h[..i + 1][..i] == h[..i];
  }

  /** No lock ends more than 600 s, or less than 30 s, after the event that wrote it. */
  lemma LockWithinTenMinutes(h: seq<Event>, id: string)
    requires Locked(h, id)
    ensures 30_000 <= Until(h, id) - h[Latest(h, id)].now <= 600_000
  {
    var i := Latest(h, id);
    if h[i].Failed? || h[i].Extended? {
      LatestStrikeCounts(h, id);
      CooldownGrows(Count(h[..i + 1], id), Count(h[..i + 1], id));
    }
  }

  /** Events of other models change nothing. */
  lemma {:induction false} OthersDoNotMatter(h: seq<Event>, e: Event, id: string)
    requires e.id != id
    ensures Count(h + [e], id) == Count(h, id) && Latest(h + [e], id) == Latest(h, id)
    ensures Locked(h + [e], id) <==> Locked(h, id)
    ensures Locked(h, id) ==> Until(h + [e], id) == Until(h, id)
  {
    assert (h + [e])[..|h|] == h;
    var i := Latest(h, id);
    if i != -1 {
      assert (h + [e])[..i + 1] == h[..i + 1];
    }
  }

  /** What the last event does to its own model. */
  lemma OwnEvent(h: seq<Event>, e: Event)
    ensures var g := h + [e];
      && (Locked(g, e.id) <==> !e.Cleared?)
      && (e.Cleared? ==> Count(g, e.id) == 0)
      && (e.Failed? || e.Extended? ==> Count(g, e.id) == Count(h, e.id) + 1)
      && (e.Exhausted? || e.Degraded? ==> Count(g, e.id) == Count(h, e.id))
      && (e.Failed? || e.Extended? ==> Until(g, e.id) == e.now + Cooldown(Count(h, e.id) + 1))
      && (e.Exhausted? ==> Until(g, e.id) == e.now + EXHAUST_LOCK_MS)
      && (e.Degraded? ==> Until(g, e.id) == e.now + DEGRADE_LOCK_MS)
  {
    var g := h + [e];
    assert g[..|h|] == h && Latest(g, e.id) == |h| && g[..|h| + 1] == g;
  }

  predicate HealthyAt(h: seq<Event>, id: string, now: int) {
    Locked(h, id) ==> now > Until(h, id)
  }

  /** The healthy ones among `models`, each looked at when its turn comes. */
  function Healthy(h: seq<Event>, models: seq<string>, clock: seq<int>): seq<string>
    requires |clock| == |models|
  {
    if models == [] then []
    else
      var n := |models| - 1;
      Healthy(h, models[..n], clock[..n]) + if HealthyAt(h, models[n], clock[n]) then [models[n]] else []
  }

  predicate Increasing(ks: seq<nat>) { forall a, b | 0 <= a < b < |ks| :: ks[a] < ks[b] }

  /** `out` lists the models at the increasing positions `ks`, which are exactly the healthy ones. */
  predicate Picks(h: seq<Event>, models: seq<string>, clock: seq<int>, ks: seq<nat>, out: seq<string>)
    requires |clock| == |models|
  {
    && Increasing(ks) && |ks| == |out|
    && (forall a | 0 <= a < |ks| :: ks[a] < |models| && out[a] == models[ks[a]])
    && (forall a | 0 <= a < |ks| :: ks[a] < |models| && HealthyAt(h, models[ks[a]], clock[ks[a]]))
    && (forall k | 0 <= k < |models| && HealthyAt(h, models[k], clock[k]) :: k in ks)
  }

  lemma PicksOneMore(h: seq<Event>, models: seq<string>, clock: seq<int>, ks: seq<nat>, out: seq<string>)
    requires |clock| == |models| > 0
    requires Picks(h, models[..|models| - 1], clock[..|models| - 1], ks, out)
    ensures var n := |models| - 1;
      if HealthyAt(h, models[n], clock[n]) then Picks(h, models, clock, ks + [n], out + [models[n]])
      else Picks(h, models, clock, ks, out)
  {
    hide HealthyAt;
    var n := |models| - 1;
    forall k | 0 <= k < n && HealthyAt(h, models[k], clock[k])
      ensures k in ks
    {
      assert models[..n][k] == models[k] && clock[..n][k] == clock[k];
    }
  }

  /** The healthy models are an order-preserving sublist: those at exactly the healthy positions. */
  lemma {:induction false} HealthyIsSublist(h: seq<Event>, models: seq<string>, clock: seq<int>) returns (ks: seq<nat>)
    requires |clock| == |models|
    ensures Picks(h, models, clock, ks, Healthy(h, models, clock))
    decreases |models|
  {
    if models == [] {
      ks := [];
    } else {
      var n := |models| - 1;
      ks := HealthyIsSublist(h, models[..n], clock[..n]);
      PicksOneMore(h, models, clock, ks, Healthy(h, models[..n], clock[..n]));
      hide Picks, HealthyAt;
      if HealthyAt(h, models[n], clock[n]) {
        ks := ks + [n];
      } else {
        assert Healthy(h, models[..n], clock[..n]) + [] == Healthy(h, models[..n], clock[..n]);
      }
    }
  }

  // ---- the two maps ----

  /** The maps hold exactly what the history says of each model. */
  ghost predicate Ties(h: seq<Event>, until: map<string, int>, counts: map<string, int>) {
    && (forall id :: id in until <==> Locked(h, id))
    && (forall id | id in until :: until[id] == Until(h, id))
    && (forall id :: id in counts <==> Count(h, id) > 0)
    && (forall id | id in counts :: counts[id] == Count(h, id))
  }

  /** Models with a fail count are a subset of the locked ones, whatever the interleaving. */
  lemma CountedModelsAreLocked(h: seq<Event>, until: map<string, int>, counts: map<string, int>)
    requires Ties(h, until, counts)
    ensures counts.Keys <= until.Keys
  {
    forall id | id in counts
      ensures id in until
    {
      CountedIsLocked(h, id);
    }
  }

  lemma OthersTie(h: seq<Event>, e: Event)
    ensures forall id | id != e.id :: Count(h + [e], id) == Count(h, id) && (Locked(h + [e], id) <==> Locked(h, id))
    ensures forall id | id != e.id && Locked(h, id) :: Locked(h + [e], id) && Until(h + [e], id) == Until(h, id)
  {
    forall id | id != e.id
      ensures Count(h + [e], id) == Count(h, id) && (Locked(h + [e], id) <==> Locked(h, id))
      ensures Locked(h, id) ==> Until(h + [e], id) == Until(h, id)
    {
      OthersDoNotMatter(h, e, id);
    }
  }

  lemma StrikeTies(h: seq<Event>, until: map<string, int>, counts: map<string, int>, e: Event)
    requires Ties(h, until, counts) && (e.Failed? || e.Extended?)
    ensures var c := (if e.id in counts then counts[e.id] else 0) + 1;
      c >= 1 && Ties(h + [e], until[e.id := e.now + Cooldown(c)], counts[e.id := c])
  {
    OthersTie(h, e);
    OwnEvent(h, e);
    hide Count, Until, Locked;
  }

  lemma LockTies(h: seq<Event>, until: map<string, int>, counts: map<string, int>, e: Event)
    requires Ties(h, until, counts) && (e.Exhausted? || e.Degraded?)
    ensures Ties(h + [e], until[e.id := e.now + if e.Exhausted? then EXHAUST_LOCK_MS else DEGRADE_LOCK_MS], counts)
  {
    OthersTie(h, e);
    OwnEvent(h, e);
    hide Count, Until, Locked;
  }

  lemma ClearTies(h: seq<Event>, until: map<string, int>, counts: map<string, int>, id: string)
    requires Ties(h, until, counts)
    ensures Ties(h + [Cleared(id)], until - {id}, counts - {id})
  {
    OthersTie(h, Cleared(id));
    OwnEvent(h, Cleared(id));
    hide Count, Until, Locked;
  }

  // ---- the tracker ----

  class Health {
    var failedUntil: map<string, int>
    var failCounts: map<string, int>
    ghost var history: seq<Event>

    ghost predicate Valid()
      reads this
    {
      Ties(history, failedUntil, failCounts)
    }

    constructor ()
      ensures Valid() && history == []
    {
      failedUntil, failCounts, history := map[], map[], [];
    }

    method IsHealthy(id: string, now: int) returns (healthy: bool)
      requires Valid()
      ensures healthy <==> HealthyAt(history, id, now)
    {
      if id !in failedUntil {
        return true;
      }
      return now > failedUntil[id];
    }

    method HealthyModels(models: seq<string>, clock: seq<int>) returns (out: seq<string>)
      requires Valid() && |clock| == |models|
      ensures out == Healthy(history, models, clock)
    {
      out := [];
      for i := 0 to |models|
        invariant out == Healthy(history, models[..i], clock[..i])
      {
        var healthy := IsHealthy(models[i], clock[i]);
        if healthy {
          out := out + [models[i]];
        }
        assert models[..i + 1][..i] == models[..i] && clock[..i + 1][..i] == clock[..i];
      }
      assert models[..|models|] == models && clock[..|models|] == clock;
    }

    /** A live failure: below 500 nothing is locked, otherwise the lock steps up the ladder. */
    method MarkFailed(id: string, statusCode: int, now: int)
      requires Valid()
      modifies this
      ensures Valid()
      ensures history == old(history) + if id == "" || statusCode < 500 then [] else [Failed(id, now)]
    {
      if id == "" || statusCode < 500 {
        return;
      }
      StrikeTies(history, failedUntil, failCounts, Failed(id, now));
      var count := (if id in failCounts then failCounts[id] else 0) + 1;
      failCounts := failCounts[id := count];
      failedUntil := failedUntil[id := now + BACKOFF_MS[LadderIndex(count)]];
      history := history + [Failed(id, now)];
    }

    method MarkExhausted(id: string, now: int)
      requires Valid()
      modifies this
      ensures Valid()
      ensures history == old(history) + if id == "" then [] else [Exhausted(id, now)]
    {
      if id == "" {
        return;
      }
      LockTies(history, failedUntil, failCounts, Exhausted(id, now));
      failedUntil := failedUntil[id := now + EXHAUST_LOCK_MS];
      history := history + [Exhausted(id, now)];
    }

    method MarkDegraded(id: string, now: int)
      requires Valid()
      modifies this
      ensures Valid()
      ensures history == old(history) + if id == "" then [] else [Degraded(id, now)]
    {
      if id == "" {
        return;
      }
      LockTies(history, failedUntil, failCounts, Degraded(id, now));
      failedUntil := failedUntil[id := now + DEGRADE_LOCK_MS];
      history := history + [Degraded(id, now)];
    }

    /** First half of a probe round: the models whose locks have expired. */
    method CollectDue(now: int) returns (due: set<string>)
      requires Valid()
      ensures forall id :: id in due <==> Locked(history, id) && now > Until(history, id)
    {
      due := {};
      var todo := failedUntil.Keys;
      while todo != {}
        invariant todo <= failedUntil.Keys
        invariant forall id :: id in due <==> id in failedUntil && id !in todo && now > failedUntil[id]
        decreases |todo|
      {
        var id :| id in todo;
        if now > failedUntil[id] {
          due := due + {id};
        }
        todo := todo - {id};
      }
    }

    /** Second half, for one due model: any answer but a server error shows that it is back. Marks
        may have come in between. */
    method Probed(id: string, status: int, transportErr: bool, now: int)
      requires Valid()
      modifies this
      ensures Valid()
      ensures history == old(history)
        + [if !transportErr && (status == 200 || 400 <= status < 500) then Cleared(id) else Extended(id, now)]
    {
      hide Ties, Count, Until, Locked;
      if !transportErr && (status == 200 || 400 <= status < 500) {
        ClearTies(history, failedUntil, failCounts, id);
        failedUntil := failedUntil - {id};
        failCounts := failCounts - {id};
        history := history + [Cleared(id)];
      } else {
        StrikeTies(history, failedUntil, failCounts, Extended(id, now));
        var count := (if id in failCounts then failCounts[id] else 0) + 1;
        failCounts := failCounts[id := count];
        failedUntil := failedUntil[id := now + BACKOFF_MS[LadderIndex(count)]];
        history := history + [Extended(id, now)];
      }
    }
  }
}
