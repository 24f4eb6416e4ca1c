/** The upstream circuit breaker: its two counters against the whole history of recorded outcomes,
    and for which failure counts its 64-bit shift still yields the documented cooldown. */
module CircuitBreaking {

  const FAIL_THRESHOLD := 5
  const BASE_COOLDOWN_MS := 60_000
  const MAX_COOLDOWN_MS := 600_000

  const TWO_63 := 0x8000_0000_0000_0000
  const TWO_64 := 0x1_0000_0000_0000_0000

  /** The value a 64-bit signed register holds. */
  function Int64(x: int): int { (x + TWO_63) % TWO_64 - TWO_63 }

  function Pow2(k: nat): (p: nat)
    ensures p > 0
  {
    if k == 0 then 1 else 2 * Pow2(k - 1)
  }

  /** The cooldown the code computes for the `fails`-th consecutive failure. */
  function Cooldown(fails: nat): int
    requires fails >= FAIL_THRESHOLD
  {
    var shifted := Int64(BASE_COOLDOWN_MS * Pow2(fails - FAIL_THRESHOLD));
    if shifted > MAX_COOLDOWN_MS then MAX_COOLDOWN_MS else shifted
  }

  /** The cooldown as documented: 60 s, doubled with every further failure, at most 600 s. */
  function Documented(fails: nat): int
    requires fails >= FAIL_THRESHOLD
  {
    var exact := BASE_COOLDOWN_MS * Pow2(fails - FAIL_THRESHOLD);
    if exact > MAX_COOLDOWN_MS then MAX_COOLDOWN_MS else exact
  }

  // ---- histories ----

  datatype Event = Failure(now: int) | Success

  /** Failures since the last success. */
  function Streak(h: seq<Event>): nat {
    if h == [] || h[|h| - 1].Success? then 0 else Streak(h[..|h| - 1]) + 1
  }

  /** Until when the circuit is open after `h`. */
  function Deadline(h: seq<Event>): int {
    if h == [] then 0
    else if Streak(h) >= FAIL_THRESHOLD then h[|h| - 1].now + Cooldown(Streak(h))
    else Deadline(h[..|h| - 1])
  }

  /** The failures at `i` and right before it form a maximal run of `k`. */
  predicate RunEndsAt(h: seq<Event>, i: nat, k: nat) {
    && i < |h| && k <= i + 1
    && (forall j | i - k < j <= i :: h[j].Failure?)
    && (k <= i ==> h[i - k].Success?)
  }

  /** A failure at `i` that opens the circuit, or opens it anew: the last five outcomes were failures. */
  predicate Opening(h: seq<Event>, i: nat) {
    FAIL_THRESHOLD - 1 <= i < |h| && forall j | i - FAIL_THRESHOLD < j <= i :: h[j].Failure?
  }

  lemma {:induction false} StreakIsRun(h: seq<Event>, k: nat)
    requires h != []
    ensures Streak(h) == k <==> RunEndsAt(h, |h| - 1, k)
    decreases |h|
  {
    var n := |h| - 1;
    if h[n].Failure? {
      if n == 0 {
        assert Streak(h[..0]) == 0;
        assert k == 1 || !RunEndsAt(h, n, k);
      } else if k > 0 {
        StreakIsRun(h[..n], k - 1);
        assert RunEndsAt(h, n, k) <==> RunEndsAt(h[..n], n - 1, k - 1);
      } else {
        assert !RunEndsAt(h, n, 0);
      }
    } else {
      assert k == 0 <==> RunEndsAt(h, n, k);
    }
  }

  lemma OpeningIsLongStreak(h: seq<Event>)
    requires h != []
    ensures Opening(h, |h| - 1) <==> Streak(h) >= FAIL_THRESHOLD
  {
    var k := Streak(h);
    StreakIsRun(h, k);
    if k < FAIL_THRESHOLD && k <= |h| - 1 {
      assert h[|h| - 1 - k].Success?;
    }
  }

  lemma OpeningOfPrefix(h: seq<Event>, n: nat, i: nat)
    requires i < n <= |h|
    ensures Opening(h[..n], i) <==> Opening(h, i)
  {
    if Opening(h[..n], i) {
      assert forall j | i - FAIL_THRESHOLD < j <= i :: h[j] == h[..n][j];
    }
  }

  /** The circuit is open exactly up to the cooldown of the latest failure that ended a run of five
      or more. The clock need not be monotone. */
  lemma {:induction false} DeadlineIsLatestOpening(h: seq<Event>, i: nat, k: nat)
    requires RunEndsAt(h, i, k) && k >= FAIL_THRESHOLD
    requires forall j | i < j < |h| :: !Opening(h, j)
    ensures Deadline(h) == h[i].now + Cooldown(k)
    decreases |h|
  {
    var n := |h| - 1;
    OpeningIsLongStreak(h);
    if i == n {
      StreakIsRun(h, k);
    } else {
      var g := h[..n];
      forall j | i < j < n
        ensures !Opening(g, j)
      {
        OpeningOfPrefix(h, n, j);
      }
      DeadlineIsLatestOpening(g, i, k);
    }
  }

  /** Without such a failure it has never been open. */
  lemma {:induction false} NeverOpened(h: seq<Event>)
    requires forall j | 0 <= j < |h| :: !Opening(h, j)
    ensures Deadline(h) == 0
    decreases |h|
  {
    if h != [] {
      var g := h[..|h| - 1];
      OpeningIsLongStreak(h);
      forall j | 0 <= j < |g|
        ensures !Opening(g, j)
      {
        OpeningOfPrefix(h, |h| - 1, j);
      }
      NeverOpened(g);
    }
  }

  // ---- the shift ----

  lemma {:induction false} Pow2Sum(a: nat, b: nat)
    ensures Pow2(a + b) == Pow2(a) * Pow2(b)
    decreases a
  {
    if a > 0 {
      Pow2Sum(a - 1, b);
      assert Pow2(a + b) == 2 * Pow2(a - 1 + b);
    }
  }

  lemma Pow2Values()
    ensures Pow2(8) == 256 && Pow2(16) == 0x1_0000 && Pow2(32) == 0x1_0000_0000
    ensures Pow2(48) == 0x1_0000_0000_0000 && Pow2(59) == 0x800_0000_0000_0000
  {
    assert Pow2(4) == 16;
    Pow2Sum(4, 4);
    Pow2Sum(8, 8);
    Pow2Sum(16, 16);
    Pow2Sum(32, 16);
    assert Pow2(3) == 8;
    Pow2Sum(8, 3);
    Pow2Sum(48, 11);
  }

  /** Up to the 52nd failure the shift loses nothing. */
  lemma SmallShift(k: nat)
    requires k <= 47
    ensures Int64(BASE_COOLDOWN_MS * Pow2(k)) == BASE_COOLDOWN_MS * Pow2(k)
  {
    Pow2Values();
    Pow2Monotone(k, 47);
    assert Pow2(48) == 2 * Pow2(47);
  }

  lemma {:induction false} Pow2Monotone(a: nat, b: nat)
    requires a <= b
    ensures Pow2(a) <= Pow2(b)
    decreases b - a
  {
    if a < b {
      Pow2Monotone(a, b - 1);
    }
  }

  lemma Pow2Beyond(j: nat)
    ensures Pow2(48 + j) == 0x1_0000_0000_0000 * Pow2(j)
    ensures Pow2(59 + j) == 0x800_0000_0000_0000 * Pow2(j)
  {
    Pow2Values();
    Pow2Sum(48, j);
    Pow2Sum(59, j);
    hide Pow2;
  }

  lemma Remainder(m: nat, r: nat)
    requires r < TWO_64
    ensures (TWO_64 * m + r) % TWO_64 == r
  {
  }

  /** From the 64th failure on it shifts everything out. */
  lemma LargeShift(k: nat)
    requires k >= 59
    ensures Int64(BASE_COOLDOWN_MS * Pow2(k)) == 0
  {
    Pow2Beyond(k - 59);
    hide Pow2;
    var p := Pow2(k - 59);
    assert BASE_COOLDOWN_MS * Pow2(k) == TWO_64 * (1875 * p);
    Remainder(1875 * p, TWO_63);
  }

  const TWO_53 := 0x20_0000_0000_0000

  /** The eleven low bits of `x` are all that a shift by 53 leaves in a register. */
  lemma ShiftBy53(x: nat)
    ensures Int64(TWO_53 * x) == TWO_53 * ((x + 1024) % 2048 - 1024)
  {
    var m, r := (x + 1024) / 2048, (x + 1024) % 2048;
    assert TWO_53 * x + TWO_63 == TWO_64 * m + TWO_53 * r;
    Remainder(m, TWO_53 * r);
  }

  /** In between it is a matter of which bit of 60000 comes to lie in the sign. */
  lemma MiddleShift(k: nat)
    requires 48 <= k <= 58
    ensures if k in {51, 53, 55, 56} then Int64(BASE_COOLDOWN_MS * Pow2(k)) > MAX_COOLDOWN_MS
      else Int64(BASE_COOLDOWN_MS * Pow2(k)) < 0
  {
    var q := k - 48;
    Pow2Beyond(q);
    ShiftBy53(1875 * Pow2(q));
    SignOf(q);
    hide Int64, Pow2;
    var r := (1875 * Pow2(q) + 1024) % 2048 - 1024;
    assert BASE_COOLDOWN_MS * Pow2(k) == TWO_53 * (1875 * Pow2(q));
    assert r > 0 ==> TWO_53 * r > MAX_COOLDOWN_MS;
    assert r < 0 ==> TWO_53 * r < 0;
  }

  lemma SignOf(q: nat)
    requires q <= 10
    ensures var r := (1875 * Pow2(q) + 1024) % 2048 - 1024;
      if q in {3, 5, 7, 8} then r > 0 else r < 0
  {
    SmallPowers();
    hide Pow2;
    var p := Pow2(q);
    assert (1875 * p + 1024) % 2048 == (1875 * p + 1024) - 2048 * ((1875 * p + 1024) / 2048);
  }

  lemma SmallPowers()
    ensures Pow2(0) == 1 && Pow2(1) == 2 && Pow2(2) == 4 && Pow2(3) == 8 && Pow2(4) == 16 && Pow2(5) == 32
    ensures Pow2(6) == 64 && Pow2(7) == 128 && Pow2(8) == 256 && Pow2(9) == 512 && Pow2(10) == 1024
  {
    assert Pow2(5) == 32;
    assert Pow2(10) == 32 * Pow2(5);
  }

  /** The cooldown is the documented one exactly for up to 52 consecutive failures and four counts
      beyond; for all others the circuit does not stay open at all. */
  lemma CooldownExactly(fails: nat)
    requires fails >= FAIL_THRESHOLD
    ensures Cooldown(fails) == Documented(fails) <==> fails <= 52 || fails in {56, 58, 60, 61}
    ensures Cooldown(fails) != Documented(fails) ==> Cooldown(fails) <= 0
    ensures Documented(fails) == MAX_COOLDOWN_MS <==> fails >= 9
  {
    var k := fails - FAIL_THRESHOLD;
    if k <= 47 {
      SmallShift(k);
    } else if k <= 58 {
      MiddleShift(k);
    } else {
      LargeShift(k);
    }
    DocumentedCap(k);
  }

  lemma DocumentedCap(k: nat)
    ensures BASE_COOLDOWN_MS * Pow2(k) >= MAX_COOLDOWN_MS <==> k >= 4
    ensures k >= 4 ==> BASE_COOLDOWN_MS * Pow2(k) > MAX_COOLDOWN_MS
  {
    assert Pow2(3) == 8 && Pow2(4) == 16;
    if k >= 4 {
      Pow2Monotone(4, k);
    } else {
      Pow2Monotone(k, 3);
    }
  }

  /** With the latest run of five or more failures known, the circuit is open for as long as
      documented exactly if that run has one of the lengths the shift can take. */
  lemma OpenAsDocumented(h: seq<Event>, i: nat, k: nat)
    requires RunEndsAt(h, i, k) && k >= FAIL_THRESHOLD
    requires forall j | i < j < |h| :: !Opening(h, j)
    ensures Deadline(h) == h[i].now + Documented(k) <==> k <= 52 || k in {56, 58, 60, 61}
  {
    hide Documented, Cooldown, Deadline;
    DeadlineIsLatestOpening(h, i, k);
    CooldownExactly(k);
  }

  // ---- the breaker ----

  class Breaker {
    var consecutiveFails: nat
    var openUntilMs: int
    ghost var history: seq<Event>

    ghost predicate Valid()
      reads this
    {
      consecutiveFails == Streak(history) && openUntilMs == Deadline(history)
    }

    constructor ()
      ensures Valid() && history == []
    {
      consecutiveFails, openUntilMs, history := 0, 0, [];
    }

    method IsOpen(now: int) returns (open: bool)
      requires Valid()
      ensures open <==> now <= Deadline(history)
    {
      open := now <= openUntilMs;
    }

    method RecordSuccess()
      requires Valid()
      modifies this
      ensures Valid() && history == old(history) + [Success]
    {
      consecutiveFails := 0;
      history := history + [Success];
      assert history[..|history| - 1] == old(history);
    }

    method RecordFailure(now: int)
      requires Valid()
      modifies this
      ensures Valid() && history == old(history) + [Failure(now)]
    {
      consecutiveFails := consecutiveFails + 1;
      if consecutiveFails >= FAIL_THRESHOLD {
        var cooldown := Int64(BASE_COOLDOWN_MS * Pow2(consecutiveFails - FAIL_THRESHOLD));
        if cooldown > MAX_COOLDOWN_MS {
          cooldown := MAX_COOLDOWN_MS;
        }
        openUntilMs := now + cooldown;
      }
      history := history + [Failure(now)];
      assert history[..|history| - 1] == old(history);
    }
  }
}
