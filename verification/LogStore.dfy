/** The ring of recent request records behind the dashboard: it always lists the newest entries added,
    newest first. */
module LogRing {

  datatype Level = Info | Error

  datatype Entry = Entry(
    time: int, level: Level, path: string, model: string, format: string, status: int, durationMs: int,
    tokensIn: int, tokensOut: int, cacheRead: int, cacheWrite: int, error: string)

  const NO_ENTRY := Entry(0, Info, "", "", "", 0, 0, 0, 0, 0, 0, "")

  const DEFAULT_CAPACITY := 500

  /** The newest `k` entries of a history, newest first. */
  function Newest(h: seq<Entry>, k: nat): (r: seq<Entry>)
    requires k <= |h|
    ensures |r| == k && forall i | 0 <= i < k :: r[i] == h[|h| - 1 - i]
  {
    if k == 0 then [] else [h[|h| - 1]] + Newest(h[..|h| - 1], k - 1)
  }

  /** It is the reverse of the last `k` entries. */
  lemma {:induction false} NewestIsReversedSuffix(h: seq<Entry>, k: nat)
    requires k <= |h|
    ensures Newest(h, k) == Reversed(h[|h| - k..])
    decreases k
  {
    var s := h[|h| - k..];
    if k > 0 {
      NewestIsReversedSuffix(h[..|h| - 1], k - 1);
      assert h[..|h| - 1][|h| - 1 - (k - 1)..] == s[..k - 1];
      assert s[k - 1] == h[|h| - 1];
    }
  }

  function Reversed(s: seq<Entry>): seq<Entry> {
    if s == [] then [] else [s[|s| - 1]] + Reversed(s[..|s| - 1])
  }

  /** The remainder of a number below twice the divisor. */
  lemma WrapOnce(x: nat, cap: int)
    requires 0 <= x < 2 * cap
    ensures x % cap == if x < cap then x else x - cap
  {
  }

  /** How many entries a ring lists after `n` additions. */
  function Listed(n: nat, capacity: int): nat
    requires capacity > 0
  {
    if n < capacity then n else capacity
  }

  /** In front of `next` lie the latest entries, behind it, once the ring is full, the ones before. */
  predicate Holds(ring: seq<Entry>, next: int, full: bool, h: seq<Entry>) {
    && 0 <= next < |ring| && next <= |h|
    && (full <==> |h| >= |ring|) && (!full ==> next == |h|)
    && (forall k | 0 <= k < next :: ring[k] == h[|h| - next + k])
    && (full ==> forall k | next <= k < |ring| :: ring[k] == h[|h| - next - |ring| + k])
  }

  lemma AddHolds(ring: seq<Entry>, next: int, full: bool, h: seq<Entry>, e: Entry)
    requires Holds(ring, next, full, h)
    ensures 0 <= next < |ring|
    ensures Holds(ring[next := e], (next + 1) % |ring|, full || (next + 1) % |ring| == 0, h + [e])
  {
    WrapOnce(next + 1, |ring|);
  }

  class Store {
    const entries: array<Entry>
    const capacity: int
    var next: int
    var full: bool
    ghost var history: seq<Entry>

    ghost predicate Valid()
      reads this, entries
    {
      capacity == entries.Length && Holds(entries[..], next, full, history)
    }

    constructor (capacity: int)
      ensures Valid() && fresh(entries) && history == []
      ensures this.capacity == if capacity <= 0 then DEFAULT_CAPACITY else capacity
    {
      var n := if capacity <= 0 then DEFAULT_CAPACITY else capacity;
      this.capacity := n;
      entries := new Entry[n](_ => NO_ENTRY);
      next, full, history := 0, false, [];
    }

    method Add(e: Entry)
      requires Valid()
      modifies this, entries
      ensures Valid() && history == old(history) + [e]
    {
      AddHolds(entries[..], next, full, history, e);
      hide Holds;
      entries[next] := e;
      next := (next + 1) % capacity;
      if next == 0 {
        full := true;
      }
      history := history + [e];
    }

    method Len() returns (n: int)
      requires Valid()
      ensures n == Listed(|history|, capacity)
    {
      if full {
        return capacity;
      }
      return next;
    }

    /** The newest entries added, newest first, and as many as there are or fit. */
    method List() returns (out: seq<Entry>)
      requires Valid()
      ensures out == Newest(history, Listed(|history|, capacity))
    {
      out := [];
      var n := Len();
      for i := 0 to n
        invariant |out| == i
        invariant forall j | 0 <= j < i :: out[j] == history[|history| - 1 - j]
      {
        WrapOnce(next - 1 - i + capacity, capacity);
        out := out + [entries[(next - 1 - i + capacity) % capacity]];
      }
    }
  }
}
