/** The writer that keeps the tail of a command's output: a buffer that is shifted in place and always
    holds the last bytes of everything written. */
module CappedOutput {
  import opened ByteStrings

  const MAX_OUTPUT := 8192

  /** The last `MAX_OUTPUT` bytes of `s`, all of them if there are fewer. */
  function Tail(s: Bytes): (t: Bytes)
    ensures |t| == if |s| <= MAX_OUTPUT then |s| else MAX_OUTPUT
  {
    if |s| <= MAX_OUTPUT then s else s[|s| - MAX_OUTPUT..]
  }

  /** Keeping only the tail loses nothing that a later tail needs. */
  lemma TailOfTail(s: Bytes, p: Bytes)
    ensures Tail(Tail(s) + p) == Tail(s + p)
  {
    var t := Tail(s);
    assert s == s[..|s| - |t|] + t;
    assert s + p == s[..|s| - |t|] + (t + p);
    if |t + p| > MAX_OUTPUT {
      assert (s + p)[|s + p| - MAX_OUTPUT..] == (t + p)[|t + p| - MAX_OUTPUT..];
    }
  }

  /** What a write of `p` behind the retained tail `b` of `h` has to leave. */
  lemma TailAfterWrite(h: Bytes, b: Bytes, p: Bytes)
    requires b == Tail(h)
    ensures Tail(h + p) ==
      if |p| >= MAX_OUTPUT then p[|p| - MAX_OUTPUT..]
      else if |b| + |p| > MAX_OUTPUT then b[|b| + |p| - MAX_OUTPUT..] + p
      else b + p
  {
    TailOfTail(h, p);
    if |p| == MAX_OUTPUT && b == [] {
      assert b + p == p;
    }
  }

  class CappedWriter {
    const data: array<char>
    var len: nat
    ghost var history: Bytes

    ghost predicate Valid()
      reads this, data
    {
      data.Length == MAX_OUTPUT && len <= MAX_OUTPUT && Contents() == Tail(history)
    }

    ghost function Contents(): (s: Bytes)
      reads this`len, data
      requires len <= data.Length
      ensures |s| == len
    {
      data[..len]
    }

    constructor ()
      ensures Valid() && fresh(data) && history == []
    {
      data := new char[MAX_OUTPUT](_ => '\0');
      len, history := 0, [];
    }

    /** Drops what is present but keeps the buffer. */
    method Clear()
      requires len <= data.Length
      modifies this`len
      ensures len == 0 && Contents() == []
    {
      len := 0;
    }

    /** Moves the bytes from `drop` on to the front, in place. */
    method Shift(drop: nat)
      requires drop <= len <= data.Length
      modifies this`len, data
      ensures len == old(len) - drop && Contents() == old(Contents())[drop..]
    {
      ghost var was := data[..];
      var n := len - drop;
      for i := 0 to n
        invariant len == old(len)
        invariant forall k | 0 <= k < i :: data[k] == was[drop + k]
        invariant forall k | i <= k < data.Length :: data[k] == was[k]
      {
        data[i] := data[drop + i];
      }
      len := n;
    }

    /** Writes `p` behind the `len` bytes present. */
    method Append(p: Bytes)
      requires len + |p| <= data.Length
      modifies this`len, data
      ensures len == old(len) + |p| && Contents() == old(Contents()) + p
    {
      ghost var was := data[..len];
      for i := 0 to |p|
        invariant len == |was|
        invariant forall k | 0 <= k < len :: data[k] == was[k]
        invariant forall k | 0 <= k < i :: data[len + k] == p[k]
      {
        data[len + i] := p[i];
      }
      len := len + |p|;
    }

    method Write(p: Bytes) returns (n: nat)
      requires Valid()
      modifies this, data
      ensures Valid() && history == old(history) + p && n == |p|
    {
      hide Tail, Contents;
      n := |p|;
      ghost var before := Contents();
      TailAfterWrite(history, before, p);
      history := history + p;
      if |p| >= MAX_OUTPUT {
        Clear();
        Append(p[|p| - MAX_OUTPUT..]);
        assert [] + p[|p| - MAX_OUTPUT..] == p[|p| - MAX_OUTPUT..];
      } else if len + |p| > MAX_OUTPUT {
        Shift(len + |p| - MAX_OUTPUT);
        Append(p);
      } else {
        Append(p);
      }
    }
  }
}
