/** Byte strings and the few library operations on them that the proxy relies on.
    A byte string is modelled as a Dafny string with one character per byte. Nothing proved here
    needs the characters to stay below 256, so every statement covers all byte strings. */
module ByteStrings {
  type Bytes = string

  /** `p` occurs in `s` at position `i`. */
  predicate At(s: Bytes, p: Bytes, i: int) {
    0 <= i <= |s| - |p| && forall k | 0 <= k < |p| :: s[i + k] == p[k]
  }

  /** `i` is the position of the first occurrence of `p`. */
  predicate FirstAt(s: Bytes, p: Bytes, i: int) {
    At(s, p, i) && forall k | 0 <= k < i :: !At(s, p, k)
  }

  lemma {:induction false} FirstExists(s: Bytes, p: Bytes, i: nat)
    requires At(s, p, i)
    ensures exists f | 0 <= f <= i :: FirstAt(s, p, f)
  {
    if !FirstAt(s, p, i) {
      var k :| 0 <= k < i && At(s, p, k);
      FirstExists(s, p, k);
    }
  }

  /** Position of the first occurrence of `p`, -1 if there is none. */
  function Index(s: Bytes, p: Bytes): (r: int)
    ensures r == -1 || At(s, p, r)
    ensures forall k :: 0 <= k && (r == -1 || k < r) ==> !At(s, p, k)
  {
    if i: nat :| i <= |s| && At(s, p, i) then
      FirstExists(s, p, i);
      var f: nat :| f <= |s| && FirstAt(s, p, f); f
    else -1
  }

  /** `i` is the position of the last occurrence of `p`. */
  predicate LastAt(s: Bytes, p: Bytes, i: int) {
    At(s, p, i) && forall k | i < k <= |s| :: !At(s, p, k)
  }

  lemma {:induction false} LastExists(s: Bytes, p: Bytes, i: nat)
    requires At(s, p, i)
    ensures exists l | i <= l <= |s| :: LastAt(s, p, l)
    decreases |s| - i
  {
    if !LastAt(s, p, i) {
      var k :| i < k <= |s| && At(s, p, k);
      LastExists(s, p, k);
    }
  }

  /** Position of the last occurrence of `p`, -1 if there is none. */
  function LastIndex(s: Bytes, p: Bytes): (r: int)
    ensures r == -1 || At(s, p, r)
    ensures forall k :: r < k ==> !At(s, p, k)
  {
    if i: nat :| i <= |s| && At(s, p, i) then
      LastExists(s, p, i);
      var l: nat :| l <= |s| && LastAt(s, p, l); l
    else -1
  }

  predicate Contains(s: Bytes, p: Bytes)
    ensures Contains(s, p) <==> exists i :: At(s, p, i)
  {
    Index(s, p) != -1
  }

  predicate HasPrefix(s: Bytes, p: Bytes) {
    |p| <= |s| && s[..|p|] == p
  }

  predicate HasSuffix(s: Bytes, p: Bytes) {
    |p| <= |s| && s[|s| - |p|..] == p
  }

  /** All pieces one after the other. */
  function Concat(pieces: seq<Bytes>): Bytes {
    if pieces == [] then [] else pieces[0] + Concat(pieces[1..])
  }

  lemma {:induction false} ConcatSnoc(pieces: seq<Bytes>, last: Bytes)
    ensures Concat(pieces + [last]) == Concat(pieces) + last
  {
    if pieces == [] {
      assert pieces + [last] == [last];
      assert [last][1..] == [];
    } else {
      assert (pieces + [last])[1..] == pieces[1..] + [last];
      ConcatSnoc(pieces[1..], last);
    }
  }

  /** The first occurrence does not move when more bytes arrive behind it. */
  lemma IndexExtends(s: Bytes, p: Bytes, more: Bytes)
    requires Index(s, p) != -1
    ensures Index(s + more, p) == Index(s, p)
  {
    var i := Index(s, p);
    assert At(s + more, p, i);
    forall k | 0 <= k < i
      ensures !At(s + more, p, k)
    {
      if At(s + more, p, k) {
        AtPrefix(s, more, p, k);
      }
    }
  }

  /** An occurrence inside `b` is an occurrence inside `a + b`, shifted. */
  lemma AtShift(a: Bytes, b: Bytes, p: Bytes, i: int)
    ensures 0 <= i ==> (At(a + b, p, |a| + i) <==> At(b, p, i))
  {
    if At(a + b, p, |a| + i) && 0 <= i {
      assert forall k | 0 <= k < |p| :: p[k] == (a + b)[|a| + i + k] == b[i + k];
    }
  }

  /** An occurrence that ends inside `a` is an occurrence in `a`. */
  lemma AtPrefix(a: Bytes, b: Bytes, p: Bytes, i: int)
    requires i + |p| <= |a|
    ensures At(a + b, p, i) <==> At(a, p, i)
  {
    if At(a, p, i) || At(a + b, p, i) {
      assert forall k | 0 <= k < |p| :: p[k] == (a + b)[i + k] == a[i + k];
    }
  }

  lemma AtByte(s: Bytes, p: Bytes, i: int, k: nat)
    requires At(s, p, i) && k < |p|
    ensures s[i + k] == p[k]
  {
  }

  /** Bytes in front of which nothing starts only move the first occurrence. */
  lemma IndexPlainPrefix(a: Bytes, y: Bytes, p: Bytes)
    requires p != ""
    requires forall k :: 0 <= k < |a| ==> !At(a + y, p, k)
    ensures Index(a + y, p) == if Index(y, p) == -1 then -1 else |a| + Index(y, p)
  {
    var i, j := Index(a + y, p), Index(y, p);
    if j != -1 {
      AtShift(a, y, p, j);
    }
    if i != -1 {
      AtShift(a, y, p, i - |a|);
    }
  }
}
