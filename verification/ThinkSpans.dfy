/** Removal of `<think>…</think>` spans from a whole stream: the meaning that the incremental
    stripper is measured against, and how that meaning behaves when a stream is cut in two. */
module ThinkSpans {
  import opened ByteStrings

  const OPEN: Bytes := "<think>"
  const CLOSE: Bytes := "</think>"

  /** What reaches the client, and whether the stream ends inside an unclosed span. */
  datatype Text = Text(out: Bytes, open: bool)

  /** Result of scanning: the text, and the bytes the next bytes of the stream may still combine
      with (behind the current opener when `open`, behind the last closer otherwise). */
  datatype Scan = Scan(out: Bytes, open: bool, rest: Bytes) {
    function Visible(): Text { Text(out, open) }
  }

  function Before(o: Bytes, t: Text): Text { t.(out := o + t.out) }

  /** Scan of `s` that begins outside every span. */
  function Outside(s: Bytes): Scan
    decreases |s|
  {
    var i := Index(s, OPEN);
    if i == -1 then Scan(s, false, s)
    else var r := Inside(s[i + |OPEN|..]); r.(out := s[..i] + r.out)
  }

  /** Scan of `s` that begins inside a span. */
  function Inside(s: Bytes): Scan
    decreases |s|
  {
    var j := Index(s, CLOSE);
    if j == -1 then Scan([], true, s) else Outside(s[j + |CLOSE|..])
  }

  /** The end of `w` and the start of `z` together spell an opener that lies in neither. */
  predicate CutsAt(w: Bytes, z: Bytes, m: nat) {
    1 <= m < |OPEN| && HasSuffix(w, OPEN[..m]) && HasPrefix(z, OPEN[m..])
  }

  predicate CutsOpener(w: Bytes, z: Bytes) {
    exists m: nat | m < |OPEN| :: CutsAt(w, z, m)
  }

  /** `w` ends on a non-empty proper prefix of the opener. */
  predicate EndsOnPartial(w: Bytes) {
    exists m: nat | 1 <= m < |OPEN| :: HasSuffix(w, OPEN[..m])
  }

  // ---- how the scans compose ----

  /** No closer starts inside an opener. */
  lemma NoCloserInOpener(z: Bytes, k: nat)
    requires k < |OPEN|
    ensures !At(OPEN + z, CLOSE, k)
  {
    if At(OPEN + z, CLOSE, k) {
      AtByte(OPEN + z, CLOSE, k, 0);
      AtByte(OPEN + z, CLOSE, k, 1);
    }
  }

  /** A retained opener adds nothing to a scan that is inside a span. */
  lemma InsideSkipsOpener(z: Bytes)
    ensures Inside(OPEN + z) == Inside(z) || (Inside(z).open && Index(z, CLOSE) == -1)
    ensures Inside(OPEN + z).Visible() == Inside(z).Visible()
  {
    forall k | 0 <= k < |OPEN|
      ensures !At(OPEN + z, CLOSE, k)
    {
      NoCloserInOpener(z, k);
    }
    IndexPlainPrefix(OPEN, z, CLOSE);
    var i := Index(z, CLOSE);
    if i != -1 {
      assert (OPEN + z)[|OPEN| + i + |CLOSE|..] == z[i + |CLOSE|..];
    }
  }

  lemma OutsideShift(a: Bytes, y: Bytes)
    requires Index(a + y, OPEN) == if Index(y, OPEN) == -1 then -1 else |a| + Index(y, OPEN)
    ensures Outside(a + y).Visible() == Before(a, Outside(y).Visible())
  {
    var j := Index(y, OPEN);
    if j != -1 {
      var r := Inside(y[j + |OPEN|..]);
      assert (a + y)[|a| + j + |OPEN|..] == y[j + |OPEN|..];
      assert (a + y)[..|a| + j] + r.out == a + (y[..j] + r.out);
    }
  }

  /** Bytes before which no opener starts are plain text. */
  lemma OutsidePlainPrefix(a: Bytes, y: Bytes)
    requires forall k :: 0 <= k < |a| ==> !At(a + y, OPEN, k)
    ensures Outside(a + y).Visible() == Before(a, Outside(y).Visible())
  {
    IndexPlainPrefix(a, y, OPEN);
    OutsideShift(a, y);
  }

  /** No opener inside `w`, none across the cut: `w` is plain text whatever follows. */
  lemma OutsideNoCut(w: Bytes, z: Bytes)
    requires Index(w, OPEN) == -1 && !CutsOpener(w, z)
    ensures Outside(w + z).Visible() == Before(w, Outside(z).Visible())
  {
    forall k | 0 <= k < |w|
      ensures !At(w + z, OPEN, k)
    {
      if At(w + z, OPEN, k) {
        if k + |OPEN| <= |w| {
          AtPrefix(w, z, OPEN, k);
        } else {
          CutFromAt(w, z, k);
        }
      }
    }
    OutsidePlainPrefix(w, z);
  }

  lemma CutFromAt(w: Bytes, z: Bytes, k: nat)
    requires |w| - |OPEN| < k < |w| && At(w + z, OPEN, k)
    ensures CutsAt(w, z, |w| - k)
  {
    var m := |w| - k;
    assert (w + z)[k..k + |OPEN|][..m] == w[|w| - m..];
    assert (w + z)[k..k + |OPEN|][m..] == z[..|OPEN| - m];
  }

  /** The opposite case: a cut opener is an opener of the uncut stream. */
  lemma OutsideCut(w: Bytes, z: Bytes, m: nat)
    requires Index(w, OPEN) == -1 && CutsAt(w, z, m)
    ensures Outside(w + z).Visible() == Before(w[..|w| - m], Inside(z[|OPEN| - m..]).Visible())
  {
    var p, y := w[..|w| - m], z[|OPEN| - m..];
    PartialIsFirst(w, z, m);
    CutJoins(w, z, m);
    OutsidePlainPrefix(p, OPEN + y);
    OutsideAtOpener(y);
    assert p + [] == p;
  }

  lemma CutJoins(w: Bytes, z: Bytes, m: nat)
    requires CutsAt(w, z, m)
    ensures w + z == w[..|w| - m] + (OPEN + z[|OPEN| - m..])
  {
    assert w == w[..|w| - m] + OPEN[..m];
    assert z == OPEN[m..] + z[|OPEN| - m..];
  }

  lemma OutsideAtOpener(y: Bytes)
    ensures Outside(OPEN + y).Visible() == Inside(y).Visible()
  {
    assert At(OPEN + y, OPEN, 0);
    assert (OPEN + y)[|OPEN|..] == y;
  }

  /** A cut opener is the first opener of the uncut stream. */
  lemma PartialIsFirst(w: Bytes, z: Bytes, m: nat)
    requires Index(w, OPEN) == -1 && 1 <= m < |OPEN| && HasSuffix(w, OPEN[..m])
    ensures forall k :: 0 <= k < |w| - m ==> !At(w + z, OPEN, k)
  {
    assert (w + z)[|w| - m] == w[|w| - m..][0];
    forall k | 0 <= k < |w| - m
      ensures !At(w + z, OPEN, k)
    {
      if At(w + z, OPEN, k) {
        if k + |OPEN| <= |w| {
          AtPrefix(w, z, OPEN, k);
        } else {
          AtByte(w + z, OPEN, k, |w| - m - k);
        }
      }
    }
  }

  /** The second half of a cut opener is plain text on its own. */
  lemma OutsideHalfOpener(m: nat, y: Bytes)
    requires 1 <= m < |OPEN|
    ensures Outside(OPEN[m..] + y).Visible() == Before(OPEN[m..], Outside(y).Visible())
  {
    var q := OPEN[m..];
    forall k | 0 <= k < |q|
      ensures !At(q + y, OPEN, k)
    {
      assert (q + y)[k] == OPEN[m + k];
      if At(q + y, OPEN, k) {
        AtByte(q + y, OPEN, k, 0);
      }
    }
    OutsidePlainPrefix(q, y);
  }

  /** How a scan of `s` that ended as `r` continues over `z`. */
  function Continue(r: Scan, z: Bytes): Text
    requires !r.open ==> |r.rest| <= |r.out|
  {
    if r.open then Before(r.out, Inside(r.rest + z).Visible())
    else Before(r.out[..|r.out| - |r.rest|], Outside(r.rest + z).Visible())
  }

  /** `r` is a scan of a stream that ends like `s`. */
  predicate Resumable(s: Bytes, r: Scan) {
    !r.open ==> HasSuffix(r.out, r.rest) && HasSuffix(s, r.rest) && Index(r.rest, OPEN) == -1
  }

  lemma ContinueBehind(o: Bytes, r: Scan, z: Bytes)
    requires !r.open ==> HasSuffix(r.out, r.rest)
    ensures !r.open ==> HasSuffix(o + r.out, r.rest)
    ensures Continue(r.(out := o + r.out), z) == Before(o, Continue(r, z))
  {
    hide Inside, Outside;
    if r.open {
      assert (o + r.out) + Inside(r.rest + z).out == o + (r.out + Inside(r.rest + z).out);
    } else {
      SuffixBehind(o, r.out, r.rest);
      var h := |r.out| - |r.rest|;
      assert (o + r.out[..h]) + Outside(r.rest + z).out == o + (r.out[..h] + Outside(r.rest + z).out);
    }
  }

  lemma SuffixBehind(o: Bytes, a: Bytes, w: Bytes)
    requires HasSuffix(a, w)
    ensures HasSuffix(o + a, w)
    ensures (o + a)[..|o + a| - |w|] == o + a[..|a| - |w|]
  {
    assert (o + a)[|o + a| - |w|..] == a[|a| - |w|..];
  }

  /** Scanning can be resumed: what the first part leaves behind is all the second part needs. */
  lemma {:induction false} OutsideResumes(s: Bytes, z: Bytes)
    ensures Resumable(s, Outside(s)) && Outside(s + z).Visible() == Continue(Outside(s), z)
    decreases |s|
  {
    var i := Index(s, OPEN);
    if i == -1 {
      assert s[..0] == [];
    } else {
      IndexExtends(s, OPEN, z);
      var t := s[i + |OPEN|..];
      assert (s + z)[i + |OPEN|..] == t + z;
      assert (s + z)[..i] == s[..i];
      InsideResumes(t, z);
      ContinueBehind(s[..i], Inside(t), z);
    }
  }

  lemma {:induction false} InsideResumes(s: Bytes, z: Bytes)
    ensures Resumable(s, Inside(s)) && Inside(s + z).Visible() == Continue(Inside(s), z)
    decreases |s|
  {
    var j := Index(s, CLOSE);
    if j != -1 {
      IndexExtends(s, CLOSE, z);
      assert (s + z)[j + |CLOSE|..] == s[j + |CLOSE|..] + z;
      OutsideResumes(s[j + |CLOSE|..], z);
    }
  }

  // ---- showing less ----

  /** An opener does not overlap a closer that starts in front of it, and the other way round. */
  lemma TagsApart(s: Bytes, i: nat, j: nat)
    requires At(s, OPEN, i) && At(s, CLOSE, j)
    ensures i + |OPEN| <= j || j + |CLOSE| <= i
  {
    if j <= i < j + |CLOSE| {
      AtByte(s, CLOSE, j, i - j);
      AtByte(s, CLOSE, j, 1);
      AtByte(s, OPEN, i, 0);
      AtByte(s, OPEN, i, 1);
    } else if i < j < i + |OPEN| {
      AtByte(s, OPEN, i, j - i);
      AtByte(s, CLOSE, j, 0);
    }
  }

  /** Being inside a span never makes more bytes visible than being outside. */
  lemma InsideShowsLess(s: Bytes)
    ensures |Inside(s).out| <= |Outside(s).out|
  {
    var i, j := Index(s, OPEN), Index(s, CLOSE);
    if j != -1 && i != -1 {
      TagsApart(s, i, j);
    }
    if j == -1 {
    } else if i == -1 || j < i {
      // the closer comes first: outside it is text, and both scans go on from behind it
      var a, y := s[..j + |CLOSE|], s[j + |CLOSE|..];
      assert s == a + y;
      OutsidePlainPrefix(a, y);
    } else {
      // the opener comes first: from behind it both scans look for the same closer
      var a, y := s[..i + |OPEN|], s[i + |OPEN|..];
      assert s == a + y;
      IndexPlainPrefix(a, y, CLOSE);
      assert s[j + |CLOSE|..] == y[j - |a| + |CLOSE|..];
    }
  }

  // ---- when an opener is left ----

  /** The text in front of a span and what is left behind it join to an opener, here or further on. */
  predicate Joins(s: Bytes)
    decreases |s|
  {
    var i := Index(s, OPEN);
    i != -1 && (CutsOpener(s[..i], Inside(s[i + |OPEN|..]).out) || JoinsInside(s[i + |OPEN|..]))
  }

  predicate JoinsInside(s: Bytes)
    decreases |s|
  {
    var j := Index(s, CLOSE);
    j != -1 && Joins(s[j + |CLOSE|..])
  }

  /** An opener in `a + b` lies across the seam or in `b`. */
  lemma OpenerBehind(a: Bytes, b: Bytes)
    requires Index(a, OPEN) == -1
    ensures Contains(a + b, OPEN) <==> CutsOpener(a, b) || Contains(b, OPEN)
  {
    var k := Index(a + b, OPEN);
    if k != -1 {
      if k >= |a| {
        AtShift(a, b, OPEN, k - |a|);
      } else if k + |OPEN| <= |a| {
        AtPrefix(a, b, OPEN, k);
      } else {
        CutFromAt(a, b, k);
      }
    }
    if CutsOpener(a, b) {
      var m: nat :| m < |OPEN| && CutsAt(a, b, m);
      CutJoins(a, b, m);
      var y := b[|OPEN| - m..];
      AtShift(a[..|a| - m], OPEN + y, OPEN, 0);
      assert At(OPEN + y, OPEN, 0);
    }
    if Index(b, OPEN) != -1 {
      AtShift(a, b, OPEN, Index(b, OPEN));
    }
  }

  /** Removing the spans leaves an opener exactly if what surrounds a span joins to one. */
  lemma {:induction false} OpenerLeftExactly(s: Bytes)
    ensures Contains(Outside(s).out, OPEN) <==> Joins(s)
    decreases |s|
  {
    hide CutsOpener;
    var i := Index(s, OPEN);
    if i != -1 {
      var a, z := s[..i], s[i + |OPEN|..];
      assert s == a + s[i..];
      if Index(a, OPEN) != -1 {
        AtPrefix(a, s[i..], OPEN, Index(a, OPEN));
      }
      OpenerLeftInside(z);
      OpenerBehind(a, Inside(z).out);
    }
  }

  lemma {:induction false} OpenerLeftInside(s: Bytes)
    ensures Contains(Inside(s).out, OPEN) <==> JoinsInside(s)
    decreases |s|
  {
    var j := Index(s, CLOSE);
    if j != -1 {
      OpenerLeftExactly(s[j + |CLOSE|..]);
    }
  }
}
