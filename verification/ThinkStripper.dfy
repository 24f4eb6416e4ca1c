/** The incremental think-tag stripper: the class as the proxy runs it, a function that says what
    one call does, and the exact condition under which a chunked run agrees with removing the spans
    from the whole stream at once. */
module ThinkStripping {
  import opened ByteStrings
  import opened ThinkSpans

  /** The three fields of the stripper. */
  datatype State = State(inside: bool, buf: Bytes, pend: Bytes)

  const FRESH: State := State(false, [], [])

  /** Length of the longest suffix of `b`, at most `l`, that is a prefix of the opener. */
  function HoldFrom(b: Bytes, l: nat): (h: nat)
    requires l < |OPEN|
    ensures h <= l && h <= |b| && HasSuffix(b, OPEN[..h])
    ensures forall m :: h < m <= l ==> !HasSuffix(b, OPEN[..m])
  {
    if l == 0 then assert b[|b|..] == []; 0
    else if HasSuffix(b, OPEN[..l]) then l
    else HoldFrom(b, l - 1)
  }

  function Hold(b: Bytes): (h: nat)
    ensures h < |OPEN| && h <= |b| && HasSuffix(b, OPEN[..h])
    ensures forall m :: h < m < |OPEN| ==> !HasSuffix(b, OPEN[..m])
  {
    HoldFrom(b, 6)
  }

  /** What the scanning loop of one call works on. */
  function Scanned(st: State, chunk: Bytes): Bytes { st.buf + (st.pend + chunk) }

  /** Whether a call runs the scanning loop at all. */
  predicate Scans(st: State, chunk: Bytes) {
    st.inside || Contains(st.pend + chunk, OPEN)
  }

  function ScanCall(st: State, chunk: Bytes): Scan {
    if st.inside then Inside(Scanned(st, chunk)) else Outside(Scanned(st, chunk))
  }

  /** State after one call. A span that stays open is kept from the FIRST opener of the buffer. */
  function NextState(st: State, chunk: Bytes): State {
    var b := st.pend + chunk;
    if Scans(st, chunk) then
      var t := Scanned(st, chunk);
      if ScanCall(st, chunk).open then
        State(true, t[(if Index(t, OPEN) == -1 then 0 else Index(t, OPEN))..], [])
      else FRESH
    else State(false, st.buf, b[|b| - Hold(b)..])
  }

  /** Bytes one call hands on. */
  function Emitted(st: State, chunk: Bytes): Bytes {
    var b := st.pend + chunk;
    if Scans(st, chunk) then ScanCall(st, chunk).out else b[..|b| - Hold(b)]
  }

  /** What the end of the stream adds: a held prefix, or the verdict that a span is unterminated. */
  function FlushText(st: State): Text {
    if |st.buf| > 0 then Text([], true) else Text(st.pend, false)
  }

  /** State after feeding all chunks. */
  function RunState(st: State, chunks: seq<Bytes>): State
    decreases |chunks|
  {
    if chunks == [] then st else RunState(NextState(st, chunks[0]), chunks[1..])
  }

  /** Everything the calls hand on, before the flush. */
  function RunOut(st: State, chunks: seq<Bytes>): Bytes
    decreases |chunks|
  {
    if chunks == [] then [] else Emitted(st, chunks[0]) + RunOut(NextState(st, chunks[0]), chunks[1..])
  }

  /** Everything handed on by feeding `chunks` and flushing, and the flush verdict. */
  function Total(st: State, chunks: seq<Bytes>): Text
    decreases |chunks|
  {
    if chunks == [] then FlushText(st)
    else Before(Emitted(st, chunks[0]), Total(NextState(st, chunks[0]), chunks[1..]))
  }

  lemma BeforeTwice(a: Bytes, b: Bytes, t: Text)
    ensures Before(a, Before(b, t)) == Before(a + b, t)
  {
    assert a + (b + t.out) == a + b + t.out;
  }

  lemma {:induction false} TotalIsRunThenFlush(st: State, chunks: seq<Bytes>)
    ensures Total(st, chunks) == Before(RunOut(st, chunks), FlushText(RunState(st, chunks)))
    decreases |chunks|
  {
    if chunks != [] {
      TotalIsRunThenFlush(NextState(st, chunks[0]), chunks[1..]);
      var n := NextState(st, chunks[0]);
      BeforeTwice(Emitted(st, chunks[0]), RunOut(n, chunks[1..]), FlushText(RunState(st, chunks)));
    }
  }

  // ---- the invariant ----

  /** Inside iff bytes are retained, they begin with an opener and scanning them again stays inside;
      a held prefix is a proper prefix of the opener and excludes retained bytes. */
  predicate Valid(st: State) {
    && (st.inside <==> st.buf != [])
    && (st.inside ==> HasPrefix(st.buf, OPEN) && Inside(st.buf).open && st.pend == [])
    && |st.pend| < |OPEN| && st.pend == OPEN[..|st.pend|]
  }

  /** Text between already closed spans that a retained buffer still carries. */
  function Replayed(st: State): Bytes {
    if st.inside then Inside(st.buf).out else []
  }

  /** Retained bytes that begin with the opener are scanned like the bytes behind it. */
  lemma RetainedScan(p: Bytes, y: Bytes)
    requires Index(p + y, OPEN) == |p|
    ensures HasPrefix(y, OPEN)
    ensures Outside(p + y).Visible() == Before(p, Inside(y).Visible())
  {
    AtShift(p, y, OPEN, 0);
    assert y[..|OPEN|] == OPEN;
    var z := y[|OPEN|..];
    assert y == OPEN + z;
    forall k | 0 <= k < |p|
      ensures !At(p + y, OPEN, k)
    {
    }
    OutsidePlainPrefix(p, y);
    OutsideAtOpener(z);
    InsideSkipsOpener(z);
  }

  lemma ValidKept(st: State, chunk: Bytes)
    requires Valid(st)
    ensures Valid(NextState(st, chunk))
  {
    var t, b := Scanned(st, chunk), st.pend + chunk;
    if Scans(st, chunk) {
      if ScanCall(st, chunk).open {
        RetainedFrom(st, chunk);
      }
    } else {
      assert b[|b| - Hold(b)..] == OPEN[..Hold(b)];
    }
  }

  /** Where the retained buffer of a call that ends inside a span begins. */
  lemma RetainedFrom(st: State, chunk: Bytes)
    requires Valid(st) && Scans(st, chunk) && ScanCall(st, chunk).open
    ensures var t, n := Scanned(st, chunk), NextState(st, chunk);
      && Index(t, OPEN) != -1 && n.buf == t[Index(t, OPEN)..]
      && HasPrefix(n.buf, OPEN) && Inside(n.buf).open
      && (st.inside ==> n.buf == t)
      && (!st.inside ==> ScanCall(st, chunk).out == t[..Index(t, OPEN)] + Inside(n.buf).out)
  {
    var t := Scanned(st, chunk);
    if st.inside {
      assert t[..|OPEN|] == st.buf[..|OPEN|];
      assert At(t, OPEN, 0);
      assert t[0..] == t;
    } else {
      assert t == st.pend + chunk;
      var k := Index(t, OPEN);
      assert t == t[..k] + t[k..];
      RetainedScan(t[..k], t[k..]);
    }
  }

  // ---- one call against the rest of the stream ----

  /** What removing the spans makes of `s` when the stripper is in state `st`. */
  function Rest(st: State, s: Bytes): Text {
    if st.inside then Inside(Inside(st.buf).rest + s).Visible() else Outside(st.pend + s).Visible()
  }

  /** The call closes a span, ends outside every span, and the text it hands on behind the last
      closer ends in the first part of an opener that `next` completes. */
  predicate CutCall(st: State, chunk: Bytes, next: Bytes) {
    Scans(st, chunk) && !ScanCall(st, chunk).open && CutsOpener(ScanCall(st, chunk).rest, next)
  }

  /** The scan of a call, continued over the bytes behind it, is what the rest should be. */
  lemma ScanContinues(st: State, chunk: Bytes, next: Bytes)
    requires Valid(st) && Scans(st, chunk)
    ensures Resumable(Scanned(st, chunk), ScanCall(st, chunk))
    ensures Continue(ScanCall(st, chunk), next) == Before(Replayed(st), Rest(st, chunk + next))
  {
    if st.inside {
      assert Scanned(st, chunk) == st.buf + chunk;
      InsideContinues(st.buf, chunk, next);
    } else {
      assert Scanned(st, chunk) == st.pend + chunk;
      OutsideContinues(st.pend, chunk, next);
    }
  }

  lemma InsideContinues(b: Bytes, c: Bytes, next: Bytes)
    requires Inside(b).open
    ensures Resumable(b + c, Inside(b + c))
    ensures Continue(Inside(b + c), next)
         == Before(Inside(b).out, Inside(Inside(b).rest + (c + next)).Visible())
  {
    InsideResumes(b + c, next);
    assert b + c + next == b + (c + next);
    InsideResumes(b, c + next);
  }

  lemma OutsideContinues(p: Bytes, c: Bytes, next: Bytes)
    ensures Resumable(p + c, Outside(p + c))
    ensures Continue(Outside(p + c), next) == Before([], Outside(p + (c + next)).Visible())
  {
    hide Outside, Continue, Resumable;
    OutsideResumes(p + c, next);
    assert p + c + next == p + (c + next);
    assert [] + Outside(p + (c + next)).out == Outside(p + (c + next)).out;
  }

  /** A retained buffer hands its closed text on again with every call. */
  lemma ReplayedFirst(st: State, chunk: Bytes)
    requires Valid(st)
    ensures HasPrefix(Emitted(st, chunk), Replayed(st))
  {
    if st.inside {
      InsideResumes(st.buf, chunk);
      assert Scanned(st, chunk) == st.buf + chunk;
    }
  }

  lemma CancelPrefix(x: Bytes, a: Bytes, u: Bytes, v: Bytes)
    requires x + a == u + v && HasPrefix(u, x)
    ensures a == u[|x|..] + v
  {
    assert (x + a)[|x|..] == a;
    assert (u + v)[|x|..] == u[|x|..] + v;
  }

  /** One call without a cut opener hands on its replayed text and then exactly its share. */
  lemma CallShare(st: State, chunk: Bytes, next: Bytes)
    requires Valid(st) && !CutCall(st, chunk, next)
    ensures HasPrefix(Emitted(st, chunk), Replayed(st))
    ensures Rest(st, chunk + next)
         == Before(Emitted(st, chunk)[|Replayed(st)|..], Rest(NextState(st, chunk), next))
  {
    ReplayedFirst(st, chunk);
    if Scans(st, chunk) {
      ScanShare(st, chunk, next);
    } else {
      PlainShare(st, chunk, next);
    }
    hide Emitted, Replayed, Rest, NextState, Scans, Valid, CutCall;
  }

  lemma PlainShare(st: State, chunk: Bytes, next: Bytes)
    requires Valid(st) && !Scans(st, chunk)
    ensures Replayed(st) == []
    ensures Rest(st, chunk + next) == Before(Emitted(st, chunk), Rest(NextState(st, chunk), next))
    ensures Emitted(st, chunk)[0..] == Emitted(st, chunk)
  {
    hide Inside, Outside, Hold;
    var b := st.pend + chunk;
    HoldShare(b, next);
    assert st.pend + (chunk + next) == b + next;
    assert b[..|b| - Hold(b)][0..] == b[..|b| - Hold(b)];
    hide HasSuffix, HasPrefix, Contains;
  }

  lemma HoldShare(b: Bytes, next: Bytes)
    requires Index(b, OPEN) == -1
    ensures Outside(b + next).Visible()
         == Before(b[..|b| - Hold(b)], Outside(b[|b| - Hold(b)..] + next).Visible())
  {
    var h := Hold(b);
    HeldIsFirst(b, next);
    assert b == b[..|b| - h] + b[|b| - h..];
    PlainPrefixOf(b[..|b| - h], b[|b| - h..], next, b + next);
  }

  lemma PlainPrefixOf(a: Bytes, y: Bytes, next: Bytes, all: Bytes)
    requires all == a + y + next
    requires forall k :: 0 <= k < |a| ==> !At(all, OPEN, k)
    ensures Outside(all).Visible() == Before(a, Outside(y + next).Visible())
  {
    assert all == a + (y + next);
    OutsidePlainPrefix(a, y + next);
  }

  lemma ScanShare(st: State, chunk: Bytes, next: Bytes)
    requires Valid(st) && Scans(st, chunk) && !CutCall(st, chunk, next)
    requires HasPrefix(Emitted(st, chunk), Replayed(st))
    ensures Rest(st, chunk + next)
         == Before(Emitted(st, chunk)[|Replayed(st)|..], Rest(NextState(st, chunk), next))
  {
    var n, e, r := NextState(st, chunk), Emitted(st, chunk), ScanCall(st, chunk);
    ScanContinues(st, chunk, next);
    if r.open {
      StaysOpen(st, chunk, next);
    } else {
      ClosedTail(r, next);
    }
    CancelPrefix(Replayed(st), Rest(st, chunk + next).out, e, Rest(n, next).out);
  }

  /** A scan that ended outside, with nothing cut, goes on from the fresh state. */
  lemma ClosedTail(r: Scan, next: Bytes)
    requires !r.open && HasSuffix(r.out, r.rest) && Index(r.rest, OPEN) == -1
    requires !CutsOpener(r.rest, next)
    ensures Continue(r, next) == Before(r.out, Rest(FRESH, next))
  {
    OutsideNoCut(r.rest, next);
    assert FRESH.pend + next == next;
    BeforeTwice(r.out[..|r.out| - |r.rest|], r.rest, Outside(next).Visible());
    assert r.out[..|r.out| - |r.rest|] + r.rest == r.out;
  }

  /** A span left open by this call is continued by the next state. */
  lemma StaysOpen(st: State, chunk: Bytes, next: Bytes)
    requires Valid(st) && Scans(st, chunk) && ScanCall(st, chunk).open
    ensures Inside(ScanCall(st, chunk).rest + next).Visible() == Rest(NextState(st, chunk), next)
  {
    RetainedFrom(st, chunk);
    if !st.inside {
      var t := Scanned(st, chunk);
      var k := Index(t, OPEN);
      var z := t[k + |OPEN|..];
      assert t[k..] == OPEN + z;
      InsideRestSkipsOpener(z, next);
    }
  }

  lemma InsideRestSkipsOpener(z: Bytes, next: Bytes)
    requires Inside(z).open
    ensures Inside(OPEN + z).open
    ensures Inside(Inside(OPEN + z).rest + next).Visible() == Inside(Inside(z).rest + next).Visible()
  {
    hide Inside, Outside, Resumable;
    InsideSkipsOpener(z);
    InsideSkipsOpener(z + next);
    InsideResumes(z, next);
    InsideResumes(OPEN + z, next);
    assert (OPEN + z) + next == OPEN + (z + next);
    var a, b := Inside(Inside(OPEN + z).rest + next).out, Inside(Inside(z).rest + next).out;
    CancelPrefix(Inside(z).out, a, Inside(z).out, b);
    assert Inside(z).out[|Inside(z).out|..] + b == b;
  }

  /** Nothing that starts in front of the held bytes can still become an opener. */
  lemma HeldIsFirst(b: Bytes, next: Bytes)
    requires Index(b, OPEN) == -1
    ensures forall k :: 0 <= k < |b| - Hold(b) ==> !At(b + next, OPEN, k)
  {
    forall k | 0 <= k < |b| - Hold(b)
      ensures !At(b + next, OPEN, k)
    {
      if At(b + next, OPEN, k) {
        if k + |OPEN| <= |b| {
          AtPrefix(b, next, OPEN, k);
        } else {
          CutFromAt(b, next, k);
        }
      }
    }
  }

  /** One call with a cut opener hands on strictly more than its share. */
  lemma CutCallExceeds(st: State, chunk: Bytes, next: Bytes)
    requires Valid(st) && CutCall(st, chunk, next)
    ensures |Rest(st, chunk + next).out| < |Emitted(st, chunk)| + |Rest(NextState(st, chunk), next).out|
  {
    ScanContinues(st, chunk, next);
    var r := ScanCall(st, chunk);
    var m: nat :| m < |OPEN| && CutsAt(r.rest, next, m);
    CutLoses(r.rest, next, m);
    assert FRESH.pend + next == next;
    assert Rest(NextState(st, chunk), next) == Outside(next).Visible();
    assert |Continue(r, next).out| == |r.out| - |r.rest| + |Outside(r.rest + next).out|;
  }

  lemma CutLoses(w: Bytes, next: Bytes, m: nat)
    requires Index(w, OPEN) == -1 && CutsAt(w, next, m)
    ensures |Outside(w + next).out| < |w| + |Outside(next).out|
  {
    OutsideCut(w, next, m);
    var y := next[|OPEN| - m..];
    assert next == OPEN[m..] + y;
    OutsideHalfOpener(m, y);
    InsideShowsLess(y);
  }

  // ---- whole runs ----

  /** The run never replays text and never forwards the first part of an opener that is completed
      later behind a closed span. */
  predicate Harmless(st: State, chunks: seq<Bytes>)
    decreases |chunks|
  {
    chunks == [] ||
    (Replayed(st) == [] && !CutCall(st, chunks[0], Concat(chunks[1..]))
     && Harmless(NextState(st, chunks[0]), chunks[1..]))
  }

  /** A run hands on at least what removing the spans leaves, and exactly that iff it is harmless. */
  lemma {:induction false} RunAgainstRest(st: State, chunks: seq<Bytes>)
    requires Valid(st)
    ensures |Rest(st, Concat(chunks)).out| <= |Total(st, chunks).out|
    ensures Total(st, chunks) == Rest(st, Concat(chunks)) <==> Harmless(st, chunks)
    decreases |chunks|
  {
    if chunks == [] {
      FlushIsRest(st);
    } else {
      var c, cs := chunks[0], chunks[1..];
      var n, x, e := NextState(st, c), Replayed(st), Emitted(st, c);
      ValidKept(st, c);
      RunAgainstRest(n, cs);
      ReplayedFirst(st, c);
      if CutCall(st, c, Concat(cs)) {
        CutCallExceeds(st, c, Concat(cs));
      } else {
        CallShare(st, c, Concat(cs));
        assert x == [] ==> e[|x|..] == e;
        SameTotalSameTail(e, Total(n, cs), Rest(n, Concat(cs)));
      }
    }
  }

  lemma SameTotalSameTail(e: Bytes, a: Text, b: Text)
    ensures Before(e, a) == Before(e, b) <==> a == b
  {
    assert (e + a.out)[|e|..] == a.out && (e + b.out)[|e|..] == b.out;
  }

  lemma FlushIsRest(st: State)
    requires Valid(st)
    ensures FlushText(st) == Rest(st, [])
  {
    if st.inside {
      var c := Inside(st.buf).rest;
      assert c + [] == c;
      CarryHasNoCloser(st.buf);
    } else {
      assert st.pend + [] == st.pend;
    }
  }

  /** Behind the opener that is still open there is no closer. */
  lemma {:induction false} CarryHasNoCloser(s: Bytes)
    ensures Inside(s).open ==> Inside(Inside(s).rest).Visible() == Text([], true)
    decreases |s|
  {
    var j := Index(s, CLOSE);
    if j != -1 {
      var t := s[j + |CLOSE|..];
      var i := Index(t, OPEN);
      if i != -1 {
        CarryHasNoCloser(t[i + |OPEN|..]);
      }
    }
  }

  /** The stripper against removing the spans from the whole stream, for every chunking. */
  lemma StripAgreesExactly(chunks: seq<Bytes>)
    ensures Total(FRESH, chunks) == Outside(Concat(chunks)).Visible() <==> Harmless(FRESH, chunks)
    ensures |Outside(Concat(chunks)).out| <= |Total(FRESH, chunks).out|
  {
    RunAgainstRest(FRESH, chunks);
    assert [] + Concat(chunks) == Concat(chunks);
  }

  // ---- sufficient conditions ----

  /** The scan of the call passes at least one closer. */
  predicate ClosesSpan(st: State, chunk: Bytes) {
    var t := Scanned(st, chunk);
    Scans(st, chunk) &&
    if st.inside || Index(t, OPEN) == -1 then Contains(t, CLOSE)
    else Contains(t[Index(t, OPEN) + |OPEN|..], CLOSE)
  }

  /** No call that closes a span ends inside another span or on a partial opener. */
  predicate CleanRun(st: State, chunks: seq<Bytes>)
    decreases |chunks|
  {
    chunks == [] ||
    ((ClosesSpan(st, chunks[0]) ==>
        !ScanCall(st, chunks[0]).open && !EndsOnPartial(ScanCall(st, chunks[0]).rest))
     && CleanRun(NextState(st, chunks[0]), chunks[1..]))
  }

  lemma {:induction false} CleanRunIsHarmless(st: State, chunks: seq<Bytes>)
    requires Valid(st) && Replayed(st) == [] && CleanRun(st, chunks)
    ensures Harmless(st, chunks)
    decreases |chunks|
  {
    if chunks != [] {
      ValidKept(st, chunks[0]);
      NothingReplayedNext(st, chunks[0]);
      CleanCallIsNotCut(st, chunks[0], Concat(chunks[1..]));
      CleanRunIsHarmless(NextState(st, chunks[0]), chunks[1..]);
    }
  }

  lemma NothingReplayedNext(st: State, chunk: Bytes)
    requires Valid(st) && (ClosesSpan(st, chunk) ==> !ScanCall(st, chunk).open)
    ensures Replayed(NextState(st, chunk)) == []
  {
    var t := Scanned(st, chunk);
    if Scans(st, chunk) && ScanCall(st, chunk).open {
      RetainedFrom(st, chunk);
      if st.inside {
        assert Inside(t) == Scan([], true, t);
      } else {
        var z := t[Index(t, OPEN) + |OPEN|..];
        assert t[Index(t, OPEN)..] == OPEN + z;
        InsideSkipsOpener(z);
        assert Inside(z) == Scan([], true, z);
      }
    }
  }

  lemma CleanCallIsNotCut(st: State, chunk: Bytes, next: Bytes)
    requires Valid(st)
    requires ClosesSpan(st, chunk) ==> !ScanCall(st, chunk).open && !EndsOnPartial(ScanCall(st, chunk).rest)
    ensures !CutCall(st, chunk, next)
  {
    if CutCall(st, chunk, next) {
      var w := ScanCall(st, chunk).rest;
      var m: nat :| m < |OPEN| && CutsAt(w, next, m);
      assert HasSuffix(w, OPEN[..m]);
      ClosedCallClosesSpan(st, chunk);
    }
  }

  lemma ClosedCallClosesSpan(st: State, chunk: Bytes)
    requires Valid(st) && Scans(st, chunk) && !ScanCall(st, chunk).open
    ensures ClosesSpan(st, chunk)
  {
    ScannedHasOpener(st, chunk);
    var t := Scanned(st, chunk);
    if st.inside {
      assert Index(t, CLOSE) != -1;
    } else {
      var z := t[Index(t, OPEN) + |OPEN|..];
      assert ScanCall(st, chunk).open == Inside(z).open && Index(z, CLOSE) != -1;
    }
  }

  /** Any number of spans: chunked removal is whole-stream removal when every call that closes a
      span ends outside all spans and not on a partial opener. */
  lemma StripAgreesOnCleanRuns(chunks: seq<Bytes>)
    requires CleanRun(FRESH, chunks)
    ensures Total(FRESH, chunks) == Outside(Concat(chunks)).Visible()
  {
    CleanRunIsHarmless(FRESH, chunks);
    StripAgreesExactly(chunks);
  }

  ghost predicate AtMostOneOpener(s: Bytes) {
    forall i, j :: At(s, OPEN, i) && At(s, OPEN, j) ==> i == j
  }

  /** The bytes of the stream that are not resolved yet: held or retained ones, then `s`. */
  function Unresolved(st: State, s: Bytes): Bytes { (if st.inside then st.buf else st.pend) + s }

  lemma OpenersOfSuffix(s: Bytes, k: nat)
    requires k <= |s| && AtMostOneOpener(s)
    ensures AtMostOneOpener(s[k..])
  {
    assert s == s[..k] + s[k..];
    forall i, j | At(s[k..], OPEN, i) && At(s[k..], OPEN, j)
      ensures i == j
    {
      AtShift(s[..k], s[k..], OPEN, i);
      AtShift(s[..k], s[k..], OPEN, j);
    }
  }

  /** With one opener left nothing was closed in front of the span that is still open. */
  lemma OneOpenerReplaysNothing(b: Bytes)
    requires HasPrefix(b, OPEN) && Inside(b).open && AtMostOneOpener(b)
    ensures Inside(b).out == []
  {
    var j := Index(b, CLOSE);
    if j != -1 {
      var t := b[j + |CLOSE|..];
      assert b == b[..j + |CLOSE|] + t;
      var i := Index(t, OPEN);
      AtShift(b[..j + |CLOSE|], t, OPEN, i);
      assert At(b, OPEN, j + |CLOSE| + i);
      assert b[..|OPEN|] == OPEN;
      assert At(b, OPEN, 0);
    }
  }

  /** With one opener left, none can be cut behind a span that this call closes. */
  lemma OneOpenerIsNotCut(st: State, chunk: Bytes, next: Bytes)
    requires Valid(st) && AtMostOneOpener(Scanned(st, chunk) + next)
    ensures !CutCall(st, chunk, next)
  {
    if CutCall(st, chunk, next) {
      var t, r := Scanned(st, chunk), ScanCall(st, chunk);
      ScanContinues(st, chunk, next);
      ScannedHasOpener(st, chunk);
      var m: nat :| m < |OPEN| && CutsAt(r.rest, next, m);
      hide Valid, ScanCall, Scans, Scanned, Continue, Rest, Replayed;
      CutOfSuffix(t, r.rest, next, m);
      CutIsOpener(t, next, m);
      AtPrefix(t, next, OPEN, Index(t, OPEN));
    }
  }

  lemma CutOfSuffix(t: Bytes, w: Bytes, next: Bytes, m: nat)
    requires HasSuffix(t, w) && CutsAt(w, next, m)
    ensures CutsAt(t, next, m)
  {
    assert w[|w| - m..] == t[|t| - m..];
  }

  /** A cut opener is an opener of the whole. */
  lemma CutIsOpener(t: Bytes, next: Bytes, m: nat)
    requires CutsAt(t, next, m)
    ensures At(t + next, OPEN, |t| - m)
  {
    CutJoins(t, next, m);
    var y := next[|OPEN| - m..];
    AtShift(t[..|t| - m], OPEN + y, OPEN, 0);
    assert At(OPEN + y, OPEN, 0);
  }

  lemma ScannedHasOpener(st: State, chunk: Bytes)
    requires Valid(st) && Scans(st, chunk)
    ensures Index(Scanned(st, chunk), OPEN) != -1
  {
    if st.inside {
      assert st.buf[..|OPEN|] == Scanned(st, chunk)[..|OPEN|];
      assert At(Scanned(st, chunk), OPEN, 0);
    } else {
      assert Scanned(st, chunk) == st.pend + chunk;
    }
  }

  lemma SuffixExtends(t: Bytes, k: nat, next: Bytes)
    requires k <= |t|
    ensures t[k..] + next == (t + next)[k..] && t[|t|..] == []
  {
  }

  /** The state behind a call, by the verdict of its scan. */
  lemma StateAfter(st: State, chunk: Bytes)
    ensures var t, n := Scanned(st, chunk), NextState(st, chunk);
      if Scans(st, chunk) then
        if ScanCall(st, chunk).open then
          n == State(true, t[(if Index(t, OPEN) == -1 then 0 else Index(t, OPEN))..], [])
        else n == FRESH
      else !n.inside && n.pend == (st.pend + chunk)[|st.pend + chunk| - Hold(st.pend + chunk)..]
  {
    hide Inside, Outside, Contains;
  }

  /** What the bytes left unresolved by a call are. */
  lemma UnresolvedAfter(st: State, chunk: Bytes) returns (k: nat)
    requires Valid(st)
    ensures k <= |Scanned(st, chunk)|
    ensures Unresolved(NextState(st, chunk), []) == Scanned(st, chunk)[k..]
  {
    var t := Scanned(st, chunk);
    StateAfter(st, chunk);
    assert !Scans(st, chunk) ==> t == st.pend + chunk;
    hide NextState, ScanCall, Scans, Scanned, Valid;
    k := if !Scans(st, chunk) then |t| - Hold(t)
      else if !ScanCall(st, chunk).open then |t|
      else if Index(t, OPEN) == -1 then 0 else Index(t, OPEN);
    assert t[k..] + [] == t[k..] && t[|t|..] == [];
  }

  /** A call only resolves bytes at the front: `k` of them. */
  lemma UnresolvedShrinks(st: State, chunk: Bytes, next: Bytes) returns (k: nat)
    requires Valid(st)
    ensures k <= |Scanned(st, chunk) + next|
    ensures Unresolved(NextState(st, chunk), next) == (Scanned(st, chunk) + next)[k..]
  {
    hide Valid, NextState;
    k := UnresolvedAfter(st, chunk);
    var n := NextState(st, chunk);
    var u := if n.inside then n.buf else n.pend;
    assert u + [] == u;
    SuffixExtends(Scanned(st, chunk), k, next);
  }

  lemma {:induction false} OneOpenerIsHarmless(st: State, chunks: seq<Bytes>)
    requires Valid(st) && AtMostOneOpener(Unresolved(st, Concat(chunks)))
    ensures Harmless(st, chunks)
    decreases |chunks|
  {
    if chunks != [] {
      var c, next := chunks[0], Concat(chunks[1..]);
      var u := Unresolved(st, c + next);
      if st.inside {
        OpenersOfPrefix(st.buf, c + next);
        OneOpenerReplaysNothing(st.buf);
      }
      assert u == Scanned(st, c) + next;
      OneOpenerIsNotCut(st, c, next);
      var k := UnresolvedShrinks(st, c, next);
      OpenersOfSuffix(u, k);
      ValidKept(st, c);
      OneOpenerIsHarmless(NextState(st, c), chunks[1..]);
    }
  }

  lemma OpenersOfPrefix(a: Bytes, b: Bytes)
    requires AtMostOneOpener(a + b)
    ensures AtMostOneOpener(a)
  {
    forall i, j | At(a, OPEN, i) && At(a, OPEN, j)
      ensures i == j
    {
      AtPrefix(a, b, OPEN, i);
      AtPrefix(a, b, OPEN, j);
    }
  }

  /** `s` without the span its first opener begins. */
  function WithoutSpan(s: Bytes): Text {
    var i := Index(s, OPEN);
    if i == -1 then Text(s, false)
    else
      var t := s[i + |OPEN|..];
      var j := Index(t, CLOSE);
      if j == -1 then Text(s[..i], true) else Text(s[..i] + t[j + |CLOSE|..], false)
  }

  /** A stream with at most one opener, cut in any way: the span is removed, and the stream is
      reported unterminated exactly when no closer follows the opener. */
  lemma StripOneSpan(chunks: seq<Bytes>)
    requires AtMostOneOpener(Concat(chunks))
    ensures Total(FRESH, chunks) == WithoutSpan(Concat(chunks))
  {
    hide AtMostOneOpener, Valid, Concat, Harmless, Total, WithoutSpan, Outside;
    var s := Concat(chunks);
    FreshIsValid();
    assert Unresolved(FRESH, s) == s;
    OneOpenerIsHarmless(FRESH, chunks);
    StripAgreesExactly(chunks);
    OneSpanScan(s);
  }

  lemma FreshIsValid()
    ensures Valid(FRESH)
  {
  }

  lemma OneSpanScan(s: Bytes)
    requires AtMostOneOpener(s)
    ensures Outside(s).Visible() == WithoutSpan(s)
  {
    if Index(s, OPEN) != -1 {
      OneSpanRemoved(s);
    }
  }

  lemma OneSpanRemoved(s: Bytes)
    requires AtMostOneOpener(s) && Index(s, OPEN) != -1
    ensures Outside(s).Visible() == WithoutSpan(s)
  {
    var i := Index(s, OPEN);
    var t := s[i + |OPEN|..];
    var j := Index(t, CLOSE);
    if j == -1 {
      assert s[..i] + [] == s[..i];
    } else {
      var z := t[j + |CLOSE|..];
      assert z == s[i + |OPEN| + j + |CLOSE|..];
      NoSecondOpener(s, i, i + |OPEN| + j + |CLOSE|);
      assert Inside(t) == Outside(z) == Scan(z, false, z);
    }
  }

  lemma NoSecondOpener(s: Bytes, i: nat, k: nat)
    requires AtMostOneOpener(s) && At(s, OPEN, i) && i < k <= |s|
    ensures Index(s[k..], OPEN) == -1
  {
    assert s == s[..k] + s[k..];
    AtShift(s[..k], s[k..], OPEN, Index(s[k..], OPEN));
  }

  // ---- where the code is narrower than its comment ----

  /** A first chunk that closes a span, goes on with text and ends inside another span: whatever
      the next chunk is, the text between the two spans is handed on twice. */
  lemma TextBetweenSpansIsRepeated(b: Bytes, c: Bytes)
    requires Inside(b).open && Inside(b).out != []
    ensures Total(FRESH, [OPEN + b, c]) != Outside(Concat([OPEN + b, c])).Visible()
  {
    RetainsAll(b);
    StripAgreesExactly([OPEN + b, c]);
  }

  /** A first chunk that is an unclosed span is retained whole, closed parts and all. */
  lemma RetainsAll(b: Bytes)
    requires Inside(b).open
    ensures Replayed(NextState(FRESH, OPEN + b)) == Inside(b).out
  {
    var a := OPEN + b;
    assert At(a, OPEN, 0);
    assert FRESH.pend + a == a && FRESH.buf + a == a && a[0..] == a && a[7..] == b;
    InsideSkipsOpener(b);
  }

  lemma TwoSpansExample() returns (b: Bytes)
    ensures b == CLOSE + ("b" + OPEN) && Inside(b).Visible() == Text("b", true)
  {
    hide Inside, Outside, Index;
    b := CLOSE + ("b" + OPEN);
    InsideAtCloser("b" + OPEN);
    ByteBeforeOpener("b", []);
    assert OPEN + [] == OPEN;
    OutsideAtOpener([]);
    NothingInside();
    assert "b" + [] == "b";
  }

  lemma NothingInside()
    ensures Inside([]).Visible() == Text([], true)
  {
  }

  lemma ByteBeforeOpener(a: Bytes, y: Bytes)
    requires |a| == 1 && a[0] != OPEN[0]
    ensures Outside(a + (OPEN + y)).Visible() == Before(a, Outside(OPEN + y).Visible())
  {
    assert (a + (OPEN + y))[0] == a[0];
    assert !At(a + (OPEN + y), OPEN, 0);
    OutsidePlainPrefix(a, OPEN + y);
  }

  lemma InsideAtCloser(y: Bytes)
    ensures Inside(CLOSE + y).Visible() == Outside(y).Visible()
  {
    assert At(CLOSE + y, CLOSE, 0);
    assert (CLOSE + y)[|CLOSE|..] == y;
  }

  /** A first chunk that closes a span and ends in the first part of an opener hands that part on
      although the second chunk completes it. */
  lemma OpenerBehindCloserIsMissed(b: Bytes, c: Bytes)
    requires !Inside(b).open && CutsOpener(Inside(b).rest, c)
    ensures Total(FRESH, [OPEN + b, c]) != Outside(Concat([OPEN + b, c])).Visible()
  {
    var a := OPEN + b;
    assert At(a, OPEN, 0);
    assert FRESH.pend + a == a && FRESH.buf + a == a && a[7..] == b;
    assert ScanCall(FRESH, a).rest == Inside(b).rest;
    assert Concat([a, c][1..]) == c + Concat([]) == c;
    StripAgreesExactly([a, c]);
  }

  lemma MissedOpenerExample() returns (b: Bytes, c: Bytes)
    ensures b == "1</think><th" && c == "ink>x"
    ensures !Inside(b).open && CutsOpener(Inside(b).rest, c)
  {
    b, c := "1</think><th", "ink>x";
    assert b[0] != CLOSE[0];
    assert At(b, CLOSE, 1);
    var w := b[9..];
    assert w == "<th" && Inside(b) == Outside(w) == Scan(w, false, w);
    assert CutsAt(w, c, 3);
  }

  /** Even removing the spans at once can leave an opener behind: what surrounds a span may join.
      `OpenerLeftExactly` says when. */
  lemma RemovalCanJoinAnOpener()
    ensures Outside("<th" + (OPEN + (CLOSE + "ink>"))).Visible() == Text(OPEN, false)
    ensures Joins("<th" + (OPEN + (CLOSE + "ink>")))
  {
    hide Inside, Outside, Index, Joins;
    var a, z := "<th", "ink>";
    assert a == OPEN[..3] && a + z == OPEN;
    NoOpenerBeforeOpener(a, CLOSE + z);
    OutsidePlainPrefix(a, OPEN + (CLOSE + z));
    OutsideAtOpener(CLOSE + z);
    InsideAtCloser(z);
    ShortTextIsPlain(z);
    OpenerLeftExactly(a + (OPEN + (CLOSE + z)));
    assert At(OPEN, OPEN, 0);
  }

  lemma ShortTextIsPlain(z: Bytes)
    requires |z| < |OPEN|
    ensures Outside(z).Visible() == Text(z, false)
  {
  }

  /** What chunked stripping hands on holds an opener exactly if the stream joins to one, provided the
      chunking agrees with removing the spans at once. */
  lemma StrippedOutputHoldsOpener(chunks: seq<Bytes>)
    requires Harmless(FRESH, chunks)
    ensures Contains(Total(FRESH, chunks).out, OPEN) <==> Joins(Concat(chunks))
  {
    hide Harmless, Total, Outside, Joins;
    StripAgreesExactly(chunks);
    OpenerLeftExactly(Concat(chunks));
  }

  lemma NoOpenerBeforeOpener(a: Bytes, y: Bytes)
    requires a == OPEN[..3]
    ensures forall k :: 0 <= k < |a| ==> !At(a + (OPEN + y), OPEN, k)
  {
    var s := a + (OPEN + y);
    assert s[0] == OPEN[0] && s[1] == OPEN[1] && s[2] == OPEN[2] && s[3] == OPEN[0];
    forall k | 0 <= k < |a|
      ensures !At(s, OPEN, k)
    {
      if At(s, OPEN, k) {
        AtByte(s, OPEN, k, 3 - k);
      }
    }
  }

  // ---- the stripper its comment describes ----

  /** Retains from the opener that is still open, and always holds back a partial opener. */
  datatype Intended = Intended(inside: bool, held: Bytes)

  function IntendedScan(st: Intended, chunk: Bytes): Scan {
    if st.inside then Inside(st.held + chunk) else Outside(st.held + chunk)
  }

  function IntendedNext(st: Intended, chunk: Bytes): Intended {
    var r := IntendedScan(st, chunk);
    if r.open then Intended(true, r.rest) else Intended(false, r.rest[|r.rest| - Hold(r.rest)..])
  }

  function IntendedEmit(st: Intended, chunk: Bytes): Bytes {
    var r := IntendedScan(st, chunk);
    if r.open || |r.out| < Hold(r.rest) then r.out else r.out[..|r.out| - Hold(r.rest)]
  }

  function IntendedTotal(st: Intended, chunks: seq<Bytes>): Text
    decreases |chunks|
  {
    if chunks == [] then if st.inside then Text([], true) else Text(st.held, false)
    else Before(IntendedEmit(st, chunks[0]), IntendedTotal(IntendedNext(st, chunks[0]), chunks[1..]))
  }

  function IntendedRest(st: Intended, s: Bytes): Text {
    (if st.inside then Inside(st.held + s) else Outside(st.held + s)).Visible()
  }

  lemma IntendedShare(st: Intended, chunk: Bytes, next: Bytes)
    ensures IntendedRest(st, chunk + next)
         == Before(IntendedEmit(st, chunk), IntendedRest(IntendedNext(st, chunk), next))
  {
    var r := IntendedScan(st, chunk);
    IntendedContinues(st, chunk, next);
    if !r.open {
      HeldTail(r, next);
    }
    hide Inside, Outside, IntendedScan, Hold;
  }

  lemma IntendedContinues(st: Intended, chunk: Bytes, next: Bytes)
    ensures Resumable(st.held + chunk, IntendedScan(st, chunk))
    ensures IntendedRest(st, chunk + next) == Continue(IntendedScan(st, chunk), next)
  {
    assert st.held + (chunk + next) == st.held + chunk + next;
    if st.inside {
      InsideResumes(st.held + chunk, next);
    } else {
      OutsideResumes(st.held + chunk, next);
    }
  }

  /** A scan that ended outside goes on from the bytes held back behind its last closer. */
  lemma HeldTail(r: Scan, next: Bytes)
    requires !r.open && HasSuffix(r.out, r.rest) && Index(r.rest, OPEN) == -1
    ensures Continue(r, next) == Before(r.out[..|r.out| - Hold(r.rest)],
                                        Outside(r.rest[|r.rest| - Hold(r.rest)..] + next).Visible())
  {
    HoldShare(r.rest, next);
    var o, h := r.out[..|r.out| - |r.rest|], Hold(r.rest);
    BeforeTwice(o, r.rest[..|r.rest| - h], Outside(r.rest[|r.rest| - h..] + next).Visible());
    assert o + r.rest[..|r.rest| - h] == r.out[..|r.out| - h];
  }

  /** The intended stripper removes the spans of every stream under every chunking. */
  lemma {:induction false} IntendedAgrees(st: Intended, chunks: seq<Bytes>)
    requires if st.inside then Index(st.held, CLOSE) == -1 else Index(st.held, OPEN) == -1
    ensures IntendedTotal(st, chunks) == IntendedRest(st, Concat(chunks))
    decreases |chunks|
  {
    if chunks == [] {
      assert st.held + [] == st.held;
    } else {
      IntendedShare(st, chunks[0], Concat(chunks[1..]));
      IntendedNextHeld(st, chunks[0]);
      IntendedAgrees(IntendedNext(st, chunks[0]), chunks[1..]);
    }
  }

  lemma IntendedNextHeld(st: Intended, chunk: Bytes)
    ensures var n := IntendedNext(st, chunk);
      if n.inside then Index(n.held, CLOSE) == -1 else Index(n.held, OPEN) == -1
  {
    var b, r := st.held + chunk, IntendedScan(st, chunk);
    if r.open {
      if st.inside { InsideRestHasNoCloser(b); } else { OutsideRestHasNoCloser(b); }
    }
  }

  lemma {:induction false} InsideRestHasNoCloser(s: Bytes)
    ensures Inside(s).open ==> Index(Inside(s).rest, CLOSE) == -1
    decreases |s|
  {
    var j := Index(s, CLOSE);
    if j != -1 {
      OutsideRestHasNoCloser(s[j + |CLOSE|..]);
    }
  }

  lemma {:induction false} OutsideRestHasNoCloser(s: Bytes)
    ensures Outside(s).open ==> Index(Outside(s).rest, CLOSE) == -1
    decreases |s|
  {
    var i := Index(s, OPEN);
    if i != -1 {
      InsideRestHasNoCloser(s[i + |OPEN|..]);
    }
  }

  // ---- the class ----

  /** One turn of the scanning loop. */
  lemma ScanStep(t: Bytes)
    ensures Index(t, CLOSE) == -1 ==> Inside(t).out == [] && Inside(t).open
    ensures Index(t, CLOSE) != -1 ==>
      Index(t, CLOSE) + |CLOSE| <= |t| && Inside(t) == Outside(t[Index(t, CLOSE) + |CLOSE|..])
    ensures Index(t, OPEN) == -1 ==> Outside(t).out == t && !Outside(t).open
    ensures Index(t, OPEN) != -1 ==>
      && Index(t, OPEN) + |OPEN| <= |t|
      && Outside(t).out == t[..Index(t, OPEN)] + Inside(t[Index(t, OPEN) + |OPEN|..]).out
      && Outside(t).open == Inside(t[Index(t, OPEN) + |OPEN|..]).open
  {
  }

  class ThinkStripper {
    var insideThinkTag: bool
    var thinkBuf: Bytes
    var tagPrefixPending: Bytes

    function St(): State
      reads this
    {
      State(insideThinkTag, thinkBuf, tagPrefixPending)
    }

    constructor ()
      ensures St() == FRESH && Valid(St())
    {
      insideThinkTag, thinkBuf, tagPrefixPending := false, [], [];
    }

    /** Feeds one chunk and returns the bytes that may be handed on. */
    method Process(chunk: Bytes) returns (forward: Bytes)
      modifies this
      ensures St() == NextState(old(St()), chunk)
      ensures forward == Emitted(old(St()), chunk)
      ensures Valid(old(St())) ==> Valid(St())
    {
      ghost var st := St();
      var buf := chunk;
      if |tagPrefixPending| > 0 {
        buf := tagPrefixPending + chunk;
        tagPrefixPending := [];
      }
      assert buf == st.pend + chunk;
      if Valid(st) {
        ValidKept(st, chunk);
      }
      if insideThinkTag || Contains(buf, OPEN) {
        thinkBuf := thinkBuf + buf;
        forward := Scan();
        if insideThinkTag {
          var spanStart := Index(thinkBuf, OPEN);
          if spanStart == -1 {
            spanStart := 0;
          }
          thinkBuf := thinkBuf[spanStart..];
          return;
        }
        thinkBuf := [];
        return;
      }
      var hold := HoldLength(buf);
      if hold > 0 {
        tagPrefixPending := buf[|buf| - hold..];
        return buf[..|buf| - hold];
      }
      assert buf[|buf|..] == [] && buf[..|buf|] == buf;
      return buf;
    }

    /** The hold-back loop of `Process`: how many trailing bytes may begin an opener. */
    method HoldLength(buf: Bytes) returns (hold: nat)
      ensures hold == Hold(buf)
    {
      var l := 6;
      while l >= 1
        invariant 0 <= l <= 6
        invariant HoldFrom(buf, l) == Hold(buf)
      {
        if |buf| >= l && buf[|buf| - l..] == OPEN[..l] {
          return l;
        }
        l := l - 1;
      }
      return 0;
    }

    /** The scanning loop of `Process`: walks the whole buffer from its start. */
    method Scan() returns (out: Bytes)
      modifies this`insideThinkTag
      ensures var r := if old(insideThinkTag) then Inside(thinkBuf) else Outside(thinkBuf);
        out == r.out && insideThinkTag == r.open
    {
      hide Inside, Outside;
      ghost var r := if insideThinkTag then Inside(thinkBuf) else Outside(thinkBuf);
      out := [];
      var pos := 0;
      assert thinkBuf[0..] == thinkBuf;
      assert forall q: Bytes :: [] + q == q;
      while true
        invariant 0 <= pos <= |thinkBuf|
        invariant var q := if insideThinkTag then Inside(thinkBuf[pos..]) else Outside(thinkBuf[pos..]);
          r.out == out + q.out && r.open == q.open
        decreases |thinkBuf| - pos
      {
        var tail := thinkBuf[pos..];
        ScanStep(tail);
        if insideThinkTag {
          var endIdx := Index(tail, CLOSE);
          if endIdx == -1 {
            return;
          }
          insideThinkTag := false;
          pos := pos + endIdx + |CLOSE|;
          assert thinkBuf[pos..] == tail[endIdx + |CLOSE|..];
        } else {
          var startIdx := Index(tail, OPEN);
          if startIdx == -1 {
            out := out + tail;
            return;
          }
          ghost var q := Inside(tail[startIdx + |OPEN|..]).out;
          assert out + (tail[..startIdx] + q) == out + tail[..startIdx] + q;
          out := out + tail[..startIdx];
          insideThinkTag := true;
          pos := pos + startIdx + |OPEN|;
          assert thinkBuf[pos..] == tail[startIdx + |OPEN|..];
        }
      }
    }

    /** Whether an unclosed span is still buffered. */
    method Unterminated() returns (r: bool)
      ensures r == FlushText(St()).open
    {
      r := |thinkBuf| > 0;
    }

    /** Clean end of the stream: the held prefix, or the verdict that a span is unterminated. */
    method Flush() returns (forward: Bytes, unterminated: bool)
      modifies this`tagPrefixPending
      ensures Text(forward, unterminated) == FlushText(old(St()))
      ensures unterminated ==> tagPrefixPending == old(tagPrefixPending)
      ensures !unterminated ==> tagPrefixPending == []
    {
      if |thinkBuf| > 0 {
        return [], true;
      }
      if |tagPrefixPending| > 0 {
        forward := tagPrefixPending;
        tagPrefixPending := [];
        return forward, false;
      }
      return [], false;
    }
  }
}
