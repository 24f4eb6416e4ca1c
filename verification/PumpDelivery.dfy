/** The pump together with its stages, from the bytes the upstream sent to the bytes the client was
    written: when the whole is the whole-stream function of the stages, and where the two held tails
    get out of order. */
module PumpDelivery {
  import opened ByteStrings
  import opened TextLines
  import opened FrameClassification
  import opened Eom
  import opened SseEvents
  import opened PumpModel
  import opened PumpSafety
  import TS = ThinkStripping
  import Spans = ThinkSpans
  import FF = FrameFiltering

  // ---- the stages of a run as runs of the stages ----

  /** What the think stage handed on, chunk by chunk. */
  function StripOuts(chunks: seq<Bytes>): seq<Bytes> {
    if chunks == [] then []
    else
      var n := |chunks| - 1;
      StripOuts(chunks[..n]) + [TS.Emitted(TS.RunState(TS.FRESH, chunks[..n]), chunks[n])]
  }

  /** The chunks that reach the frame filter. */
  function FilterInput(o: Options, chunks: seq<Bytes>): seq<Bytes> {
    if o.strip then StripOuts(chunks) else chunks
  }

  lemma {:induction false} StripSnoc(st: TS.State, chunks: seq<Bytes>, x: Bytes)
    ensures TS.RunState(st, chunks + [x]) == TS.NextState(TS.RunState(st, chunks), x)
    ensures TS.RunOut(st, chunks + [x]) == TS.RunOut(st, chunks) + TS.Emitted(TS.RunState(st, chunks), x)
    decreases |chunks|
  {
    hide TS.NextState, TS.Emitted;
    if chunks == [] {
      assert ([] + [x])[1..] == [];
    } else {
      assert (chunks + [x])[1..] == chunks[1..] + [x];
      StripSnoc(TS.NextState(st, chunks[0]), chunks[1..], x);
    }
  }

  lemma {:induction false} FilterSnoc(p: Bytes, chunks: seq<Bytes>, x: Bytes)
    ensures FF.RunPending(p, chunks + [x]) == FF.NextPending(FF.RunPending(p, chunks), x)
    ensures FF.RunOut(p, chunks + [x]) == FF.RunOut(p, chunks) + FF.Emitted(FF.RunPending(p, chunks), x)
    decreases |chunks|
  {
    hide FF.NextPending, FF.Emitted;
    if chunks == [] {
      assert ([] + [x])[1..] == [];
    } else {
      assert (chunks + [x])[1..] == chunks[1..] + [x];
      FilterSnoc(FF.NextPending(p, chunks[0]), chunks[1..], x);
    }
  }

  lemma {:induction false} StripOutsConcat(chunks: seq<Bytes>)
    ensures Concat(StripOuts(chunks)) == TS.RunOut(TS.FRESH, chunks)
    decreases |chunks|
  {
    hide TS.NextState, TS.Emitted;
    if chunks != [] {
      var n := |chunks| - 1;
      assert chunks == chunks[..n] + [chunks[n]];
      StripOutsConcat(chunks[..n]);
      StripSnoc(TS.FRESH, chunks[..n], chunks[n]);
      ConcatSnoc(StripOuts(chunks[..n]), TS.Emitted(TS.RunState(TS.FRESH, chunks[..n]), chunks[n]));
    }
  }

  /** The stages of an OpenAI stream are the stripper followed by the filter. */
  lemma {:induction false} StagesAreRuns(o: Options, chunks: seq<Bytes>)
    requires Filters(o)
    ensures var st := RunStages(o, chunks);
      && st.think == (if o.strip then TS.RunState(TS.FRESH, chunks) else TS.FRESH)
      && st.pending == FF.RunPending([], FilterInput(o, chunks))
      && st.out == FF.RunOut([], FilterInput(o, chunks))
    decreases |chunks|
  {
    hide TS.NextState, TS.Emitted, FF.NextPending, FF.Emitted, Analyzed;
    if chunks != [] {
      var n := |chunks| - 1;
      var cs, x := chunks[..n], chunks[n];
      assert chunks == cs + [x];
      StagesAreRuns(o, cs);
      StripSnoc(TS.FRESH, cs, x);
      var y := if o.strip then TS.Emitted(TS.RunState(TS.FRESH, cs), x) else x;
      FilterSnoc([], FilterInput(o, cs), y);
      assert FilterInput(o, chunks) == FilterInput(o, cs) + [y];
    }
  }

  /** Every other stream goes through unchanged. */
  lemma {:induction false} StagesPassThrough(o: Options, chunks: seq<Bytes>)
    requires !Filters(o)
    ensures var st := RunStages(o, chunks);
      st.think == TS.FRESH && st.pending == [] && st.out == Concat(chunks)
    decreases |chunks|
  {
    hide Analyzed;
    if chunks != [] {
      var n := |chunks| - 1;
      assert chunks == chunks[..n] + [chunks[n]];
      StagesPassThrough(o, chunks[..n]);
      ConcatSnoc(chunks[..n], chunks[n]);
    }
  }

  // ---- end to end ----

  /** Verbatim streams: status 200 means that exactly the upstream bytes were written, in order. */
  lemma VerbatimDelivery(c: Config, s: State, r: Result)
    requires Reachable(c, s) && r in s.out.results && r.status == 200 && !Filters(c.o)
    ensures PayloadOf(s.out.wire) == c.upstream
  {
    hide Reachable, RunStages, PayloadOf, Unterminated;
    Status200IsComplete(c, s, r);
    StagesPassThrough(c.o, s.up.read);
    assert Concat(s.up.read) + ([] + []) == Concat(s.up.read);
  }

  /** `p` is a number of copies of `f`. */
  predicate Copies(p: Bytes, f: Bytes)
    requires f != []
    decreases |p|
  {
    p == [] || (HasPrefix(p, f) && Copies(p[|f|..], f))
  }

  /** The two held tails are forwarded in stream order: one is empty, or the older repeats the newer. */
  predicate TailsInOrder(forward: Bytes, pending: Bytes) {
    forward == [] || Copies(pending, forward)
  }

  lemma {:induction false} CommuteIffCopies(k: nat, p: Bytes)
    requires 1 <= k < |Spans.OPEN|
    ensures Spans.OPEN[..k] + p == p + Spans.OPEN[..k] <==> Copies(p, Spans.OPEN[..k])
    decreases |p|
  {
    var f := Spans.OPEN[..k];
    if p == [] {
      assert f + [] == [] + f;
    } else if k <= |p| {
      var q := p[k..];
      CommuteIffCopies(k, q);
      assert (f + p)[..k] == f && (p + f)[..k] == p[..k];
      if HasPrefix(p, f) {
        assert p == f + q;
        assert (f + p)[k..] == f + q && (p + f)[k..] == q + f;
      }
    } else {
      assert (f + p)[k] == p[0];
      assert (f + p)[0] == f[0] && (p + f)[0] == p[0] && (p + f)[|p|] == f[0] && (f + p)[|p|] == f[|p|];
      assert f[|p|] == Spans.OPEN[|p|];
    }
  }

  /** A held prefix contains no newline, so it extends the verbatim end of the filtered stream. */
  lemma DropReleasedTail(s: Bytes, k: nat)
    requires k < |Spans.OPEN|
    ensures FF.DropReleased(s + Spans.OPEN[..k]) == FF.DropReleased(s) + Spans.OPEN[..k]
  {
    hide FF.DropBare;
    var f := Spans.OPEN[..k];
    var i, j := LastIndex(s, FF.BLANK), LastIndex(s + f, FF.BLANK);
    FF.BlankAt(s + f, j);
    FF.BlankAt(s, j);
    FF.BlankAt(s + f, i);
    FF.BlankAt(s, i);
    assert i == j;
    if i != -1 {
      assert (s + f)[..i + 2] == s[..i + 2] && (s + f)[i + 2..] == s[i + 2..] + f;
      assert FF.DropBare(s[..i + 2]) + s[i + 2..] + f == FF.DropBare(s[..i + 2]) + (s[i + 2..] + f);
    }
  }

  lemma {:induction false} RunStateValid(st: TS.State, chunks: seq<Bytes>)
    requires TS.Valid(st)
    ensures TS.Valid(TS.RunState(st, chunks))
    decreases |chunks|
  {
    hide TS.NextState, TS.Valid;
    if chunks != [] {
      TS.ValidKept(st, chunks[0]);
      RunStateValid(TS.NextState(st, chunks[0]), chunks[1..]);
    }
  }

  /** OpenAI streams with think tags stripped. If the chunking is harmless for the stripper and every
      region the filter released was filtered as intended, status 200 means that the client was
      written the upstream stream with its think spans removed and its bare data lines dropped,
      exactly when the two held tails are in order. */
  lemma StrippedDelivery(c: Config, s: State, r: Result)
    requires Reachable(c, s) && r in s.out.results && r.status == 200 && Filters(c.o) && c.o.strip
    requires TS.Harmless(TS.FRESH, s.up.read) && FF.RunFiltered([], StripOuts(s.up.read))
    ensures !Spans.Outside(c.upstream).open
    ensures PayloadOf(s.out.wire) == FF.DropReleased(Spans.Outside(c.upstream).out)
      <==> TailsInOrder(TS.FlushText(s.rd.stages.think).out, s.rd.stages.pending)
  {
    hide Reachable, RunStages, PayloadOf, TS.Harmless, FF.RunFiltered, TS.RunState, TS.RunOut, TS.Total,
      Spans.Outside, FF.DropReleased, FF.RunOut, FF.RunPending, StripOuts, TS.FlushText, TS.Valid;
    var read := s.up.read;
    Status200IsComplete(c, s, r);
    StagesAreRuns(c.o, read);
    TS.StripAgreesExactly(read);
    TS.TotalIsRunThenFlush(TS.FRESH, read);
    StripOutsConcat(read);
    FF.BlankAt([], LastIndex([], FF.BLANK));
    FF.FilterAgreesExactly([], StripOuts(read));
    assert [] + Concat(StripOuts(read)) == TS.RunOut(TS.FRESH, read);
    FreshValid();
    RunStateValid(TS.FRESH, read);
    OrderOfTails(TS.RunOut(TS.FRESH, read), s.rd.stages.think, s.rd.stages.out, s.rd.stages.pending);
  }

  lemma FreshValid()
    ensures TS.Valid(TS.FRESH)
  {
  }

  lemma OrderOfTails(stripped: Bytes, think: TS.State, out: Bytes, pending: Bytes)
    requires TS.Valid(think) && !TS.FlushText(think).open
    requires out + pending == FF.DropReleased(stripped)
    ensures var f := TS.FlushText(think).out;
      out + (f + pending) == FF.DropReleased(stripped + f) <==> TailsInOrder(f, pending)
  {
    hide FF.DropReleased, Spans.Inside;
    var f := TS.FlushText(think).out;
    var k := |f|;
    assert f == Spans.OPEN[..k];
    DropReleasedTail(stripped, k);
    assert FF.DropReleased(stripped + f) == out + (pending + f);
    assert out + (f + pending) == out + (pending + f) <==> f + pending == pending + f by {
      assert (out + (f + pending))[|out|..] == f + pending;
      assert (out + (pending + f))[|out|..] == pending + f;
    }
    if k > 0 {
      CommuteIffCopies(k, pending);
    } else {
      assert [] + pending == pending + [];
    }
  }

  /** OpenAI streams without stripping: the upstream stream without its bare data lines. */
  lemma FilteredDelivery(c: Config, s: State, r: Result)
    requires Reachable(c, s) && r in s.out.results && r.status == 200 && Filters(c.o) && !c.o.strip
    ensures PayloadOf(s.out.wire) == FF.DropReleased(c.upstream) <==> FF.RunFiltered([], s.up.read)
  {
    hide Reachable, RunStages, PayloadOf, FF.RunFiltered, FF.DropReleased, FF.RunOut, FF.RunPending;
    Status200IsComplete(c, s, r);
    StagesAreRuns(c.o, s.up.read);
    FF.BlankAt([], LastIndex([], FF.BLANK));
    FF.FilterAgreesExactly([], s.up.read);
    assert [] + Concat(s.up.read) == c.upstream;
    assert s.rd.stages.out + ([] + s.rd.stages.pending) == s.rd.stages.out + s.rd.stages.pending;
  }

  /** The smallest stream whose tails are forwarded out of order: an `a` the filter still holds and
      a `<` the stripper holds come out as `<a`. */
  lemma TailsOutOfOrder(o: Options) returns (x: Bytes)
    requires Filters(o) && o.strip
    ensures x == "a<"
    ensures RunStages(o, [x]).out == "" && Tail(RunStages(o, [x])) == "<a"
    ensures FF.DropReleased(Spans.Outside(x).out) == x
    ensures !TailsInOrder(TS.FlushText(RunStages(o, [x]).think).out, RunStages(o, [x]).pending)
  {
    x := "a<";
    assert [] + x == x && [] + "a" == "a";
    assert x[1..] == Spans.OPEN[..1] == "<" && x[..1] == "a";
    assert TS.Hold(x) == 1 by {
      assert HasSuffix(x, Spans.OPEN[..1]);
      assert Spans.OPEN[..2][0] == '<' && x[0] == 'a';
    }
    assert !Contains(x, Spans.OPEN);
    assert LastIndex("a", FF.BLANK) == -1;
    assert LastIndex(x, FF.BLANK) == -1 by {
      assert x[0] != FF.BLANK[0];
      assert !At(x, FF.BLANK, 0);
    }
    assert [x][..0] == [] && RunStages(o, []) == STAGES0;
    hide Analyzed;
    assert TS.Emitted(TS.FRESH, x) == "a" && TS.NextState(TS.FRESH, x) == TS.State(false, [], "<");
    hide TS.Emitted, TS.NextState, TS.Hold, TS.Scans;
    assert "<" + "a" == "<a";
  }
}
