/** The data flag of the classifier in terms of the text alone: a group of lines with a field and no
    ping. From it follows for which streams the flag depends on where the stream is cut. */
module ClassifierGroups {
  import opened ByteStrings
  import opened TextLines
  import opened FrameClassification
  import opened ClassifierLines
  import FF = FrameFiltering

  // ---- groups of lines ----

  /** The runs of non-empty lines between the empty ones; a run may be empty. */
  function Groups(ls: seq<Bytes>): (gs: seq<seq<Bytes>>)
    ensures gs != []
  {
    if ls == [] then [[]]
    else
      var gs := Groups(ls[1..]);
      if ls[0] == "" then [[]] + gs else [[ls[0]] + gs[0]] + gs[1..]
  }

  /** The lines of all groups, an empty one between each two. */
  function Ungroup(gs: seq<seq<Bytes>>): seq<Bytes>
    requires gs != []
  {
    if |gs| == 1 then gs[0] else gs[0] + [""] + Ungroup(gs[1..])
  }

  /** The groups make up the lines, and no group holds an empty one. */
  lemma {:induction false} GroupsAreRuns(ls: seq<Bytes>)
    ensures Ungroup(Groups(ls)) == ls
    ensures forall g | g in Groups(ls) :: "" !in g
    decreases |ls|
  {
    if ls != [] {
      GroupsAreRuns(ls[1..]);
      var gs := Groups(ls[1..]);
      assert gs[0] in gs;
      if ls[0] == "" {
        assert ([[]] + gs)[1..] == gs;
        assert [] + [""] + ls[1..] == ls;
      } else {
        var hs := [[ls[0]] + gs[0]] + gs[1..];
        assert hs[1..] == gs[1..];
        forall g | g in hs
          ensures "" !in g
        {
          assert g in gs[1..] ==> g in gs;
        }
        FirstGroupLonger(ls[0], gs);
      }
    }
  }

  lemma FirstGroupLonger(l: Bytes, gs: seq<seq<Bytes>>)
    requires gs != []
    ensures Ungroup([[l] + gs[0]] + gs[1..]) == [l] + Ungroup(gs)
  {
    var hs := [[l] + gs[0]] + gs[1..];
    assert hs[1..] == gs[1..];
    if |gs| > 1 {
      assert [l] + gs[0] + [""] + Ungroup(gs[1..]) == [l] + (gs[0] + [""] + Ungroup(gs[1..]));
    }
  }

  predicate DataGroup(g: seq<Bytes>) { AnyField(g) && !AnyPing(g) }

  /** Some group of the lines of `t` has a field and no ping. */
  predicate ShowsData(t: Bytes) { exists g | g in Groups(Lines(t)) :: DataGroup(g) }

  // ---- the reader, line by line ----

  function ReadLines(u: UsageOf, r: Reader, ls: seq<Bytes>): Reader
    decreases |ls|
  {
    if ls == [] then r else ReadLines(u, EndLine(u, r.(line := ls[0])), ls[1..])
  }

  lemma {:induction false} FinishIsReadLines(u: UsageOf, r: Reader, t: Bytes)
    requires r.line == []
    ensures var q := EndLine(u, ReadLines(u, r, Lines(t))); Finish(u, Read(u, r, t)) == Seen(q.data, q.marks)
    decreases |t|
  {
    hide EndLine;
    var i := Index(t, NL);
    if i == -1 {
      ReadPlain(u, r, t);
      assert r.line + t == t && Lines(t) == [t];
      assert ReadLines(u, r, [t]) == ReadLines(u, EndLine(u, r.(line := t)), [t][1..]);
    } else {
      FF.SplitAtNewline(t, i);
      FF.PlainLine(t, i);
      var l, z := t[..i], t[i + 1..];
      assert t == l + NL + z;
      ReadLine(u, r, l, z);
      LineEnd(u, r, l);
      FinishIsReadLines(u, EndLine(u, r.(line := l)), z);
      assert Lines(t) == [l] + Lines(z);
      assert ([l] + Lines(z))[1..] == Lines(z);
    }
  }

  /** The flag behind a group that began with what `r` has seen of it. */
  predicate GroupShows(r: Reader, g: seq<Bytes>) { (r.field || AnyField(g)) && !(r.ping || AnyPing(g)) }

  lemma GroupGrows(u: UsageOf, r: Reader, l: Bytes, g: seq<Bytes>)
    requires r.line == [] && l != ""
    ensures var q := EndLine(u, r.(line := l));
      q.data == r.data && q.line == [] && (GroupShows(q, g) <==> GroupShows(r, [l] + g))
  {
    hide IsField, IsPing, MarkLine;
    assert forall x :: x in [l] + g <==> x == l || x in g;
  }

  lemma GroupEnds(u: UsageOf, r: Reader, g: seq<Bytes>)
    requires r.line == []
    ensures var q := EndLine(u, r);
      && q.line == [] && (q.data <==> r.data || GroupShows(r, []))
      && (GroupShows(q, g) <==> DataGroup(g))
  {
    hide IsField, IsPing, MarkLine;
  }

  predicate AnyShows(gs: seq<seq<Bytes>>) { exists g | g in gs :: DataGroup(g) }

  lemma AnyShowsFirst(gs: seq<seq<Bytes>>)
    requires gs != []
    ensures AnyShows(gs) <==> DataGroup(gs[0]) || AnyShows(gs[1..])
  {
    hide DataGroup;
    assert forall g :: g in gs <==> g == gs[0] || g in gs[1..];
  }

  lemma {:induction false} FlagOfLines(u: UsageOf, r: Reader, ls: seq<Bytes>)
    requires r.line == []
    ensures ReadLines(u, r, ls).line == []
    ensures EndLine(u, ReadLines(u, r, ls)).data <==>
      r.data || GroupShows(r, Groups(ls)[0]) || AnyShows(Groups(ls)[1..])
    decreases |ls|
  {
    hide EndLine, GroupShows, AnyShows, DataGroup;
    if ls == [] {
      GroupEnds(u, r, []);
      NoGroups();
    } else {
      var l, gs := ls[0], Groups(ls[1..]);
      var q := EndLine(u, r.(line := l));
      if l == "" {
        assert r.(line := l) == r;
        GroupEnds(u, r, gs[0]);
        AnyShowsFirst(gs);
        assert ([[]] + gs)[1..] == gs;
      } else {
        GroupGrows(u, r, l, gs[0]);
        assert ([[l] + gs[0]] + gs[1..])[1..] == gs[1..];
      }
      FlagOfLines(u, q, ls[1..]);
    }
  }

  lemma NoGroups()
    ensures !AnyShows([[]][1..])
  {
  }

  /** However the stream is cut, the data flag after the flush says whether some group of the
      normalised chunks has a field and no ping. */
  lemma FlagIsSomeGroup(u: UsageOf, chunks: seq<Bytes>)
    ensures Flushed(u, AnalyzedAll(u, FRESH, chunks)).seen.data <==> ShowsData(NormalizeAll(chunks))
  {
    hide Flushed, AnalyzedAll, Read, Finish, NormalizeAll, Normalize, ReadLines, EndLine, DataGroup;
    var r, t := AtGroupStart(FRESH.seen), NormalizeAll(chunks);
    ClassifierIsReader(u, chunks);
    FinishIsReadLines(u, r, t);
    FlagOfLines(u, r, Lines(t));
    AnyShowsFirst(Groups(Lines(t)));
    FreshGroup(Groups(Lines(t))[0]);
  }

  lemma FreshGroup(g: seq<Bytes>)
    ensures GroupShows(AtGroupStart(FRESH.seen), g) <==> DataGroup(g)
  {
  }

  // ---- the finest cut ----

  /** The stream cut behind every byte. */
  function Singles(s: Bytes): seq<Bytes> {
    if s == [] then [] else [[s[0]]] + Singles(s[1..])
  }

  lemma {:induction false} SinglesSeparateAll(s: Bytes)
    ensures Concat(Singles(s)) == s && NormalizeAll(Singles(s)) == CrToLf(s)
    decreases |s|
  {
    if s != [] {
      var c, z := s[0], s[1..];
      SinglesSeparateAll(z);
      OneByteNormalized(c);
      assert Singles(s)[1..] == Singles(z);
      assert s == [c] + z;
    }
  }

  lemma OneByteNormalized(c: char)
    ensures Normalize([c]) == CrToLf([c]) == [if c == '\r' then '\n' else c]
  {
    assert CrLfToLf([c]) == [c] + CrLfToLf([][..]);
    assert CrToLf([c]) == [if c == '\r' then '\n' else c] + CrToLf([c][1..]);
  }

  /** Every chunking reads as few ends of groups as the finest one. */
  lemma {:induction false} FinestRefines(u: UsageOf, q: Reader, p: Reader, chunks: seq<Bytes>)
    requires Refines(q, p)
    ensures Refines(Read(u, q, NormalizeAll(chunks)), Read(u, p, CrToLf(Concat(chunks))))
    decreases |chunks|
  {
    hide Refines, Normalize, Read;
    if chunks == [] {
      ReadEmpty(u, q);
      ReadEmpty(u, p);
    } else {
      var c, cs := chunks[0], chunks[1..];
      SinglesSeparateAll(c);
      CutsRefine(u, q, p, false, Singles(c));
      FinestRefines(u, Read(u, q, Normalize(c)), Read(u, p, CrToLf(c)), cs);
      ReadParts(u, q, Normalize(c), NormalizeAll(cs));
      CrToLfParts(c, Concat(cs));
      ReadParts(u, p, CrToLf(c), CrToLf(Concat(cs)));
    }
  }

  /** The chunking reports what the stream in one piece reports. */
  predicate ReportsAlike(u: UsageOf, chunks: seq<Bytes>) {
    Flushed(u, AnalyzedAll(u, FRESH, chunks)).seen == Flushed(u, Analyzed(u, FRESH, Concat(chunks))).seen
  }

  lemma FlagsInOrder(u: UsageOf, chunks: seq<Bytes>)
    ensures Flushed(u, Analyzed(u, FRESH, Concat(chunks))).seen.data <==> ShowsData(Normalize(Concat(chunks)))
    ensures ShowsData(Normalize(Concat(chunks))) ==> ShowsData(NormalizeAll(chunks))
    ensures ShowsData(NormalizeAll(chunks)) ==> ShowsData(CrToLf(Concat(chunks)))
  {
    var s, r := Concat(chunks), AtGroupStart(FRESH.seen);
    WholeFlag(u, s);
    FlagIsSomeGroup(u, chunks);
    CutsLoseNothing(u, chunks);
    SinglesSeparateAll(s);
    FlagIsSomeGroup(u, Singles(s));
    FinestRefines(u, r, r, chunks);
    FinishRefines(u, Read(u, r, NormalizeAll(chunks)), Read(u, r, CrToLf(s)));
    ClassifierIsReader(u, chunks);
    ClassifierIsReader(u, Singles(s));
    hide Flushed, AnalyzedAll, Analyzed, Read, Finish, NormalizeAll, Normalize, CrToLf, ShowsData, Concat, Singles;
  }

  lemma WholeFlag(u: UsageOf, s: Bytes)
    ensures Flushed(u, Analyzed(u, FRESH, s)).seen.data <==> ShowsData(Normalize(s))
  {
    hide Flushed, Analyzed, Normalize, ShowsData;
    var chunks := [s];
    FlagIsSomeGroup(u, chunks);
    assert chunks[1..] == [];
    assert NormalizeAll(chunks) == Normalize(s) + NormalizeAll([]) == Normalize(s);
    assert AnalyzedAll(u, FRESH, chunks) == AnalyzedAll(u, Analyzed(u, FRESH, s), []);
  }

  /** One chunking reports otherwise than the uncut stream exactly if the stream shows no data and
      the normalised chunks do. Markers and totals never differ. */
  lemma ReportsAlikeExactly(u: UsageOf, chunks: seq<Bytes>)
    ensures ReportsAlike(u, chunks) <==>
      ShowsData(Normalize(Concat(chunks))) || !ShowsData(NormalizeAll(chunks))
  {
    FlagIsSomeGroup(u, chunks);
    FlagsInOrder(u, chunks);
    CutsLoseNothing(u, chunks);
    hide Flushed, AnalyzedAll, Analyzed, NormalizeAll, Normalize, ShowsData, Concat;
  }

  /** No CRLF line ends leave a field without the pings of its group: read with every CR and every LF
      as a line end of its own, so that each CRLF also ends a group, the stream shows no data. */
  predicate PingsStay(s: Bytes) { !ShowsData(CrToLf(s)) }

  /** A stream reports the same however it is cut exactly if it shows data anyway or no CRLF line ends
      separate a field from the pings of its group. */
  lemma EveryChunkingAgreesExactly(u: UsageOf, s: Bytes)
    ensures (forall chunks | Concat(chunks) == s :: ReportsAlike(u, chunks)) <==>
      ShowsData(Normalize(s)) || PingsStay(s)
  {
    hide Concat, ReportsAlike, ShowsData, Normalize, NormalizeAll, CrToLf, Singles;
    forall chunks | Concat(chunks) == s
      ensures ShowsData(Normalize(s)) || PingsStay(s) ==> ReportsAlike(u, chunks)
    {
      ReportsAlikeExactly(u, chunks);
      FlagsInOrder(u, chunks);
    }
    SinglesSeparateAll(s);
    ReportsAlikeExactly(u, Singles(s));
  }
}
