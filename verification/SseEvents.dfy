/** What a client's line parser makes of the bytes it receives, and where a keepalive comment may be
    put without changing it. Lines end in CR, LF or CRLF, a line that begins with a colon is a
    comment and a blank line ends an event (sections 9.2.5 and 9.2.6 of the WHATWG HTML Standard). */
module SseEvents {
  import opened ByteStrings
  import opened TextLines
  import FF = FrameFiltering

  const KEEPALIVE: Bytes := ":\n\n"

  /** The line being read, the non-comment lines of the event being read, the finished events, and
      whether the last byte was a CR. */
  datatype Parser = Parser(line: Bytes, block: seq<Bytes>, events: seq<seq<Bytes>>, cr: bool)

  const START: Parser := Parser([], [], [], false)

  function EndLine(p: Parser): Parser {
    if p.line == [] then
      if p.block == [] then p else p.(block := [], events := p.events + [p.block])
    else if p.line[0] == ':' then p.(line := [])
    else p.(line := [], block := p.block + [p.line])
  }

  function FeedByte(p: Parser, c: char): Parser {
    if c == '\n' then if p.cr then p.(cr := false) else EndLine(p)
    else if c == '\r' then EndLine(p).(cr := true)
    else p.(line := p.line + [c], cr := false)
  }

  function Feed(p: Parser, s: Bytes): Parser
    decreases |s|
  {
    if s == [] then p else Feed(FeedByte(p, s[0]), s[1..])
  }

  /** The events of a whole byte string. */
  function Events(s: Bytes): seq<seq<Bytes>> { Feed(START, s).events }

  /** Nothing of a line or an event is pending. */
  predicate Boundary(p: Parser) { p.line == [] && p.block == [] && !p.cr }

  predicate WellFormed(p: Parser) { p.cr ==> p.line == [] }

  /** From an event boundary `d` leads to an event boundary. */
  ghost predicate Aligned(d: Bytes) {
    forall p | Boundary(p) :: Boundary(Feed(p, d))
  }

  lemma {:induction false} FeedParts(p: Parser, a: Bytes, b: Bytes)
    ensures Feed(p, a + b) == Feed(Feed(p, a), b)
    decreases |a|
  {
    if a == [] {
      assert a + b == b;
    } else {
      assert (a + b)[1..] == a[1..] + b;
      FeedParts(FeedByte(p, a[0]), a[1..], b);
    }
  }

  lemma {:induction false} FeedWellFormed(p: Parser, s: Bytes)
    requires WellFormed(p)
    ensures WellFormed(Feed(p, s))
    decreases |s|
  {
    if s != [] {
      FeedWellFormed(FeedByte(p, s[0]), s[1..]);
    }
  }

  /** A keepalive leaves the parser as it was exactly at an event boundary. */
  lemma KeepaliveInvisibleExactly(p: Parser)
    requires WellFormed(p)
    ensures Feed(p, KEEPALIVE) == p <==> Boundary(p)
  {
    var a := FeedByte(p, ':');
    var b := FeedByte(a, '\n');
    var c := FeedByte(b, '\n');
    assert KEEPALIVE[1..] == "\n\n" && "\n\n"[1..] == "\n" && "\n"[1..] == "";
    assert Feed(p, KEEPALIVE) == c;
    if p.line != [] {
      assert c.line == [];
    } else {
      assert a.line == [':'];
      assert b.line == [] && b.block == p.block;
    }
  }

  /** Whole lines: behind a newline no line is pending. */
  lemma BehindNewline(p: Parser, d: Bytes)
    requires WellFormed(p) && d != [] && d[|d| - 1] == '\n'
    ensures var q := Feed(p, d); q.line == [] && !q.cr
  {
    var a := d[..|d| - 1];
    assert d == a + NL;
    FeedParts(p, a, NL);
    FeedWellFormed(p, a);
    var q := Feed(p, a);
    assert Feed(q, NL) == Feed(FeedByte(q, '\n'), NL[1..]) == FeedByte(q, '\n');
  }

  /** Whole lines followed by a blank line lead from boundary to boundary. */
  lemma BlankLineAligns(d: Bytes)
    requires FF.EndsLine(d)
    ensures Aligned(d + NL)
  {
    forall p | Boundary(p)
      ensures Boundary(Feed(p, d + NL))
    {
      FeedParts(p, d, NL);
      var q := Feed(p, d);
      assert Feed(q, NL) == Feed(FeedByte(q, '\n'), NL[1..]) == FeedByte(q, '\n');
      if d != [] {
        BehindNewline(p, d);
      }
    }
  }

  lemma {:induction false} DropBareEndsLine(s: Bytes)
    requires FF.EndsLine(s)
    ensures FF.EndsLine(FF.DropBare(s))
    decreases |s|
  {
    hide FF.Bare;
    var i := Index(s, NL);
    if i == -1 {
      FF.NoNewlineEndsLine(s);
    } else {
      FF.SplitAtNewline(s, i);
      DropBareEndsLine(s[i + 1..]);
    }
  }

  /** `a` is empty or whole lines followed by an empty one. */
  predicate EndsGroup(a: Bytes) {
    a == "" || (a[|a| - 1] == '\n' && FF.EndsLine(a[..|a| - 1]))
  }

  /** Whatever the frame filter hands on, stray newlines included, ends with an empty line. */
  lemma FilterOutputEndsGroup(pending: Bytes, chunk: Bytes)
    ensures EndsGroup(FF.Emitted(pending, chunk))
  {
    hide FF.Suspicious, FF.DropBare;
    var combined := pending + chunk;
    var k := LastIndex(combined, FF.BLANK);
    if k != -1 {
      var ready := combined[..k + 2];
      FF.RegionSplits(combined, k);
      FF.EndsInBlank(ready);
      var a := ready[..|ready| - 1];
      assert ready[|ready| - 2..] == FF.BLANK && a[|a| - 1] == ready[|ready| - 2..][0];
      assert ready == a + NL;
      if FF.Suspicious(ready) {
        FF.JoinKeptIsDropBare(ready);
        FF.DropBareParts(a, NL);
        FF.OneNewline();
        DropBareEndsLine(a);
        WithNewline(FF.DropBare(a));
      }
    }
  }

  lemma WithNewline(x: Bytes)
    requires FF.EndsLine(x)
    ensures EndsGroup(x + NL)
  {
    assert (x + NL)[..|x|] == x;
  }

  /** It leads from event boundary to event boundary. */
  lemma FilterOutputAligned(pending: Bytes, chunk: Bytes)
    ensures Aligned(FF.Emitted(pending, chunk))
  {
    hide FF.Emitted;
    FilterOutputEndsGroup(pending, chunk);
    var a := FF.Emitted(pending, chunk);
    if a != "" {
      BlankLineAligns(a[..|a| - 1]);
      assert a == a[..|a| - 1] + NL;
    }
  }

  // ---- what is written to the client ----

  datatype Kind = Payload | TailPayload | Keepalive | Terminal

  /** One write to the client. */
  datatype Piece = Piece(kind: Kind, bytes: Bytes)

  /** All bytes written. */
  function AllBytes(w: seq<Piece>): Bytes {
    if w == [] then [] else AllBytes(w[..|w| - 1]) + w[|w| - 1].bytes
  }

  predicate IsPayload(x: Piece) { x.kind == Payload || x.kind == TailPayload }

  /** The bytes written, without keepalives and the synthetic end. */
  function PayloadOf(w: seq<Piece>): Bytes {
    if w == [] then []
    else PayloadOf(w[..|w| - 1]) + if IsPayload(w[|w| - 1]) then w[|w| - 1].bytes else []
  }

  /** Complete payload writes that keep to event boundaries, complete keepalives, nothing else. */
  ghost predicate PlacedBetweenEvents(w: seq<Piece>) {
    forall x | x in w ::
      (x.kind == Payload && Aligned(x.bytes)) || (x.kind == Keepalive && x.bytes == KEEPALIVE)
  }

  /** Keepalives between aligned payloads do not change what the client parses. */
  lemma {:induction false} KeepalivesAreInvisible(w: seq<Piece>)
    requires PlacedBetweenEvents(w)
    ensures Boundary(Feed(START, AllBytes(w)))
    ensures Feed(START, AllBytes(w)) == Feed(START, PayloadOf(w))
    ensures Events(AllBytes(w)) == Events(PayloadOf(w))
  {
    if w != [] {
      var v, x := w[..|w| - 1], w[|w| - 1];
      assert x in w;
      KeepalivesAreInvisible(v);
      FeedParts(START, AllBytes(v), x.bytes);
      FeedParts(START, PayloadOf(v), x.bytes);
      if x.kind == Keepalive {
        KeepaliveInvisibleExactly(Feed(START, AllBytes(v)));
        assert PayloadOf(v) + [] == PayloadOf(v);
      }
    }
  }
}
