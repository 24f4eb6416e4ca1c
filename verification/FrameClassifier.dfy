/** The carry-over classifier of SSE frames: which markers, data events and token totals a stream of
    chunks shows, and how far that depends on where the stream is cut. */
module FrameClassification {
  import opened ByteStrings
  import opened TextLines
  import FF = FrameFiltering

  datatype Usage = Usage(input: int, output: int, cacheRead: int, cacheWrite: int) {
    function Plus(o: Usage): Usage {
      Usage(input + o.input, output + o.output, cacheRead + o.cacheRead, cacheWrite + o.cacheWrite)
    }
  }

  const NO_USAGE: Usage := Usage(0, 0, 0, 0)

  /** The token usage of one `data:` payload; reading it out of the JSON is not modelled. */
  type UsageOf = Bytes -> Usage

  /** What single lines contribute: a terminal marker, and token counts. */
  datatype Marks = Marks(stop: bool, usage: Usage)

  datatype Seen = Seen(data: bool, marks: Marks)

  datatype Classifier = Classifier(carry: Bytes, seen: Seen)

  const FRESH: Classifier := Classifier([], Seen(false, Marks(false, NO_USAGE)))

  // ---- line endings ----

  function CrLfToLf(s: Bytes): Bytes
    decreases |s|
  {
    if s == [] then []
    else if |s| >= 2 && s[0] == '\r' && s[1] == '\n' then ['\n'] + CrLfToLf(s[2..])
    else [s[0]] + CrLfToLf(s[1..])
  }

  function CrToLf(s: Bytes): (r: Bytes)
    ensures |r| == |s|
  {
    if s == [] then [] else [if s[0] == '\r' then '\n' else s[0]] + CrToLf(s[1..])
  }

  /** Both replacements of one `Analyze` call, one after the other. */
  function Normalize(s: Bytes): Bytes { CrToLf(CrLfToLf(s)) }

  /** The cut between `a` and `b` separates a CR from its LF. */
  predicate CutsCrLf(a: Bytes, b: Bytes) {
    a != [] && a[|a| - 1] == '\r' && b != [] && b[0] == '\n'
  }

  // ---- one line, one block ----

  function Lower(c: char): char { if 'A' <= c <= 'Z' then c - 'A' + 'a' else c }

  /** The lower-cased `s` begins with `p`, for a `p` of lower-case ASCII letters and punctuation. */
  predicate HasPrefixFold(s: Bytes, p: Bytes) {
    |p| <= |s| && forall i | 0 <= i < |p| :: Lower(s[i]) == p[i]
  }

  /** A line that is neither blank nor a comment. */
  predicate IsField(line: Bytes) {
    var t := TrimSpace(line);
    t != "" && t[0] != ':'
  }

  predicate IsPing(line: Bytes) {
    var t := TrimSpace(line);
    IsField(line) && HasPrefixFold(t, "event:") && TrimSpace(t[6..]) == "ping"
  }

  /** What one line adds to the marker flag and the totals. */
  function MarkLine(u: UsageOf, m: Marks, line: Bytes): Marks {
    var t := TrimSpace(line);
    if !IsField(line) then m
    else if HasPrefixFold(t, "data:") then
      var data := TrimSpace(t[5..]);
      if data == "[DONE]" then m.(stop := true)
      else if data != "" then m.(usage := m.usage.Plus(u(data)))
      else m
    else if HasPrefixFold(t, "event:") && TrimSpace(t[6..]) == "message_stop" then m.(stop := true)
    else m
  }

  function MarkLines(u: UsageOf, m: Marks, ls: seq<Bytes>): Marks
    decreases |ls|
  {
    if ls == [] then m else MarkLines(u, MarkLine(u, m, ls[0]), ls[1..])
  }

  predicate AnyField(ls: seq<Bytes>) { exists l | l in ls :: IsField(l) }

  predicate AnyPing(ls: seq<Bytes>) { exists l | l in ls :: IsPing(l) }

  /** One block: a blank one is skipped, any other one is read line by line. */
  function Classified(u: UsageOf, s: Seen, block: Bytes): Seen {
    if TrimSpace(block) == "" then s
    else
      var ls := Lines(block);
      Seen(s.data || (AnyField(ls) && !AnyPing(ls)), MarkLines(u, s.marks, ls))
  }

  /** Classifies every complete block of the carry. */
  function Drain(u: UsageOf, c: Classifier): Classifier
    decreases |c.carry|
  {
    var i := Index(c.carry, FF.BLANK);
    if i == -1 then c
    else Drain(u, Classifier(c.carry[i + 2..], Classified(u, c.seen, c.carry[..i])))
  }

  function Analyzed(u: UsageOf, c: Classifier, text: Bytes): Classifier {
    Drain(u, c.(carry := c.carry + Normalize(text)))
  }

  function Flushed(u: UsageOf, c: Classifier): Classifier {
    if c.carry == "" then c else Classifier("", Classified(u, c.seen, c.carry + "\n\n"))
  }

  function AnalyzedAll(u: UsageOf, c: Classifier, chunks: seq<Bytes>): Classifier
    decreases |chunks|
  {
    if chunks == [] then c else AnalyzedAll(u, Analyzed(u, c, chunks[0]), chunks[1..])
  }

  // ---- normalisation of a cut stream ----

  lemma {:induction false} CrToLfParts(a: Bytes, b: Bytes)
    ensures CrToLf(a + b) == CrToLf(a) + CrToLf(b)
    decreases |a|
  {
    if a == [] {
      assert a + b == b;
    } else {
      assert (a + b)[1..] == a[1..] + b;
      CrToLfParts(a[1..], b);
    }
  }

  predicate BeginsCrLf(s: Bytes) { |s| >= 2 && s[0] == '\r' && s[1] == '\n' }

  /** The first replacement, one step at a time. */
  lemma CrLfStep(s: Bytes)
    requires s != []
    ensures BeginsCrLf(s) ==> CrLfToLf(s) == ['\n'] + CrLfToLf(s[2..])
    ensures !BeginsCrLf(s) ==> CrLfToLf(s) == [s[0]] + CrLfToLf(s[1..])
  {
  }

  lemma BeginningOf(a: Bytes, b: Bytes)
    requires a != [] && !(|a| == 1 && CutsCrLf(a, b))
    ensures BeginsCrLf(a + b) <==> BeginsCrLf(a)
    ensures (a + b)[0] == a[0] && (a + b)[1..] == a[1..] + b
    ensures |a| >= 2 ==> (a + b)[2..] == a[2..] + b
  {
  }

  lemma CrLfHead(a: Bytes, rest: Bytes, h: Bytes, b: Bytes)
    requires a != [] && !(|a| == 1 && CutsCrLf(a, b))
    requires if BeginsCrLf(a) then rest == a[2..] && h == ['\n'] else rest == a[1..] && h == [a[0]]
    ensures CrLfToLf(a) == h + CrLfToLf(rest)
    ensures CrLfToLf(a + b) == h + CrLfToLf(rest + b)
  {
    hide CrLfToLf, CutsCrLf;
    BeginningOf(a, b);
    CrLfStep(a);
    CrLfStep(a + b);
    assert BeginsCrLf(a) ==> |a| >= 2;
    hide BeginsCrLf;
  }

  lemma HeadOf(h: Bytes, y: Bytes, z: Bytes)
    ensures h + (y + z) == (h + y) + z
    ensures y != [] ==> h + (y[..|y| - 1] + z) == (h + y)[..|h + y| - 1] + z
    ensures y != [] ==> (h + y)[|h + y| - 1] == y[|y| - 1]
  {
    if y != [] {
      assert (h + y)[..|h + y| - 1] == h + y[..|y| - 1];
    }
  }

  /** The first replacement of two parts: a cut CRLF leaves its CR at the end of the first. */
  predicate CrLfParts(a: Bytes, b: Bytes) {
    var x := CrLfToLf(a);
    if CutsCrLf(a, b) then
      x != [] && x[|x| - 1] == '\r' && CrLfToLf(a + b) == x[..|x| - 1] + CrLfToLf(b)
    else CrLfToLf(a + b) == x + CrLfToLf(b)
  }

  lemma {:induction false} CrLfToLfParts(a: Bytes, b: Bytes)
    ensures CrLfParts(a, b)
    decreases |a|
  {
    if a == [] {
      assert a + b == b;
    } else if |a| == 1 && CutsCrLf(a, b) {
      LoneCr(a, b);
    } else {
      hide CrLfParts;
      var n := if BeginsCrLf(a) then 2 else 1;
      CrLfToLfParts(a[n..], b);
      CrLfPartsStep(a, n, if n == 2 then ['\n'] else [a[0]], b);
    }
  }

  lemma CrLfPartsStep(a: Bytes, n: nat, h: Bytes, b: Bytes)
    requires a != [] && !(|a| == 1 && CutsCrLf(a, b)) && n == (if BeginsCrLf(a) then 2 else 1)
    requires h == (if n == 2 then ['\n'] else [a[0]]) && CrLfParts(a[n..], b)
    ensures CrLfParts(a, b)
  {
    var y, z := CrLfToLf(a[n..]), CrLfToLf(b);
    CrLfHead(a, a[n..], h, b);
    SameEnd(a, n, b);
    hide CrLfToLf, CutsCrLf, BeginsCrLf;
    HeadOf(h, y, z);
  }

  lemma SameEnd(a: Bytes, n: nat, b: Bytes)
    requires a != [] && !(|a| == 1 && CutsCrLf(a, b)) && n == (if BeginsCrLf(a) then 2 else 1)
    ensures CutsCrLf(a[n..], b) <==> CutsCrLf(a, b)
  {
    if a[n..] != [] {
      assert a[n..][|a[n..]| - 1] == a[|a| - 1];
    }
  }

  lemma LoneCr(a: Bytes, b: Bytes)
    requires |a| == 1 && CutsCrLf(a, b)
    ensures CrLfToLf(a) == ['\r'] && CrLfToLf(a + b) == CrLfToLf(b)
  {
    assert (a + b)[2..] == b[1..];
    assert CrLfToLf(a) == ['\r'] + CrLfToLf([]);
    assert CrLfToLf(b) == ['\n'] + CrLfToLf(b[1..]);
  }

  /** Normalising chunk by chunk adds one newline exactly when the cut separates a CR from its LF. */
  lemma NormalizeParts(a: Bytes, b: Bytes)
    ensures var x := Normalize(a);
      if CutsCrLf(a, b) then
        x != [] && x[|x| - 1] == '\n' && HasPrefix(Normalize(b), NL)
        && Normalize(a + b) == x[..|x| - 1] + Normalize(b)
      else Normalize(a + b) == x + Normalize(b)
    ensures Normalize(a + b) == Normalize(a) + Normalize(b) <==> !CutsCrLf(a, b)
  {
    CrLfToLfParts(a, b);
    var x, y := CrLfToLf(a), CrLfToLf(b);
    if CutsCrLf(a, b) {
      var z := x[..|x| - 1];
      assert x == z + ['\r'];
      CrToLfParts(z, ['\r']);
      CrToLfParts(z, y);
      assert CrToLf(['\r']) == ['\n'] + CrToLf([]);
      assert y[0] == '\n';
    } else {
      CrToLfParts(x, y);
    }
  }

  // ---- chunks that never cut a CRLF ----

  lemma {:induction false} DrainParts(u: UsageOf, c: Classifier, more: Bytes)
    ensures Drain(u, c.(carry := c.carry + more))
         == var d := Drain(u, c); Drain(u, d.(carry := d.carry + more))
    ensures Index(Drain(u, c).carry, FF.BLANK) == -1
    decreases |c.carry|
  {
    hide Classified;
    var i := Index(c.carry, FF.BLANK);
    if i != -1 {
      IndexExtends(c.carry, FF.BLANK, more);
      assert (c.carry + more)[i + 2..] == c.carry[i + 2..] + more;
      assert (c.carry + more)[..i] == c.carry[..i];
      DrainParts(u, Classifier(c.carry[i + 2..], Classified(u, c.seen, c.carry[..i])), more);
    }
  }

  predicate NoCutCrLf(chunks: seq<Bytes>)
    decreases |chunks|
  {
    chunks == [] || (!CutsCrLf(chunks[0], Concat(chunks[1..])) && NoCutCrLf(chunks[1..]))
  }

  /** Every chunking that keeps CR and LF together gives the same carry, flags and totals. */
  lemma {:induction false} ChunkingIsIrrelevant(u: UsageOf, c: Classifier, chunks: seq<Bytes>)
    requires Index(c.carry, FF.BLANK) == -1 && NoCutCrLf(chunks)
    ensures AnalyzedAll(u, c, chunks) == Analyzed(u, c, Concat(chunks))
    ensures Index(AnalyzedAll(u, c, chunks).carry, FF.BLANK) == -1
    decreases |chunks|
  {
    if chunks == [] {
      assert Normalize([]) == [] && c.carry + [] == c.carry;
    } else {
      hide Drain, Normalize, CutsCrLf;
      var x, next := chunks[0], Concat(chunks[1..]);
      DrainParts(u, c.(carry := c.carry + Normalize(x)), Normalize(next));
      ChunkingIsIrrelevant(u, Analyzed(u, c, x), chunks[1..]);
      NormalizeParts(x, next);
      assert c.carry + Normalize(x) + Normalize(next) == c.carry + Normalize(x + next);
    }
  }

  /** The carry never holds a blank line, however the stream is cut. */
  lemma {:induction false} CarryHasNoBlankLine(u: UsageOf, c: Classifier, chunks: seq<Bytes>)
    requires Index(c.carry, FF.BLANK) == -1
    ensures Index(AnalyzedAll(u, c, chunks).carry, FF.BLANK) == -1
    decreases |chunks|
  {
    if chunks != [] {
      DrainParts(u, c.(carry := c.carry + Normalize(chunks[0])), []);
      CarryHasNoBlankLine(u, Analyzed(u, c, chunks[0]), chunks[1..]);
    }
  }

  // ---- the class ----

  class FrameClassifier {
    const usageOf: UsageOf
    var carry: Bytes
    var sawDataEvent: bool
    var sawMessageStop: bool
    var inputTokens: int
    var outputTokens: int
    var cacheRead: int
    var cacheWrite: int

    function CurrentMarks(): Marks
      reads this
    {
      Marks(sawMessageStop, Usage(inputTokens, outputTokens, cacheRead, cacheWrite))
    }

    function Value(): Classifier
      reads this
    {
      Classifier(carry, Seen(sawDataEvent, CurrentMarks()))
    }

    constructor (usageOf: UsageOf)
      ensures Value() == FRESH && this.usageOf == usageOf
    {
      this.usageOf := usageOf;
      carry, sawDataEvent, sawMessageStop := [], false, false;
      inputTokens, outputTokens, cacheRead, cacheWrite := 0, 0, 0, 0;
    }

    /** Ingests one chunk and classifies every block it completes. */
    method Analyze(text: Bytes)
      modifies this
      ensures Value() == Analyzed(usageOf, old(Value()), text)
    {
      hide Classified, Normalize;
      var s := Normalize(text);
      carry := carry + s;
      ghost var start := Value();
      while true
        invariant Drain(usageOf, Value()) == Drain(usageOf, start)
        decreases |carry|
      {
        var idx := Index(carry, FF.BLANK);
        if idx == -1 {
          break;
        }
        var block := carry[..idx];
        carry := carry[idx + 2..];
        ClassifyBlock(block);
      }
    }

    /** Classifies what is left of the carry at the end of the stream. */
    method Flush()
      modifies this
      ensures Value() == Flushed(usageOf, old(Value()))
    {
      hide Classified;
      if carry == "" {
        return;
      }
      var pending := carry;
      carry := "";
      ClassifyBlock(pending + "\n\n");
    }

    /** Reads one block line by line. */
    method ClassifyBlock(block: Bytes)
      modifies this
      ensures carry == old(carry)
      ensures Value().seen == Classified(usageOf, old(Value().seen), block)
    {
      hide TrimSpace, IsField, IsPing, MarkLine;
      if TrimSpace(block) == "" {
        return;
      }
      var hasField, isPing := false, false;
      var lines := Lines(block);
      ghost var marks := CurrentMarks();
      for i := 0 to |lines|
        invariant carry == old(carry) && sawDataEvent == old(sawDataEvent)
        invariant hasField == exists k | 0 <= k < i :: IsField(lines[k])
        invariant isPing == exists k | 0 <= k < i :: IsPing(lines[k])
        invariant MarkLines(usageOf, CurrentMarks(), lines[i..]) == MarkLines(usageOf, marks, lines)
      {
        assert lines[i..][1..] == lines[i + 1..];
        var field, ping := ReadLine(lines[i]);
        hasField, isPing := hasField || field, isPing || ping;
      }
      assert hasField == AnyField(lines) && isPing == AnyPing(lines);
      if hasField && !isPing {
        sawDataEvent := true;
      }
    }

    /** The body of the line loop. */
    method ReadLine(line: Bytes) returns (field: bool, ping: bool)
      modifies this`sawMessageStop, this`inputTokens, this`outputTokens, this`cacheRead, this`cacheWrite
      ensures field == IsField(line) && ping == IsPing(line)
      ensures CurrentMarks() == MarkLine(usageOf, old(CurrentMarks()), line)
    {
      hide TrimSpace;
      field, ping := false, false;
      var trimmed := TrimSpace(line);
      if trimmed == "" || trimmed[0] == ':' {
        return;
      }
      field := true;
      if HasPrefixFold(trimmed, "event:") && TrimSpace(trimmed[6..]) == "ping" {
        ping := true;
      }
      if HasPrefixFold(trimmed, "data:") {
        var dataStr := TrimSpace(trimmed[5..]);
        if dataStr == "[DONE]" {
          sawMessageStop := true;
        } else if dataStr != "" {
          var u := usageOf(dataStr);
          inputTokens := inputTokens + u.input;
          outputTokens := outputTokens + u.output;
          cacheRead := cacheRead + u.cacheRead;
          cacheWrite := cacheWrite + u.cacheWrite;
        }
      } else if HasPrefixFold(trimmed, "event:") {
        if TrimSpace(trimmed[6..]) == "message_stop" {
          sawMessageStop := true;
        }
      }
    }
  }
}
