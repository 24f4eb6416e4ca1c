/** The synthetic end of a stream that ended abnormally: the protocol error frame and the finishing
    sequence, and the proof that a terminal marker is seen whatever was written before them. */
module Eom {
  import opened ByteStrings
  import opened TextLines
  import opened FrameClassification
  import opened ClassifierLines

  /** Every format that is not OpenAI is treated as Anthropic. */
  datatype StreamFormat = Anthropic | OpenAI

  /** The line that carries the terminal marker. */
  function MarkerLine(format: StreamFormat): Bytes {
    if format == OpenAI then "data: [DONE]" else "event: message_stop"
  }

  /** The finish frame up to the newline that ends its last line, in pieces. */
  function FinishFrame(format: StreamFormat): seq<Bytes> {
    if format == OpenAI then [
      "\ndata: {\"id\":\"proxy-eom\",", "\"object\":\"chat.completion.chunk\",",
      "\"created\":0,\"model\":\"\",", "\"choices\":[{\"index\":0,\"delta\":{},",
      "\"finish_reason\":\"stop\"}]}\n"]
    else [
      "\nevent: message_delta\n", "data: {\"type\":\"message_delta\",\"delta\":",
      "{\"stop_reason\":\"end_turn\",", "\"stop_sequence\":null},",
      "\"usage\":{\"output_tokens\":0}}\n"]
  }

  /** The finishing sequence: a finish frame, then the frame with the terminal marker. */
  function AbnormalFinish(format: StreamFormat): Bytes {
    Concat(FinishFrame(format)) + NL + MarkerFrame(format)
  }

  /** The error frame; the message is one of the fixed end reasons, which JSON leaves as they are. */
  function SSEErrorFrame(format: StreamFormat, message: Bytes): Bytes {
    Concat(ErrorFrame(format, message))
  }

  function ErrorFrame(format: StreamFormat, message: Bytes): seq<Bytes> {
    if format == OpenAI then
      ["data: {\"error\":{\"message\":\"", message, "\",\"type\":\"proxy_error\"}}\n\n"]
    else
      ["event: error\ndata: {\"type\":\"error\",", "\"error\":{\"type\":\"proxy_error\",\"message\":\"",
       message, "\"}}\n\n"]
  }

  predicate NoCr(s: Bytes) { forall i | 0 <= i < |s| :: s[i] != '\r' }

  /** A line that sets the marker flag whatever was seen before it. */
  ghost predicate IsMarker(u: UsageOf, l: Bytes) {
    l != "" && Index(l, NL) == -1 && forall m :: MarkLine(u, m, l).stop
  }

  lemma {:induction false} StopStays(u: UsageOf, r: Reader, s: Bytes)
    requires r.marks.stop
    ensures Read(u, r, s).marks.stop && Finish(u, r).marks.stop
    decreases |s|
  {
    hide IsField, IsPing, TrimSpace;
    if s != [] {
      StopStays(u, ReadByte(u, r, s[0]), s[1..]);
    }
  }

  lemma NoLinePending(u: UsageOf, r: Reader, x: Bytes)
    ensures Read(u, r, x + NL).line == []
  {
    hide IsField, IsPing, MarkLine;
    ReadParts(u, r, x, NL);
    ReadNewline(u, Read(u, r, x));
  }

  /** A marker line that follows a newline is seen. */
  lemma MarkerSeen(u: UsageOf, r: Reader, x: Bytes, l: Bytes, z: Bytes)
    requires IsMarker(u, l)
    ensures Finish(u, Read(u, r, x + NL + (l + NL + z))).marks.stop
  {
    hide IsField, IsPing, MarkLine, Finish;
    NoLinePending(u, r, x);
    var q := Read(u, r, x + NL);
    ReadParts(u, r, x + NL, l + NL + z);
    ReadLine(u, q, l, z);
    StopStays(u, EndLine(u, q.(line := l)), z);
    StopStays(u, Read(u, EndLine(u, q.(line := l)), z), []);
  }

  lemma {:induction false} NormalizeNoCr(s: Bytes)
    requires NoCr(s)
    ensures Normalize(s) == s
  {
    forall c | c in s
      ensures c != '\r'
    {
    }
    NormalizePlain(s);
  }

  /** Bytes without a CR are normalised on their own behind anything that does not end in a CR. */
  lemma NormalizeBehind(p: Bytes, t: Bytes)
    requires NoCr(t) && p != [] && p[|p| - 1] != '\r'
    ensures Normalize(p + t) == Normalize(p) + t
  {
    hide Normalize;
    NormalizeParts(p, t);
    NormalizeNoCr(t);
  }

  lemma MarkerLineIsMarker(u: UsageOf, format: StreamFormat)
    ensures IsMarker(u, MarkerLine(format))
  {
    var l := MarkerLine(format);
    NewlineAt(l, Index(l, NL));
    if format == OpenAI { DoneIsMarker(u); } else { MessageStopIsMarker(u); }
  }

  lemma DoneIsMarker(u: UsageOf)
    ensures forall m :: MarkLine(u, m, "data: [DONE]").stop
  {
    hide TrimSpace;
    TrimSolid("data: [DONE]");
    TrimSolid("[DONE]");
    assert "data: [DONE]"[5..] == " " + "[DONE]";
  }

  lemma MessageStopIsMarker(u: UsageOf)
    ensures forall m :: MarkLine(u, m, "event: message_stop").stop
  {
    hide TrimSpace;
    TrimSolid("event: message_stop");
    TrimSolid("message_stop");
    assert "event: message_stop"[6..] == " " + "message_stop";
    assert Lower("event: message_stop"[0]) != "data:"[0];
  }

  /** What follows the finish frame. */
  function MarkerFrame(format: StreamFormat): Bytes {
    MarkerLine(format) + NL + Behind(format)
  }

  function Behind(format: StreamFormat): Bytes {
    if format == OpenAI then "\n" else "data: {}\n\n"
  }

  lemma MarkerFrameHasNoCr(format: StreamFormat)
    ensures NoCr(NL + MarkerFrame(format))
  {
    assert NoCr(MarkerLine(format)) && NoCr(Behind(format)) && NoCr(NL);
  }

  lemma LastPieceEnds(ps: seq<Bytes>)
    requires ps != [] && ps[|ps| - 1] != []
    ensures Concat(ps) != [] && Concat(ps)[|Concat(ps)| - 1] == ps[|ps| - 1][|ps[|ps| - 1]| - 1]
  {
    var n := |ps| - 1;
    assert ps == ps[..n] + [ps[n]];
    ConcatSnoc(ps[..n], ps[n]);
  }

  /** The finish frame ends its last line. */
  lemma FinishFrameEndsLine(format: StreamFormat)
    ensures var f := Concat(FinishFrame(format)); f != [] && f[|f| - 1] == '\n'
  {
    hide Concat;
    LastPieceEnds(FinishFrame(format));
  }

  /** Whatever was written before, a complete synthetic end makes the whole output end with a
      terminal marker that a classifier reading it from scratch reports. */
  lemma SyntheticEndIsSeen(u: UsageOf, format: StreamFormat, message: Bytes, written: Bytes)
    ensures var all := written + SSEErrorFrame(format, message) + AbnormalFinish(format);
      Flushed(u, Analyzed(u, FRESH, all)).seen.marks.stop
  {
    hide Flushed, Analyzed, Normalize, Read, Finish, IsMarker, SSEErrorFrame, FinishFrame, MarkerLine, Behind;
    var f, l, z := Concat(FinishFrame(format)), MarkerLine(format), Behind(format);
    var x := written + SSEErrorFrame(format, message) + f;
    FinishFrameEndsLine(format);
    MarkerFrameHasNoCr(format);
    NormalizeBehind(x, NL + MarkerFrame(format));
    MarkerLineIsMarker(u, format);
    MarkerSeen(u, AtGroupStart(FRESH.seen), Normalize(x), l, z);
    assert Normalize(x) + (NL + (l + NL + z)) == Normalize(x) + NL + (l + NL + z);
    var all := written + SSEErrorFrame(format, message) + AbnormalFinish(format);
    assert all == x + (NL + MarkerFrame(format));
    OneChunk(u, all);
  }
}
