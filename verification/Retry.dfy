/** Which failed attempts are retried and after what delay, and which upstream rejections are not
    held against the upstream. */
module RetryRules {
  import opened ByteStrings
  import CB = CircuitBreaking

  const TRANSPORT_KEYWORDS: seq<Bytes> := ["socket hang up", "timeout", "ECONNRESET", "ETIMEDOUT", "ENETUNREACH"]

  const WAF_MARKERS: seq<Bytes> := ["alicdn", "block_message", "renderData", "waf.js"]

  predicate HasAny(text: Bytes, words: seq<Bytes>) { exists i | 0 <= i < |words| :: Contains(text, words[i]) }

  predicate ServerError(status: int) { 500 <= status <= 599 }

  predicate IsRetryable(status: int, message: Bytes, retryOn5xx: bool) {
    if ServerError(status) then retryOn5xx else HasAny(message, TRANSPORT_KEYWORDS)
  }

  /** The errors a round trip ends in, as far as they are told apart. */
  datatype TransportError =
    | DeadlineExceeded
    | EndOfFile
    | ConnectionReset
    | ConnectionTimedOut
    | NetworkUnreachable
    | Other(text: Bytes)

  function TransportMessage(e: TransportError): Bytes {
    match e
    case DeadlineExceeded => "timeout"
    case EndOfFile => "socket hang up"
    case ConnectionReset => "ECONNRESET"
    case ConnectionTimedOut => "ETIMEDOUT"
    case NetworkUnreachable => "ENETUNREACH"
    case Other(text) => text
  }

  lemma ContainsItself(s: Bytes)
    ensures Contains(s, s)
  {
    assert At(s, s, 0);
  }

  /** Every transport error that is told apart is retryable; all others by their text alone. */
  lemma TransportErrorsAreRetryable(e: TransportError, retryOn5xx: bool)
    ensures IsRetryable(0, TransportMessage(e), retryOn5xx) <==> !e.Other? || HasAny(e.text, TRANSPORT_KEYWORDS)
  {
    if !e.Other? {
      var i := match e
        case DeadlineExceeded => 1
        case EndOfFile => 0
        case ConnectionReset => 2
        case ConnectionTimedOut => 3
        case _ => 4;
      ContainsItself(TRANSPORT_KEYWORDS[i]);
      assert TransportMessage(e) == TRANSPORT_KEYWORDS[i];
      hide Contains;
      assert HasAny(TransportMessage(e), TRANSPORT_KEYWORDS);
    }
  }

  /** No keyword occurs in an empty message: a response is retried for its status only. */
  lemma ResponsesRetryByStatus(status: int, retryOn5xx: bool)
    ensures IsRetryable(status, "", retryOn5xx) <==> ServerError(status) && retryOn5xx
  {
  }

  predicate IsWafBlock(status: int, body: Bytes) { status in {403, 405} && HasAny(body, WAF_MARKERS) }

  predicate IsContentFilterRejection(status: int, body: Bytes) {
    if status == 400 then Contains(body, "content-blocked")
    else ServerError(status) && Contains(body, "sensitive_words")
  }

  /** The second marker is "no channel available" in Chinese, as its UTF-8 bytes. */
  const NO_CHANNEL: Bytes :=
    "\U{E6}\U{97}\U{A0}\U{E5}\U{8F}\U{AF}\U{E7}\U{94}\U{A8}\U{E6}\U{B8}\U{A0}\U{E9}\U{81}\U{93}"

  predicate IsAccountSideRejection(status: int, body: Bytes) {
    status == 402 || (status == 503 && (Contains(body, "no available channel") || Contains(body, NO_CHANNEL)))
  }

  /** Rejections that are not held against the upstream are among these statuses. */
  predicate MayBeExempt(status: int) { ServerError(status) || status in {400, 402} }

  predicate IsExempt(status: int, body: Bytes) {
    IsContentFilterRejection(status, body) || IsAccountSideRejection(status, body)
  }

  /** The look at the body is taken for every status that can be exempt, and only there. */
  lemma ExemptStatuses(status: int, body: Bytes)
    ensures IsExempt(status, body) ==> MayBeExempt(status)
    ensures MayBeExempt(status) ==>
      exists b :: IsExempt(status, b)
  {
    hide Contains;
    if status == 400 {
      ContainsItself("content-blocked");
      assert IsExempt(status, "content-blocked");
    } else if ServerError(status) {
      ContainsItself("sensitive_words");
      assert IsExempt(status, "sensitive_words");
    } else if status == 402 {
      assert IsExempt(status, "");
    }
  }

  // ---- delays ----

  const NS_PER_MS := 1_000_000

  /** The delay behind attempt `k` in nanoseconds, in 64-bit arithmetic. */
  function RetryDelay(k: nat, baseMs: nat): int { CB.Int64(CB.Int64(baseMs * CB.Pow2(k)) * NS_PER_MS) }

  /** As long as the delay fits the register it is the base doubled `k` times. */
  lemma DelayDoubles(k: nat, baseMs: nat)
    requires baseMs * CB.Pow2(k) * NS_PER_MS < CB.TWO_63
    ensures RetryDelay(k, baseMs) == baseMs * CB.Pow2(k) * NS_PER_MS
  {
    var d := baseMs * CB.Pow2(k);
    assert 0 <= d <= d * NS_PER_MS;
  }

  function Delays(n: nat, baseMs: nat): int {
    if n == 0 then 0 else Delays(n - 1, baseMs) + RetryDelay(n - 1, baseMs)
  }

  lemma {:induction false} DelaysAddUp(n: nat, baseMs: nat)
    requires n == 0 || baseMs * CB.Pow2(n - 1) * NS_PER_MS < CB.TWO_63
    ensures Delays(n, baseMs) == baseMs * (CB.Pow2(n) - 1) * NS_PER_MS
  {
    if n > 0 {
      if n > 1 {
        assert CB.Pow2(n - 1) == 2 * CB.Pow2(n - 2);
        Halved(baseMs, CB.Pow2(n - 2));
      }
      DelaysAddUp(n - 1, baseMs);
      DelayDoubles(n - 1, baseMs);
      Doubled(baseMs, CB.Pow2(n - 1));
      hide RetryDelay;
    }
  }

  lemma Halved(a: nat, p: nat)
    ensures a * p * NS_PER_MS <= a * (2 * p) * NS_PER_MS
  {
  }

  lemma Doubled(a: nat, p: nat)
    ensures a * (p - 1) * NS_PER_MS + a * p * NS_PER_MS == a * (2 * p - 1) * NS_PER_MS
  {
  }
}
