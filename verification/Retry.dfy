/** The bounded retry loop around every Cloudflare request (cli/src/deploy.rs). */
module Retry {

  const U32_SIZE: nat := 0x1_0000_0000
  const U64_MAX: nat := 0xFFFF_FFFF_FFFF_FFFF
  const MAX_ATTEMPTS: nat := 5
  const RETRY_BASE_MS: nat := 400

  function Pow2(e: nat): (r: nat)
    ensures r >= 1
  {
    if e == 0 then 1 else 2 * Pow2(e - 1)
  }

  /** `2u64.saturating_pow(e)` */
  function SaturatingPow2(e: nat): nat {
    if e >= 64 then U64_MAX else Pow2(e)
  }

  function SaturatingMul(a: nat, b: nat): nat {
    if a * b > U64_MAX then U64_MAX else a * b
  }

  /** The delay after the given attempt; the exponent is truncated to 32 bits. */
  function RetryDelayMs(attempt: nat): nat {
    var exponent := (if attempt == 0 then 0 else attempt - 1) % U32_SIZE;
    var delay := SaturatingMul(RETRY_BASE_MS, SaturatingPow2(exponent));
    if delay < 5000 then delay else 5000
  }

  lemma {:induction false} Pow2AtLeast(e: nat)
    requires e >= 4
    ensures Pow2(e) >= 16
  {
    if e == 4 {
      assert Pow2(4) == 2 * Pow2(3) == 4 * Pow2(2) == 8 * Pow2(1) == 16;
    } else {
      Pow2AtLeast(e - 1);
    }
  }

  /** Doubling from 400 ms, capped at 5 s from the fifth attempt on. */
  lemma DelayTable(attempt: nat)
    ensures var e := (if attempt == 0 then 0 else attempt - 1) % U32_SIZE;
      RetryDelayMs(attempt) ==
        if e == 0 then 400 else if e == 1 then 800 else if e == 2 then 1600 else if e == 3 then 3200 else 5000
  {
    var e := (if attempt == 0 then 0 else attempt - 1) % U32_SIZE;
    if e >= 4 {
      if e < 64 { Pow2AtLeast(e); }
    } else {
      assert Pow2(0) == 1 && Pow2(1) == 2 && Pow2(2) == 4 && Pow2(3) == 2 * Pow2(2);
    }
  }

  /** The delay never shrinks as attempts grow up to 2^32, and the 32-bit truncation makes it
      fall back to 400 ms right after that. */
  lemma DelayMonotoneExactlyUpTo(bound: nat)
    ensures (forall a: nat, b: nat :: a <= b <= bound ==> RetryDelayMs(a) <= RetryDelayMs(b)) <==> bound <= U32_SIZE
  {
    if bound <= U32_SIZE {
      forall a: nat, b: nat | a <= b <= bound ensures RetryDelayMs(a) <= RetryDelayMs(b) {
        DelayTable(a);
        DelayTable(b);
      }
    } else {
      DelayTable(U32_SIZE);
      DelayTable(U32_SIZE + 1);
      assert RetryDelayMs(U32_SIZE) > RetryDelayMs(U32_SIZE + 1);
    }
  }

  // ----------------------------------------------------------------- the loop

  datatype Reply =
    | Response(status: nat)
    | TransportError(timeout: bool, connect: bool, request: bool, body: bool)

  predicate Retryable(r: Reply) {
    match r
    case Response(status) => status == 429 || 500 <= status < 600
    case TransportError(timeout, connect, request, body) => timeout || connect || request || body
  }

  /** Retried are too many requests, every server error, and every transport error but those of
      a response that cannot be read. */
  lemma RetriedReplies(r: Reply)
    ensures r.Response? ==> (Retryable(r) <==> r.status == 429 || r.status / 100 == 5)
    ensures r.TransportError? ==> (!Retryable(r) <==> r == TransportError(false, false, false, false))
  {
  }

  datatype SendResult = Answered(reply: Reply) | Exhausted

  /** Time slept before the request that follows `retries` failed ones. */
  function TotalDelay(retries: nat): nat {
    if retries == 0 then 0 else TotalDelay(retries - 1) + RetryDelayMs(retries)
  }

  lemma TotalDelayBound(retries: nat)
    requires retries < MAX_ATTEMPTS
    ensures TotalDelay(retries) <= 6000
  {
    DelayTable(1);
    DelayTable(2);
    DelayTable(3);
    DelayTable(4);
    assert TotalDelay(4) == TotalDelay(3) + 3200 && TotalDelay(3) == TotalDelay(2) + 1600;
    assert TotalDelay(2) == TotalDelay(1) + 800 && TotalDelay(1) == 400;
  }

  /** Sends until a reply is not worth retrying or the attempts run out; `replies(i)` is what
      the (i+1)-th request would get. The error after the loop is never returned. */
  method SendWithRetry(replies: nat -> Reply) returns (result: SendResult, requests: nat, slept: nat)
    ensures 1 <= requests <= 5
    ensures forall i: nat :: i < requests - 1 ==> Retryable(replies(i))
    ensures requests < 5 ==> !Retryable(replies(requests - 1))
    ensures result == Answered(replies(requests - 1))
    ensures slept == TotalDelay(requests - 1) <= 6000
  {
    requests, slept := 0, 0;
    for attempt := 1 to MAX_ATTEMPTS + 1
      invariant requests == attempt - 1
      invariant attempt <= MAX_ATTEMPTS
      invariant forall i: nat :: i < attempt - 1 ==> Retryable(replies(i))
      invariant slept == TotalDelay(attempt - 1)
    {
      var reply := replies(requests);
      requests := requests + 1;
      TotalDelayBound(attempt - 1);
      if Retryable(reply) && attempt < MAX_ATTEMPTS {
        slept := slept + RetryDelayMs(attempt);
      } else {
        return Answered(reply), requests, slept;
      }
    }
    result := Exhausted;
  }
}
