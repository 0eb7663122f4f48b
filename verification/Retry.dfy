/** The retry policy: which outcomes are retried, and after how long. Durations are whole nanoseconds. */
module Retry {
  import opened Wrappers
  import opened Model

  const MAX_DURATION := 0x7FFF_FFFF_FFFF_FFFF
  const SECOND := 1_000_000_000

  predicate IsDuration(d: int) {
    -MAX_DURATION - 1 <= d <= MAX_DURATION
  }

  /** Two's complement wrap-around of a signed 64-bit value. */
  function Wrap(x: int): (d: int)
    ensures IsDuration(d)
  {
    (x + MAX_DURATION + 1) % (2 * (MAX_DURATION + 1)) - MAX_DURATION - 1
  }

  function Saturate(x: int): (d: int)
    ensures IsDuration(d)
  {
    if x > MAX_DURATION then MAX_DURATION else if x < -MAX_DURATION - 1 then -MAX_DURATION - 1 else x
  }

  /** `retryStatus`. */
  predicate RetryStatus(status: int) {
    status == 0 || status == 408 || status == 425 || status == 429 || 500 <= status <= 599
  }

  /* ---- backoff ---- */

  function Pow2(k: nat): int {
    if k == 0 then 1 else 2 * Pow2(k - 1)
  }

  function Scaled(x: real, f: real): real {
    x * f
  }

  function Exponential(base: int, n: int): int
    requires n >= 1
  {
    base * Pow2(n - 1)
  }

  function Factor(jitter: int): real {
    0.75 + 0.5 * (jitter as real / 65535.0)
  }

  /** The delay before truncation; `jitter` is the first two bytes of the digest. */
  function RawBackoff(base: int, n: int, jitter: int): real
    requires n >= 1
  {
    Scaled(Exponential(base, n) as real, Factor(jitter))
  }

  /** The delay does not fit a duration. The conversion then gives any duration at all. */
  predicate Overflows(base: int, n: int, jitter: int)
    requires n >= 1
  {
    RawBackoff(base, n, jitter) >= (MAX_DURATION + 1) as real
  }

  /** `backoff`, with the result `wild` of an overflowing conversion. */
  function Backoff(base: int, n: int, jitter: int, wild: int): int
    requires n >= 1
  {
    if Overflows(base, n, jitter) then wild else RawBackoff(base, n, jitter).Floor
  }

  predicate Jitter(j: int) {
    0 <= j <= 65535
  }

  function Capped(d: int, limit: int): int {
    if d > limit then limit else d
  }

  lemma JitterFactor(j: int)
    requires Jitter(j)
    ensures 0.75 <= Factor(j) <= 1.25
  {
  }

  lemma ScaledBounds(x: real, f: real)
    requires x >= 0.0 && 0.75 <= f <= 1.25
    ensures 0.75 * x <= Scaled(x, f) <= 1.25 * x
  {
  }

  lemma {:induction false} Pow2Positive(k: nat)
    ensures Pow2(k) >= 1
  {
    if k == 0 {
    } else {
      Pow2Positive(k - 1);
    }
  }

  lemma ProductNonNegative(x: int, y: int)
    requires x >= 0 && y >= 0
    ensures x * y >= 0
  {
  }

  lemma RawBounds(base: int, n: int, j: int)
    requires base >= 0 && n >= 1 && Jitter(j)
    ensures Exponential(base, n) >= 0
    ensures var x := Exponential(base, n) as real; 0.75 * x <= RawBackoff(base, n, j) <= 1.25 * x
  {
    Pow2Positive(n - 1);
    ProductNonNegative(base, Pow2(n - 1));
    JitterFactor(j);
    assert Exponential(base, n) >= 0;
    hide Factor, Exponential, Scaled;
    ScaledBounds(Exponential(base, n) as real, Factor(j));
  }

  lemma Doubles(base: int, n: int)
    requires n >= 1
    ensures Exponential(base, n + 1) == 2 * Exponential(base, n)
  {
    var p := Pow2(n - 1);
    assert Pow2(n) == 2 * p;
    assert base * (2 * p) == 2 * (base * p);
  }

  /** The next delay is at least as long whatever the two jitter values are, because 0.75 * 2 > 1.25: with
      the cap, as long as the longer one does not overflow. */
  lemma BackoffGrows(base: int, n: int, j: int, k: int, limit: int, wild: int)
    requires base >= 0 && n >= 1 && Jitter(j) && Jitter(k) && !Overflows(base, n + 1, k)
    ensures 0 <= Capped(Backoff(base, n, j, wild), limit) || limit < 0
    ensures Capped(Backoff(base, n, j, wild), limit) <= Capped(Backoff(base, n + 1, k, wild), limit)
  {
    RawBounds(base, n, j);
    RawBounds(base, n + 1, k);
    Doubles(base, n);
    hide RawBackoff, Exponential;
    var x := Exponential(base, n) as real;
    assert Exponential(base, n + 1) as real == 2.0 * x;
    assert RawBackoff(base, n, j) <= RawBackoff(base, n + 1, k);
  }

  /** Over any number of attempts: later delays are never shorter than earlier ones. */
  lemma {:induction false} BackoffMonotone(base: int, n: int, m: int, j: int, k: int, limit: int, wild: int)
    requires base >= 0 && 1 <= n < m && Jitter(j) && Jitter(k)
    requires forall i, l :: n <= i <= m && Jitter(l) ==> !Overflows(base, i, l)
    ensures Capped(Backoff(base, n, j, wild), limit) <= Capped(Backoff(base, m, k, wild), limit)
    decreases m - n
  {
    hide RawBackoff, Backoff, Overflows;
    BackoffGrows(base, m - 1, if n == m - 1 then j else 0, k, limit, wild);
    if n < m - 1 {
      BackoffMonotone(base, n, m - 1, j, 0, limit, wild);
    }
  }

  lemma Pow2Bounded(k: nat)
    requires k <= 9
    ensures Pow2(k) <= 512
  {
    if k == 0 {
    } else {
      Pow2Bounded(k - 1);
      if k > 1 {
        Pow2Bounded(k - 2);
      }
    }
    assert Pow2(9) == 512 && Pow2(8) == 256 && Pow2(7) == 128 && Pow2(6) == 64 && Pow2(5) == 32 && Pow2(4) == 16;
  }

  /** With the default base and at most ten attempts nothing overflows. */
  lemma DefaultsFit(n: int, j: int)
    requires 1 <= n <= 10 && Jitter(j)
    ensures !Overflows(500_000_000, n, j)
  {
    RawBounds(500_000_000, n, j);
    Pow2Bounded(n - 1);
  }

  /* ---- Retry-After ---- */

  /** The parsers of the header value, which are not part of this model. */
  datatype Parsers = Parsers(seconds: string -> Option<int>, date: string -> Option<Time>) {
    /** `ParseInt(..., 64)` yields signed 64-bit values. */
    ghost predicate Valid() {
      forall v :: seconds(v).Some? ==> IsDuration(seconds(v).value)
    }
  }

  /** `parseRetry`: the delay the destination asks for, if it asks for one. */
  function ParseRetry(p: Parsers, v: string, now: Time): Option<int> {
    if v == "" then None
    else if p.seconds(v).Some? && p.seconds(v).value >= 0 then
      var limit := MAX_DURATION / SECOND;
      var s := if p.seconds(v).value > limit then limit else p.seconds(v).value;
      Some(Wrap(s * SECOND))
    else if p.date(v).Some? then
      var d := Saturate(p.date(v).value - now);
      Some(if d > 0 then d else 0)
    else None
  }

  lemma WrapSmall(x: int)
    requires 0 <= x <= MAX_DURATION
    ensures Wrap(x) == x
  {
  }

  /** A requested delay is never negative: the product of seconds never wraps, whatever was parsed. */
  lemma RetryAfterNonNegative(p: Parsers, v: string, now: Time)
    ensures ParseRetry(p, v, now).Some? ==> 0 <= ParseRetry(p, v, now).value <= MAX_DURATION
    ensures v != "" && p.seconds(v).Some? && 0 <= p.seconds(v).value <= MAX_DURATION / SECOND ==>
              ParseRetry(p, v, now) == Some(p.seconds(v).value * SECOND)
  {
    if v != "" && p.seconds(v).Some? && p.seconds(v).value >= 0 {
      var limit := MAX_DURATION / SECOND;
      var s := if p.seconds(v).value > limit then limit else p.seconds(v).value;
      assert 0 <= s * SECOND <= MAX_DURATION;
      WrapSmall(s * SECOND);
    }
  }

  /* ---- the outcome of an attempt ---- */

  /** How long, and from when, the retry is put off. */
  function Delay(retryAfter: Option<int>, backoff: int, limit: int): int {
    Capped(if retryAfter.Some? then retryAfter.value else backoff, limit)
  }

  /** The state `forward` records after attempt `n`: `failed` says that no response came. */
  function OutcomeOf(failed: bool, status: int, n: int, attempts: int): JobState {
    if !failed && 200 <= status < 300 then Succeeded
    else if !failed && !RetryStatus(status) then Fatal
    else if n >= attempts then DeadLetter
    else Retrying
  }

  /** Which replies succeed, which are retried while attempts are left, and which are not retried. */
  lemma OutcomeLaw(failed: bool, status: int, n: int, attempts: int)
    ensures !failed && 200 <= status <= 299 ==> OutcomeOf(failed, status, n, attempts) == Succeeded
    ensures failed || status == 0 || status == 408 || status == 425 || status == 429 || 500 <= status <= 599 ==>
              OutcomeOf(failed, status, n, attempts) == if n < attempts then Retrying else DeadLetter
    ensures !failed && !(200 <= status <= 299) && status != 0 && status != 408 && status != 425 && status != 429 && !(500 <= status <= 599) ==>
              OutcomeOf(failed, status, n, attempts) == Fatal
  {
  }

  /** What a header value asks for: so many seconds, or the time until a date, and never less than nothing. */
  lemma ParseLaw(p: Parsers, v: string, now: Time)
    ensures v == "" ==> ParseRetry(p, v, now) == None
    ensures v != "" && p.seconds(v).Some? && 0 <= p.seconds(v).value <= 9_223_372_036 ==>
              ParseRetry(p, v, now) == Some(p.seconds(v).value * 1_000_000_000)
    ensures v != "" && p.seconds(v).Some? && p.seconds(v).value > 9_223_372_036 ==>
              ParseRetry(p, v, now) == Some(9_223_372_036_000_000_000)
    ensures v != "" && (p.seconds(v).None? || p.seconds(v).value < 0) && p.date(v).None? ==> ParseRetry(p, v, now) == None
    ensures v != "" && (p.seconds(v).None? || p.seconds(v).value < 0) && p.date(v).Some? && IsDuration(p.date(v).value - now) ==>
              ParseRetry(p, v, now) == Some(if p.date(v).value > now then p.date(v).value - now else 0)
  {
    if v != "" && p.seconds(v).Some? && p.seconds(v).value >= 0 {
      var s := if p.seconds(v).value > 9_223_372_036 then 9_223_372_036 else p.seconds(v).value;
      assert MAX_DURATION / SECOND == 9_223_372_036;
      assert 0 <= s * SECOND <= MAX_DURATION;
      WrapSmall(s * SECOND);
    }
  }

  /** The exponential base starts at the base and doubles, and the jitter reaches from three quarters of it to five quarters. */
  lemma BackoffLaw(base: int, n: int, wild: int)
    requires n >= 1
    ensures Exponential(base, 1) == base && Exponential(base, n + 1) == 2 * Exponential(base, n)
    ensures RawBackoff(base, n, 0) == 0.75 * (Exponential(base, n) as real)
    ensures RawBackoff(base, n, 65535) == 1.25 * (Exponential(base, n) as real)
    ensures forall j :: Jitter(j) && RawBackoff(base, n, j) < 9_223_372_036_854_775_808.0 ==> Backoff(base, n, j, wild) == RawBackoff(base, n, j).Floor
  {
    Doubles(base, n);
    assert Pow2(0) == 1;
    assert Factor(0) == 0.75 && Factor(65535) == 1.25;
  }

  /** A retry is due no earlier than the attempt finished and no later than the maximal backoff after that,
      whatever an overflowing conversion yields, exactly if the destination named a delay or the backoff does
      not overflow. */
  lemma RetryDelayBounds(p: Parsers, v: string, now: Time, base: int, n: int, j: int, limit: int)
    requires base >= 0 && n >= 1 && Jitter(j) && 0 <= limit <= MAX_DURATION
    ensures (forall wild :: IsDuration(wild) ==> 0 <= Delay(ParseRetry(p, v, now), Backoff(base, n, j, wild), limit) <= limit)
        <==> ParseRetry(p, v, now).Some? || !Overflows(base, n, j)
  {
    RetryAfterNonNegative(p, v, now);
    RawBounds(base, n, j);
    hide RawBackoff, ParseRetry;
    if ParseRetry(p, v, now).None? && Overflows(base, n, j) {
      assert IsDuration(-1);
      assert Delay(ParseRetry(p, v, now), Backoff(base, n, j, -1), limit) == -1;
    }
  }

  lemma Pow2Of35()
    ensures Exponential(500_000_000, 36) == 500_000_000 * 34_359_738_368
  {
    assert Pow2(5) == 32;
    assert Pow2(10) == 1024;
    assert Pow2(15) == 32_768;
    assert Pow2(20) == 1_048_576;
    assert Pow2(25) == 33_554_432;
    assert Pow2(30) == 1_073_741_824;
    assert Pow2(35) == 34_359_738_368;
  }

  /** The overflow is real: with the default base the backoff of attempt 36 does not fit a duration, and a conversion that
      then yields a negative value puts the retry before the end of the attempt, whatever the cap. The command line permits at
      most ten attempts, for which `DefaultsFit` excludes this. */
  lemma BackoffLost(j: int, limit: int)
    requires Jitter(j) && limit >= 0
    ensures Overflows(500_000_000, 36, j)
    ensures IsDuration(-1) && Delay(None, Backoff(500_000_000, 36, j, -1), limit) == -1
  {
    RawBounds(500_000_000, 36, j);
    Pow2Of35();
    hide RawBackoff, Pow2;
  }

  /** The last permitted attempt is never followed by a retry, and its outcome is final. */
  lemma LastAttemptFinal(failed: bool, status: int, n: int, attempts: int)
    ensures OutcomeOf(failed, status, n, attempts) == Retrying ==> n < attempts && (failed || RetryStatus(status))
    ensures n >= attempts ==> Terminal(OutcomeOf(failed, status, n, attempts))
  {
  }
}
