/** Java `long` arithmetic and the `TimeUnit`/`Instant` conversions the executors
    apply to their timestamps. Times are epoch nanoseconds or epoch milliseconds held
    in unbounded integers; every place where the Java code saturates, truncates or
    wraps is written out here. */
module JavaTime {

  const LongMin: int := -0x8000_0000_0000_0000
  const LongMax: int := 0x7FFF_FFFF_FFFF_FFFF
  const IntMax: int := 0x7FFF_FFFF
  const TwoTo64: int := 0x1_0000_0000_0000_0000
  const NanosPerMilli: int := 1_000_000

  /** `Long.MAX_VALUE / 1_000_000`: the largest millisecond count that converts
      to nanoseconds without saturating. */
  const MaxMillis: int := 9_223_372_036_854

  predicate InLong(x: int) {
    LongMin <= x <= LongMax
  }

  /** The value a Java `long` operation yields for the mathematical result `x`
      (two's-complement wrap-around). */
  function Wrap64(x: int): (r: int)
    ensures InLong(r)
    ensures (x - r) % TwoTo64 == 0
    ensures InLong(x) ==> r == x
  {
    var m := x % TwoTo64;
    if m <= LongMax then m else m - TwoTo64
  }

  /** A sum of two non-negative `long`s that comes out positive did not wrap. */
  lemma Wrap64Positive(x: int)
    requires 0 <= x <= 2 * LongMax && Wrap64(x) > 0
    ensures Wrap64(x) == x
  {
    assert x % TwoTo64 == x;
  }

  /** Java's `/` on integers: rounds toward zero. */
  function JavaDiv(a: int, b: int): (q: int)
    requires b > 0
    ensures a >= 0 ==> 0 <= q * b <= a < q * b + b
    ensures a < 0 ==> a <= q * b <= 0 && q * b < a + b
  {
    var n := if a >= 0 then a else -a;
    var m := n / b;
    assert m * b + n % b == n && 0 <= n % b < b;
    if a >= 0 then m else -m
  }

  /** `TimeUnit.NANOSECONDS.convert(millis, TimeUnit.MILLISECONDS)`: the product
      clamped to the `long` range. */
  function ToNanos(millis: int): (r: int)
    ensures InLong(r)
    ensures InLong(millis * NanosPerMilli) ==> r == millis * NanosPerMilli
    ensures millis * NanosPerMilli > LongMax ==> r == LongMax
    ensures millis * NanosPerMilli < LongMin ==> r == LongMin
  {
    if millis > MaxMillis then LongMax
    else if millis < -MaxMillis then LongMin
    else millis * NanosPerMilli
  }

  /** `TimeUnit.MILLISECONDS.convert(nanos, TimeUnit.NANOSECONDS)`: division by
      one million, rounding toward zero (so instants before 1970 round up). */
  function ToMillis(nanos: int): (r: int)
    ensures nanos >= 0 ==> 0 <= r * NanosPerMilli <= nanos < r * NanosPerMilli + NanosPerMilli
    ensures nanos < 0 ==> nanos <= r * NanosPerMilli <= 0 && r * NanosPerMilli < nanos + NanosPerMilli
  {
    JavaDiv(nanos, NanosPerMilli)
  }

  /** `Instant.toEpochMilli()` of an instant given in epoch nanoseconds: rounds
      toward negative infinity. */
  function EpochMillis(nanos: int): (r: int)
    ensures r * NanosPerMilli <= nanos < r * NanosPerMilli + NanosPerMilli
  {
    nanos / NanosPerMilli
  }

  /** Converting whole milliseconds to nanoseconds and back gives them back
      whenever the conversion does not saturate. */
  lemma MillisRoundTrip(millis: int)
    requires -MaxMillis <= millis <= MaxMillis
    ensures ToMillis(ToNanos(millis)) == millis
    ensures EpochMillis(ToNanos(millis)) == millis
  {
  }
}
