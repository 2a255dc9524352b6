/** The sample arithmetic of the Matrix-to-Discord audio path: soft limiter and downmix. */
module Limiter {

  type int16 = x: int | -0x8000 <= x < 0x8000

  const THRESHOLD := 8192
  const RATIO := 10

  function Abs(x: int): nat {
    if x < 0 then -x else x
  }

  /** Go's integer division truncates toward zero. */
  function Quotient(a: int, b: nat): int
    requires b > 0
  {
    if a < 0 then -(-a / b) else a / b
  }

  /** Go's int16(x): the low 16 bits, read as a signed number. */
  function Wrap16(x: int): int16 {
    (x + 0x8000) % 0x1_0000 - 0x8000
  }

  function SoftLimit(s: int16): int16 {
    var abs := Abs(s);
    if abs <= THRESHOLD then s
    else
      var compressed := THRESHOLD + (abs - THRESHOLD) / RATIO;
      var clamped := if compressed > 32767 then 32767 else compressed;
      if s < 0 then -clamped else clamped
  }

  /** The limiter, said without division: below the threshold nothing changes; above it the sign stays
      and ten units of excess make one. The clamp plays no part. */
  lemma SoftLimitMeaning(s: int16)
    ensures SoftLimit(s) == s <==> Abs(s) <= 8192
    ensures Abs(s) > 8192 ==>
              var excess := Abs(SoftLimit(s)) - 8192;
              (SoftLimit(s) < 0 <==> s < 0) && excess >= 0
              && 10 * excess <= Abs(s) - 8192 < 10 * (excess + 1)
    ensures Abs(SoftLimit(s)) <= 10649
    ensures SoftLimit(-32768) == -10649 && SoftLimit(32767) == 10649
  {
  }

  lemma SoftLimitIsMonotone(a: int16, b: int16)
    requires a <= b
    ensures 0 <= SoftLimit(b) - SoftLimit(a) <= b - a
  {
  }

  /** Odd wherever the opposite sample exists; -32768 has no opposite. */
  lemma SoftLimitIsOdd(s: int16)
    ensures s != -32768 ==> SoftLimit(-s) == -SoftLimit(s)
  {
  }

  /** A float64 product is the exact one, rounded: rounding keeps order, and leaves alone what a float64
      can hold, such as every multiple of 1/32 in this range. */
  type Rounding = real -> real

  function Part32(k: int): real {
    k as real / 32.0
  }

  ghost predicate IsRounding(round: Rounding) {
    && (forall x: real, y: real :: x <= y ==> round(x) <= round(y))
    && (forall k: int :: -0x20_0000 <= k <= 0x20_0000 ==> round(Part32(k)) == Part32(k))
  }

  /** The float64 nearest to 0.65. */
  const GAIN: real := 5854679515581645.0 / 9007199254740992.0

  function Truncate(x: real): int {
    if x < 0.0 then -((-x).Floor) else x.Floor
  }

  /** int16(float64(mono) * 0.65); the conversion truncates toward zero. */
  function Gain(round: Rounding, mono: int): int16 {
    Wrap16(Truncate(round(mono as real * GAIN)))
  }

  function Downmix(round: Rounding, left: int16, right: int16): int16 {
    Gain(round, Quotient(left + right, 2))
  }

  lemma Between(round: Rounding, x: real, lo: int, hi: int)
    requires IsRounding(round) && -0x20_0000 <= lo <= 0x20_0000 && -0x20_0000 <= hi <= 0x20_0000
    requires Part32(lo) <= x <= Part32(hi)
    ensures Part32(lo) <= round(x) <= Part32(hi)
  {
    assert round(Part32(lo)) <= round(x) <= round(Part32(hi));
  }

  /** The product lies between a multiple of 1 and 31/32 more. */
  lemma ProductIsClose(m: int, q: int)
    requires 0 <= m <= 32768 && 20 * q <= 13 * m <= 20 * q + 19
    ensures Part32(32 * q) <= m as real * GAIN <= Part32(32 * q + 31)
  {
    assert (20 * q) as real <= (13 * m) as real <= (20 * q + 19) as real;
  }

  lemma TruncateBetween(x: real, q: int)
    requires q >= 0
    ensures Part32(32 * q) <= x <= Part32(32 * q + 31) ==> Truncate(x) == q
    ensures Part32(32 * q) <= -x <= Part32(32 * q + 31) ==> Truncate(x) == -q
  {
  }

  lemma RoundedIsClose(round: Rounding, x: real, q: int)
    requires IsRounding(round) && 0 <= q <= 0xFFFF
    ensures Part32(32 * q) <= x <= Part32(32 * q + 31) ==> Truncate(round(x)) == q
    ensures Part32(32 * q) <= -x <= Part32(32 * q + 31) ==> Truncate(round(x)) == -q
  {
    var lo, hi := 32 * q, 32 * q + 31;
    TruncateBetween(round(x), q);
    if Part32(lo) <= x <= Part32(hi) {
      Between(round, x, lo, hi);
    }
    if Part32(lo) <= -x <= Part32(hi) {
      assert Part32(-lo) == -Part32(lo) && Part32(-hi) == -Part32(hi);
      Between(round, x, -hi, -lo);
    }
  }

  /** Exactly 13/20, truncated toward zero: neither the constant nor the product loses a step to rounding. */
  lemma GainIsThirteenTwentieths(round: Rounding, mono: int)
    requires IsRounding(round) && -32768 <= mono <= 32767
    ensures Gain(round, mono) == Quotient(13 * mono, 20)
    ensures Abs(Quotient(13 * mono, 20)) <= 21299
  {
    var m: int := if mono < 0 then -mono else mono;
    var q: int := 13 * m / 20;
    ProductIsClose(m, q);
    Mirrored(mono);
    RoundedIsClose(round, mono as real * GAIN, q);
    var whole: int := if mono < 0 then -q else q;
    TruncatesTo(round, mono, whole);
  }

  lemma TruncatesTo(round: Rounding, mono: int, whole: int)
    requires Truncate(round(mono as real * GAIN)) == whole && -21299 <= whole <= 21299
    ensures Gain(round, mono) == whole
  {
  }

  lemma Mirrored(mono: int)
    ensures mono as real * GAIN == -((-mono) as real * GAIN)
  {
  }

  /** The conversion back to 16 bits never wraps: the gain brings every average within 21299, and
      21299 is reached. */
  lemma DownmixNeverWraps(round: Rounding, left: int16, right: int16)
    requires IsRounding(round)
    ensures Abs(Downmix(round, left, right)) <= 21299
    ensures Downmix(round, left, right) == Quotient(13 * Quotient(left + right, 2), 20)
    ensures Downmix(round, -32768, -32768) == -21299
  {
    GainIsThirteenTwentieths(round, Quotient(left + right, 2));
    GainIsThirteenTwentieths(round, -32768);
  }

  /** Such roundings exist: not rounding is one. */
  lemma ExactIsARounding()
    ensures IsRounding(x => x)
  {
  }

  /** The downmix loop of a track in mixer mode: the first n samples of the mono buffer, from the first
      2n of the interleaved one. */
  method DownmixFrame(round: Rounding, stereoBuf: array<int16>, monoBuf: array<int16>, n: nat)
    requires 2 * n <= stereoBuf.Length && n <= monoBuf.Length && stereoBuf != monoBuf
    modifies monoBuf
    ensures forall i :: 0 <= i < n ==> monoBuf[i] == Downmix(round, stereoBuf[2 * i], stereoBuf[2 * i + 1])
    ensures monoBuf[n..] == old(monoBuf[n..])
  {
    var i := 0;
    while i < n
      invariant 0 <= i <= n
      invariant forall k :: 0 <= k < i ==> monoBuf[k] == Downmix(round, stereoBuf[2 * k], stereoBuf[2 * k + 1])
      invariant monoBuf[n..] == old(monoBuf[n..])
    {
      var left: int, right: int := stereoBuf[i * 2], stereoBuf[i * 2 + 1];
      var mono := Quotient(left + right, 2);
      monoBuf[i] := Gain(round, mono);
      i := i + 1;
    }
  }
}
