/** The magnitude colour buckets of `QuakeAdapter.getMagnitudeColor`. A
    bucket number stands for the colour resource the switch selects:
    1 is `magnitude1`, ..., 9 is `magnitude9`, 10 is `magnitude10plus`. */
module MagnitudeColors {

  const MinInt: int := -0x8000_0000
  const MaxInt: int := 0x7FFF_FFFF

  /** The colour bucket chosen by the `switch` on the integer floor of the
      magnitude: 0 and 1 share bucket 1, 2 through 9 are their own bucket,
      and every other floor (negative, or 10 and above) is the 10plus one. */
  function MagnitudeBucket(floor: int): (b: int)
    ensures 1 <= b <= 10
  {
    match floor
    case 0 => 1
    case 1 => 1
    case 2 => 2
    case 3 => 3
    case 4 => 4
    case 5 => 5
    case 6 => 6
    case 7 => 7
    case 8 => 8
    case 9 => 9
    case _ => 10
  }

  /** An independent description of the buckets: a floor inside 0..9 is
      raised to at least 1, anything outside that range is bucket 10. */
  function ClampedBucket(floor: int): int {
    if floor < 0 || 10 <= floor then 10
    else if floor < 1 then 1
    else floor
  }

  /** The switch and the clamp description agree on every floor. */
  lemma BucketIsClamp(floor: int)
    ensures MagnitudeBucket(floor) == ClampedBucket(floor)
  {
  }

  /** Floors 0 and 1 fall through to the same `magnitude1` case, and no
      other floor reaches bucket 1. */
  lemma BucketOneIsLowFloors(floor: int)
    ensures MagnitudeBucket(floor) == 1 <==> floor == 0 || floor == 1
  {
  }

  /** Each floor k from 2 to 9 has a case of its own: bucket k, reached by
      floor k and by nothing else. */
  lemma MiddleFloorsAreTheirOwnBucket(floor: int, k: int)
    requires 2 <= k <= 9
    ensures MagnitudeBucket(floor) == k <==> floor == k
  {
  }

  /** The `default` case: bucket 10 is reached exactly by the negative
      floors and by the floors of 10 and above. */
  lemma TenPlusIsDefault(floor: int)
    ensures MagnitudeBucket(floor) == 10 <==> floor < 0 || 10 <= floor
  {
  }

  /** Over non-negative floors a larger floor never gets a smaller bucket. */
  lemma BucketMonotoneOnNonNegative(lo: int, hi: int)
    requires 0 <= lo <= hi
    ensures MagnitudeBucket(lo) <= MagnitudeBucket(hi)
  {
  }

  /** The distance between two integers. */
  function Dist(a: int, b: int): nat {
    if a <= b then b - a else a - b
  }

  /** Java's `(int)` cast of a whole-valued `double`: the 32-bit value
      nearest to it, so values outside the range saturate to
      `Integer.MIN_VALUE` or `Integer.MAX_VALUE`. */
  function ToJavaInt(x: int): (r: int)
    ensures MinInt <= r <= MaxInt
    ensures forall y :: MinInt <= y <= MaxInt ==> Dist(r, x) <= Dist(y, x)
  {
    if x < MinInt then MinInt
    else if MaxInt < x then MaxInt
    else x
  }

  /** Saturation never changes the bucket: the saturated values are both in
      the 10plus range, as are the floors they replace. */
  lemma SaturationKeepsBucket(x: int)
    ensures MagnitudeBucket(ToJavaInt(x)) == MagnitudeBucket(x)
  {
  }

  /** `getMagnitudeColor` on an exact magnitude: floor it, cast it to `int`,
      switch on it. The bucket brackets the magnitude: below 2 (and not
      negative) it is bucket 1, from 2 up to 10 the bucket is the whole part
      of the magnitude, and otherwise it is bucket 10. */
  function MagnitudeColor(mag: real): (b: int)
    ensures 1 <= b <= 10
    ensures 0.0 <= mag < 2.0 ==> b == 1
    ensures 2.0 <= mag < 10.0 ==> b as real <= mag < b as real + 1.0
    ensures mag < 0.0 || 10.0 <= mag ==> b == 10
  {
    MagnitudeBucket(ToJavaInt(mag.Floor))
  }

  /** The bucket of a magnitude depends only on its whole part. */
  lemma SameFloorSameColor(m1: real, m2: real)
    requires m1.Floor == m2.Floor
    ensures MagnitudeColor(m1) == MagnitudeColor(m2)
  {
  }

  /** Worked magnitudes: 1.2 is bucket 1, 2.9 is bucket 2, 9.99 is bucket 9,
      15.0 and -0.5 are both bucket 10. */
  lemma MagnitudeColorExamples()
    ensures MagnitudeColor(1.2) == 1
    ensures MagnitudeColor(2.9) == 2
    ensures MagnitudeColor(9.99) == 9
    ensures MagnitudeColor(15.0) == 10
    ensures MagnitudeColor(-0.5) == 10
  {
  }
}
