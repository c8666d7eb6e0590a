/**
  The temporal detector over the `timestamp` column of the anomalous subset.
  Timestamps are nanoseconds since the epoch; the differences are taken
  between consecutive records in the order given, without sorting.

  Signals: the differences are regular (their sample standard deviation is
  below a tenth of their mean), some difference is under one second, and some
  hour of the day holds more than 30% of the records. The regular-interval
  test is scale-free, so it is the same in nanoseconds as in seconds; it is
  evaluated by cross-multiplying: with m differences of sum S and sum of
  squares Q, "std < 0.1 mean" is S > 0 and 100 m (m Q - S^2) < (m - 1) S^2.
 */
module TemporalDetector {
  import opened Statistics
  import opened Records

  const NsPerSecond: int := 1_000_000_000
  const NsPerHour: int := 3600 * NsPerSecond

  datatype TemporalPatterns = TemporalPatterns(
    regularInterval: bool,
    burstTiming: bool,
    timeConcentration: bool)

  /** Consecutive differences in the given order (pandas `diff` without its leading NaN). */
  function Diffs(ts: seq<int>): (d: seq<int>)
    ensures |d| == if ts == [] then 0 else |ts| - 1
    ensures forall i | 0 <= i < |d| :: d[i] == ts[i + 1] - ts[i]
  {
    if ts == [] then [] else seq(|ts| - 1, i requires 0 <= i < |ts| - 1 => ts[i + 1] - ts[i])
  }

  /**
    std(d) < mean(d) * 0.1. The sample standard deviation needs two differences,
    so it is false below that; it is false as well when the mean is not positive.
   */
  function RegularInterval(d: seq<int>): (r: bool)
    ensures r ==> |d| >= 2 && Sum(d) > 0
  {
    var m, s, q := |d|, Sum(d), SumSq(d);
    m >= 2 && s > 0 && 100 * m * (m * q - s * s) < (m - 1) * s * s
  }

  /** Some difference is below one second (negative, out-of-order ones included). */
  function BurstTiming(d: seq<int>): (r: bool)
    ensures r ==> d != []
  {
    exists i | 0 <= i < |d| :: d[i] < NsPerSecond
  }

  /** Hour of the day, 0 to 23, of a timestamp. */
  function Hour(t: int): (h: int)
    ensures 0 <= h < 24
  {
    (t / NsPerHour) % 24
  }

  /** The derived `hour` column. */
  function Hours(ts: seq<int>): (hs: seq<int>)
    ensures |hs| == |ts|
    ensures forall i | 0 <= i < |ts| :: hs[i] == Hour(ts[i])
  {
    seq(|ts|, i requires 0 <= i < |ts| => Hour(ts[i]))
  }

  /**
    Some hour's count is above 0.3 times the number of records. With one to three
    records, one record alone is above that, so the test always fires.
   */
  function DetectTimeConcentration(ts: seq<int>): (r: bool)
    ensures r <==> exists h | 0 <= h < 24 :: Count(Hours(ts), h) * 10 > 3 * |ts|
    ensures 1 <= |ts| <= 3 ==> r
  {
    var hs := Hours(ts);
    assert hs != [] ==> hs[0] in Distinct(hs);
    HourBuckets(ts);
    exists h | h in Distinct(hs) :: Count(hs, h) * 10 > 3 * |hs|
  }

  /** The hours that occur are among the 24 buckets 0..23, and a bucket with a positive count occurs. */
  lemma HourBuckets(ts: seq<int>)
    ensures (exists h | h in Distinct(Hours(ts)) :: Count(Hours(ts), h) * 10 > 3 * |ts|)
        <==> exists h | 0 <= h < 24 :: Count(Hours(ts), h) * 10 > 3 * |ts|
  {
    var hs := Hours(ts);
    if h :| h in Distinct(hs) && Count(hs, h) * 10 > 3 * |ts| {
      var i :| 0 <= i < |hs| && hs[i] == h;
      assert 0 <= h < 24;
    }
    if h :| 0 <= h < 24 && Count(hs, h) * 10 > 3 * |ts| {
      assert h in Distinct(hs);
    }
  }

  /** The three temporal signals of the anomalous subset. */
  function AnalyzeTemporalPatterns(a: seq<Record>): (p: TemporalPatterns)
    ensures p.regularInterval == RegularInterval(Diffs(Timestamps(a)))
    ensures p.burstTiming == BurstTiming(Diffs(Timestamps(a)))
    ensures p.timeConcentration == DetectTimeConcentration(Timestamps(a))
    ensures |a| < 3 ==> !p.regularInterval
    ensures 1 <= |a| <= 3 ==> p.timeConcentration
  {
    var ts := Timestamps(a);
    var d := Diffs(ts);
    TemporalPatterns(RegularInterval(d), BurstTiming(d), DetectTimeConcentration(ts))
  }

  // ---------------------------------------------------------------------------

  /** The differences telescope: their sum is the last timestamp minus the first. */
  lemma {:induction false} DiffsTelescope(ts: seq<int>)
    requires ts != []
    ensures Sum(Diffs(ts)) == ts[|ts| - 1] - ts[0]
  {
    if |ts| >= 2 {
      DiffsTelescope(ts[1..]);
      DiffsCons(ts);
    }
  }

  lemma DiffsCons(ts: seq<int>)
    requires |ts| >= 2
    ensures Diffs(ts) == [ts[1] - ts[0]] + Diffs(ts[1..])
  {
    var d, e := Diffs(ts), Diffs(ts[1..]);
    assert |d| == 1 + |e|;
    forall i | 0 <= i < |d| ensures d[i] == ([ts[1] - ts[0]] + e)[i] {
      if i > 0 {
        assert e[i - 1] == ts[1..][i] - ts[1..][i - 1];
      }
    }
  }

  /**
    Since the differences are not sorted first, their mean is (last - first)/(n - 1):
    a regular interval needs three records and a last record later than the first.
   */
  lemma RegularIntervalNeedsForwardSpan(ts: seq<int>)
    requires RegularInterval(Diffs(ts))
    ensures |ts| >= 3 && ts[|ts| - 1] > ts[0]
  {
    DiffsTelescope(ts);
  }

  lemma LowDispersionStep(m: int, p: int, s: int, sd: real)
    requires m >= 2 && s > 0 && sd >= 0.0
    requires sd * sd == (p as real) / ((m * (m - 1)) as real)
    ensures sd < (s as real) / (m as real) * 0.1 <==> 100 * m * p < (m - 1) * s * s
  {
    var mr, pr, sr := m as real, p as real, s as real;
    VarianceTimesDenominator(m, p, sd);
    RealLowDispersion(mr, pr, sr, sd);
    CastProduct3(100, m, p);
    CastProduct3(m - 1, s, s);
    assert ((m - 1) as real) == mr - 1.0;
    CastLess(100 * m * p, (m - 1) * s * s);
  }

  lemma RealLowDispersion(m: real, p: real, s: real, sd: real)
    requires m >= 2.0 && s > 0.0 && sd >= 0.0
    requires sd * sd * (m * (m - 1.0)) == p
    ensures sd < s / m * 0.1 <==> 100.0 * m * p < (m - 1.0) * s * s
  {
    var u := s / m;
    assert u * m == s;
    var k := 100.0 * m * m * (m - 1.0);
    MulPos(m, m);
    MulPos(100.0 * m * m, m - 1.0);
    SquareMonotone(sd, u * 0.1);
    ScaleLess(sd * sd, (u * 0.1) * (u * 0.1), k);
    VarianceScaled(sd * sd, m, p);
    TenthSquaredScaled(u, m, s);
  }

  lemma VarianceScaled(a: real, m: real, p: real)
    requires a * (m * (m - 1.0)) == p
    ensures a * (100.0 * m * m * (m - 1.0)) == 100.0 * m * p
  {
    assert a * (100.0 * m * m * (m - 1.0)) == 100.0 * m * (a * (m * (m - 1.0)));
  }

  lemma TenthSquaredScaled(u: real, m: real, s: real)
    requires u * m == s
    ensures (u * 0.1) * (u * 0.1) * (100.0 * m * m * (m - 1.0)) == (m - 1.0) * s * s
  {
    assert (u * 0.1) * (u * 0.1) * (100.0 * m * m * (m - 1.0)) == (m - 1.0) * (u * m) * (u * m);
  }

  lemma NonPositiveMeanStep(m: int, s: int, sd: real)
    requires m >= 1 && s <= 0 && sd >= 0.0
    ensures !(sd < (s as real) / (m as real) * 0.1)
  {
    var mr, sr := m as real, s as real;
    assert (sr / mr) * mr == sr;
    assert sr / mr <= 0.0;
  }

  /** `regular_interval`: the sample standard deviation of the differences is below a tenth of their mean. */
  lemma RegularIntervalIsLowDispersion(d: seq<int>, sd: real)
    requires IsSampleStd(d, sd)
    ensures RegularInterval(d) <==> sd < Mean(d) * 0.1
  {
    var m, s, q := |d|, Sum(d), SumSq(d);
    SampleVarianceClosedForm(d);
    assert Mean(d) == (s as real) / (m as real);
    if s > 0 {
      LowDispersionStep(m, m * q - s * s, s, sd);
      assert RegularInterval(d) <==> 100 * m * (m * q - s * s) < (m - 1) * s * s;
    } else {
      NonPositiveMeanStep(m, s, sd);
    }
  }

  lemma EqualSpacingStep(m: int, c: int, s: int, q: int)
    requires m >= 2 && c > 0 && s == m * c && q == m * c * c
    ensures m >= 2 && s > 0 && 100 * m * (m * q - s * s) < (m - 1) * s * s
  {
    assert m * q - s * s == 0;
    MulPosInt(m, c);
    MulPosInt(s, s);
    MulPosInt(m - 1, s * s);
    assert (m - 1) * s * s == (m - 1) * (s * s);
  }

  lemma MulPosInt(a: int, b: int)
    requires a > 0 && b > 0
    ensures a * b > 0
  {
  }

  /** Three or more records equally spaced by a positive interval are regular. */
  lemma EquallySpacedIsRegular(ts: seq<int>, c: int)
    requires |ts| >= 3 && c > 0
    requires forall i | 0 <= i < |ts| - 1 :: Diffs(ts)[i] == c
    ensures RegularInterval(Diffs(ts))
  {
    var d := Diffs(ts);
    SumConstant(d, c);
    EqualSpacingStep(|d|, c, Sum(d), SumSq(d));
  }

  /** The differences expressed in a unit `k` times finer. */
  function Scaled(d: seq<int>, k: int): (e: seq<int>)
    ensures |e| == |d|
    ensures forall i | 0 <= i < |d| :: e[i] == k * d[i]
  {
    seq(|d|, i requires 0 <= i < |d| => k * d[i])
  }

  lemma ScaledSums(d: seq<int>, k: int)
    ensures Sum(Scaled(d, k)) == k * Sum(d)
    ensures SumSq(Scaled(d, k)) == k * k * SumSq(d)
  {
    ScaledSum(d, k);
    ScaledSumSq(d, k);
  }

  lemma {:induction false} ScaledSum(d: seq<int>, k: int)
    ensures Sum(Scaled(d, k)) == k * Sum(d)
  {
    if d != [] {
      var e := Scaled(d, k);
      assert e[1..] == Scaled(d[1..], k);
      ScaledSum(d[1..], k);
      assert Sum(e) == k * d[0] + k * Sum(d[1..]);
      Distribute(k, d[0], Sum(d[1..]));
    }
  }

  lemma {:induction false} ScaledSumSq(d: seq<int>, k: int)
    ensures SumSq(Scaled(d, k)) == k * k * SumSq(d)
  {
    if d != [] {
      var e := Scaled(d, k);
      assert e[1..] == Scaled(d[1..], k);
      ScaledSumSq(d[1..], k);
      SquareOfProduct(k, d[0]);
      assert SumSq(e) == k * k * (d[0] * d[0]) + k * k * SumSq(d[1..]);
      Distribute(k * k, d[0] * d[0], SumSq(d[1..]));
    }
  }

  lemma Distribute(c: int, x: int, y: int)
    ensures c * x + c * y == c * (x + y)
  {
  }

  lemma SquareOfProduct(k: int, x: int)
    ensures (k * x) * (k * x) == k * k * (x * x)
  {
  }

  lemma ScaledTestIdentity(m: int, s: int, q: int, k: int)
    ensures 100 * m * (m * (k * k * q) - (k * s) * (k * s)) == k * k * (100 * m * (m * q - s * s))
    ensures (m - 1) * (k * s) * (k * s) == k * k * ((m - 1) * s * s)
  {
  }

  lemma MulLessInt(c: int, x: int, y: int)
    requires c > 0
    ensures c * x < c * y <==> x < y
  {
    if x < y {
      assert c * y - c * x == c * (y - x);
      MulPosInt(c, y - x);
    } else {
      assert c * x - c * y == c * (x - y);
      if x > y {
        MulPosInt(c, x - y);
      }
    }
  }

  /**
    The regular-interval test is free of the time unit: it gives the same answer
    on the differences in seconds as on the same differences in a unit k times finer.
   */
  lemma RegularIntervalUnitFree(d: seq<int>, k: int)
    requires k > 0
    ensures RegularInterval(Scaled(d, k)) == RegularInterval(d)
  {
    var m, s, q := |d|, Sum(d), SumSq(d);
    ScaledSums(d, k);
    ScaledTestIdentity(m, s, q, k);
    MulPosInt(k, k);
    MulLessInt(k * k, 100 * m * (m * q - s * s), (m - 1) * s * s);
    if s > 0 {
      MulPosInt(k, s);
    } else {
      assert k * s <= 0 by {
        if s < 0 {
          MulPosInt(k, -s);
        }
      }
    }
  }

  /** `hour_counts > len(df) * 0.3`: the cross-multiplied count test is that real-valued comparison. */
  lemma ConcentrationIsCountAboveThirtyPercent(ts: seq<int>, h: int)
    ensures Count(Hours(ts), h) * 10 > 3 * |ts| <==> (Count(Hours(ts), h) as real) > (|ts| as real) * 0.3
  {
    var c, n := Count(Hours(ts), h), |ts|;
    assert ((c * 10) as real) == (c as real) * 10.0;
    assert ((3 * n) as real) == (n as real) * 3.0;
  }

  /** A record that comes before its predecessor in time gives a negative difference, which counts as a burst. */
  lemma OutOfOrderIsBurstTiming(ts: seq<int>, i: int)
    requires 0 <= i < |ts| - 1 && ts[i + 1] < ts[i]
    ensures BurstTiming(Diffs(ts))
  {
    assert Diffs(ts)[i] < NsPerSecond;
  }

  /** An hour holding more than 30% of the records makes the test fire. */
  lemma ConcentratedHourFires(ts: seq<int>, h: int)
    requires Count(Hours(ts), h) * 10 > 3 * |ts|
    ensures DetectTimeConcentration(ts)
  {
    assert h in Distinct(Hours(ts));
  }
}
