/**
  The traffic-volume detector over the `bytes_transferred` column of the
  anomalous subset: two-sigma outliers above and below the mean (pandas sample
  standard deviation), and a burst test on the trailing three-record rolling mean.

  The thresholds are evaluated exactly, by cross-multiplying: with n values,
  sum S and sum of squares Q, "x > mean + 2 std" is
  n x - S > 0 and (n x - S)^2 (n - 1) > 4 n (n Q - S^2), and
  "rolling mean > 2 mean" is (a + b + c) n > 6 S. The lemmas tie each test to
  its real-valued statement. A standard deviation of fewer than two values is
  undefined (NaN in pandas), so every comparison with it is false.
 */
module TrafficDetector {
  import opened Statistics
  import opened Records

  datatype TrafficPatterns = TrafficPatterns(highVolume: bool, lowVolume: bool, burstPattern: bool)

  /** x > S/n + 2 sd, cross-multiplied (see TwoSigmaCrossMultiplied). */
  predicate AboveTwoSigma(n: int, s: int, q: int, x: int)
  {
    n * x - s > 0 && (n * x - s) * (n * x - s) * (n - 1) > 4 * n * (n * q - s * s)
  }

  /** x < S/n - 2 sd, cross-multiplied (see TwoSigmaCrossMultiplied). */
  predicate BelowTwoSigma(n: int, s: int, q: int, x: int)
  {
    s - n * x > 0 && (s - n * x) * (s - n * x) * (n - 1) > 4 * n * (n * q - s * s)
  }

  /** Some value lies strictly above mean + 2 std. */
  function HighVolume(v: seq<int>): (r: bool)
    ensures r ==> |v| >= 2
    ensures r ==> exists i | 0 <= i < |v| :: |v| * v[i] > Sum(v)
  {
    |v| >= 2 && exists i | 0 <= i < |v| :: AboveTwoSigma(|v|, Sum(v), SumSq(v), v[i])
  }

  /** Some value lies strictly below mean - 2 std. */
  function LowVolume(v: seq<int>): (r: bool)
    ensures r ==> |v| >= 2
    ensures r ==> exists i | 0 <= i < |v| :: |v| * v[i] < Sum(v)
  {
    |v| >= 2 && exists i | 0 <= i < |v| :: BelowTwoSigma(|v|, Sum(v), SumSq(v), v[i])
  }

  /**
    Some trailing window of three consecutive values (positions i-2..i, in the
    given order) has an average above twice the overall mean; false below three values.
   */
  function DetectBurstPattern(v: seq<int>): (r: bool)
    ensures |v| < 3 ==> !r
    ensures r ==> exists i | 2 <= i < |v| :: (v[i - 2] + v[i - 1] + v[i]) * |v| > 6 * Sum(v)
  {
    if |v| < 3 then false
    else exists i | 2 <= i < |v| :: (v[i - 2] + v[i - 1] + v[i]) * |v| > 6 * Sum(v)
  }

  /** The three traffic signals of the anomalous subset. */
  function AnalyzeTrafficPatterns(a: seq<Record>): (p: TrafficPatterns)
    ensures p.highVolume == HighVolume(Volumes(a))
    ensures p.lowVolume == LowVolume(Volumes(a))
    ensures p.burstPattern == DetectBurstPattern(Volumes(a))
    ensures |a| <= 5 ==> !p.highVolume && !p.lowVolume
    ensures |a| < 3 ==> !p.burstPattern
  {
    var v := Volumes(a);
    var p := TrafficPatterns(HighVolume(v), LowVolume(v), DetectBurstPattern(v));
    if |v| <= 5 then NoOutlierInSmallSample(v); p else p
  }

  // ---------------------------------------------------------------------------
  // The cross-multiplied tests against their real-valued statements.

  /** A deviation d from the mean exceeds two standard deviations iff d > 0 and d^2 (n-1) > 4 n P. */
  lemma DeviationExceedsTwoSigma(n: int, p: int, dev: int, sd: real)
    requires n >= 2 && sd >= 0.0
    requires sd * sd == (p as real) / ((n * (n - 1)) as real)
    ensures (dev as real) / (n as real) > 2.0 * sd <==> dev > 0 && dev * dev * (n - 1) > 4 * n * p
  {
    VarianceTimesDenominator(n, p, sd);
    RealDeviationExceedsTwoSigma(n as real, p as real, dev as real, sd);
    SquaredDeviationCast(n, p, dev);
    CastLess(0, dev);
  }

  lemma SquaredDeviationCast(n: int, p: int, dev: int)
    ensures var nr, pr, dr := n as real, p as real, dev as real;
      dr * dr * (nr - 1.0) > 4.0 * nr * pr <==> dev * dev * (n - 1) > 4 * n * p
  {
    CastProduct3(dev, dev, n - 1);
    CastProduct3(4, n, p);
    assert ((n - 1) as real) == n as real - 1.0;
    CastLess(4 * n * p, dev * dev * (n - 1));
  }

  lemma RealDeviationExceedsTwoSigma(n: real, p: real, d: real, sd: real)
    requires n >= 2.0 && sd >= 0.0
    requires sd * sd * (n * (n - 1.0)) == p
    ensures d / n > 2.0 * sd <==> d > 0.0 && d * d * (n - 1.0) > 4.0 * n * p
  {
    var t := 2.0 * sd * n;
    QuotientAbove(d, n, 2.0 * sd);
    MulNonnegReal(2.0 * sd, n);
    ScaledStdSquared(n, p, sd);
    if d > 0.0 {
      PositiveDeviationAbove(n, p, d, t);
    }
  }

  lemma ScaledStdSquared(n: real, p: real, sd: real)
    requires sd * sd * (n * (n - 1.0)) == p
    ensures (2.0 * sd * n) * (2.0 * sd * n) * (n - 1.0) == 4.0 * n * p
  {
    assert (2.0 * sd * n) * (2.0 * sd * n) * (n - 1.0) == 4.0 * n * (sd * sd * (n * (n - 1.0)));
  }

  lemma PositiveDeviationAbove(n: real, p: real, d: real, t: real)
    requires n >= 2.0 && t >= 0.0 && d > 0.0
    requires t * t * (n - 1.0) == 4.0 * n * p
    ensures d > t <==> d * d * (n - 1.0) > 4.0 * n * p
  {
    SquareMonotone(t, d);
    ScaleLess(t * t, d * d, n - 1.0);
  }

  /**
    With sd the sample standard deviation of n >= 2 values (sum s, sum of
    squares q), the cross-multiplied tests are exactly x > mean + 2 sd and
    x < mean - 2 sd.
   */
  lemma TwoSigmaCrossMultiplied(n: int, s: int, q: int, x: int, sd: real)
    requires n >= 2 && sd >= 0.0
    requires sd * sd == ((n * q - s * s) as real) / ((n * (n - 1)) as real)
    ensures AboveTwoSigma(n, s, q, x) <==> x as real > (s as real) / (n as real) + 2.0 * sd
    ensures BelowTwoSigma(n, s, q, x) <==> x as real < (s as real) / (n as real) - 2.0 * sd
  {
    var p := n * q - s * s;
    DeviationQuotient(n, x, s);
    DeviationExceedsTwoSigma(n, p, n * x - s, sd);
    DeviationExceedsTwoSigma(n, p, s - n * x, sd);
  }

  /** The deviation n x - s, divided by n, is x minus the mean s / n. */
  lemma DeviationQuotient(n: int, x: int, s: int)
    requires n >= 1
    ensures ((n * x - s) as real) / (n as real) == (x as real) - (s as real) / (n as real)
    ensures ((s - n * x) as real) / (n as real) == (s as real) / (n as real) - (x as real)
  {
    var nr, xr, sr := n as real, x as real, s as real;
    assert ((n * x - s) as real) == nr * xr - sr;
    assert (xr - sr / nr) * nr == nr * xr - sr;
    assert (sr / nr - xr) * nr == sr - nr * xr;
  }

  /** `high_volume`: some value is strictly above mean + 2 sample standard deviations. */
  lemma HighVolumeIsTwoSigmaOutlier(v: seq<int>, sd: real)
    requires IsSampleStd(v, sd)
    ensures HighVolume(v) <==> exists i | 0 <= i < |v| :: v[i] as real > Mean(v) + 2.0 * sd
    ensures LowVolume(v) <==> exists i | 0 <= i < |v| :: v[i] as real < Mean(v) - 2.0 * sd
  {
    SampleVarianceClosedForm(v);
    forall i | 0 <= i < |v|
      ensures AboveTwoSigma(|v|, Sum(v), SumSq(v), v[i]) <==> v[i] as real > Mean(v) + 2.0 * sd
      ensures BelowTwoSigma(|v|, Sum(v), SumSq(v), v[i]) <==> v[i] as real < Mean(v) - 2.0 * sd
    {
      TwoSigmaCrossMultiplied(|v|, Sum(v), SumSq(v), v[i], sd);
    }
  }

  /** The average of the trailing window ending at position i. */
  ghost function RollingMean(v: seq<int>, i: int): real
    requires 2 <= i < |v|
  {
    ((v[i - 2] + v[i - 1] + v[i]) as real) / 3.0
  }

  lemma ThirdAboveTwiceMean(w: int, n: int, s: int)
    requires n > 0
    ensures (w as real) / 3.0 > (s as real) / (n as real) * 2.0 <==> w * n > 6 * s
  {
    var wr, nr, sr := w as real, n as real, s as real;
    assert (wr / 3.0) * (3.0 * nr) == wr * nr;
    assert (sr / nr * 2.0) * (3.0 * nr) == 6.0 * sr;
    assert ((w * n) as real) == wr * nr;
  }

  /** `burst_pattern`: some defined 3-wide rolling mean exceeds twice the mean. */
  lemma BurstIsRollingMeanAboveTwiceMean(v: seq<int>)
    requires |v| >= 3
    ensures DetectBurstPattern(v) <==> exists i | 2 <= i < |v| :: RollingMean(v, i) > Mean(v) * 2.0
  {
    forall i | 2 <= i < |v|
      ensures (v[i - 2] + v[i - 1] + v[i]) * |v| > 6 * Sum(v) <==> RollingMean(v, i) > Mean(v) * 2.0
    {
      ThirdAboveTwiceMean(v[i - 2] + v[i - 1] + v[i], |v|, Sum(v));
    }
  }

  // ---------------------------------------------------------------------------
  // Degenerate and small inputs.

  /** A column of equal non-negative values has no outlier and no burst. */
  lemma EqualVolumesAreQuiet(v: seq<int>, c: int)
    requires c >= 0 && forall i | 0 <= i < |v| :: v[i] == c
    ensures !HighVolume(v) && !LowVolume(v) && !DetectBurstPattern(v)
  {
    SumConstant(v, c);
    assert forall i | 0 <= i < |v| :: |v| * v[i] - Sum(v) == 0;
    if |v| >= 3 {
      forall i | 2 <= i < |v| ensures (v[i - 2] + v[i - 1] + v[i]) * |v| <= 6 * Sum(v) {
        assert (v[i - 2] + v[i - 1] + v[i]) * |v| == 3 * (|v| * c);
      }
    }
  }

  lemma SmallSampleStep(n: int, s: int, q: int, x: int)
    requires 2 <= n <= 5 && n * q - s * s >= 0
    requires (n * x - s) * (n * x - s) <= (n - 1) * (n * q - s * s)
    ensures !AboveTwoSigma(n, s, q, x) && !BelowTwoSigma(n, s, q, x)
  {
    var e, p := (n * x - s) * (n * x - s), n * q - s * s;
    assert (s - n * x) * (s - n * x) == e;
    assert e * (n - 1) <= (n - 1) * p * (n - 1);
    assert (n - 1) * (n - 1) <= 4 * n;
    assert (n - 1) * p * (n - 1) <= 4 * n * p;
  }

  /**
    By Samuelson's inequality no value of n <= 5 lies more than (n - 1)/sqrt(n) < 2
    sample standard deviations from the mean, so neither outlier test can fire.
   */
  lemma NoOutlierInSmallSample(v: seq<int>)
    requires |v| <= 5
    ensures !HighVolume(v) && !LowVolume(v)
  {
    if |v| >= 2 {
      VarianceNumeratorNonneg(v);
      forall i | 0 <= i < |v|
        ensures !AboveTwoSigma(|v|, Sum(v), SumSq(v), v[i]) && !BelowTwoSigma(|v|, Sum(v), SumSq(v), v[i])
      {
        Samuelson(v, i);
        SmallSampleStep(|v|, Sum(v), SumSq(v), v[i]);
      }
    }
  }

  /** Six values are enough: one non-zero value among five zeros is a high-volume outlier. */
  lemma SixValuesCanSpike()
    ensures HighVolume([0, 0, 0, 0, 0, 1])
  {
    var v := [0, 0, 0, 0, 0, 1];
    assert Sum(v) == 1 && SumSq(v) == 1;
    assert AboveTwoSigma(6, 1, 1, v[5]);
  }
}
