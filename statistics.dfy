/**
  The column aggregates the detectors use (pandas `sum`, `mean`, `std`,
  `value_counts` and `set` of a column), over exact integers and reals.

  `Mean` and `SampleVariance` are the textbook definitions; the detectors never
  evaluate them. They compare sums and sums of squares instead, and the lemmas
  here connect the two: `SampleVarianceClosedForm` rewrites the sample variance
  (divisor n - 1, pandas' default) in terms of `Sum` and `SumSq`, and
  `Samuelson` bounds how far a single value can lie from the mean.
 */
module Statistics {

  /** Sum of the values. */
  function Sum(v: seq<int>): int
  {
    if v == [] then 0 else v[0] + Sum(v[1..])
  }

  /** Sum of the squared values. */
  function SumSq(v: seq<int>): (q: int)
    ensures q >= 0
  {
    if v == [] then 0 else v[0] * v[0] + SumSq(v[1..])
  }

  /** Number of occurrences of `x` in `s`. */
  function Count<T(==)>(s: seq<T>, x: T): (c: nat)
    ensures c <= |s|
    ensures c > 0 <==> x in s
  {
    if s == [] then 0 else (if s[0] == x then 1 else 0) + Count(s[1..], x)
  }

  /** The set of values occurring in `s` (Python's `set(column)`). */
  function Distinct<T(==,!new)>(s: seq<T>): (d: set<T>)
    ensures forall x :: x in d <==> x in s
    ensures |d| <= |s|
  {
    if s == [] then {} else {s[0]} + Distinct(s[1..])
  }

  /** Arithmetic mean. */
  ghost function Mean(v: seq<int>): real
    requires |v| > 0
  {
    (Sum(v) as real) / (|v| as real)
  }

  /**
    Sum over the values of (n x - s)^2. With s the sum of the n values, the mean
    is s/n and each deviation from it is (n x - s)/n, so this is n^2 times the
    sum of squared deviations from the mean, kept in integers.
   */
  ghost function CenteredSquares(v: seq<int>, n: int, s: int): (r: int)
    ensures r >= 0
  {
    if v == [] then 0
    else (n * v[0] - s) * (n * v[0] - s) + CenteredSquares(v[1..], n, s)
  }

  /**
    Sample variance, divisor n - 1 (pandas `Series.std` squared, ddof = 1):
    the sum of squared deviations from the mean, divided by n - 1.
   */
  ghost function SampleVariance(v: seq<int>): real
    requires |v| >= 2
  {
    (CenteredSquares(v, |v|, Sum(v)) as real) / ((|v| * |v| * (|v| - 1)) as real)
  }

  /** `sd` is the sample standard deviation of `v`: it is defined only from two values on. */
  ghost predicate IsSampleStd(v: seq<int>, sd: real)
  {
    |v| >= 2 && sd >= 0.0 && sd * sd == SampleVariance(v)
  }

  lemma {:induction false} SumAppend(a: seq<int>, b: seq<int>)
    ensures Sum(a + b) == Sum(a) + Sum(b)
    ensures SumSq(a + b) == SumSq(a) + SumSq(b)
  {
    if a == [] {
      assert a + b == b;
    } else {
      assert (a + b)[1..] == a[1..] + b;
      SumAppend(a[1..], b);
    }
  }

  /** A sequence of equal values sums to n*c, and its squares to n*c*c. */
  lemma {:induction false} SumConstant(v: seq<int>, c: int)
    requires forall i | 0 <= i < |v| :: v[i] == c
    ensures Sum(v) == |v| * c
    ensures SumSq(v) == |v| * c * c
  {
    if v != [] {
      SumConstant(v[1..], c);
    }
  }

  /** Expanding the squares: the sum of (n x - s)^2 is n^2 Q - 2nsS + k s^2. */
  lemma {:induction false} CenteredSquaresExpand(v: seq<int>, n: int, s: int)
    ensures CenteredSquares(v, n, s) == n * n * SumSq(v) - 2 * n * s * Sum(v) + |v| * s * s
  {
    if v != [] {
      var a, w := v[0], v[1..];
      CenteredSquaresExpand(w, n, s);
      CenteredStep(a, n, s, SumSq(w), Sum(w), |w|, CenteredSquares(w, n, s));
    }
  }

  lemma CenteredStep(a: int, n: int, s: int, q: int, t: int, k: int, d: int)
    requires d == n * n * q - 2 * n * s * t + k * s * s
    ensures (n * a - s) * (n * a - s) + d
         == n * n * (a * a + q) - 2 * n * s * (a + t) + (k + 1) * s * s
  {
  }

  /** The sample variance is (nQ - S^2) / (n(n - 1)). */
  lemma SampleVarianceClosedForm(v: seq<int>)
    requires |v| >= 2
    ensures SampleVariance(v)
         == ((|v| * SumSq(v) - Sum(v) * Sum(v)) as real) / ((|v| * (|v| - 1)) as real)
  {
    CenteredSquaresExpand(v, |v|, Sum(v));
    ClosedFormStep(|v|, Sum(v), SumSq(v), CenteredSquares(v, |v|, Sum(v)));
  }

  lemma ClosedFormStep(n: int, s: int, q: int, c: int)
    requires n >= 2 && c == n * n * q - 2 * n * s * s + n * s * s
    ensures (c as real) / ((n * n * (n - 1)) as real) == ((n * q - s * s) as real) / ((n * (n - 1)) as real)
  {
    var p, b := n * q - s * s, n * (n - 1);
    assert c == n * p by {
      assert n * n * q - 2 * n * s * s + n * s * s == n * (n * q - s * s);
    }
    assert n * n * (n - 1) == n * b;
    CancelFactor(n, p, b);
  }

  lemma CancelFactor(n: int, a: int, b: int)
    requires n > 0 && b > 0
    ensures ((n * a) as real) / ((n * b) as real) == (a as real) / (b as real)
  {
    var nr, ar, br := n as real, a as real, b as real;
    assert (n * a) as real == nr * ar && (n * b) as real == nr * br;
  }

  /** Sum of (x - y)^2 over the values is non-negative, written out. */
  lemma {:induction false} ShiftedSquares(w: seq<int>, y: int)
    ensures SumSq(w) - 2 * y * Sum(w) + |w| * y * y >= 0
  {
    if w != [] {
      ShiftedSquares(w[1..], y);
      var a, k, t, r := w[0], |w[1..]|, Sum(w[1..]), SumSq(w[1..]);
      assert SumSq(w) == a * a + r && Sum(w) == a + t && |w| == k + 1;
      ShiftStep(a, y, k, t, r);
    }
  }

  lemma ShiftStep(a: int, y: int, k: int, t: int, r: int)
    requires r - 2 * y * t + k * y * y >= 0
    ensures (a * a + r) - 2 * y * (a + t) + (k + 1) * y * y >= 0
  {
    assert (a * a + r) - 2 * y * (a + t) + (k + 1) * y * y
        == (a - y) * (a - y) + (r - 2 * y * t + k * y * y);
  }

  /** Cauchy-Schwarz for a column: nQ - S^2 >= 0, so the variance is never negative. */
  lemma {:induction false} VarianceNumeratorNonneg(v: seq<int>)
    ensures |v| * SumSq(v) - Sum(v) * Sum(v) >= 0
  {
    if v != [] {
      var y, w := v[0], v[1..];
      VarianceNumeratorNonneg(w);
      ShiftedSquares(w, y);
      var k, t, r := |w|, Sum(w), SumSq(w);
      assert SumSq(v) == y * y + r && Sum(v) == y + t && |v| == k + 1;
      CauchyStep(y, k, t, r);
    }
  }

  lemma CauchyStep(y: int, k: int, t: int, r: int)
    requires k * r - t * t >= 0 && r - 2 * y * t + k * y * y >= 0
    ensures (k + 1) * (y * y + r) - (y + t) * (y + t) >= 0
  {
    assert (k + 1) * (y * y + r) - (y + t) * (y + t)
        == (k * r - t * t) + (r - 2 * y * t + k * y * y);
  }

  /**
    Samuelson's inequality: no value lies further than (n - 1)/sqrt(n) sample
    standard deviations from the mean. Cross-multiplied:
    (n x - S)^2 <= (n - 1)(nQ - S^2).
   */
  lemma Samuelson(v: seq<int>, i: int)
    requires 0 <= i < |v|
    ensures (|v| * v[i] - Sum(v)) * (|v| * v[i] - Sum(v))
         <= (|v| - 1) * (|v| * SumSq(v) - Sum(v) * Sum(v))
  {
    var rest := v[..i] + v[i + 1..];
    assert v == v[..i] + [v[i]] + v[i + 1..];
    SumAppend(v[..i] + [v[i]], v[i + 1..]);
    SumAppend(v[..i], [v[i]]);
    SumAppend(v[..i], v[i + 1..]);
    assert Sum([v[i]]) == v[i] && SumSq([v[i]]) == v[i] * v[i];
    var x, k, t, r := v[i], |rest|, Sum(rest), SumSq(rest);
    assert |v| == k + 1 && Sum(v) == x + t && SumSq(v) == x * x + r;
    VarianceNumeratorNonneg(rest);
    SamuelsonStep(x, k, t, r);
  }

  lemma SamuelsonStep(x: int, k: int, t: int, r: int)
    requires k >= 0 && k * r - t * t >= 0
    ensures ((k + 1) * x - (x + t)) * ((k + 1) * x - (x + t))
         <= k * ((k + 1) * (x * x + r) - (x + t) * (x + t))
  {
    SamuelsonIdentity(x, k, t, r);
    MulNonnegInt(k + 1, k * r - t * t);
    assert (k + 1) * x - (x + t) == k * x - t;
  }

  lemma SamuelsonIdentity(x: int, k: int, t: int, r: int)
    ensures k * ((k + 1) * (x * x + r) - (x + t) * (x + t)) - (k * x - t) * (k * x - t) == (k + 1) * (k * r - t * t)
  {
  }

  lemma MulNonnegInt(x: int, y: int)
    requires x >= 0 && y >= 0
    ensures x * y >= 0
  {
  }

  lemma MulPos(x: real, y: real)
    requires x > 0.0 && y > 0.0
    ensures x * y > 0.0
  {
  }

  lemma MulNonnegReal(x: real, y: real)
    requires x >= 0.0 && y >= 0.0
    ensures x * y >= 0.0
  {
  }

  /** Comparing a quotient with a constant is comparing the cross product. */
  lemma QuotientAbove(c: real, n: real, k: real)
    requires n > 0.0
    ensures c / n > k <==> c > k * n
  {
    var sh := c / n;
    assert sh * n == c;
    if sh > k {
      MulPos(sh - k, n);
      assert (sh - k) * n == c - k * n;
    } else {
      MulNonnegReal(k - sh, n);
      assert (k - sh) * n == k * n - c;
    }
  }

  /** Squaring preserves the order of non-negative reals. */
  lemma SquareMonotone(a: real, b: real)
    requires a >= 0.0 && b >= 0.0
    ensures a < b <==> a * a < b * b
  {
    assert (b - a) * (b + a) == b * b - a * a;
    if a < b {
      MulPos(b - a, b + a);
    } else {
      MulNonnegReal(a - b, a + b);
      assert (a - b) * (a + b) == a * a - b * b;
    }
  }

  /** Scaling both sides by a positive factor preserves a strict comparison. */
  lemma ScaleLess(x: real, y: real, k: real)
    requires k > 0.0
    ensures x < y <==> x * k < y * k
  {
    if x < y {
      MulPos(y - x, k);
      assert (y - x) * k == y * k - x * k;
    } else {
      MulNonnegReal(x - y, k);
      assert (x - y) * k == x * k - y * k;
    }
  }

  /** A variance given as p / (n (n - 1)), multiplied back by n (n - 1). */
  lemma VarianceTimesDenominator(n: int, p: int, sd: real)
    requires n >= 2
    requires sd * sd == (p as real) / ((n * (n - 1)) as real)
    ensures sd * sd * ((n as real) * (n as real - 1.0)) == p as real
  {
    var k := (n as real) * (n as real - 1.0);
    assert ((n * (n - 1)) as real) == k;
    MulPos(n as real, n as real - 1.0);
    assert ((p as real) / k) * k == p as real;
  }

  /** The casts of the integer products the cross-multiplied tests compare. */
  lemma CastProduct3(a: int, b: int, c: int)
    ensures ((a * b * c) as real) == (a as real) * (b as real) * (c as real)
  {
  }

  lemma CastLess(a: int, b: int)
    ensures a < b <==> (a as real) < (b as real)
  {
  }
}
