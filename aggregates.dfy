/** The column aggregations pandas performs for the scanner scripts:
    sum and mean (`'mean'`), the sample variance behind `'std'`, and the most
    frequent value (`Series.mode().iloc[0]`). */
module Aggregates {

  function Sum(xs: seq<int>): int {
    if xs == [] then 0 else xs[0] + Sum(xs[1..])
  }

  /** Arithmetic mean; 0 for no values. The mean of a non-empty list, taken
      once per value, adds up to the list's sum. */
  function Mean(xs: seq<int>): (m: real)
    ensures |xs| > 0 ==> m * |xs| as real == Sum(xs) as real
  {
    if |xs| == 0 then 0.0 else Sum(xs) as real / |xs| as real
  }

  lemma {:induction false} SumAtLeast(xs: seq<int>, m: int)
    requires forall i :: 0 <= i < |xs| ==> m <= xs[i]
    ensures |xs| * m <= Sum(xs)
  {
    if xs != [] {
      SumAtLeast(xs[1..], m);
      assert (|xs| - 1) * m + m == |xs| * m;
    }
  }

  lemma {:induction false} SumAtMost(xs: seq<int>, m: int)
    requires forall i :: 0 <= i < |xs| ==> xs[i] <= m
    ensures Sum(xs) <= |xs| * m
  {
    if xs != [] {
      SumAtMost(xs[1..], m);
      assert (|xs| - 1) * m + m == |xs| * m;
    }
  }

  /** The mean of a non-empty list lies between its smallest and its largest value. */
  lemma MeanWithinRange(xs: seq<int>)
    requires |xs| > 0
    ensures exists i :: 0 <= i < |xs| && xs[i] as real <= Mean(xs)
    ensures exists j :: 0 <= j < |xs| && Mean(xs) <= xs[j] as real
  {
    var lo := MinIndex(xs);
    var hi := MaxIndex(xs);
    SumAtLeast(xs, xs[lo]);
    SumAtMost(xs, xs[hi]);
    QuotientBounds(Sum(xs), |xs|, xs[lo], xs[hi]);
  }

  lemma QuotientBounds(s: int, n: int, lo: int, hi: int)
    requires n > 0 && n * lo <= s <= n * hi
    ensures lo as real <= s as real / n as real <= hi as real
  {
    var q := s as real / n as real;
    assert q * n as real == s as real;
    assert (n * lo) as real == n as real * lo as real;
    assert (n * hi) as real == n as real * hi as real;
  }

  /** Position of a smallest element. */
  function MinIndex(xs: seq<int>): (k: nat)
    requires |xs| > 0
    ensures k < |xs| && forall i :: 0 <= i < |xs| ==> xs[k] <= xs[i]
  {
    if |xs| == 1 then 0
    else
      var k := MinIndex(xs[1..]) + 1;
      if xs[0] <= xs[k] then 0 else k
  }

  /** Position of a largest element. */
  function MaxIndex(xs: seq<int>): (k: nat)
    requires |xs| > 0
    ensures k < |xs| && forall i :: 0 <= i < |xs| ==> xs[i] <= xs[k]
  {
    if |xs| == 1 then 0
    else
      var k := MaxIndex(xs[1..]) + 1;
      if xs[k] <= xs[0] then 0 else k
  }

  // ---------------------------------------------------------------------
  // Sample variance (pandas `std` uses ddof = 1)
  // ---------------------------------------------------------------------

  function Square(k: int): (r: nat)
    ensures r == 0 <==> k == 0
  {
    SquareSign(k);
    k * k
  }

  lemma SquareSign(k: int)
    ensures k * k >= 0 && (k * k == 0 <==> k == 0)
  {
    if k < 0 {
      assert k * k == (-k) * (-k);
    }
  }

  /** Sum over `xs` of the squared deviation from the mean, each deviation
      scaled by `n` so that it stays an integer: with `s` the sum of a list of
      `n` values, `n * x - s` is `n` times the deviation of `x` from the mean. */
  function ScaledSquaredDeviations(xs: seq<int>, n: int, s: int): nat {
    if xs == [] then 0 else Square(n * xs[0] - s) + ScaledSquaredDeviations(xs[1..], n, s)
  }

  /** The square of pandas' sample standard deviation (ddof = 1):
      the sum of squared deviations from the mean divided by `n - 1`, that is
      `ScaledSquaredDeviations / (n * n * (n - 1))`. For a single sample pandas
      yields NaN, which the scanner replaces with 0. */
  function SampleVariance(xs: seq<int>): (v: real)
    ensures v >= 0.0
    ensures |xs| <= 1 ==> v == 0.0
  {
    var n := |xs|;
    if n <= 1 then 0.0
    else
      QuotientSign(ScaledSquaredDeviations(xs, n, Sum(xs)), n * n * (n - 1));
      ScaledSquaredDeviations(xs, n, Sum(xs)) as real / (n * n * (n - 1)) as real
  }

  /** Reference definition of the spread: the sum over `xs` of the squared
      distance of each value from `m`. */
  function SquaredDeviations(xs: seq<int>, m: real): (d: real)
    ensures d >= 0.0
  {
    if xs == [] then 0.0
    else
      var e := xs[0] as real - m;
      assert e * e >= 0.0;
      e * e + SquaredDeviations(xs[1..], m)
  }

  /** `ScaledSquaredDeviations` computed over the reals. */
  function RealScaledSquares(xs: seq<int>, n: int, s: int): real {
    if xs == [] then 0.0
    else (n as real * xs[0] as real - s as real) * (n as real * xs[0] as real - s as real) + RealScaledSquares(xs[1..], n, s)
  }

  /** The squared distances from `m`, each weighted by `c`. */
  function WeightedSquaredDeviations(xs: seq<int>, m: real, c: real): real {
    if xs == [] then 0.0 else c * ((xs[0] as real - m) * (xs[0] as real - m)) + WeightedSquaredDeviations(xs[1..], m, c)
  }

  lemma SquareAsReal(n: int, x: int, s: int)
    ensures Square(n * x - s) as real == (n as real * x as real - s as real) * (n as real * x as real - s as real)
  {
    assert (n * x - s) as real == n as real * x as real - s as real;
  }

  /** The integer sum and its real counterpart agree. */
  lemma {:induction false} ScaledSquaresAsReal(xs: seq<int>, n: int, s: int)
    ensures ScaledSquaredDeviations(xs, n, s) as real == RealScaledSquares(xs, n, s)
  {
    if xs != [] {
      SquareAsReal(n, xs[0], s);
      ScaledSquaresAsReal(xs[1..], n, s);
    }
  }

  /** `n * x - s` is `n` times the distance of `x` from `m = s / n`. */
  lemma ScaledSquare(n: int, x: int, s: int, m: real, c: real)
    requires n > 0 && m == s as real / n as real && c == n as real * n as real
    ensures (n as real * x as real - s as real) * (n as real * x as real - s as real) ==
      c * ((x as real - m) * (x as real - m))
  {
    var e := x as real - m;
    assert n as real * m == s as real;
    assert n as real * x as real - s as real == n as real * e;
  }

  /** Term by term, the scaled squares are the squared distances from
      `s / n` weighted by `n * n`. */
  lemma {:induction false} ScaledSquaresAreWeighted(xs: seq<int>, n: int, s: int, m: real, c: real)
    requires n > 0 && m == s as real / n as real && c == n as real * n as real
    ensures RealScaledSquares(xs, n, s) == WeightedSquaredDeviations(xs, m, c)
  {
    if xs != [] {
      ScaledSquare(n, xs[0], s, m, c);
      ScaledSquaresAreWeighted(xs[1..], n, s, m, c);
    }
  }

  /** A common weight factors out of the sum. */
  lemma {:induction false} WeightFactorsOut(xs: seq<int>, m: real, c: real)
    ensures WeightedSquaredDeviations(xs, m, c) == c * SquaredDeviations(xs, m)
  {
    if xs != [] {
      WeightFactorsOut(xs[1..], m, c);
      var h := (xs[0] as real - m) * (xs[0] as real - m);
      assert c * h + c * SquaredDeviations(xs[1..], m) == c * (h + SquaredDeviations(xs[1..], m));
    }
  }

  /** `v = (c * q) / (c * d)` is `q / d`. */
  lemma CancelCommonFactor(v: real, p: real, q: real, c: real, d: real, denominator: real)
    requires c != 0.0 && d != 0.0 && denominator == c * d && p == c * q && v == p / denominator
    ensures v == q / d
  {
    var r := q / d;
    assert r * d == q;
    assert denominator * r == p;
  }

  /** For two or more samples, the spread is the textbook sample variance:
      the squared distances from the mean, summed and divided by `n - 1`. */
  lemma SampleVarianceIsSquaredDeviations(xs: seq<int>)
    requires |xs| >= 2
    ensures SampleVariance(xs) == SquaredDeviations(xs, Mean(xs)) / (|xs| - 1) as real
  {
    var n := |xs|;
    var ssd, q := ScaledSquaredDeviations(xs, n, Sum(xs)), SquaredDeviations(xs, Mean(xs));
    var c, d := n as real * n as real, (n - 1) as real;
    var denominator := (n * n * (n - 1)) as real;
    assert SampleVariance(xs) == ssd as real / denominator;
    assert denominator == c * d by {
      assert n * n * (n - 1) == (n * n) * (n - 1);
    }
    assert ssd as real == c * q by {
      ScaledSquaresAsReal(xs, n, Sum(xs));
      ScaledSquaresAreWeighted(xs, n, Sum(xs), Mean(xs), c);
      WeightFactorsOut(xs, Mean(xs), c);
    }
    assert c != 0.0 by {
      assert n as real > 0.0;
    }
    CancelCommonFactor(SampleVariance(xs), ssd as real, q, c, d, denominator);
  }

  lemma {:induction false} ScaledSquaredDeviationsZero(xs: seq<int>, n: int, s: int)
    ensures ScaledSquaredDeviations(xs, n, s) == 0 <==> forall i :: 0 <= i < |xs| ==> n * xs[i] == s
  {
    if xs != [] {
      ScaledSquaredDeviationsZero(xs[1..], n, s);
      assert forall i :: 1 <= i < |xs| ==> xs[i] == xs[1..][i - 1];
    }
  }

  lemma CancelFactor(n: int, a: int, b: int)
    requires n > 0 && n * a == n * b
    ensures a == b
  {
  }

  lemma QuotientSign(q: int, d: int)
    requires q >= 0 && d > 0
    ensures q as real / d as real >= 0.0
    ensures q as real / d as real == 0.0 <==> q == 0
  {
    var r := q as real / d as real;
    assert r * d as real == q as real;
  }

  /** A list of identical values has the value as its mean. */
  lemma MeanOfConstant(xs: seq<int>, c: int)
    requires |xs| > 0 && forall i :: 0 <= i < |xs| ==> xs[i] == c
    ensures Sum(xs) == |xs| * c && Mean(xs) == c as real
  {
    SumAtLeast(xs, c);
    SumAtMost(xs, c);
    QuotientBounds(Sum(xs), |xs|, c, c);
  }

  /** The spread of at least two samples is never negative, and it is 0
      exactly when all samples are equal. */
  lemma SampleVarianceZeroIffConstant(xs: seq<int>)
    requires |xs| >= 2
    ensures SampleVariance(xs) >= 0.0
    ensures SampleVariance(xs) == 0.0 <==> forall i :: 0 <= i < |xs| ==> xs[i] == xs[0]
  {
    var n := |xs|;
    var d := n * n * (n - 1);
    assert d > 0 by {
      assert n * n > 0;
    }
    QuotientSign(ScaledSquaredDeviations(xs, n, Sum(xs)), d);
    ScaledSquaredDeviationsZero(xs, n, Sum(xs));
    if forall i :: 0 <= i < |xs| ==> xs[i] == xs[0] {
      MeanOfConstant(xs, xs[0]);
    }
    if forall i :: 0 <= i < |xs| ==> n * xs[i] == Sum(xs) {
      forall i | 0 <= i < |xs| ensures xs[i] == xs[0] {
        CancelFactor(n, xs[i], xs[0]);
      }
    }
  }

  // ---------------------------------------------------------------------
  // Most frequent value (`mode().iloc[0]`: the smallest of the most frequent)
  // ---------------------------------------------------------------------

  /** Number of occurrences of `v` in `xs`. */
  function Count(xs: seq<int>, v: int): nat {
    if xs == [] then 0 else (if xs[0] == v then 1 else 0) + Count(xs[1..], v)
  }

  /** `m` beats `v`: it occurs more often, or as often and is not larger. */
  predicate Beats(xs: seq<int>, m: int, v: int) {
    Count(xs, v) < Count(xs, m) || (Count(xs, v) == Count(xs, m) && m <= v)
  }

  /** The candidate that beats every other candidate. */
  function BestCandidate(cands: seq<int>, xs: seq<int>): (m: int)
    requires |cands| > 0
    ensures m in cands
    ensures forall v :: v in cands ==> Beats(xs, m, v)
  {
    if |cands| == 1 then cands[0]
    else
      var best := BestCandidate(cands[1..], xs);
      var c := cands[0];
      assert forall v :: v in cands ==> v == c || v in cands[1..];
      if Count(xs, c) > Count(xs, best) || (Count(xs, c) == Count(xs, best) && c < best) then c else best
  }

  /** `Series.mode().iloc[0]` of a non-empty column: a value of the column
      that no other value outnumbers, the smallest such value on ties. */
  function Mode(xs: seq<int>): (m: int)
    requires |xs| > 0
    ensures m in xs
    ensures forall v :: v in xs ==> Count(xs, v) <= Count(xs, m)
    ensures forall v :: v in xs && Count(xs, v) == Count(xs, m) ==> m <= v
  {
    BestCandidate(xs, xs)
  }
}
