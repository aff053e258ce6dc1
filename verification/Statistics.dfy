/** Sums, deviations and counts over samples, and the one-sided Chebyshev (Cantelli) bound on how
    many samples can lie far above their mean. A square root is any non-negative number with the
    right square, so none has to be constructed. */
module Statistics {
  import opened Reals

  function Sum(values: seq<real>): real {
    if values == [] then 0.0 else Sum(values[..|values| - 1]) + values[|values| - 1]
  }

  function SquaredDeviations(values: seq<real>, center: real): (sum: real)
    ensures sum >= 0.0
  {
    if values == [] then 0.0 else
      SquaredDeviations(values[..|values| - 1], center) + Square(values[|values| - 1] - center)
  }

  function Mean(values: seq<real>): real
    requires values != []
  {
    Sum(values) / |values| as real
  }

  function Variance(values: seq<real>): real
    requires values != []
  {
    SquaredDeviations(values, Mean(values)) / |values| as real
  }

  predicate IsRoot(root: real, square: real) {
    root >= 0.0 && Square(root) == square
  }

  /** The extractors never divide by zero: a standard deviation of zero becomes 0.01. */
  function Spread(stdDev: real): (spread: real)
    requires stdDev >= 0.0
    ensures spread > 0.0
  {
    if stdDev == 0.0 then 0.01 else stdDev
  }

  function Score(value: real, mean: real, spread: real): real
    requires spread > 0.0
  {
    (value - mean) / spread
  }

  /** How many samples score at least `threshold`. */
  function CountAtLeast(values: seq<real>, mean: real, spread: real, threshold: real): nat
    requires spread > 0.0
  {
    if values == [] then 0 else
      CountAtLeast(values[..|values| - 1], mean, spread, threshold)
      + if Score(values[|values| - 1], mean, spread) >= threshold then 1 else 0
  }

  /** Far above the mean, said without a root: x exceeds it, and n * (x - mean)^2 is at least t^2 times
      the sum of all squared deviations. */
  predicate StandsOut(values: seq<real>, x: real, t: real)
    requires values != []
  {
    var m, n := Mean(values), |values| as real;
    var q := SquaredDeviations(values, m);
    q > 0.0 && x > m && n * ((x - m) * (x - m)) >= (t * t) * q
  }

  /** `score` is the signed distance of x from the mean in standard deviations. */
  predicate IsScore(values: seq<real>, x: real, score: real)
    requires values != []
  {
    var m, n := Mean(values), |values| as real;
    var q := SquaredDeviations(values, m);
    if q == 0.0 then score == 0.0
    else n * ((x - m) * (x - m)) == (score * score) * q && (score >= 0.0 <==> x >= m)
  }

  lemma {:induction false} NoSpreadNoDeviation(values: seq<real>, m: real, x: real)
    requires SquaredDeviations(values, m) == 0.0 && x in values
    ensures x == m
  {
    var front, last := values[..|values| - 1], values[|values| - 1];
    assert Square(last - m) == 0.0;
    if x != last {
      assert values == front + [last];
      NoSpreadNoDeviation(front, m, x);
    }
  }

  /** n * d^2 in terms of score, root s and sum q. */
  lemma SquaredScore(d: real, s: real, score: real, q: real, n: real)
    requires s > 0.0 && n > 0.0 && score == d / s && s * s == q / n
    ensures n * (d * d) == (score * score) * q
    ensures score >= 0.0 <==> d >= 0.0
    ensures score > 0.0 <==> d > 0.0
    ensures q > 0.0
  {
    var a, b := score * score, q / n;
    SignOfProduct(s, s, b);
    QuotientTimes(q, n, b);
    SignOfProduct(n, b, q);
    DivideBack(d, s);
    SignOfProduct(score, s, d);
    SignOfProduct(-score, s, -d);
    assert d * d == a * b by {
      assert (score * s) * (score * s) == (score * score) * (s * s);
    }
    assert n * (a * b) == a * (n * b);
  }

  lemma SquaresCompare(score: real, t: real, q: real)
    requires t > 0.0 && q > 0.0
    ensures score >= t <==> score > 0.0 && (score * score) * q >= (t * t) * q
  {
    ScaleMonotone(t * t, score * score, q);
    if score > 0.0 {
      if score >= t {
        SquareMonotone(t, score);
      } else {
        ProductPositive(t - score, t + score);
        assert (t - score) * (t + score) == t * t - score * score;
      }
    }
  }

  /** The score that the detectors compute is that distance, and comparing it with a threshold finds
      exactly the samples that stand out. */
  lemma ScoreMeans(values: seq<real>, x: real, stdDev: real, t: real)
    requires values != [] && IsRoot(stdDev, Variance(values)) && x in values && t > 0.0
    ensures var score := Score(x, Mean(values), Spread(stdDev));
            IsScore(values, x, score) && (score >= t <==> StandsOut(values, x, t))
  {
    var m, n, score := Mean(values), |values| as real, Score(x, Mean(values), Spread(stdDev));
    var q := SquaredDeviations(values, m);
    if stdDev == 0.0 {
      QuotientTimes(q, n, 0.0);
      NoSpreadNoDeviation(values, m, x);
      assert score == 0.0;
    } else {
      SquaredScore(x - m, stdDev, score, q, n);
      hide Mean, SquaredDeviations, Square;
      SquaresCompare(score, t, q);
    }
  }

  lemma {:induction false} ConstantSamples(values: seq<real>, c: real, center: real)
    requires forall i :: 0 <= i < |values| ==> values[i] == c
    ensures Sum(values) == Shares(|values|, c)
    ensures SquaredDeviations(values, center) == Shares(|values|, Square(c - center))
  {
    if values == [] {
    } else {
      hide Square, Shares;
      ConstantSamples(values[..|values| - 1], c, center);
      SharesStep(|values| - 1, |values|, true, c);
      SharesStep(|values| - 1, |values|, true, Square(c - center));
    }
  }

  // ---------------------------------------------------------------- Cantelli's inequality

  function Deviations(values: seq<real>, m: real): real {
    if values == [] then 0.0 else Deviations(values[..|values| - 1], m) + (values[|values| - 1] - m)
  }

  lemma {:induction false} DeviationsAre(values: seq<real>, m: real)
    ensures Deviations(values, m) == Sum(values) - Shares(|values|, m)
  {
    if values != [] {
      hide Shares;
      DeviationsAre(values[..|values| - 1], m);
      SharesStep(|values| - 1, |values|, true, m);
    }
  }

  lemma MeanCentres(values: seq<real>)
    requires values != []
    ensures Deviations(values, Mean(values)) == 0.0
  {
    DeviationsAre(values, Mean(values));
    DivideBack(Sum(values), |values| as real);
  }

  function ShiftedSquare(value: real, m: real, s: real, t: real): (y: real)
    ensures y >= 0.0
  {
    Square(t * (value - m) + s)
  }

  /** The sum of (t * (x - m) + s)^2, whose large terms are the flagged samples. */
  function ShiftedSquares(values: seq<real>, m: real, s: real, t: real): real {
    if values == [] then 0.0 else
      ShiftedSquares(values[..|values| - 1], m, s, t) + ShiftedSquare(values[|values| - 1], m, s, t)
  }

  /** What `ShiftedSquares` comes to for n samples with squared deviations q and deviations l. */
  function Expansion(t: real, s: real, q: real, l: real, n: real): real {
    Square(t) * q + 2.0 * (t * s) * l + n * Square(s)
  }

  lemma ExpansionStep(t: real, s: real, q: real, l: real, n: real, value: real, m: real)
    ensures Expansion(t, s, q + Square(value - m), l + (value - m), n + 1.0)
            == Expansion(t, s, q, l, n) + ShiftedSquare(value, m, s, t)
  {
    var d := value - m;
    assert (t * d) * (t * d) == (t * t) * (d * d);
    assert (t * d) * s == (t * s) * d;
  }

  lemma {:induction false} ExpandShiftedSquares(values: seq<real>, m: real, s: real, t: real)
    ensures ShiftedSquares(values, m, s, t) ==
            Expansion(t, s, SquaredDeviations(values, m), Deviations(values, m), |values| as real)
  {
    if values != [] {
      hide Expansion, Square, ShiftedSquare;
      var front, last := values[..|values| - 1], values[|values| - 1];
      ExpandShiftedSquares(front, m, s, t);
      ExpansionStep(t, s, SquaredDeviations(front, m), Deviations(front, m), |front| as real, last, m);
      assert |values| as real == |front| as real + 1.0;
    }
  }

  /** The least a flagged sample adds to `ShiftedSquares`. */
  function FlaggedShare(s: real, t: real): real {
    Square(s * (1.0 + Square(t)))
  }

  lemma FlaggedBase(d: real, s: real, t: real)
    requires s > 0.0 && t > 0.0 && d / s >= t
    ensures 0.0 <= s * (1.0 + Square(t)) <= t * d + s
  {
    DivideCompare(d, s, t);
    ProductNonNegative(t, d - t * s);
    ProductPositive(s, 1.0 + Square(t));
    assert s * (1.0 + t * t) == t * (t * s) + s;
  }

  lemma FlaggedTerm(value: real, m: real, s: real, t: real)
    requires s > 0.0 && t > 0.0 && Score(value, m, s) >= t
    ensures ShiftedSquare(value, m, s, t) >= FlaggedShare(s, t)
  {
    hide Square;
    FlaggedBase(value - m, s, t);
    SquareMonotone(s * (1.0 + Square(t)), t * (value - m) + s);
  }

  lemma {:induction false} FlaggedTermsAddUp(values: seq<real>, m: real, s: real, t: real)
    requires s > 0.0 && t > 0.0
    ensures ShiftedSquares(values, m, s, t) >= Shares(CountAtLeast(values, m, s, t), FlaggedShare(s, t))
  {
    if values != [] {
      hide ShiftedSquare, FlaggedShare, Score, Shares;
      var front, last := values[..|values| - 1], values[|values| - 1];
      FlaggedTermsAddUp(front, m, s, t);
      var flagged := Score(last, m, s) >= t;
      SharesStep(CountAtLeast(front, m, s, t), CountAtLeast(values, m, s, t), flagged, FlaggedShare(s, t));
      if flagged {
        FlaggedTerm(last, m, s, t);
      }
    }
  }

  /** With no deviation at all, no sample scores above zero. */
  lemma {:induction false} NoSpreadNoCount(values: seq<real>, m: real, spread: real, t: real)
    requires SquaredDeviations(values, m) == 0.0 && spread > 0.0 && t > 0.0
    ensures CountAtLeast(values, m, spread, t) == 0
  {
    if values != [] {
      assert Square(values[|values| - 1] - m) == 0.0;
      NoSpreadNoCount(values[..|values| - 1], m, spread, t);
    }
  }

  lemma CancelShare(k: nat, n: nat, s: real, t: real, q: real)
    requires s > 0.0 && n > 0 && Square(s) == q / n as real
    requires Shares(k, FlaggedShare(s, t)) <= Expansion(t, s, q, 0.0, n as real)
    ensures Shares(k, 1.0 + Square(t)) <= n as real
  {
    var a, u, x, y := Square(s), 1.0 + Square(t), k as real, n as real;
    QuotientTimes(q, y, a);
    ProductPositive(a, u);
    assert FlaggedShare(s, t) == u * (a * u) by {
      assert (s * u) * (s * u) == u * ((s * s) * u);
    }
    assert x * (u * (a * u)) == (x * u) * (a * u);
    assert Expansion(t, s, q, 0.0, y) == y * (a * u) by {
      var b := Square(t);
      assert b * (y * a) + y * a == y * (a * (1.0 + b));
    }
    ScaleMonotone(x * u, y, a * u);
  }

  lemma CantelliBySpread(values: seq<real>, s: real, t: real)
    requires values != [] && s > 0.0 && Square(s) == Variance(values) && t > 0.0
    ensures Shares(CountAtLeast(values, Mean(values), s, t), 1.0 + Square(t)) <= |values| as real
  {
    hide Square, Expansion, FlaggedShare, Shares;
    var m := Mean(values);
    MeanCentres(values);
    ExpandShiftedSquares(values, m, s, t);
    FlaggedTermsAddUp(values, m, s, t);
    CancelShare(CountAtLeast(values, m, s, t), |values|, s, t, SquaredDeviations(values, m));
  }

  /** Cantelli: of n samples, at most n / (1 + t^2) lie t standard deviations or more above the
      mean. It holds with the 0.01 fallback as well. */
  lemma Cantelli(values: seq<real>, stdDev: real, t: real)
    requires values != [] && IsRoot(stdDev, Variance(values)) && t > 0.0
    ensures Shares(CountAtLeast(values, Mean(values), Spread(stdDev), t), 1.0 + Square(t)) <= |values| as real
  {
    if stdDev == 0.0 {
      QuotientTimes(SquaredDeviations(values, Mean(values)), |values| as real, 0.0);
      NoSpreadNoCount(values, Mean(values), Spread(stdDev), t);
    } else {
      hide Square, Shares;
      CantelliBySpread(values, stdDev, t);
    }
  }
}
