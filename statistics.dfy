/**
 * Statistics over the fitness scores of a population: maximum, minimum,
 * mean and sample variance, recomputed in place by `Update`.
 */
module Statistics {
  import opened Wrappers

  /** The ZeroDivisionError `update` raises on fewer than two scores. */
  datatype UpdateError = ZeroDivision

  // ---------------------------------------------------------------------
  // The specification of one pass over the scores

  /** The scores the extractor gives, in order. */
  function Extract<T>(extractor: T -> int, xs: seq<T>): (s: seq<int>)
    ensures |s| == |xs|
    ensures forall i :: 0 <= i < |xs| ==> s[i] == extractor(xs[i])
  {
    if xs == [] then [] else Extract(extractor, xs[..|xs| - 1]) + [extractor(xs[|xs| - 1])]
  }

  function Sum(s: seq<int>): int
  {
    if s == [] then 0 else Sum(s[..|s| - 1]) + s[|s| - 1]
  }

  function SumSq(s: seq<int>): (q: int)
    ensures q >= 0
  {
    if s == [] then 0 else SumSq(s[..|s| - 1]) + s[|s| - 1] * s[|s| - 1]
  }

  /** The running maximum as `update` keeps it: it starts at 0, not at the first score. */
  function MaxFromZero(s: seq<int>): (m: int)
    ensures m >= 0
    ensures forall i :: 0 <= i < |s| ==> s[i] <= m
    ensures m == 0 || exists i :: 0 <= i < |s| && s[i] == m
  {
    if s == [] then 0
    else
      var m := MaxFromZero(s[..|s| - 1]);
      if s[|s| - 1] > m then s[|s| - 1] else m
  }

  /** The running minimum as `update` keeps it: it starts at 0, not at the first score. */
  function MinFromZero(s: seq<int>): (m: int)
    ensures m <= 0
    ensures forall i :: 0 <= i < |s| ==> m <= s[i]
    ensures m == 0 || exists i :: 0 <= i < |s| && s[i] == m
  {
    if s == [] then 0
    else
      var m := MinFromZero(s[..|s| - 1]);
      if s[|s| - 1] < m then s[|s| - 1] else m
  }

  /** `sum / n`, in exact arithmetic. */
  function Mean(s: seq<int>): real
    requires |s| > 0
  {
    Sum(s) as real / |s| as real
  }

  /** `(n * sum_sq - sum * sum) / (n * (n - 1))`, in exact arithmetic. */
  function ShortcutVariance(n: int, sum: int, sumSq: int): real
    requires n > 1
  {
    (n * sumSq - sum * sum) as real / (n * (n - 1)) as real
  }

  /** The sample variance of the scores, by the formula `update` uses. */
  function Variance(s: seq<int>): real
    requires |s| > 1
  {
    ShortcutVariance(|s|, Sum(s), SumSq(s))
  }

  /**
   * The sum of squared deviations from the mean, scaled by `n` squared to stay
   * in integers: the sum over the scores `x` of `(n * x - total)` squared.
   */
  function Spread(s: seq<int>, n: int, total: int): (d: int)
    ensures d >= 0
  {
    if s == [] then 0
    else Spread(s[..|s| - 1], n, total) + (n * s[|s| - 1] - total) * (n * s[|s| - 1] - total)
  }

  /** How each accumulator changes when the pass takes in the score at `k`. */
  lemma PrefixStep(s: seq<int>, k: nat)
    requires k < |s|
    ensures Sum(s[..k + 1]) == Sum(s[..k]) + s[k]
    ensures SumSq(s[..k + 1]) == SumSq(s[..k]) + s[k] * s[k]
    ensures MaxFromZero(s[..k + 1]) == if s[k] > MaxFromZero(s[..k]) then s[k] else MaxFromZero(s[..k])
    ensures MinFromZero(s[..k + 1]) == if s[k] < MinFromZero(s[..k]) then s[k] else MinFromZero(s[..k])
  {
    assert s[..k + 1][..k] == s[..k];
  }

  /** The divisor of the variance vanishes exactly on a single score. */
  lemma PairsZero(n: nat)
    requires n >= 1
    ensures n * (n - 1) == 0 <==> n == 1
  {
    if n > 1 {
      assert n * (n - 1) >= n - 1;
    }
  }

  // ---------------------------------------------------------------------
  // The statistics object

  class FitnessStatistics {
    var max: int
    var mean: real
    var min: int
    var variance: real

    /** `FitnessStatistics(max=0, mean=0, min=0, variance=0)`. */
    constructor (max: int := 0, mean: real := 0.0, min: int := 0, variance: real := 0.0)
      ensures this.max == max && this.mean == mean && this.min == min && this.variance == variance
    {
      this.max := max;
      this.mean := mean;
      this.min := min;
      this.variance := variance;
    }

    /** The tuple `__hash__` hashes. */
    function HashKey(): (int, real, int, real)
      reads this
    {
      (max, mean, min, variance)
    }

    predicate Equals(other: FitnessStatistics)
      reads this, other
    {
      max == other.max && mean == other.mean && min == other.min && variance == other.variance
    }

    /** `a != b` is `not a == b`. */
    predicate NotEquals(other: FitnessStatistics)
      reads this, other
    {
      !Equals(other)
    }

    /** `copy.copy`: a new object equal to this one. */
    method Copy() returns (c: FitnessStatistics)
      ensures fresh(c)
      ensures Equals(c) && c.HashKey() == HashKey()
    {
      c := new FitnessStatistics(max, mean, min, variance);
    }

    /**
     * Recomputes the statistics from the scores `extractor` gives. All four
     * fields are reset to 0 first; the mean needs a score and the variance
     * two, and when they are missing the division fails with the fields
     * computed so far left in place.
     */
    method Update<T>(fitnessables: seq<T>, extractor: T -> int) returns (outcome: Result<(), UpdateError>)
      modifies this
      ensures max == MaxFromZero(Extract(extractor, fitnessables))
      ensures min == MinFromZero(Extract(extractor, fitnessables))
      ensures |fitnessables| == 0 ==> outcome == Failure(ZeroDivision) && mean == 0.0 && variance == 0.0
      ensures |fitnessables| == 1 ==>
                outcome == Failure(ZeroDivision) && mean == Mean(Extract(extractor, fitnessables)) && variance == 0.0
      ensures |fitnessables| >= 2 ==>
                && outcome == Success(())
                && mean == Mean(Extract(extractor, fitnessables))
                && variance == Variance(Extract(extractor, fitnessables))
    {
      max, min, mean, variance := 0, 0, 0.0, 0.0;
      var sum, sumSq, score := 0, 0, 0;
      var n := |fitnessables|;
      ghost var s := Extract(extractor, fitnessables);

      for k := 0 to n
        invariant sum == Sum(s[..k])
        invariant sumSq == SumSq(s[..k])
        invariant max == MaxFromZero(s[..k])
        invariant min == MinFromZero(s[..k])
        invariant mean == 0.0 && variance == 0.0
      {
        score := extractor(fitnessables[k]);
        PrefixStep(s, k);
        sum := sum + score;
        sumSq := sumSq + score * score;

        if score < min {
          min := score;
        }
        if score > max {
          max := score;
        }
      }
      assert s[..n] == s;
      assert max == MaxFromZero(s) && min == MinFromZero(s);
      assert sum == Sum(s) && sumSq == SumSq(s);

      if n == 0 {
        return Failure(ZeroDivision);
      }
      mean := sum as real / n as real;
      assert mean == Mean(s);
      PairsZero(n);
      if n * (n - 1) == 0 {
        return Failure(ZeroDivision);
      }
      variance := (n * sumSq - sum * sum) as real / (n * (n - 1)) as real;
      assert variance == ShortcutVariance(n, sum, sumSq);
      outcome := Success(());
    }
  }

  // ---------------------------------------------------------------------
  // Equality and hashing

  /** Equal statistics hash alike, and equal hash tuples mean equal statistics. */
  lemma EqualsIffHashKey(a: FitnessStatistics, b: FitnessStatistics)
    ensures a.Equals(b) <==> a.HashKey() == b.HashKey()
    ensures a.NotEquals(b) <==> !a.Equals(b)
  {
  }

  lemma EqualsEquivalence(a: FitnessStatistics, b: FitnessStatistics, c: FitnessStatistics)
    ensures a.Equals(a)
    ensures a.Equals(b) <==> b.Equals(a)
    ensures a.Equals(b) && b.Equals(c) ==> a.Equals(c)
  {
  }

  // ---------------------------------------------------------------------
  // Properties of the pass

  /** The default extractor is the identity: a list of scores is used as it is. */
  lemma {:induction false} ExtractIdentity(s: seq<int>)
    ensures Extract(x => x, s) == s
  {
    if s != [] {
      ExtractIdentity(s[..|s| - 1]);
      assert s == s[..|s| - 1] + [s[|s| - 1]];
    }
  }

  /** Because both start at 0, the minimum is never positive and the maximum never negative. */
  lemma MinZeroMax(s: seq<int>)
    ensures MinFromZero(s) <= 0 <= MaxFromZero(s)
    ensures MinFromZero(s) <= MaxFromZero(s)
  {
  }

  /** On scores that are all positive the recorded minimum is 0, not the smallest score. */
  lemma MinOfPositiveScores(s: seq<int>)
    requires forall i :: 0 <= i < |s| ==> s[i] > 0
    ensures MinFromZero(s) == 0
  {
  }

  /** When some score is not negative, the maximum is the largest score. */
  lemma MaxIsLargestScore(s: seq<int>, j: nat)
    requires j < |s| && s[j] >= 0
    ensures exists i :: 0 <= i < |s| && s[i] == MaxFromZero(s)
  {
  }

  lemma {:induction false} SumAtLeast(s: seq<int>, lo: int)
    requires forall i :: 0 <= i < |s| ==> lo <= s[i]
    ensures |s| * lo <= Sum(s)
  {
    if s != [] {
      var p := s[..|s| - 1];
      SumAtLeast(p, lo);
      assert |s| * lo == |p| * lo + lo;
    }
  }

  lemma {:induction false} SumAtMost(s: seq<int>, hi: int)
    requires forall i :: 0 <= i < |s| ==> s[i] <= hi
    ensures Sum(s) <= |s| * hi
  {
    if s != [] {
      var p := s[..|s| - 1];
      SumAtMost(p, hi);
      assert |s| * hi == |p| * hi + hi;
    }
  }

  /** The total lies between `n` times the recorded minimum and `n` times the maximum. */
  lemma SumWithinBounds(s: seq<int>)
    ensures |s| * MinFromZero(s) <= Sum(s) <= |s| * MaxFromZero(s)
  {
    SumAtLeast(s, MinFromZero(s));
    SumAtMost(s, MaxFromZero(s));
  }

  /** Converting a product to a real is the product of the converted factors. */
  lemma {:induction false} CastProduct(a: int, b: int)
    ensures (a * b) as real == a as real * b as real
    decreases if b < 0 then -b else b
  {
    if b > 0 {
      CastProduct(a, b - 1);
      assert a * b == a * (b - 1) + a;
      assert a as real * b as real == a as real * (b - 1) as real + a as real;
    } else if b < 0 {
      CastProduct(a, b + 1);
      assert a * b == a * (b + 1) - a;
      assert a as real * b as real == a as real * (b + 1) as real - a as real;
    }
  }
  lemma DivideBounds(lo: real, x: real, hi: real, n: real)
    requires n > 0.0 && lo * n <= x <= hi * n
    ensures lo <= x / n <= hi
  {
  }

  /** The mean lies between the recorded minimum and maximum. */
  lemma MeanWithinBounds(s: seq<int>)
    requires |s| > 0
    ensures MinFromZero(s) as real <= Mean(s) <= MaxFromZero(s) as real
  {
    SumWithinBounds(s);
    var n, lo, hi := |s|, MinFromZero(s), MaxFromZero(s);
    CastProduct(n, lo);
    CastProduct(n, hi);
    DivideBounds(lo as real, Sum(s) as real, hi as real, n as real);
  }

  /** One step of the expansion of `Spread`, as plain algebra. */
  lemma ExpandStep(d: int, d0: int, q: int, t: int, m: int, x: int, n: int, total: int, q': int, t': int, m': int)
    requires d == d0 + (n * x - total) * (n * x - total)
    requires d0 == n * n * q - 2 * n * total * t + m * total * total
    requires q' == q + x * x && t' == t + x && m' == m + 1
    ensures d == n * n * q' - 2 * n * total * t' + m' * total * total
  {
    assert (n * x - total) * (n * x - total) == n * n * (x * x) - 2 * n * total * x + total * total;
    assert n * n * q' == n * n * q + n * n * (x * x);
    assert 2 * n * total * t' == 2 * n * total * t + 2 * n * total * x;
    assert m' * total * total == m * total * total + total * total;
  }

  lemma {:induction false} SpreadExpand(s: seq<int>, n: int, total: int)
    ensures Spread(s, n, total) == n * n * SumSq(s) - 2 * n * total * Sum(s) + |s| * total * total
  {
    if s != [] {
      SpreadExpand(s[..|s| - 1], n, total);
      ExpandStep(Spread(s, n, total), Spread(s[..|s| - 1], n, total),
                 SumSq(s[..|s| - 1]), Sum(s[..|s| - 1]), |s[..|s| - 1]|,
                 s[|s| - 1], n, total, SumSq(s), Sum(s), |s|);
    }
  }

  /** Around the true total, the spread is `n` times the numerator `update` computes. */
  lemma SpreadAroundMean(s: seq<int>)
    ensures Spread(s, |s|, Sum(s)) == |s| * (|s| * SumSq(s) - Sum(s) * Sum(s))
  {
    SpreadExpand(s, |s|, Sum(s));
    FactorSpread(|s|, SumSq(s), Sum(s));
  }

  lemma FactorSpread(n: int, q: int, total: int)
    ensures n * n * q - 2 * n * total * total + n * total * total == n * (n * q - total * total)
  {
  }

  /** The numerator of the variance is never negative: `n * sum_sq >= sum * sum`. */
  lemma NumeratorNonNegative(s: seq<int>)
    ensures |s| * SumSq(s) - Sum(s) * Sum(s) >= 0
  {
    SpreadAroundMean(s);
    if |s| > 0 {
      PositiveFactor(|s|, |s| * SumSq(s) - Sum(s) * Sum(s));
    }
  }

  lemma PositiveFactor(n: int, a: int)
    requires n > 0 && n * a >= 0
    ensures a >= 0
  {
  }

  /** The variance is never negative. */
  lemma VarianceNonNegative(s: seq<int>)
    requires |s| > 1
    ensures Variance(s) >= 0.0
  {
    NumeratorNonNegative(s);
  }

  /**
   * The shortcut formula is the textbook sample variance: the squared
   * deviations from the mean, summed and divided by `n - 1` (here both are
   * scaled by `n` squared).
   */
  lemma VarianceIsSampleVariance(s: seq<int>)
    requires |s| > 1
    ensures Variance(s) == Spread(s, |s|, Sum(s)) as real / (|s| * (|s| * (|s| - 1))) as real
  {
    var n := |s|;
    SpreadAroundMean(s);
    ScaledFraction(n, n * SumSq(s) - Sum(s) * Sum(s), n * (n - 1), Spread(s, n, Sum(s)));
  }

  lemma ScaledFraction(n: int, a: int, b: int, spread: int)
    requires n > 0 && b > 0 && spread == n * a
    ensures a as real / b as real == spread as real / (n * b) as real
  {
    CastProduct(n, a);
    CastProduct(n, b);
    ScaleFraction(n as real, a as real, b as real);
  }

  lemma ScaleFraction(k: real, a: real, b: real)
    requires k > 0.0 && b > 0.0
    ensures a / b == (k * a) / (k * b)
  {
  }

  /** Scores 3, 5 and 7: maximum 7, minimum 0 (not 3), mean 5, variance 4. */
  lemma StatisticsExample()
    ensures MaxFromZero([3, 5, 7]) == 7 && MinFromZero([3, 5, 7]) == 0
    ensures Mean([3, 5, 7]) == 5.0 && Variance([3, 5, 7]) == 4.0
  {
    var s := [3, 5, 7];
    assert s[..2] == [3, 5] && s[..2][..1] == [3] && s[..2][..1][..0] == [];
    assert Sum([3]) == 3 && SumSq([3]) == 9;
    assert Sum([3, 5]) == 8 && SumSq([3, 5]) == 34;
    assert Sum(s) == 15 && SumSq(s) == 83;
  }
}
