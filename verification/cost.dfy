/**
 * The imbalance cost of a set of teams (scripts/voley_teams.ts, `computeCost`):
 * population variances of the per-member averages of the teams.
 */
module Cost {
  import opened Sums
  import opened Strength
  import opened Teams

  /** A team's per-member average of an aggregate; an empty team averages 0. */
  function Average(sum: real, size: nat): (r: real)
    ensures size == 0 ==> r == 0.0
    ensures size > 0 ==> r * size as real == sum
  {
    if size > 0 then sum / size as real else 0.0
  }

  function Mean(xs: seq<real>): real
    requires |xs| > 0
  {
    Sum(xs) / |xs| as real
  }

  function SquaredDeviations(xs: seq<real>, m: real): (ds: seq<real>)
    ensures |ds| == |xs| && forall i :: 0 <= i < |xs| ==> ds[i] == (xs[i] - m) * (xs[i] - m)
  {
    seq(|xs|, i requires 0 <= i < |xs| => (xs[i] - m) * (xs[i] - m))
  }

  lemma SquareNonNegative(y: real)
    ensures y * y >= 0.0
  {
    if y < 0.0 {
      assert y * y == (-y) * (-y);
    }
  }

  lemma SquaredDeviationsNonNegative(xs: seq<real>, m: real)
    ensures forall i :: 0 <= i < |xs| ==> SquaredDeviations(xs, m)[i] >= 0.0
  {
    forall i | 0 <= i < |xs|
      ensures SquaredDeviations(xs, m)[i] >= 0.0
    {
      SquareNonNegative(xs[i] - m);
    }
  }

  /** Population variance: squared deviations from the mean, divided by the count. */
  function PopVariance(xs: seq<real>): (v: real)
    requires |xs| > 0
    ensures v >= 0.0
  {
    var ds := SquaredDeviations(xs, Mean(xs));
    SquaredDeviationsNonNegative(xs, Mean(xs));
    SumNonNegative(ds);
    Sum(ds) / |xs| as real
  }

  /** A sequence of equal values has variance 0. */
  lemma PopVarianceOfConstant(xs: seq<real>)
    requires |xs| > 0 && forall i :: 0 <= i < |xs| ==> xs[i] == xs[0]
    ensures PopVariance(xs) == 0.0
  {
    SumConstant(xs, xs[0]);
    assert Mean(xs) == xs[0];
    var ds := SquaredDeviations(xs, xs[0]);
    SumConstant(ds, 0.0);
  }

  /** At least one team, and six category sums per team. */
  predicate WellFormed(views: seq<TeamView>)
  {
    |views| > 0 && forall i :: 0 <= i < |views| ==> |views[i].catSums| == NumCategories
  }

  function TotalAverages(views: seq<TeamView>): (xs: seq<real>)
    ensures |xs| == |views| && forall i :: 0 <= i < |views| ==> xs[i] == Average(views[i].total, views[i].size)
  {
    seq(|views|, i requires 0 <= i < |views| => Average(views[i].total, views[i].size))
  }

  function CategoryAverages(views: seq<TeamView>, c: nat): (xs: seq<real>)
    requires WellFormed(views) && c < NumCategories
    ensures |xs| == |views| && forall i :: 0 <= i < |views| ==> xs[i] == Average(views[i].catSums[c], views[i].size)
  {
    seq(|views|, i requires 0 <= i < |views| => Average(views[i].catSums[c], views[i].size))
  }

  function MoodAverages(views: seq<TeamView>): (xs: seq<real>)
    ensures |xs| == |views| && forall i :: 0 <= i < |views| ==> xs[i] == Average(views[i].moodSum, views[i].size)
  {
    seq(|views|, i requires 0 <= i < |views| => Average(views[i].moodSum, views[i].size))
  }

  /** The squared category weight, multiplied by attackPriorityFactor for smash. */
  function CategoryWeight(weights: Weights, c: nat, attackPriorityFactor: real): (wc: real)
    requires c < NumCategories
    ensures attackPriorityFactor >= 0.0 ==> wc >= 0.0
  {
    weights[c] * weights[c] * (if c == SmashIndex then attackPriorityFactor else 1.0)
  }

  /** Sum over the first n categories of weight times variance. */
  function WeightedCategoryVariance(views: seq<TeamView>, weights: Weights, attackPriorityFactor: real, n: nat): (acc: real)
    requires WellFormed(views) && n <= NumCategories
    ensures attackPriorityFactor >= 0.0 ==> acc >= 0.0
  {
    if n == 0 then 0.0
    else WeightedCategoryVariance(views, weights, attackPriorityFactor, n - 1)
         + CategoryWeight(weights, n - 1, attackPriorityFactor) * PopVariance(CategoryAverages(views, n - 1))
  }

  /** Sum over the first n categories of their weights. */
  function CategoryWeightSum(weights: Weights, attackPriorityFactor: real, n: nat): (wsum: real)
    requires n <= NumCategories
    ensures attackPriorityFactor >= 0.0 ==> wsum >= 0.0
  {
    if n == 0 then 0.0
    else CategoryWeightSum(weights, attackPriorityFactor, n - 1) + CategoryWeight(weights, n - 1, attackPriorityFactor)
  }

  /** The weight-averaged category variance; 0 unless lambdaCat > 0. */
  function VarCatsNorm(views: seq<TeamView>, lambdaCat: real, weights: Weights, attackPriorityFactor: real): (v: real)
    requires WellFormed(views)
    ensures lambdaCat <= 0.0 ==> v == 0.0
    ensures attackPriorityFactor >= 0.0 ==> v >= 0.0
  {
    if lambdaCat > 0.0 then
      var acc := WeightedCategoryVariance(views, weights, attackPriorityFactor, NumCategories);
      var wsum := CategoryWeightSum(weights, attackPriorityFactor, NumCategories);
      acc / (if wsum != 0.0 then wsum else 1.0)
    else 0.0
  }

  /** The variance of the mood averages; 0 unless lambdaMood > 0. */
  function VarMood(views: seq<TeamView>, lambdaMood: real): (v: real)
    requires WellFormed(views)
    ensures lambdaMood <= 0.0 ==> v == 0.0
    ensures v >= 0.0
  {
    if lambdaMood > 0.0 then PopVariance(MoodAverages(views)) else 0.0
  }

  /**
   * varTotals + lambdaCat * varCatsNorm + lambdaMood * varMood. Each blended
   * term is zero unless its coefficient is positive, so the cost is never
   * negative when the smash factor is not.
   */
  function ComputeCost(views: seq<TeamView>, lambdaCat: real, weights: Weights, lambdaMood: real,
                       attackPriorityFactor: real): (cost: real)
    requires WellFormed(views)
    ensures attackPriorityFactor >= 0.0 ==> cost >= PopVariance(TotalAverages(views)) >= 0.0
  {
    PopVariance(TotalAverages(views))
    + lambdaCat * VarCatsNorm(views, lambdaCat, weights, attackPriorityFactor)
    + lambdaMood * VarMood(views, lambdaMood)
  }

  /** Teams whose per-member averages all agree, in total, every category and mood. */
  predicate Balanced(views: seq<TeamView>)
    requires WellFormed(views)
  {
    (forall i :: 0 <= i < |views| ==> TotalAverages(views)[i] == TotalAverages(views)[0]) &&
    (forall i :: 0 <= i < |views| ==> MoodAverages(views)[i] == MoodAverages(views)[0]) &&
    (forall c, i :: 0 <= c < NumCategories && 0 <= i < |views| ==>
       CategoryAverages(views, c)[i] == CategoryAverages(views, c)[0])
  }

  lemma MulZero(w: real, v: real)
    requires v == 0.0
    ensures w * v == 0.0
  {
  }

  /** Balanced teams have equal averages in category c, hence variance 0 there. */
  lemma CategoryVarianceZero(views: seq<TeamView>, c: nat)
    requires WellFormed(views) && Balanced(views) && c < NumCategories
    ensures PopVariance(CategoryAverages(views, c)) == 0.0
  {
    var xs := CategoryAverages(views, c);
    forall i | 0 <= i < |xs|
      ensures xs[i] == xs[0]
    {
    }
    PopVarianceOfConstant(xs);
  }

  /** Categories of variance 0 add nothing to the weighted sum. */
  lemma {:induction false} BalancedCategories(views: seq<TeamView>, weights: Weights, attackPriorityFactor: real, n: nat)
    requires WellFormed(views) && n <= NumCategories
    requires forall c :: 0 <= c < n ==> PopVariance(CategoryAverages(views, c)) == 0.0
    ensures WeightedCategoryVariance(views, weights, attackPriorityFactor, n) == 0.0
  {
    if n > 0 {
      BalancedCategories(views, weights, attackPriorityFactor, n - 1);
      MulZero(CategoryWeight(weights, n - 1, attackPriorityFactor), PopVariance(CategoryAverages(views, n - 1)));
    }
  }

  /** Perfectly matched teams cost nothing: zero is the ideal. */
  lemma BalancedCostsZero(views: seq<TeamView>, lambdaCat: real, weights: Weights, lambdaMood: real,
                          attackPriorityFactor: real)
    requires WellFormed(views) && Balanced(views)
    ensures ComputeCost(views, lambdaCat, weights, lambdaMood, attackPriorityFactor) == 0.0
  {
    PopVarianceOfConstant(TotalAverages(views));
    PopVarianceOfConstant(MoodAverages(views));
    forall c | 0 <= c < NumCategories
      ensures PopVariance(CategoryAverages(views, c)) == 0.0
    {
      CategoryVarianceZero(views, c);
    }
    BalancedCategories(views, weights, attackPriorityFactor, NumCategories);
  }
}
