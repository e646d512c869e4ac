/**
 * Target team sizes and per-team women targets
 * (scripts/voley_teams.ts, `targetSizes` and `targetWomen` in `buildBalancedMixedTeams`).
 */
module Targets {
  import opened Sums

  /** floor(n/k) for every team, plus one for the first n mod k teams. */
  function TargetSizes(n: nat, k: nat): (r: seq<int>)
    requires k >= 1
    ensures |r| == k
    ensures forall i :: 0 <= i < k ==> 0 <= r[i] && (n < k ==> r[i] <= 1)
    ensures forall i, j :: 0 <= i <= j < k ==> r[j] <= r[i] <= r[j] + 1
  {
    var q, m := n / k, n % k;
    assert 0 <= q && (n < k ==> q == 0);
    seq(k, i requires 0 <= i < k => q + (if i < m then 1 else 0))
  }

  function Min(a: int, b: int): int
  {
    if a <= b then a else b
  }

  lemma {:induction false} PrefixSum(n: nat, k: nat, m: nat)
    requires k >= 1 && m <= k
    ensures SumInt(TargetSizes(n, k)[..m]) == m * (n / k) + Min(m, n % k)
  {
    if m > 0 {
      var r := TargetSizes(n, k);
      assert r[..m][..m - 1] == r[..m - 1];
      PrefixSum(n, k, m - 1);
      assert m * (n / k) == (m - 1) * (n / k) + n / k;
    }
  }

  /** The targets add up to exactly n. */
  lemma TargetSizesSum(n: nat, k: nat)
    requires k >= 1
    ensures SumInt(TargetSizes(n, k)) == n
  {
    PrefixSum(n, k, k);
    assert TargetSizes(n, k)[..k] == TargetSizes(n, k);
  }

  lemma MulLe(a: int, b: int, k: nat)
    requires a <= b
    ensures a * k <= b * k
  {
    assert b * k - a * k == (b - a) * k;
  }

  /** Integer division by k is monotone. */
  lemma DivMonotone(f: nat, n: nat, k: nat)
    requires k >= 1 && f <= n
    ensures f / k <= n / k
  {
    var qf, qn := f / k, n / k;
    assert qf * k <= f && n < qn * k + k;
    MulLe(qn + 1, if qf > qn then qf else qn + 1, k);
    assert (qn + 1) * k == qn * k + k;
  }

  /** Fewer items never give any team a larger target. */
  lemma TargetSizesMonotone(f: nat, n: nat, k: nat)
    requires k >= 1 && f <= n
    ensures forall i :: 0 <= i < k ==> TargetSizes(f, k)[i] <= TargetSizes(n, k)[i]
  {
    var qf, rf := f / k, f % k;
    var qn, rn := n / k, n % k;
    DivMonotone(f, n, k);
    if qf == qn {
      assert rf <= rn;
    }
  }

  /**
   * The women targets: zero everywhere, then, when women go first and there
   * is at least one, floor(f/k) plus one for the first f mod k teams.
   */
  method TargetWomen(femaleFirst: bool, numFemales: nat, k: nat) returns (tw: seq<int>)
    requires k >= 1
    ensures femaleFirst && numFemales > 0 ==> tw == TargetSizes(numFemales, k)
    ensures !(femaleFirst && numFemales > 0) ==> |tw| == k && forall i :: 0 <= i < k ==> tw[i] == 0
  {
    tw := seq(k, _ => 0);
    if femaleFirst && numFemales > 0 {
      var baseF, remF := numFemales / k, numFemales % k;
      for i := 0 to k
        invariant |tw| == k
        invariant forall j :: 0 <= j < i ==> tw[j] == TargetSizes(numFemales, k)[j]
      {
        tw := tw[i := baseF + (if i < remF then 1 else 0)];
      }
    }
  }
}
