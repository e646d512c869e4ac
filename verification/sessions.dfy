/**
 * `roundRobin` (convex/sessions.ts): the matches of a new session, one per
 * pair of created teams, generated by two nested index loops.
 */
module Sessions {

  /** The index pairs (i, j) for lo <= j < hi, in increasing j. */
  function Row(i: nat, lo: nat, hi: nat): (r: seq<(nat, nat)>)
    requires lo <= hi
    ensures |r| == hi - lo
    ensures forall k :: 0 <= k < |r| ==> r[k] == (i, lo + k)
  {
    seq(hi - lo, k requires 0 <= k < hi - lo => (i, lo + k))
  }

  /**
   * The index pairs the two loops over n positions produce while the outer
   * index runs below i: row r holds (r, j) for r < j < n.
   */
  function PairsBelow(i: nat, n: nat): (ps: seq<(nat, nat)>)
    requires i <= n
    ensures forall k :: 0 <= k < |ps| ==> ps[k].0 < i && ps[k].0 < ps[k].1 < n
  {
    if i == 0 then [] else PairsBelow(i - 1, n) + Row(i - 1, i, n)
  }

  /** Every index pair of n positions, in the order the loops produce them. */
  function Pairs(n: nat): seq<(nat, nat)>
  {
    PairsBelow(n, n)
  }

  /** The elements at each pair of positions. */
  function Select<T>(arr: seq<T>, ps: seq<(nat, nat)>): (r: seq<(T, T)>)
    requires forall k :: 0 <= k < |ps| ==> ps[k].0 < |arr| && ps[k].1 < |arr|
    ensures |r| == |ps| && forall k :: 0 <= k < |ps| ==> r[k] == (arr[ps[k].0], arr[ps[k].1])
  {
    seq(|ps|, k requires 0 <= k < |ps| => (arr[ps[k].0], arr[ps[k].1]))
  }

  /** `roundRobin`: res gets (arr[i], arr[j]) for every i < j, row by row. */
  method RoundRobin<T>(arr: seq<T>) returns (res: seq<(T, T)>)
    ensures res == Select(arr, Pairs(|arr|))
  {
    var n := |arr|;
    res := [];
    var i := 0;
    while i < n
      invariant 0 <= i <= n
      invariant res == Select(arr, PairsBelow(i, n))
    {
      var j := i + 1;
      while j < n
        invariant i + 1 <= j <= n
        invariant res == Select(arr, PairsBelow(i, n) + Row(i, i + 1, j))
      {
        assert Row(i, i + 1, j + 1) == Row(i, i + 1, j) + [(i, j)];
        res := res + [(arr[i], arr[j])];
        j := j + 1;
      }
      i := i + 1;
    }
  }

  /** (i, j) comes before (i', j') in the loops' order. */
  predicate Before(p: (nat, nat), q: (nat, nat))
  {
    p.0 < q.0 || (p.0 == q.0 && p.1 < q.1)
  }

  /** Rows 0 .. i-1 hold (n-1) + (n-2) + ... + (n-i) pairs. */
  lemma {:induction false} PairsBelowCount(i: nat, n: nat)
    requires i <= n
    ensures 2 * |PairsBelow(i, n)| == i * (2 * n - i - 1)
  {
    if i > 0 {
      PairsBelowCount(i - 1, n);
      assert 2 * |PairsBelow(i, n)| == (i - 1) * (2 * n - i) + 2 * (n - i);
      assert (i - 1) * (2 * n - i) == i * (2 * n - i) - (2 * n - i);
    }
  }

  /** n positions give n(n-1)/2 matches; 0 or 1 team gives none. */
  lemma PairsCount(n: nat)
    ensures 2 * |Pairs(n)| == n * (n - 1)
    ensures n <= 1 ==> Pairs(n) == []
  {
    PairsBelowCount(n, n);
  }

  /** Exactly the pairs i < j appear. */
  lemma {:induction false} PairsBelowMembers(i: nat, n: nat, p: (nat, nat))
    requires i <= n
    ensures p in PairsBelow(i, n) <==> p.0 < i && p.0 < p.1 < n
  {
    if i > 0 {
      PairsBelowMembers(i - 1, n, p);
      if p.0 == i - 1 && p.0 < p.1 < n {
        assert Row(i - 1, i, n)[p.1 - i] == p;
      }
    }
  }

  lemma PairsMembers(n: nat, p: (nat, nat))
    ensures p in Pairs(n) <==> p.0 < p.1 < n
  {
    PairsBelowMembers(n, n, p);
  }

  /** The pairs come in strictly increasing order, so none repeats. */
  lemma {:induction false} PairsBelowOrdered(i: nat, n: nat)
    requires i <= n
    ensures forall a, b :: 0 <= a < b < |PairsBelow(i, n)| ==> Before(PairsBelow(i, n)[a], PairsBelow(i, n)[b])
  {
    if i > 0 {
      PairsBelowOrdered(i - 1, n);
      var front, row := PairsBelow(i - 1, n), Row(i - 1, i, n);
      forall a, b | 0 <= a < b < |front + row|
        ensures Before((front + row)[a], (front + row)[b])
      {
        if b >= |front| && a < |front| {
          assert front[a].0 < i - 1;
        }
      }
    }
  }

  /** Every pair i < j appears exactly once, and in the loops' order. */
  lemma PairsOrdered(n: nat)
    ensures forall a, b :: 0 <= a < b < |Pairs(n)| ==> Before(Pairs(n)[a], Pairs(n)[b]) && Pairs(n)[a] != Pairs(n)[b]
  {
    PairsBelowOrdered(n, n);
  }

  /** No team plays itself, and no match is repeated with the sides swapped. */
  lemma NoSelfOrReversed(n: nat)
    ensures forall a, b :: 0 <= a < |Pairs(n)| && 0 <= b < |Pairs(n)| ==>
      Pairs(n)[a].0 != Pairs(n)[a].1 && Pairs(n)[b] != (Pairs(n)[a].1, Pairs(n)[a].0)
  {
  }
}
