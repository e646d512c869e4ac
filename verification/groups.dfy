/**
 * Groups of items with target sizes: the arithmetic shared by the snake
 * passes of scripts/voley_teams.ts (team rosters and women buckets).
 */
module Groups {
  import opened Wrappers
  import opened Sums

  function Lengths<T>(rs: seq<seq<T>>): (ls: seq<int>)
    ensures |ls| == |rs| && forall j :: 0 <= j < |rs| ==> ls[j] == |rs[j]|
  {
    seq(|rs|, j requires 0 <= j < |rs| => |rs[j]|)
  }

  predicate Fits(sizes: seq<int>, targets: seq<int>)
  {
    |sizes| == |targets| && forall j :: 0 <= j < |sizes| ==> sizes[j] <= targets[j]
  }

  /** Groups that fit their targets and add up to the same total are exactly the targets. */
  lemma FitsSumExact(sizes: seq<int>, targets: seq<int>)
    requires Fits(sizes, targets) && SumInt(sizes) == SumInt(targets)
    ensures sizes == targets
  {
    if sizes != targets {
      var t :| 0 <= t < |sizes| && sizes[t] != targets[t];
      SumIntLt(sizes, targets, t);
    }
  }

  /** Everything in a sequence of groups, counted with multiplicity. */
  function Flatten<T>(rs: seq<seq<T>>): multiset<T>
  {
    if rs == [] then multiset{} else Flatten(rs[..|rs| - 1]) + multiset(rs[|rs| - 1])
  }

  /** x is in the union exactly when some group holds it. */
  lemma {:induction false} InFlatten<T>(rs: seq<seq<T>>, x: T)
    ensures x in Flatten(rs) <==> exists t :: 0 <= t < |rs| && x in rs[t]
  {
    if rs != [] {
      var n := |rs| - 1;
      InFlatten(rs[..n], x);
      if x in Flatten(rs[..n]) {
        var t :| 0 <= t < n && x in rs[..n][t];
        assert x in rs[t];
      }
      if exists t :: 0 <= t < |rs| && x in rs[t] {
        var t :| 0 <= t < |rs| && x in rs[t];
        if t < n {
          assert x in rs[..n][t];
        }
      }
    }
  }

  /** The groups one after another. */
  function Concat<T>(rs: seq<seq<T>>): (r: seq<T>)
  {
    if rs == [] then [] else Concat(rs[..|rs| - 1]) + rs[|rs| - 1]
  }

  /** The union of the groups is the bag of their concatenation. */
  lemma {:induction false} FlattenConcat<T>(rs: seq<seq<T>>)
    ensures Flatten(rs) == multiset(Concat(rs))
  {
    if rs != [] {
      FlattenConcat(rs[..|rs| - 1]);
    }
  }

  /** Replacing one group changes the union by exactly that group. */
  lemma {:induction false} FlattenUpdate<T>(rs: seq<seq<T>>, j: nat, x: seq<T>)
    requires j < |rs|
    ensures Flatten(rs[j := x]) + multiset(rs[j]) == Flatten(rs) + multiset(x)
  {
    var n := |rs| - 1;
    var rs' := rs[j := x];
    if j < n {
      assert rs'[..n] == rs[..n][j := x];
      FlattenUpdate(rs[..n], j, x);
      var A, B := Flatten(rs[..n][j := x]), Flatten(rs[..n]);
      var L, Y, X := multiset(rs[n]), multiset(rs[j]), multiset(x);
      assert A + Y == B + X;
      assert Flatten(rs') == A + L && Flatten(rs) == B + L;
      assert (A + L) + Y == (A + Y) + L;
      assert (B + X) + L == (B + L) + X;
    } else {
      assert rs'[..n] == rs[..n];
    }
  }

  /** k groups with nothing in them. */
  function EmptyOf<T>(k: nat): (g: seq<seq<T>>)
    ensures |g| == k && forall t :: 0 <= t < k ==> g[t] == []
  {
    seq(k, _ => [])
  }

  /** Empty groups hold nothing. */
  lemma {:induction false} EmptyGroups<T>(g: seq<seq<T>>)
    requires forall t :: 0 <= t < |g| ==> g[t] == []
    ensures Flatten(g) == multiset{} && SumInt(Lengths(g)) == 0
  {
    if g != [] {
      var h := g[..|g| - 1];
      EmptyGroups(h);
      assert Lengths(g) == Lengths(h) + [0];
      SumIntAppend(Lengths(h), [0]);
    }
  }

  lemma Cancel<T>(a: multiset<T>, b: multiset<T>, y: multiset<T>)
    requires a + y == b + y
    ensures a == b
  {
    assert a == (a + y) - y;
  }

  lemma FlattenAdd<T>(rs: seq<seq<T>>, j: nat, x: T)
    requires j < |rs|
    ensures Flatten(rs[j := rs[j] + [x]]) == Flatten(rs) + multiset{x}
  {
    FlattenUpdate(rs, j, rs[j] + [x]);
    var A, B, Y := Flatten(rs[j := rs[j] + [x]]), Flatten(rs), multiset(rs[j]);
    assert multiset(rs[j] + [x]) == Y + multiset{x};
    assert A + Y == (B + multiset{x}) + Y;
    Cancel(A, B + multiset{x}, Y);
  }

  /** Two groups rearranged among themselves leave the union unchanged. */
  lemma FlattenExchange<T>(rs: seq<seq<T>>, a: nat, b: nat, xa: seq<T>, xb: seq<T>)
    requires a < |rs| && b < |rs| && a != b
    requires multiset(xa) + multiset(xb) == multiset(rs[a]) + multiset(rs[b])
    ensures Flatten(rs[a := xa][b := xb]) == Flatten(rs)
  {
    FlattenUpdate(rs, a, xa);
    FlattenUpdate(rs[a := xa], b, xb);
    var F0, F1, F2 := Flatten(rs), Flatten(rs[a := xa]), Flatten(rs[a := xa][b := xb]);
    var A, B, XA, XB := multiset(rs[a]), multiset(rs[b]), multiset(xa), multiset(xb);
    assert F1 + A == F0 + XA;
    assert F2 + B == F1 + XB;
    assert F2 + (A + B) == F0 + (XA + XB) by {
      assert F2 + (A + B) == (F2 + B) + A;
      assert F0 + (XA + XB) == (F0 + XA) + XB;
    }
    Cancel(F2, F0, A + B);
  }

  /** Two groups replaced by groups of their own sizes leave every size unchanged. */
  lemma LengthsExchange<T>(rs: seq<seq<T>>, a: nat, b: nat, xa: seq<T>, xb: seq<T>)
    requires a < |rs| && b < |rs| && |xa| == |rs[a]| && |xb| == |rs[b]|
    ensures Lengths(rs[a := xa][b := xb]) == Lengths(rs)
  {
  }

  /**
   * Sizes seen on values: group j grows by one, where j was below its target
   * or every group was at its target. The total grows by one, and groups
   * that fit with room left still fit.
   */
  lemma GrowOne(sizes: seq<int>, j: nat, targets: seq<int>)
    requires j < |sizes| == |targets|
    requires sizes[j] < targets[j] || forall t :: 0 <= t < |sizes| ==> sizes[t] >= targets[t]
    ensures SumInt(sizes[j := sizes[j] + 1]) == SumInt(sizes) + 1
    ensures Fits(sizes, targets) && SumInt(sizes) < SumInt(targets) ==> Fits(sizes[j := sizes[j] + 1], targets)
  {
    SumIntUpdate(sizes, j, sizes[j] + 1);
    if Fits(sizes, targets) && SumInt(sizes) < SumInt(targets) && sizes[j] >= targets[j] {
      SumIntLe(targets, sizes);
    }
  }

  /**
   * The fallback of both snake passes: the first index with the fewest
   * members (`bestLen` starts at Infinity, written None here).
   */
  method FewestMembers(sizes: seq<int>) returns (best: nat)
    requires |sizes| > 0
    ensures best < |sizes|
    ensures forall t :: 0 <= t < |sizes| ==> sizes[best] <= sizes[t]
    ensures forall t :: 0 <= t < best ==> sizes[t] > sizes[best]
  {
    best := 0;
    var bestLen: Option<int> := None;
    for t := 0 to |sizes|
      invariant t == 0 ==> bestLen.None? && best == 0
      invariant t > 0 ==> best < t && bestLen == Some(sizes[best])
      invariant forall u :: 0 <= u < t ==> sizes[best] <= sizes[u]
      invariant forall u :: 0 <= u < best ==> sizes[u] > sizes[best]
    {
      if bestLen.None? || sizes[t] < bestLen.value {
        bestLen := Some(sizes[t]);
        best := t;
      }
    }
  }
}
