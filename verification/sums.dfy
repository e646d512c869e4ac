/** Sums of sequences of numbers, with the facts the aggregates need. */
module Sums {

  function Sum(xs: seq<real>): real
  {
    if xs == [] then 0.0 else Sum(xs[..|xs| - 1]) + xs[|xs| - 1]
  }

  function SumInt(xs: seq<int>): int
  {
    if xs == [] then 0 else SumInt(xs[..|xs| - 1]) + xs[|xs| - 1]
  }

  lemma {:induction false} SumAppend(xs: seq<real>, ys: seq<real>)
    ensures Sum(xs + ys) == Sum(xs) + Sum(ys)
    decreases |ys|
  {
    if ys == [] {
      assert xs + ys == xs;
    } else {
      var init := ys[..|ys| - 1];
      assert (xs + ys)[..|xs + ys| - 1] == xs + init;
      SumAppend(xs, init);
    }
  }

  /** Removing element i takes exactly xs[i] off the sum. */
  lemma SumRemove(xs: seq<real>, i: nat)
    requires i < |xs|
    ensures Sum(xs[..i] + xs[i + 1..]) + xs[i] == Sum(xs)
  {
    assert xs == xs[..i] + ([xs[i]] + xs[i + 1..]);
    SumAppend(xs[..i], [xs[i]] + xs[i + 1..]);
    SumAppend([xs[i]], xs[i + 1..]);
    SumAppend(xs[..i], xs[i + 1..]);
    assert [xs[i]][..0] == [];
  }

  /** A sum of squares is never negative. */
  lemma {:induction false} SumNonNegative(xs: seq<real>)
    requires forall i :: 0 <= i < |xs| ==> xs[i] >= 0.0
    ensures Sum(xs) >= 0.0
  {
    if xs != [] {
      SumNonNegative(xs[..|xs| - 1]);
    }
  }

  /** A sequence whose entries are all c sums to |xs| * c. */
  lemma {:induction false} SumConstant(xs: seq<real>, c: real)
    requires forall i :: 0 <= i < |xs| ==> xs[i] == c
    ensures Sum(xs) == |xs| as real * c
  {
    if xs != [] {
      SumConstant(xs[..|xs| - 1], c);
    }
  }

  lemma {:induction false} SumIntAppend(xs: seq<int>, ys: seq<int>)
    ensures SumInt(xs + ys) == SumInt(xs) + SumInt(ys)
    decreases |ys|
  {
    if ys == [] {
      assert xs + ys == xs;
    } else {
      var init := ys[..|ys| - 1];
      assert (xs + ys)[..|xs + ys| - 1] == xs + init;
      SumIntAppend(xs, init);
    }
  }

  /** Replacing entry i by v changes the sum by v - xs[i]. */
  lemma SumIntUpdate(xs: seq<int>, i: nat, v: int)
    requires i < |xs|
    ensures SumInt(xs[i := v]) == SumInt(xs) - xs[i] + v
  {
    var ys := xs[i := v];
    assert xs == xs[..i] + [xs[i]] + xs[i + 1..];
    assert ys == xs[..i] + [v] + xs[i + 1..];
    SumIntAppend(xs[..i] + [xs[i]], xs[i + 1..]);
    SumIntAppend(xs[..i], [xs[i]]);
    SumIntAppend(xs[..i] + [v], xs[i + 1..]);
    SumIntAppend(xs[..i], [v]);
    assert SumInt([xs[i]]) == xs[i] by { assert [xs[i]][..0] == []; }
    assert SumInt([v]) == v by { assert [v][..0] == []; }
  }

  /** Pointwise at most gives a sum at most. */
  lemma {:induction false} SumIntLe(xs: seq<int>, ys: seq<int>)
    requires |xs| == |ys| && forall i :: 0 <= i < |xs| ==> xs[i] <= ys[i]
    ensures SumInt(xs) <= SumInt(ys)
  {
    if xs != [] {
      SumIntLe(xs[..|xs| - 1], ys[..|ys| - 1]);
    }
  }

  /** Pointwise at most, and strictly below at t, gives a strictly smaller sum. */
  lemma {:induction false} SumIntLt(xs: seq<int>, ys: seq<int>, t: nat)
    requires |xs| == |ys| && forall i :: 0 <= i < |xs| ==> xs[i] <= ys[i]
    requires t < |xs| && xs[t] < ys[t]
    ensures SumInt(xs) < SumInt(ys)
  {
    var n := |xs| - 1;
    if t == n {
      SumIntLe(xs[..n], ys[..n]);
    } else {
      SumIntLt(xs[..n], ys[..n], t);
    }
  }
}
