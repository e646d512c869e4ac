/**
 * The stable descending sort that `Array.prototype.sort` performs with a
 * comparator of the form `(a, b) => key(b) - key(a)`. It is written as an
 * insertion sort; a stable sort has only one possible result.
 */
module Sorting {

  predicate SortedDesc<T>(s: seq<T>, key: T -> real)
  {
    forall i, j :: 0 <= i < j < |s| ==> key(s[i]) >= key(s[j])
  }

  /** Puts x in front of the first element whose key is not above x's. */
  function Insert<T>(x: T, s: seq<T>, key: T -> real): (r: seq<T>)
    requires SortedDesc(s, key)
    ensures multiset(r) == multiset(s) + multiset{x}
    ensures SortedDesc(r, key)
  {
    if s == [] || key(x) >= key(s[0]) then [x] + s
    else
      var rest := Insert(x, s[1..], key);
      assert s == [s[0]] + s[1..];
      HeadStaysFirst(s[0], x, s[1..], rest, key);
      [s[0]] + rest
  }

  /** A head whose key is not below any of x and t is not below any element of a rearrangement of them. */
  lemma HeadStaysFirst<T>(h: T, x: T, t: seq<T>, r: seq<T>, key: T -> real)
    requires key(h) >= key(x) && forall i :: 0 <= i < |t| ==> key(h) >= key(t[i])
    requires multiset(r) == multiset(t) + multiset{x}
    ensures forall k :: 0 <= k < |r| ==> key(h) >= key(r[k])
  {
    forall k | 0 <= k < |r|
      ensures key(h) >= key(r[k])
    {
      assert r[k] in multiset(r);
      assert r[k] == x || r[k] in t;
    }
  }

  /** Sorted by descending key; elements with equal keys keep their input order. */
  function SortDesc<T>(s: seq<T>, key: T -> real): (r: seq<T>)
    ensures multiset(r) == multiset(s)
    ensures |r| == |s|
    ensures SortedDesc(r, key)
  {
    if s == [] then []
    else
      assert s == [s[0]] + s[1..];
      Insert(s[0], SortDesc(s[1..], key), key)
  }

  /** The elements of s whose key is v, in their order in s. */
  function WithKey<T>(s: seq<T>, key: T -> real, v: real): seq<T>
  {
    if s == [] then [] else (if key(s[0]) == v then [s[0]] else []) + WithKey(s[1..], key, v)
  }

  /** Insert places x in front of every element whose key ties with it, and keeps their order. */
  lemma {:induction false} InsertBeforeTies<T>(x: T, s: seq<T>, key: T -> real, v: real)
    requires SortedDesc(s, key)
    ensures WithKey(Insert(x, s, key), key, v) == (if key(x) == v then [x] else []) + WithKey(s, key, v)
  {
    var tx: seq<T> := if key(x) == v then [x] else [];
    if s == [] || key(x) >= key(s[0]) {
      assert Insert(x, s, key) == [x] + s;
      assert ([x] + s)[1..] == s;
    } else {
      var rest := Insert(x, s[1..], key);
      var th: seq<T> := if key(s[0]) == v then [s[0]] else [];
      InsertBeforeTies(x, s[1..], key, v);
      assert Insert(x, s, key) == [s[0]] + rest;
      assert ([s[0]] + rest)[1..] == rest;
      assert WithKey([s[0]] + rest, key, v) == th + (tx + WithKey(s[1..], key, v));
      assert WithKey(s, key, v) == th + WithKey(s[1..], key, v);
      assert th == [] || tx == [];
      assert th + tx == tx + th;
    }
  }

  /** SortDesc is stable: the elements sharing any one key keep their input order. */
  lemma {:induction false} SortDescStable<T>(s: seq<T>, key: T -> real, v: real)
    ensures WithKey(SortDesc(s, key), key, v) == WithKey(s, key, v)
  {
    if s != [] {
      SortDescStable(s[1..], key, v);
      InsertBeforeTies(s[0], SortDesc(s[1..], key), key, v);
    }
  }
}
