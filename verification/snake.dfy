/**
 * Serpentine order over k teams: 0, 1, ..., k-1, k-1, ..., 1, 0, 0, 1, ...
 * The state (i, forward) of scripts/voley_teams.ts corresponds to a phase
 * p in [0, 2k) that advances by one modulo 2k at every step.
 */
module Snake {
  import opened Groups

  /** One step of the snake: `i++` or `i--`, turning round at either end. */
  function Advance(i: int, forward: bool, k: int): (r: (int, bool))
    ensures 0 <= i < k ==> 0 <= r.0 < k && i - 1 <= r.0 <= i + 1
    ensures 0 <= i < k && r.1 != forward ==> r.0 == i && (i == 0 || i == k - 1)
  {
    if forward then
      if i + 1 >= k then (k - 1, false) else (i + 1, true)
    else
      if i - 1 < 0 then (0, true) else (i - 1, false)
  }

  /** The team index at phase p. */
  function Position(p: int, k: int): int
  {
    if p < k then p else 2 * k - 1 - p
  }

  /** The snake state (i, forward) is the one of phase p. */
  predicate AtPhase(i: int, forward: bool, p: int, k: int)
  {
    0 <= p < 2 * k && i == Position(p, k) && forward == (p < k)
  }

  /** The phase after p: one more, wrapping from 2k-1 back to 0. */
  function Next(p: int, k: nat): int
  {
    if p + 1 >= 2 * k then 0 else p + 1
  }

  /** The phase reached s steps after phase p0. */
  function PhaseAfter(p0: int, s: nat, k: nat): (p: int)
    ensures 0 <= p0 < 2 * k ==> 0 <= p < 2 * k
  {
    if s == 0 then p0 else Next(PhaseAfter(p0, s - 1, k), k)
  }

  /** The team looked at s steps after phase p0. */
  function Visited(p0: int, s: nat, k: nat): (j: int)
    ensures 0 <= p0 < 2 * k ==> 0 <= j < k
  {
    Position(PhaseAfter(p0, s, k), k)
  }

  /** Advancing the snake advances its phase by one, modulo 2k. */
  lemma AdvanceStep(p: int, k: nat)
    requires k >= 1 && 0 <= p < 2 * k
    ensures 0 <= Position(p, k) < k
    ensures Advance(Position(p, k), p < k, k) == (Position(Next(p, k), k), Next(p, k) < k)
  {
  }

  /** Phases stay in [0, 2k) and wrap round exactly once within 2k steps. */
  lemma {:induction false} PhaseAfterValue(p0: int, s: nat, k: nat)
    requires k >= 1 && 0 <= p0 < 2 * k && s < 2 * k
    ensures PhaseAfter(p0, s, k) == if p0 + s < 2 * k then p0 + s else p0 + s - 2 * k
  {
    if s > 0 {
      PhaseAfterValue(p0, s - 1, k);
    }
  }

  /** 2k steps bring the snake back to the phase it started at. */
  lemma FullRound(p: int, k: nat)
    requires k >= 1 && 0 <= p < 2 * k
    ensures PhaseAfter(p, 2 * k, k) == p
  {
    PhaseAfterValue(p, 2 * k - 1, k);
  }

  /** The number of steps after phase p0 at which team j is looked at. */
  function StepsTo(p0: int, j: int, k: nat): (s: nat)
    requires k >= 1 && 0 <= p0 < 2 * k && 0 <= j < k
    ensures s < 2 * k && Visited(p0, s, k) == j
  {
    var s := if j >= p0 then j - p0 else j - p0 + 2 * k;
    PhaseAfterValue(p0, s, k);
    s
  }

  /**
   * One placement of the snake deal from phase p over groups of sizes lens:
   * when some group is below its target, j is the first such group in
   * snake order and the phase stops one step past it; otherwise the snake
   * goes round once, back to p, and j is the first group of fewest members.
   */
  predicate Chose(lens: seq<int>, targets: seq<int>, p: int, j: int, p': int)
    requires |targets| == |lens| >= 1 && 0 <= p < 2 * |lens|
  {
    var k := |lens|;
    if exists t :: 0 <= t < k && lens[t] < targets[t] then
      exists s :: 0 <= s < 2 * k && j == Visited(p, s, k) && lens[j] < targets[j] && p' == PhaseAfter(p, s + 1, k) &&
        forall s' :: 0 <= s' < s ==> lens[Visited(p, s', k)] >= targets[Visited(p, s', k)]
    else
      p' == p && 0 <= j < k && (forall t :: 0 <= t < k ==> lens[j] <= lens[t]) &&
      forall t :: 0 <= t < j ==> lens[t] > lens[j]
  }

  /** The snake deal is deterministic: the sizes, the targets and the phase fix the choice. */
  lemma ChoseUnique(lens: seq<int>, targets: seq<int>, p: int, j1: int, p1: int, j2: int, p2: int)
    requires |targets| == |lens| >= 1 && 0 <= p < 2 * |lens|
    requires Chose(lens, targets, p, j1, p1) && Chose(lens, targets, p, j2, p2)
    ensures j1 == j2 && p1 == p2
  {
    var k := |lens|;
    if exists t :: 0 <= t < k && lens[t] < targets[t] {
      var s1 :| 0 <= s1 < 2 * k && j1 == Visited(p, s1, k) && lens[j1] < targets[j1] && p1 == PhaseAfter(p, s1 + 1, k) &&
        forall s' :: 0 <= s' < s1 ==> lens[Visited(p, s', k)] >= targets[Visited(p, s', k)];
      var s2 :| 0 <= s2 < 2 * k && j2 == Visited(p, s2, k) && lens[j2] < targets[j2] && p2 == PhaseAfter(p, s2 + 1, k) &&
        forall s' :: 0 <= s' < s2 ==> lens[Visited(p, s', k)] >= targets[Visited(p, s', k)];
      assert s1 == s2;
    } else {
      assert p1 == p && p2 == p;
      assert j1 == j2;
    }
  }

  /**
   * The deal of items into the groups rs0 by the snake, from phase 0:
   * trail[m] are the groups before item m, js[m] the group item m joins and
   * ps[m] the phase it is chosen from, for the first n items.
   */
  ghost predicate Dealt<T>(rs0: seq<seq<T>>, items: seq<T>, targets: seq<int>, n: nat,
                           trail: seq<seq<seq<T>>>, js: seq<int>, ps: seq<int>)
  {
    n <= |items| && |trail| == n + 1 && |js| == n && |ps| == n + 1 && trail[0] == rs0 && ps[0] == 0 &&
    forall m :: 0 <= m < n ==> DealStep(items, targets, trail, js, ps, m)
  }

  /** Step m of a deal: item m joins the group the snake chooses at phase ps[m]. */
  ghost predicate DealStep<T>(items: seq<T>, targets: seq<int>, trail: seq<seq<seq<T>>>, js: seq<int>, ps: seq<int>, m: nat)
  {
    m < |items| && m + 1 < |trail| && m < |js| && m + 1 < |ps| &&
    |trail[m]| == |targets| >= 1 && 0 <= ps[m] < 2 * |targets| && 0 <= js[m] < |targets| &&
    Chose(Lengths(trail[m]), targets, ps[m], js[m], ps[m + 1]) &&
    trail[m + 1] == trail[m][js[m] := trail[m][js[m]] + [items[m]]]
  }

  /** Nothing is dealt yet. */
  lemma DealtStart<T>(rs0: seq<seq<T>>, items: seq<T>, targets: seq<int>)
    ensures Dealt(rs0, items, targets, 0, [rs0], [], [0])
  {
  }

  /** Dealing item n extends the trace by one. */
  lemma DealtStep<T>(rs0: seq<seq<T>>, items: seq<T>, targets: seq<int>, n: nat,
                     trail: seq<seq<seq<T>>>, js: seq<int>, ps: seq<int>, j: int, p': int)
    requires Dealt(rs0, items, targets, n, trail, js, ps) && n < |items|
    requires |trail[n]| == |targets| >= 1 && 0 <= ps[n] < 2 * |targets| && 0 <= j < |targets|
    requires Chose(Lengths(trail[n]), targets, ps[n], j, p')
    ensures Dealt(rs0, items, targets, n + 1, trail + [trail[n][j := trail[n][j] + [items[n]]]], js + [j], ps + [p'])
  {
    var trail', js', ps' := trail + [trail[n][j := trail[n][j] + [items[n]]]], js + [j], ps + [p'];
    forall m | 0 <= m < n + 1
      ensures DealStep(items, targets, trail', js', ps', m)
    {
      assert m < n ==> DealStep(items, targets, trail, js, ps, m);
      assert trail'[m] == trail[m] && ps'[m] == ps[m] && js'[m] == (if m < n then js[m] else j);
      assert ps'[m + 1] == (if m < n then ps[m + 1] else p');
    }
  }

  /** The first n items of a deal are a deal of their own. */
  lemma DealtPrefix<T>(rs0: seq<seq<T>>, items: seq<T>, targets: seq<int>, n: nat,
                       trail: seq<seq<seq<T>>>, js: seq<int>, ps: seq<int>)
    requires Dealt(rs0, items, targets, n, trail, js, ps) && n > 0
    ensures Dealt(rs0, items, targets, n - 1, trail[..n], js[..n - 1], ps[..n])
  {
    var trail', js', ps' := trail[..n], js[..n - 1], ps[..n];
    forall m | 0 <= m < n - 1
      ensures DealStep(items, targets, trail', js', ps', m)
    {
      assert DealStep(items, targets, trail, js, ps, m);
    }
  }

  /** The deal is a function of the groups, the items and the targets: any two traces agree. */
  lemma {:induction false} DealtUnique<T>(rs0: seq<seq<T>>, items: seq<T>, targets: seq<int>, n: nat,
                                          t1: seq<seq<seq<T>>>, js1: seq<int>, ps1: seq<int>,
                                          t2: seq<seq<seq<T>>>, js2: seq<int>, ps2: seq<int>)
    requires Dealt(rs0, items, targets, n, t1, js1, ps1) && Dealt(rs0, items, targets, n, t2, js2, ps2)
    ensures t1 == t2 && js1 == js2 && ps1 == ps2
  {
    if n > 0 {
      DealtPrefix(rs0, items, targets, n, t1, js1, ps1);
      DealtPrefix(rs0, items, targets, n, t2, js2, ps2);
      DealtUnique(rs0, items, targets, n - 1, t1[..n], js1[..n - 1], ps1[..n], t2[..n], js2[..n - 1], ps2[..n]);
      assert t1[n - 1] == t1[..n][n - 1] == t2[..n][n - 1] == t2[n - 1];
      assert ps1[n - 1] == ps2[n - 1];
      assert DealStep(items, targets, t1, js1, ps1, n - 1) && DealStep(items, targets, t2, js2, ps2, n - 1);
      ChoseUnique(Lengths(t1[n - 1]), targets, ps1[n - 1], js1[n - 1], ps1[n], js2[n - 1], ps2[n]);
      assert t1 == t1[..n] + [t1[n]] && t2 == t2[..n] + [t2[n]];
      assert js1 == js1[..n - 1] + [js1[n - 1]] && js2 == js2[..n - 1] + [js2[n - 1]];
      assert ps1 == ps1[..n] + [ps1[n]] && ps2 == ps2[..n] + [ps2[n]];
    }
  }
}
