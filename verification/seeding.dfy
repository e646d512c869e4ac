/**
 * Constructive seeding of the teams (scripts/voley_teams.ts,
 * `seedBySmashSerpentine` and the women pre-bucketing of
 * `buildBalancedMixedTeams`).
 */
module Seeding {
  import opened Wrappers
  import opened Sums
  import opened Strength
  import opened Teams
  import opened Sorting
  import opened Snake
  import opened Groups

  /** A player with the strength vector computed for it. */
  datatype Entry = Entry(p: Player, pv: PlayerVec)

  /** The seeding order key: raw smash rating. */
  function SmashKey(e: Entry): real
  {
    e.pv.smashRaw as real
  }

  function PlayersOf(es: seq<Entry>): (ps: seq<Player>)
    ensures |ps| == |es| && forall i :: 0 <= i < |es| ==> ps[i] == es[i].p
  {
    seq(|es|, i requires 0 <= i < |es| => es[i].p)
  }

  /** Every member of t was added together with an entry of `allowed`. */
  ghost predicate Recorded(t: Team, allowed: set<Entry>)
    reads t
  {
    forall i :: 0 <= i < |t.members| && i < |t.vecs| ==> Entry(t.members[i], t.vecs[i]) in allowed
  }

  predicate Distinct(teams: seq<Team>)
  {
    forall i, j :: 0 <= i < j < |teams| ==> teams[i] != teams[j]
  }

  function Rosters(teams: seq<Team>): (rs: seq<seq<Player>>)
    reads teams
    ensures |rs| == |teams| && forall j :: 0 <= j < |teams| ==> rs[j] == teams[j].members
  {
    seq(|teams|, j requires 0 <= j < |teams| reads teams => teams[j].members)
  }

  /** The size of each group. */
  function Sizes(teams: seq<Team>): (sz: seq<int>)
    reads teams
    ensures |sz| == |teams| && forall j :: 0 <= j < |teams| ==> sz[j] == |teams[j].members|
  {
    Lengths(Rosters(teams))
  }

  function WomenCounts(teams: seq<Team>): (ws: seq<int>)
    reads teams
    ensures |ws| == |teams| && forall j :: 0 <= j < |teams| ==> ws[j] == teams[j].women
  {
    seq(|teams|, j requires 0 <= j < |teams| reads teams => teams[j].women)
  }

  lemma PlayersOfAppend(a: seq<Entry>, b: seq<Entry>)
    ensures PlayersOf(a + b) == PlayersOf(a) + PlayersOf(b)
  {
  }

  /** The entries other than the one at k. */
  function Without(b: seq<Entry>, k: nat): seq<Entry>
    requires k < |b|
  {
    b[..k] + b[k + 1..]
  }

  lemma SplitAt(b: seq<Entry>, k: nat)
    requires k < |b|
    ensures b == b[..k] + [b[k]] + b[k + 1..]
    ensures multiset(b) == multiset(Without(b, k)) + multiset{b[k]}
  {
    assert b == b[..k] + [b[k]] + b[k + 1..];
  }

  /** Taking out the entry at k takes out its player. */
  lemma RemovedOne(b: seq<Entry>, k: nat)
    requires k < |b|
    ensures multiset(b) == multiset(Without(b, k)) + multiset{b[k]}
    ensures multiset(PlayersOf(b)) == multiset(PlayersOf(Without(b, k))) + multiset{b[k].p}
  {
    var l, r := b[..k], b[k + 1..];
    SplitAt(b, k);
    PlayersOfAppend(l + [b[k]], r);
    PlayersOfAppend(l, [b[k]]);
    PlayersOfAppend(l, r);
    assert PlayersOf([b[k]]) == [b[k].p];
  }

  /** Two permutations of the same entries hold the same players. */
  lemma {:induction false} PlayersOfPermutation(a: seq<Entry>, b: seq<Entry>)
    requires multiset(a) == multiset(b)
    ensures multiset(PlayersOf(a)) == multiset(PlayersOf(b))
    decreases |a|
  {
    if a != [] {
      var x := a[|a| - 1];
      RemovedOne(a, |a| - 1);
      assert x in multiset(b);
      var k :| 0 <= k < |b| && b[k] == x;
      RemovedOne(b, k);
      Cancel(multiset(Without(a, |a| - 1)), multiset(Without(b, k)), multiset{x});
      PlayersOfPermutation(Without(a, |a| - 1), Without(b, k));
    }
  }

  /** The teams hold the rosters `rs` and the women counts `ws`. */
  ghost predicate Holds(teams: seq<Team>, rs: seq<seq<Player>>, ws: seq<int>)
    reads teams
  {
    |rs| == |teams| && |ws| == |teams| &&
    forall t :: 0 <= t < |teams| ==> teams[t].members == rs[t] && teams[t].women == ws[t]
  }

  /** The snapshot rs, ws is the teams' current rosters and women counts. */
  lemma HoldsRosters(teams: seq<Team>, rs: seq<seq<Player>>, ws: seq<int>)
    requires Holds(teams, rs, ws)
    ensures Rosters(teams) == rs && Sizes(teams) == Lengths(rs) && WomenCounts(teams) == ws
  {
  }

  /** The women count after adding p to a team with w women. */
  function WomenAfter(w: int, p: Player): int
  {
    w + if p.gender == F then 1 else 0
  }

  /** `addToTeam(teams[j], e.p, e.pv)`: team j grows by e, every team stays exact and sound. */
  method AddAt(teams: seq<Team>, j: nat, e: Entry, ghost allowed: set<Entry>,
               ghost rs: seq<seq<Player>>, ghost ws: seq<int>)
    requires j < |teams| && Distinct(teams) && AllValid(teams, allowed) && Holds(teams, rs, ws)
    requires e in allowed && |e.pv.vec| == NumCategories
    modifies teams[j]
    ensures AllValid(teams, allowed) && Holds(teams, rs[j := rs[j] + [e.p]], ws[j := WomenAfter(ws[j], e.p)])
  {
    assert teams[j].Valid();
    teams[j].Add(e.p, e.pv);
  }

  /**
   * The snake walk of `seedBySmashSerpentine` for one item: at most 2k
   * steps, adding the item to the first team below its target. The snake
   * keeps the step it was at.
   */
  method SnakeWalk(teams: seq<Team>, e: Entry, targetSizes: seq<int>, i: int, forward: bool, ghost p: int,
                   ghost allowed: set<Entry>, ghost rs: seq<seq<Player>>, ghost ws: seq<int>)
    returns (i': int, forward': bool, ghost p': int, placed: bool, ghost j: nat)
    requires |teams| >= 1 && |targetSizes| == |teams| && Distinct(teams)
    requires AllValid(teams, allowed) && Holds(teams, rs, ws) && e in allowed && |e.pv.vec| == NumCategories
    requires AtPhase(i, forward, p, |teams|)
    modifies teams
    ensures AtPhase(i', forward', p', |teams|)
    ensures AllValid(teams, allowed)
    ensures !placed ==> Holds(teams, rs, ws) && p' == p
    ensures !placed ==> forall s :: 0 <= s < 2 * |teams| ==> |rs[Visited(p, s, |teams|)]| >= targetSizes[Visited(p, s, |teams|)]
    ensures placed ==> j < |teams| && |rs[j]| < targetSizes[j]
    ensures placed ==> (exists s :: 0 <= s < 2 * |teams| && j == Visited(p, s, |teams|) && p' == PhaseAfter(p, s + 1, |teams|) &&
                          forall s' :: 0 <= s' < s ==> |rs[Visited(p, s', |teams|)]| >= targetSizes[Visited(p, s', |teams|)])
    ensures placed ==> Holds(teams, rs[j := rs[j] + [e.p]], ws[j := WomenAfter(ws[j], e.p)])
  {
    var k := |teams|;
    i', forward', p', j := i, forward, p, 0;
    placed := false;
    var tries := 0;
    ghost var at := 0;
    while !placed && tries < k * 2
      invariant 0 <= tries <= 2 * k
      invariant AtPhase(i', forward', p', k) && p' == PhaseAfter(p, tries, k)
      invariant AllValid(teams, allowed)
      invariant !placed ==> Holds(teams, rs, ws)
      invariant !placed ==> forall s :: 0 <= s < tries ==> |rs[Visited(p, s, k)]| >= targetSizes[Visited(p, s, k)]
      invariant placed ==> j < k && |rs[j]| < targetSizes[j]
      invariant placed ==> (tries == at + 1 && j == Visited(p, at, k) &&
                              forall s' :: 0 <= s' < at ==> |rs[Visited(p, s', k)]| >= targetSizes[Visited(p, s', k)])
      invariant placed ==> Holds(teams, rs[j := rs[j] + [e.p]], ws[j := WomenAfter(ws[j], e.p)])
    {
      var idx := if i' < 0 then 0 else if i' > k - 1 then k - 1 else i';
      AdvanceStep(p', k);
      assert idx == Visited(p, tries, k);
      if |teams[idx].members| < targetSizes[idx] {
        AddAt(teams, idx, e, allowed, rs, ws);
        placed, j, at := true, idx, tries;
      }
      var step := Advance(i', forward', k);
      i', forward' := step.0, step.1;
      p' := Next(p', k);
      tries := tries + 1;
    }
    if !placed {
      FullRound(p, k);
    }
  }

  /** The fallback of `seedBySmashSerpentine`: the item goes to the first team with the fewest members. */
  method PlaceFewest(teams: seq<Team>, e: Entry, ghost allowed: set<Entry>, ghost rs: seq<seq<Player>>, ghost ws: seq<int>)
    returns (ghost j: nat)
    requires |teams| >= 1 && Distinct(teams) && AllValid(teams, allowed) && Holds(teams, rs, ws)
    requires e in allowed && |e.pv.vec| == NumCategories
    modifies teams
    ensures j < |teams| && forall t :: 0 <= t < |teams| ==> |rs[j]| <= |rs[t]|
    ensures forall t :: 0 <= t < j ==> |rs[t]| > |rs[j]|
    ensures AllValid(teams, allowed) && Holds(teams, rs[j := rs[j] + [e.p]], ws[j := WomenAfter(ws[j], e.p)])
  {
    var best := FewestMembers(Sizes(teams));
    AddAt(teams, best, e, allowed, rs, ws);
    j := best;
  }

  /**
   * Places one item of `seedBySmashSerpentine`: the snake walk, and if it
   * found no team below its target (so every team is at it), the fallback.
   */
  method PlaceOne(teams: seq<Team>, e: Entry, targetSizes: seq<int>, i: int, forward: bool, ghost p: int,
                  ghost allowed: set<Entry>, ghost rs: seq<seq<Player>>, ghost ws: seq<int>)
    returns (i': int, forward': bool, ghost p': int, ghost j: nat)
    requires |teams| >= 1 && |targetSizes| == |teams| && Distinct(teams)
    requires AllValid(teams, allowed) && Holds(teams, rs, ws) && e in allowed && |e.pv.vec| == NumCategories
    requires AtPhase(i, forward, p, |teams|)
    modifies teams
    ensures AtPhase(i', forward', p', |teams|)
    ensures j < |teams| && (|rs[j]| < targetSizes[j] || forall t :: 0 <= t < |teams| ==> |rs[t]| >= targetSizes[t])
    ensures (forall t :: 0 <= t < |teams| ==> |rs[t]| >= targetSizes[t]) ==>
              (forall t :: 0 <= t < |teams| ==> |rs[j]| <= |rs[t]|) &&
              (forall t :: 0 <= t < j ==> |rs[t]| > |rs[j]|)
    ensures Chose(Lengths(rs), targetSizes, p, j, p')
    ensures AllValid(teams, allowed) && Holds(teams, rs[j := rs[j] + [e.p]], ws[j := WomenAfter(ws[j], e.p)])
  {
    var k := |teams|;
    var placed;
    i', forward', p', placed, j := SnakeWalk(teams, e, targetSizes, i, forward, p, allowed, rs, ws);
    ghost var lens := Lengths(rs);
    if !placed {
      forall t | 0 <= t < k
        ensures |rs[t]| >= targetSizes[t]
      {
        var s := StepsTo(p, t, k);
      }
      j := PlaceFewest(teams, e, allowed, rs, ws);
      assert !exists t :: 0 <= t < k && lens[t] < targetSizes[t];
    } else {
      assert lens[j] < targetSizes[j];
    }
  }

  /** Every team's aggregates are exact and every member came with an entry of `allowed`. */
  ghost predicate AllValid(teams: seq<Team>, allowed: set<Entry>)
    reads teams
  {
    forall t {:trigger teams[t].Valid()} :: 0 <= t < |teams| ==> teams[t].Valid() && Recorded(teams[t], allowed)
  }

  /** The players of the first n entries, counted with multiplicity. */
  function BagTo(es: seq<Entry>, n: nat): multiset<Player>
    requires n <= |es|
  {
    if n == 0 then multiset{} else BagTo(es, n - 1) + multiset{es[n - 1].p}
  }

  lemma {:induction false} BagToPlayers(es: seq<Entry>, n: nat)
    requires n <= |es|
    ensures BagTo(es, n) == multiset(PlayersOf(es[..n]))
  {
    if n > 0 {
      BagToPlayers(es, n - 1);
      assert es[..n] == es[..n - 1] + [es[n - 1]];
      PlayersOfAppend(es[..n - 1], [es[n - 1]]);
    }
  }

  /** No item is a woman. */
  predicate NoWomen(items: seq<Entry>)
  {
    forall e :: e in items ==> e.p.gender != F
  }

  /** Before any placement the groups rs0 fit their targets with room for every item. */
  predicate Feasible(rs0: seq<seq<Player>>, items: seq<Entry>, targets: seq<int>)
  {
    Fits(Lengths(rs0), targets) && |items| <= SumInt(targets) - SumInt(Lengths(rs0))
  }

  /**
   * The rosters rs and women counts ws after placing items[..n] into rs0, ws0:
   * the union grew by exactly those players, the total size by n, the women
   * counts did not move when no item is a woman, and feasible groups still fit.
   */
  ghost predicate Progress(rs0: seq<seq<Player>>, ws0: seq<int>, items: seq<Entry>, n: nat, targets: seq<int>,
                           rs: seq<seq<Player>>, ws: seq<int>)
  {
    n <= |items| &&
    Flatten(rs) == Flatten(rs0) + BagTo(items, n) &&
    (NoWomen(items) ==> ws == ws0) &&
    SumInt(Lengths(rs)) == SumInt(Lengths(rs0)) + n &&
    (Feasible(rs0, items, targets) ==> Fits(Lengths(rs), targets))
  }

  lemma ProgressAtStart(rs0: seq<seq<Player>>, ws0: seq<int>, items: seq<Entry>, targets: seq<int>)
    ensures Progress(rs0, ws0, items, 0, targets, rs0, ws0)
  {
    assert Flatten(rs0) + BagTo(items, 0) == Flatten(rs0);
  }

  /**
   * One placement seen on values: group j of rs grows by items[n].p, where j
   * was below its target or every group was at its target.
   */
  lemma PlacedOne(rs0: seq<seq<Player>>, ws0: seq<int>, items: seq<Entry>, n: nat, targets: seq<int>,
                  rs: seq<seq<Player>>, ws: seq<int>, j: nat)
    requires j < |rs| && |ws| == |rs| == |targets| && n < |items|
    requires |rs[j]| < targets[j] || forall t :: 0 <= t < |rs| ==> |rs[t]| >= targets[t]
    requires Progress(rs0, ws0, items, n, targets, rs, ws)
    ensures Progress(rs0, ws0, items, n + 1, targets, rs[j := rs[j] + [items[n].p]], ws[j := WomenAfter(ws[j], items[n].p)])
  {
    var x := items[n].p;
    FlattenAdd(rs, j, x);
    var sizes := Lengths(rs);
    assert Lengths(rs[j := rs[j] + [x]]) == sizes[j := sizes[j] + 1];
    GrowOne(sizes, j, targets);
    if NoWomen(items) {
      NoWomanAdded(items, n, ws, j);
    }
  }

  lemma NoWomanAdded(items: seq<Entry>, n: nat, ws: seq<int>, j: nat)
    requires NoWomen(items) && n < |items| && j < |ws|
    ensures ws[j := WomenAfter(ws[j], items[n].p)] == ws
  {
    assert items[n] in items;
  }

  /**
   * One iteration of `seedBySmashSerpentine`'s loop over the items: places
   * items[n] and accounts for it in the rosters and the women counts.
   */
  method PlaceNext(teams: seq<Team>, items: seq<Entry>, n: nat, targetSizes: seq<int>, i: int, forward: bool, ghost p: int,
                   ghost allowed: set<Entry>, ghost rs0: seq<seq<Player>>, ghost ws0: seq<int>,
                   ghost rs: seq<seq<Player>>, ghost ws: seq<int>)
    returns (i': int, forward': bool, ghost p': int, ghost j: nat, ghost rs': seq<seq<Player>>, ghost ws': seq<int>)
    requires n < |items| && items[n] in allowed && |items[n].pv.vec| == NumCategories
    requires |teams| >= 1 && |targetSizes| == |teams| && Distinct(teams)
    requires AllValid(teams, allowed) && Holds(teams, rs, ws)
    requires AtPhase(i, forward, p, |teams|)
    requires Progress(rs0, ws0, items, n, targetSizes, rs, ws)
    modifies teams
    ensures AtPhase(i', forward', p', |teams|)
    ensures AllValid(teams, allowed) && Holds(teams, rs', ws')
    ensures Progress(rs0, ws0, items, n + 1, targetSizes, rs', ws')
    ensures j < |rs| && Chose(Lengths(rs), targetSizes, p, j, p') && rs' == rs[j := rs[j] + [items[n].p]]
  {
    var item := items[n];
    i', forward', p', j := PlaceOne(teams, item, targetSizes, i, forward, p, allowed, rs, ws);
    PlacedOne(rs0, ws0, items, n, targetSizes, rs, ws, j);
    rs', ws' := rs[j := rs[j] + [item.p]], ws[j := WomenAfter(ws[j], item.p)];
  }

  /**
   * The loop of `seedBySmashSerpentine` over the items in the order given,
   * the snake starting at team 0 going forward.
   */
  method PlaceAll(teams: seq<Team>, items: seq<Entry>, targetSizes: seq<int>, ghost allowed: set<Entry>,
                  ghost rs0: seq<seq<Player>>, ghost ws0: seq<int>)
    returns (ghost rs: seq<seq<Player>>, ghost ws: seq<int>,
             ghost trail: seq<seq<seq<Player>>>, ghost js: seq<int>, ghost ps: seq<int>)
    requires |teams| >= 1 && |targetSizes| == |teams| && Distinct(teams)
    requires AllValid(teams, allowed) && Holds(teams, rs0, ws0)
    requires forall e :: e in items ==> e in allowed && |e.pv.vec| == NumCategories
    modifies teams
    ensures AllValid(teams, allowed) && Holds(teams, rs, ws)
    ensures Progress(rs0, ws0, items, |items|, targetSizes, rs, ws)
    ensures Dealt(rs0, PlayersOf(items), targetSizes, |items|, trail, js, ps) && rs == trail[|items|]
  {
    var k := |teams|;
    rs, ws := rs0, ws0;
    ProgressAtStart(rs0, ws0, items, targetSizes);
    var forward, i := true, 0;
    ghost var p := 0;
    ghost var players := PlayersOf(items);
    trail, js, ps := [rs0], [], [0];
    DealtStart(rs0, players, targetSizes);
    for n := 0 to |items|
      invariant AtPhase(i, forward, p, k)
      invariant AllValid(teams, allowed) && Holds(teams, rs, ws)
      invariant Progress(rs0, ws0, items, n, targetSizes, rs, ws)
      invariant Dealt(rs0, players, targetSizes, n, trail, js, ps) && rs == trail[n] && p == ps[n]
    {
      ghost var j, p0 := 0, p;
      i, forward, p, j, rs, ws := PlaceNext(teams, items, n, targetSizes, i, forward, p, allowed, rs0, ws0, rs, ws);
      assert players[n] == items[n].p;
      DealtStep(rs0, players, targetSizes, n, trail, js, ps, j, p);
      trail, js, ps := trail + [rs], js + [j], ps + [p];
    }
  }

  /**
   * `seedBySmashSerpentine`: sorts the items by smash, best first, and places
   * each in snake order, skipping teams at their target size. Every item
   * lands in exactly one team; when the items do not exceed the free room,
   * no team passes its target.
   */
  method SeedBySmashSerpentine(teams: seq<Team>, meta: seq<Entry>, targetSizes: seq<int>,
                               ghost allowed: set<Entry>)
    returns (ghost sorted: seq<Entry>, ghost trail: seq<seq<seq<Player>>>, ghost js: seq<int>, ghost ps: seq<int>)
    requires |teams| >= 1 && |targetSizes| == |teams| && Distinct(teams) && AllValid(teams, allowed)
    requires forall e :: e in meta ==> e in allowed && |e.pv.vec| == NumCategories
    modifies teams
    ensures AllValid(teams, allowed)
    ensures Flatten(Rosters(teams)) == old(Flatten(Rosters(teams))) + multiset(PlayersOf(meta))
    ensures NoWomen(meta) ==> forall t :: 0 <= t < |teams| ==> teams[t].women == old(teams[t].women)
    ensures Fits(old(Sizes(teams)), targetSizes) && |meta| <= SumInt(targetSizes) - SumInt(old(Sizes(teams))) ==>
              Fits(Sizes(teams), targetSizes) && SumInt(Sizes(teams)) == SumInt(old(Sizes(teams))) + |meta|
    ensures sorted == SortDesc(meta, SmashKey)
    ensures Dealt(old(Rosters(teams)), PlayersOf(sorted), targetSizes, |sorted|, trail, js, ps) &&
            Rosters(teams) == trail[|sorted|]
  {
    var items := SortDesc(meta, SmashKey);
    sorted := items;
    assert forall e :: e in sorted ==> e in multiset(meta);
    ghost var rs0, ws0 := Rosters(teams), WomenCounts(teams);
    HoldsRosters(teams, rs0, ws0);
    ghost var rs, ws;
    rs, ws, trail, js, ps := PlaceAll(teams, items, targetSizes, allowed, rs0, ws0);
    SeedContents(sorted, meta);
    HoldsRosters(teams, rs, ws);
    if NoWomen(meta) {
      assert NoWomen(sorted);
    }
  }

  /** The players the seeding placed are those of the unsorted items. */
  lemma SeedContents(sorted: seq<Entry>, meta: seq<Entry>)
    requires multiset(sorted) == multiset(meta)
    ensures BagTo(sorted, |sorted|) == multiset(PlayersOf(meta))
  {
    BagToPlayers(sorted, |sorted|);
    assert sorted[..|sorted|] == sorted;
    PlayersOfPermutation(sorted, meta);
  }
}
