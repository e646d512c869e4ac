/**
 * The women pre-bucketing of `buildBalancedMixedTeams`
 * (scripts/voley_teams.ts): the women, best smash first, are dealt in
 * snake order into one bucket per team, each bucket up to its women
 * target; the buckets are then poured into the teams up to their sizes.
 */
module Buckets {
  import opened Sums
  import opened Strength
  import opened Teams
  import opened Snake
  import opened Groups
  import opened Seeding

  /**
   * The snake walk for one woman: at most 2k steps, pushing her onto the
   * first bucket below its women target.
   */
  method BucketWalk(buckets: seq<seq<Entry>>, f: Entry, targetWomen: seq<int>, i: int, forward: bool, ghost p: int)
    returns (buckets': seq<seq<Entry>>, i': int, forward': bool, ghost p': int, placed: bool, j: nat)
    requires |buckets| >= 1 && |targetWomen| == |buckets|
    requires AtPhase(i, forward, p, |buckets|)
    ensures AtPhase(i', forward', p', |buckets|)
    ensures !placed ==> buckets' == buckets && p' == p
    ensures !placed ==> forall t :: 0 <= t < |buckets| ==> |buckets[t]| >= targetWomen[t]
    ensures placed ==> j < |buckets| && |buckets[j]| < targetWomen[j] && buckets' == buckets[j := buckets[j] + [f]]
    ensures placed ==> (exists s :: 0 <= s < 2 * |buckets| && j == Visited(p, s, |buckets|) && p' == PhaseAfter(p, s + 1, |buckets|) &&
                          forall s' :: 0 <= s' < s ==> |buckets[Visited(p, s', |buckets|)]| >= targetWomen[Visited(p, s', |buckets|)])
  {
    var k := |buckets|;
    buckets', i', forward', p', j := buckets, i, forward, p, 0;
    placed := false;
    var guard := 0;
    ghost var at := 0;
    while !placed && guard < k * 2
      invariant 0 <= guard <= 2 * k
      invariant AtPhase(i', forward', p', k) && p' == PhaseAfter(p, guard, k)
      invariant !placed ==> buckets' == buckets
      invariant !placed ==> forall s :: 0 <= s < guard ==> |buckets[Visited(p, s, k)]| >= targetWomen[Visited(p, s, k)]
      invariant placed ==> j < k && |buckets[j]| < targetWomen[j] && buckets' == buckets[j := buckets[j] + [f]]
      invariant placed ==> (guard == at + 1 && j == Visited(p, at, k) &&
                              forall s' :: 0 <= s' < at ==> |buckets[Visited(p, s', k)]| >= targetWomen[Visited(p, s', k)])
    {
      var idx := if i' < 0 then 0 else if i' > k - 1 then k - 1 else i';
      AdvanceStep(p', k);
      assert idx == Visited(p, guard, k);
      if |buckets'[idx]| < targetWomen[idx] {
        buckets' := buckets'[idx := buckets'[idx] + [f]];
        placed, j, at := true, idx, guard;
      }
      var step := Advance(i', forward', k);
      i', forward' := step.0, step.1;
      p' := Next(p', k);
      guard := guard + 1;
    }
    if !placed {
      forall t | 0 <= t < k
        ensures |buckets[t]| >= targetWomen[t]
      {
        var s := StepsTo(p, t, k);
      }
      FullRound(p, k);
    }
  }

  /**
   * Buckets one woman: the snake walk, and if every bucket is at its
   * target, the first bucket with the fewest women.
   */
  method BucketOne(buckets: seq<seq<Entry>>, f: Entry, targetWomen: seq<int>, i: int, forward: bool, ghost p: int)
    returns (buckets': seq<seq<Entry>>, i': int, forward': bool, ghost p': int, j: nat)
    requires |buckets| >= 1 && |targetWomen| == |buckets|
    requires AtPhase(i, forward, p, |buckets|)
    ensures AtPhase(i', forward', p', |buckets|)
    ensures j < |buckets| && buckets' == buckets[j := buckets[j] + [f]]
    ensures |buckets[j]| < targetWomen[j] || forall t :: 0 <= t < |buckets| ==> |buckets[t]| >= targetWomen[t]
    ensures (forall t :: 0 <= t < |buckets| ==> |buckets[t]| >= targetWomen[t]) ==>
              (forall t :: 0 <= t < |buckets| ==> |buckets[j]| <= |buckets[t]|) &&
              (forall t :: 0 <= t < j ==> |buckets[t]| > |buckets[j]|)
    ensures Chose(Lengths(buckets), targetWomen, p, j, p')
  {
    var placed;
    buckets', i', forward', p', placed, j := BucketWalk(buckets, f, targetWomen, i, forward, p);
    ghost var lens := Lengths(buckets);
    if !placed {
      var best := FewestMembers(Lengths(buckets));
      buckets' := buckets[best := buckets[best] + [f]];
      j := best;
      assert !exists t :: 0 <= t < |buckets| && lens[t] < targetWomen[t];
    } else {
      assert lens[j] < targetWomen[j];
    }
  }

  /**
   * The bucketing loop over the women in the order given. Every woman lands
   * in exactly one bucket, and when there is room for all of them no bucket
   * passes its target.
   */
  method BucketWomen(femSorted: seq<Entry>, targetWomen: seq<int>)
    returns (buckets: seq<seq<Entry>>, ghost trail: seq<seq<seq<Entry>>>, ghost js: seq<int>, ghost ps: seq<int>)
    requires |targetWomen| >= 1
    ensures |buckets| == |targetWomen|
    ensures Dealt(EmptyOf(|targetWomen|), femSorted, targetWomen, |femSorted|, trail, js, ps) &&
            buckets == trail[|femSorted|]
    ensures Flatten(buckets) == multiset(femSorted)
    ensures SumInt(Lengths(buckets)) == |femSorted|
    ensures (forall t :: 0 <= t < |targetWomen| ==> targetWomen[t] >= 0) && |femSorted| <= SumInt(targetWomen) ==>
              Fits(Lengths(buckets), targetWomen)
  {
    var k := |targetWomen|;
    buckets := EmptyOf(k);
    ghost var feasible := (forall t :: 0 <= t < k ==> targetWomen[t] >= 0) && |femSorted| <= SumInt(targetWomen);
    EmptyGroups(buckets);
    var forward, i := true, 0;
    ghost var p := 0;
    ghost var empty := buckets;
    trail, js, ps := [empty], [], [0];
    DealtStart(empty, femSorted, targetWomen);
    for n := 0 to |femSorted|
      invariant |buckets| == k && AtPhase(i, forward, p, k)
      invariant Flatten(buckets) == multiset(femSorted[..n])
      invariant SumInt(Lengths(buckets)) == n
      invariant feasible ==> Fits(Lengths(buckets), targetWomen)
      invariant Dealt(empty, femSorted, targetWomen, n, trail, js, ps) && buckets == trail[n] && p == ps[n]
    {
      var j;
      ghost var before := buckets;
      buckets, i, forward, p, j := BucketOne(buckets, femSorted[n], targetWomen, i, forward, p);
      BucketedOne(before, j, femSorted, n, targetWomen);
      DealtStep(empty, femSorted, targetWomen, n, trail, js, ps, j, p);
      trail, js, ps := trail + [buckets], js + [j], ps + [p];
    }
    assert femSorted[..|femSorted|] == femSorted;
  }

  /** One bucketed woman seen on values. */
  lemma BucketedOne(bs: seq<seq<Entry>>, j: nat, fs: seq<Entry>, n: nat, targets: seq<int>)
    requires j < |bs| == |targets| && n < |fs|
    requires |bs[j]| < targets[j] || forall t :: 0 <= t < |bs| ==> |bs[t]| >= targets[t]
    requires Flatten(bs) == multiset(fs[..n])
    ensures Flatten(bs[j := bs[j] + [fs[n]]]) == multiset(fs[..n + 1])
    ensures SumInt(Lengths(bs[j := bs[j] + [fs[n]]])) == SumInt(Lengths(bs)) + 1
    ensures Fits(Lengths(bs), targets) && SumInt(Lengths(bs)) < SumInt(targets) ==>
              Fits(Lengths(bs[j := bs[j] + [fs[n]]]), targets)
  {
    FlattenAdd(bs, j, fs[n]);
    assert fs[..n + 1] == fs[..n] + [fs[n]];
    var sizes := Lengths(bs);
    assert Lengths(bs[j := bs[j] + [fs[n]]]) == sizes[j := sizes[j] + 1];
    GrowOne(sizes, j, targets);
  }

  /** How many of n bucketed women a team of the given size takes before reaching its target. */
  function Room(size: int, target: int, n: nat): (r: nat)
    ensures r <= n
    ensures size < target ==> r == if n < target - size then n else target - size
    ensures size >= target ==> r == 0
  {
    if target - size <= 0 then 0 else if n < target - size then n else target - size
  }

  /** A team below its target takes all of a bucket that fits, and never passes its target. */
  lemma RoomFits(size: int, target: int, n: nat)
    ensures size <= target ==> size + Room(size, target, n) <= target
    ensures size + n <= target ==> Room(size, target, n) == n
  {
  }

  /** Team t of rs', ws' has taken the first `taken` women of the bucket; the other teams are as in rs, ws. */
  ghost predicate TakenSoFar(rs: seq<seq<Player>>, ws: seq<int>, t: nat, bucket: seq<Entry>, taken: nat,
                             rs': seq<seq<Player>>, ws': seq<int>)
  {
    t < |rs| == |ws| && taken <= |bucket| &&
    rs' == rs[t := rs[t] + PlayersOf(bucket[..taken])] &&
    ws' == ws[t := ws[t] + CountWomen(PlayersOf(bucket[..taken]))]
  }

  /** Adds the next woman of the bucket to team t. */
  method TakeNext(teams: seq<Team>, t: nat, e: Entry, ghost bucket: seq<Entry>, ghost taken: nat, ghost allowed: set<Entry>,
                  ghost rs: seq<seq<Player>>, ghost ws: seq<int>, ghost rs': seq<seq<Player>>, ghost ws': seq<int>)
    returns (ghost rs'': seq<seq<Player>>, ghost ws'': seq<int>)
    requires t < |teams| && Distinct(teams) && AllValid(teams, allowed) && Holds(teams, rs', ws')
    requires taken < |bucket| && e == bucket[taken] && e in allowed && |e.pv.vec| == NumCategories
    requires TakenSoFar(rs, ws, t, bucket, taken, rs', ws')
    modifies teams
    ensures AllValid(teams, allowed) && Holds(teams, rs'', ws'')
    ensures TakenSoFar(rs, ws, t, bucket, taken + 1, rs'', ws'')
  {
    AddAt(teams, t, e, allowed, rs', ws');
    TakeOne(rs, ws, t, bucket, taken);
    rs'', ws'' := rs'[t := rs'[t] + [bucket[taken].p]], ws'[t := WomenAfter(ws'[t], bucket[taken].p)];
    assert rs''[t] == rs[t] + PlayersOf(bucket[..taken + 1]);
  }

  /**
   * The inner loop of the pouring: adds the women of one bucket to team t
   * in order while the team is below its target size.
   */
  method PourBucket(teams: seq<Team>, t: nat, bucket: seq<Entry>, target: int, ghost allowed: set<Entry>,
                    ghost rs: seq<seq<Player>>, ghost ws: seq<int>)
    returns (ghost rs': seq<seq<Player>>, ghost ws': seq<int>)
    requires t < |teams| && Distinct(teams) && AllValid(teams, allowed) && Holds(teams, rs, ws)
    requires forall e :: e in bucket ==> e in allowed && |e.pv.vec| == NumCategories
    modifies teams
    ensures AllValid(teams, allowed) && Holds(teams, rs', ws')
    ensures TakenSoFar(rs, ws, t, bucket, Room(|rs[t]|, target, |bucket|), rs', ws')
  {
    rs', ws' := rs, ws;
    ghost var taken := 0;
    ghost var room := Room(|rs[t]|, target, |bucket|);
    assert bucket[..0] == [] && rs[t] + PlayersOf([]) == rs[t];
    CountWomenOfNone();
    for m := 0 to |bucket|
      invariant taken == if m < room then m else room
      invariant AllValid(teams, allowed) && Holds(teams, rs', ws')
      invariant TakenSoFar(rs, ws, t, bucket, taken, rs', ws')
    {
      if |teams[t].members| < target {
        rs', ws' := TakeNext(teams, t, bucket[m], bucket, taken, allowed, rs, ws, rs', ws');
        taken := taken + 1;
      }
    }
  }

  /** Taking the next woman of a bucket, on values. */
  lemma TakeOne(rs: seq<seq<Player>>, ws: seq<int>, t: nat, bucket: seq<Entry>, taken: nat)
    requires t < |rs| == |ws| && taken < |bucket|
    ensures PlayersOf(bucket[..taken + 1]) == PlayersOf(bucket[..taken]) + [bucket[taken].p]
    ensures CountWomen(PlayersOf(bucket[..taken + 1])) ==
              WomenAfter(CountWomen(PlayersOf(bucket[..taken])), bucket[taken].p)
  {
    assert bucket[..taken + 1] == bucket[..taken] + [bucket[taken]];
    PlayersOfAppend(bucket[..taken], [bucket[taken]]);
    CountWomenAppend(PlayersOf(bucket[..taken]), [bucket[taken].p]);
    CountWomenOne(bucket[taken].p);
  }

  /** The women of bucket t that fit into team t. */
  function Fitting(r: seq<Player>, bucket: seq<Entry>, target: int): seq<Entry>
  {
    bucket[..Room(|r|, target, |bucket|)]
  }

  /**
   * The pouring loop: team by team, the women of its bucket that fit are
   * added in bucket order; the rest stay out of every team.
   */
  method PourBuckets(teams: seq<Team>, buckets: seq<seq<Entry>>, targetSizes: seq<int>, ghost allowed: set<Entry>,
                     ghost rs: seq<seq<Player>>, ghost ws: seq<int>)
    returns (ghost rs': seq<seq<Player>>, ghost ws': seq<int>)
    requires |buckets| == |targetSizes| == |teams| && Distinct(teams)
    requires AllValid(teams, allowed) && Holds(teams, rs, ws)
    requires forall t, e :: 0 <= t < |buckets| && e in buckets[t] ==> e in allowed && |e.pv.vec| == NumCategories
    modifies teams
    ensures AllValid(teams, allowed) && Holds(teams, rs', ws')
    ensures forall t :: 0 <= t < |teams| ==> rs'[t] == rs[t] + PlayersOf(Fitting(rs[t], buckets[t], targetSizes[t]))
    ensures forall t :: 0 <= t < |teams| ==> ws'[t] == ws[t] + CountWomen(PlayersOf(Fitting(rs[t], buckets[t], targetSizes[t])))
  {
    rs', ws' := rs, ws;
    for t := 0 to |teams|
      invariant AllValid(teams, allowed) && Holds(teams, rs', ws')
      invariant forall u :: 0 <= u < t ==> rs'[u] == rs[u] + PlayersOf(Fitting(rs[u], buckets[u], targetSizes[u]))
      invariant forall u :: 0 <= u < t ==> ws'[u] == ws[u] + CountWomen(PlayersOf(Fitting(rs[u], buckets[u], targetSizes[u])))
      invariant forall u :: t <= u < |teams| ==> rs'[u] == rs[u] && ws'[u] == ws[u]
    {
      ghost var before, wbefore := rs', ws';
      rs', ws' := PourBucket(teams, t, buckets[t], targetSizes[t], allowed, rs', ws');
      assert before[t] == rs[t] && wbefore[t] == ws[t];
    }
  }
}
