/**
 * `buildBalancedMixedTeams` and `buildTeamsFromPlayers`
 * (scripts/voley_teams.ts): checks, target sizes, women seeded first by
 * smash into per-team buckets, everyone else seeded by smash in serpentine
 * order, then the swap refinement.
 */
module Builder {
  import opened Wrappers
  import opened Sums
  import opened Strength
  import opened Teams
  import opened Cost
  import opened Targets
  import opened Sorting
  import opened Groups
  import opened Seeding
  import opened Buckets
  import opened Snake
  import opened Refine
  import opened Meta

  /** `Array.from({ length: K }, () => emptyTeam(6))`: k new empty teams. */
  method EmptyTeams(k: nat) returns (teams: seq<Team>)
    ensures |teams| == k && Distinct(teams)
    ensures forall t :: 0 <= t < k ==> fresh(teams[t])
    ensures forall t :: 0 <= t < k ==> teams[t].Valid() && teams[t].members == [] && teams[t].women == 0
  {
    teams := [];
    for i := 0 to k
      invariant |teams| == i && Distinct(teams)
      invariant forall t :: 0 <= t < i ==> fresh(teams[t])
      invariant forall t :: 0 <= t < i ==> teams[t].Valid() && teams[t].members == [] && teams[t].women == 0
    {
      var team := new Team();
      teams := teams + [team];
    }
  }

  /** Empty teams are exact and hold no unrecorded member, whatever entries are allowed. */
  lemma EmptyAllValid(teams: seq<Team>, allowed: set<Entry>)
    requires forall t :: 0 <= t < |teams| ==> teams[t].Valid() && teams[t].members == []
    ensures AllValid(teams, allowed)
  {
    forall t | 0 <= t < |teams|
      ensures teams[t].Valid() && Recorded(teams[t], allowed)
    {
    }
  }

  /** Every bucketed entry is one of the bucketed women. */
  lemma BucketMembers(buckets: seq<seq<Entry>>, femSorted: seq<Entry>, females: seq<Entry>, allowed: set<Entry>)
    requires Flatten(buckets) == multiset(femSorted) && multiset(femSorted) == multiset(females)
    requires forall e :: e in females ==> e in allowed && |e.pv.vec| == NumCategories
    ensures forall t, e :: 0 <= t < |buckets| && e in buckets[t] ==> e in females
    ensures forall t, e :: 0 <= t < |buckets| && e in buckets[t] ==> e in allowed && |e.pv.vec| == NumCategories
  {
    forall t, e | 0 <= t < |buckets| && e in buckets[t]
      ensures e in females
    {
      InFlatten(buckets, e);
      assert e in multiset(females);
    }
  }

  /** A bucket within its team's size target is poured whole into an empty team. */
  lemma PouredBucket(bucket: seq<Entry>, targetWomen: int, targetSize: int)
    requires |bucket| <= targetWomen <= targetSize
    requires forall e :: e in bucket ==> e.p.gender == F
    ensures Fitting([], bucket, targetSize) == bucket
    ensures CountWomen(PlayersOf(bucket)) == |bucket|
  {
    AllWomen(bucket);
  }

  /** What pouring the buckets into empty teams leaves, on values. */
  lemma PouredBuckets(buckets: seq<seq<Entry>>, females: seq<Entry>, femSorted: seq<Entry>,
                      targetWomen: seq<int>, targetSizes: seq<int>, rs: seq<seq<Player>>, ws: seq<int>)
    requires |buckets| == |targetWomen| == |targetSizes| == |rs| == |ws|
    requires Flatten(buckets) == multiset(femSorted) && multiset(femSorted) == multiset(females)
    requires Fits(Lengths(buckets), targetWomen)
    requires forall t :: 0 <= t < |targetWomen| ==> targetWomen[t] <= targetSizes[t]
    requires forall t, e :: 0 <= t < |buckets| && e in buckets[t] ==> e.p.gender == F
    requires forall t :: 0 <= t < |rs| ==> rs[t] == PlayersOf(Fitting([], buckets[t], targetSizes[t]))
    requires forall t :: 0 <= t < |rs| ==> ws[t] == CountWomen(PlayersOf(Fitting([], buckets[t], targetSizes[t])))
    ensures Flatten(rs) == multiset(PlayersOf(females))
    ensures Lengths(rs) == Lengths(buckets) && ws == Lengths(rs)
    ensures Fits(Lengths(rs), targetWomen)
  {
    forall t | 0 <= t < |rs|
      ensures rs[t] == PlayersOf(buckets[t]) && ws[t] == |buckets[t]|
    {
      PouredBucket(buckets[t], targetWomen[t], targetSizes[t]);
    }
    PouredPlayers(buckets, females, femSorted, rs);
  }

  lemma PouredPlayers(buckets: seq<seq<Entry>>, females: seq<Entry>, femSorted: seq<Entry>, rs: seq<seq<Player>>)
    requires |buckets| == |rs| && forall t :: 0 <= t < |rs| ==> rs[t] == PlayersOf(buckets[t])
    requires Flatten(buckets) == multiset(femSorted) && multiset(femSorted) == multiset(females)
    ensures Flatten(rs) == multiset(PlayersOf(females))
  {
    PlayersOfConcat(buckets, rs);
    FlattenConcat(rs);
    FlattenConcat(buckets);
    PlayersOfPermutation(Concat(buckets), females);
  }

  /**
   * The bucket pass of phase 1: the women, sorted by smash (best first),
   * dealt in serpentine order into per-team buckets of at most the women
   * targets.
   */
  method SortedBuckets(females: seq<Entry>, targetWomen: seq<int>, ghost allowed: set<Entry>)
      returns (buckets: seq<seq<Entry>>, femSorted: seq<Entry>,
               ghost trail: seq<seq<seq<Entry>>>, ghost js: seq<int>, ghost ps: seq<int>)
    requires |targetWomen| >= 1 && (forall t :: 0 <= t < |targetWomen| ==> targetWomen[t] >= 0)
    requires |females| <= SumInt(targetWomen)
    requires forall e :: e in females ==> e in allowed && |e.pv.vec| == NumCategories
    ensures |buckets| == |targetWomen| && Fits(Lengths(buckets), targetWomen)
    ensures SumInt(Lengths(buckets)) == |females|
    ensures Flatten(buckets) == multiset(femSorted) && multiset(femSorted) == multiset(females)
    ensures forall t, e :: 0 <= t < |buckets| && e in buckets[t] ==> e in females
    ensures forall t, e :: 0 <= t < |buckets| && e in buckets[t] ==> e in allowed && |e.pv.vec| == NumCategories
    ensures femSorted == SortDesc(females, SmashKey)
    ensures Dealt(EmptyOf(|targetWomen|), femSorted, targetWomen, |femSorted|, trail, js, ps) &&
            buckets == trail[|femSorted|]
  {
    femSorted := SortDesc(females, SmashKey);
    buckets, trail, js, ps := BucketWomen(femSorted, targetWomen);
    BucketMembers(buckets, femSorted, females, allowed);
  }

  /**
   * Phase 1 of `buildBalancedMixedTeams` when women go first: the buckets
   * of SortedBuckets poured into the (empty) teams up to the size targets.
   */
  method SeedWomen(teams: seq<Team>, females: seq<Entry>, targetWomen: seq<int>, targetSizes: seq<int>,
                   ghost allowed: set<Entry>)
      returns (ghost rs: seq<seq<Player>>, ghost ws: seq<int>)
    requires |teams| >= 1 && |targetWomen| == |targetSizes| == |teams| && Distinct(teams) && AllValid(teams, allowed)
    requires forall t :: 0 <= t < |teams| ==> teams[t].members == [] && teams[t].women == 0
    requires forall t :: 0 <= t < |teams| ==> 0 <= targetWomen[t] <= targetSizes[t]
    requires |females| <= SumInt(targetWomen)
    requires forall e :: e in females ==> e in allowed && |e.pv.vec| == NumCategories && e.p.gender == F
    modifies teams
    ensures AllValid(teams, allowed) && Holds(teams, rs, ws)
    ensures Flatten(rs) == multiset(PlayersOf(females))
    ensures Fits(Lengths(rs), targetWomen) && SumInt(Lengths(rs)) == |females| && ws == Lengths(rs)
  {
    var buckets, femSorted, _, _, _ := SortedBuckets(females, targetWomen, allowed);
    rs, ws := PourWomen(teams, buckets, females, femSorted, targetWomen, targetSizes, allowed);
  }

  /**
   * The pouring of phase 1: the buckets, which hold the women and fit the
   * women targets, poured into the empty teams; every woman lands in her
   * bucket's team.
   */
  method PourWomen(teams: seq<Team>, buckets: seq<seq<Entry>>, females: seq<Entry>, femSorted: seq<Entry>,
                   targetWomen: seq<int>, targetSizes: seq<int>, ghost allowed: set<Entry>)
      returns (ghost rs: seq<seq<Player>>, ghost ws: seq<int>)
    requires |teams| >= 1 && |buckets| == |targetWomen| == |targetSizes| == |teams| && Distinct(teams)
    requires AllValid(teams, allowed)
    requires forall t :: 0 <= t < |teams| ==> teams[t].members == [] && teams[t].women == 0
    requires forall t :: 0 <= t < |teams| ==> 0 <= targetWomen[t] <= targetSizes[t]
    requires Fits(Lengths(buckets), targetWomen) && SumInt(Lengths(buckets)) == |females|
    requires Flatten(buckets) == multiset(femSorted) && multiset(femSorted) == multiset(females)
    requires forall t, e :: 0 <= t < |buckets| && e in buckets[t] ==>
               e in allowed && |e.pv.vec| == NumCategories && e.p.gender == F
    modifies teams
    ensures AllValid(teams, allowed) && Holds(teams, rs, ws)
    ensures Flatten(rs) == multiset(PlayersOf(females))
    ensures Fits(Lengths(rs), targetWomen) && SumInt(Lengths(rs)) == |females| && ws == Lengths(rs)
  {
    ghost var empty: seq<seq<Player>> := seq(|teams|, _ => []);
    ghost var zeros := seq(|teams|, _ => 0);
    assert Holds(teams, empty, zeros);
    rs, ws := PourBuckets(teams, buckets, targetSizes, allowed, empty, zeros);
    PouredBuckets(buckets, females, femSorted, targetWomen, targetSizes, rs, ws);
  }

  /**
   * Phase 2 of `buildBalancedMixedTeams`: the entries whose id is in no
   * team yet (`malesLeft`), seeded by smash in serpentine order.
   */
  method SeedRest(teams: seq<Team>, metaAll: seq<Entry>, targetSizes: seq<int>, ghost allowed: set<Entry>,
                  ghost rs0: seq<seq<Player>>, ghost ws0: seq<int>)
      returns (ghost rs: seq<seq<Player>>, ghost ws: seq<int>)
    requires |teams| >= 1 && |targetSizes| == |teams| && Distinct(teams) && AllValid(teams, allowed)
    requires Holds(teams, rs0, ws0)
    requires forall e :: e in metaAll ==> e in allowed && |e.pv.vec| == NumCategories
    modifies teams
    ensures AllValid(teams, allowed) && Holds(teams, rs, ws)
    ensures Flatten(rs) == Flatten(rs0) + multiset(PlayersOf(Unplaced(metaAll, rs0)))
    ensures NoWomen(Unplaced(metaAll, rs0)) ==> ws == ws0
    ensures Fits(Lengths(rs0), targetSizes) && |Unplaced(metaAll, rs0)| <= SumInt(targetSizes) - SumInt(Lengths(rs0)) ==>
              Fits(Lengths(rs), targetSizes) && SumInt(Lengths(rs)) == SumInt(Lengths(rs0)) + |Unplaced(metaAll, rs0)|
  {
    HoldsRosters(teams, rs0, ws0);
    var malesLeft := Unplaced(metaAll, Rosters(teams));
    ghost var _, _, _, _ := SeedBySmashSerpentine(teams, malesLeft, targetSizes, allowed);
    rs, ws := Rosters(teams), WomenCounts(teams);
  }

  /** Under unique ids, once the women are seeded exactly to their targets, the rest are the men. */
  lemma WomenSeeded(metaAll: seq<Entry>, k: nat, rs: seq<seq<Player>>)
    requires k >= 1 && UniqueIds(PlayersOf(metaAll))
    requires Flatten(rs) == multiset(PlayersOf(OfGender(metaAll, true)))
    requires Fits(Lengths(rs), TargetSizes(|OfGender(metaAll, true)|, k))
    requires SumInt(Lengths(rs)) == |OfGender(metaAll, true)|
    ensures Unplaced(metaAll, rs) == OfGender(metaAll, false)
    ensures Lengths(rs) == TargetSizes(|OfGender(metaAll, true)|, k)
    ensures Fits(Lengths(rs), TargetSizes(|metaAll|, k))
    ensures |OfGender(metaAll, false)| == |metaAll| - |OfGender(metaAll, true)|
    ensures NoWomen(OfGender(metaAll, false))
  {
    var f := |OfGender(metaAll, true)|;
    PlacedIffWoman(metaAll, rs);
    UnplacedAreMen(metaAll, rs);
    TargetSizesSum(f, k);
    FitsSumExact(Lengths(rs), TargetSizes(f, k));
    SplitByGender(metaAll);
    assert |multiset(OfGender(metaAll, true))| + |multiset(OfGender(metaAll, false))| == |multiset(metaAll)|;
    TargetSizesMonotone(f, |metaAll|, k);
  }

  /** Under unique ids, the two filters together hold every player once. */
  lemma EveryoneSeeded(metaAll: seq<Entry>, rs1: seq<seq<Player>>, rs: seq<seq<Player>>)
    requires Flatten(rs1) == multiset(PlayersOf(OfGender(metaAll, true)))
    requires Flatten(rs) == Flatten(rs1) + multiset(PlayersOf(OfGender(metaAll, false)))
    ensures Flatten(rs) == multiset(PlayersOf(metaAll))
  {
    SplitByGender(metaAll);
    PlayersOfSplit(OfGender(metaAll, true), OfGender(metaAll, false), metaAll);
  }

  /** With no woman to seed first, every size target is 0 women. */
  lemma NoWomenTargets(k: nat)
    requires k >= 1
    ensures TargetSizes(0, k) == seq(k, _ => 0)
  {
    TargetSizesSum(0, k);
    forall i | 0 <= i < k
      ensures TargetSizes(0, k)[i] == 0
    {
    }
  }

  /**
   * Women first, under unique ids: phase 2 seeds exactly the men, so the
   * sizes reach their targets, every player is in once and the women
   * counts stay at their targets.
   */
  lemma WomenFirstSeeded(metaAll: seq<Entry>, k: nat, targetSizes: seq<int>,
                         rs1: seq<seq<Player>>, ws1: seq<int>, rs: seq<seq<Player>>, ws: seq<int>)
    requires k >= 1 && targetSizes == TargetSizes(|metaAll|, k) && UniqueIds(PlayersOf(metaAll))
    requires Flatten(rs1) == multiset(PlayersOf(OfGender(metaAll, true)))
    requires Fits(Lengths(rs1), TargetSizes(|OfGender(metaAll, true)|, k))
    requires SumInt(Lengths(rs1)) == |OfGender(metaAll, true)| && ws1 == Lengths(rs1)
    requires Flatten(rs) == Flatten(rs1) + multiset(PlayersOf(Unplaced(metaAll, rs1)))
    requires NoWomen(Unplaced(metaAll, rs1)) ==> ws == ws1
    requires Fits(Lengths(rs1), targetSizes) && |Unplaced(metaAll, rs1)| <= SumInt(targetSizes) - SumInt(Lengths(rs1)) ==>
               Fits(Lengths(rs), targetSizes) && SumInt(Lengths(rs)) == SumInt(Lengths(rs1)) + |Unplaced(metaAll, rs1)|
    ensures Lengths(rs) == targetSizes && Flatten(rs) == multiset(PlayersOf(metaAll))
    ensures ws == TargetSizes(CountWomen(PlayersOf(metaAll)), k)
  {
    WomenSeeded(metaAll, k, rs1);
    EveryoneSeeded(metaAll, rs1, rs);
    TargetSizesSum(|metaAll|, k);
    WomenCounted(metaAll);
    FitsSumExact(Lengths(rs), targetSizes);
  }

  /** Before phase 2 without a women phase: no team holds anyone, so everyone is left to seed. */
  lemma EmptyStart(metaAll: seq<Entry>, k: nat, targetSizes: seq<int>, rs1: seq<seq<Player>>)
    requires k >= 1 && targetSizes == TargetSizes(|metaAll|, k) && rs1 == seq(k, _ => [])
    ensures Unplaced(metaAll, rs1) == metaAll && Flatten(rs1) == multiset{}
    ensures Fits(Lengths(rs1), targetSizes) && SumInt(Lengths(rs1)) == 0 && SumInt(targetSizes) == |metaAll|
  {
    NothingPlaced(metaAll, rs1);
    EmptyGroups(rs1);
    TargetSizesSum(|metaAll|, k);
  }

  /**
   * No women phase: phase 2 seeds everyone into the empty teams, so the
   * sizes reach their targets and every player is in once; when women-first
   * was asked there is no woman, so every women count is 0.
   */
  lemma AllTogetherSeeded(metaAll: seq<Entry>, k: nat, targetSizes: seq<int>, femaleFirst: bool,
                          rs1: seq<seq<Player>>, ws1: seq<int>, rs: seq<seq<Player>>, ws: seq<int>)
    requires k >= 1 && targetSizes == TargetSizes(|metaAll|, k)
    requires rs1 == seq(k, _ => []) && ws1 == seq(k, _ => 0)
    requires femaleFirst ==> |OfGender(metaAll, true)| == 0
    requires Flatten(rs) == Flatten(rs1) + multiset(PlayersOf(Unplaced(metaAll, rs1)))
    requires NoWomen(Unplaced(metaAll, rs1)) ==> ws == ws1
    requires Fits(Lengths(rs1), targetSizes) && |Unplaced(metaAll, rs1)| <= SumInt(targetSizes) - SumInt(Lengths(rs1)) ==>
               Fits(Lengths(rs), targetSizes) && SumInt(Lengths(rs)) == SumInt(Lengths(rs1)) + |Unplaced(metaAll, rs1)|
    ensures Lengths(rs) == targetSizes && Flatten(rs) == multiset(PlayersOf(metaAll))
    ensures femaleFirst ==> ws == TargetSizes(CountWomen(PlayersOf(metaAll)), k)
  {
    EmptyStart(metaAll, k, targetSizes, rs1);
    FitsSumExact(Lengths(rs), targetSizes);
    if femaleFirst {
      WomenCounted(metaAll);
      NoWomenLeft(metaAll);
      NoWomenTargets(k);
    }
  }

  /**
   * Phases 1 and 2 of `buildBalancedMixedTeams`: k empty teams; the women
   * first when asked and there are any; then everyone whose id is in no team.
   * With unique ids the teams then have exactly the target sizes and hold
   * every player once, and women-first gives every team its women target.
   */
  method SeedTeams(metaAll: seq<Entry>, k: nat, femaleFirst: bool, targetSizes: seq<int>, ghost allowed: set<Entry>)
      returns (teams: seq<Team>, ghost rs: seq<seq<Player>>, ghost ws: seq<int>)
    requires k >= 1 && targetSizes == TargetSizes(|metaAll|, k)
    requires forall e :: e in metaAll ==> e in allowed && |e.pv.vec| == NumCategories
    ensures |teams| == k && Distinct(teams) && forall t :: 0 <= t < k ==> fresh(teams[t])
    ensures AllValid(teams, allowed) && Holds(teams, rs, ws)
    ensures UniqueIds(PlayersOf(metaAll)) ==> Lengths(rs) == targetSizes && Flatten(rs) == multiset(PlayersOf(metaAll))
    ensures UniqueIds(PlayersOf(metaAll)) && femaleFirst ==> ws == TargetSizes(CountWomen(PlayersOf(metaAll)), k)
  {
    var females := OfGender(metaAll, true);
    var targetWomen := TargetWomen(femaleFirst, |females|, k);
    teams := EmptyTeams(k);
    EmptyAllValid(teams, allowed);
    ghost var rs1: seq<seq<Player>> := seq(k, _ => []);
    ghost var ws1 := seq(k, _ => 0);
    assert Holds(teams, rs1, ws1);
    if femaleFirst && |females| > 0 {
      TargetSizesMonotone(|females|, |metaAll|, k);
      TargetSizesSum(|females|, k);
      rs1, ws1 := SeedWomen(teams, females, targetWomen, targetSizes, allowed);
    }
    rs, ws := SeedRest(teams, metaAll, targetSizes, allowed, rs1, ws1);
    if femaleFirst && |females| > 0 {
      if UniqueIds(PlayersOf(metaAll)) {
        WomenFirstSeeded(metaAll, k, targetSizes, rs1, ws1, rs, ws);
      }
    } else {
      AllTogetherSeeded(metaAll, k, targetSizes, femaleFirst, rs1, ws1, rs, ws);
    }
  }

  /** Every team's members are known to the id map built from the entries. */
  lemma SaneAfterSeeding(teams: seq<Team>, metaAll: seq<Entry>)
    requires AllValid(teams, set e | e in metaAll)
    ensures Sane(teams, VectorsById(metaAll))
  {
    var allowed := set e | e in metaAll;
    forall t | 0 <= t < |teams|
      ensures teams[t].Shaped() && KnownIds(teams[t], VectorsById(metaAll))
    {
      assert teams[t].Valid() && Recorded(teams[t], allowed);
      forall i | 0 <= i < |teams[t].members|
        ensures teams[t].members[i].id in VectorsById(metaAll)
      {
        assert Entry(teams[t].members[i], teams[t].vecs[i]) in allowed;
      }
    }
  }

  /** The id map holds only vectors of the entries, so each has six categories. */
  lemma VectorsShaped(metaAll: seq<Entry>)
    requires forall e :: e in metaAll ==> |e.pv.vec| == NumCategories
    ensures VecsShaped(VectorsById(metaAll))
  {
    VectorsFrom(metaAll);
  }

  /**
   * Every team's aggregates are the exact sums of its members' strength
   * vectors, each the one `playerVectorStrength` gives under these weights.
   */
  ghost predicate Exact(teams: seq<Team>, weights: Weights, moodWeight: real)
    reads teams
  {
    forall t {:trigger teams[t].Valid()} :: 0 <= t < |teams| ==>
      teams[t].Valid() && ExactMembers(teams[t], weights, moodWeight)
  }

  /** Every member's recorded vector is the one `playerVectorStrength` gives. */
  ghost predicate ExactMembers(t: Team, weights: Weights, moodWeight: real)
    reads t
  {
    |t.vecs| == |t.members| &&
    forall i :: 0 <= i < |t.members| ==> PlayerVectorStrength(t.members[i], weights, moodWeight) == Ok(t.vecs[i])
  }

  lemma ExactTeam(t: Team, players: seq<Player>, weights: Weights, moodWeight: real)
    requires StrengthAll(players, weights, moodWeight).Ok?
    requires t.Valid() && Recorded(t, set e | e in StrengthAll(players, weights, moodWeight).value)
    ensures ExactMembers(t, weights, moodWeight)
  {
    var metaAll := StrengthAll(players, weights, moodWeight).value;
    forall i | 0 <= i < |t.members|
      ensures PlayerVectorStrength(t.members[i], weights, moodWeight) == Ok(t.vecs[i])
    {
      var e := Entry(t.members[i], t.vecs[i]);
      assert e in metaAll;
      var j :| 0 <= j < |metaAll| && metaAll[j] == e;
      assert ValidRatings(players[j]);
    }
  }

  /** Teams exact over the computed entries are exact with respect to the players' strengths. */
  lemma ExactOfEntries(teams: seq<Team>, players: seq<Player>, weights: Weights, moodWeight: real)
    requires StrengthAll(players, weights, moodWeight).Ok?
    requires AllValid(teams, set e | e in StrengthAll(players, weights, moodWeight).value)
    ensures Exact(teams, weights, moodWeight)
  {
    forall t | 0 <= t < |teams|
      ensures teams[t].Valid() && ExactMembers(teams[t], weights, moodWeight)
    {
      ExactTeam(teams[t], players, weights, moodWeight);
    }
  }

  /** The entries are the players, in order. */
  lemma StrengthPlayers(players: seq<Player>, weights: Weights, moodWeight: real)
    requires StrengthAll(players, weights, moodWeight).Ok?
    ensures PlayersOf(StrengthAll(players, weights, moodWeight).value) == players
  {
  }

  /**
   * Phase 3 of `buildBalancedMixedTeams`: the id map of the entries, then
   * the swap refinement. The rosters keep their sizes and players, the
   * women counts do not move, the cost of the teams does not rise above
   * the cost of the seeded teams, and under unique ids every team stays exact.
   */
  method RefinePhase(teams: seq<Team>, metaAll: seq<Entry>, swapIterations: int, rng: nat -> Unit, bl: Blend,
                     ghost rs0: seq<seq<Player>>, ghost ws: seq<int>)
      returns (ghost rs: seq<seq<Player>>, ghost seeded: seq<TeamView>)
    requires |teams| >= 2 && Distinct(teams)
    requires forall e :: e in metaAll ==> |e.pv.vec| == NumCategories
    requires AllValid(teams, set e | e in metaAll) && Holds(teams, rs0, ws)
    modifies teams
    ensures Holds(teams, rs, ws) && Lengths(rs) == Lengths(rs0) && Flatten(rs) == Flatten(rs0)
    ensures UniqueIds(PlayersOf(metaAll)) ==> AllValid(teams, set e | e in metaAll)
    ensures seeded == old(Views(teams)) && WellFormed(seeded) && WellFormed(Views(teams))
    ensures CostOf(Views(teams), bl) <= CostOf(seeded, bl)
  {
    seeded := Views(teams);
    ghost var allowed := set e | e in metaAll;
    var pvById := VectorsById(metaAll);
    ghost var sound := UniqueIds(PlayersOf(metaAll));
    SaneAfterSeeding(teams, metaAll);
    VectorsShaped(metaAll);
    if sound {
      VectorsOfUnique(metaAll);
    }
    HoldsKept(teams, pvById, allowed, sound, rs0, ws);
    var bestCost, rs', vs := RefineBySwaps(teams, swapIterations, rng, pvById, bl, allowed, sound, rs0, ws, Views(teams));
    KeptHolds(teams, pvById, allowed, sound, rs', ws, vs);
    rs := rs';
  }

  /** The options of `buildBalancedMixedTeams`; None is a field left undefined. */
  datatype BuildOptions = BuildOptions(
    numTeams: Option<int>,
    weights: Option<Weights>,
    lambdaCat: Option<real>,
    lambdaMood: Option<real>,
    moodWeight: Option<real>,
    swapIterations: Option<int>,
    femaleFirst: Option<bool>,
    attackPriorityFactor: Option<real>)

  /** The options once every undefined field takes its default. */
  datatype Settings = Settings(
    k: int,
    weights: Weights,
    lambdaCat: real,
    lambdaMood: real,
    moodWeight: real,
    swapIterations: int,
    femaleFirst: bool,
    attackPriorityFactor: real)

  function Max(a: int, b: int): (m: int)
    ensures m >= a && m >= b && (m == a || m == b)
  {
    if a >= b then a else b
  }

  /** The team count is at least 2; the numbers in force default as the destructuring does. */
  function Resolve(opts: BuildOptions): (s: Settings)
    ensures s.k >= 2 && (opts.numTeams.Some? ==> s.k == Max(2, opts.numTeams.value))
    ensures opts.weights.None? ==> s.weights == DefaultWeights
    ensures opts.lambdaCat.None? ==> s.lambdaCat == 0.5
    ensures opts.lambdaMood.None? ==> s.lambdaMood == 0.3
    ensures opts.moodWeight.None? ==> s.moodWeight == 0.15
    ensures opts.swapIterations.None? ==> s.swapIterations == 5000
    ensures opts.femaleFirst.None? ==> s.femaleFirst
    ensures opts.attackPriorityFactor.None? ==> s.attackPriorityFactor == 2.0
    ensures opts.weights.Some? ==> s.weights == opts.weights.value
    ensures opts.lambdaCat.Some? ==> s.lambdaCat == opts.lambdaCat.value
    ensures opts.lambdaMood.Some? ==> s.lambdaMood == opts.lambdaMood.value
    ensures opts.moodWeight.Some? ==> s.moodWeight == opts.moodWeight.value
    ensures opts.swapIterations.Some? ==> s.swapIterations == opts.swapIterations.value
    ensures opts.femaleFirst.Some? ==> s.femaleFirst == opts.femaleFirst.value
    ensures opts.attackPriorityFactor.Some? ==> s.attackPriorityFactor == opts.attackPriorityFactor.value
  {
    Settings(
      Max(2, opts.numTeams.GetOr(0)),
      opts.weights.GetOr(DefaultWeights),
      opts.lambdaCat.GetOr(0.5),
      opts.lambdaMood.GetOr(0.3),
      opts.moodWeight.GetOr(0.15),
      opts.swapIterations.GetOr(5000),
      opts.femaleFirst.GetOr(true),
      opts.attackPriorityFactor.GetOr(2.0))
  }

  /** `!numTeams`: the count is undefined or 0. */
  predicate MissingTeams(opts: BuildOptions)
    ensures MissingTeams(opts) <==> opts.numTeams in {None, Some(0)}
  {
    opts.numTeams.None? || opts.numTeams.value == 0
  }

  /**
   * `buildBalancedMixedTeams`. A missing team count, then the first player
   * with an out-of-range rating, are errors; otherwise k teams come back,
   * and with unique ids they hold every player once, have the target
   * sizes, are exact, and with women first hold the women targets.
   */
  method BuildBalancedMixedTeams(players: seq<Player>, opts: BuildOptions, rng: nat -> Unit)
      returns (r: Result<seq<Team>, BuildError>)
    ensures MissingTeams(opts) ==> r == Err(MissingNumTeams)
    ensures !MissingTeams(opts) ==>
              (r.Ok? <==> forall i :: 0 <= i < |players| ==> ValidRatings(players[i]))
    ensures !MissingTeams(opts) && r.Err? ==>
              r.error == StrengthAll(players, Resolve(opts).weights, Resolve(opts).moodWeight).error
    ensures r.Ok? ==>
              |r.value| == Resolve(opts).k && Distinct(r.value) && forall t :: 0 <= t < |r.value| ==> fresh(r.value[t])
    ensures r.Ok? && UniqueIds(players) ==>
              Sizes(r.value) == TargetSizes(|players|, Resolve(opts).k) &&
              Flatten(Rosters(r.value)) == multiset(players) &&
              Exact(r.value, Resolve(opts).weights, Resolve(opts).moodWeight)
    ensures r.Ok? && UniqueIds(players) && Resolve(opts).femaleFirst ==>
              WomenCounts(r.value) == TargetSizes(CountWomen(players), Resolve(opts).k)
  {
    if opts.numTeams.None? || opts.numTeams.value == 0 {
      return Err(MissingNumTeams);
    }
    var s := Resolve(opts);
    var targetSizes := TargetSizes(|players|, s.k);
    var strengths := StrengthAll(players, s.weights, s.moodWeight);
    if strengths.Err? {
      return Err(strengths.error);
    }
    var metaAll := strengths.value;
    StrengthShaped(players, s.weights, s.moodWeight);
    StrengthPlayers(players, s.weights, s.moodWeight);
    var teams, rs, ws := SeedTeams(metaAll, s.k, s.femaleFirst, targetSizes, set e | e in metaAll);
    var bl := Blend(s.lambdaCat, s.weights, s.lambdaMood, s.attackPriorityFactor);
    ghost var rs', _ := RefinePhase(teams, metaAll, s.swapIterations, rng, bl, rs, ws);
    HoldsRosters(teams, rs', ws);
    if UniqueIds(players) {
      ExactOfEntries(teams, players, s.weights, s.moodWeight);
    }
    return Ok(teams);
  }

  /**
   * `buildTeamsFromPlayers`'s options: every field defined, its default
   * where it was undefined, and 2 teams where the count was undefined or 0.
   * Normalizing changes none of the settings in force.
   */
  function Normalize(opts: BuildOptions): (n: BuildOptions)
    ensures !MissingTeams(n)
    ensures n.weights.Some? && n.lambdaCat.Some? && n.lambdaMood.Some? && n.moodWeight.Some? &&
            n.swapIterations.Some? && n.femaleFirst.Some? && n.attackPriorityFactor.Some?
    ensures Resolve(n) == Resolve(opts)
  {
    var s := Resolve(opts);
    BuildOptions(
      if MissingTeams(opts) then Some(2) else opts.numTeams,
      Some(s.weights), Some(s.lambdaCat), Some(s.lambdaMood), Some(s.moodWeight),
      Some(s.swapIterations), Some(s.femaleFirst), Some(s.attackPriorityFactor))
  }

  /**
   * `buildTeamsFromPlayers`: the build with normalized options, so the only
   * error left is an out-of-range rating.
   */
  method BuildTeamsFromPlayers(players: seq<Player>, opts: BuildOptions, rng: nat -> Unit)
      returns (r: Result<seq<Team>, BuildError>)
    ensures r.Ok? <==> forall i :: 0 <= i < |players| ==> ValidRatings(players[i])
    ensures r.Err? ==> r.error == StrengthAll(players, Resolve(opts).weights, Resolve(opts).moodWeight).error
    ensures r.Ok? ==>
              |r.value| == Resolve(opts).k && Distinct(r.value) && forall t :: 0 <= t < |r.value| ==> fresh(r.value[t])
    ensures r.Ok? && UniqueIds(players) ==>
              Sizes(r.value) == TargetSizes(|players|, Resolve(opts).k) &&
              Flatten(Rosters(r.value)) == multiset(players) &&
              Exact(r.value, Resolve(opts).weights, Resolve(opts).moodWeight)
    ensures r.Ok? && UniqueIds(players) && Resolve(opts).femaleFirst ==>
              WomenCounts(r.value) == TargetSizes(CountWomen(players), Resolve(opts).k)
  {
    r := BuildBalancedMixedTeams(players, Normalize(opts), rng);
  }
}
