/**
 * Players, ratings and the per-player strength vector of the team optimizer
 * (scripts/voley_teams.ts, types and `playerVectorStrength`).
 */
module Strength {
  import opened Wrappers
  import opened Sums

  /** service, reception, passing, smash, defence, bloc */
  const NumCategories: nat := 6
  /** index of smash (attack) among the categories */
  const SmashIndex: nat := 3
  /** mood used when a player has none: the midpoint of 1..10 */
  const NeutralMood: real := 5.5

  datatype Gender = M | F

  datatype Categories = Categories(service: int, reception: int, passing: int, smash: int, defence: int, bloc: int)

  datatype Player = Player(id: string, name: string, gender: Gender, mood: Option<real>, categories: Categories)

  /** One weight per category, in the order of `Raw`. */
  type Weights = w: seq<real> | |w| == NumCategories witness [2.0, 3.0, 3.0, 6.0, 2.0, 3.0]

  const DefaultWeights: Weights := [2.0, 3.0, 3.0, 6.0, 2.0, 3.0]

  /** The derived strength of one player. */
  datatype PlayerVec = PlayerVec(total: real, vec: seq<real>, baseTotal: real, moodNorm: real, smashRaw: int)

  /** The errors a build can throw. */
  datatype BuildError =
    | MissingNumTeams
    | CategoryOutOfRange(player: string, index: nat)
    | PlayerMoodOutOfRange(player: string)
    | MoodOutOfRange

  /** `assertRange` passes exactly when lo <= v <= hi. */
  predicate InRange(v: real, lo: real, hi: real)
    ensures InRange(v, lo, hi) <==> lo <= v <= hi
  {
    !(v < lo || v > hi)
  }

  /** The six ratings in category order. */
  function Raw(c: Categories): (r: seq<int>)
    ensures |r| == NumCategories && r[SmashIndex] == c.smash
  {
    [c.service, c.reception, c.passing, c.smash, c.defence, c.bloc]
  }

  /** Maps a mood of 1..10 linearly onto -1..+1; throws outside 1..10. */
  function MoodNorm(mood: real): (r: Result<real, BuildError>)
    ensures r.Ok? <==> 1.0 <= mood <= 10.0
    ensures r.Err? ==> r.error == MoodOutOfRange
    ensures r.Ok? ==> -1.0 <= r.value <= 1.0
    ensures mood == 1.0 ==> r == Ok(-1.0)
    ensures mood == 10.0 ==> r == Ok(1.0)
    ensures mood == NeutralMood ==> r == Ok(0.0)
  {
    if !InRange(mood, 1.0, 10.0) then Err(MoodOutOfRange) else Ok((mood - NeutralMood) / 4.5)
  }

  /** The index of the first rating outside 1..10, scanning from `from`. */
  function FirstOutOfRange(raw: seq<int>, from: nat): (r: Option<nat>)
    requires from <= |raw|
    ensures r.None? <==> forall i :: from <= i < |raw| ==> InRange(raw[i] as real, 1.0, 10.0)
    ensures r.Some? ==> from <= r.value < |raw| && !InRange(raw[r.value] as real, 1.0, 10.0)
    ensures r.Some? ==> forall i :: from <= i < r.value ==> InRange(raw[i] as real, 1.0, 10.0)
    decreases |raw| - from
  {
    if from == |raw| then None
    else if !InRange(raw[from] as real, 1.0, 10.0) then Some(from)
    else FirstOutOfRange(raw, from + 1)
  }

  /** Every rating and a present mood lie in 1..10. */
  predicate ValidRatings(p: Player)
  {
    (forall i :: 0 <= i < NumCategories ==> InRange(Raw(p.categories)[i] as real, 1.0, 10.0)) &&
    (p.mood.Some? ==> InRange(p.mood.value, 1.0, 10.0))
  }

  function Weighted(raw: seq<int>, weights: Weights): (v: seq<real>)
    requires |raw| == NumCategories
    ensures |v| == NumCategories
    ensures forall i :: 0 <= i < NumCategories ==> v[i] == raw[i] as real * weights[i]
  {
    seq(NumCategories, i requires 0 <= i < NumCategories => raw[i] as real * weights[i])
  }

  /**
   * The strength vector of one player: weighted categories, their sum, and a
   * total scaled by the mood. Categories are checked in order before the mood.
   */
  function PlayerVectorStrength(p: Player, weights: Weights, moodWeight: real): (r: Result<PlayerVec, BuildError>)
    ensures r.Ok? <==> ValidRatings(p)
    ensures r.Err? && r.error.CategoryOutOfRange? ==>
      r.error.player == p.name && r.error.index < NumCategories &&
      !InRange(Raw(p.categories)[r.error.index] as real, 1.0, 10.0) &&
      forall i :: 0 <= i < r.error.index ==> InRange(Raw(p.categories)[i] as real, 1.0, 10.0)
    ensures r.Err? ==> r.error.CategoryOutOfRange? || r.error == PlayerMoodOutOfRange(p.name)
    ensures r.Ok? ==>
      var v := r.value;
      |v.vec| == NumCategories &&
      (forall i :: 0 <= i < NumCategories ==> v.vec[i] == Raw(p.categories)[i] as real * weights[i]) &&
      v.baseTotal == Sum(v.vec) &&
      -1.0 <= v.moodNorm <= 1.0 &&
      v.total == v.baseTotal * (1.0 + moodWeight * v.moodNorm) &&
      v.smashRaw == p.categories.smash &&
      (p.mood.None? ==> v.moodNorm == 0.0 && v.total == v.baseTotal)
    ensures r.Ok? && p.mood.Some? ==> r.value.moodNorm == (p.mood.value - NeutralMood) / 4.5
    ensures (exists i :: 0 <= i < NumCategories && !InRange(Raw(p.categories)[i] as real, 1.0, 10.0)) ==>
              r.Err? && r.error.CategoryOutOfRange?
  {
    var raw := Raw(p.categories);
    match FirstOutOfRange(raw, 0)
    case Some(i) => Err(CategoryOutOfRange(p.name, i))
    case None =>
      if p.mood.Some? && !InRange(p.mood.value, 1.0, 10.0) then Err(PlayerMoodOutOfRange(p.name))
      else
        var vec := Weighted(raw, weights);
        var baseTotal := Sum(vec);
        var m := p.mood.GetOr(NeutralMood);
        var mn := MoodNorm(m).value;
        Ok(PlayerVec(baseTotal * (1.0 + moodWeight * mn), vec, baseTotal, mn, p.categories.smash))
  }

  /**
   * Two players who differ only in mood, 10 against 1: the total of the first
   * exceeds the second's by exactly 2 * moodWeight * baseTotal.
   */
  lemma MoodGap(p: Player, weights: Weights, moodWeight: real)
    requires PlayerVectorStrength(p, weights, moodWeight).Ok?
    ensures
      var best := PlayerVectorStrength(p.(mood := Some(10.0)), weights, moodWeight);
      var worst := PlayerVectorStrength(p.(mood := Some(1.0)), weights, moodWeight);
      best.Ok? && worst.Ok? && best.value.baseTotal == worst.value.baseTotal &&
      best.value.total - worst.value.total == 2.0 * moodWeight * best.value.baseTotal
  {
    var best := PlayerVectorStrength(p.(mood := Some(10.0)), weights, moodWeight);
    var worst := PlayerVectorStrength(p.(mood := Some(1.0)), weights, moodWeight);
    assert best.value.vec == worst.value.vec;
  }
}
