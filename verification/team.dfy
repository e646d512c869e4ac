/**
 * A team under construction and its running aggregates
 * (scripts/voley_teams.ts, `Team`, `emptyTeam`, `addToTeam`, `removeFromTeam`).
 */
module Teams {
  import opened Sums
  import opened Strength

  /** Which running aggregate of a team a player's vector feeds. */
  datatype Field = Total | Base | Mood | Cat(c: nat)

  function Get(v: PlayerVec, f: Field): real
  {
    match f
    case Total => v.total
    case Base => v.baseTotal
    case Mood => v.moodNorm
    case Cat(c) => if c < |v.vec| then v.vec[c] else 0.0
  }

  /** The chosen field of every vector, in order. */
  function Project(vs: seq<PlayerVec>, f: Field): (xs: seq<real>)
    ensures |xs| == |vs| && forall i :: 0 <= i < |vs| ==> xs[i] == Get(vs[i], f)
  {
    seq(|vs|, i requires 0 <= i < |vs| => Get(vs[i], f))
  }

  /** The gender of every player, in order. */
  function Genders(ps: seq<Player>): (gs: seq<Gender>)
    ensures |gs| == |ps| && forall i :: 0 <= i < |ps| ==> gs[i] == ps[i].gender
  {
    seq(|ps|, i requires 0 <= i < |ps| => ps[i].gender)
  }

  /** The number of women among ps. */
  function CountWomen(ps: seq<Player>): nat
  {
    multiset(Genders(ps))[F]
  }

  lemma CountWomenAppend(ps: seq<Player>, qs: seq<Player>)
    ensures CountWomen(ps + qs) == CountWomen(ps) + CountWomen(qs)
  {
    assert Genders(ps + qs) == Genders(ps) + Genders(qs);
  }

  lemma CountWomenOfNone()
    ensures CountWomen([]) == 0
  {
    assert Genders([]) == [];
  }

  lemma CountWomenOne(p: Player)
    ensures CountWomen([p]) == if p.gender == F then 1 else 0
  {
    assert Genders([p]) == [p.gender];
  }

  /** Removing member i takes off one woman exactly when that member is a woman. */
  lemma CountWomenRemove(ps: seq<Player>, i: nat)
    requires i < |ps|
    ensures CountWomen(ps[..i] + ps[i + 1..]) + (if ps[i].gender == F then 1 else 0) == CountWomen(ps)
  {
    var a, x, b := ps[..i], [ps[i]], ps[i + 1..];
    assert ps == a + (x + b);
    CountWomenAppend(a, x + b);
    CountWomenAppend(x, b);
    CountWomenAppend(a, b);
    CountWomenOne(ps[i]);
  }

  /** Project commutes with removing one element. */
  lemma ProjectRemove(vs: seq<PlayerVec>, i: nat, f: Field)
    requires i < |vs|
    ensures Project(vs[..i] + vs[i + 1..], f) == Project(vs, f)[..i] + Project(vs, f)[i + 1..]
  {
  }

  /** The cost function reads a team only through this snapshot. */
  datatype TeamView = TeamView(size: nat, total: real, catSums: seq<real>, moodSum: real)

  class Team {
    var members: seq<Player>
    var total: real
    var baseTotal: real
    var catSums: seq<real>
    var women: int
    var moodSum: real
    /** the strength vector each member was added with, in member order */
    ghost var vecs: seq<PlayerVec>

    /** The shape every operation relies on. */
    ghost predicate Shaped()
      reads this
    {
      |catSums| == NumCategories && |vecs| == |members| &&
      forall i :: 0 <= i < |vecs| ==> |vecs[i].vec| == NumCategories
    }

    /** Every aggregate is the exact sum over the members' vectors. */
    ghost predicate Valid()
      reads this
    {
      Shaped() && SumsMatch(total, baseTotal, catSums, moodSum, vecs) && women == CountWomen(members)
    }

    function View(): TeamView
      reads this
    {
      TeamView(|members|, total, catSums, moodSum)
    }

    /** `emptyTeam(6)`: no members and every aggregate zero. */
    constructor ()
      ensures Valid()
      ensures members == [] && vecs == []
      ensures total == 0.0 && baseTotal == 0.0 && moodSum == 0.0 && women == 0
      ensures catSums == [0.0, 0.0, 0.0, 0.0, 0.0, 0.0]
    {
      members := [];
      total := 0.0;
      baseTotal := 0.0;
      catSums := [0.0, 0.0, 0.0, 0.0, 0.0, 0.0];
      women := 0;
      moodSum := 0.0;
      vecs := [];
    }

    /** `addToTeam`: appends the player and adds its vector to every aggregate. */
    method Add(player: Player, pv: PlayerVec)
      requires Shaped() && |pv.vec| == NumCategories
      modifies this
      ensures Shaped()
      ensures members == old(members) + [player] && vecs == old(vecs) + [pv]
      ensures total == old(total) + pv.total
      ensures baseTotal == old(baseTotal) + pv.baseTotal
      ensures forall c :: 0 <= c < NumCategories ==> catSums[c] == old(catSums[c]) + pv.vec[c]
      ensures women == old(women) + (if player.gender == F then 1 else 0)
      ensures moodSum == old(moodSum) + pv.moodNorm
      ensures old(Valid()) ==> Valid()
    {
      var sums := AddEach(catSums, pv.vec);
      AddKeepsValid(total, baseTotal, catSums, moodSum, vecs, members, women, player, pv, sums);
      members, vecs := members + [player], vecs + [pv];
      total, baseTotal, catSums := total + pv.total, baseTotal + pv.baseTotal, sums;
      women := women + (if player.gender == F then 1 else 0);
      moodSum := moodSum + pv.moodNorm;
    }

    /**
     * `removeFromTeam`: removes member idx and subtracts the given vector from
     * every aggregate; the aggregates stay exact when that vector is the one
     * the member was added with.
     */
    method RemoveAt(idx: nat, pv: PlayerVec) returns (p: Player)
      requires Shaped() && idx < |members| && |pv.vec| == NumCategories
      modifies this
      ensures Shaped()
      ensures p == old(members[idx])
      ensures members == old(members[..idx] + members[idx + 1..])
      ensures vecs == old(vecs[..idx] + vecs[idx + 1..])
      ensures total == old(total) - pv.total
      ensures baseTotal == old(baseTotal) - pv.baseTotal
      ensures forall c :: 0 <= c < NumCategories ==> catSums[c] == old(catSums[c]) - pv.vec[c]
      ensures women == old(women) - (if p.gender == F then 1 else 0)
      ensures moodSum == old(moodSum) - pv.moodNorm
      ensures old(Valid()) && pv == old(vecs[idx]) ==> Valid()
    {
      p := members[idx];
      var sums := SubtractEach(catSums, pv.vec);
      RemoveKeepsValid(total, baseTotal, catSums, moodSum, vecs, members, women, idx, pv, sums);
      members, vecs := members[..idx] + members[idx + 1..], vecs[..idx] + vecs[idx + 1..];
      total, baseTotal, catSums := total - pv.total, baseTotal - pv.baseTotal, sums;
      women := women - (if p.gender == F then 1 else 0);
      moodSum := moodSum - pv.moodNorm;
    }
  }

  /**
   * `removeFromTeam` undoes `addToTeam`: adding a player and then removing
   * the last member with the same vector gives the player back and leaves
   * every field of the team as it was.
   */
  method AddThenRemove(t: Team, player: Player, pv: PlayerVec) returns (p: Player)
    requires t.Shaped() && |pv.vec| == NumCategories
    modifies t
    ensures p == player
    ensures t.members == old(t.members) && t.vecs == old(t.vecs) && t.women == old(t.women)
    ensures t.total == old(t.total) && t.baseTotal == old(t.baseTotal) && t.moodSum == old(t.moodSum)
    ensures t.catSums == old(t.catSums)
    ensures old(t.Valid()) ==> t.Valid()
  {
    t.Add(player, pv);
    p := t.RemoveAt(|t.members| - 1, pv);
    assert t.catSums == old(t.catSums);
  }

  /** The category loop of `addToTeam`: sums[c] += v[c] for every category. */
  method AddEach(sums: seq<real>, v: seq<real>) returns (r: seq<real>)
    requires |v| >= |sums|
    ensures |r| == |sums| && forall c :: 0 <= c < |sums| ==> r[c] == sums[c] + v[c]
  {
    r := sums;
    for i := 0 to |r|
      invariant |r| == |sums|
      invariant forall c :: 0 <= c < i ==> r[c] == sums[c] + v[c]
      invariant forall c :: i <= c < |sums| ==> r[c] == sums[c]
    {
      r := r[i := r[i] + v[i]];
    }
  }

  /** The category loop of `removeFromTeam`: sums[c] -= v[c] for every category. */
  method SubtractEach(sums: seq<real>, v: seq<real>) returns (r: seq<real>)
    requires |v| >= |sums|
    ensures |r| == |sums| && forall c :: 0 <= c < |sums| ==> r[c] == sums[c] - v[c]
  {
    r := sums;
    for i := 0 to |r|
      invariant |r| == |sums|
      invariant forall c :: 0 <= c < i ==> r[c] == sums[c] - v[c]
      invariant forall c :: i <= c < |sums| ==> r[c] == sums[c]
    {
      r := r[i := r[i] - v[i]];
    }
  }

  /** Exact aggregates and women count stay exact when a member joins with its vector. */
  lemma AddKeepsValid(total: real, baseTotal: real, catSums: seq<real>, moodSum: real, vs: seq<PlayerVec>,
                      ps: seq<Player>, women: int, player: Player, pv: PlayerVec, catSums': seq<real>)
    requires |pv.vec| == NumCategories && |catSums'| == |catSums| == NumCategories
    requires forall c :: 0 <= c < |catSums| ==> catSums'[c] == catSums[c] + pv.vec[c]
    ensures SumsMatch(total, baseTotal, catSums, moodSum, vs) ==>
              SumsMatch(total + pv.total, baseTotal + pv.baseTotal, catSums', moodSum + pv.moodNorm, vs + [pv])
    ensures CountWomen(ps + [player]) == CountWomen(ps) + (if player.gender == F then 1 else 0)
  {
    if SumsMatch(total, baseTotal, catSums, moodSum, vs) {
      AddKeepsSums(total, baseTotal, catSums, moodSum, vs, pv, catSums');
    }
    CountWomenAppend(ps, [player]);
    CountWomenOne(player);
  }

  /** Exact aggregates and women count stay exact when member idx leaves with its own vector. */
  lemma RemoveKeepsValid(total: real, baseTotal: real, catSums: seq<real>, moodSum: real, vs: seq<PlayerVec>,
                         ps: seq<Player>, women: int, idx: nat, pv: PlayerVec, catSums': seq<real>)
    requires idx < |ps| && idx < |vs| && |pv.vec| == NumCategories && |catSums'| == |catSums| == NumCategories
    requires forall c :: 0 <= c < |catSums| ==> catSums'[c] == catSums[c] - pv.vec[c]
    ensures SumsMatch(total, baseTotal, catSums, moodSum, vs) && pv == vs[idx] ==>
              SumsMatch(total - pv.total, baseTotal - pv.baseTotal, catSums', moodSum - pv.moodNorm, vs[..idx] + vs[idx + 1..])
    ensures CountWomen(ps[..idx] + ps[idx + 1..]) + (if ps[idx].gender == F then 1 else 0) == CountWomen(ps)
  {
    if SumsMatch(total, baseTotal, catSums, moodSum, vs) && pv == vs[idx] {
      RemoveKeepsSums(total, baseTotal, catSums, moodSum, vs, idx, catSums');
    }
    CountWomenRemove(ps, idx);
  }

  /** Each aggregate is the sum of the matching field over the vectors. */
  ghost predicate SumsMatch(total: real, baseTotal: real, catSums: seq<real>, moodSum: real, vs: seq<PlayerVec>)
  {
    |catSums| == NumCategories &&
    total == Sum(Project(vs, Total)) &&
    baseTotal == Sum(Project(vs, Base)) &&
    moodSum == Sum(Project(vs, Mood)) &&
    forall c :: 0 <= c < NumCategories ==> catSums[c] == Sum(Project(vs, Cat(c)))
  }

  lemma ProjectAppend(vs: seq<PlayerVec>, pv: PlayerVec, f: Field)
    ensures Sum(Project(vs + [pv], f)) == Sum(Project(vs, f)) + Get(pv, f)
  {
    assert Project(vs + [pv], f)[..|vs|] == Project(vs, f);
  }

  /** Adding a vector's fields to exact aggregates keeps them exact. */
  lemma AddKeepsSums(total: real, baseTotal: real, catSums: seq<real>, moodSum: real, vs: seq<PlayerVec>,
                     pv: PlayerVec, catSums': seq<real>)
    requires SumsMatch(total, baseTotal, catSums, moodSum, vs)
    requires |pv.vec| == NumCategories && |catSums'| == NumCategories
    requires forall c :: 0 <= c < NumCategories ==> catSums'[c] == catSums[c] + pv.vec[c]
    ensures SumsMatch(total + pv.total, baseTotal + pv.baseTotal, catSums', moodSum + pv.moodNorm, vs + [pv])
  {
    ProjectAppend(vs, pv, Total);
    ProjectAppend(vs, pv, Base);
    ProjectAppend(vs, pv, Mood);
    forall c | 0 <= c < NumCategories
      ensures catSums'[c] == Sum(Project(vs + [pv], Cat(c)))
    {
      ProjectAppend(vs, pv, Cat(c));
    }
  }

  lemma ProjectRemoveSum(vs: seq<PlayerVec>, idx: nat, f: Field)
    requires idx < |vs|
    ensures Sum(Project(vs[..idx] + vs[idx + 1..], f)) + Get(vs[idx], f) == Sum(Project(vs, f))
  {
    ProjectRemove(vs, idx, f);
    SumRemove(Project(vs, f), idx);
  }

  /** Subtracting a member's own vector from exact aggregates keeps them exact. */
  lemma RemoveKeepsSums(total: real, baseTotal: real, catSums: seq<real>, moodSum: real, vs: seq<PlayerVec>,
                        idx: nat, catSums': seq<real>)
    requires SumsMatch(total, baseTotal, catSums, moodSum, vs)
    requires idx < |vs| && |vs[idx].vec| == NumCategories && |catSums'| == NumCategories
    requires forall c :: 0 <= c < NumCategories ==> catSums'[c] == catSums[c] - vs[idx].vec[c]
    ensures SumsMatch(total - vs[idx].total, baseTotal - vs[idx].baseTotal, catSums',
                      moodSum - vs[idx].moodNorm, vs[..idx] + vs[idx + 1..])
  {
    ProjectRemoveSum(vs, idx, Total);
    ProjectRemoveSum(vs, idx, Base);
    ProjectRemoveSum(vs, idx, Mood);
    forall c | 0 <= c < NumCategories
      ensures catSums'[c] == Sum(Project(vs[..idx] + vs[idx + 1..], Cat(c)))
    {
      ProjectRemoveSum(vs, idx, Cat(c));
    }
  }
}
