/**
 * The swap refinement of `buildBalancedMixedTeams` (scripts/voley_teams.ts):
 * random same-gender exchanges between two teams, kept when the cost does
 * not rise and undone otherwise. `Math.random` is a stream of draws passed in.
 */
module Refine {
  import opened Sums
  import opened Strength
  import opened Teams
  import opened Cost
  import opened Groups
  import opened Seeding

  /** A value of `Math.random()`: in [0, 1). */
  type Unit = r: real | 0.0 <= r < 1.0

  lemma BelowOne(u: real, n: real)
    requires 0.0 <= u < 1.0 && n > 0.0
    ensures 0.0 <= u * n < n
  {
    assert n - u * n == (1.0 - u) * n;
  }

  /** `Math.floor(u * n)`: a uniform index below n. */
  function Draw(u: Unit, n: nat): (i: int)
    requires n >= 1
    ensures 0 <= i < n
  {
    var x := u * n as real;
    BelowOne(u, n as real);
    x.Floor
  }

  /** The indices of the members of gender g, in increasing order. */
  function GenderIndices(ms: seq<Player>, g: Gender): seq<int>
  {
    if ms == [] then []
    else GenderIndices(ms[..|ms| - 1], g) + (if ms[|ms| - 1].gender == g then [|ms| - 1] else [])
  }

  /** GenderIndices lists exactly the positions of gender g, each once, in increasing order. */
  lemma {:induction false} GenderIndicesSpec(ms: seq<Player>, g: Gender)
    ensures forall k :: 0 <= k < |GenderIndices(ms, g)| ==>
              0 <= GenderIndices(ms, g)[k] < |ms| && ms[GenderIndices(ms, g)[k]].gender == g
    ensures forall i :: 0 <= i < |ms| && ms[i].gender == g ==> i in GenderIndices(ms, g)
    ensures forall k, l :: 0 <= k < l < |GenderIndices(ms, g)| ==> GenderIndices(ms, g)[k] < GenderIndices(ms, g)[l]
  {
    if ms != [] {
      var init := ms[..|ms| - 1];
      GenderIndicesSpec(init, g);
      var xs := GenderIndices(init, g);
      assert forall i :: 0 <= i < |init| ==> init[i] == ms[i];
      assert forall k :: 0 <= k < |xs| ==> xs[k] < |ms| - 1;
    }
  }

  /**
   * The index `pickIndexTeamWithGender` picks with draw u among the members
   * ms: -1 when none has gender g, otherwise a uniform choice among those
   * that do.
   */
  function Pick(ms: seq<Player>, g: Gender, u: Unit): (r: int)
    ensures r == -1 <==> forall i :: 0 <= i < |ms| ==> ms[i].gender != g
    ensures r != -1 ==> 0 <= r < |ms| && ms[r].gender == g
  {
    GenderIndicesSpec(ms, g);
    var idxs := GenderIndices(ms, g);
    if |idxs| == 0 then -1 else idxs[Draw(u, |idxs|)]
  }

  /**
   * `pickIndexTeamWithGender`: collects the indices of the members of
   * gender g; none gives -1, otherwise the draw picks one of them.
   */
  method PickIndexWithGender(t: Team, g: Gender, u: Unit) returns (r: int)
    ensures r == Pick(t.members, g, u)
  {
    var idxs := [];
    for i := 0 to |t.members|
      invariant idxs == GenderIndices(t.members[..i], g)
    {
      assert t.members[..i + 1][..i] == t.members[..i];
      if t.members[i].gender == g {
        idxs := idxs + [i];
      }
    }
    assert t.members[..|t.members|] == t.members;
    GenderIndicesSpec(t.members, g);
    if |idxs| == 0 {
      r := -1;
    } else {
      r := idxs[Draw(u, |idxs|)];
    }
  }

  /** 1 for a woman, 0 otherwise. */
  function IsWoman(p: Player): int
  {
    if p.gender == F then 1 else 0
  }

  /**
   * `removeFromTeam(t, idx, pvOut)` followed by `addToTeam(t, p, pvIn)`:
   * member idx leaves, p joins at the end, and every aggregate moves by
   * the difference of the two vectors.
   */
  method Replace(t: Team, idx: nat, pvOut: PlayerVec, p: Player, pvIn: PlayerVec) returns (q: Player)
    requires t.Shaped() && idx < |t.members| && |pvOut.vec| == NumCategories && |pvIn.vec| == NumCategories
    modifies t
    ensures q == old(t.members[idx]) && t.Shaped()
    ensures t.members == old(t.members[..idx] + t.members[idx + 1..]) + [p]
    ensures t.vecs == old(t.vecs[..idx] + t.vecs[idx + 1..]) + [pvIn]
    ensures t.total == old(t.total) - pvOut.total + pvIn.total
    ensures t.baseTotal == old(t.baseTotal) - pvOut.baseTotal + pvIn.baseTotal
    ensures t.moodSum == old(t.moodSum) - pvOut.moodNorm + pvIn.moodNorm
    ensures forall c :: 0 <= c < NumCategories ==> t.catSums[c] == old(t.catSums[c]) - pvOut.vec[c] + pvIn.vec[c]
    ensures t.women == old(t.women) - IsWoman(q) + IsWoman(p)
    ensures old(t.Valid()) && pvOut == old(t.vecs[idx]) ==> t.Valid()
    ensures t.View() == Shift(old(t.View()), pvOut, pvIn)
  {
    q := t.RemoveAt(idx, pvOut);
    t.Add(p, pvIn);
  }

  /** A team's view after the vector of a leaving member is traded for that of a joining one. */
  function Shift(v: TeamView, leaving: PlayerVec, joining: PlayerVec): (w: TeamView)
    requires |v.catSums| <= |leaving.vec| && |v.catSums| <= |joining.vec|
    ensures w.size == v.size && |w.catSums| == |v.catSums|
  {
    TeamView(v.size, v.total - leaving.total + joining.total,
             seq(|v.catSums|, c requires 0 <= c < |v.catSums| => v.catSums[c] - leaving.vec[c] + joining.vec[c]),
             v.moodSum - leaving.moodNorm + joining.moodNorm)
  }

  /** Trading back undoes a trade: the revert restores the view exactly (in exact arithmetic). */
  lemma ShiftBack(v: TeamView, x: PlayerVec, y: PlayerVec)
    requires |v.catSums| <= |x.vec| && |v.catSums| <= |y.vec|
    ensures Shift(Shift(v, x, y), y, x) == v
  {
    var w := Shift(Shift(v, x, y), y, x);
    assert w.catSums == v.catSums;
  }

  /** The cost function's view of every team. */
  function Views(teams: seq<Team>): (vs: seq<TeamView>)
    reads teams
    ensures |vs| == |teams| && forall t :: 0 <= t < |teams| ==> vs[t] == teams[t].View()
  {
    seq(|teams|, t requires 0 <= t < |teams| reads teams => teams[t].View())
  }

  /** Every member's id has a vector in `pvById` (the `!` of `pvById.get(...)!`). */
  ghost predicate KnownIds(t: Team, pvById: map<string, PlayerVec>)
    reads t
  {
    forall i :: 0 <= i < |t.members| ==> t.members[i].id in pvById
  }

  /** Every team is well shaped and every member is known to `pvById`. */
  ghost predicate Sane(teams: seq<Team>, pvById: map<string, PlayerVec>)
    reads teams
  {
    forall t {:trigger teams[t].Shaped()} :: 0 <= t < |teams| ==> teams[t].Shaped() && KnownIds(teams[t], pvById)
  }

  /** Every vector of `pvById` has one entry per category. */
  predicate VecsShaped(pvById: map<string, PlayerVec>)
  {
    forall id :: id in pvById ==> |pvById[id].vec| == NumCategories
  }

  /** `pvById` gives every allowed player the vector it came with. */
  predicate Consistent(allowed: set<Entry>, pvById: map<string, PlayerVec>)
  {
    forall e :: e in allowed ==> e.p.id in pvById && pvById[e.p.id] == e.pv
  }

  /** The teams show the views `vs` to the cost function. */
  ghost predicate Looks(teams: seq<Team>, vs: seq<TeamView>)
    reads teams
  {
    |vs| == |teams| && forall t :: 0 <= t < |teams| ==> teams[t].View() == vs[t]
  }

  /** The cost coefficients `buildBalancedMixedTeams` passes to `computeCost`. */
  datatype Blend = Blend(lambdaCat: real, weights: Weights, lambdaMood: real, attackPriorityFactor: real)

  function CostOf(vs: seq<TeamView>, bl: Blend): real
    requires WellFormed(vs)
  {
    ComputeCost(vs, bl.lambdaCat, bl.weights, bl.lambdaMood, bl.attackPriorityFactor)
  }

  /** Moving member i of r to the end keeps the same players. */
  lemma MoveToEnd<T>(r: seq<T>, i: nat)
    requires i < |r|
    ensures multiset(r[..i] + r[i + 1..] + [r[i]]) == multiset(r)
  {
    assert r == r[..i] + [r[i]] + r[i + 1..];
  }

  /** Member ia of ra and member ib of rb trading places keeps the players of the two groups together. */
  lemma ExchangeBags<T>(ra: seq<T>, rb: seq<T>, ia: nat, ib: nat)
    requires ia < |ra| && ib < |rb|
    ensures multiset(ra[..ia] + ra[ia + 1..] + [rb[ib]]) + multiset(rb[..ib] + rb[ib + 1..] + [ra[ia]])
         == multiset(ra) + multiset(rb)
  {
    MoveToEnd(ra, ia);
    MoveToEnd(rb, ib);
    var A, B := multiset(ra[..ia] + ra[ia + 1..]), multiset(rb[..ib] + rb[ib + 1..]);
    assert multiset(ra[..ia] + ra[ia + 1..] + [rb[ib]]) == A + multiset{rb[ib]};
    assert multiset(rb[..ib] + rb[ib + 1..] + [ra[ia]]) == B + multiset{ra[ia]};
    assert multiset(ra) == A + multiset{ra[ia]};
    assert multiset(rb) == B + multiset{rb[ib]};
  }

  /** The member at idx of a sound team has the vector `pvById` records for it. */
  lemma KnownVector(t: Team, idx: nat, allowed: set<Entry>, pvById: map<string, PlayerVec>)
    requires t.Valid() && Recorded(t, allowed) && Consistent(allowed, pvById) && idx < |t.members|
    ensures t.members[idx].id in pvById && pvById[t.members[idx].id] == t.vecs[idx]
  {
    assert Entry(t.members[idx], t.vecs[idx]) in allowed;
  }

  /**
   * Everything the swap loop keeps about one team: its shape, known ids,
   * roster r, women count w and view v, and, when the run is sound, exact
   * aggregates built from recorded entries.
   */
  ghost predicate TeamOk(t: Team, pvById: map<string, PlayerVec>, allowed: set<Entry>, sound: bool,
                         r: seq<Player>, w: int, v: TeamView)
    reads t
  {
    t.Shaped() && KnownIds(t, pvById) && t.members == r && t.women == w && t.View() == v &&
    (sound ==> t.Valid() && Recorded(t, allowed))
  }

  /** TeamOk for every team, against the snapshots rs, ws, vs. */
  ghost predicate Kept(teams: seq<Team>, pvById: map<string, PlayerVec>, allowed: set<Entry>, sound: bool,
                       rs: seq<seq<Player>>, ws: seq<int>, vs: seq<TeamView>)
    reads teams
  {
    |rs| == |teams| && |ws| == |teams| && |vs| == |teams| &&
    forall t :: 0 <= t < |teams| ==> TeamOk(teams[t], pvById, allowed, sound, rs[t], ws[t], vs[t])
  }

  /** What Kept says in the terms of the seeding phase. */
  lemma KeptHolds(teams: seq<Team>, pvById: map<string, PlayerVec>, allowed: set<Entry>, sound: bool,
                  rs: seq<seq<Player>>, ws: seq<int>, vs: seq<TeamView>)
    requires Kept(teams, pvById, allowed, sound, rs, ws, vs)
    ensures Holds(teams, rs, ws) && Looks(teams, vs) && Sane(teams, pvById) && Views(teams) == vs
    ensures sound ==> AllValid(teams, allowed)
    ensures |teams| > 0 ==> WellFormed(vs)
  {
    assert forall t :: 0 <= t < |teams| ==> TeamOk(teams[t], pvById, allowed, sound, rs[t], ws[t], vs[t]);
  }

  /** Kept, established from the seeding phase's facts. */
  lemma HoldsKept(teams: seq<Team>, pvById: map<string, PlayerVec>, allowed: set<Entry>, sound: bool,
                  rs: seq<seq<Player>>, ws: seq<int>)
    requires Holds(teams, rs, ws) && Sane(teams, pvById) && (sound ==> AllValid(teams, allowed))
    ensures Kept(teams, pvById, allowed, sound, rs, ws, Views(teams))
  {
    forall t | 0 <= t < |teams|
      ensures TeamOk(teams[t], pvById, allowed, sound, rs[t], ws[t], Views(teams)[t])
    {
      assert teams[t].Shaped();
      if sound {
        assert teams[t].Valid();
      }
    }
  }

  /** A roster with one member replaced at the end still has known ids and recorded entries. */
  lemma ReplacedKnown(t: Team, r: seq<Player>, rv: seq<PlayerVec>, p: Player, pv: PlayerVec,
                      pvById: map<string, PlayerVec>, allowed: set<Entry>, sound: bool)
    requires t.members == r + [p] && t.vecs == rv + [pv] && |r| == |rv| && p.id in pvById
    requires forall i :: 0 <= i < |r| ==> r[i].id in pvById
    requires sound ==> Entry(p, pv) in allowed && forall i :: 0 <= i < |r| ==> Entry(r[i], rv[i]) in allowed
    ensures KnownIds(t, pvById) && (sound ==> Recorded(t, allowed))
  {
  }

  /**
   * Replace on a team that TeamOk describes: the member at idx leaves with
   * pvOut and p joins with pvIn; the women count stays when p has the
   * leaving member's gender.
   */
  method ReplaceOk(t: Team, idx: nat, pvOut: PlayerVec, p: Player, pvIn: PlayerVec,
                   pvById: map<string, PlayerVec>, ghost allowed: set<Entry>, ghost sound: bool,
                   ghost r: seq<Player>, ghost w: int, ghost v: TeamView) returns (q: Player)
    requires TeamOk(t, pvById, allowed, sound, r, w, v) && idx < |r| && p.id in pvById && p.gender == r[idx].gender
    requires |pvOut.vec| == NumCategories && |pvIn.vec| == NumCategories
    requires sound ==> pvOut == t.vecs[idx] && Entry(p, pvIn) in allowed
    modifies t
    ensures q == r[idx] && |v.catSums| == NumCategories && |t.vecs| > 0 && t.vecs[|t.vecs| - 1] == pvIn
    ensures TeamOk(t, pvById, allowed, sound, r[..idx] + r[idx + 1..] + [p], w, Shift(v, pvOut, pvIn))
  {
    ghost var rest, rv := r[..idx] + r[idx + 1..], t.vecs[..idx] + t.vecs[idx + 1..];
    assert forall i :: 0 <= i < |rest| ==> rest[i].id in pvById by {
      forall i | 0 <= i < |rest|
        ensures rest[i].id in pvById
      {
        if i >= idx {
          assert rest[i] == r[i + 1];
        }
      }
    }
    assert sound ==> forall i :: 0 <= i < |rest| ==> Entry(rest[i], rv[i]) in allowed by {
      if sound {
        forall i | 0 <= i < |rest|
          ensures Entry(rest[i], rv[i]) in allowed
        {
          if i >= idx {
            assert rest[i] == r[i + 1] && rv[i] == t.vecs[i + 1];
          }
        }
      }
    }
    q := Replace(t, idx, pvOut, p, pvIn);
    ReplacedKnown(t, rest, rv, p, pvIn, pvById, allowed, sound);
  }

  /**
   * The exchange of `buildBalancedMixedTeams` on two teams: member ia of ta
   * and member ib of tb, whose vectors are looked up in `pvById`, change teams.
   */
  method Trade(ta: Team, tb: Team, ia: nat, ib: nat, pvById: map<string, PlayerVec>,
               ghost allowed: set<Entry>, ghost sound: bool,
               ghost ra: seq<Player>, ghost rb: seq<Player>, ghost wa: int, ghost wb: int,
               ghost va: TeamView, ghost vb: TeamView)
      returns (pa: Player, pb: Player, pva: PlayerVec, pvb: PlayerVec)
    requires ta != tb && VecsShaped(pvById) && (sound ==> Consistent(allowed, pvById))
    requires TeamOk(ta, pvById, allowed, sound, ra, wa, va) && TeamOk(tb, pvById, allowed, sound, rb, wb, vb)
    requires ia < |ra| && ib < |rb| && ra[ia].gender == rb[ib].gender
    modifies ta, tb
    ensures pa == ra[ia] && pb == rb[ib] && pa.id in pvById && pb.id in pvById
    ensures pva == pvById[pa.id] && pvb == pvById[pb.id]
    ensures |pva.vec| == NumCategories && |pvb.vec| == NumCategories
    ensures |va.catSums| == NumCategories && |vb.catSums| == NumCategories
    ensures TeamOk(ta, pvById, allowed, sound, ra[..ia] + ra[ia + 1..] + [pb], wa, Shift(va, pva, pvb))
    ensures TeamOk(tb, pvById, allowed, sound, rb[..ib] + rb[ib + 1..] + [pa], wb, Shift(vb, pvb, pva))
    ensures sound ==> Entry(pa, pva) in allowed && Entry(pb, pvb) in allowed
    ensures |ta.vecs| > 0 && ta.vecs[|ta.vecs| - 1] == pvb && |tb.vecs| > 0 && tb.vecs[|tb.vecs| - 1] == pva
  {
    pa, pb := ta.members[ia], tb.members[ib];
    pva, pvb := pvById[pa.id], pvById[pb.id];
    if sound {
      KnownVector(ta, ia, allowed, pvById);
      KnownVector(tb, ib, allowed, pvById);
    }
    var _ := ReplaceOk(ta, ia, pva, pb, pvb, pvById, allowed, sound, ra, wa, va);
    var _ := ReplaceOk(tb, ib, pvb, pa, pva, pvById, allowed, sound, rb, wb, vb);
  }

  /** The revert of a rejected exchange: each team gets its own member back, at the end. */
  method Untrade(ta: Team, tb: Team, pa: Player, pb: Player, pva: PlayerVec, pvb: PlayerVec,
                 pvById: map<string, PlayerVec>, ghost allowed: set<Entry>, ghost sound: bool,
                 ghost xa: seq<Player>, ghost xb: seq<Player>, ghost wa: int, ghost wb: int,
                 ghost va: TeamView, ghost vb: TeamView)
    requires ta != tb && |pva.vec| == NumCategories && |pvb.vec| == NumCategories
    requires pa.id in pvById && pb.id in pvById && pa.gender == pb.gender
    requires |va.catSums| == NumCategories && |vb.catSums| == NumCategories
    requires TeamOk(ta, pvById, allowed, sound, xa + [pb], wa, Shift(va, pva, pvb))
    requires TeamOk(tb, pvById, allowed, sound, xb + [pa], wb, Shift(vb, pvb, pva))
    requires sound ==> Entry(pa, pva) in allowed && Entry(pb, pvb) in allowed
    requires |ta.vecs| > 0 && ta.vecs[|ta.vecs| - 1] == pvb && |tb.vecs| > 0 && tb.vecs[|tb.vecs| - 1] == pva
    modifies ta, tb
    ensures TeamOk(ta, pvById, allowed, sound, xa + [pa], wa, va)
    ensures TeamOk(tb, pvById, allowed, sound, xb + [pb], wb, vb)
  {
    assert (xa + [pb])[..|xa|] + (xa + [pb])[|xa| + 1..] == xa;
    assert (xb + [pa])[..|xb|] + (xb + [pa])[|xb| + 1..] == xb;
    var _ := ReplaceOk(ta, |ta.members| - 1, pvb, pa, pva, pvById, allowed, sound, xa + [pb], wa, Shift(va, pva, pvb));
    var _ := ReplaceOk(tb, |tb.members| - 1, pva, pb, pvb, pvById, allowed, sound, xb + [pa], wb, Shift(vb, pvb, pva));
    ShiftBack(va, pva, pvb);
    ShiftBack(vb, pvb, pva);
  }

  /**
   * The state between an exchange and its revert: teams a and b hold the
   * traded rosters and views, and the last vector of each is the one that
   * joined it.
   */
  ghost predicate Traded(teams: seq<Team>, a: nat, b: nat, pa: Player, pb: Player, pva: PlayerVec, pvb: PlayerVec,
                         pvById: map<string, PlayerVec>, allowed: set<Entry>, sound: bool,
                         rs: seq<seq<Player>>, ws: seq<int>, vs: seq<TeamView>, xa: seq<Player>, xb: seq<Player>)
    reads teams
  {
    a < |teams| && b < |teams| && a != b && Distinct(teams) &&
    |pva.vec| == NumCategories && |pvb.vec| == NumCategories &&
    pa.id in pvById && pb.id in pvById && pa.gender == pb.gender &&
    |rs| == |teams| && |vs| == |teams| && |vs[a].catSums| == NumCategories && |vs[b].catSums| == NumCategories &&
    Kept(teams, pvById, allowed, sound, rs[a := xa + [pb]][b := xb + [pa]], ws,
         vs[a := Shift(vs[a], pva, pvb)][b := Shift(vs[b], pvb, pva)]) &&
    (sound ==> Entry(pa, pva) in allowed && Entry(pb, pvb) in allowed) &&
    |teams[a].vecs| > 0 && teams[a].vecs[|teams[a].vecs| - 1] == pvb &&
    |teams[b].vecs| > 0 && teams[b].vecs[|teams[b].vecs| - 1] == pva
  }

  /** Trade between teams a and b of the whole sequence; every other team is untouched. */
  method TradeAt(teams: seq<Team>, a: nat, b: nat, ia: nat, ib: nat, pvById: map<string, PlayerVec>,
                 ghost allowed: set<Entry>, ghost sound: bool,
                 ghost rs: seq<seq<Player>>, ghost ws: seq<int>, ghost vs: seq<TeamView>,
                 ghost xa: seq<Player>, ghost xb: seq<Player>)
      returns (pa: Player, pb: Player, pva: PlayerVec, pvb: PlayerVec)
    requires a < |teams| && b < |teams| && a != b && Distinct(teams)
    requires VecsShaped(pvById) && (sound ==> Consistent(allowed, pvById))
    requires Kept(teams, pvById, allowed, sound, rs, ws, vs)
    requires ia < |rs[a]| && ib < |rs[b]| && rs[a][ia].gender == rs[b][ib].gender
    requires xa == rs[a][..ia] + rs[a][ia + 1..] && xb == rs[b][..ib] + rs[b][ib + 1..]
    modifies teams[a], teams[b]
    ensures pa == rs[a][ia] && pb == rs[b][ib] && pa.id in pvById && pb.id in pvById
    ensures pva == pvById[pa.id] && pvb == pvById[pb.id]
    ensures Traded(teams, a, b, pa, pb, pva, pvb, pvById, allowed, sound, rs, ws, vs, xa, xb)
  {
    assert TeamOk(teams[a], pvById, allowed, sound, rs[a], ws[a], vs[a]);
    assert TeamOk(teams[b], pvById, allowed, sound, rs[b], ws[b], vs[b]);
    pa, pb, pva, pvb := Trade(teams[a], teams[b], ia, ib, pvById, allowed, sound, rs[a], rs[b], ws[a], ws[b], vs[a], vs[b]);
    ghost var rs' := rs[a := xa + [pb]][b := xb + [pa]];
    ghost var vs' := vs[a := Shift(vs[a], pva, pvb)][b := Shift(vs[b], pvb, pva)];
    forall t | 0 <= t < |teams|
      ensures TeamOk(teams[t], pvById, allowed, sound, rs'[t], ws[t], vs'[t])
    {
      if t != a && t != b {
        assert old(TeamOk(teams[t], pvById, allowed, sound, rs[t], ws[t], vs[t]));
        assert teams[t] != teams[a] && teams[t] != teams[b];
      }
    }
  }

  /** Untrade between teams a and b of the whole sequence; every other team is untouched. */
  method UntradeAt(teams: seq<Team>, a: nat, b: nat, pa: Player, pb: Player, pva: PlayerVec, pvb: PlayerVec,
                   pvById: map<string, PlayerVec>, ghost allowed: set<Entry>, ghost sound: bool,
                   ghost rs: seq<seq<Player>>, ghost ws: seq<int>, ghost vs: seq<TeamView>,
                   ghost xa: seq<Player>, ghost xb: seq<Player>)
    requires Traded(teams, a, b, pa, pb, pva, pvb, pvById, allowed, sound, rs, ws, vs, xa, xb)
    modifies teams[a], teams[b]
    ensures Kept(teams, pvById, allowed, sound, rs[a := xa + [pa]][b := xb + [pb]], ws, vs)
  {
    ghost var rs1 := rs[a := xa + [pb]][b := xb + [pa]];
    ghost var vs1 := vs[a := Shift(vs[a], pva, pvb)][b := Shift(vs[b], pvb, pva)];
    assert TeamOk(teams[a], pvById, allowed, sound, rs1[a], ws[a], vs1[a]);
    assert TeamOk(teams[b], pvById, allowed, sound, rs1[b], ws[b], vs1[b]);
    Untrade(teams[a], teams[b], pa, pb, pva, pvb, pvById, allowed, sound, xa, xb, ws[a], ws[b], vs[a], vs[b]);
    ghost var rs' := rs[a := xa + [pa]][b := xb + [pb]];
    forall t | 0 <= t < |teams|
      ensures TeamOk(teams[t], pvById, allowed, sound, rs'[t], ws[t], vs[t])
    {
      if t != a && t != b {
        assert old(TeamOk(teams[t], pvById, allowed, sound, rs1[t], ws[t], vs1[t]));
        assert teams[t] != teams[a] && teams[t] != teams[b];
      }
    }
  }

  /** The cost function sees the snapshot views of kept teams. */
  lemma KeptViews(teams: seq<Team>, pvById: map<string, PlayerVec>, allowed: set<Entry>, sound: bool,
                  rs: seq<seq<Player>>, ws: seq<int>, vs: seq<TeamView>)
    requires Kept(teams, pvById, allowed, sound, rs, ws, vs) && |teams| > 0
    ensures Views(teams) == vs && WellFormed(vs)
  {
    assert forall t :: 0 <= t < |teams| ==> TeamOk(teams[t], pvById, allowed, sound, rs[t], ws[t], vs[t]);
  }

  /** The views once the member with vector pva leaves team a for b and the one with pvb leaves b for a. */
  function SwapViews(vs: seq<TeamView>, a: nat, b: nat, pva: PlayerVec, pvb: PlayerVec): (r: seq<TeamView>)
    requires WellFormed(vs) && a < |vs| && b < |vs| && |pva.vec| == NumCategories && |pvb.vec| == NumCategories
    ensures WellFormed(r) && |r| == |vs|
    ensures forall t :: 0 <= t < |vs| && t != a && t != b ==> r[t] == vs[t]
  {
    vs[a := Shift(vs[a], pva, pvb)][b := Shift(vs[b], pvb, pva)]
  }

  /**
   * The rosters after member ia of group a and member ib of group b move to
   * the end of the other group (kept) or of their own group (reverted).
   */
  function Exchanged<T>(rs: seq<seq<T>>, a: nat, b: nat, ia: nat, ib: nat, kept: bool): (r: seq<seq<T>>)
    requires a < |rs| && b < |rs| && ia < |rs[a]| && ib < |rs[b]|
    ensures |r| == |rs| && forall t :: 0 <= t < |rs| && t != a && t != b ==> r[t] == rs[t]
  {
    var xa, xb := rs[a][..ia] + rs[a][ia + 1..], rs[b][..ib] + rs[b][ib + 1..];
    if kept then rs[a := xa + [rs[b][ib]]][b := xb + [rs[a][ia]]]
    else rs[a := xa + [rs[a][ia]]][b := xb + [rs[b][ib]]]
  }

  /**
   * Kept or reverted, a swap leaves every size and the players overall
   * unchanged; reverted, it leaves every group with its own players.
   */
  lemma SwappedRosters<T>(rs: seq<seq<T>>, a: nat, b: nat, ia: nat, ib: nat, kept: bool)
    requires a < |rs| && b < |rs| && a != b && ia < |rs[a]| && ib < |rs[b]|
    ensures var rs' := Exchanged(rs, a, b, ia, ib, kept);
            Lengths(rs') == Lengths(rs) && Flatten(rs') == Flatten(rs)
    ensures !kept ==> forall t :: 0 <= t < |rs| ==> multiset(Exchanged(rs, a, b, ia, ib, kept)[t]) == multiset(rs[t])
  {
    var xa, xb := rs[a][..ia] + rs[a][ia + 1..], rs[b][..ib] + rs[b][ib + 1..];
    var ya, yb := if kept then xa + [rs[b][ib]] else xa + [rs[a][ia]], if kept then xb + [rs[a][ia]] else xb + [rs[b][ib]];
    if kept {
      ExchangeBags(rs[a], rs[b], ia, ib);
    } else {
      MoveToEnd(rs[a], ia);
      MoveToEnd(rs[b], ib);
    }
    FlattenExchange(rs, a, b, ya, yb);
    LengthsExchange(rs, a, b, ya, yb);
  }

  /**
   * One accepted-or-reverted swap: member ia of team a and member ib of
   * team b, of the same gender, trade teams; the trade is kept when the
   * cost of the traded views does not rise above bestCost and undone
   * otherwise, each member then returning to the end of its own team.
   * Sizes, women counts and the players overall never change, and the
   * cost held is the cost of the teams.
   */
  /**
   * The outcome of trying the exchange of member ia of team a with member
   * ib of team b: their vectors, looked up by id, trade teams; the trade
   * is kept exactly when the cost does not rise above bestCost, and undone
   * otherwise.
   */
  ghost predicate Swapped(rs: seq<seq<Player>>, vs: seq<TeamView>, a: nat, b: nat, ia: nat, ib: nat,
                          pvById: map<string, PlayerVec>, bl: Blend, bestCost: real,
                          rs': seq<seq<Player>>, vs': seq<TeamView>)
    requires VecsShaped(pvById) && WellFormed(vs) && |rs| == |vs|
  {
    a < |rs| && b < |rs| && ia < |rs[a]| && ib < |rs[b]| && rs[a][ia].id in pvById && rs[b][ib].id in pvById &&
    var traded := SwapViews(vs, a, b, pvById[rs[a][ia].id], pvById[rs[b][ib].id]);
    var kept := CostOf(traded, bl) <= bestCost;
    rs' == Exchanged(rs, a, b, ia, ib, kept) && vs' == (if kept then traded else vs)
  }

  method TrySwap(teams: seq<Team>, a: nat, b: nat, ia: nat, ib: nat, pvById: map<string, PlayerVec>,
                 bl: Blend, bestCost: real, ghost allowed: set<Entry>, ghost sound: bool,
                 ghost rs: seq<seq<Player>>, ghost ws: seq<int>, ghost vs: seq<TeamView>)
      returns (cost: real, ghost rs': seq<seq<Player>>, ghost vs': seq<TeamView>)
    requires a < |teams| && b < |teams| && a != b && Distinct(teams)
    requires VecsShaped(pvById) && (sound ==> Consistent(allowed, pvById))
    requires Kept(teams, pvById, allowed, sound, rs, ws, vs)
    requires ia < |rs[a]| && ib < |rs[b]| && rs[a][ia].gender == rs[b][ib].gender
    requires WellFormed(vs) && bestCost == CostOf(vs, bl)
    modifies teams[a], teams[b]
    ensures Kept(teams, pvById, allowed, sound, rs', ws, vs') && WellFormed(vs')
    ensures Lengths(rs') == Lengths(rs) && Flatten(rs') == Flatten(rs)
    ensures cost == CostOf(vs', bl) <= bestCost
    ensures Swapped(rs, vs, a, b, ia, ib, pvById, bl, bestCost, rs', vs')
  {
    ghost var xa, xb := rs[a][..ia] + rs[a][ia + 1..], rs[b][..ib] + rs[b][ib + 1..];
    var pa, pb, pva, pvb := TradeAt(teams, a, b, ia, ib, pvById, allowed, sound, rs, ws, vs, xa, xb);
    ghost var traded := SwapViews(vs, a, b, pva, pvb);
    KeptViews(teams, pvById, allowed, sound, rs[a := xa + [pb]][b := xb + [pa]], ws, traded);
    var newCost := CostOf(Views(teams), bl);
    if newCost <= bestCost {
      cost := newCost;
      rs', vs' := rs[a := xa + [pb]][b := xb + [pa]], traded;
    } else {
      UntradeAt(teams, a, b, pa, pb, pva, pvb, pvById, allowed, sound, rs, ws, vs, xa, xb);
      cost := bestCost;
      rs', vs' := rs[a := xa + [pa]][b := xb + [pb]], vs;
    }
    SwappedRosters(rs, a, b, ia, ib, newCost <= bestCost);
  }

  /** `Math.random() < 0.5 ? "F" : "M"`. */
  function Genre(u: Unit): (g: Gender)
    ensures g == F <==> u < 0.5
  {
    if u < 0.5 then F else M
  }

  predicate HasGender(ms: seq<Player>, g: Gender)
  {
    exists i :: 0 <= i < |ms| && ms[i].gender == g
  }

  /**
   * The draws of one iteration of the swap loop, from `rng` starting at
   * draw d: two distinct teams, a gender, and one member of that gender in
   * each. `found` is false when the iteration stops early, because a team
   * is empty or has no member of the gender. Returns the next unused draw.
   */
  /**
   * The draws of one swap iteration on rosters ms, from draw d on: team a,
   * then team b (moved to the next team when it equals a), then, when both
   * are non-empty, a gender and a uniform pick among each team's members
   * of it; each pick consumes a draw only when the team has that gender.
   */
  ghost predicate Drawn(ms: seq<seq<Player>>, rng: nat -> Unit, d: nat,
                        next: nat, found: bool, a: nat, b: nat, ia: nat, ib: nat)
    requires |ms| >= 2
  {
    var k := |ms|;
    var b0 := Draw(rng(d + 1), k);
    a == Draw(rng(d), k) && b == (if b0 == a then (b0 + 1) % k else b0) &&
    if |ms[a]| == 0 || |ms[b]| == 0 then next == d + 2 && !found
    else
      var g := Genre(rng(d + 2));
      var i := Pick(ms[a], g, rng(d + 3));
      var j := Pick(ms[b], g, rng(if i == -1 then d + 3 else d + 4));
      next == d + 3 + (if i == -1 then 0 else 1) + (if j == -1 then 0 else 1) &&
      (found <==> i != -1 && j != -1) && (found ==> ia == i && ib == j)
  }

  method ChooseSwap(teams: seq<Team>, rng: nat -> Unit, d: nat)
      returns (next: nat, found: bool, a: nat, b: nat, ia: nat, ib: nat)
    requires |teams| >= 2
    ensures d + 2 <= next <= d + 5
    ensures a == Draw(rng(d), |teams|)
    ensures b == var b0 := Draw(rng(d + 1), |teams|); if b0 == a then (b0 + 1) % |teams| else b0
    ensures a < |teams| && b < |teams| && a != b
    ensures found <==> |teams[a].members| > 0 && |teams[b].members| > 0 &&
                       HasGender(teams[a].members, Genre(rng(d + 2))) && HasGender(teams[b].members, Genre(rng(d + 2)))
    ensures found ==> ia < |teams[a].members| && ib < |teams[b].members|
    ensures found ==> teams[a].members[ia].gender == teams[b].members[ib].gender == Genre(rng(d + 2))
    ensures Drawn(Rosters(teams), rng, d, next, found, a, b, ia, ib)
  {
    var k := |teams|;
    a := Draw(rng(d), k);
    b := Draw(rng(d + 1), k);
    next, found, ia, ib := d + 2, false, 0, 0;
    if a == b {
      b := (b + 1) % k;
    }
    ghost var ms := Rosters(teams);
    assert ms[a] == teams[a].members && ms[b] == teams[b].members;
    if |teams[a].members| == 0 || |teams[b].members| == 0 {
      return;
    }
    var genre := Genre(rng(next));
    next := next + 1;
    var i := PickIndexWithGender(teams[a], genre, rng(next));
    if i != -1 {
      next := next + 1;
    }
    var j := PickIndexWithGender(teams[b], genre, rng(next));
    if i != -1 && j != -1 {
      found, ia, ib := true, i, j;
    }
    if j != -1 {
      next := next + 1;
    }
  }

  /**
   * One iteration of the swap loop: the draws of ChooseSwap, then TrySwap
   * when they found a pair.
   */
  method SwapRound(teams: seq<Team>, rng: nat -> Unit, d: nat, pvById: map<string, PlayerVec>,
                   bl: Blend, bestCost: real, ghost allowed: set<Entry>, ghost sound: bool,
                   ghost rs: seq<seq<Player>>, ghost ws: seq<int>, ghost vs: seq<TeamView>)
      returns (next: nat, found: bool, a: nat, b: nat, ia: nat, ib: nat,
               cost: real, ghost rs': seq<seq<Player>>, ghost vs': seq<TeamView>)
    requires |teams| >= 2 && Distinct(teams)
    requires VecsShaped(pvById) && (sound ==> Consistent(allowed, pvById))
    requires Kept(teams, pvById, allowed, sound, rs, ws, vs) && WellFormed(vs) && bestCost == CostOf(vs, bl)
    modifies teams
    ensures Kept(teams, pvById, allowed, sound, rs', ws, vs') && WellFormed(vs')
    ensures Lengths(rs') == Lengths(rs) && Flatten(rs') == Flatten(rs)
    ensures cost == CostOf(vs', bl) <= bestCost
    ensures d + 2 <= next <= d + 5
    ensures Drawn(rs, rng, d, next, found, a, b, ia, ib)
    ensures found ==> Swapped(rs, vs, a, b, ia, ib, pvById, bl, bestCost, rs', vs')
    ensures !found ==> cost == bestCost && rs' == rs && vs' == vs
  {
    next, found, a, b, ia, ib := ChooseSwap(teams, rng, d);
    assert Rosters(teams) == rs;
    cost, rs', vs' := bestCost, rs, vs;
    if found {
      assert TeamOk(teams[a], pvById, allowed, sound, rs[a], ws[a], vs[a]);
      assert TeamOk(teams[b], pvById, allowed, sound, rs[b], ws[b], vs[b]);
      cost, rs', vs' := TrySwap(teams, a, b, ia, ib, pvById, bl, bestCost, allowed, sound, rs, ws, vs);
    }
  }

  /**
   * The swap loop of `buildBalancedMixedTeams`: swapIterations rounds
   * drawing from `rng`. The teams keep their sizes, their women counts and
   * their players overall, stay exact when they started so, and end at a
   * cost no higher than the one they started at.
   */
  method RefineBySwaps(teams: seq<Team>, swapIterations: int, rng: nat -> Unit, pvById: map<string, PlayerVec>,
                       bl: Blend, ghost allowed: set<Entry>, ghost sound: bool,
                       ghost rs0: seq<seq<Player>>, ghost ws: seq<int>, ghost vs0: seq<TeamView>)
      returns (bestCost: real, ghost rs: seq<seq<Player>>, ghost vs: seq<TeamView>)
    requires |teams| >= 2 && Distinct(teams)
    requires VecsShaped(pvById) && (sound ==> Consistent(allowed, pvById))
    requires Kept(teams, pvById, allowed, sound, rs0, ws, vs0)
    modifies teams
    ensures Kept(teams, pvById, allowed, sound, rs, ws, vs) && WellFormed(vs0) && WellFormed(vs)
    ensures Lengths(rs) == Lengths(rs0) && Flatten(rs) == Flatten(rs0)
    ensures bestCost == CostOf(vs, bl) <= CostOf(vs0, bl)
  {
    KeptViews(teams, pvById, allowed, sound, rs0, ws, vs0);
    bestCost := CostOf(Views(teams), bl);
    rs, vs := rs0, vs0;
    var it, d := 0, 0;
    while it < swapIterations
      invariant Kept(teams, pvById, allowed, sound, rs, ws, vs) && WellFormed(vs)
      invariant Lengths(rs) == Lengths(rs0) && Flatten(rs) == Flatten(rs0)
      invariant bestCost == CostOf(vs, bl) <= CostOf(vs0, bl)
      decreases swapIterations - it
    {
      var found, a, b, ia, ib;
      d, found, a, b, ia, ib, bestCost, rs, vs := SwapRound(teams, rng, d, pvById, bl, bestCost, allowed, sound, rs, ws, vs);
      it := it + 1;
    }
  }
}
