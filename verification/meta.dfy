/**
 * The per-player tables `buildBalancedMixedTeams` (scripts/voley_teams.ts)
 * derives before seeding: the strength entries, the split by gender, the
 * players not yet placed, and the vector of each id.
 */
module Meta {
  import opened Wrappers
  import opened Strength
  import opened Teams
  import opened Groups
  import opened Seeding
  import Refine

  /** The first player from `from` on whose ratings are not all in 1..10. */
  function FirstInvalid(players: seq<Player>, from: nat): (r: Option<nat>)
    requires from <= |players|
    ensures r.None? <==> forall i :: from <= i < |players| ==> ValidRatings(players[i])
    ensures r.Some? ==> from <= r.value < |players| && !ValidRatings(players[r.value])
    ensures r.Some? ==> forall i :: from <= i < r.value ==> ValidRatings(players[i])
    decreases |players| - from
  {
    if from == |players| then None
    else if !ValidRatings(players[from]) then Some(from)
    else FirstInvalid(players, from + 1)
  }

  /**
   * `players.map(p => ({ p, pv: playerVectorStrength(p, ...) }))`: one entry
   * per player, in order; the first player with a rating outside 1..10
   * throws its error.
   */
  function StrengthAll(players: seq<Player>, weights: Weights, moodWeight: real): (r: Result<seq<Entry>, BuildError>)
    ensures r.Ok? <==> forall i :: 0 <= i < |players| ==> ValidRatings(players[i])
    ensures r.Ok? ==> |r.value| == |players|
    ensures r.Ok? ==> forall i :: 0 <= i < |players| ==>
              r.value[i] == Entry(players[i], PlayerVectorStrength(players[i], weights, moodWeight).value)
    ensures r.Err? ==>
      exists i :: 0 <= i < |players| && PlayerVectorStrength(players[i], weights, moodWeight) == Err(r.error) &&
                  (forall j :: 0 <= j < i ==> ValidRatings(players[j]))
  {
    match FirstInvalid(players, 0)
    case Some(i) => Err(PlayerVectorStrength(players[i], weights, moodWeight).error)
    case None =>
      Ok(seq(|players|, i requires 0 <= i < |players| =>
        Entry(players[i], PlayerVectorStrength(players[i], weights, moodWeight).value)))
  }

  /** Every strength vector has one entry per category. */
  lemma StrengthShaped(players: seq<Player>, weights: Weights, moodWeight: real)
    requires StrengthAll(players, weights, moodWeight).Ok?
    ensures forall e :: e in StrengthAll(players, weights, moodWeight).value ==> |e.pv.vec| == NumCategories
  {
    var es := StrengthAll(players, weights, moodWeight).value;
    forall e | e in es
      ensures |e.pv.vec| == NumCategories
    {
      var i :| 0 <= i < |es| && es[i] == e;
      assert ValidRatings(players[i]);
    }
  }

  /**
   * `metaAll.filter(x => x.p.gender === "F")` when `women`, and
   * `metaAll.filter(x => x.p.gender !== "F")` otherwise; order is kept.
   */
  function OfGender(es: seq<Entry>, women: bool): (r: seq<Entry>)
    ensures forall e :: e in r ==> e in es && (e.p.gender == F) == women
    ensures |r| <= |es|
  {
    if es == [] then []
    else
      var n := |es| - 1;
      OfGender(es[..n], women) + (if (es[n].p.gender == F) == women then [es[n]] else [])
  }

  /** The two filters split the entries: every entry goes to exactly one side. */
  lemma {:induction false} SplitByGender(es: seq<Entry>)
    ensures multiset(OfGender(es, true)) + multiset(OfGender(es, false)) == multiset(es)
  {
    if es != [] {
      var n := |es| - 1;
      SplitByGender(es[..n]);
      assert es == es[..n] + [es[n]];
    }
  }

  /** The women filter keeps one entry per woman. */
  lemma {:induction false} WomenCounted(es: seq<Entry>)
    ensures |OfGender(es, true)| == CountWomen(PlayersOf(es))
  {
    if es == [] {
      CountWomenOfNone();
    } else {
      var n := |es| - 1;
      WomenCounted(es[..n]);
      assert PlayersOf(es) == PlayersOf(es[..n]) + [es[n].p];
      CountWomenAppend(PlayersOf(es[..n]), [es[n].p]);
      CountWomenOne(es[n].p);
    }
  }

  /** No entry is a woman when the women filter is empty. */
  lemma NoWomenLeft(es: seq<Entry>)
    requires |OfGender(es, true)| == 0
    ensures NoWomen(es)
  {
    SplitByGender(es);
    forall e | e in es
      ensures e.p.gender != F
    {
      assert e in multiset(es);
      assert e in multiset(OfGender(es, false));
    }
  }

  /** Some member of some group has this id. */
  predicate IdPlaced(id: string, rs: seq<seq<Player>>)
  {
    exists t, i :: 0 <= t < |rs| && 0 <= i < |rs[t]| && rs[t][i].id == id
  }

  /**
   * `metaAll.filter(x => !teams.some(T => T.members.some(m => m.id === x.p.id)))`:
   * the entries whose id no member of any team has; order is kept.
   */
  function Unplaced(es: seq<Entry>, rs: seq<seq<Player>>): (r: seq<Entry>)
    ensures forall e :: e in r <==> e in es && !IdPlaced(e.p.id, rs)
  {
    if es == [] then []
    else
      var n := |es| - 1;
      assert forall e :: e in es <==> e in es[..n] || e == es[n] by {
        assert es == es[..n] + [es[n]];
      }
      Unplaced(es[..n], rs) + (if !IdPlaced(es[n].p.id, rs) then [es[n]] else [])
  }

  /** When exactly the women are placed, the unplaced entries are the men's filter. */
  lemma {:induction false} UnplacedAreMen(es: seq<Entry>, rs: seq<seq<Player>>)
    requires forall e :: e in es ==> (IdPlaced(e.p.id, rs) <==> e.p.gender == F)
    ensures Unplaced(es, rs) == OfGender(es, false)
  {
    if es != [] {
      var n := |es| - 1;
      assert es[n] in es;
      UnplacedAreMen(es[..n], rs);
    }
  }

  /** When nobody is placed, every entry is unplaced. */
  lemma {:induction false} NothingPlaced(es: seq<Entry>, rs: seq<seq<Player>>)
    requires forall t :: 0 <= t < |rs| ==> rs[t] == []
    ensures Unplaced(es, rs) == es
  {
    if es != [] {
      var n := |es| - 1;
      NothingPlaced(es[..n], rs);
      assert es == es[..n] + [es[n]];
    }
  }

  /** No two players share an id. */
  predicate UniqueIds(players: seq<Player>)
  {
    forall i, j :: 0 <= i < |players| && 0 <= j < |players| && players[i].id == players[j].id ==> i == j
  }

  /** Two entries of `es` with the same id are the same entry, when ids are unique. */
  lemma SameId(es: seq<Entry>, e: Entry, f: Entry)
    requires UniqueIds(PlayersOf(es)) && e in es && f in es && e.p.id == f.p.id
    ensures e == f
  {
    var i :| 0 <= i < |es| && es[i] == e;
    var j :| 0 <= j < |es| && es[j] == f;
    assert PlayersOf(es)[i].id == PlayersOf(es)[j].id;
  }

  /** A woman's id is placed when the groups hold the women's players. */
  lemma WomanPlaced(es: seq<Entry>, rs: seq<seq<Player>>, e: Entry)
    requires Flatten(rs) == multiset(PlayersOf(OfGender(es, true))) && e in es && e.p.gender == F
    ensures IdPlaced(e.p.id, rs)
  {
    var women := OfGender(es, true);
    SplitByGender(es);
    assert e in multiset(es);
    assert e in women;
    var k :| 0 <= k < |women| && women[k] == e;
    assert e.p == PlayersOf(women)[k];
    InFlatten(rs, e.p);
    var t :| 0 <= t < |rs| && e.p in rs[t];
    var i :| 0 <= i < |rs[t]| && rs[t][i] == e.p;
  }

  /** With unique ids, a placed id belongs to a woman when the groups hold the women's players. */
  lemma PlacedWoman(es: seq<Entry>, rs: seq<seq<Player>>, e: Entry)
    requires UniqueIds(PlayersOf(es)) && Flatten(rs) == multiset(PlayersOf(OfGender(es, true)))
    requires e in es && IdPlaced(e.p.id, rs)
    ensures e.p.gender == F
  {
    var women := OfGender(es, true);
    var t, i :| 0 <= t < |rs| && 0 <= i < |rs[t]| && rs[t][i].id == e.p.id;
    var x := rs[t][i];
    InFlatten(rs, x);
    assert x in PlayersOf(women);
    var k :| 0 <= k < |women| && PlayersOf(women)[k] == x;
    assert women[k] in women;
    SameId(es, e, women[k]);
  }

  /**
   * With unique ids, when the groups hold exactly the women's players, an
   * entry's id is placed exactly when the entry is a woman.
   */
  lemma PlacedIffWoman(es: seq<Entry>, rs: seq<seq<Player>>)
    requires UniqueIds(PlayersOf(es)) && Flatten(rs) == multiset(PlayersOf(OfGender(es, true)))
    ensures forall e :: e in es ==> (IdPlaced(e.p.id, rs) <==> e.p.gender == F)
  {
    forall e | e in es
      ensures IdPlaced(e.p.id, rs) <==> e.p.gender == F
    {
      if e.p.gender == F {
        WomanPlaced(es, rs, e);
      }
      if IdPlaced(e.p.id, rs) {
        PlacedWoman(es, rs, e);
      }
    }
  }

  /**
   * `new Map(metaAll.map(x => [x.p.id, x.pv]))`: entries are set in order,
   * so a later entry with the same id overwrites an earlier one.
   */
  function VectorsById(es: seq<Entry>): (m: map<string, PlayerVec>)
    ensures forall e :: e in es ==> e.p.id in m
  {
    if es == [] then map[]
    else
      var n := |es| - 1;
      assert forall e :: e in es ==> e in es[..n] || e == es[n] by {
        assert es == es[..n] + [es[n]];
      }
      VectorsById(es[..n])[es[n].p.id := es[n].pv]
  }

  /** Every id maps to the vector of the last entry with that id. */
  lemma {:induction false} VectorsLast(es: seq<Entry>, i: nat)
    requires i < |es| && forall j :: i < j < |es| ==> es[j].p.id != es[i].p.id
    ensures VectorsById(es)[es[i].p.id] == es[i].pv
  {
    var n := |es| - 1;
    if i < n {
      assert es[..n][i] == es[i];
      forall j | i < j < n
        ensures es[..n][j].p.id != es[..n][i].p.id
      {
        assert es[..n][j] == es[j];
      }
      VectorsLast(es[..n], i);
    }
  }

  /** Every vector in the map is the vector of some entry. */
  lemma {:induction false} VectorsFrom(es: seq<Entry>)
    ensures forall id :: id in VectorsById(es) ==> exists e :: e in es && VectorsById(es)[id] == e.pv
  {
    if es != [] {
      var n := |es| - 1;
      VectorsFrom(es[..n]);
      forall id | id in VectorsById(es)
        ensures exists e :: e in es && VectorsById(es)[id] == e.pv
      {
        if id != es[n].p.id {
          var e :| e in es[..n] && VectorsById(es[..n])[id] == e.pv;
          assert e in es;
        } else {
          assert es[n] in es;
        }
      }
    }
  }

  /** With unique ids, the map gives every entry its own vector. */
  lemma VectorsOfUnique(es: seq<Entry>)
    requires UniqueIds(PlayersOf(es))
    ensures Refine.Consistent((set e | e in es), VectorsById(es))
  {
    forall e | e in es
      ensures e.p.id in VectorsById(es) && VectorsById(es)[e.p.id] == e.pv
    {
      var i :| 0 <= i < |es| && es[i] == e;
      forall j | i < j < |es|
        ensures es[j].p.id != es[i].p.id
      {
        assert PlayersOf(es)[j].id != PlayersOf(es)[i].id;
      }
      VectorsLast(es, i);
    }
  }

  /** Groups of players taken from groups of entries, concatenated, are the players of the concatenation. */
  lemma {:induction false} PlayersOfConcat(bs: seq<seq<Entry>>, rs: seq<seq<Player>>)
    requires |rs| == |bs| && forall t :: 0 <= t < |bs| ==> rs[t] == PlayersOf(bs[t])
    ensures Concat(rs) == PlayersOf(Concat(bs))
  {
    if bs != [] {
      var n := |bs| - 1;
      PlayersOfConcat(bs[..n], rs[..n]);
      PlayersOfAppend(Concat(bs[..n]), bs[n]);
    }
  }

  /** A group of women only counts every member as a woman. */
  lemma {:induction false} AllWomen(es: seq<Entry>)
    requires forall e :: e in es ==> e.p.gender == F
    ensures CountWomen(PlayersOf(es)) == |es|
  {
    if es == [] {
      CountWomenOfNone();
    } else {
      var n := |es| - 1;
      assert forall e :: e in es[..n] ==> e in es;
      AllWomen(es[..n]);
      assert PlayersOf(es) == PlayersOf(es[..n]) + [es[n].p];
      CountWomenAppend(PlayersOf(es[..n]), [es[n].p]);
      CountWomenOne(es[n].p);
    }
  }

  /** Two bags of entries that make up a third hold, together, its players. */
  lemma PlayersOfSplit(a: seq<Entry>, b: seq<Entry>, c: seq<Entry>)
    requires multiset(a) + multiset(b) == multiset(c)
    ensures multiset(PlayersOf(a)) + multiset(PlayersOf(b)) == multiset(PlayersOf(c))
  {
    assert multiset(a + b) == multiset(c);
    PlayersOfPermutation(a + b, c);
    PlayersOfAppend(a, b);
  }
}
