/**
 * The in-memory part of the statistics queries (convex/playerStats.ts):
 * how a player's matches count as played, won and lost, the per-teammate
 * counters, the winrates, the good and bad teammate lists, and the
 * per-player table sorted by winrate. The session teams and matches the
 * queries fetch are parameters here.
 */
module PlayerStats {
  import opened Wrappers
  import opened Sorting

  /** A row of `session_teams`: its id and its players' ids. */
  datatype SessionTeam = SessionTeam(id: string, playerIds: seq<string>)

  /** A row of `session_matches`: the two team ids and the scores, once entered. */
  datatype SessionMatch = SessionMatch(teamA: string, teamB: string, scoreA: Option<int>, scoreB: Option<int>)

  datatype Side = A | B | Draw

  /** How a match counts for the player: not at all, or played with a result and the teammates of that match. */
  datatype Counted = Skipped | Played(won: Option<bool>, mates: seq<string>)

  /** played, wins and losses. */
  datatype Stat = Stat(played: nat, wins: nat, losses: nat)

  /** The row `playerStatsWithTeammates` returns per teammate. */
  datatype MateRow = MateRow(playerId: string, playerName: string, playedTogether: nat, winsTogether: nat,
                             lossesTogether: nat, winrateTogether: real)

  datatype Summary = Summary(played: nat, wins: nat, losses: nat, winrate: real)

  datatype Report = Report(playerId: string, summary: Summary, teammates: seq<MateRow>,
                           goodTeammates: seq<MateRow>, badTeammates: seq<MateRow>)

  /** The row `allPlayersStats` returns per player. */
  datatype PlayerRow = PlayerRow(playerId: string, playerName: string, played: nat, wins: nat, losses: nat, winrate: real)

  /** A row of `players`, as far as the table reads it. */
  datatype PlayerDoc = PlayerDoc(id: string, name: string)

  // ---------------- Lookups ----------------

  /** `new Map(allTeams.map(t => [t._id, t]))`: a later team with the same id replaces an earlier one. */
  function TeamsById(teams: seq<SessionTeam>): (m: map<string, SessionTeam>)
    ensures forall t :: t in teams ==> t.id in m
    ensures forall id :: id in m ==> m[id] in teams && m[id].id == id
  {
    if teams == [] then map[]
    else TeamsById(teams[..|teams| - 1])[teams[|teams| - 1].id := teams[|teams| - 1]]
  }

  /** The ids of the teams the player is in. */
  function PlayerTeamIds(teams: seq<SessionTeam>, playerId: string): (ids: set<string>)
    ensures forall id :: id in ids <==> exists t :: t in teams && playerId in t.playerIds && t.id == id
  {
    set t | t in teams && playerId in t.playerIds :: t.id
  }

  /** The matches in which one of those teams plays, in order. */
  function RelevantMatches(ms: seq<SessionMatch>, ids: set<string>): (r: seq<SessionMatch>)
    ensures |r| <= |ms|
    ensures forall m :: m in r <==> m in ms && (m.teamA in ids || m.teamB in ids)
    ensures forall m :: multiset(r)[m] == if m.teamA in ids || m.teamB in ids then multiset(ms)[m] else 0
  {
    if ms == [] then []
    else
      var last := ms[|ms| - 1];
      assert ms == ms[..|ms| - 1] + [last];
      RelevantMatches(ms[..|ms| - 1], ids) + (if last.teamA in ids || last.teamB in ids then [last] else [])
  }

  lemma AppendAssoc<T>(a: seq<T>, b: seq<T>, c: seq<T>)
    ensures a + (b + c) == (a + b) + c
  {
  }

  /** The filter keeps order: filtering two runs of matches one after the other is filtering each. */
  lemma {:induction false} RelevantMatchesAppend(xs: seq<SessionMatch>, ys: seq<SessionMatch>, ids: set<string>)
    ensures RelevantMatches(xs + ys, ids) == RelevantMatches(xs, ids) + RelevantMatches(ys, ids)
  {
    if ys == [] {
      assert xs + ys == xs;
    } else {
      var init, last := ys[..|ys| - 1], ys[|ys| - 1];
      var tail := if last.teamA in ids || last.teamB in ids then [last] else [];
      assert (xs + ys)[..|xs + ys| - 1] == xs + init && (xs + ys)[|xs + ys| - 1] == last;
      assert RelevantMatches(xs + ys, ids) == RelevantMatches(xs + init, ids) + tail;
      assert RelevantMatches(ys, ids) == RelevantMatches(init, ids) + tail;
      RelevantMatchesAppend(xs, init, ids);
      var fx, fi := RelevantMatches(xs, ids), RelevantMatches(init, ids);
      AppendAssoc(fx, fi, tail);
    }
  }

  /** `player_ids.filter(id => id !== playerId)`. */
  function Without(ids: seq<string>, playerId: string): (r: seq<string>)
    ensures |r| <= |ids|
    ensures forall id :: id in r <==> id in ids && id != playerId
    ensures forall id :: id != playerId ==> multiset(r)[id] == multiset(ids)[id]
  {
    if ids == [] then []
    else
      var last := ids[|ids| - 1];
      assert ids == ids[..|ids| - 1] + [last];
      Without(ids[..|ids| - 1], playerId) + (if last != playerId then [last] else [])
  }

  // ---------------- How one match counts ----------------

  function Winner(scoreA: int, scoreB: int): (w: Side)
    ensures w == A <==> scoreA > scoreB
    ensures w == B <==> scoreB > scoreA
  {
    if scoreA > scoreB then A else if scoreB > scoreA then B else Draw
  }

  /**
   * The loop body of both queries for one match: skipped without both
   * scores, without both teams, or when the player is on neither side;
   * otherwise played, won when the player's side won, lost when the other
   * side won, neither on a draw, with the other players of the player's side.
   */
  function Judge(m: SessionMatch, teamById: map<string, SessionTeam>, playerId: string): (c: Counted)
    ensures m.scoreA.None? || m.scoreB.None? || m.teamA !in teamById || m.teamB !in teamById ==> c == Skipped
    ensures c.Played? <==> m.scoreA.Some? && m.scoreB.Some? && m.teamA in teamById && m.teamB in teamById &&
                           (playerId in teamById[m.teamA].playerIds || playerId in teamById[m.teamB].playerIds)
    ensures c.Played? ==> (c.won.None? <==> m.scoreA.value == m.scoreB.value)
    ensures c.Played? ==> (c.won == Some(true) <==>
                             (m.scoreA.value > m.scoreB.value && playerId in teamById[m.teamA].playerIds) ||
                             (m.scoreB.value > m.scoreA.value && playerId in teamById[m.teamB].playerIds))
    ensures c.Played? ==> playerId !in c.mates
    ensures c.Played? ==>
      var side := if playerId in teamById[m.teamA].playerIds then teamById[m.teamA] else teamById[m.teamB];
      c.mates == Without(side.playerIds, playerId)
  {
    if m.scoreA.None? || m.scoreB.None? then Skipped
    else if m.teamA !in teamById || m.teamB !in teamById then Skipped
    else
      var teamA, teamB := teamById[m.teamA], teamById[m.teamB];
      var winner := Winner(m.scoreA.value, m.scoreB.value);
      var inA, inB := playerId in teamA.playerIds, playerId in teamB.playerIds;
      if !inA && !inB then Skipped
      else
        var won :=
          if winner == A && inA then Some(true)
          else if winner == B && inB then Some(true)
          else if winner == A && inB then Some(false)
          else if winner == B && inA then Some(false)
          else None;
        Played(won, Without(if inA then teamA.playerIds else teamB.playerIds, playerId))
  }

  /** Each match as it counts for the player. */
  function Judged(ms: seq<SessionMatch>, teamById: map<string, SessionTeam>, playerId: string): (cs: seq<Counted>)
    ensures |cs| == |ms| && forall k :: 0 <= k < |ms| ==> cs[k] == Judge(ms[k], teamById, playerId)
  {
    seq(|ms|, k requires 0 <= k < |ms| => Judge(ms[k], teamById, playerId))
  }

  /** The matches the queries walk through for a player: judged among the relevant ones. */
  function MatchesOf(allTeams: seq<SessionTeam>, allMatches: seq<SessionMatch>, playerId: string): seq<Counted>
  {
    Judged(RelevantMatches(allMatches, PlayerTeamIds(allTeams, playerId)), TeamsById(allTeams), playerId)
  }

  // ---------------- Totals ----------------

  /** One more match with result won. */
  function Count(s: Stat, won: Option<bool>): Stat
  {
    Stat(s.played + 1, s.wins + (if won == Some(true) then 1 else 0), s.losses + (if won == Some(false) then 1 else 0))
  }

  /** played, wins and losses over the counted matches; a match is at most one of won and lost. */
  function Tally(cs: seq<Counted>): (s: Stat)
    ensures s.wins + s.losses <= s.played <= |cs|
  {
    if cs == [] then Stat(0, 0, 0)
    else
      var prev := Tally(cs[..|cs| - 1]);
      match cs[|cs| - 1]
      case Skipped => prev
      case Played(won, _) => Count(prev, won)
  }

  /** wins / played, 0 when nothing was played. */
  function Winrate(wins: nat, played: nat): (r: real)
    ensures played == 0 ==> r == 0.0
    ensures played > 0 ==> r * played as real == wins as real
    ensures wins <= played ==> 0.0 <= r <= 1.0
  {
    if played > 0 then wins as real / played as real else 0.0
  }

  // ---------------- Teammates ----------------

  /** Each teammate of each counted match, with that match's result, in loop order. */
  function Credits(cs: seq<Counted>): seq<(string, Option<bool>)>
  {
    if cs == [] then []
    else
      Credits(cs[..|cs| - 1]) +
      match cs[|cs| - 1]
      case Skipped => []
      case Played(won, mates) => CreditsOf(mates, won)
  }

  function CreditsOf(mates: seq<string>, won: Option<bool>): (cr: seq<(string, Option<bool>)>)
    ensures |cr| == |mates| && forall k :: 0 <= k < |mates| ==> cr[k] == (mates[k], won)
  {
    seq(|mates|, k requires 0 <= k < |mates| => (mates[k], won))
  }

  /** The counters of one teammate over the credits. */
  function TogetherIn(cr: seq<(string, Option<bool>)>, id: string): (s: Stat)
    ensures s.wins + s.losses <= s.played <= |cr|
  {
    if cr == [] then Stat(0, 0, 0)
    else
      var prev := TogetherIn(cr[..|cr| - 1], id);
      if cr[|cr| - 1].0 == id then Count(prev, cr[|cr| - 1].1) else prev
  }

  /** The teammates' ids in the order the Map first met them. */
  function FirstSeen(cr: seq<(string, Option<bool>)>): (ids: seq<string>)
    ensures forall id :: id in ids <==> exists k :: 0 <= k < |cr| && cr[k].0 == id
  {
    if cr == [] then []
    else
      var prev := FirstSeen(cr[..|cr| - 1]);
      var id := cr[|cr| - 1].0;
      if id in prev then prev else prev + [id]
  }

  /** `mate?.name ?? "Inconnu"`: the fetched name, when the player was found. */
  function NameOf(names: map<string, string>, id: string): (name: string)
    ensures id in names ==> name == names[id]
    ensures id !in names ==> name == "Inconnu"
  {
    if id in names then names[id] else "Inconnu"
  }

  function MateRowOf(cr: seq<(string, Option<bool>)>, names: map<string, string>, id: string): (row: MateRow)
    ensures row.playerId == id
  {
    var s := TogetherIn(cr, id);
    MateRow(id, NameOf(names, id), s.played, s.wins, s.losses, Winrate(s.wins, s.played))
  }

  /** `teammatesResult`, in Map key order. */
  function MateRows(cr: seq<(string, Option<bool>)>, names: map<string, string>): (rows: seq<MateRow>)
    ensures |rows| == |FirstSeen(cr)|
    ensures forall k :: 0 <= k < |rows| ==> rows[k] == MateRowOf(cr, names, FirstSeen(cr)[k])
  {
    var ids := FirstSeen(cr);
    seq(|ids|, k requires 0 <= k < |ids| => MateRowOf(cr, names, ids[k]))
  }

  function WinrateOf(r: MateRow): real { r.winrateTogether }

  function LosingRateOf(r: MateRow): real { -r.winrateTogether }

  /** A good teammate: at least 3 matches together and a winrate of at least 0.6. */
  predicate IsGood(r: MateRow)
    ensures IsGood(r) ==> r.playedTogether >= 3 && r.winrateTogether > 0.4
  {
    r.playedTogether >= 3 && r.winrateTogether >= 0.6
  }

  /** A bad teammate: at least 3 matches together and a winrate of at most 0.4; never also good. */
  predicate IsBad(r: MateRow)
    ensures IsBad(r) ==> r.playedTogether >= 3 && !IsGood(r)
  {
    r.playedTogether >= 3 && r.winrateTogether <= 0.4
  }

  /** `Array.prototype.filter`. */
  function Keep(s: seq<MateRow>, p: MateRow -> bool): (r: seq<MateRow>)
    ensures |r| <= |s|
    ensures forall x :: x in r <==> x in s && p(x)
    ensures forall x :: p(x) ==> multiset(r)[x] == multiset(s)[x]
  {
    if s == [] then []
    else
      var last := s[|s| - 1];
      assert s == s[..|s| - 1] + [last];
      Keep(s[..|s| - 1], p) + (if p(last) then [last] else [])
  }

  /**
   * The result of `playerStatsWithTeammates` for the counted matches: the
   * summary, every teammate sorted by descending winrate, the good ones
   * sorted the same way and the bad ones by ascending winrate.
   */
  function ReportOf(playerId: string, cs: seq<Counted>, names: map<string, string>): Report
  {
    var s := Tally(cs);
    var rows := MateRows(Credits(cs), names);
    Report(playerId, Summary(s.played, s.wins, s.losses, Winrate(s.wins, s.played)),
           SortDesc(rows, WinrateOf),
           SortDesc(Keep(rows, IsGood), WinrateOf),
           SortDesc(Keep(rows, IsBad), LosingRateOf))
  }

  /** The early return for a player in no team. */
  function NoReport(playerId: string): Report
  {
    Report(playerId, Summary(0, 0, 0, 0.0), [], [], [])
  }

  // ---------------- playerStatsWithTeammates ----------------

  /** The teammate Map and its key order once the credits cr have been counted. */
  ghost predicate Tracked(stats: map<string, Stat>, order: seq<string>, cr: seq<(string, Option<bool>)>)
  {
    order == FirstSeen(cr) &&
    (forall id :: id in stats <==> id in order) &&
    (forall id :: id in stats ==> stats[id] == TogetherIn(cr, id))
  }

  /** `teammatesResult` as the source builds it: one row per key of the Map, read from its counters. */
  function CounterRows(stats: map<string, Stat>, order: seq<string>, names: map<string, string>): (rows: seq<MateRow>)
    requires forall id :: id in order ==> id in stats
    ensures |rows| == |order| && forall k :: 0 <= k < |order| ==> rows[k].playerId == order[k]
  {
    seq(|order|, k requires 0 <= k < |order| =>
      var s := stats[order[k]];
      MateRow(order[k], NameOf(names, order[k]), s.played, s.wins, s.losses, Winrate(s.wins, s.played)))
  }

  /** Counters that track the credits give the rows computed from the credits themselves. */
  lemma CounterRowsMatch(stats: map<string, Stat>, order: seq<string>, cr: seq<(string, Option<bool>)>,
                         names: map<string, string>)
    requires Tracked(stats, order, cr)
    ensures (forall id :: id in order ==> id in stats) && CounterRows(stats, order, names) == MateRows(cr, names)
  {
  }

  /** A teammate never credited has all counters at 0. */
  lemma {:induction false} TogetherAbsent(cr: seq<(string, Option<bool>)>, id: string)
    requires forall k :: 0 <= k < |cr| ==> cr[k].0 != id
    ensures TogetherIn(cr, id) == Stat(0, 0, 0)
  {
    if cr != [] {
      TogetherAbsent(cr[..|cr| - 1], id);
    }
  }

  /** `ensureTeammate(id)` and one more match together keep the Map tracking the credits. */
  lemma CreditOne(stats: map<string, Stat>, order: seq<string>, cr: seq<(string, Option<bool>)>, id: string,
                  won: Option<bool>)
    requires Tracked(stats, order, cr)
    ensures Tracked(stats[id := Count(if id in stats then stats[id] else Stat(0, 0, 0), won)],
                    if id in stats then order else order + [id], cr + [(id, won)])
  {
    var after := cr + [(id, won)];
    assert after[..|cr|] == cr;
    if id !in stats {
      TogetherAbsent(cr, id);
    }
  }

  /** `ensureTeammate(id)`, then one more match together with id. */
  method CountMate(stats: map<string, Stat>, order: seq<string>, id: string, won: Option<bool>)
      returns (stats': map<string, Stat>, order': seq<string>)
    ensures stats' == stats[id := Count(if id in stats then stats[id] else Stat(0, 0, 0), won)]
    ensures order' == if id in stats then order else order + [id]
  {
    stats', order' := stats, order;
    if id !in stats' {
      order' := order' + [id];
      stats' := stats'[id := Stat(0, 0, 0)];
    }
    stats' := stats'[id := Count(stats'[id], won)];
  }

  lemma CreditsStep(cr: seq<(string, Option<bool>)>, mates: seq<string>, won: Option<bool>, j: nat)
    requires j < |mates|
    ensures cr + CreditsOf(mates[..j + 1], won) == cr + CreditsOf(mates[..j], won) + [(mates[j], won)]
  {
    assert CreditsOf(mates[..j + 1], won) == CreditsOf(mates[..j], won) + [(mates[j], won)];
  }

  /**
   * `ensureTeammate` and the counter updates for one counted match: every
   * teammate gets one more match together, with its result.
   */
  method CreditMates(stats: map<string, Stat>, order: seq<string>, mates: seq<string>, won: Option<bool>,
                     ghost cr: seq<(string, Option<bool>)>)
      returns (stats': map<string, Stat>, order': seq<string>)
    requires Tracked(stats, order, cr)
    ensures Tracked(stats', order', cr + CreditsOf(mates, won))
  {
    stats', order' := stats, order;
    assert cr + CreditsOf(mates[..0], won) == cr;
    for j := 0 to |mates|
      invariant Tracked(stats', order', cr + CreditsOf(mates[..j], won))
    {
      CreditsStep(cr, mates, won, j);
      CreditOne(stats', order', cr + CreditsOf(mates[..j], won), mates[j], won);
      stats', order' := CountMate(stats', order', mates[j], won);
    }
    assert mates[..|mates|] == mates;
  }

  /** One more match: its verdict adds to the totals and its teammates to the credits. */
  lemma NextMatch(ms: seq<SessionMatch>, n: nat, teamById: map<string, SessionTeam>, playerId: string)
    requires n < |ms|
    ensures var cs, c := Judged(ms[..n], teamById, playerId), Judge(ms[n], teamById, playerId);
      Tally(Judged(ms[..n + 1], teamById, playerId)) == (if c.Played? then Count(Tally(cs), c.won) else Tally(cs)) &&
      (c.Played? ==> Credits(Judged(ms[..n + 1], teamById, playerId)) == Credits(cs) + CreditsOf(c.mates, c.won)) &&
      (c.Skipped? ==> Credits(Judged(ms[..n + 1], teamById, playerId)) == Credits(cs))
  {
    var cs, c := Judged(ms[..n], teamById, playerId), Judge(ms[n], teamById, playerId);
    assert Judged(ms[..n + 1], teamById, playerId) == cs + [c];
    assert (cs + [c])[..|cs|] == cs;
    if c.Skipped? {
      assert Credits(cs + [c]) == Credits(cs) + [];
    }
  }

  /**
   * `playerStatsWithTeammates`: the early return when the player is in no
   * team; otherwise the loop over the relevant matches, then the winrates
   * and the teammate lists.
   */
  method PlayerStatsWithTeammates(playerId: string, allTeams: seq<SessionTeam>, allMatches: seq<SessionMatch>,
                                  names: map<string, string>)
      returns (report: Report)
    ensures report == ReportOf(playerId, MatchesOf(allTeams, allMatches, playerId), names)
  {
    var playerTeamIds := PlayerTeamIds(allTeams, playerId);
    if playerTeamIds == {} {
      NoTeamNoReport(playerId, allTeams, allMatches, names);
      return NoReport(playerId);
    }
    var teamById := TeamsById(allTeams);
    var matches := RelevantMatches(allMatches, playerTeamIds);
    var playerStat := Stat(0, 0, 0);
    var stats: map<string, Stat> := map[];
    var order: seq<string> := [];
    for n := 0 to |matches|
      invariant playerStat == Tally(Judged(matches[..n], teamById, playerId))
      invariant Tracked(stats, order, Credits(Judged(matches[..n], teamById, playerId)))
    {
      NextMatch(matches, n, teamById, playerId);
      ghost var before, after := Credits(Judged(matches[..n], teamById, playerId)), Credits(Judged(matches[..n + 1], teamById, playerId));
      var c := Judge(matches[n], teamById, playerId);
      if c.Played? {
        playerStat := Count(playerStat, c.won);
        stats, order := CreditMates(stats, order, c.mates, c.won, before);
        assert after == before + CreditsOf(c.mates, c.won);
      } else {
        assert after == before;
      }
    }
    assert matches[..|matches|] == matches;
    CounterRowsMatch(stats, order, Credits(Judged(matches, teamById, playerId)), names);
    var rows := CounterRows(stats, order, names);
    report := Report(playerId, Summary(playerStat.played, playerStat.wins, playerStat.losses,
                                       Winrate(playerStat.wins, playerStat.played)),
                     SortDesc(rows, WinrateOf),
                     SortDesc(Keep(rows, IsGood), WinrateOf),
                     SortDesc(Keep(rows, IsBad), LosingRateOf));
  }

  // ---------------- allPlayersStats ----------------

  /**
   * The loop body of `allPlayersStats` for one match: the same skips, then
   * one more played, and a win or a loss unless it was a draw.
   */
  method TallyMatch(m: SessionMatch, teamById: map<string, SessionTeam>, playerId: string, s: Stat)
      returns (s': Stat)
    ensures var c := Judge(m, teamById, playerId); s' == if c.Played? then Count(s, c.won) else s
  {
    s' := s;
    if m.scoreA.None? || m.scoreB.None? {
      return;
    }
    if m.teamA !in teamById || m.teamB !in teamById {
      return;
    }
    var teamA, teamB := teamById[m.teamA], teamById[m.teamB];
    var winner := Winner(m.scoreA.value, m.scoreB.value);
    var inA, inB := playerId in teamA.playerIds, playerId in teamB.playerIds;
    if !inA && !inB {
      return;
    }
    var played, wins, losses := s.played + 1, s.wins, s.losses;
    if winner == A && inA {
      wins := wins + 1;
    } else if winner == B && inB {
      wins := wins + 1;
    } else if winner == A && inB {
      losses := losses + 1;
    } else if winner == B && inA {
      losses := losses + 1;
    }
    s' := Stat(played, wins, losses);
  }

  /**
   * The loop of `allPlayersStats` for one player: the early zero row for a
   * player in no team, otherwise played, wins and losses over the relevant
   * matches, and the winrate.
   */
  method PlayerRowFor(player: PlayerDoc, allTeams: seq<SessionTeam>, allMatches: seq<SessionMatch>)
      returns (row: PlayerRow)
    ensures row == RowOf(player, MatchesOf(allTeams, allMatches, player.id))
  {
    var playerTeamIds := PlayerTeamIds(allTeams, player.id);
    if playerTeamIds == {} {
      NoTeamNoMatch(player.id, allTeams, allMatches);
      return PlayerRow(player.id, player.name, 0, 0, 0, 0.0);
    }
    var matches := RelevantMatches(allMatches, playerTeamIds);
    var s := Stat(0, 0, 0);
    var teamById := TeamsById(allTeams);
    for n := 0 to |matches|
      invariant s == Tally(Judged(matches[..n], teamById, player.id))
    {
      NextMatch(matches, n, teamById, player.id);
      s := TallyMatch(matches[n], teamById, player.id, s);
    }
    assert matches[..|matches|] == matches;
    row := PlayerRow(player.id, player.name, s.played, s.wins, s.losses, Winrate(s.wins, s.played));
  }

  function RowOf(player: PlayerDoc, cs: seq<Counted>): (row: PlayerRow)
    ensures row.playerId == player.id && row.played == Tally(cs).played
  {
    var s := Tally(cs);
    PlayerRow(player.id, player.name, s.played, s.wins, s.losses, Winrate(s.wins, s.played))
  }

  function PlayerWinrate(r: PlayerRow): real { r.winrate }

  /** `allPlayersStats`: one row per player, then sorted by descending winrate. */
  method AllPlayersStats(players: seq<PlayerDoc>, allTeams: seq<SessionTeam>, allMatches: seq<SessionMatch>)
      returns (rows: seq<PlayerRow>)
    ensures rows == SortDesc(RowsOf(players, allTeams, allMatches), PlayerWinrate)
  {
    var unsorted: seq<PlayerRow> := [];
    for i := 0 to |players|
      invariant unsorted == RowsOf(players[..i], allTeams, allMatches)
    {
      var row := PlayerRowFor(players[i], allTeams, allMatches);
      unsorted := unsorted + [row];
    }
    assert players[..|players|] == players;
    rows := SortDesc(unsorted, PlayerWinrate);
  }

  function RowsOf(players: seq<PlayerDoc>, allTeams: seq<SessionTeam>, allMatches: seq<SessionMatch>): (rows: seq<PlayerRow>)
    ensures |rows| == |players|
    ensures forall i :: 0 <= i < |players| ==> rows[i] == RowOf(players[i], MatchesOf(allTeams, allMatches, players[i].id))
  {
    seq(|players|, i requires 0 <= i < |players| => RowOf(players[i], MatchesOf(allTeams, allMatches, players[i].id)))
  }

  // ---------------- Properties ----------------

  /** With no team of the player, no match is relevant. */
  lemma {:induction false} NoneRelevant(ms: seq<SessionMatch>)
    ensures RelevantMatches(ms, {}) == []
  {
    if ms != [] {
      NoneRelevant(ms[..|ms| - 1]);
    }
  }

  /** A player in no team has no counted match. */
  lemma NoTeamNoMatch(playerId: string, allTeams: seq<SessionTeam>, allMatches: seq<SessionMatch>)
    requires PlayerTeamIds(allTeams, playerId) == {}
    ensures MatchesOf(allTeams, allMatches, playerId) == []
  {
    NoneRelevant(allMatches);
  }

  /** The early return of `playerStatsWithTeammates` is what the loop would have given. */
  lemma NoTeamNoReport(playerId: string, allTeams: seq<SessionTeam>, allMatches: seq<SessionMatch>,
                       names: map<string, string>)
    requires PlayerTeamIds(allTeams, playerId) == {}
    ensures ReportOf(playerId, MatchesOf(allTeams, allMatches, playerId), names) == NoReport(playerId)
  {
    NoTeamNoMatch(playerId, allTeams, allMatches);
  }

  /** A teammate is never the player: the player's own id is filtered out of every team. */
  lemma {:induction false} CreditsExclude(cs: seq<Counted>, playerId: string)
    requires forall k :: 0 <= k < |cs| && cs[k].Played? ==> playerId !in cs[k].mates
    ensures forall k :: 0 <= k < |Credits(cs)| ==> Credits(cs)[k].0 != playerId
  {
    if cs != [] {
      var prev := cs[..|cs| - 1];
      CreditsExclude(prev, playerId);
      assert cs == prev + [cs[|cs| - 1]];
    }
  }

  /** Each teammate appears once in the Map's key order. */
  lemma {:induction false} FirstSeenDistinct(cr: seq<(string, Option<bool>)>)
    ensures forall i, j :: 0 <= i < j < |FirstSeen(cr)| ==> FirstSeen(cr)[i] != FirstSeen(cr)[j]
  {
    if cr != [] {
      FirstSeenDistinct(cr[..|cr| - 1]);
    }
  }

  /** The teammate lists never hold the player, and hold each teammate once. */
  lemma TeammatesExcludePlayer(playerId: string, allTeams: seq<SessionTeam>, allMatches: seq<SessionMatch>,
                               names: map<string, string>)
    ensures var report := ReportOf(playerId, MatchesOf(allTeams, allMatches, playerId), names);
      (forall r :: r in report.teammates ==> r.playerId != playerId) &&
      forall i, j :: 0 <= i < j < |report.teammates| ==> report.teammates[i].playerId != report.teammates[j].playerId
  {
    var cs := MatchesOf(allTeams, allMatches, playerId);
    var cr := Credits(cs);
    var rows := MateRows(cr, names);
    CreditsExclude(cs, playerId);
    FirstSeenDistinct(cr);
    var sorted := SortDesc(rows, WinrateOf);
    forall r | r in sorted
      ensures r.playerId != playerId
    {
      assert r in multiset(rows);
      var k :| 0 <= k < |rows| && rows[k] == r;
      assert FirstSeen(cr)[k] in FirstSeen(cr);
    }
    forall i, j | 0 <= i < j < |sorted|
      ensures sorted[i].playerId != sorted[j].playerId
    {
      RowsDistinct(cr, names, sorted, i, j);
    }
  }

  /** Two positions of a rearrangement of the rows are two different teammates. */
  lemma RowsDistinct(cr: seq<(string, Option<bool>)>, names: map<string, string>, sorted: seq<MateRow>, i: nat, j: nat)
    requires multiset(sorted) == multiset(MateRows(cr, names))
    requires i < j < |sorted|
    ensures sorted[i].playerId != sorted[j].playerId
  {
    var rows := MateRows(cr, names);
    FirstSeenDistinct(cr);
    if sorted[i].playerId == sorted[j].playerId {
      assert sorted[i] in multiset(rows) && sorted[j] in multiset(rows);
      var a :| 0 <= a < |rows| && rows[a] == sorted[i];
      var b :| 0 <= b < |rows| && rows[b] == sorted[j];
      RowOnce(rows, a);
      TwiceIn(sorted, i, j);
      assert false;
    }
  }

  lemma TwiceIn(s: seq<MateRow>, i: nat, j: nat)
    requires i < j < |s| && s[i] == s[j]
    ensures multiset(s)[s[i]] >= 2
  {
    assert s == s[..i] + [s[i]] + s[i + 1..j] + [s[j]] + s[j + 1..];
  }

  /** Rows of distinct teammates are distinct values, so each occurs once. */
  lemma RowOnce(rows: seq<MateRow>, a: nat)
    requires a < |rows|
    requires forall i, j :: 0 <= i < j < |rows| ==> rows[i].playerId != rows[j].playerId
    ensures multiset(rows)[rows[a]] == 1
  {
    var x := rows[a];
    assert rows == rows[..a] + [x] + rows[a + 1..];
    assert x !in rows[..a];
    assert x !in rows[a + 1..];
  }

  /** One counted match adds at most one match together with a teammate listed at most once. */
  lemma {:induction false} TogetherBlock(cr: seq<(string, Option<bool>)>, mates: seq<string>, won: Option<bool>, id: string)
    requires multiset(mates)[id] <= 1
    ensures TogetherIn(cr + CreditsOf(mates, won), id) ==
              if id in mates then Count(TogetherIn(cr, id), won) else TogetherIn(cr, id)
  {
    if mates == [] {
      assert cr + CreditsOf(mates, won) == cr;
    } else {
      var init, last := mates[..|mates| - 1], mates[|mates| - 1];
      assert mates == init + [last];
      TogetherBlock(cr, init, won, id);
      var whole := cr + CreditsOf(mates, won);
      assert whole[..|whole| - 1] == cr + CreditsOf(init, won);
      if last == id {
        assert id !in init;
      }
    }
  }

  /** With nobody listed twice on a side, a teammate's counters stay within the player's. */
  lemma {:induction false} TogetherBounded(cs: seq<Counted>, id: string)
    requires forall k :: 0 <= k < |cs| && cs[k].Played? ==> multiset(cs[k].mates)[id] <= 1
    ensures TogetherIn(Credits(cs), id).played <= Tally(cs).played
    ensures TogetherIn(Credits(cs), id).wins <= Tally(cs).wins
    ensures TogetherIn(Credits(cs), id).losses <= Tally(cs).losses
  {
    if cs != [] {
      var prev, c := cs[..|cs| - 1], cs[|cs| - 1];
      assert forall k :: 0 <= k < |prev| ==> prev[k] == cs[k];
      TogetherBounded(prev, id);
      match c
      case Played(won, mates) =>
        assert Credits(cs) == Credits(prev) + CreditsOf(mates, won);
        assert Tally(cs) == Count(Tally(prev), won);
        TogetherBlock(Credits(prev), mates, won, id);
      case Skipped =>
        assert Credits(cs) == Credits(prev) + [];
        assert Credits(prev) + [] == Credits(prev);
        assert Tally(cs) == Tally(prev);
    }
  }

  /** The teammates of a counted match list nobody twice when no team does. */
  lemma MatesOnce(playerId: string, allTeams: seq<SessionTeam>, allMatches: seq<SessionMatch>, id: string)
    requires forall t, x :: t in allTeams ==> multiset(t.playerIds)[x] <= 1
    ensures var cs := MatchesOf(allTeams, allMatches, playerId);
      forall k :: 0 <= k < |cs| && cs[k].Played? ==> multiset(cs[k].mates)[id] <= 1
  {
    var cs := MatchesOf(allTeams, allMatches, playerId);
    forall k | 0 <= k < |cs| && cs[k].Played?
      ensures multiset(cs[k].mates)[id] <= 1
    {
      if id == playerId {
        assert id !in cs[k].mates;
      }
    }
  }

  /**
   * When no team lists a player twice, each teammate's counters are within
   * the player's: never more matches, wins or losses together than alone.
   */
  lemma TeammatesBounded(playerId: string, allTeams: seq<SessionTeam>, allMatches: seq<SessionMatch>,
                         names: map<string, string>)
    requires forall t, x :: t in allTeams ==> multiset(t.playerIds)[x] <= 1
    ensures var report := ReportOf(playerId, MatchesOf(allTeams, allMatches, playerId), names);
      forall r :: r in report.teammates ==>
        r.playedTogether <= report.summary.played && r.winsTogether <= report.summary.wins &&
        r.lossesTogether <= report.summary.losses
  {
    var cs := MatchesOf(allTeams, allMatches, playerId);
    var rows := MateRows(Credits(cs), names);
    forall r | r in SortDesc(rows, WinrateOf)
      ensures r.playedTogether <= Tally(cs).played && r.winsTogether <= Tally(cs).wins && r.lossesTogether <= Tally(cs).losses
    {
      assert r in multiset(rows);
      var k :| 0 <= k < |rows| && rows[k] == r;
      MatesOnce(playerId, allTeams, allMatches, r.playerId);
      TogetherBounded(cs, r.playerId);
    }
  }

  lemma MateRowRates(cr: seq<(string, Option<bool>)>, names: map<string, string>)
    ensures forall k :: 0 <= k < |MateRows(cr, names)| ==>
      var r := MateRows(cr, names)[k];
      r.winrateTogether == Winrate(r.winsTogether, r.playedTogether) && 0.0 <= r.winrateTogether <= 1.0
  {
  }

  /**
   * Every teammate, by descending winrate; each winrate is wins over
   * matches together.
   */
  lemma TeammateRates(playerId: string, cs: seq<Counted>, names: map<string, string>)
    ensures var report := ReportOf(playerId, cs, names);
      (forall r :: r in report.teammates ==> r.winrateTogether == Winrate(r.winsTogether, r.playedTogether) &&
                                              0.0 <= r.winrateTogether <= 1.0) &&
      (forall i, j :: 0 <= i < j < |report.teammates| ==>
         report.teammates[i].winrateTogether >= report.teammates[j].winrateTogether)
  {
    var rows := MateRows(Credits(cs), names);
    MateRowRates(Credits(cs), names);
    forall r | r in SortDesc(rows, WinrateOf)
      ensures r.winrateTogether == Winrate(r.winsTogether, r.playedTogether) && 0.0 <= r.winrateTogether <= 1.0
    {
      assert r in multiset(rows);
    }
  }

  /**
   * The good teammates (at least 3 matches together and a winrate of at
   * least 0.6) by descending winrate, and the bad ones (at least 3 and at
   * most 0.4) by ascending winrate.
   */
  lemma TeammateLists(playerId: string, cs: seq<Counted>, names: map<string, string>)
    ensures var report := ReportOf(playerId, cs, names);
      (forall r :: r in report.goodTeammates <==> r in report.teammates && IsGood(r)) &&
      (forall i, j :: 0 <= i < j < |report.goodTeammates| ==>
         report.goodTeammates[i].winrateTogether >= report.goodTeammates[j].winrateTogether) &&
      (forall r :: r in report.badTeammates <==> r in report.teammates && IsBad(r)) &&
      (forall i, j :: 0 <= i < j < |report.badTeammates| ==>
         report.badTeammates[i].winrateTogether <= report.badTeammates[j].winrateTogether)
  {
    var rows := MateRows(Credits(cs), names);
    var report := ReportOf(playerId, cs, names);
    forall r
      ensures r in report.goodTeammates <==> r in report.teammates && IsGood(r)
    {
      assert r in report.goodTeammates <==> r in multiset(Keep(rows, IsGood));
      assert r in report.teammates <==> r in multiset(rows);
    }
    forall r
      ensures r in report.badTeammates <==> r in report.teammates && IsBad(r)
    {
      assert r in report.badTeammates <==> r in multiset(Keep(rows, IsBad));
      assert r in report.teammates <==> r in multiset(rows);
    }
  }

  /** r is p's row, with the counters of p's summary in `playerStatsWithTeammates`. */
  predicate SummaryRow(r: PlayerRow, p: PlayerDoc, allTeams: seq<SessionTeam>, allMatches: seq<SessionMatch>,
                       names: map<string, string>)
  {
    var summary := ReportOf(p.id, MatchesOf(allTeams, allMatches, p.id), names).summary;
    r.playerId == p.id && r.playerName == p.name &&
    r.played == summary.played && r.wins == summary.wins && r.losses == summary.losses &&
    r.winrate == summary.winrate && r.wins + r.losses <= r.played
  }

  /**
   * `allPlayersStats` gives one row per player, sorted by descending
   * winrate, and each row counts the player's matches by the same rule as
   * the summary of `playerStatsWithTeammates`.
   */
  lemma AllPlayersTable(players: seq<PlayerDoc>, allTeams: seq<SessionTeam>, allMatches: seq<SessionMatch>,
                        names: map<string, string>)
    ensures var rows := SortDesc(RowsOf(players, allTeams, allMatches), PlayerWinrate);
      |rows| == |players| &&
      (forall i, j :: 0 <= i < j < |rows| ==> rows[i].winrate >= rows[j].winrate) &&
      forall r :: r in rows ==> exists p :: p in players && SummaryRow(r, p, allTeams, allMatches, names)
  {
    TableRows(players, allTeams, allMatches, names);
  }

  /** Every row of the sorted table is the summary row of one of the players. */
  lemma TableRows(players: seq<PlayerDoc>, allTeams: seq<SessionTeam>, allMatches: seq<SessionMatch>,
                  names: map<string, string>)
    ensures forall r :: r in SortDesc(RowsOf(players, allTeams, allMatches), PlayerWinrate) ==>
              exists p :: p in players && SummaryRow(r, p, allTeams, allMatches, names)
  {
    var unsorted := RowsOf(players, allTeams, allMatches);
    forall r | r in SortDesc(unsorted, PlayerWinrate)
      ensures exists p :: p in players && SummaryRow(r, p, allTeams, allMatches, names)
    {
      assert r in multiset(unsorted);
      var i :| 0 <= i < |unsorted| && unsorted[i] == r;
      RowIsSummary(players[i], allTeams, allMatches, names);
    }
  }

  /** A player's table row carries the counters of that player's summary. */
  lemma RowIsSummary(p: PlayerDoc, allTeams: seq<SessionTeam>, allMatches: seq<SessionMatch>, names: map<string, string>)
    ensures SummaryRow(RowOf(p, MatchesOf(allTeams, allMatches, p.id)), p, allTeams, allMatches, names)
  {
  }
}
