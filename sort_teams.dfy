// `TableParser.sortTeams` (utils/scores_calculation/table_parser.js): order
// the teams of a match by score minus penalty, give every team its
// standing, order each team's players by their race-score total minus
// penalty, and give every player a place inside the team and an overall
// standing in the match. The parser and the board reader both use it.
module TeamRanking {
  import opened Wrappers
  import opened Records
  import opened Ranking

  function TableOrder(t: Team): int { t.tableOrder }

  function Range(n: nat): (r: seq<int>)
    ensures |r| == n && forall i :: 0 <= i < n ==> r[i] == i
  {
    if n == 0 then [] else Range(n - 1) + [n - 1]
  }

  /** Record on each team its position in the table as written. */
  method RecordTableOrder(teams: seq<Team>) returns (r: seq<Team>)
    ensures |r| == |teams| && forall i :: 0 <= i < |teams| ==> r[i] == teams[i].(tableOrder := i)
  {
    r := [];
    var i := 0;
    while i < |teams|
      invariant 0 <= i <= |teams| && |r| == i
      invariant forall k :: 0 <= k < i ==> r[k] == teams[k].(tableOrder := k)
    {
      r := r + [teams[i].(tableOrder := i)];
      i := i + 1;
    }
  }

  /** Number the players of a team from 1 in their current order. */
  method NumberPlayers(players: seq<Player>) returns (r: seq<Player>)
    ensures |r| == |players| && forall j :: 0 <= j < |players| ==> r[j] == players[j].(inTeamPosition := j + 1)
  {
    r := [];
    var j := 0;
    while j < |players|
      invariant 0 <= j <= |players| && |r| == j
      invariant forall k :: 0 <= k < j ==> r[k] == players[k].(inTeamPosition := k + 1)
    {
      r := r + [players[j].(inTeamPosition := j + 1)];
      j := j + 1;
    }
  }

  /** `t` is `o` after the per-team pass: players sorted by net score and numbered from 1. */
  predicate RankedFrom(t: Team, o: Team)
  {
    var ps := SortDesc(o.players, PlayerNet);
    t == o.(tablePlayersOrder := Names(o.players), position := t.position, players := t.players)
    && |t.players| == |ps| && forall j :: 0 <= j < |ps| ==> t.players[j] == ps[j].(inTeamPosition := j + 1)
  }

  /** The team the per-team pass makes of `o` at standing `rank`. */
  function RankedTeam(o: Team, rank: nat): Team
  {
    var ps := SortDesc(o.players, PlayerNet);
    o.(tablePlayersOrder := Names(o.players), position := rank,
       players := seq(|ps|, j requires 0 <= j < |ps| => ps[j].(inTeamPosition := j + 1)))
  }

  lemma RankedTeamFrom(o: Team, rank: nat)
    ensures RankedFrom(RankedTeam(o, rank), o) && RankedTeam(o, rank).position == rank
  {
  }

  /** One step of the per-team pass. */
  method RankTeam(team: Team, rank: nat) returns (t: Team)
    ensures t == RankedTeam(team, rank)
  {
    var players := NumberPlayers(SortDesc(team.players, PlayerNet));
    t := team.(tablePlayersOrder := Names(team.players), position := rank, players := players);
  }

  /**
   * The per-team pass over the sorted teams: remember the players' table
   * order, give the team its standing, sort its players and number them.
   */
  method RankTeams(sorted: seq<Team>) returns (r: seq<Team>)
    ensures |r| == |sorted|
    ensures forall i :: 0 <= i < |r| ==> RankedFrom(r[i], sorted[i])
    ensures SortedDesc(sorted, TeamNet) ==>
      forall i :: 0 <= i < |r| ==> r[i].position == 1 + CountAbove(sorted, TeamNet, TeamNet(sorted[i]))
  {
    var ranks := CompetitionRanks(Keys(sorted, TeamNet));
    r := RankAll(sorted, ranks);
    forall k | 0 <= k < |r| ensures RankedFrom(r[k], sorted[k]) && r[k].position == ranks[k] {
      RankedTeamFrom(sorted[k], ranks[k]);
    }
    if SortedDesc(sorted, TeamNet) {
      TeamRanksCount(sorted, ranks);
    }
  }

  /** The loop of the per-team pass: each team ranked at its standing. */
  method RankAll(sorted: seq<Team>, ranks: seq<nat>) returns (r: seq<Team>)
    requires |ranks| == |sorted|
    ensures |r| == |sorted| && forall k :: 0 <= k < |sorted| ==> r[k] == RankedTeam(sorted[k], ranks[k])
  {
    r := [];
    var i := 0;
    while i < |sorted|
      invariant 0 <= i <= |sorted| && |r| == i
      invariant forall k :: 0 <= k < i ==> r[k] == RankedTeam(sorted[k], ranks[k])
    {
      var team := RankTeam(sorted[i], ranks[i]);
      r := r + [team];
      i := i + 1;
    }
  }

  /** On teams sorted by net score, the competition ranks of their keys count the teams above. */
  lemma TeamRanksCount(sorted: seq<Team>, ranks: seq<nat>)
    requires SortedDesc(sorted, TeamNet) && |ranks| == |sorted|
    requires SortedDesc(Keys(sorted, TeamNet), Id) ==>
      forall i :: 0 <= i < |sorted| ==> ranks[i] == 1 + CountAbove(Keys(sorted, TeamNet), Id, Keys(sorted, TeamNet)[i])
    ensures forall i :: 0 <= i < |sorted| ==> ranks[i] == 1 + CountAbove(sorted, TeamNet, TeamNet(sorted[i]))
  {
    assert SortedDesc(Keys(sorted, TeamNet), Id);
    forall i | 0 <= i < |sorted| ensures ranks[i] == 1 + CountAbove(sorted, TeamNet, TeamNet(sorted[i])) {
      CountAboveKeys(sorted, TeamNet, TeamNet(sorted[i]));
    }
  }

  lemma {:induction false} InAllPlayers(teams: seq<Team>, i: nat, j: nat)
    requires i < |teams| && j < |teams[i].players|
    ensures teams[i].players[j] in AllPlayers(teams)
  {
    var init := teams[..|teams| - 1];
    if i < |teams| - 1 {
      InAllPlayers(init, i, j);
    }
    assert AllPlayers(teams) == AllPlayers(init) + teams[|teams| - 1].players;
  }

  /** Teams whose players agree, position by position, on name and net score list them alike. */
  lemma {:induction false} AllPlayersPointwise(a: seq<Team>, b: seq<Team>)
    requires |a| == |b|
    requires forall i :: 0 <= i < |a| ==> |a[i].players| == |b[i].players|
    requires forall i, j :: 0 <= i < |a| && 0 <= j < |a[i].players| ==>
      a[i].players[j].name == b[i].players[j].name && PlayerNet(a[i].players[j]) == PlayerNet(b[i].players[j])
    ensures |AllPlayers(a)| == |AllPlayers(b)|
    ensures forall k :: 0 <= k < |AllPlayers(a)| ==>
      AllPlayers(a)[k].name == AllPlayers(b)[k].name && PlayerNet(AllPlayers(a)[k]) == PlayerNet(AllPlayers(b)[k])
  {
    if a != [] {
      var n := |a|;
      var ai, bi := a[..n - 1], b[..n - 1];
      AllPlayersPointwise(ai, bi);
      var pa, pb := AllPlayers(a), AllPlayers(b);
      assert pa == AllPlayers(ai) + a[n - 1].players;
      assert pb == AllPlayers(bi) + b[n - 1].players;
      forall k | 0 <= k < |pa| ensures pa[k].name == pb[k].name && PlayerNet(pa[k]) == PlayerNet(pb[k]) {
        var m := |AllPlayers(ai)|;
        if k >= m {
          assert pa[k] == a[n - 1].players[k - m] && pb[k] == b[n - 1].players[k - m];
        }
      }
    }
  }

  /** Same-named players of a match with distinct names are the same player. */
  lemma SameName(all: seq<Player>, x: Player, y: Player)
    requires Distinct(Names(all)) && x in all && y in all && x.name == y.name
    ensures x == y
  {
    var a :| 0 <= a < |all| && all[a] == x;
    var b :| 0 <= b < |all| && all[b] == y;
    assert Names(all)[a] == Names(all)[b];
  }

  method CollectPlayers(teams: seq<Team>) returns (all: seq<Player>)
    ensures all == AllPlayers(teams)
  {
    all := [];
    var t := 0;
    while t < |teams|
      invariant 0 <= t <= |teams| && all == AllPlayers(teams[..t])
    {
      assert teams[..t + 1][..t] == teams[..t];
      all := all + teams[t].players;
      t := t + 1;
    }
    assert teams[..|teams|] == teams;
  }

  /** Each player's name mapped to the rank at its last occurrence in `sorted`. */
  method PositionsByName(sorted: seq<Player>, ranks: seq<nat>) returns (positions: map<string, nat>)
    requires |ranks| == |sorted|
    ensures forall m :: 0 <= m < |sorted| ==> sorted[m].name in positions
    ensures forall n :: n in positions ==> exists m :: 0 <= m < |sorted| && sorted[m].name == n && positions[n] == ranks[m]
  {
    positions := map[];
    var k := 0;
    while k < |sorted|
      invariant 0 <= k <= |sorted|
      invariant forall m :: 0 <= m < k ==> sorted[m].name in positions
      invariant forall n :: n in positions ==> exists m :: 0 <= m < k && sorted[m].name == n && positions[n] == ranks[m]
    {
      positions := positions[sorted[k].name := ranks[k]];
      k := k + 1;
    }
  }

  /**
   * The overall standings: all players of all teams sorted by net score,
   * ranked with shared positions, and looked up by name.
   */
  method OverallPositions(teams: seq<Team>) returns (positions: map<string, nat>)
    ensures forall i, j :: 0 <= i < |teams| && 0 <= j < |teams[i].players| ==> teams[i].players[j].name in positions
    ensures Distinct(Names(AllPlayers(teams))) ==>
      forall i, j :: 0 <= i < |teams| && 0 <= j < |teams[i].players| ==>
        positions[teams[i].players[j].name] == 1 + CountAbove(AllPlayers(teams), PlayerNet, PlayerNet(teams[i].players[j]))
  {
    var all := CollectPlayers(teams);
    var sorted := SortDesc(all, PlayerNet);
    SortDescSorted(all, PlayerNet);
    assert SortedDesc(Keys(sorted, PlayerNet), Id);
    var ranks := CompetitionRanks(Keys(sorted, PlayerNet));
    positions := PositionsByName(sorted, ranks);
    forall i, j | 0 <= i < |teams| && 0 <= j < |teams[i].players|
      ensures teams[i].players[j].name in positions
      ensures Distinct(Names(all)) ==>
        positions[teams[i].players[j].name] == 1 + CountAbove(all, PlayerNet, PlayerNet(teams[i].players[j]))
    {
      StandingOfPlayer(teams, i, j, sorted, ranks, positions);
    }
  }

  lemma StandingOfPlayer(teams: seq<Team>, i: nat, j: nat, sorted: seq<Player>, ranks: seq<nat>, positions: map<string, nat>)
    requires i < |teams| && j < |teams[i].players|
    requires sorted == SortDesc(AllPlayers(teams), PlayerNet)
    requires |ranks| == |sorted|
    requires forall m :: 0 <= m < |sorted| ==> ranks[m] == 1 + CountAbove(Keys(sorted, PlayerNet), Id, Keys(sorted, PlayerNet)[m])
    requires forall m :: 0 <= m < |sorted| ==> sorted[m].name in positions
    requires forall n :: n in positions ==> exists m :: 0 <= m < |sorted| && sorted[m].name == n && positions[n] == ranks[m]
    ensures teams[i].players[j].name in positions
    ensures Distinct(Names(AllPlayers(teams))) ==>
      positions[teams[i].players[j].name] == 1 + CountAbove(AllPlayers(teams), PlayerNet, PlayerNet(teams[i].players[j]))
  {
    var all := AllPlayers(teams);
    var q := teams[i].players[j];
    InAllPlayers(teams, i, j);
    assert q in multiset(sorted) by { assert q in multiset(all); }
    var m :| 0 <= m < |sorted| && sorted[m] == q;
    if Distinct(Names(all)) {
      var m' :| 0 <= m' < |sorted| && sorted[m'].name == q.name && positions[q.name] == ranks[m'];
      assert sorted[m'] in multiset(all) by { assert sorted[m'] in multiset(sorted); }
      SameName(all, sorted[m'], q);
      CountAboveKeys(sorted, PlayerNet, PlayerNet(q));
      CountAbovePermutation(sorted, all, PlayerNet, PlayerNet(q));
    }
  }

  method SetPositions(players: seq<Player>, positions: map<string, nat>) returns (r: seq<Player>)
    requires forall j :: 0 <= j < |players| ==> players[j].name in positions
    ensures |r| == |players| && forall j :: 0 <= j < |players| ==> r[j] == players[j].(position := positions[players[j].name])
  {
    r := [];
    var j := 0;
    while j < |players|
      invariant 0 <= j <= |players| && |r| == j
      invariant forall k :: 0 <= k < j ==> r[k] == players[k].(position := positions[players[k].name])
    {
      r := r + [players[j].(position := positions[players[j].name])];
      j := j + 1;
    }
  }

  /** Copy the overall standings onto the players of every team. */
  method AssignPositions(teams: seq<Team>, positions: map<string, nat>) returns (r: seq<Team>)
    requires forall i, j :: 0 <= i < |teams| && 0 <= j < |teams[i].players| ==> teams[i].players[j].name in positions
    ensures |r| == |teams|
    ensures forall i :: 0 <= i < |teams| ==> r[i] == teams[i].(players := r[i].players) && |r[i].players| == |teams[i].players|
    ensures forall i, j :: 0 <= i < |teams| && 0 <= j < |teams[i].players| ==>
      r[i].players[j] == teams[i].players[j].(position := positions[teams[i].players[j].name])
  {
    r := [];
    var i := 0;
    while i < |teams|
      invariant 0 <= i <= |teams| && |r| == i
      invariant forall k :: 0 <= k < i ==> r[k] == teams[k].(players := r[k].players) && |r[k].players| == |teams[k].players|
      invariant forall k, j :: 0 <= k < i && 0 <= j < |teams[k].players| ==>
        r[k].players[j] == teams[k].players[j].(position := positions[teams[k].players[j].name])
    {
      var players := SetPositions(teams[i].players, positions);
      r := r + [teams[i].(players := players)];
      i := i + 1;
    }
  }

  /** `t` is the input team `o` as `sortTeams` leaves it. */
  predicate FinalFrom(t: Team, o: Team)
  {
    var ps := SortDesc(o.players, PlayerNet);
    t.name == o.name && t.color == o.color && t.score == o.score && t.penalty == o.penalty
    && t.tablePlayersOrder == Names(o.players)
    && |t.players| == |ps|
    && forall j :: 0 <= j < |ps| ==> t.players[j] == ps[j].(inTeamPosition := j + 1, position := t.players[j].position)
  }

  lemma FinalFromStep(t: Team, ranked: Team, sorted: Team)
    requires RankedFrom(ranked, sorted)
    requires t == ranked.(players := t.players) && |t.players| == |ranked.players|
    requires forall j :: 0 <= j < |t.players| ==> t.players[j] == ranked.players[j].(position := t.players[j].position)
    ensures FinalFrom(t, sorted) && t.tableOrder == sorted.tableOrder && TeamNet(t) == TeamNet(sorted)
  {
  }

  /** `FinalFrom` looks only at what the table-order tag leaves alone. */
  lemma FinalFromUntagged(t: Team, o: Team, k: nat)
    requires FinalFrom(t, o.(tableOrder := k))
    ensures FinalFrom(t, o)
  {
  }

  /** Each team of a rearrangement of the tagged teams is the input team its tag names. */
  lemma TaggedMembers(teams: seq<Team>, tagged: seq<Team>, sorted: seq<Team>)
    requires |tagged| == |teams| && forall i :: 0 <= i < |teams| ==> tagged[i] == teams[i].(tableOrder := i)
    requires multiset(sorted) == multiset(tagged)
    ensures forall i :: 0 <= i < |sorted| ==>
      sorted[i].tableOrder < |teams| && sorted[i] == teams[sorted[i].tableOrder].(tableOrder := sorted[i].tableOrder)
  {
    forall i | 0 <= i < |sorted|
      ensures sorted[i].tableOrder < |teams| && sorted[i] == teams[sorted[i].tableOrder].(tableOrder := sorted[i].tableOrder)
    {
      assert sorted[i] in multiset(tagged) by { assert sorted[i] in multiset(sorted); }
    }
  }

  /** The tags of a rearrangement of the tagged teams are a rearrangement of the table positions. */
  lemma TaggedOrders(teams: seq<Team>, tagged: seq<Team>, sorted: seq<Team>)
    requires |tagged| == |teams| && forall i :: 0 <= i < |teams| ==> tagged[i] == teams[i].(tableOrder := i)
    requires multiset(sorted) == multiset(tagged)
    ensures multiset(Keys(sorted, TableOrder)) == multiset(Range(|teams|))
    ensures TagsIncreasing(tagged, TableOrder)
  {
    assert Keys(tagged, TableOrder) == Range(|teams|);
    KeysPermutation(sorted, tagged, TableOrder);
  }

  /** The first half of `sortTeams`: tag the teams with their table position and sort them by net score. */
  method OrderTeams(teams: seq<Team>) returns (sorted: seq<Team>)
    ensures |sorted| == |teams|
    ensures forall i :: 0 <= i < |sorted| ==>
      sorted[i].tableOrder < |teams| && sorted[i] == teams[sorted[i].tableOrder].(tableOrder := sorted[i].tableOrder)
    ensures multiset(Keys(sorted, TableOrder)) == multiset(Range(|teams|))
    ensures LexSortedDesc(sorted, TeamNet, TableOrder) && SortedDesc(sorted, TeamNet)
  {
    var tagged := RecordTableOrder(teams);
    sorted := SortDesc(tagged, TeamNet);
    TaggedMembers(teams, tagged, sorted);
    TaggedOrders(teams, tagged, sorted);
    SortDescLex(tagged, TeamNet, TableOrder);
    SortDescSorted(tagged, TeamNet);
  }

  /** The second half of `sortTeams`: standings of the sorted teams and of all players. */
  method StandTeams(sorted: seq<Team>) returns (r: seq<Team>)
    requires SortedDesc(sorted, TeamNet)
    ensures |r| == |sorted|
    ensures forall i :: 0 <= i < |r| ==>
      FinalFrom(r[i], sorted[i]) && r[i].tableOrder == sorted[i].tableOrder && TeamNet(r[i]) == TeamNet(sorted[i])
    ensures forall i :: 0 <= i < |r| ==> r[i].position == 1 + CountAbove(r, TeamNet, TeamNet(r[i]))
    ensures Distinct(Names(AllPlayers(r))) ==>
      forall i, j :: 0 <= i < |r| && 0 <= j < |r[i].players| ==>
        r[i].players[j].position == 1 + CountAbove(AllPlayers(r), PlayerNet, PlayerNet(r[i].players[j]))
  {
    var ranked := RankTeams(sorted);
    var positions := OverallPositions(ranked);
    r := AssignPositions(ranked, positions);
    forall i | 0 <= i < |r|
      ensures FinalFrom(r[i], sorted[i]) && r[i].tableOrder == sorted[i].tableOrder && TeamNet(r[i]) == TeamNet(sorted[i])
    {
      FinalFromStep(r[i], ranked[i], sorted[i]);
    }
    forall i | 0 <= i < |r| ensures r[i].position == 1 + CountAbove(r, TeamNet, TeamNet(r[i])) {
      CountAboveSameKeys(r, sorted, TeamNet, TeamNet(r[i]));
    }
    PlayerStandings(r, ranked, positions);
  }

  /** What `sortTeams` promises of the teams `r` it makes of `teams`. */
  predicate Standings(r: seq<Team>, teams: seq<Team>)
  {
    |r| == |teams|
    && multiset(Keys(r, TableOrder)) == multiset(Range(|teams|))
    && (forall i :: 0 <= i < |r| ==> 0 <= r[i].tableOrder < |teams| && FinalFrom(r[i], teams[r[i].tableOrder]))
    && LexSortedDesc(r, TeamNet, TableOrder)
    && (forall i :: 0 <= i < |r| ==> r[i].position == 1 + CountAbove(r, TeamNet, TeamNet(r[i])))
    && (Distinct(Names(AllPlayers(r))) ==>
          forall i, j :: 0 <= i < |r| && 0 <= j < |r[i].players| ==>
            r[i].players[j].position == 1 + CountAbove(AllPlayers(r), PlayerNet, PlayerNet(r[i].players[j])))
  }

  /**
   * `sortTeams`. The result lists the input teams (each remembers its
   * index in the input as `tableOrder`) ordered by score minus penalty,
   * ties in table order; each team's standing is one more than the number
   * of teams with a strictly higher net; each team's players are sorted
   * by race-score total minus penalty (ties in table order) and numbered
   * from 1; and, when player names are distinct, each player's overall
   * position is one more than the number of players in the match with a
   * strictly higher net.
   */
  method SortTeams(teams: seq<Team>) returns (r: seq<Team>)
    ensures Standings(r, teams)
  {
    var sorted := OrderTeams(teams);
    r := StandTeams(sorted);
    StandingsOf(teams, sorted, r);
  }

  /** The two halves of `sortTeams` together give its promise. */
  lemma StandingsOf(teams: seq<Team>, sorted: seq<Team>, r: seq<Team>)
    requires |sorted| == |teams|
    requires forall i :: 0 <= i < |sorted| ==>
      sorted[i].tableOrder < |teams| && sorted[i] == teams[sorted[i].tableOrder].(tableOrder := sorted[i].tableOrder)
    requires multiset(Keys(sorted, TableOrder)) == multiset(Range(|teams|))
    requires LexSortedDesc(sorted, TeamNet, TableOrder)
    requires |r| == |sorted|
    requires forall i :: 0 <= i < |r| ==>
      FinalFrom(r[i], sorted[i]) && r[i].tableOrder == sorted[i].tableOrder && TeamNet(r[i]) == TeamNet(sorted[i])
    requires forall i :: 0 <= i < |r| ==> r[i].position == 1 + CountAbove(r, TeamNet, TeamNet(r[i]))
    requires Distinct(Names(AllPlayers(r))) ==>
      forall i, j :: 0 <= i < |r| && 0 <= j < |r[i].players| ==>
        r[i].players[j].position == 1 + CountAbove(AllPlayers(r), PlayerNet, PlayerNet(r[i].players[j]))
    ensures Standings(r, teams)
  {
    forall i | 0 <= i < |r| ensures 0 <= r[i].tableOrder < |teams| && FinalFrom(r[i], teams[r[i].tableOrder]) {
      FinalFromUntagged(r[i], teams[sorted[i].tableOrder], sorted[i].tableOrder);
    }
    assert Keys(r, TableOrder) == Keys(sorted, TableOrder);
    LexSortedSameKeys(r, sorted, TeamNet, TableOrder);
  }

  lemma PlayerStandings(r: seq<Team>, ranked: seq<Team>, positions: map<string, nat>)
    requires |r| == |ranked|
    requires forall i :: 0 <= i < |r| ==> |r[i].players| == |ranked[i].players|
    requires forall i, j :: 0 <= i < |r| && 0 <= j < |r[i].players| ==>
      ranked[i].players[j].name in positions && r[i].players[j] == ranked[i].players[j].(position := positions[ranked[i].players[j].name])
    requires Distinct(Names(AllPlayers(ranked))) ==>
      forall i, j :: 0 <= i < |ranked| && 0 <= j < |ranked[i].players| ==>
        positions[ranked[i].players[j].name] == 1 + CountAbove(AllPlayers(ranked), PlayerNet, PlayerNet(ranked[i].players[j]))
    ensures Distinct(Names(AllPlayers(r))) ==>
      forall i, j :: 0 <= i < |r| && 0 <= j < |r[i].players| ==>
        r[i].players[j].position == 1 + CountAbove(AllPlayers(r), PlayerNet, PlayerNet(r[i].players[j]))
  {
    AllPlayersPointwise(r, ranked);
    if Distinct(Names(AllPlayers(r))) {
      assert Names(AllPlayers(r)) == Names(AllPlayers(ranked));
      assert Distinct(Names(AllPlayers(ranked)));
      forall i, j | 0 <= i < |r| && 0 <= j < |r[i].players|
        ensures r[i].players[j].position == 1 + CountAbove(AllPlayers(r), PlayerNet, PlayerNet(r[i].players[j]))
      {
        var p, q := r[i].players[j], ranked[i].players[j];
        assert p == q.(position := positions[q.name]);
        assert PlayerNet(p) == PlayerNet(q);
        CountAboveSameKeys(AllPlayers(r), AllPlayers(ranked), PlayerNet, PlayerNet(p));
      }
    }
  }
}
