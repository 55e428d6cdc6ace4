// The three ways the bot compares two matches
// (utils/scores_calculation/scores_calculation.js): `_areMatchesEqual`,
// which decides whether a typed table is a match already on the board or
// in the submissions backlog; `_areMatchesDuplicated`, which spots a
// match posted twice with corrected scores; and `_areTeamPenaltiesSame`.
// Each is a predicate stating what the source's loops decide, and the
// loops themselves are methods proved against those predicates.
module MatchComparison {
  import opened Wrappers
  import opened Strings
  import opened Records
  import Objects

  /** `parseInt(a) === parseInt(b)`: NaN equals nothing, not even NaN. */
  predicate SameParsed(a: Option<int>, b: Option<int>)
  {
    a.Some? && a == b
  }

  predicate SameNumber(a: LobbyNumber, b: LobbyNumber)
  {
    SameParsed(LobbyNumberValue(a), LobbyNumberValue(b))
  }

  function Abs(n: int): nat
  {
    if n < 0 then -n else n
  }

  /** A player's total as `areScoresEqual` counts it: the race scores minus the absolute penalty. */
  function Total(p: Player): int
  {
    Sum(p.scores) - Abs(p.penalty)
  }

  function PlayerName(p: Player): string
  {
    p.name
  }

  /** `team.players.find(player => player.name === name)`. */
  function FindPlayer(t: Team, name: string): Option<Player>
  {
    Objects.Get(t.players, PlayerName, name)
  }

  /**
   * `_areTeamPenaltiesSame`: as many teams on both sides, and two teams
   * whose `tablePlayersOrder` serialise to the same JSON (the same names
   * in the same order) carry the same penalty.
   */
  predicate TeamPenaltiesSame(teams1: seq<Team>, teams2: seq<Team>)
  {
    |teams1| == |teams2|
    && forall a, b :: 0 <= a < |teams1| && 0 <= b < |teams2| && teams1[a].tablePlayersOrder == teams2[b].tablePlayersOrder
         ==> teams1[a].penalty == teams2[b].penalty
  }

  /**
   * The player has a namesake in some team of `teams2`, and the first
   * namesake of every team that has one shows the same total.
   */
  predicate Corresponds(p: Player, teams2: seq<Team>)
  {
    (exists b :: 0 <= b < |teams2| && FindPlayer(teams2[b], p.name).Some?)
    && forall b :: 0 <= b < |teams2| && FindPlayer(teams2[b], p.name).Some? ==> Total(FindPlayer(teams2[b], p.name).value) == Total(p)
  }

  /** `areTeamsEqual`: every player of the first match corresponds in the second, not the other way round. */
  predicate TeamsEqual(m1: Match, m2: Match)
  {
    |m1.teams| == |m2.teams| && TeamPenaltiesSame(m1.teams, m2.teams)
    && forall a, j :: 0 <= a < |m1.teams| && 0 <= j < |m1.teams[a].players| ==> Corresponds(m1.teams[a].players[j], m2.teams)
  }

  /** `_areMatchesEqual`: a null side is never equal; otherwise same board, lobby number, lobby type and teams. */
  predicate MatchesEqual(m1: Option<Match>, m2: Option<Match>)
  {
    m1.Some? && m2.Some?
    && m1.value.boardID == m2.value.boardID
    && SameNumber(m1.value.lobbyNumber, m2.value.lobbyNumber)
    && m1.value.lobbyType == m2.value.lobbyType
    && TeamsEqual(m1.value, m2.value)
  }

  /**
   * `areTablePlayersOrdersEqual`: every name of the first order equals
   * the name at the same index of the second, whose missing indices read
   * as `undefined` and so equal no name.
   */
  predicate OrderPrefix(t1: Team, t2: Team)
  {
    |t1.tablePlayersOrder| <= |t2.tablePlayersOrder|
    && forall i :: 0 <= i < |t1.tablePlayersOrder| ==> t1.tablePlayersOrder[i] == t2.tablePlayersOrder[i]
  }

  /** Some team of `teams` has a player order that starts with the order of `t`. */
  predicate Extended(t: Team, teams: seq<Team>)
  {
    exists b :: 0 <= b < |teams| && OrderPrefix(t, teams[b])
  }

  predicate TeamsDuplicates(teams1: seq<Team>, teams2: seq<Team>)
  {
    |teams1| == |teams2| && forall a :: 0 <= a < |teams1| ==> Extended(teams1[a], teams2)
  }

  /**
   * `_areMatchesDuplicated`: the board ids are compared through
   * `parseInt`, unlike `_areMatchesEqual`; then the lobby number, the
   * lobby type and the teams' player orders.
   */
  predicate MatchesDuplicated(m1: Option<Match>, m2: Option<Match>)
  {
    m1.Some? && m2.Some?
    && SameParsed(ParseInt(m1.value.boardID), ParseInt(m2.value.boardID))
    && SameNumber(m1.value.lobbyNumber, m2.value.lobbyNumber)
    && m1.value.lobbyType == m2.value.lobbyType
    && TeamsDuplicates(m1.value.teams, m2.value.teams)
  }

  // ---------------------------------------------------------------
  // The source's loops
  // ---------------------------------------------------------------

  /** `_areTeamPenaltiesSame`, returning false at the first pair of same-order teams with different penalties. */
  method ArePenaltiesSame(teams1: seq<Team>, teams2: seq<Team>) returns (same: bool)
    ensures same <==> |teams1| == |teams2|
                      && !exists a, b :: 0 <= a < |teams1| && 0 <= b < |teams2|
                           && teams1[a].tablePlayersOrder == teams2[b].tablePlayersOrder && teams1[a].penalty != teams2[b].penalty
    ensures same == TeamPenaltiesSame(teams1, teams2)
  {
    if |teams1| != |teams2| {
      return false;
    }
    for a := 0 to |teams1|
      invariant forall a', b :: 0 <= a' < a && 0 <= b < |teams2| && teams1[a'].tablePlayersOrder == teams2[b].tablePlayersOrder
                  ==> teams1[a'].penalty == teams2[b].penalty
    {
      for b := 0 to |teams2|
        invariant forall b' :: 0 <= b' < b && teams1[a].tablePlayersOrder == teams2[b'].tablePlayersOrder
                    ==> teams1[a].penalty == teams2[b'].penalty
      {
        if teams1[a].tablePlayersOrder == teams2[b].tablePlayersOrder && teams1[a].penalty != teams2[b].penalty {
          return false;
        }
      }
    }
    return true;
  }

  /** The inner loop of `areTeamsEqual` for one player: look the name up in every team of the second match. */
  method Correspond(p: Player, teams2: seq<Team>) returns (ok: bool)
    ensures ok == Corresponds(p, teams2)
  {
    var found := false;
    for b := 0 to |teams2|
      invariant found <==> exists b' :: 0 <= b' < b && FindPlayer(teams2[b'], p.name).Some?
      invariant forall b' :: 0 <= b' < b && FindPlayer(teams2[b'], p.name).Some? ==> Total(FindPlayer(teams2[b'], p.name).value) == Total(p)
    {
      var q := FindPlayer(teams2[b], p.name);
      if q.Some? {
        found := true;
        if Total(q.value) != Total(p) {
          return false;
        }
      }
    }
    return found;
  }

  /** `areTeamsEqual`, returning false at the first player without a corresponding one. */
  method AreTeamsEqual(m1: Match, m2: Match) returns (equal: bool)
    ensures equal == TeamsEqual(m1, m2)
  {
    if |m1.teams| != |m2.teams| {
      return false;
    }
    var same := ArePenaltiesSame(m1.teams, m2.teams);
    if !same {
      return false;
    }
    for a := 0 to |m1.teams|
      invariant forall a', j :: 0 <= a' < a && 0 <= j < |m1.teams[a'].players| ==> Corresponds(m1.teams[a'].players[j], m2.teams)
    {
      for j := 0 to |m1.teams[a].players|
        invariant forall j' :: 0 <= j' < j ==> Corresponds(m1.teams[a].players[j'], m2.teams)
      {
        var ok := Correspond(m1.teams[a].players[j], m2.teams);
        if !ok {
          return false;
        }
      }
    }
    return true;
  }

  method AreMatchesEqual(m1: Option<Match>, m2: Option<Match>) returns (equal: bool)
    ensures equal == MatchesEqual(m1, m2)
  {
    if m1.None? || m2.None? {
      return false;
    }
    var a, b := m1.value, m2.value;
    if a.boardID != b.boardID || !SameNumber(a.lobbyNumber, b.lobbyNumber) || a.lobbyType != b.lobbyType {
      return false;
    }
    equal := AreTeamsEqual(a, b);
  }

  // ---------------------------------------------------------------
  // What the predicates promise
  // ---------------------------------------------------------------

  /** No name appears twice in a match, as the table parser guarantees. */
  predicate DistinctPlayers(teams: seq<Team>)
  {
    forall a, j, b, k ::
      (0 <= a < |teams| && 0 <= j < |teams[a].players| && 0 <= b < |teams| && 0 <= k < |teams[b].players|
       && teams[a].players[j].name == teams[b].players[k].name) ==> a == b && j == k
  }

  /** No two teams list the same names in the same order. */
  predicate DistinctOrders(teams: seq<Team>)
  {
    forall a, b :: 0 <= a < b < |teams| ==> teams[a].tablePlayersOrder != teams[b].tablePlayersOrder
  }

  /** A name is found in a team exactly where it is, when the names of the match are distinct. */
  lemma FoundItself(teams: seq<Team>, a: nat, j: nat, b: nat)
    requires DistinctPlayers(teams)
    requires a < |teams| && j < |teams[a].players| && b < |teams|
    ensures FindPlayer(teams[b], teams[a].players[j].name) == if a == b then Some(teams[a].players[j]) else None
  {
    var name := teams[a].players[j].name;
    var q := Objects.Find(teams[b].players, PlayerName, name);
    if q.Some? {
      assert teams[b].players[q.value].name == name;
      assert a == b && q.value == j;
    } else {
      assert PlayerName(teams[a].players[j]) == name;
      assert a != b;
    }
  }

  /**
   * A match whose lobby number parses, whose names are distinct and
   * whose teams list different names is equal to itself.
   */
  lemma MatchesEqualReflexive(m: Match)
    requires LobbyNumberValue(m.lobbyNumber).Some?
    requires DistinctPlayers(m.teams) && DistinctOrders(m.teams)
    ensures MatchesEqual(Some(m), Some(m))
  {
    forall a, j | 0 <= a < |m.teams| && 0 <= j < |m.teams[a].players|
      ensures Corresponds(m.teams[a].players[j], m.teams)
    {
      var p := m.teams[a].players[j];
      FoundItself(m.teams, a, j, a);
      forall b | 0 <= b < |m.teams| && FindPlayer(m.teams[b], p.name).Some?
        ensures Total(FindPlayer(m.teams[b], p.name).value) == Total(p)
      {
        FoundItself(m.teams, a, j, b);
      }
    }
  }

  /** Equality looks only one way: every player of the first match plays in the second, with the same total. */
  lemma EqualPlayersPlay(m1: Match, m2: Match, a: nat, j: nat)
    requires MatchesEqual(Some(m1), Some(m2))
    requires a < |m1.teams| && j < |m1.teams[a].players|
    ensures InMatch(m2.teams, m1.teams[a].players[j].name)
    ensures exists b, k :: 0 <= b < |m2.teams| && 0 <= k < |m2.teams[b].players|
              && m2.teams[b].players[k].name == m1.teams[a].players[j].name && Total(m2.teams[b].players[k]) == Total(m1.teams[a].players[j])
  {
    var p := m1.teams[a].players[j];
    assert Corresponds(p, m2.teams);
    var b :| 0 <= b < |m2.teams| && FindPlayer(m2.teams[b], p.name).Some?;
    var k := Objects.Find(m2.teams[b].players, PlayerName, p.name).value;
    assert m2.teams[b].players[k].name == p.name;
    assert Total(m2.teams[b].players[k]) == Total(p);
  }

  /**
   * Equality is not symmetric: a table listing one player of a two-player
   * lobby equals that lobby, but the lobby does not equal the table.
   */
  lemma MatchesEqualNotSymmetric()
    ensures exists m1, m2 :: MatchesEqual(Some(m1), Some(m2)) && !MatchesEqual(Some(m2), Some(m1))
  {
    SoloEqualsPair();
    PairNotSolo();
  }

  /** One player of a lobby, scoring 10. */
  function SoloPlayer(): Player
  {
    Player("a", "", [10], 10, 0, None, 1, 1)
  }

  /** The table of a two-player lobby that lists only its first player. */
  function Solo(): Match
  {
    Match("", "1", None, Number(7), "", "race_items_ffa", [Team("t", "", [SoloPlayer()], 10, 0, 0, ["t"], 1)])
  }

  /** The whole two-player lobby. */
  function Pair(): Match
  {
    Match("", "1", None, Number(7), "", "race_items_ffa",
          [Team("t", "", [SoloPlayer(), Player("b", "", [5], 5, 0, None, 2, 2)], 15, 0, 0, ["t"], 1)])
  }

  lemma SoloEqualsPair()
    ensures MatchesEqual(Some(Solo()), Some(Pair()))
  {
    var pa := SoloPlayer();
    assert FindPlayer(Pair().teams[0], "a") == Some(pa);
    assert Corresponds(pa, Pair().teams);
  }

  lemma PairNotSolo()
    ensures !MatchesEqual(Some(Pair()), Some(Solo()))
  {
    var pb := Pair().teams[0].players[1];
    assert FindPlayer(Solo().teams[0], "b") == None;
    assert !Corresponds(pb, Solo().teams);
  }

  /** A board id that starts with a letter, such as "Yg67aT", parses to NaN. */
  lemma LetteredIdIsNaN(id: string)
    requires |id| > 0 && IsAsciiLetter(id[0])
    ensures ParseInt(id).None?
  {
    assert !IsSpace(id[0]);
    assert TrimStart(id) == id;
    assert DigitPrefix(id) == [];
  }

  /** So a match on a board whose id starts with a letter is never found duplicated, not even by itself. */
  lemma LetteredBoardNeverDuplicated(m1: Match, m2: Option<Match>)
    requires |m1.boardID| > 0 && IsAsciiLetter(m1.boardID[0])
    ensures !MatchesDuplicated(Some(m1), m2)
    ensures !MatchesDuplicated(m2, Some(m1))
  {
    LetteredIdIsNaN(m1.boardID);
  }

  /** A match on a numeric board with a numeric lobby number is duplicated by itself and by any copy with longer player orders. */
  lemma DuplicatedByExtension(m1: Match, m2: Match)
    requires ParseInt(m1.boardID).Some? && m1.boardID == m2.boardID
    requires LobbyNumberValue(m1.lobbyNumber).Some? && m1.lobbyNumber == m2.lobbyNumber && m1.lobbyType == m2.lobbyType
    requires |m1.teams| == |m2.teams|
    requires forall a :: 0 <= a < |m1.teams| ==> m1.teams[a].tablePlayersOrder <= m2.teams[a].tablePlayersOrder
    ensures MatchesDuplicated(Some(m1), Some(m2))
  {
    PrefixesDuplicate(m1.teams, m2.teams);
  }

  /** Teams paired one to one with teams whose player orders extend theirs are duplicated by them. */
  lemma PrefixesDuplicate(teams1: seq<Team>, teams2: seq<Team>)
    requires |teams1| == |teams2|
    requires forall a :: 0 <= a < |teams1| ==> teams1[a].tablePlayersOrder <= teams2[a].tablePlayersOrder
    ensures TeamsDuplicates(teams1, teams2)
  {
    forall a | 0 <= a < |teams1|
      ensures Extended(teams1[a], teams2)
    {
      PrefixOrder(teams1[a], teams2[a]);
      assert 0 <= a < |teams2| && OrderPrefix(teams1[a], teams2[a]);
    }
  }

  /** A team whose player order is a prefix of another's is matched by it. */
  lemma PrefixOrder(t1: Team, t2: Team)
    requires t1.tablePlayersOrder <= t2.tablePlayersOrder
    ensures OrderPrefix(t1, t2)
  {
    var o1, o2 := t1.tablePlayersOrder, t2.tablePlayersOrder;
    assert o1 == o2[..|o1|];
    assert forall i :: 0 <= i < |o1| ==> o1[i] == o2[..|o1|][i];
  }
}
