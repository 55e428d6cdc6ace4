// The match record shared by the table parser, the board reader, the
// rating systems and the calculator: a match holds teams, a team holds
// players. Fields that `sortTeams` adds later (table order, positions)
// are 0 until it has run.
module Records {
  import opened Wrappers
  import opened Strings

  /** The parser stores the lobby number as a number, the board reader as the digit string its regex captured. */
  datatype LobbyNumber = Number(n: nat) | Text(s: string)

  /** `parseInt(lobbyNumber)`; None stands for NaN, which equals nothing. */
  function LobbyNumberValue(l: LobbyNumber): Option<int>
  {
    match l
    case Number(n) => Some(n)
    case Text(s) => ParseInt(s)
  }

  /** The property name a lobby number becomes when it is used as an object key. */
  function LobbyNumberKey(l: LobbyNumber): string
  {
    match l
    case Number(n) => NatToString(n)
    case Text(s) => s
  }

  datatype Player = Player(
    name: string,
    flag: string,
    scores: seq<int>,
    score: int,
    penalty: int,
    boardRating: Option<real>,
    inTeamPosition: nat,
    position: nat)

  datatype Team = Team(
    name: string,
    color: string,
    players: seq<Player>,
    score: int,
    penalty: int,
    tableOrder: nat,
    tablePlayersOrder: seq<string>,
    position: nat)

  /**
   * A match. `id` and `playDate` are only set on matches read from the
   * board (`playDate` None stands for NaN); `lobbyType` is a lobby type
   * code, or "" when the board's match data did not name one.
   */
  datatype Match = Match(
    id: string,
    boardID: string,
    playDate: Option<int>,
    lobbyNumber: LobbyNumber,
    lobbyName: string,
    lobbyType: string,
    teams: seq<Team>)

  function Sum(xs: seq<int>): int
  {
    if xs == [] then 0 else Sum(xs[..|xs| - 1]) + xs[|xs| - 1]
  }

  lemma {:induction false} SumConcat(a: seq<int>, b: seq<int>)
    ensures Sum(a + b) == Sum(a) + Sum(b)
    decreases |b|
  {
    if b != [] {
      SumConcat(a, b[..|b| - 1]);
      assert (a + b)[..|a + b| - 1] == a + b[..|b| - 1];
    } else {
      assert a + b == a;
    }
  }

  lemma {:induction false} SumBounds(xs: seq<int>, lo: int, hi: int)
    requires forall i :: 0 <= i < |xs| ==> lo <= xs[i] <= hi
    ensures |xs| * lo <= Sum(xs) <= |xs| * hi
  {
    if xs != [] {
      SumBounds(xs[..|xs| - 1], lo, hi);
    }
  }

  /** The key players are ranked by: the sum of their race scores minus their penalty. */
  function PlayerNet(p: Player): real
  {
    (Sum(p.scores) - p.penalty) as real
  }

  /** The key teams are ranked by: score minus penalty. */
  function TeamNet(t: Team): real
  {
    (t.score - t.penalty) as real
  }

  function Names(players: seq<Player>): (r: seq<string>)
    ensures |r| == |players| && forall i :: 0 <= i < |players| ==> r[i] == players[i].name
  {
    if players == [] then [] else [players[0].name] + Names(players[1..])
  }

  /** The players of all teams, team after team. */
  function AllPlayers(teams: seq<Team>): seq<Player>
  {
    if teams == [] then [] else AllPlayers(teams[..|teams| - 1]) + teams[|teams| - 1].players
  }

  function PlayerCount(teams: seq<Team>): nat
  {
    if teams == [] then 0 else PlayerCount(teams[..|teams| - 1]) + |teams[|teams| - 1].players|
  }

  lemma {:induction false} AllPlayersCount(teams: seq<Team>)
    ensures |AllPlayers(teams)| == PlayerCount(teams)
  {
    if teams != [] {
      AllPlayersCount(teams[..|teams| - 1]);
    }
  }

  predicate Distinct(names: seq<string>)
  {
    forall i, j :: 0 <= i < j < |names| ==> names[i] != names[j]
  }

  /** Every player of every team, as the parser and the calculator look players up by name. */
  predicate InMatch(teams: seq<Team>, name: string)
  {
    exists i, j :: 0 <= i < |teams| && 0 <= j < |teams[i].players| && teams[i].players[j].name == name
  }
}
