// The board data the bot reads from Lorenzi's Game Boards
// (utils/scores_calculation/lorenzi_api.js), from the decoded answer on:
// `_parsePlayers` turns the board's players into leaderboard rows, and
// `_parseMatches` turns the board's stored matches into the same match
// record the table parser builds. The HTTP requests are not modelled; the
// decoded answer is the input.
module Lorenzi {
  import opened Wrappers
  import opened Strings
  import opened Records
  import Lobby
  import Ranking
  import TableLexer
  import TeamRanking
  import Board
  import MatchCalculation

  /** A rating scheme's settings as the board stores them. */
  datatype SchemeSettings = SchemeSettings(initial: real, scalingFactors: seq<real>, baselines: seq<real>)

  /**
   * The board as `getBoard` returns it: players and matches already
   * parsed, and one settings record per rating scheme, under the property
   * name the scheme's settings have in the answer.
   */
  datatype BoardData = BoardData(
    players: seq<Board.BoardPlayer>,
    tiers: seq<MatchCalculation.Tier>,
    ratingAverageByTeam: bool,
    ratingMin: real,
    ratingScheme: string,
    schemes: map<string, SchemeSettings>,
    matchCount: int,
    matches: seq<Match>)

  // ---------------------------------------------------------------
  // Players
  // ---------------------------------------------------------------

  /** A player row of the answer, its rating already a number. */
  datatype RawPlayer = RawPlayer(name: string, ranking: int, rating: real)

  /** The row of a player: the 0-based ranking made 1-based. */
  function Row(p: RawPlayer): Board.BoardPlayer
  {
    Board.BoardPlayer(p.name, Some(p.ranking + 1), p.rating)
  }

  function Rows(players: seq<RawPlayer>): (rows: seq<Board.BoardPlayer>)
    ensures |rows| == |players| && forall i :: 0 <= i < |players| ==> rows[i] == Row(players[i])
  {
    seq(|players|, i requires 0 <= i < |players| => Row(players[i]))
  }

  /** `_parsePlayers`: no players gives none; otherwise the rows sorted by rating, highest first. */
  method ParsePlayers(players: Option<seq<RawPlayer>>) returns (rows: seq<Board.BoardPlayer>)
    ensures players.None? ==> rows == []
    ensures players.Some? ==> rows == Ranking.SortDesc(Rows(players.value), Board.RowRating)
  {
    if players.None? {
      return [];
    }
    var raw := players.value;
    var shaped: seq<Board.BoardPlayer> := [];
    for i := 0 to |raw|
      invariant |shaped| == i && forall k :: 0 <= k < i ==> shaped[k] == Row(raw[k])
    {
      shaped := shaped + [Row(raw[i])];
    }
    assert shaped == Rows(raw);
    rows := Ranking.SortDesc(shaped, Board.RowRating);
  }

  /**
   * The parsed players are the board's players with 1-based rankings, in
   * descending order of rating, players of equal rating in board order.
   */
  lemma ParsedPlayersOrdered(players: seq<RawPlayer>)
    ensures var rows := Ranking.SortDesc(Rows(players), Board.RowRating);
      Ranking.SortedDesc(rows, Board.RowRating)
      && multiset(rows) == multiset(Rows(players))
      && (forall v :: Ranking.WithKey(rows, Board.RowRating, v) == Ranking.WithKey(Rows(players), Board.RowRating, v))
      && (forall k :: 0 <= k < |rows| ==> exists i :: 0 <= i < |players| && rows[k] == Row(players[i]))
  {
    var rows := Ranking.SortDesc(Rows(players), Board.RowRating);
    Ranking.SortDescSorted(Rows(players), Board.RowRating);
    forall v ensures Ranking.WithKey(rows, Board.RowRating, v) == Ranking.WithKey(Rows(players), Board.RowRating, v) {
      Ranking.SortDescStable(Rows(players), Board.RowRating, v);
    }
    forall k | 0 <= k < |rows| ensures exists i :: 0 <= i < |players| && rows[k] == Row(players[i]) {
      assert rows[k] in multiset(Rows(players)) by { assert rows[k] in multiset(rows); }
      var i :| 0 <= i < |Rows(players)| && Rows(players)[i] == rows[k];
    }
  }

  // ---------------------------------------------------------------
  // Matches: the decoded `matchData`
  // ---------------------------------------------------------------

  /** A player of a stored match; absent optional properties are None. */
  datatype RawEntry = RawEntry(name: string, flag: Option<string>, scores: seq<int>, penalty: Option<int>, boardRating: Option<real>)

  /** A team of a stored match; `name` is "" when absent or empty. */
  datatype RawTeam = RawTeam(tag: Option<string>, name: string, color: Option<string>, players: seq<RawEntry>)

  /** The decoded `matchData`: `title` is "" when absent or empty, `teams` None when absent. */
  datatype MatchData = MatchData(title: string, teams: Option<seq<RawTeam>>)

  /** A stored match; `data` is None when its `matchData` is not valid JSON. */
  datatype RawMatch = RawMatch(id: string, teamId: string, playDate: string, data: Option<MatchData>)

  predicate HasTitle(d: MatchData)
  {
    d.title != ""
  }

  predicate HasTag(d: MatchData)
  {
    d.teams.Some? && |d.teams.value| > 0 && d.teams.value[0].tag.Some? && d.teams.value[0].tag.value != ""
  }

  predicate HasName(d: MatchData)
  {
    d.teams.Some? && |d.teams.value| > 0 && d.teams.value[0].name != ""
  }

  /** A `#` followed by a digit starts at `i`. */
  predicate HashAt(s: string, i: int)
  {
    0 <= i < |s| - 1 && s[i] == '#' && IsDigit(s[i + 1])
  }

  /** The digits of the first `#` followed by a digit (`s.match(/#(\d+)/)[1]`). */
  function HashDigits(s: string): (d: Option<string>)
    ensures d.Some? ==> |d.value| > 0 && AllDigits(d.value)
    ensures d.Some? ==> exists i :: HashAt(s, i) && d.value == DigitPrefix(s[i + 1..]) && forall j :: 0 <= j < i ==> !HashAt(s, j)
    ensures d.None? ==> forall i :: !HashAt(s, i)
  {
    if |s| < 2 then None
    else if HashAt(s, 0) then
      assert s[1..][0] == s[1];
      Some(DigitPrefix(s[1..]))
    else
      var rest := HashDigits(s[1..]);
      forall k | 1 <= k
        ensures HashAt(s, k) == HashAt(s[1..], k - 1)
      {
        if k < |s| - 1 {
          assert s[k] == s[1..][k - 1] && s[k + 1] == s[1..][k];
        }
      }
      if rest.Some? then
        var i :| HashAt(s[1..], i) && rest.value == DigitPrefix(s[1..][i + 1..]) && forall j :: 0 <= j < i ==> !HashAt(s[1..], j);
        assert s[1..][i + 1..] == s[i + 2..];
        assert HashAt(s, i + 1);
        rest
      else
        rest
  }

  /**
   * The matched `#digits` of the title, else of the first team's tag.
   * With neither, the source calls `match` on the first team's tag all
   * the same, which throws when there is no first team or it has no tag.
   */
  predicate NumberThrows(d: MatchData)
  {
    !HasTitle(d) && !HasTag(d) && (d.teams.None? || d.teams.value == [] || d.teams.value[0].tag.None?)
  }

  function NumberOf(d: MatchData): LobbyNumber
  {
    var found := if HasTitle(d) then HashDigits(d.title) else if HasTag(d) then HashDigits(d.teams.value[0].tag.value) else None;
    Text(if found.Some? then found.value else "")
  }

  /**
   * The lobby name and the lobby type read from the title's second
   * " - " segment or from the first team's name. The type starts as ""
   * and stays so when there is nothing to read it from; None is the
   * `null` of an unknown type.
   */
  function NameAndType(d: MatchData): (string, Option<string>)
  {
    if HasTitle(d) then
      var parts := Split(d.title, " - ");
      (d.title, if |parts| > 1 then TableLexer.ParseLobbyType(parts[1]) else Some(""))
    else if HasTag(d) && HasName(d) then
      (d.teams.value[0].name + " - " + d.teams.value[0].tag.value, TableLexer.ParseLobbyType(d.teams.value[0].name))
    else ("", Some(""))
  }

  /** The default (teams, players) counts of a lobby type. */
  function DefaultCounts(t: Lobby.LobbyType): (nat, nat)
  {
    match t
    case RaceItemsFfa => (8, 8)
    case RaceItemsDuos => (4, 8)
    case RaceItems3v3 => (2, 6)
    case RaceItems4v4 => (2, 8)
    case RaceSurvival => (8, 8)
    case RaceItemless1v1 => (2, 2)
    case RaceItemlessFfa => (4, 4)
    case RaceItemlessDuos => (4, 8)
    case RaceItemless3v3 => (2, 6)
    case RaceItemless4v4 => (2, 8)
    case Battle1v1 => (2, 2)
    case BattleFfa => (4, 4)
    case BattleDuos => (2, 4)
    case Battle3v3 => (2, 6)
    case Battle4v4 => (2, 8)
    case InstaDuos => (4, 8)
    case Insta3v3 => (2, 6)
    case Insta4v4 => (2, 8)
  }

  /** The lobby types rated on the board, in the leaderboard table's order. */
  function BoardTypes(types: seq<Lobby.LobbyType>, boardID: string): (r: seq<Lobby.LobbyType>)
    ensures forall t :: t in r <==> t in types && Lobby.Board(t) == Some(boardID)
  {
    if types == [] then []
    else (if Lobby.Board(types[0]) == Some(boardID) then [types[0]] else []) + BoardTypes(types[1..], boardID)
  }

  function PlayerTotal(teams: seq<RawTeam>): nat
  {
    if teams == [] then 0 else PlayerTotal(teams[..|teams| - 1]) + |teams[|teams| - 1].players|
  }

  /** The first of `types` whose default counts are `counts`. */
  function FirstWithCounts(types: seq<Lobby.LobbyType>, counts: (nat, nat)): (r: Option<nat>)
    ensures r.Some? ==> r.value < |types| && DefaultCounts(types[r.value]) == counts
    ensures r.Some? ==> forall k :: 0 <= k < r.value ==> DefaultCounts(types[k]) != counts
    ensures r.None? ==> forall k :: 0 <= k < |types| ==> DefaultCounts(types[k]) != counts
  {
    if types == [] then None
    else if DefaultCounts(types[0]) == counts then Some(0)
    else
      match FirstWithCounts(types[1..], counts)
      case None => None
      case Some(k) => Some(k + 1)
  }

  /** The lobby type a match gets: the one read, else the first of the board's types with the match's counts. */
  function TypeOf(d: MatchData, boardID: string): Option<string>
    requires d.teams.Some?
  {
    var read := NameAndType(d).1;
    if read.Some? then read
    else
      var types := BoardTypes(Lobby.AllTypes, boardID);
      match FirstWithCounts(types, (|d.teams.value|, PlayerTotal(d.teams.value)))
      case None => None
      case Some(k) => Some(Lobby.Code(types[k]))
  }

  function AbsPenalty(p: RawEntry): nat
  {
    match p.penalty
    case None => 0
    case Some(n) => if n < 0 then -n else n
  }

  /** A stored player as a match player: the score is the sum of the race scores, the penalty its absolute value. */
  function EntryPlayer(p: RawEntry): Player
  {
    Player(p.name, if p.flag.Some? then p.flag.value else "", p.scores, Sum(p.scores), AbsPenalty(p), p.boardRating, 0, 0)
  }

  /** Outside team modes every player is a team of one, named after the player. */
  function SoloTeam(p: RawEntry): Team
  {
    Team(p.name, "", [EntryPlayer(p)], Sum(p.scores), AbsPenalty(p), 0, [], 0)
  }

  function SoloTeams(teams: seq<RawTeam>): seq<Team>
  {
    if teams == [] then []
    else
      var last := teams[|teams| - 1].players;
      SoloTeams(teams[..|teams| - 1]) + seq(|last|, j requires 0 <= j < |last| => SoloTeam(last[j]))
  }

  function ScoreTotal(players: seq<RawEntry>): int
  {
    if players == [] then 0 else ScoreTotal(players[..|players| - 1]) + Sum(players[|players| - 1].scores)
  }

  function PenaltyTotal(players: seq<RawEntry>): (n: nat)
  {
    if players == [] then 0 else PenaltyTotal(players[..|players| - 1]) + AbsPenalty(players[|players| - 1])
  }

  /** In team modes a team is named by its tag and scores the sums of its players. */
  function TagTeam(t: RawTeam): Team
  {
    Team(if t.tag.Some? then t.tag.value else "", if t.color.Some? then t.color.value else "",
         seq(|t.players|, j requires 0 <= j < |t.players| => EntryPlayer(t.players[j])),
         ScoreTotal(t.players), PenaltyTotal(t.players), 0, [], 0)
  }

  /** The teams of a stored match before `sortTeams`. */
  function TeamsOf(teams: seq<RawTeam>, teamMode: bool): seq<Team>
  {
    if teamMode then seq(|teams|, i requires 0 <= i < |teams| => TagTeam(teams[i])) else SoloTeams(teams)
  }

  /**
   * Without a `teams` property every way through `_parseMatches` reads a
   * property of `undefined` (`teams.length` to infer the type,
   * `teams.entries()` to build the teams), which throws, or meets a null
   * type with no board type to infer it from; either way the match is
   * skipped.
   */
  predicate NoTeams(d: MatchData)
  {
    d.teams.None?
  }

  /** A stored match before `sortTeams`; None where the source skips it. */
  function Shaped(raw: RawMatch, boardID: string): Option<Match>
  {
    match raw.data
    case None => None
    case Some(d) =>
      if NumberThrows(d) || NoTeams(d) then None
      else
        var lobbyType := TypeOf(d, boardID);
        if lobbyType.None? then None
        else Some(Match(raw.id, raw.teamId, ParseInt(raw.playDate), NumberOf(d), NameAndType(d).0, lobbyType.value,
                        TeamsOf(d.teams.value, Lobby.IsTeamMode(lobbyType.value))))
  }

  /** The matches the source keeps, in board order, before `sortTeams`. */
  function Kept(raws: seq<RawMatch>, boardID: string): (r: seq<Match>)
    ensures |r| <= |raws|
  {
    if raws == [] then []
    else
      var last := Shaped(raws[|raws| - 1], boardID);
      Kept(raws[..|raws| - 1], boardID) + (if last.Some? then [last.value] else [])
  }

  // ---------------------------------------------------------------
  // The source's loops
  // ---------------------------------------------------------------

  /** The loop over the board's lobby types that keeps the first with the match's counts. */
  method InferType(types: seq<Lobby.LobbyType>, nbTeams: nat, nbPlayers: nat) returns (code: Option<string>)
    ensures code == match FirstWithCounts(types, (nbTeams, nbPlayers))
                    case None => None
                    case Some(k) => Some(Lobby.Code(types[k]))
  {
    code := None;
    for i := 0 to |types|
      invariant forall k :: 0 <= k < i ==> DefaultCounts(types[k]) != (nbTeams, nbPlayers)
    {
      if DefaultCounts(types[i]) == (nbTeams, nbPlayers) {
        return Some(Lobby.Code(types[i]));
      }
    }
  }

  /** The push loops of team modes: one team per stored team, with the running sums of its players. */
  method BuildTagTeam(t: RawTeam) returns (team: Team)
    ensures team == TagTeam(t)
  {
    var players: seq<Player> := [];
    var score, penalty := 0, 0;
    for j := 0 to |t.players|
      invariant players == seq(j, k requires 0 <= k < j => EntryPlayer(t.players[k]))
      invariant score == ScoreTotal(t.players[..j]) && penalty == PenaltyTotal(t.players[..j])
    {
      players := players + [EntryPlayer(t.players[j])];
      score := score + Sum(t.players[j].scores);
      penalty := penalty + AbsPenalty(t.players[j]);
      assert t.players[..j + 1][..j] == t.players[..j];
    }
    assert t.players[..|t.players|] == t.players;
    team := Team(if t.tag.Some? then t.tag.value else "", if t.color.Some? then t.color.value else "",
                 players, score, penalty, 0, [], 0);
  }

  /** The push loops that build the teams. */
  method BuildTeams(teams: seq<RawTeam>, teamMode: bool) returns (r: seq<Team>)
    ensures r == TeamsOf(teams, teamMode)
  {
    r := [];
    if teamMode {
      for i := 0 to |teams|
        invariant r == seq(i, k requires 0 <= k < i => TagTeam(teams[k]))
      {
        var team := BuildTagTeam(teams[i]);
        r := r + [team];
      }
    } else {
      for i := 0 to |teams|
        invariant r == SoloTeams(teams[..i])
      {
        var players := teams[i].players;
        ghost var before := r;
        for j := 0 to |players|
          invariant r == before + seq(j, k requires 0 <= k < j => SoloTeam(players[k]))
        {
          r := r + [SoloTeam(players[j])];
        }
        assert teams[..i + 1][..i] == teams[..i];
      }
      assert teams[..|teams|] == teams;
    }
  }

  /** One iteration of `_parseMatches`: None where the match is skipped, otherwise the match with sorted teams. */
  method ParseMatch(raw: RawMatch, boardID: string) returns (m: Option<Match>)
    ensures m.None? <==> Shaped(raw, boardID).None?
    ensures m.Some? ==> m.value == Shaped(raw, boardID).value.(teams := m.value.teams)
                        && TeamRanking.Standings(m.value.teams, Shaped(raw, boardID).value.teams)
  {
    var shaped := ShapeMatch(raw, boardID);
    if shaped.None? {
      return None;
    }
    var sorted := TeamRanking.SortTeams(shaped.value.teams);
    m := Some(shaped.value.(teams := sorted));
  }

  /** The stored match as `_parseMatch` builds it, before its teams are sorted. */
  method ShapeMatch(raw: RawMatch, boardID: string) returns (m: Option<Match>)
    ensures m == Shaped(raw, boardID)
  {
    if raw.data.None? {
      return None;
    }
    var d := raw.data.value;
    if NumberThrows(d) || NoTeams(d) {
      return None;
    }
    var lobbyType := ReadType(d, boardID);
    if lobbyType.None? {
      return None;
    }
    var teams := BuildTeams(d.teams.value, Lobby.IsTeamMode(lobbyType.value));
    m := Some(Match(raw.id, raw.teamId, ParseInt(raw.playDate), NumberOf(d), NameAndType(d).0, lobbyType.value, teams));
  }

  /** The lobby type from the title or tag, else inferred from the board's types. */
  method ReadType(d: MatchData, boardID: string) returns (lobbyType: Option<string>)
    requires d.teams.Some?
    ensures lobbyType == TypeOf(d, boardID)
  {
    lobbyType := NameAndType(d).1;
    if lobbyType.None? {
      var types := BoardTypes(Lobby.AllTypes, boardID);
      lobbyType := InferType(types, |d.teams.value|, PlayerTotal(d.teams.value));
    }
  }

  /**
   * `_parseMatches`: nothing when the board has no matches; otherwise the
   * matches that are not skipped, in board order, each with its teams
   * sorted.
   */
  method ParseMatches(matchCount: int, matches: Option<seq<RawMatch>>, boardID: string) returns (r: seq<Match>)
    ensures matchCount <= 0 || matches.None? ==> r == []
    ensures matchCount > 0 && matches.Some? ==> Mirrors(r, Kept(matches.value, boardID))
  {
    if matchCount <= 0 || matches.None? {
      return [];
    }
    var raws := matches.value;
    r := [];
    for i := 0 to |raws|
      invariant Mirrors(r, Kept(raws[..i], boardID))
    {
      var m := ParseMatch(raws[i], boardID);
      KeptStep(raws, i, boardID);
      if m.Some? {
        MirrorsSnoc(r, Kept(raws[..i], boardID), m.value, Shaped(raws[i], boardID).value);
        r := r + [m.value];
      }
    }
    assert raws[..|raws|] == raws;
  }

  /** Each parsed match is the kept match at the same place, with its teams sorted. */
  predicate Mirrors(r: seq<Match>, kept: seq<Match>)
  {
    |r| == |kept|
    && forall k :: 0 <= k < |r| ==> r[k] == kept[k].(teams := r[k].teams) && TeamRanking.Standings(r[k].teams, kept[k].teams)
  }

  lemma MirrorsSnoc(r: seq<Match>, kept: seq<Match>, m: Match, k: Match)
    requires Mirrors(r, kept)
    requires m == k.(teams := m.teams) && TeamRanking.Standings(m.teams, k.teams)
    ensures Mirrors(r + [m], kept + [k])
  {
  }

  lemma KeptStep(raws: seq<RawMatch>, i: nat, boardID: string)
    requires i < |raws|
    ensures Kept(raws[..i + 1], boardID) == Kept(raws[..i], boardID) + (if Shaped(raws[i], boardID).Some? then [Shaped(raws[i], boardID).value] else [])
  {
    assert raws[..i + 1][..i] == raws[..i];
  }

  // ---------------------------------------------------------------
  // What the shaping promises
  // ---------------------------------------------------------------

  /** The team is the team of one of the stored players. */
  predicate OfSomeEntry(teams: seq<RawTeam>, t: Team)
  {
    exists a, j :: 0 <= a < |teams| && 0 <= j < |teams[a].players| && t == SoloTeam(teams[a].players[j])
  }

  /** Outside team modes every team is the team of one stored player. */
  lemma {:induction false} SoloTeamsFrom(teams: seq<RawTeam>)
    ensures |SoloTeams(teams)| == PlayerTotal(teams)
    ensures forall i :: 0 <= i < |SoloTeams(teams)| ==> OfSomeEntry(teams, SoloTeams(teams)[i])
  {
    if teams != [] {
      var init := teams[..|teams| - 1];
      var last := teams[|teams| - 1].players;
      SoloTeamsFrom(init);
      var tail := seq(|last|, j requires 0 <= j < |last| => SoloTeam(last[j]));
      assert SoloTeams(teams) == SoloTeams(init) + tail;
      forall i | 0 <= i < |SoloTeams(teams)|
        ensures OfSomeEntry(teams, SoloTeams(teams)[i])
      {
        if i < |SoloTeams(init)| {
          assert OfSomeEntry(init, SoloTeams(init)[i]);
          var a, j :| 0 <= a < |init| && 0 <= j < |init[a].players| && SoloTeams(init)[i] == SoloTeam(init[a].players[j]);
          assert teams[a] == init[a];
          assert SoloTeams(teams)[i] == SoloTeams(init)[i];
        } else {
          var j := i - |SoloTeams(init)|;
          assert j < |tail|;
          assert SoloTeams(teams)[i] == tail[j] == SoloTeam(teams[|teams| - 1].players[j]);
        }
      }
    }
  }

  /**
   * Outside team modes there is one team per stored player, named after
   * that player and holding only that player.
   */
  lemma SoloTeamsOfOne(teams: seq<RawTeam>)
    ensures |SoloTeams(teams)| == PlayerTotal(teams)
    ensures forall i :: 0 <= i < |SoloTeams(teams)| ==>
              |SoloTeams(teams)[i].players| == 1 && SoloTeams(teams)[i].players[0].name == SoloTeams(teams)[i].name
  {
    SoloTeamsFrom(teams);
    forall i | 0 <= i < |SoloTeams(teams)|
      ensures |SoloTeams(teams)[i].players| == 1 && SoloTeams(teams)[i].players[0].name == SoloTeams(teams)[i].name
    {
      assert OfSomeEntry(teams, SoloTeams(teams)[i]);
    }
  }

  /** Every stored penalty is an absolute value, on players and on teams alike. */
  lemma PenaltiesAbsolute(teams: seq<RawTeam>, teamMode: bool)
    ensures forall i :: 0 <= i < |TeamsOf(teams, teamMode)| ==> TeamsOf(teams, teamMode)[i].penalty >= 0
    ensures forall i, j :: 0 <= i < |TeamsOf(teams, teamMode)| && 0 <= j < |TeamsOf(teams, teamMode)[i].players| ==>
              TeamsOf(teams, teamMode)[i].players[j].penalty >= 0
  {
    if !teamMode {
      SoloTeamsFrom(teams);
      forall i | 0 <= i < |SoloTeams(teams)|
        ensures SoloTeams(teams)[i].penalty >= 0 && forall j :: 0 <= j < |SoloTeams(teams)[i].players| ==> SoloTeams(teams)[i].players[j].penalty >= 0
      {
        assert OfSomeEntry(teams, SoloTeams(teams)[i]);
      }
    }
  }

  /** In team modes a team's score and penalty are the totals of its players'. */
  lemma {:induction false} TeamTotals(players: seq<RawEntry>)
    ensures var ps := seq(|players|, j requires 0 <= j < |players| => EntryPlayer(players[j]));
      ScoreTotal(players) == PlayerScoreSum(ps) && PenaltyTotal(players) == PlayerPenaltySum(ps)
  {
    if players != [] {
      var init := players[..|players| - 1];
      TeamTotals(init);
      var ps := seq(|players|, j requires 0 <= j < |players| => EntryPlayer(players[j]));
      assert ps[..|ps| - 1] == seq(|init|, j requires 0 <= j < |init| => EntryPlayer(init[j]));
    }
  }

  function PlayerScoreSum(ps: seq<Player>): int
  {
    if ps == [] then 0 else PlayerScoreSum(ps[..|ps| - 1]) + ps[|ps| - 1].score
  }

  function PlayerPenaltySum(ps: seq<Player>): int
  {
    if ps == [] then 0 else PlayerPenaltySum(ps[..|ps| - 1]) + ps[|ps| - 1].penalty
  }

  /**
   * A match with no title and no team name to read a type from keeps the
   * type "" and is neither inferred nor skipped.
   */
  lemma NoSourceKeepsEmptyType(raw: RawMatch, boardID: string)
    requires raw.data.Some? && !NumberThrows(raw.data.value) && raw.data.value.teams.Some?
    requires !HasTitle(raw.data.value) && !(HasTag(raw.data.value) && HasName(raw.data.value))
    ensures Shaped(raw, boardID).Some? && Shaped(raw, boardID).value.lobbyType == ""
    ensures Shaped(raw, boardID).value.teams == SoloTeams(raw.data.value.teams.value)
  {
    assert NameAndType(raw.data.value) == ("", Some(""));
    EmptyNotTeamMode();
  }

  /** A stored match without a `teams` property is skipped, whatever its title. */
  lemma NoTeamsSkipped(raw: RawMatch, boardID: string)
    requires raw.data.Some? && raw.data.value.teams.None?
    ensures Shaped(raw, boardID).None?
  {
  }

  /**
   * A stored match is kept exactly when its data is valid JSON, its lobby
   * number lookup does not throw, it has a `teams` property, and it has a
   * lobby type, read or inferred.
   */
  lemma KeptExactly(raw: RawMatch, boardID: string)
    ensures Shaped(raw, boardID).Some? <==>
      raw.data.Some? && !NumberThrows(raw.data.value) && !NoTeams(raw.data.value) && TypeOf(raw.data.value, boardID).Some?
  {
  }

  lemma EmptyNotTeamMode()
    ensures !Lobby.IsTeamMode("")
  {
    forall t ensures |Lobby.Code(t)| > 0 {
    }
  }

  /**
   * An inferred type is rated on the board, has the match's default
   * counts, and is the first such type in the leaderboard table.
   */
  lemma InferredType(d: MatchData, boardID: string)
    requires d.teams.Some? && NameAndType(d).1.None? && TypeOf(d, boardID).Some?
    ensures exists t :: Lobby.Code(t) == TypeOf(d, boardID).value && Lobby.Board(t) == Some(boardID)
                        && DefaultCounts(t) == (|d.teams.value|, PlayerTotal(d.teams.value))
  {
    var types := BoardTypes(Lobby.AllTypes, boardID);
    var k := FirstWithCounts(types, (|d.teams.value|, PlayerTotal(d.teams.value))).value;
    assert types[k] in types;
  }

  /** In every default, a team lobby holds as many players as teams times the team size, and other lobbies one player per team. */
  lemma DefaultCountsConsistent(t: Lobby.LobbyType)
    ensures t in Lobby.DuoModes || t == Lobby.InstaDuos ==> DefaultCounts(t).1 == 2 * DefaultCounts(t).0
    ensures t in Lobby.TrioModes || t == Lobby.Insta3v3 ==> DefaultCounts(t).1 == 3 * DefaultCounts(t).0
    ensures t in Lobby.QuadModes || t == Lobby.Insta4v4 ==> DefaultCounts(t).1 == 4 * DefaultCounts(t).0
    ensures !Lobby.IsTeamType(t) ==> DefaultCounts(t).1 == DefaultCounts(t).0
  {
  }
}
