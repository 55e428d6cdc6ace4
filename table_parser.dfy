// `TableParser.parse` (utils/scores_calculation/table_parser.js): the line
// loop that turns the lines of a results table into teams of players.
// The loop's working data (`this._data`) is the `State` below; `Step` says
// what one line does to it, `Run` what the whole loop does, and
// `ParseTable` what `parse` returns. The class `TableParser` carries the
// same data in fields and is proved to follow these functions line by line.
//
// The source keeps the open team in `this._data.team`; in team mode that is
// always the last element of `teams` (a team line pushes it, and the only
// pop removes the element before the push), so the model reads it from there.
module TableParsing {
  import opened Wrappers
  import opened Strings
  import opened Records
  import opened Lobby
  import opened Ranking
  import opened TeamRanking
  import opened TableLexer

  /** `previousLineType`: "", "comment", "team", "player" or "penalty". */
  datatype LineKind = NoLine | CommentKind | TeamKind | PlayerKind | PenaltyKind

  /** The kinds of line after which a `Penalty`/`Bonus` line counts. */
  predicate OpensPenalty(k: LineKind)
  {
    k.TeamKind? || k.PlayerKind? || k.PenaltyKind?
  }

  const HeaderNotFound: string := "Invalid table format. Lobby header not found."
  const BadHeader: string := "Could not parse lobby number / type / name."
  const DuplicateNames: string := "Duplicate player names."
  const NoOpenTeam: string := "Invalid team initialization."
  const InvalidTeams: string := "Invalid teams."
  /** The string form of the `TypeError` JavaScript throws when `entries` is called on the empty template string. */
  const TemplateEntries: string := "TypeError: " + "this._template.entries is not a function"

  /**
   * The string form of `new Error(message)`. The catch in `parse` stores the
   * thrown object itself as the parser's error, so wherever that error is
   * turned into text it reads "Error: " and the message.
   */
  function Thrown(message: string): (e: string)
    ensures |e| == |message| + 7 && e[7..] == message
  {
    "Error: " + message
  }

  /** `this._data` during the line loop. */
  datatype State = State(
    template: seq<string>,
    processed: seq<string>,
    isTeamMode: bool,
    teams: seq<Team>,
    code: nat,
    isLastLineTeam: bool,
    previous: LineKind)

  datatype Outcome = Next(s: State) | Fail(error: string)

  /** What `_getPlayerData` guarantees about a player's numbers. */
  predicate PlayerOk(p: Player)
  {
    |p.scores| <= 32 && (forall k :: 0 <= k < |p.scores| ==> 0 <= p.scores[k] <= 99)
    && p.score == Sum(p.scores) && -99 <= p.penalty <= 99
  }

  function Scores(players: seq<Player>): (r: seq<int>)
    ensures |r| == |players| && forall i :: 0 <= i < |players| ==> r[i] == players[i].score
  {
    if players == [] then [] else [players[0].score] + Scores(players[1..])
  }

  /** A team's score is the total of its players' scores, and every player is well formed. */
  predicate TeamOk(t: Team)
  {
    t.score == Sum(Scores(t.players)) && forall j :: 0 <= j < |t.players| ==> PlayerOk(t.players[j])
  }

  /** In solo mode every team is one player, named after that player. */
  predicate SoloTeams(teams: seq<Team>)
  {
    forall i :: 0 <= i < |teams| ==>
      |teams[i].players| == 1 && teams[i].name == teams[i].players[0].name && teams[i].color == ""
  }

  predicate TeamsOk(teams: seq<Team>)
  {
    forall i :: 0 <= i < |teams| ==> TeamOk(teams[i])
  }

  /** The flags of the loop agree with its teams. */
  predicate Shape(s: State)
  {
    |s.template| >= 1
    && (s.isLastLineTeam ==> s.isTeamMode && s.code >= 1 && s.teams != [] && s.teams[|s.teams| - 1].players == [])
    && (s.isTeamMode && OpensPenalty(s.previous) ==> s.teams != [])
  }

  /** The names seen so far are exactly the players' names, without repeats. */
  predicate Tracked(s: State)
  {
    Names(AllPlayers(s.teams)) == s.processed && Distinct(s.processed)
  }

  /** What holds of `this._data` before and after every line. */
  predicate Inv(s: State)
  {
    Shape(s) && Tracked(s) && TeamsOk(s.teams) && (!s.isTeamMode ==> SoloTeams(s.teams))
  }

  /** The data the loop starts from: the header line in the template, no team, default letter `A`. */
  function Initial(isTeamMode: bool, header: string): (s: State)
    ensures Inv(s) && s.isTeamMode == isTeamMode
  {
    State([header + "\n\n"], [], isTeamMode, [], 65, false, NoLine)
  }

  // ---- Facts about the player list of a match ----

  lemma AllPlayersSnoc(init: seq<Team>, t: Team)
    ensures AllPlayers(init + [t]) == AllPlayers(init) + t.players
  {
    assert (init + [t])[..|init|] == init;
  }

  lemma {:induction false} AllPlayersConcat(a: seq<Team>, b: seq<Team>)
    ensures AllPlayers(a + b) == AllPlayers(a) + AllPlayers(b)
    decreases |b|
  {
    if b == [] {
      assert a + b == a;
    } else {
      var init := b[..|b| - 1];
      assert a + b == (a + init) + [b[|b| - 1]];
      AllPlayersSnoc(a + init, b[|b| - 1]);
      AllPlayersSnoc(init, b[|b| - 1]);
      assert b == init + [b[|b| - 1]];
      AllPlayersConcat(a, init);
    }
  }

  lemma NamesSnoc(ps: seq<Player>, p: Player)
    ensures Names(ps + [p]) == Names(ps) + [p.name]
  {
    assert Names(ps + [p]) == Names(ps) + [p.name];
  }

  lemma ScoresSnoc(ps: seq<Player>, p: Player)
    ensures Sum(Scores(ps + [p])) == Sum(Scores(ps)) + p.score
  {
    var xs := Scores(ps + [p]);
    assert xs[..|xs| - 1] == Scores(ps);
  }

  lemma TeamsOkSnoc(teams: seq<Team>, t: Team)
    requires TeamsOk(teams) && TeamOk(t)
    ensures TeamsOk(teams + [t])
  {
    assert forall i :: 0 <= i < |teams| ==> (teams + [t])[i] == teams[i];
  }

  lemma TeamsOkInit(teams: seq<Team>)
    requires teams != [] && TeamsOk(teams)
    ensures TeamsOk(teams[..|teams| - 1])
  {
    var init := teams[..|teams| - 1];
    assert forall i :: 0 <= i < |init| ==> init[i] == teams[i];
  }

  /** Replacing the last team by `t` keeps the teams well formed and changes the player list only at its end. */
  lemma ReplaceLast(teams: seq<Team>, t: Team)
    requires teams != [] && TeamsOk(teams) && TeamOk(t)
    ensures TeamsOk(teams[..|teams| - 1]) && TeamsOk(teams[..|teams| - 1] + [t])
    ensures AllPlayers(teams) == AllPlayers(teams[..|teams| - 1]) + teams[|teams| - 1].players
    ensures AllPlayers(teams[..|teams| - 1] + [t]) == AllPlayers(teams[..|teams| - 1]) + t.players
  {
    var init := teams[..|teams| - 1];
    TeamsOkInit(teams);
    TeamsOkSnoc(init, t);
    AllPlayersSnoc(init, t);
  }

  /** Replacing the last team by one with the same players keeps the teams well formed and the player list. */
  lemma SamePlayersLast(teams: seq<Team>, t: Team)
    requires teams != [] && TeamsOk(teams) && t.players == teams[|teams| - 1].players && t.score == teams[|teams| - 1].score
    ensures TeamsOk(teams[..|teams| - 1] + [t]) && AllPlayers(teams[..|teams| - 1] + [t]) == AllPlayers(teams)
  {
    var init := teams[..|teams| - 1];
    assert TeamOk(t);
    TeamsOkInit(teams);
    TeamsOkSnoc(init, t);
    assert AllPlayers(teams) == AllPlayers(init) + t.players;
    AllPlayersSnoc(init, t);
  }

  // ---- One line ----

  /**
   * `_processTeamPenaltyLine`: only in team mode, right after a team, a
   * player or another penalty line, the clamped and negated amount goes
   * to the last team, and the line goes to the template.
   */
  function PenaltyStep(s: State, line: string, penalty: int): (r: State)
    requires Shape(s)
    ensures Shape(r) && r.isTeamMode == s.isTeamMode
  {
    if !(s.isTeamMode && OpensPenalty(s.previous)) then s
    else
      var last := s.teams[|s.teams| - 1];
      var t := last.(penalty := last.penalty + penalty);
      s.(teams := s.teams[..|s.teams| - 1] + [t], template := s.template + [line + "\n"], previous := PenaltyKind)
  }

  /** A penalty changes no player, so the teams stay well formed. */
  lemma PenaltyStepInv(s: State, line: string, penalty: int)
    requires Inv(s)
    ensures Inv(PenaltyStep(s, line, penalty))
  {
    if s.isTeamMode && OpensPenalty(s.previous) {
      PenalizedInv(s, line, penalty);
    }
  }

  lemma PenalizedInv(s: State, line: string, penalty: int)
    requires Inv(s) && s.isTeamMode && s.teams != []
    ensures var last := s.teams[|s.teams| - 1];
      Inv(s.(teams := s.teams[..|s.teams| - 1] + [last.(penalty := last.penalty + penalty)],
             template := s.template + [line + "\n"], previous := PenaltyKind))
  {
    var last := s.teams[|s.teams| - 1];
    SamePlayersLast(s.teams, last.(penalty := last.penalty + penalty));
  }

  /** The teams and template lines left when a team line takes the place of the team opened just before. */
  function Reopened(s: State): (r: (seq<Team>, seq<string>))
    requires Shape(s)
    ensures r.0 == if s.isLastLineTeam then s.teams[..|s.teams| - 1] else s.teams
    ensures r.1 == if s.isLastLineTeam then s.template[..|s.template| - 1] else s.template
  {
    if |s.teams| > 0 && s.isLastLineTeam then (s.teams[..|s.teams| - 1], s.template[..|s.template| - 1])
    else (s.teams, s.template)
  }

  /** The team dropped by `Reopened` has no players, so the player list and the teams' well-formedness stay. */
  lemma ReopenedInv(s: State)
    requires Inv(s)
    ensures TeamsOk(Reopened(s).0) && AllPlayers(Reopened(s).0) == AllPlayers(s.teams)
  {
    if s.isLastLineTeam {
      ReplaceLast(s.teams, s.teams[|s.teams| - 1]);
      assert AllPlayers(s.teams) == AllPlayers(s.teams[..|s.teams| - 1]) + [];
    }
  }

  lemma PushTeam(s: State, teams: seq<Team>, template: seq<string>, team: Team, code: nat)
    requires Inv(s) && s.isTeamMode && TeamsOk(teams) && AllPlayers(teams) == AllPlayers(s.teams)
    requires team.players == [] && team.score == 0 && template != []
    ensures Inv(s.(template := template, teams := teams + [team], code := code + 1, isLastLineTeam := true))
  {
    AllPlayersSnoc(teams, team);
    assert TeamOk(team);
    TeamsOkSnoc(teams, team);
  }

  /** The team a team line opens: `_getTeamData`'s name, colour and penalty, no players, no score. */
  function OpenedTeam(line: string, code: nat): (t: Team)
    ensures t.players == [] && t.score == 0 && t.name != []
  {
    var d := TeamData(line, code);
    Team(d.name, d.color, [], 0, d.penalty, 0, [], 0)
  }

  /**
   * `_processTeamLine`: a team line opens a team with no players, named
   * from the line or after the current default letter. Right after
   * another team line it takes that team's place (and its template
   * line's) and the letter does not advance; otherwise the teams before
   * it are kept and the letter advances.
   */
  /** The letter a team line without a name is given: that of the team it replaces, or the current one. */
  function TeamCode(s: State): (c: nat)
    requires Shape(s)
    ensures s.isLastLineTeam ==> c + 1 == s.code
  {
    if s.isLastLineTeam then s.code - 1 else s.code
  }

  function TeamStep(s: State, line: string, team: Team): (r: State)
    requires Shape(s) && s.isTeamMode && team.players == []
    ensures Shape(r) && r.teams != [] && r.previous == s.previous && r.isTeamMode && r.isLastLineTeam
    ensures r.code == TeamCode(s) + 1
    ensures r.teams == (if s.isLastLineTeam then s.teams[..|s.teams| - 1] else s.teams) + [team]
    ensures r.template == (if s.isLastLineTeam then s.template[..|s.template| - 1] else s.template)
                          + (if s.previous.PenaltyKind? || s.previous.PlayerKind? then ["\n"] else []) + [line + "\n"]
    ensures r.processed == s.processed
  {
    var (teams, template) := Reopened(s);
    var gap := if s.previous.PenaltyKind? || s.previous.PlayerKind? then ["\n"] else [];
    s.(template := template + gap + [line + "\n"], teams := teams + [team], code := TeamCode(s) + 1, isLastLineTeam := true)
  }

  /** A team line adds a team without players and so keeps the invariant. */
  lemma TeamStepInv(s: State, line: string, team: Team)
    requires Inv(s) && s.isTeamMode && team.players == [] && team.score == 0
    ensures Inv(TeamStep(s, line, team))
  {
    ReopenedInv(s);
    var r := TeamStep(s, line, team);
    PushTeam(s, Reopened(s).0, r.template, team, TeamCode(s));
  }

  /** A player as `_getPlayerData` returns it. */
  predicate LineOk(d: PlayerLine)
  {
    |d.scores| <= 32 && (forall k :: 0 <= k < |d.scores| ==> 0 <= d.scores[k] <= 99)
    && d.score == Sum(d.scores) && -99 <= d.penalty <= 99
  }

  function NewPlayer(d: PlayerLine): (p: Player)
    requires LineOk(d)
    ensures PlayerOk(p) && p.name == d.name
  {
    Player(d.name, d.flag, d.scores, d.score, d.penalty, None, 0, 0)
  }

  lemma DistinctSnoc(names: seq<string>, n: string)
    requires Distinct(names) && n !in names
    ensures Distinct(names + [n])
  {
    var r := names + [n];
    forall i, j | 0 <= i < j < |r| ensures r[i] != r[j] {
      if j == |names| {
        assert r[i] == names[i];
      }
    }
  }

  /** The open team with `p` added: its score and penalty grow by the player's. */
  function Joined(last: Team, p: Player): Team
  {
    last.(players := last.players + [p], score := last.score + p.score, penalty := last.penalty + p.penalty)
  }

  lemma JoinedOk(teams: seq<Team>, p: Player)
    requires teams != [] && TeamsOk(teams) && PlayerOk(p)
    ensures TeamsOk(teams[..|teams| - 1] + [Joined(teams[|teams| - 1], p)])
  {
    var last := teams[|teams| - 1];
    ScoresSnoc(last.players, p);
    assert TeamOk(Joined(last, p));
    TeamsOkInit(teams);
    TeamsOkSnoc(teams[..|teams| - 1], Joined(last, p));
  }

  lemma JoinedPlayers(teams: seq<Team>, p: Player)
    requires teams != []
    ensures Names(AllPlayers(teams[..|teams| - 1] + [Joined(teams[|teams| - 1], p)])) == Names(AllPlayers(teams)) + [p.name]
  {
    var init, last := teams[..|teams| - 1], teams[|teams| - 1];
    var j := Joined(last, p);
    var all := AllPlayers(teams);
    assert all == AllPlayers(init) + last.players;
    AllPlayersSnoc(init, j);
    assert AllPlayers(init + [j]) == all + [p];
    NamesSnoc(all, p);
  }

  lemma JoinTeam(s: State, p: Player)
    requires Inv(s) && s.isTeamMode && s.teams != [] && PlayerOk(p) && p.name !in s.processed
    ensures Inv(s.(processed := s.processed + [p.name], teams := s.teams[..|s.teams| - 1] + [Joined(s.teams[|s.teams| - 1], p)], isLastLineTeam := false))
  {
    JoinedOk(s.teams, p);
    JoinedPlayers(s.teams, p);
    DistinctSnoc(s.processed, p.name);
  }

  lemma SoloTeam(s: State, p: Player)
    requires Inv(s) && !s.isTeamMode && PlayerOk(p) && p.name !in s.processed
    ensures Inv(s.(processed := s.processed + [p.name], teams := s.teams + [Team(p.name, "", [p], p.score, p.penalty, 0, [], 0)]))
  {
    var t := Team(p.name, "", [p], p.score, p.penalty, 0, [], 0);
    assert Scores([p]) == [p.score];
    assert Sum([p.score]) == Sum([]) + p.score by { assert [p.score][..0] == []; }
    assert TeamOk(t);
    TeamsOkSnoc(s.teams, t);
    AllPlayersSnoc(s.teams, t);
    NamesSnoc(AllPlayers(s.teams), p);
    DistinctSnoc(s.processed, p.name);
    assert forall i :: 0 <= i < |s.teams| ==> (s.teams + [t])[i] == s.teams[i];
  }

  /**
   * `_processTeamPlayer` and `_processSoloPlayer`: a name already seen
   * fails, a team-mode player with no open team fails; otherwise the
   * player joins the open team (adding its score and penalty to the
   * team's) or, in solo mode, becomes a team of its own.
   */
  function AddPlayer(s: State, d: PlayerLine): (r: Outcome)
    requires Shape(s) && LineOk(d)
    ensures r.Next? ==> Shape(r.s) && r.s.teams != [] && r.s.isTeamMode == s.isTeamMode
    ensures r.Fail? ==> r.error == DuplicateNames || r.error == NoOpenTeam
  {
    if d.name in s.processed then Fail(DuplicateNames)
    else if s.isTeamMode && s.teams == [] then Fail(NoOpenTeam)
    else
      var p := NewPlayer(d);
      if s.isTeamMode then
        Next(s.(processed := s.processed + [d.name], teams := s.teams[..|s.teams| - 1] + [Joined(s.teams[|s.teams| - 1], p)], isLastLineTeam := false))
      else
        Next(s.(processed := s.processed + [d.name], teams := s.teams + [Team(d.name, "", [p], d.score, d.penalty, 0, [], 0)]))
  }

  /** A player is added only under a new name, so names stay distinct and scores add up. */
  lemma AddPlayerInv(s: State, d: PlayerLine)
    requires Inv(s) && LineOk(d)
    ensures AddPlayer(s, d).Next? ==> Inv(AddPlayer(s, d).s)
  {
    if d.name !in s.processed && !(s.isTeamMode && s.teams == []) {
      var p := NewPlayer(d);
      if s.isTeamMode {
        assert AddPlayer(s, d).s == s.(processed := s.processed + [p.name], teams := s.teams[..|s.teams| - 1] + [Joined(s.teams[|s.teams| - 1], p)], isLastLineTeam := false);
        JoinTeam(s, p);
      } else {
        assert AddPlayer(s, d).s == s.(processed := s.processed + [p.name], teams := s.teams + [Team(p.name, "", [p], p.score, p.penalty, 0, [], 0)]);
        SoloTeam(s, p);
      }
    }
  }

  /** `_processPlayerLine`: add the player, then write the line to the template. */
  function PlayerStep(s: State, line: string, d: PlayerLine): (r: Outcome)
    requires Shape(s) && LineOk(d)
    ensures r.Next? ==> Shape(r.s) && r.s.teams != [] && r.s.isTeamMode == s.isTeamMode
    ensures r.Fail? ==> r.error == DuplicateNames || r.error == NoOpenTeam
  {
    match AddPlayer(s, d)
    case Fail(e) => Fail(e)
    case Next(t) => Next(t.(template := t.template + [line + "\n"]))
  }

  /** The player a player line describes. */
  function LinePlayer(line: string): (d: PlayerLine)
    requires IsPlayerLine(line)
    ensures LineOk(d)
  {
    PlayerData(PlayerMatch(line).value)
  }

  lemma Relabel(s: State, k: LineKind)
    requires Inv(s) && (s.isTeamMode && OpensPenalty(k) ==> s.teams != [])
    ensures Inv(s.(previous := k))
  {
  }

  /** What the loop in `parse` takes a line for, checked in its order. */
  datatype LineClass = Comment | PenaltyEntry(amount: string) | TeamHeading | PlayerEntry(d: PlayerLine) | Ignored

  /**
   * A comment line first, then a `Penalty`/`Bonus` line, then (in team
   * mode) a line that may name a team, then a player line; anything
   * else is ignored.
   */
  /** What a line of class `c` is known to hold. */
  predicate Fits(c: LineClass, line: string, isTeamMode: bool)
  {
    (c.PenaltyEntry? ==> PenaltyWord(c.amount))
    && (c.PlayerEntry? ==> LineOk(c.d))
    && (c.TeamHeading? ==> isTeamMode)
  }

  function Classify(line: string, isTeamMode: bool): (c: LineClass)
    ensures c.PenaltyEntry? ==> IsPenaltyLine(line) && c.amount == PenaltyLineAmount(line).value && PenaltyWord(c.amount)
    ensures c.PlayerEntry? ==> IsPlayerLine(line) && c.d == LinePlayer(line) && LineOk(c.d)
    ensures c.TeamHeading? ==> isTeamMode
    ensures Fits(c, line, isTeamMode)
  {
    if IsCommentLine(line) then Comment
    else if IsPenaltyLine(line) then PenaltyEntry(PenaltyLineAmount(line).value)
    else if IsPossibleTeamLine(line, isTeamMode) then TeamHeading
    else if IsPlayerLine(line) then PlayerEntry(LinePlayer(line))
    else Ignored
  }

  /** The errors a line can raise. */
  predicate LineError(e: string)
  {
    e == DuplicateNames || e == NoOpenTeam
  }

  /**
   * One pass of the loop in `parse` on a line of class `c`: a comment
   * line only marks itself; a team line is ignored when it is the last
   * line; a player line may fail.
   */
  function Apply(s: State, c: LineClass, line: string, isLast: bool): (r: Outcome)
    requires Shape(s)
    requires c.PenaltyEntry? ==> PenaltyWord(c.amount)
    requires c.PlayerEntry? ==> LineOk(c.d)
    requires c.TeamHeading? ==> s.isTeamMode
    ensures r.Next? ==> Shape(r.s) && r.s.isTeamMode == s.isTeamMode
    ensures r.Fail? ==> LineError(r.error)
  {
    match c
    case Comment => Next(s.(previous := CommentKind))
    case PenaltyEntry(amount) => Next(PenaltyStep(s, line, SignedPenalty(PenaltyValue(amount))))
    case TeamHeading =>
      if isLast then Next(s)
      else Next(TeamStep(s, line, OpenedTeam(line, TeamCode(s))).(previous := TeamKind))
    case PlayerEntry(d) =>
      (match PlayerStep(s, line, d)
       case Fail(e) => Fail(e)
       case Next(t) => Next(t.(previous := PlayerKind)))
    case Ignored => Next(s)
  }

  /**
   * Every line keeps the invariant: the player names stay exactly the
   * names seen, without repeats, every team's score is its players'
   * total, and in solo mode every team is one player.
   */
  lemma ApplyInv(s: State, c: LineClass, line: string, isLast: bool)
    requires Inv(s)
    requires c.PenaltyEntry? ==> PenaltyWord(c.amount)
    requires c.PlayerEntry? ==> LineOk(c.d)
    requires c.TeamHeading? ==> s.isTeamMode
    ensures Apply(s, c, line, isLast).Next? ==> Inv(Apply(s, c, line, isLast).s)
  {
    match c
    case Comment => Relabel(s, CommentKind);
    case PenaltyEntry(amount) => PenaltyStepInv(s, line, SignedPenalty(PenaltyValue(amount)));
    case TeamHeading =>
      if !isLast {
        var t := TeamStep(s, line, OpenedTeam(line, TeamCode(s)));
        TeamStepInv(s, line, OpenedTeam(line, TeamCode(s)));
        Relabel(t, TeamKind);
      }
    case PlayerEntry(d) =>
      AddPlayerInv(s, d);
      var o := AddPlayer(s, d);
      if o.Next? {
        Relabel(o.s.(template := o.s.template + [line + "\n"]), PlayerKind);
      }
    case Ignored =>
  }

  function Step(s: State, line: string, isLast: bool): (r: Outcome)
    requires Shape(s)
    ensures r.Next? ==> Shape(r.s) && r.s.isTeamMode == s.isTeamMode
    ensures r.Fail? ==> LineError(r.error)
  {
    Apply(s, Classify(line, s.isTeamMode), line, isLast)
  }

  /** The loop over `lines[i..]`; it stops at the first failing line. */
  function Run(s: State, lines: seq<string>, i: nat): (r: Outcome)
    requires Shape(s) && i <= |lines|
    ensures r.Next? ==> Shape(r.s) && r.s.isTeamMode == s.isTeamMode
    ensures r.Fail? ==> LineError(r.error)
    decreases |lines| - i
  {
    if i == |lines| then Next(s)
    else
      match Step(s, lines[i], i == |lines| - 1)
      case Fail(e) => Fail(e)
      case Next(t) => Run(t, lines, i + 1)
  }

  /** The loop keeps the invariant from line to line. */
  lemma {:induction false} RunInv(s: State, lines: seq<string>, i: nat)
    requires Inv(s) && i <= |lines|
    ensures Run(s, lines, i).Next? ==> Inv(Run(s, lines, i).s)
    decreases |lines| - i
  {
    if i < |lines| {
      ApplyInv(s, Classify(lines[i], s.isTeamMode), lines[i], i == |lines| - 1);
      match Step(s, lines[i], i == |lines| - 1)
      case Fail(e) =>
      case Next(t) => RunInv(t, lines, i + 1);
    }
  }

  // ---- The whole table ----

  /** The header and the data the loop ends with, or the error that stopped `parse` before its end. */
  datatype Read = Read(header: HeaderData, lobbyType: string, final: State) | Unread(error: string)

  /** A finished loop on a rated lobby type, its mode fixed by that type. */
  predicate ReadOk(r: Read)
  {
    r.Read? && Shape(r.final) && BoardOf(r.lobbyType).Some? && r.final.isTeamMode == IsTeamMode(r.lobbyType)
  }

  /** The lobby type text of a header line. */
  function HeaderType(line: string): Option<string>
    requires IsHeaderLine(line)
  {
    ParseLobbyType(Trim(HeaderMatch(line).value.rest))
  }

  /** The loop over the lines after the header, for a rated lobby type. */
  function LoopLines(lines: seq<string>, ty: string): (r: Read)
    requires |lines| >= 1 && IsHeaderLine(lines[0]) && BoardOf(ty).Some?
    ensures r.Read? ==> ReadOk(r) && r.lobbyType == ty
    ensures r.Unread? ==> LineError(r.error)
  {
    match Run(Initial(IsTeamMode(ty), lines[0]), lines, 1)
    case Fail(e) => Unread(e)
    case Next(s) => Read(HeaderDataOf(HeaderMatch(lines[0]).value), ty, s)
  }

  /** The header (always `lines[0]`) and the loop over the lines after it. */
  function ReadLines(lines: seq<string>): (r: Read)
    requires |lines| >= 1 && IsHeaderLine(lines[0])
    ensures r.Read? ==> ReadOk(r) && HeaderType(lines[0]) == Some(r.lobbyType)
    ensures r.Unread? ==> (r.error == BadHeader <==> HeaderType(lines[0]).None?)
    ensures r.Unread? ==> r.error == BadHeader || LineError(r.error)
  {
    var ty := HeaderType(lines[0]);
    if ty.None? then Unread(BadHeader) else LoopLines(lines, ty.value)
  }

  lemma ErrorsDiffer()
    ensures HeaderNotFound != BadHeader && !LineError(HeaderNotFound) && !LineError(BadHeader)
    ensures InvalidTeams != HeaderNotFound && InvalidTeams != BadHeader && !LineError(InvalidTeams)
    ensures forall m, n :: Thrown(m) == Thrown(n) ==> m == n
    ensures forall m :: Thrown(m) != TemplateEntries
  {
    assert |HeaderNotFound| == 45 && |BadHeader| == 43 && |DuplicateNames| == 23 && |NoOpenTeam| == 28 && |InvalidTeams| == 14;
    forall m
      ensures Thrown(m) != TemplateEntries
    {
      assert Thrown(m)[0] == 'E' && TemplateEntries[0] == 'T';
    }
  }

  /**
   * A refused table leaves as its error the text of the `Error` thrown for
   * the header or line that failed, or for invalid teams.
   */
  lemma RejectedMessage(table: string)
    requires ParseTable(table).Rejected?
    ensures var r := ReadTable(table);
      ParseTable(table).error == Thrown(if r.Unread? then r.error else InvalidTeams)
  {
  }

  /**
   * Everything `parse` does up to the empty-team clean-up. It fails for a
   * missing header exactly when no trimmed line is a header line.
   */
  function ReadTable(table: string): (r: Read)
    ensures r.Read? ==> ReadOk(r)
    ensures (r.Unread? && r.error == HeaderNotFound) <==>
      forall l :: l in NonEmptyTrimmed(Split(RemoveBeforeLobby(table), "\n")) ==> !IsHeaderLine(l)
    ensures r.Unread? && r.error != HeaderNotFound ==> r.error == BadHeader || LineError(r.error)
  {
    ErrorsDiffer();
    match GetLines(table)
    case None => Unread(HeaderNotFound)
    case Some(lines) => ReadLines(lines)
  }

  /** `ReadTable` told by the outcome of the loop over the lines after the header. */
  lemma ReadTableLoop(table: string)
    requires GetLines(table).Some? && HeaderType(GetLines(table).value[0]).Some?
    ensures var lines := GetLines(table).value;
      var ty := HeaderType(lines[0]).value;
      var o := Run(Initial(IsTeamMode(ty), lines[0]), lines, 1);
      ReadTable(table) == if o.Fail? then Unread(o.error) else Read(HeaderDataOf(HeaderMatch(lines[0]).value), ty, o.s)
  {
  }

  /** Whenever the loop ends, its data satisfies the invariant. */
  lemma ReadTableInv(table: string)
    ensures ReadTable(table).Read? ==> Inv(ReadTable(table).final)
  {
    match GetLines(table)
    case None =>
    case Some(lines) =>
      var ty := HeaderType(lines[0]);
      if ty.Some? {
        RunInv(Initial(IsTeamMode(ty.value), lines[0]), lines, 1);
      }
  }

  /** `_areTeamsValid`: at least one team, and no team without players. */
  predicate TeamsValid(teams: seq<Team>)
  {
    !(teams == [] || exists i :: 0 <= i < |teams| && teams[i].players == [])
  }

  /** What `parse` returns, with the teams as collected (before `sortTeams`), and the template it keeps. */
  datatype Table = Table(m: Match, isTeamMode: bool)
  datatype Parse = Parsed(t: Table, template: string) | Rejected(error: string)

  /** The result once the teams to keep are known: "Invalid teams." unless they are valid. */
  function Finish(comments: seq<string>, r: Read, teams: seq<Team>): (p: Parse)
    requires ReadOk(r)
    ensures p.Parsed? <==> TeamsValid(teams)
    ensures p.Parsed? ==>
      p.t.m.teams == teams && p.t.m.lobbyType == r.lobbyType && p.t.isTeamMode == r.final.isTeamMode
      && Some(p.t.m.boardID) == BoardOf(r.lobbyType) && p.t.m.lobbyNumber == Number(r.header.number)
    ensures p.Rejected? ==> p.error == Thrown(InvalidTeams)
  {
    if !TeamsValid(teams) then Rejected(Thrown(InvalidTeams))
    else
      var m := Match("", BoardOf(r.lobbyType).value, None, Number(r.header.number), r.header.name, r.lobbyType, teams);
      Parsed(Table(m, r.final.isTeamMode), FinalTemplate(comments, r.final.template))
  }

  /** The teams that have players, in their order. */
  function NonEmptyTeams(teams: seq<Team>): (r: seq<Team>)
    ensures forall i :: 0 <= i < |r| ==> r[i].players != []
  {
    if teams == [] then []
    else (if teams[0].players == [] then [] else [teams[0]]) + NonEmptyTeams(teams[1..])
  }

  /** The clean-up keeps exactly the teams with players. */
  lemma {:induction false} NonEmptyTeamsMembers(teams: seq<Team>)
    ensures forall i :: 0 <= i < |NonEmptyTeams(teams)| ==> NonEmptyTeams(teams)[i] in teams
    ensures forall i :: 0 <= i < |teams| && teams[i].players != [] ==> teams[i] in NonEmptyTeams(teams)
  {
    if teams != [] {
      NonEmptyTeamsMembers(teams[1..]);
      var head := if teams[0].players == [] then [] else [teams[0]];
      var rest := NonEmptyTeams(teams[1..]);
      assert NonEmptyTeams(teams) == head + rest;
      forall i | 0 <= i < |head + rest|
        ensures (head + rest)[i] in teams
      {
        if i >= |head| {
          assert (head + rest)[i] == rest[i - |head|];
          assert rest[i - |head|] in teams[1..];
        }
      }
      forall i | 0 <= i < |teams| && teams[i].players != []
        ensures teams[i] in head + rest
      {
        if i > 0 {
          assert teams[i] == teams[1..][i - 1];
          assert teams[i] in rest;
        }
      }
    }
  }

  lemma {:induction false} NonEmptyTeamsPlayers(teams: seq<Team>)
    ensures AllPlayers(NonEmptyTeams(teams)) == AllPlayers(teams)
  {
    if teams != [] {
      NonEmptyTeamsPlayers(teams[1..]);
      var head := if teams[0].players == [] then [] else [teams[0]];
      AllPlayersConcat(head, NonEmptyTeams(teams[1..]));
      AllPlayersConcat([teams[0]], teams[1..]);
      assert teams == [teams[0]] + teams[1..];
      assert AllPlayers([teams[0]]) == teams[0].players by {
        AllPlayersSnoc([], teams[0]);
        assert [] + [teams[0]] == [teams[0]];
      }
      if teams[0].players == [] {
        assert AllPlayers(head) == [];
      }
    }
  }

  /**
   * The clean-up as written: an empty team left after the loop makes it
   * call `entries` on the template string, which throws.
   */
  function ConcludeAsWritten(comments: seq<string>, r: Read): (p: Parse)
    requires r.Read? ==> ReadOk(r)
  {
    if r.Unread? then Rejected(Thrown(r.error))
    else if exists i :: 0 <= i < |r.final.teams| && r.final.teams[i].players == [] then Rejected(TemplateEntries)
    else Finish(comments, r, r.final.teams)
  }

  function ParseAsWritten(table: string): Parse
  {
    ConcludeAsWritten(LobbyComments(table), ReadTable(table))
  }

  /**
   * The clean-up as intended: empty teams are dropped before the teams
   * are checked.
   */
  function Conclude(comments: seq<string>, r: Read): (p: Parse)
    requires r.Read? ==> ReadOk(r)
    ensures p.Rejected? ==> (r.Unread? && p.error == Thrown(r.error)) || (r.Read? && p.error == Thrown(InvalidTeams))
  {
    if r.Unread? then Rejected(Thrown(r.error))
    else Finish(comments, r, NonEmptyTeams(r.final.teams))
  }

  lemma ConcludeFacts(comments: seq<string>, r: Read)
    requires r.Read? ==> ReadOk(r) && Inv(r.final)
    ensures var p := Conclude(comments, r);
      p.Parsed? ==>
      var m := p.t.m;
      TeamsValid(m.teams)
      && Distinct(Names(AllPlayers(m.teams)))
      && (forall i :: 0 <= i < |m.teams| ==> TeamOk(m.teams[i]))
      && (!p.t.isTeamMode ==> SoloTeams(m.teams))
      && BoardOf(m.lobbyType) == Some(m.boardID)
      && p.t.isTeamMode == IsTeamMode(m.lobbyType)
  {
    if r.Read? {
      NonEmptyTeamsPlayers(r.final.teams);
      NonEmptyTeamsMembers(r.final.teams);
    }
  }

  /** `parse`, up to `sortTeams`. */
  function ParseTable(table: string): Parse
  {
    Conclude(LobbyComments(table), ReadTable(table))
  }

  /**
   * The match a fresh parser returns for `text`, its teams those of
   * `ParseTable` as `sortTeams` orders them, or the error it leaves.
   */
  predicate ParsedAs(text: string, parsed: Option<Match>, parseError: string)
  {
    var p := ParseTable(text);
    (parsed.None? <==> p.Rejected?)
    && (p.Rejected? ==> parseError == p.error)
    && (p.Parsed? ==> parsed.value == p.t.m.(teams := parsed.value.teams) && Standings(parsed.value.teams, p.t.m.teams))
  }

  /**
   * A parsed table has at least one team, no team without players,
   * distinct player names, well-formed scores, team scores that total
   * their players' and, in solo mode, one team per player named after the
   * player; its board is the lobby type's and its mode follows from it.
   */
  lemma ParsedTable(table: string)
    ensures var p := ParseTable(table);
      p.Parsed? ==>
      var m := p.t.m;
      TeamsValid(m.teams)
      && Distinct(Names(AllPlayers(m.teams)))
      && (forall i :: 0 <= i < |m.teams| ==> TeamOk(m.teams[i]))
      && (!p.t.isTeamMode ==> SoloTeams(m.teams))
      && BoardOf(m.lobbyType) == Some(m.boardID)
      && p.t.isTeamMode == IsTeamMode(m.lobbyType)
  {
    ReadTableInv(table);
    ConcludeFacts(LobbyComments(table), ReadTable(table));
  }

  // ---- What a line does ----

  /** A team line that is the last line of the table is ignored. */
  lemma TrailingTeamLine(s: State, line: string)
    requires Shape(s) && s.isTeamMode
    ensures Apply(s, TeamHeading, line, true) == Next(s)
  {
  }

  /**
   * A `Penalty`/`Bonus` line changes only the last team's penalty, by the
   * clamped and negated amount, and only in team mode right after a team,
   * player or penalty line; otherwise the line changes nothing at all.
   */
  lemma PenaltyLineEffect(s: State, amount: string, line: string, isLast: bool)
    requires Shape(s) && PenaltyWord(amount)
    ensures var r := Apply(s, PenaltyEntry(amount), line, isLast);
      var p := SignedPenalty(PenaltyValue(amount));
      r.Next? && -99 <= p <= 99
      && (s.isTeamMode && OpensPenalty(s.previous) ==>
            |r.s.teams| == |s.teams| && r.s.teams[..|s.teams| - 1] == s.teams[..|s.teams| - 1]
            && r.s.teams[|s.teams| - 1] == s.teams[|s.teams| - 1].(penalty := s.teams[|s.teams| - 1].penalty + p)
            && r.s.previous == PenaltyKind && r.s.processed == s.processed)
      && (!(s.isTeamMode && OpensPenalty(s.previous)) ==> r.s == s)
  {
    var r := Apply(s, PenaltyEntry(amount), line, isLast);
    if s.isTeamMode && OpensPenalty(s.previous) {
      assert r.s.teams[..|s.teams| - 1] == s.teams[..|s.teams| - 1];
    }
  }

  /**
   * A player line whose name is already on a team fails the table with
   * "Duplicate player names.", in either mode.
   */
  lemma DuplicatePlayer(s: State, d: PlayerLine, line: string, isLast: bool, i: nat, j: nat)
    requires Inv(s) && LineOk(d)
    requires i < |s.teams| && j < |s.teams[i].players| && s.teams[i].players[j].name == d.name
    ensures Apply(s, PlayerEntry(d), line, isLast) == Fail(DuplicateNames)
  {
    InAllPlayers(s.teams, i, j);
    var all := AllPlayers(s.teams);
    var k :| 0 <= k < |all| && all[k] == s.teams[i].players[j];
    assert Names(all)[k] == d.name;
  }

  /**
   * A player line with a new name: in team mode the player joins the last
   * team, whose score and penalty grow by the player's (and fails with
   * "Invalid team initialization." when no team line came before); in
   * solo mode it becomes a new team of its own, named after the player.
   */
  lemma NewPlayerLine(s: State, d: PlayerLine, line: string, isLast: bool)
    requires Inv(s) && LineOk(d) && d.name !in Names(AllPlayers(s.teams))
    ensures var r := Apply(s, PlayerEntry(d), line, isLast);
      var p := Player(d.name, d.flag, d.scores, d.score, d.penalty, None, 0, 0);
      (s.isTeamMode && s.teams == [] ==> r == Fail(NoOpenTeam))
      && (s.isTeamMode && s.teams != [] ==>
            var last := s.teams[|s.teams| - 1];
            r.Next? && r.s.teams == s.teams[..|s.teams| - 1] + [last.(players := last.players + [p], score := last.score + d.score, penalty := last.penalty + d.penalty)]
            && !r.s.isLastLineTeam)
      && (!s.isTeamMode ==> r.Next? && r.s.teams == s.teams + [Team(d.name, "", [p], d.score, d.penalty, 0, [], 0)])
      && (r.Next? ==> r.s.previous == PlayerKind && r.s.processed == s.processed + [d.name])
  {
    assert d.name !in s.processed;
    var p := NewPlayer(d);
    if !(s.isTeamMode && s.teams == []) {
      var added := AddPlayer(s, d);
      assert added.Next? && added.s.processed == s.processed + [d.name];
      var t := added.s.(template := added.s.template + [line + "\n"]);
      assert PlayerStep(s, line, d) == Next(t);
      assert Apply(s, PlayerEntry(d), line, isLast) == Next(t.(previous := PlayerKind));
    }
  }

  /**
   * A team line followed only by a comment leaves that team without
   * players when the loop ends.
   */
  lemma TeamThenComment(s: State, lines: seq<string>, k: nat)
    requires Shape(s) && |lines| == k + 2
    requires Classify(lines[k], s.isTeamMode) == TeamHeading && Classify(lines[k + 1], true) == Comment
    ensures var r := Run(s, lines, k);
      r.Next? && r.s.teams != [] && r.s.teams[|r.s.teams| - 1].players == []
  {
    var t := TeamStep(s, lines[k], OpenedTeam(lines[k], TeamCode(s))).(previous := TeamKind);
    assert Step(s, lines[k], false) == Next(t);
    assert Run(s, lines, k) == Run(t, lines, k + 1);
    assert Step(t, lines[k + 1], true) == Next(t.(previous := CommentKind));
  }

  // ---- The empty-team clean-up ----

  lemma {:induction false} NonEmptyTeamsKeep(teams: seq<Team>)
    requires forall i :: 0 <= i < |teams| ==> teams[i].players != []
    ensures NonEmptyTeams(teams) == teams
  {
    if teams != [] {
      NonEmptyTeamsKeep(teams[1..]);
      assert teams == [teams[0]] + teams[1..];
    }
  }

  /**
   * The clean-up as written throws whenever the loop leaves a team
   * without players, while the intended clean-up drops that team and
   * parses the table exactly when some team has players.
   */
  lemma EmptyTeamRejected(comments: seq<string>, r: Read)
    requires ReadOk(r)
    requires exists i :: 0 <= i < |r.final.teams| && r.final.teams[i].players == []
    ensures ConcludeAsWritten(comments, r) == Rejected(TemplateEntries)
    ensures Conclude(comments, r).Parsed? <==> exists i :: 0 <= i < |r.final.teams| && r.final.teams[i].players != []
  {
    CleanedTeamsEmpty(r.final.teams);
    NonEmptyTeamsPlayers(r.final.teams);
    NonEmptyTeamsMembers(r.final.teams);
    assert Conclude(comments, r) == Finish(comments, r, NonEmptyTeams(r.final.teams));
  }

  /** Nothing is left after the clean-up exactly when no team has a player. */
  lemma {:induction false} CleanedTeamsEmpty(teams: seq<Team>)
    ensures NonEmptyTeams(teams) == [] <==> forall i :: 0 <= i < |teams| ==> teams[i].players == []
  {
    if teams != [] {
      CleanedTeamsEmpty(teams[1..]);
      if teams[0].players == [] {
        forall i | 0 < i < |teams|
          ensures teams[i] == teams[1..][i - 1]
        {
        }
      }
    }
  }

  lemma NoEmptyTeamAgrees(comments: seq<string>, r: Read)
    requires r.Read? ==> ReadOk(r) && forall i :: 0 <= i < |r.final.teams| ==> r.final.teams[i].players != []
    ensures ConcludeAsWritten(comments, r) == Conclude(comments, r)
  {
    if r.Read? {
      NonEmptyTeamsKeep(r.final.teams);
    }
  }

  // ---- Header errors ----

  /** The table is refused for a missing header exactly when none of its trimmed lines is a header line. */
  lemma HeaderRequired(table: string)
    ensures ParseTable(table) == Rejected(Thrown(HeaderNotFound)) <==>
      forall l :: l in NonEmptyTrimmed(Split(RemoveBeforeLobby(table), "\n")) ==> !IsHeaderLine(l)
  {
  }

  /** With a header, the table is refused for its header exactly when the header names no rated lobby type. */
  lemma HeaderTypeRequired(table: string)
    requires GetLines(table).Some?
    ensures ParseTable(table) == Rejected(Thrown(BadHeader)) <==> HeaderType(GetLines(table).value[0]).None?
  {
  }

  lemma NonEmptyTeamsAt(teams: seq<Team>, i: nat)
    requires i < |teams|
    ensures NonEmptyTeams(teams[i..]) == (if teams[i].players == [] then [] else [teams[i]]) + NonEmptyTeams(teams[i + 1..])
  {
    assert teams[i..][1..] == teams[i + 1..];
  }

  /** One step back in the clean-up loop: the kept teams around position `i`. */
  lemma Unsplice(teams: seq<Team>, kept: seq<Team>, i: nat)
    requires i < |teams| && kept == teams[..i + 1] + NonEmptyTeams(teams[i + 1..])
    ensures kept[..i] == teams[..i] && kept[i] == teams[i] && kept[i + 1..] == NonEmptyTeams(teams[i + 1..])
    ensures kept[i].players == [] ==> kept[..i] + kept[i + 1..] == teams[..i] + NonEmptyTeams(teams[i..])
    ensures kept[i].players != [] ==> kept == teams[..i] + NonEmptyTeams(teams[i..])
  {
    var rest := NonEmptyTeams(teams[i + 1..]);
    assert teams[..i + 1] == teams[..i] + [teams[i]];
    assert kept == teams[..i] + [teams[i]] + rest;
    assert kept[..i] == teams[..i];
    assert kept[i + 1..] == rest;
    NonEmptyTeamsAt(teams, i);
  }

  // ---- The parser object ----

  /** A new player in team mode joins the open team. */
  lemma JoinedTeam(s: State, d: PlayerLine)
    requires Shape(s) && LineOk(d) && s.isTeamMode && s.teams != [] && d.name !in s.processed
    ensures var p := Player(d.name, d.flag, d.scores, d.score, d.penalty, None, 0, 0);
      var last := s.teams[|s.teams| - 1];
      var t := last.(players := last.players + [p], score := last.score + d.score, penalty := last.penalty + d.penalty);
      AddPlayer(s, d) == Next(s.(processed := s.processed + [d.name], teams := s.teams[..|s.teams| - 1] + [t], isLastLineTeam := false))
  {
  }

  /** The whole state after a team line. */
  /** `Conclude` in terms of the cleaned-up teams. */
  lemma ConcludeOf(comments: seq<string>, r: Read)
    requires ReadOk(r)
    ensures var p := Conclude(comments, r);
      var teams := NonEmptyTeams(r.final.teams);
      (p.Parsed? <==> TeamsValid(teams))
      && (p.Parsed? ==> p.template == FinalTemplate(comments, r.final.template)
                        && p.t.m.teams == teams && p.t.isTeamMode == r.final.isTeamMode)
  {
  }

  /**
   * `TableParser`: the error and template of the last `parse`, and the
   * working data of its line loop.
   */
  class TableParser {
    var error: string
    var template: string
    var parts: seq<string>
    var processed: seq<string>
    var isTeamMode: bool
    var teams: seq<Team>
    var code: nat
    var isLastLineTeam: bool
    var previous: LineKind

    function Data(): State
      reads this
    {
      State(parts, processed, isTeamMode, teams, code, isLastLineTeam, previous)
    }

    constructor()
      ensures error == "" && template == ""
    {
      error := "";
      template := "";
      parts := [];
      processed := [];
      isTeamMode := false;
      teams := [];
      code := 65;
      isLastLineTeam := false;
      previous := NoLine;
    }

    /** `_isPlayerDuplicated`: whether the name was seen; a new name is recorded. */
    method IsPlayerDuplicated(name: string) returns (dup: bool)
      modifies this
      ensures dup == (name in old(processed))
      ensures Data() == old(Data()).(processed := if dup then old(processed) else old(processed) + [name])
      ensures error == old(error) && template == old(template)
    {
      if name in processed {
        return true;
      }
      processed := processed + [name];
      return false;
    }

    /** `_processTeamPlayer`: the player joins the open team unless the name was seen or no team is open. */
    method ProcessTeamPlayer(d: PlayerLine) returns (ok: bool)
      requires Shape(Data()) && isTeamMode && LineOk(d)
      modifies this
      ensures var o := AddPlayer(old(Data()), d);
        ok == o.Next? && (ok ==> Data() == o.s && error == old(error)) && (!ok ==> error == o.error)
      ensures template == old(template) && parts == old(parts)
    {
      ghost var s := Data();
      ghost var o := AddPlayer(s, d);
      var dup := IsPlayerDuplicated(d.name);
      if dup {
        assert o == Fail(DuplicateNames);
        error := DuplicateNames;
        return false;
      }
      if teams == [] {
        assert o == Fail(NoOpenTeam);
        error := NoOpenTeam;
        return false;
      }
      var p := Player(d.name, d.flag, d.scores, d.score, d.penalty, None, 0, 0);
      assert teams == s.teams && !(d.name in s.processed) && s.isTeamMode;
      var last := teams[|teams| - 1];
      var t := last.(players := last.players + [p], score := last.score + d.score, penalty := last.penalty + d.penalty);
      teams := teams[..|teams| - 1] + [t];
      isLastLineTeam := false;
      JoinedTeam(s, d);
      assert Data() == s.(processed := s.processed + [d.name], teams := s.teams[..|s.teams| - 1] + [t], isLastLineTeam := false);
      return true;
    }

    /** `_processSoloPlayer`: the player is a team of their own unless the name was seen. */
    method ProcessSoloPlayer(d: PlayerLine) returns (ok: bool)
      requires Shape(Data()) && !isTeamMode && LineOk(d)
      modifies this
      ensures var o := AddPlayer(old(Data()), d);
        ok == o.Next? && (ok ==> Data() == o.s && error == old(error)) && (!ok ==> error == o.error)
      ensures template == old(template) && parts == old(parts)
    {
      ghost var s := Data();
      ghost var o := AddPlayer(s, d);
      var dup := IsPlayerDuplicated(d.name);
      if dup {
        assert o == Fail(DuplicateNames);
        error := DuplicateNames;
        return false;
      }
      var p := Player(d.name, d.flag, d.scores, d.score, d.penalty, None, 0, 0);
      assert p == NewPlayer(d);
      teams := teams + [Team(d.name, "", [p], d.score, d.penalty, 0, [], 0)];
      assert o == Next(Data());
      return true;
    }

    /** `_processPlayerLine`: the player is added, and the line goes to the template either way. */
    method ProcessPlayerLine(line: string, d: PlayerLine) returns (ok: bool)
      requires Shape(Data()) && LineOk(d)
      modifies this
      ensures var o := PlayerStep(old(Data()), line, d);
        ok == o.Next? && (ok ==> Data() == o.s && error == old(error)) && (!ok ==> error == o.error)
      ensures template == old(template)
    {
      if isTeamMode {
        ok := ProcessTeamPlayer(d);
      } else {
        ok := ProcessSoloPlayer(d);
      }
      parts := parts + [line + "\n"];
    }

    /** The part of `_processTeamLine` after `_getTeamData`: the opened team goes in. */
    method OpenTeam(line: string, team: Team)
      requires Shape(Data()) && isTeamMode && team.players == []
      modifies this
      ensures Data() == TeamStep(old(Data()), line, team)
      ensures error == old(error) && template == old(template)
    {
      ghost var r := TeamStep(Data(), line, team);
      if isLastLineTeam {
        code := code - 1;
      }
      if |teams| > 0 && isLastLineTeam {
        parts := parts[..|parts| - 1];
        teams := teams[..|teams| - 1];
      }
      isLastLineTeam := true;
      teams := teams + [team];
      code := code + 1;
      var gap := if previous == PenaltyKind || previous == PlayerKind then ["\n"] else [];
      parts := parts + gap + [line + "\n"];
      assert teams == r.teams && parts == r.template && code == r.code;
    }

    /** `_processTeamLine`: a team line opens a team, taking the place of one opened just before. */
    method ProcessTeamLine(line: string)
      requires Shape(Data()) && isTeamMode
      modifies this
      ensures Data() == TeamStep(old(Data()), line, OpenedTeam(line, TeamCode(old(Data()))))
      ensures error == old(error) && template == old(template)
    {
      var teamCode := if isLastLineTeam then code - 1 else code;
      assert teamCode == TeamCode(Data());
      var team := OpenedTeam(line, teamCode);
      OpenTeam(line, team);
    }

    /** The part of `_processTeamPenaltyLine` after the amount is read: it goes to the last team. */
    method ChargeLastTeam(line: string, penalty: int)
      requires Shape(Data()) && isTeamMode && OpensPenalty(previous)
      modifies this
      ensures Data() == PenaltyStep(old(Data()), line, penalty)
      ensures error == old(error) && template == old(template)
    {
      var last := teams[|teams| - 1];
      teams := teams[..|teams| - 1] + [last.(penalty := last.penalty + penalty)];
      parts := parts + [line + "\n"];
      previous := PenaltyKind;
    }

    /** `_processTeamPenaltyLine` on a line whose amount is `amount`: the amount, clamped to 99 either way and negated, goes to the last team. */
    method ProcessTeamPenaltyLine(line: string, amount: string)
      requires Shape(Data()) && PenaltyWord(amount)
      modifies this
      ensures Data() == PenaltyStep(old(Data()), line, SignedPenalty(PenaltyValue(amount)))
      ensures error == old(error) && template == old(template)
    {
      if !(isTeamMode && (previous == PenaltyKind || previous == TeamKind || previous == PlayerKind)) {
        return;
      }
      PenaltyWordAlphabet(amount);
      var penalty := SumFromString(amount);
      if penalty < -99 {
        penalty := -99;
      } else if penalty > 99 {
        penalty := 99;
      }
      penalty := -penalty;
      assert penalty == SignedPenalty(PenaltyValue(amount));
      ChargeLastTeam(line, penalty);
    }

    /** One pass of the loop in `parse`, for a line of class `c`. */
    method ProcessLine(c: LineClass, line: string, isLast: bool) returns (ok: bool)
      requires Shape(Data()) && Fits(c, line, isTeamMode)
      modifies this
      ensures var o := Apply(old(Data()), c, line, isLast);
        ok == o.Next? && (ok ==> Data() == o.s && error == old(error)) && (!ok ==> error == o.error)
      ensures template == old(template)
    {
      ok := true;
      if c.Comment? {
        previous := CommentKind;
      } else if c.PenaltyEntry? {
        ProcessTeamPenaltyLine(line, c.amount);
      } else if c.TeamHeading? {
        if !isLast {
          ProcessTeamLine(line);
          previous := TeamKind;
        }
      } else if c.PlayerEntry? {
        ok := ProcessPlayerLine(line, c.d);
        if ok {
          previous := PlayerKind;
        }
      }
    }

    /** The clean-up after the loop: the teams without players go, from the last one back. */
    method RemoveEmptyTeams()
      modifies this
      ensures Data() == old(Data()).(teams := NonEmptyTeams(old(teams)))
      ensures error == old(error) && template == old(template)
    {
      var kept := teams;
      var i := |kept|;
      while i > 0
        invariant 0 <= i <= |teams|
        invariant kept == teams[..i] + NonEmptyTeams(teams[i..])
        invariant unchanged(this)
      {
        i := i - 1;
        Unsplice(teams, kept, i);
        if kept[i].players == [] {
          kept := kept[..i] + kept[i + 1..];
        }
      }
      assert teams[0..] == teams;
      teams := kept;
    }

    /** The pass of the loop in `parse` for line `i`: the line is classified, then processed. */
    method ProcessLineAt(lines: seq<string>, i: nat) returns (ok: bool)
      requires Shape(Data()) && 1 <= i < |lines|
      modifies this
      ensures ok ==> Shape(Data()) && Run(old(Data()), lines, i) == Run(Data(), lines, i + 1) && error == old(error)
      ensures !ok ==> Run(old(Data()), lines, i) == Fail(error)
      ensures template == old(template)
    {
      ghost var before := Data();
      var c := Classify(lines[i], isTeamMode);
      ok := ProcessLine(c, lines[i], i == |lines| - 1);
      assert Step(before, lines[i], i == |lines| - 1) == Apply(before, c, lines[i], i == |lines| - 1);
    }

    /** The line loop of `parse`: every line after the header, in order, until one fails. */
    method ProcessLines(lines: seq<string>) returns (ok: bool)
      requires Shape(Data()) && |lines| >= 1
      modifies this
      ensures var o := Run(old(Data()), lines, 1);
        ok == o.Next? && (ok ==> Data() == o.s && error == old(error)) && (!ok ==> error == o.error)
      ensures template == old(template)
    {
      ghost var s0 := Data();
      var i := 1;
      while i < |lines|
        invariant 1 <= i <= |lines| && Shape(Data())
        invariant Run(s0, lines, 1) == Run(Data(), lines, i)
        invariant error == old(error) && template == old(template)
      {
        ok := ProcessLineAt(lines, i);
        if !ok {
          return;
        }
        i := i + 1;
      }
      ok := true;
    }

    /** The loop data of a table with the given header line. */
    method Start(isTeamMode: bool, header: string)
      modifies this
      ensures Data() == Initial(isTeamMode, header)
      ensures error == old(error) && template == old(template)
    {
      parts := [header + "\n\n"];
      processed := [];
      this.isTeamMode := isTeamMode;
      teams := [];
      code := 65;
      isLastLineTeam := false;
      previous := NoLine;
    }

    /** The template kept for drawing, made of the lobby comments and the template lines. */
    method SetTemplate(comments: seq<string>)
      modifies this
      ensures template == FinalTemplate(comments, parts)
      ensures Data() == old(Data()) && error == old(error)
    {
      template := (if comments != [] then Join(comments, "\n") + "\n\n" else "") + Trim(CollapseNewlines(Join(parts, "")));
    }

    /** The end of `parse` once the loop has run: the clean-up, the template, and whether the teams are valid. */
    method Settle(comments: seq<string>) returns (valid: bool)
      modifies this
      ensures teams == NonEmptyTeams(old(teams)) && valid == TeamsValid(teams)
      ensures template == FinalTemplate(comments, old(parts))
      ensures Data() == old(Data()).(teams := teams) && error == old(error)
    {
      RemoveEmptyTeams();
      SetTemplate(comments);
      valid := TeamsValid(teams);
    }

    /**
     * `parse` up to the end of its line loop: the lines, the header, and the
     * loop over the lines after it. On failure `error` holds the message
     * about to be thrown.
     */
    method ReadLoop(table: string) returns (ok: bool, header: HeaderData, lobbyType: string)
      modifies this
      ensures ok ==> ReadTable(table) == Read(header, lobbyType, Data()) && error == ""
      ensures !ok ==> ReadTable(table).Unread? && error == ReadTable(table).error
      ensures template == ""
    {
      error := "";
      template := "";
      var got := GetLines(table);
      if got.None? {
        error := HeaderNotFound;
        return false, HeaderData(0, None, ""), "";
      }
      var lines := got.value;
      var ty := HeaderType(lines[0]);
      if ty.None? {
        error := BadHeader;
        return false, HeaderData(0, None, ""), "";
      }
      header := HeaderDataOf(HeaderMatch(lines[0]).value);
      lobbyType := ty.value;
      Start(IsTeamMode(lobbyType), lines[0]);
      ok := ProcessLines(lines);
      ReadTableLoop(table);
    }

    /** `parse` after its line loop: the clean-up, the validity check and `sortTeams`. */
    method Complete(comments: seq<string>, header: HeaderData, lobbyType: string) returns (result: Option<Table>)
      requires ReadOk(Read(header, lobbyType, Data())) && error == ""
      modifies this
      ensures var p := Conclude(comments, Read(header, lobbyType, old(Data())));
        (result.None? <==> p.Rejected?)
        && (p.Rejected? ==> error == p.error && template == "")
        && (p.Parsed? ==>
              error == "" && template == p.template && result.value.isTeamMode == p.t.isTeamMode
              && result.value.m == p.t.m.(teams := result.value.m.teams)
              && Standings(result.value.m.teams, p.t.m.teams))
    {
      ghost var r := Read(header, lobbyType, Data());
      ConcludeOf(comments, r);
      var valid := Settle(comments);
      if !valid {
        assert Conclude(comments, r) == Rejected(Thrown(InvalidTeams));
        template := "";
        error := Thrown(InvalidTeams);
        return None;
      }
      var collected := Match("", BoardOf(lobbyType).value, None, Number(header.number), header.name, lobbyType, teams);
      assert Conclude(comments, r) == Parsed(Table(collected, isTeamMode), template);
      var m := Rank(collected);
      result := Some(Table(m, isTeamMode));
    }

    /** The match `parse` returns: `m` with its teams put through `sortTeams`, which also become the parser's teams. */
    method Rank(m: Match) returns (ranked: Match)
      modifies this
      ensures ranked == m.(teams := teams) && Standings(teams, m.teams)
      ensures Data() == old(Data()).(teams := teams) && error == old(error) && template == old(template)
    {
      var sorted := SortTeams(m.teams);
      teams := sorted;
      ranked := m.(teams := sorted);
    }

    /**
     * `parse`: the result of `ParseTable` with its teams put through
     * `sortTeams`; on failure no result, the error kept and the template
     * emptied.
     */
    method Parse(table: string) returns (result: Option<Table>)
      modifies this
      ensures var p := ParseTable(table);
        (result.None? <==> p.Rejected?)
        && (p.Rejected? ==> error == p.error && template == "")
        && (p.Parsed? ==>
              error == "" && template == p.template && result.value.isTeamMode == p.t.isTeamMode
              && result.value.m == p.t.m.(teams := result.value.m.teams)
              && Standings(result.value.m.teams, p.t.m.teams))
    {
      var comments := LobbyComments(table);
      var ok, header, lobbyType := ReadLoop(table);
      if !ok {
        error := Thrown(error);
        return None;
      }
      result := Complete(comments, header, lobbyType);
    }
  }
}
