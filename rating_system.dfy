// The rating schemes (abstract_rating_system.js, rating_system_elo.js,
// rating_system_mmr.js): the opponent counting and validity test every
// scheme shares, the parameters each scheme takes from the board's
// settings for a lobby type, and the points one player wins or loses
// against one opponent. The powers the schemes use (10^x, b^e) are
// parameters; only the laws the schemes rely on are assumed of them, as
// preconditions.
module RatingSystems {
  import opened Wrappers
  import opened Records
  import Lobby
  import TeamRanking

  /** The board's settings for its scheme, with the three fields the bot attaches to them. */
  datatype Settings = Settings(
    scheme: string,
    scalingFactors: seq<real>,
    baselines: seq<real>,
    initial: real,
    ratingAverageByTeam: bool,
    ratingMin: real)

  /** `pow10(x)` stands for `Math.pow(10, x)`, `pow(b, e)` for `Math.pow(b, e)`. */
  datatype Maths = Maths(pow10: real -> real, pow: (real, real) -> real)

  /** What the Elo scheme relies on about powers of ten. */
  ghost predicate PowersOfTen(m: Maths)
  {
    (forall x :: m.pow10(x) > 0.0)
    && (forall x, y :: x + y == 0.0 ==> m.pow10(x) * m.pow10(y) == 1.0)
  }

  /** What the MMR scheme relies on about powers. */
  ghost predicate Powers(m: Maths)
  {
    (forall x :: m.pow(x, 2.0) == x * x)
    && (forall b, e :: b > 0.0 ==> m.pow(b, e) > 0.0)
    && m.pow(0.0, 1.0 / 3.0) == 0.0
  }

  datatype Scheme = Elo | Mmr

  /** A number that may be `null`; `null` counts as 0 in arithmetic. */
  function Value(x: Option<real>): real
  {
    if x.Some? then x.value else 0.0
  }

  /** A player's rating before the match. */
  function RatingOf(p: Player): real
  {
    Value(p.boardRating)
  }

  function Max(a: real, b: real): real
  {
    if a >= b then a else b
  }

  /** `xs[i]`, None where the settings list has no such entry. */
  function At(xs: seq<real>, i: Option<nat>): (r: Option<real>)
    ensures r.Some? <==> i.Some? && i.value < |xs|
  {
    if i.Some? && i.value < |xs| then Some(xs[i.value]) else None
  }

  // ---------------------------------------------------------------
  // Counting players and opponents (the abstract base)
  // ---------------------------------------------------------------

  /** `_getNbPlayers`: one per player of every team. */
  function NbPlayers(teams: seq<Team>): (n: nat)
    ensures n == |AllPlayers(teams)|
  {
    AllPlayersCount(teams);
    PlayerCount(teams)
  }

  function FirstTeamFrom(teams: seq<Team>, name: string, from: nat): (r: Option<nat>)
    requires from <= |teams|
    ensures r.Some? ==> from <= r.value < |teams| && name in Names(teams[r.value].players)
                        && forall j :: from <= j < r.value ==> name !in Names(teams[j].players)
    ensures r.None? ==> forall j :: from <= j < |teams| ==> name !in Names(teams[j].players)
    decreases |teams| - from
  {
    if from == |teams| then None
    else if name in Names(teams[from].players) then Some(from)
    else FirstTeamFrom(teams, name, from + 1)
  }

  /** The first team holding a player of that name; None is the "Could not get player team" error. */
  function TeamIndexOf(teams: seq<Team>, name: string): (r: Option<nat>)
    ensures r.Some? ==> r.value < |teams| && name in Names(teams[r.value].players)
                        && forall j :: 0 <= j < r.value ==> name !in Names(teams[j].players)
    ensures r.None? <==> forall j :: 0 <= j < |teams| ==> name !in Names(teams[j].players)
  {
    FirstTeamFrom(teams, name, 0)
  }

  /** The players of every team but the one at `skip`. */
  function SizesExcept(teams: seq<Team>, skip: nat): nat
  {
    if teams == [] then 0
    else SizesExcept(teams[..|teams| - 1], skip) + (if |teams| - 1 == skip then 0 else |teams[|teams| - 1].players|)
  }

  lemma {:induction false} SizesExceptBeyond(teams: seq<Team>, skip: nat)
    requires skip >= |teams|
    ensures SizesExcept(teams, skip) == PlayerCount(teams)
  {
    if teams != [] {
      SizesExceptBeyond(teams[..|teams| - 1], skip);
    }
  }

  /** The other teams hold every player but those of the skipped team. */
  lemma {:induction false} SizesExceptCount(teams: seq<Team>, skip: nat)
    requires skip < |teams|
    ensures SizesExcept(teams, skip) == PlayerCount(teams) - |teams[skip].players|
  {
    var init := teams[..|teams| - 1];
    if skip == |teams| - 1 {
      SizesExceptBeyond(init, skip);
    } else {
      SizesExceptCount(init, skip);
    }
  }

  lemma {:induction false} SizesExceptAtLeast(teams: seq<Team>, skip: nat, k: nat)
    requires k < |teams| && k != skip
    ensures SizesExcept(teams, skip) >= |teams[k].players|
  {
    if k < |teams| - 1 {
      SizesExceptAtLeast(teams[..|teams| - 1], skip, k);
    }
  }

  lemma {:induction false} SizesExceptPositive(teams: seq<Team>, skip: nat)
    requires SizesExcept(teams, skip) > 0
    ensures exists k :: 0 <= k < |teams| && k != skip && teams[k].players != []
  {
    var init := teams[..|teams| - 1];
    if SizesExcept(init, skip) > 0 {
      SizesExceptPositive(init, skip);
      var k :| 0 <= k < |init| && k != skip && init[k].players != [];
      assert teams[k] == init[k];
    } else {
      assert teams[|teams| - 1].players != [];
    }
  }

  /**
   * `_getNbOpponents`: in team mode the players of every team but the
   * first one holding the name (None where no team does: the source
   * throws), otherwise every other player.
   */
  function NbOpponents(teams: seq<Team>, teamMode: bool, name: string): (r: Option<int>)
    ensures teamMode ==> (r.None? <==> forall j :: 0 <= j < |teams| ==> name !in Names(teams[j].players))
    ensures teamMode && r.Some? ==>
      r.value == |AllPlayers(teams)| - |teams[TeamIndexOf(teams, name).value].players|
    ensures !teamMode ==> r == Some(|AllPlayers(teams)| - 1)
  {
    if teamMode then
      match TeamIndexOf(teams, name)
      case None => None
      case Some(i) =>
        SizesExceptCount(teams, i);
        AllPlayersCount(teams);
        Some(SizesExcept(teams, i))
    else Some(NbPlayers(teams) - 1)
  }

  /** `AbstractRatingSystem.isValid`: no player is without opponents, and there are at least two players. */
  predicate BaseValid(teams: seq<Team>, teamMode: bool)
  {
    (forall p | p in AllPlayers(teams) :: NbOpponents(teams, teamMode, p.name) != Some(0))
    && NbPlayers(teams) >= 2
  }

  /** How many teams have at least one player. */
  function NonEmptyTeams(teams: seq<Team>): nat
  {
    if teams == [] then 0
    else NonEmptyTeams(teams[..|teams| - 1]) + (if teams[|teams| - 1].players != [] then 1 else 0)
  }

  lemma {:induction false} OneNonEmpty(teams: seq<Team>, a: nat)
    requires a < |teams| && teams[a].players != []
    ensures NonEmptyTeams(teams) >= 1
  {
    if a < |teams| - 1 {
      OneNonEmpty(teams[..|teams| - 1], a);
    }
  }

  lemma {:induction false} TwoNonEmpty(teams: seq<Team>, a: nat, b: nat)
    requires a < |teams| && b < |teams| && a != b
    requires teams[a].players != [] && teams[b].players != []
    ensures NonEmptyTeams(teams) >= 2
  {
    var init := teams[..|teams| - 1];
    if a == |teams| - 1 {
      OneNonEmpty(init, b);
    } else if b == |teams| - 1 {
      OneNonEmpty(init, a);
    } else {
      TwoNonEmpty(init, a, b);
    }
  }

  lemma {:induction false} SomeNonEmpty(teams: seq<Team>)
    requires NonEmptyTeams(teams) >= 1
    ensures exists a :: 0 <= a < |teams| && teams[a].players != []
  {
    var init := teams[..|teams| - 1];
    if teams[|teams| - 1].players == [] {
      SomeNonEmpty(init);
      var a :| 0 <= a < |init| && init[a].players != [];
      assert teams[a] == init[a];
    }
  }

  lemma {:induction false} TwoOfNonEmpty(teams: seq<Team>)
    requires NonEmptyTeams(teams) >= 2
    ensures exists a, b :: 0 <= a < b < |teams| && teams[a].players != [] && teams[b].players != []
  {
    var init := teams[..|teams| - 1];
    if teams[|teams| - 1].players != [] {
      SomeNonEmpty(init);
      var a :| 0 <= a < |init| && init[a].players != [];
      assert teams[a] == init[a];
    } else {
      TwoOfNonEmpty(init);
      var a, b :| 0 <= a < b < |init| && init[a].players != [] && init[b].players != [];
      assert teams[a] == init[a] && teams[b] == init[b];
    }
  }

  lemma {:induction false} PlayersMeanNonEmpty(teams: seq<Team>)
    requires PlayerCount(teams) > 0
    ensures NonEmptyTeams(teams) >= 1
  {
    var init := teams[..|teams| - 1];
    if teams[|teams| - 1].players == [] {
      PlayersMeanNonEmpty(init);
    }
  }

  /** Every player listed for the match belongs to one of its teams. */
  lemma {:induction false} PlayerTeam(teams: seq<Team>, p: Player)
    requires p in AllPlayers(teams)
    ensures exists i :: 0 <= i < |teams| && p.name in Names(teams[i].players)
  {
    var init := teams[..|teams| - 1];
    var last := teams[|teams| - 1];
    if p in AllPlayers(init) {
      PlayerTeam(init, p);
      var i :| 0 <= i < |init| && p.name in Names(init[i].players);
      assert teams[i] == init[i];
    } else {
      var j :| 0 <= j < |last.players| && last.players[j] == p;
      assert Names(last.players)[j] == p.name;
    }
  }

  /** Outside team mode the system is valid exactly when there are at least two players. */
  lemma SoloValid(teams: seq<Team>)
    ensures BaseValid(teams, false) <==> |AllPlayers(teams)| >= 2
  {
  }

  /** Two teams with players give every player an opponent. */
  lemma TwoTeamsValid(teams: seq<Team>)
    requires NonEmptyTeams(teams) >= 2
    ensures BaseValid(teams, true)
  {
    AllPlayersCount(teams);
    TwoOfNonEmpty(teams);
    var a, b :| 0 <= a < b < |teams| && teams[a].players != [] && teams[b].players != [];
    SizesExceptCount(teams, a);
    SizesExceptAtLeast(teams, a, b);
    forall p | p in AllPlayers(teams) ensures NbOpponents(teams, true, p.name) != Some(0) {
      PlayerTeam(teams, p);
      var i := TeamIndexOf(teams, p.name).value;
      var k := if i == a then b else a;
      SizesExceptAtLeast(teams, i, k);
    }
  }

  lemma {:induction false} NoPlayers(teams: seq<Team>)
    requires NonEmptyTeams(teams) == 0
    ensures PlayerCount(teams) == 0
  {
    if teams != [] {
      NoPlayers(teams[..|teams| - 1]);
    }
  }

  /** With one team holding players, no other team holds any. */
  lemma {:induction false} SizesExceptLone(teams: seq<Team>, a: nat)
    requires NonEmptyTeams(teams) < 2 && a < |teams| && teams[a].players != []
    ensures SizesExcept(teams, a) == 0
  {
    var init := teams[..|teams| - 1];
    if a == |teams| - 1 {
      NoPlayers(init);
      SizesExceptBeyond(init, a);
    } else {
      OneNonEmpty(init, a);
      SizesExceptLone(init, a);
    }
  }

  /** With one team holding players, its players have no opponent. */
  lemma LoneTeam(teams: seq<Team>, a: nat)
    requires NonEmptyTeams(teams) < 2 && a < |teams| && teams[a].players != []
    ensures NbOpponents(teams, true, teams[a].players[0].name) == Some(0)
  {
    var name := teams[a].players[0].name;
    assert Names(teams[a].players)[0] == name;
    var i := TeamIndexOf(teams, name).value;
    assert |Names(teams[i].players)| > 0;
    SizesExceptLone(teams, i);
  }

  /** With at most one team holding players, some player has no opponent (or there are too few players). */
  lemma OneTeamInvalid(teams: seq<Team>)
    requires NonEmptyTeams(teams) < 2
    ensures !BaseValid(teams, true)
  {
    AllPlayersCount(teams);
    if PlayerCount(teams) >= 2 {
      PlayersMeanNonEmpty(teams);
      SomeNonEmpty(teams);
      var a :| 0 <= a < |teams| && teams[a].players != [];
      TeamRanking.InAllPlayers(teams, a, 0);
      LoneTeam(teams, a);
    }
  }

  /** In team mode the system is valid exactly when at least two teams have players. */
  lemma TeamValid(teams: seq<Team>)
    ensures BaseValid(teams, true) <==> NonEmptyTeams(teams) >= 2
  {
    if NonEmptyTeams(teams) >= 2 {
      TwoTeamsValid(teams);
    } else {
      OneTeamInvalid(teams);
    }
  }

  // ---------------------------------------------------------------
  // Parameters per lobby type
  // ---------------------------------------------------------------

  /** `RatingSystemElo._setAlgorithmVariables`: the scaling factor a lobby type reads; None leaves it `null`. */
  function EloIndex(lobbyType: string): (i: Option<nat>)
    ensures i.Some? ==> i.value < 4
  {
    if lobbyType == Lobby.Code(Lobby.RaceItemlessFfa) || lobbyType == Lobby.Code(Lobby.RaceItemless1v1) then Some(0)
    else if lobbyType == Lobby.Code(Lobby.RaceItemlessDuos) then Some(1)
    else if lobbyType == Lobby.Code(Lobby.RaceItemless3v3) then Some(2)
    else if lobbyType == Lobby.Code(Lobby.RaceItemless4v4) then Some(3)
    else None
  }

  /** `RatingSystemMmr._setAlgorithmVariables`: the baseline and scaling factor a lobby type reads. */
  function MmrIndex(lobbyType: string): (i: Option<nat>)
    ensures i.Some? ==> i.value < 4
  {
    if lobbyType in {Lobby.Code(Lobby.RaceItemsFfa), Lobby.Code(Lobby.BattleFfa), Lobby.Code(Lobby.Battle1v1)} then Some(0)
    else if lobbyType in {Lobby.Code(Lobby.RaceItemsDuos), Lobby.Code(Lobby.InstaDuos), Lobby.Code(Lobby.BattleDuos)} then Some(1)
    else if lobbyType in {Lobby.Code(Lobby.RaceItems3v3), Lobby.Code(Lobby.Insta3v3), Lobby.Code(Lobby.Battle3v3)} then Some(2)
    else if lobbyType in {Lobby.Code(Lobby.RaceItems4v4), Lobby.Code(Lobby.Insta4v4), Lobby.Code(Lobby.Battle4v4)} then Some(3)
    else None
  }

  function ParameterIndex(scheme: Scheme, lobbyType: string): Option<nat>
  {
    if scheme == Elo then EloIndex(lobbyType) else MmrIndex(lobbyType)
  }

  /**
   * Elo rates the itemless lobby types and MMR every other one but
   * survival; in a team type the index is the team size minus one.
   */
  lemma ParameterIndexOfType(t: Lobby.LobbyType)
    ensures EloIndex(Lobby.Code(t)).Some? <==>
      t in {Lobby.RaceItemlessFfa, Lobby.RaceItemless1v1, Lobby.RaceItemlessDuos, Lobby.RaceItemless3v3, Lobby.RaceItemless4v4}
    ensures MmrIndex(Lobby.Code(t)).Some? <==> EloIndex(Lobby.Code(t)).None? && t != Lobby.RaceSurvival
  {
    match t
    case RaceItemsFfa => assert Lobby.Code(t) == Lobby.Code(Lobby.RaceItemsFfa);
    case RaceItemsDuos => assert Lobby.Code(t) == Lobby.Code(Lobby.RaceItemsDuos);
    case RaceItems3v3 => assert Lobby.Code(t) == Lobby.Code(Lobby.RaceItems3v3);
    case RaceItems4v4 => assert Lobby.Code(t) == Lobby.Code(Lobby.RaceItems4v4);
    case RaceSurvival => assert Lobby.Code(t) == Lobby.Code(Lobby.RaceSurvival);
    case RaceItemless1v1 => assert Lobby.Code(t) == Lobby.Code(Lobby.RaceItemless1v1);
    case RaceItemlessFfa => assert Lobby.Code(t) == Lobby.Code(Lobby.RaceItemlessFfa);
    case RaceItemlessDuos => assert Lobby.Code(t) == Lobby.Code(Lobby.RaceItemlessDuos);
    case RaceItemless3v3 => assert Lobby.Code(t) == Lobby.Code(Lobby.RaceItemless3v3);
    case RaceItemless4v4 => assert Lobby.Code(t) == Lobby.Code(Lobby.RaceItemless4v4);
    case Battle1v1 => assert Lobby.Code(t) == Lobby.Code(Lobby.Battle1v1);
    case BattleFfa => assert Lobby.Code(t) == Lobby.Code(Lobby.BattleFfa);
    case BattleDuos => assert Lobby.Code(t) == Lobby.Code(Lobby.BattleDuos);
    case Battle3v3 => assert Lobby.Code(t) == Lobby.Code(Lobby.Battle3v3);
    case Battle4v4 => assert Lobby.Code(t) == Lobby.Code(Lobby.Battle4v4);
    case InstaDuos => assert Lobby.Code(t) == Lobby.Code(Lobby.InstaDuos);
    case Insta3v3 => assert Lobby.Code(t) == Lobby.Code(Lobby.Insta3v3);
    case Insta4v4 => assert Lobby.Code(t) == Lobby.Code(Lobby.Insta4v4);
  }

  /** A lobby type of two-player teams reads the parameters at index 1. */
  lemma DuoIndex(t: Lobby.LobbyType)
    requires t in Lobby.DuoModes || t == Lobby.InstaDuos
    ensures EloIndex(Lobby.Code(t)) == Some(1) || MmrIndex(Lobby.Code(t)) == Some(1)
  {
    if t == Lobby.RaceItemsDuos {
      assert MmrIndex(Lobby.Code(t)) == Some(1);
    } else if t == Lobby.RaceItemlessDuos {
      assert EloIndex(Lobby.Code(t)) == Some(1);
    } else if t == Lobby.BattleDuos {
      assert MmrIndex(Lobby.Code(t)) == Some(1);
    } else {
      assert t == Lobby.InstaDuos;
      assert MmrIndex(Lobby.Code(t)) == Some(1);
    }
  }

  /** A lobby type of three-player teams reads the parameters at index 2. */
  lemma TrioIndex(t: Lobby.LobbyType)
    requires t in Lobby.TrioModes || t == Lobby.Insta3v3
    ensures EloIndex(Lobby.Code(t)) == Some(2) || MmrIndex(Lobby.Code(t)) == Some(2)
  {
    if t == Lobby.RaceItems3v3 {
      assert MmrIndex(Lobby.Code(t)) == Some(2);
    } else if t == Lobby.RaceItemless3v3 {
      assert EloIndex(Lobby.Code(t)) == Some(2);
    } else if t == Lobby.Battle3v3 {
      assert MmrIndex(Lobby.Code(t)) == Some(2);
    } else {
      assert t == Lobby.Insta3v3;
      assert MmrIndex(Lobby.Code(t)) == Some(2);
    }
  }

  /** A lobby type of four-player teams reads the parameters at index 3. */
  lemma QuadIndex(t: Lobby.LobbyType)
    requires t in Lobby.QuadModes || t == Lobby.Insta4v4
    ensures EloIndex(Lobby.Code(t)) == Some(3) || MmrIndex(Lobby.Code(t)) == Some(3)
  {
    if t == Lobby.RaceItems4v4 {
      assert MmrIndex(Lobby.Code(t)) == Some(3);
    } else if t == Lobby.RaceItemless4v4 {
      assert EloIndex(Lobby.Code(t)) == Some(3);
    } else if t == Lobby.Battle4v4 {
      assert MmrIndex(Lobby.Code(t)) == Some(3);
    } else {
      assert t == Lobby.Insta4v4;
      assert MmrIndex(Lobby.Code(t)) == Some(3);
    }
  }

  /** The scaling factor the scheme reads for the lobby type; None is `null` (or a missing entry). */
  function ScalingFactor(scheme: Scheme, lobbyType: string, settings: Settings): Option<real>
  {
    At(settings.scalingFactors, ParameterIndex(scheme, lobbyType))
  }

  /** The MMR baseline; Elo has none. */
  function Baseline(scheme: Scheme, lobbyType: string, settings: Settings): Option<real>
  {
    if scheme == Elo then None else At(settings.baselines, MmrIndex(lobbyType))
  }

  // ---------------------------------------------------------------
  // Points against one opponent
  // ---------------------------------------------------------------

  /** The points a player is ranked by against an opponent: the team's in team mode, the player's own otherwise. */
  function MatchPoints(teamMode: bool, p: Player, t: Team): int
  {
    if teamMode then t.score - t.penalty else p.score - p.penalty
  }

  /** Elo's actual score: a win, a tie or a loss. */
  function ActualScore(points: int, opponentPoints: int): (s: real)
    ensures s == 1.0 <==> points > opponentPoints
    ensures s == 0.5 <==> points == opponentPoints
    ensures s == 0.0 <==> points < opponentPoints
  {
    if points > opponentPoints then 1.0 else if points == opponentPoints then 0.5 else 0.0
  }

  /** Elo's expected score of a player rated `r` against one rated `o`. */
  function Expected(m: Maths, r: real, o: real): (e: real)
    requires PowersOfTen(m)
    ensures 0.0 < e < 1.0
  {
    assert m.pow10((o - r) / 400.0) > 0.0;
    1.0 / (1.0 + m.pow10((o - r) / 400.0))
  }

  /** The two players' expected scores always add up to one. */
  lemma ExpectedComplement(m: Maths, r: real, o: real)
    requires PowersOfTen(m)
    ensures Expected(m, r, o) + Expected(m, o, r) == 1.0
  {
    var x := (o - r) / 400.0;
    var a := m.pow10(x);
    var b := m.pow10((r - o) / 400.0);
    assert x + (r - o) / 400.0 == 0.0;
    assert b * a == 1.0;
    assert (1.0 + b) * a == a + b * a;
    assert 1.0 / (1.0 + b) == a / (a + 1.0);
  }

  /** `RatingSystemElo.calculate`: K times actual minus expected score. */
  function EloPoints(m: Maths, k: real, points: int, opponentPoints: int, r: real, o: real): real
    requires PowersOfTen(m)
  {
    k * (ActualScore(points, opponentPoints) - Expected(m, r, o))
  }

  /** With equal K, what one player of a pair wins the other loses. */
  lemma EloPairSum(m: Maths, k: real, p: int, q: int, r: real, o: real)
    requires PowersOfTen(m)
    ensures EloPoints(m, k, p, q, r, o) + EloPoints(m, k, q, p, o, r) == 0.0
  {
    ExpectedComplement(m, r, o);
    assert ActualScore(p, q) + ActualScore(q, p) == 1.0;
  }

  /** The rating difference the MMR formulas use: at least -9997, over 9998. */
  function Capped(d: real): real
  {
    Max(-9997.0, d) / 9998.0
  }

  /** `_calculateByWinAlgorithm`. */
  function WinMagnitude(m: Maths, baseline: real, scaling: real, winner: real, loser: real): real
  {
    1.0 + baseline * m.pow(1.0 + Capped(loser - winner), scaling)
  }

  /** `_calculateByTieAlgorithm`. */
  function TieMagnitude(m: Maths, baseline: real, scaling: real, r: real, o: real): real
  {
    1.5 * scaling * (baseline + 1.0) * m.pow(m.pow(m.pow(Capped(r - o), 2.0), 1.0 / 3.0), 2.0)
  }

  /** `RatingSystemMmr.calculate`: the sign picks winner and loser, or on a tie favours the lower-rated player. */
  function MmrPoints(m: Maths, baseline: real, scaling: real, points: int, opponentPoints: int, r: real, o: real): real
  {
    if points == opponentPoints then (if r < o then 1.0 else -1.0) * TieMagnitude(m, baseline, scaling, r, o)
    else if points > opponentPoints then WinMagnitude(m, baseline, scaling, r, o)
    else -WinMagnitude(m, baseline, scaling, o, r)
  }

  /** A win is worth at least one point when the baseline is not negative. */
  lemma WinAtLeastOne(m: Maths, baseline: real, scaling: real, winner: real, loser: real)
    requires Powers(m) && baseline >= 0.0
    ensures WinMagnitude(m, baseline, scaling, winner, loser) >= 1.0
  {
    var base := 1.0 + Capped(loser - winner);
    assert base > 0.0;
    assert m.pow(base, scaling) > 0.0;
  }

  /** The winner of a decisive pair gains, the loser loses. */
  lemma MmrWinnerGains(m: Maths, baseline: real, scaling: real, points: int, opponentPoints: int, r: real, o: real)
    requires Powers(m) && baseline >= 0.0
    ensures points > opponentPoints ==> MmrPoints(m, baseline, scaling, points, opponentPoints, r, o) >= 1.0
    ensures points < opponentPoints ==> MmrPoints(m, baseline, scaling, points, opponentPoints, r, o) <= -1.0
  {
    WinAtLeastOne(m, baseline, scaling, r, o);
    WinAtLeastOne(m, baseline, scaling, o, r);
  }

  /** The tie magnitude depends on the capped difference only through its square. */
  lemma TieBySquare(m: Maths, baseline: real, scaling: real, r: real, o: real, r': real, o': real)
    requires Powers(m)
    requires Capped(r - o) * Capped(r - o) == Capped(r' - o') * Capped(r' - o')
    ensures TieMagnitude(m, baseline, scaling, r, o) == TieMagnitude(m, baseline, scaling, r', o')
  {
    assert m.pow(Capped(r - o), 2.0) == m.pow(Capped(r' - o'), 2.0);
  }

  /** Within the cap, the tie magnitude is the same seen from either player. */
  lemma TieSymmetric(m: Maths, baseline: real, scaling: real, r: real, o: real)
    requires Powers(m) && -9997.0 <= r - o <= 9997.0
    ensures TieMagnitude(m, baseline, scaling, r, o) == TieMagnitude(m, baseline, scaling, o, r)
  {
    assert Capped(o - r) == -Capped(r - o);
    TieBySquare(m, baseline, scaling, r, o, o, r);
  }

  /** What one player of a pair wins the other loses: always on a decisive pair, within the cap on a tie. */
  lemma MmrAntisymmetric(m: Maths, baseline: real, scaling: real, p: int, q: int, r: real, o: real)
    requires Powers(m) && (p == q ==> -9997.0 <= r - o <= 9997.0)
    ensures MmrPoints(m, baseline, scaling, p, q, r, o) == -MmrPoints(m, baseline, scaling, q, p, o, r)
  {
    if p == q {
      TieSymmetric(m, baseline, scaling, r, o);
      if r == o {
        assert Capped(r - o) == 0.0;
        assert m.pow(0.0, 2.0) == 0.0;
        assert m.pow(0.0, 1.0 / 3.0) == 0.0;
        assert TieMagnitude(m, baseline, scaling, r, o) == 0.0;
      }
    }
  }

  // ---------------------------------------------------------------
  // A rating system for one match
  // ---------------------------------------------------------------

  /** What a rating system is built from: its scheme, the match, and the board's settings. */
  datatype Setup = Setup(scheme: Scheme, teams: seq<Team>, lobbyType: string, settings: Settings, maths: Maths)

  /** The constructor's team-mode flag. */
  predicate TeamMode(s: Setup)
  {
    Lobby.IsTeamMode(s.lobbyType)
  }

  /** `isValid` of either scheme: the base test, and the scheme's parameters are set. */
  predicate SetupValid(s: Setup)
  {
    BaseValid(s.teams, TeamMode(s))
    && ScalingFactor(s.scheme, s.lobbyType, s.settings).Some?
    && (s.scheme == Mmr ==> Baseline(s.scheme, s.lobbyType, s.settings).Some?)
  }

  /** The divisions by a player's opponent count are defined. */
  predicate HasOpponents(s: Setup, name: string)
  {
    var n := NbOpponents(s.teams, TeamMode(s), name);
    n.Some? && n.value != 0
  }

  /** A valid system has an opponent for every player of the match. */
  lemma ValidHasOpponents(s: Setup, p: Player)
    requires SetupValid(s) && p in AllPlayers(s.teams)
    ensures HasOpponents(s, p.name)
  {
    PlayerTeam(s.teams, p);
  }

  /** The parameters of a valid system come from a lobby type the scheme rates. */
  lemma ValidIndex(s: Setup)
    requires SetupValid(s)
    ensures ParameterIndex(s.scheme, s.lobbyType).Some?
  {
  }

  /** Elo's K for a player: the scaling factor shared among the player's opponents. */
  function EloK(s: Setup, player: Player): real
    requires HasOpponents(s, player.name)
  {
    Value(ScalingFactor(s.scheme, s.lobbyType, s.settings)) / NbOpponents(s.teams, TeamMode(s), player.name).value as real
  }

  /** What `calculate` returns for a player against an opponent. */
  function PairPoints(s: Setup, player: Player, playerTeam: Team, opponent: Player, opponentTeam: Team): real
    requires s.scheme == Elo ==> PowersOfTen(s.maths) && HasOpponents(s, player.name)
  {
    var points := MatchPoints(TeamMode(s), player, playerTeam);
    var opponentPoints := MatchPoints(TeamMode(s), opponent, opponentTeam);
    if s.scheme == Elo then
      EloPoints(s.maths, EloK(s, player), points, opponentPoints, RatingOf(player), RatingOf(opponent))
    else
      MmrPoints(s.maths, Value(Baseline(s.scheme, s.lobbyType, s.settings)), Value(ScalingFactor(s.scheme, s.lobbyType, s.settings)),
                points, opponentPoints, RatingOf(player), RatingOf(opponent))
  }

  /** An Elo pair's points, spelled out. */
  lemma EloPairPoints(s: Setup, player: Player, playerTeam: Team, opponent: Player, opponentTeam: Team)
    requires s.scheme == Elo && PowersOfTen(s.maths) && HasOpponents(s, player.name)
    ensures PairPoints(s, player, playerTeam, opponent, opponentTeam)
      == EloPoints(s.maths, EloK(s, player), MatchPoints(TeamMode(s), player, playerTeam), MatchPoints(TeamMode(s), opponent, opponentTeam),
                   RatingOf(player), RatingOf(opponent))
  {
  }

  /** `adjustPlayerFinalRatingPoints`: Elo keeps the sum, MMR shares it among the player's opponents. */
  function AdjustedPoints(s: Setup, player: Player, points: real): (r: real)
    requires s.scheme == Mmr ==> HasOpponents(s, player.name)
    ensures s.scheme == Elo ==> r == points
    ensures s.scheme == Mmr ==> r * NbOpponents(s.teams, TeamMode(s), player.name).value as real == points
  {
    if s.scheme == Elo then points
    else
      var n := NbOpponents(s.teams, TeamMode(s), player.name).value as real;
      assert n != 0.0;
      DivideBack(points, n);
      points / n
  }

  lemma DivideBack(x: real, n: real)
    requires n != 0.0
    ensures (x / n) * n == x
  {
  }

  /** Outside team mode, two Elo players with the same K win and lose the same amount against each other. */
  lemma EloSoloPair(s: Setup, p: Player, pt: Team, q: Player, qt: Team)
    requires s.scheme == Elo && PowersOfTen(s.maths) && !TeamMode(s)
    requires HasOpponents(s, p.name) && HasOpponents(s, q.name)
    ensures PairPoints(s, p, pt, q, qt) + PairPoints(s, q, qt, p, pt) == 0.0
  {
    EloPairSum(s.maths, EloK(s, p), MatchPoints(false, p, pt), MatchPoints(false, q, qt), RatingOf(p), RatingOf(q));
  }

  /**
   * Two MMR players win and lose the same amount against each other: always
   * when one beats the other, and on a tie when they are within the cap.
   */
  lemma MmrPair(s: Setup, p: Player, pt: Team, q: Player, qt: Team)
    requires s.scheme == Mmr && Powers(s.maths)
    requires MatchPoints(TeamMode(s), p, pt) == MatchPoints(TeamMode(s), q, qt) ==> -9997.0 <= RatingOf(p) - RatingOf(q) <= 9997.0
    ensures PairPoints(s, p, pt, q, qt) + PairPoints(s, q, qt, p, pt) == 0.0
  {
    MmrAntisymmetric(s.maths, Value(Baseline(s.scheme, s.lobbyType, s.settings)), Value(ScalingFactor(s.scheme, s.lobbyType, s.settings)),
                     MatchPoints(TeamMode(s), p, pt), MatchPoints(TeamMode(s), q, qt), RatingOf(p), RatingOf(q));
  }

  /** The K factor, actual score and expected score the Elo scheme keeps after rating `player` against `opponent`. */
  ghost predicate EloKept(s: Setup, player: Player, playerTeam: Team, opponent: Player, opponentTeam: Team,
                          k: Option<real>, sa: Option<real>, ea: Option<real>)
    requires PowersOfTen(s.maths) && HasOpponents(s, player.name)
  {
    k == Some(EloK(s, player))
    && sa == Some(ActualScore(MatchPoints(TeamMode(s), player, playerTeam), MatchPoints(TeamMode(s), opponent, opponentTeam)))
    && ea == Some(Expected(s.maths, RatingOf(player), RatingOf(opponent)))
  }

  /**
   * `RatingSystemElo` or `RatingSystemMmr` built for one match. The
   * constructor fixes everything but Elo's `_k`, `_sa` and `_ea`, which
   * each call of `Calculate` overwrites.
   */
  class RatingSystem {
    const scheme: Scheme
    const teams: seq<Team>
    const lobbyType: string
    const settings: Settings
    const maths: Maths
    const isTeamMode: bool
    const nbTeams: nat
    const nbPlayers: nat
    const scalingFactor: Option<real>
    const baseline: Option<real>
    var k: Option<real>
    var sa: Option<real>
    var ea: Option<real>

    function Config(): Setup
    {
      Setup(scheme, teams, lobbyType, settings, maths)
    }

    /** The fields the constructor derives agree with the setup. */
    ghost predicate Valid()
    {
      isTeamMode == TeamMode(Config())
      && nbTeams == |teams| && nbPlayers == |AllPlayers(teams)|
      && scalingFactor == ScalingFactor(scheme, lobbyType, settings)
      && baseline == Baseline(scheme, lobbyType, settings)
    }

    constructor (setup: Setup)
      ensures Valid() && Config() == setup
      ensures k.None? && sa.None? && ea.None?
    {
      scheme := setup.scheme;
      teams := setup.teams;
      lobbyType := setup.lobbyType;
      settings := setup.settings;
      maths := setup.maths;
      isTeamMode := Lobby.IsTeamMode(setup.lobbyType);
      nbTeams := |setup.teams|;
      nbPlayers := NbPlayers(setup.teams);
      scalingFactor := ScalingFactor(setup.scheme, setup.lobbyType, setup.settings);
      baseline := Baseline(setup.scheme, setup.lobbyType, setup.settings);
      k, sa, ea := None, None, None;
    }

    /** `isValid`, read off the fields. */
    predicate IsValid()
      requires Valid()
      ensures IsValid() <==> SetupValid(Config())
    {
      BaseValid(teams, isTeamMode) && scalingFactor.Some? && (scheme == Mmr ==> baseline.Some?)
    }

    /** `calculate`; the Elo scheme keeps K, the actual and the expected score in its fields. */
    method Calculate(player: Player, playerTeam: Team, opponent: Player, opponentTeam: Team) returns (r: real)
      requires Valid()
      requires scheme == Elo ==> PowersOfTen(maths) && HasOpponents(Config(), player.name)
      modifies this
      ensures r == PairPoints(Config(), player, playerTeam, opponent, opponentTeam)
      ensures scheme == Elo ==> EloKept(Config(), player, playerTeam, opponent, opponentTeam, k, sa, ea)
      ensures scheme == Mmr ==> k == old(k) && sa == old(sa) && ea == old(ea)
    {
      var c := Config();
      var points := MatchPoints(isTeamMode, player, playerTeam);
      var opponentPoints := MatchPoints(isTeamMode, opponent, opponentTeam);
      if scheme == Elo {
        var kk := Value(scalingFactor) / NbOpponents(teams, isTeamMode, player.name).value as real;
        var s0 := ActualScore(points, opponentPoints);
        var e0 := Expected(maths, RatingOf(player), RatingOf(opponent));
        assert kk == EloK(c, player);
        EloPairPoints(c, player, playerTeam, opponent, opponentTeam);
        k, sa, ea := Some(kk), Some(s0), Some(e0);
        r := EloPoints(maths, kk, points, opponentPoints, RatingOf(player), RatingOf(opponent));
      } else {
        r := MmrPoints(maths, Value(baseline), Value(scalingFactor), points, opponentPoints, RatingOf(player), RatingOf(opponent));
      }
    }

    /** `adjustPlayerFinalRatingPoints`, read off the fields. */
    function Adjust(player: Player, points: real): (r: real)
      requires Valid() && (scheme == Mmr ==> HasOpponents(Config(), player.name))
      ensures r == AdjustedPoints(Config(), player, points)
    {
      if scheme == Elo then points else points / NbOpponents(teams, isTeamMode, player.name).value as real
    }
  }
}
