// Lobby types and the leaderboards they are rated on
// (db/models/lobby.js). The rest of the bot carries a lobby type as its
// code string, so the tables here are looked up by code.
module Lobby {
  import opened Wrappers

  datatype LobbyType =
    | RaceItemsFfa | RaceItemsDuos | RaceItems3v3 | RaceItems4v4 | RaceSurvival
    | RaceItemless1v1 | RaceItemlessFfa | RaceItemlessDuos | RaceItemless3v3 | RaceItemless4v4
    | Battle1v1 | BattleFfa | BattleDuos | Battle3v3 | Battle4v4
    | InstaDuos | Insta3v3 | Insta4v4

  function Code(t: LobbyType): string
  {
    match t
    case RaceItemsFfa => "race_ffa"
    case RaceItemsDuos => "race_duos"
    case RaceItems3v3 => "race_3v3"
    case RaceItems4v4 => "race_4v4"
    case RaceSurvival => "race_survival"
    case RaceItemless1v1 => "race_itemless_1v1"
    case RaceItemlessFfa => "race_itemless_ffa"
    case RaceItemlessDuos => "race_itemless_duos"
    case RaceItemless3v3 => "race_itemless_3v3"
    case RaceItemless4v4 => "race_itemless_4v4"
    case Battle1v1 => "battle_1v1"
    case BattleFfa => "battle_ffa"
    case BattleDuos => "battle_duos"
    case Battle3v3 => "battle_3v3"
    case Battle4v4 => "battle_4v4"
    case InstaDuos => "insta_duos"
    case Insta3v3 => "insta_3v3"
    case Insta4v4 => "insta_4v4"
  }

  /** The keys of the leaderboard table in their insertion order, which is the order `Object.entries` visits them. */
  const AllTypes: seq<LobbyType> := [
    RaceItemsFfa, RaceItemsDuos, RaceItems3v3, RaceItems4v4, RaceSurvival,
    RaceItemless1v1, RaceItemlessFfa, RaceItemlessDuos, RaceItemless3v3, RaceItemless4v4,
    Battle1v1, BattleFfa, BattleDuos, Battle3v3, Battle4v4,
    InstaDuos, Insta3v3, Insta4v4]

  const SolosBoard: string := "8-jFwF"
  const ItemlessBoard: string := "Yg67aT"
  const TeamsBoard: string := "9ur6s5"
  const InstaTeamsBoard: string := "3NM8MD"
  const BattleBoard: string := "2pgqJQ"

  const SchemeElo: string := "elo"
  const SchemeMmr: string := "mk8dx_mmr"

  /** The leaderboard a lobby type is rated on; None where the table holds `null`. */
  function Board(t: LobbyType): Option<string>
  {
    match t
    case RaceItemsFfa => Some(SolosBoard)
    case RaceItemsDuos | RaceItems3v3 | RaceItems4v4 => Some(TeamsBoard)
    case RaceSurvival | RaceItemless1v1 | Battle1v1 => None
    case RaceItemlessFfa | RaceItemlessDuos | RaceItemless3v3 | RaceItemless4v4 => Some(ItemlessBoard)
    case BattleFfa | BattleDuos | Battle3v3 | Battle4v4 => Some(BattleBoard)
    case InstaDuos | Insta3v3 | Insta4v4 => Some(InstaTeamsBoard)
  }

  const DuoModes: seq<LobbyType> := [RaceItemsDuos, RaceItemlessDuos, BattleDuos]
  const TrioModes: seq<LobbyType> := [RaceItems3v3, RaceItemless3v3, Battle3v3]
  const QuadModes: seq<LobbyType> := [RaceItems4v4, RaceItemless4v4, Battle4v4]
  const InstaModes: seq<LobbyType> := [InstaDuos, Insta3v3, Insta4v4]

  /** The first key of the table, in insertion order, that equals `code` (`hasOwnProperty`). */
  function FromCodeIn(types: seq<LobbyType>, code: string): (r: Option<LobbyType>)
    ensures r.Some? ==> r.value in types && Code(r.value) == code
    ensures r.None? ==> forall t :: t in types ==> Code(t) != code
  {
    if types == [] then None
    else if Code(types[0]) == code then Some(types[0])
    else FromCodeIn(types[1..], code)
  }

  function FromCode(code: string): Option<LobbyType>
  {
    FromCodeIn(AllTypes, code)
  }

  predicate IsKnown(code: string) { FromCode(code).Some? }

  /** `LEADERBOARDS[code]`, with None for a missing key and for a `null` value alike. */
  function BoardOf(code: string): Option<string>
  {
    match FromCode(code)
    case None => None
    case Some(t) => Board(t)
  }

  function Codes(types: seq<LobbyType>): (r: seq<string>)
    ensures |r| == |types| && forall i :: 0 <= i < |types| ==> r[i] == Code(types[i])
  {
    if types == [] then [] else [Code(types[0])] + Codes(types[1..])
  }

  /** The team-mode test the parser, the rating systems, the calculator and the board reader share. */
  predicate IsTeamMode(code: string)
  {
    code in Codes(DuoModes) || code in Codes(TrioModes) || code in Codes(QuadModes) || code in Codes(InstaModes)
  }

  predicate IsTeamType(t: LobbyType)
  {
    t in DuoModes || t in TrioModes || t in QuadModes || t in InstaModes
  }

  lemma AllTypesComplete(t: LobbyType)
    ensures t in AllTypes
  {
  }

  /** Three characters of a code that already tell the lobby types apart. */
  function CodeKey(t: LobbyType): (int, char, char)
  {
    var c := Code(t);
    (|c|, c[0], c[|c| - 3])
  }

  lemma CodeKeyInjective(s: LobbyType, t: LobbyType)
    requires CodeKey(s) == CodeKey(t)
    ensures s == t
  {
  }

  /** Distinct lobby types have distinct codes. */
  lemma CodeInjective(s: LobbyType, t: LobbyType)
    requires Code(s) == Code(t)
    ensures s == t
  {
    CodeKeyInjective(s, t);
  }

  /** Looking a type's code up in the table gives that type back. */
  lemma FromCodeOfCode(t: LobbyType)
    ensures FromCode(Code(t)) == Some(t)
  {
    AllTypesComplete(t);
    var r := FromCode(Code(t));
    if r.Some? {
      CodeInjective(r.value, t);
    }
  }

  /** A code found in the table is the code of the type it is found as. */
  lemma FromCodeInverse(code: string)
    requires IsKnown(code)
    ensures Code(FromCode(code).value) == code
  {
  }

  lemma CodeInCodes(types: seq<LobbyType>, t: LobbyType)
    ensures Code(t) in Codes(types) <==> t in types
  {
    if Code(t) in Codes(types) {
      var i :| 0 <= i < |types| && Codes(types)[i] == Code(t);
      CodeInjective(types[i], t);
    }
    if t in types {
      var i :| 0 <= i < |types| && types[i] == t;
      assert Codes(types)[i] == Code(t);
    }
  }

  /** A lobby type is played in teams exactly when it is a duos, 3v3 or 4v4 format of any mode. */
  lemma TeamTypes(t: LobbyType)
    ensures IsTeamType(t) <==> t in {RaceItemsDuos, RaceItems3v3, RaceItems4v4, RaceItemlessDuos, RaceItemless3v3,
                                     RaceItemless4v4, BattleDuos, Battle3v3, Battle4v4, InstaDuos, Insta3v3, Insta4v4}
  {
  }

  /** The team-mode test on codes agrees with the team types. */
  lemma TeamModeOfCode(t: LobbyType)
    ensures IsTeamMode(Code(t)) <==> IsTeamType(t)
  {
    CodeInCodes(DuoModes, t);
    CodeInCodes(TrioModes, t);
    CodeInCodes(QuadModes, t);
    CodeInCodes(InstaModes, t);
  }

  /** Every team-mode code is a key of the table, of a team type. */
  lemma TeamModeIsKnown(code: string)
    ensures IsTeamMode(code) ==> IsKnown(code) && IsTeamType(FromCode(code).value)
  {
    if IsTeamMode(code) {
      var list :=
        if code in Codes(DuoModes) then DuoModes
        else if code in Codes(TrioModes) then TrioModes
        else if code in Codes(QuadModes) then QuadModes
        else InstaModes;
      var i :| 0 <= i < |list| && Codes(list)[i] == code;
      var t := list[i];
      FromCodeOfCode(t);
      assert IsTeamType(t);
    }
  }

  /** Exactly the survival and one-versus-one lobby types have no leaderboard. */
  lemma UnratedTypes(t: LobbyType)
    ensures Board(t).None? <==> t in {RaceSurvival, RaceItemless1v1, Battle1v1}
  {
  }
}
