// `MatchCalculator.calculateSubmittedMatch`: the results of a match the
// board has already rated, read from the rating updates the board reports
// for it instead of being calculated.
module SubmittedMatch {
  import opened Wrappers
  import opened Records
  import Ranking
  import Objects
  import opened Seats
  import opened MatchCalculation

  /** What the board reports for one player of a rated match. */
  datatype RatingUpdate = RatingUpdate(
    name: string,
    ratingBefore: real,
    ratingAfter: real,
    rankingBefore: int,
    rankingAfter: int,
    firstMatch: bool)

  /** How `calculateSubmittedMatch` ends: with results, with null, or with an exception it does not catch. */
  datatype Outcome = Ok(results: seq<Result>) | Null | Throws

  /** `ratingUpdates.find`: the first update for the name. */
  function UpdateOf(updates: seq<RatingUpdate>, name: string): (r: Option<RatingUpdate>)
    ensures r.Some? ==> r.value.name == name
    ensures r.None? <==> forall k :: 0 <= k < |updates| ==> updates[k].name != name
  {
    if updates == [] then None
    else if updates[0].name == name then Some(updates[0])
    else
      assert forall k :: 1 <= k < |updates| ==> updates[k] == updates[1..][k - 1];
      UpdateOf(updates[1..], name)
  }

  /** The update found is the first one for the name. */
  lemma {:induction false} UpdateOfFirst(updates: seq<RatingUpdate>, name: string)
    requires UpdateOf(updates, name).Some?
    ensures exists k :: 0 <= k < |updates| && updates[k] == UpdateOf(updates, name).value
                        && forall k' :: 0 <= k' < k ==> updates[k'].name != name
  {
    if updates[0].name != name {
      UpdateOfFirst(updates[1..], name);
      var k :| 0 <= k < |updates[1..]| && updates[1..][k] == UpdateOf(updates, name).value
               && forall k' :: 0 <= k' < k ==> updates[1..][k'].name != name;
      assert updates[k + 1] == UpdateOf(updates, name).value;
      assert forall k' :: 1 <= k' < k + 1 ==> updates[k'] == updates[1..][k' - 1];
    } else {
      assert updates[0] == UpdateOf(updates, name).value;
    }
  }

  // ---------------------------------------------------------------
  // Tiers
  // ---------------------------------------------------------------

  /**
   * The tier name the scans of `calculateSubmittedMatch` give: the name of
   * the last tier of the leading run the rating reaches, or the lowest
   * tier's name when that run is empty or its last tier has an empty
   * name. None where there is no tier: reading the name of the missing
   * lowest tier throws.
   */
  function ScannedTierName(tiers: seq<Tier>, rating: real): (r: Option<string>)
    ensures r.None? <==> tiers == []
  {
    var n := Reached(tiers, rating);
    var name := if n == 0 then "" else tiers[n - 1].name;
    if name != "" then Some(name)
    else
      match Lowest(tiers)
      case None => None
      case Some(t) => Some(t.name)
  }

  /** One tier loop of `calculateSubmittedMatch`, with `lowest` the tier `_getLowestTier` gave. */
  method ScanTier(tiers: seq<Tier>, lowest: Option<Tier>, rating: real) returns (r: Option<string>)
    requires lowest == Lowest(tiers)
    ensures r == ScannedTierName(tiers, rating)
  {
    var name := "";
    var i := 0;
    while i < |tiers|
      invariant 0 <= i <= |tiers|
      invariant forall k :: 0 <= k < i ==> tiers[k].lowerBound as real <= rating
      invariant name == if i == 0 then "" else tiers[i - 1].name
    {
      if rating >= tiers[i].lowerBound as real {
        name := tiers[i].name;
      } else {
        break;
      }
      i := i + 1;
    }
    assert i == Reached(tiers, rating);
    if name == "" {
      if lowest.None? {
        return None;
      }
      name := lowest.value.name;
    }
    r := Some(name);
  }

  /** Where no tier has an empty name, the scans name the tier `_getTierByRating` finds. */
  lemma ScannedTierAgrees(tiers: seq<Tier>, rating: real)
    requires tiers != [] && forall k :: 0 <= k < |tiers| ==> tiers[k].name != ""
    ensures ScannedTierName(tiers, rating) == Some(TierOf(tiers, rating).value.name)
  {
    var n := Reached(tiers, rating);
    if n == 0 {
      var i := LowestIndex(tiers).value;
      assert Lowest(tiers) == Some(tiers[i]);
    }
  }

  // ---------------------------------------------------------------
  // The results
  // ---------------------------------------------------------------

  /**
   * The result of player `p` of team `t` from the board's update `u`:
   * rankings become 1-based, the original one is dropped on the player's
   * first match or when negative, the final one when negative; the delta
   * is the change of rating. In team mode the team is the team's name,
   * otherwise the player's.
   */
  function SubmittedResult(tiers: seq<Tier>, teamMode: bool, t: Team, p: Player, u: RatingUpdate): Result
    requires tiers != []
  {
    Result(p.name, if teamMode then t.name else p.name,
           if !u.firstMatch && u.rankingBefore >= 0 then Some(u.rankingBefore + 1) else None,
           if u.rankingAfter >= 0 then Some(u.rankingAfter + 1) else None,
           u.ratingBefore, u.ratingAfter - u.ratingBefore, u.ratingAfter,
           t.position, p.inTeamPosition, p.position,
           ScannedTierName(tiers, u.ratingBefore).value, ScannedTierName(tiers, u.ratingAfter).value)
  }

  /** One step of the loops: enter player `p` of team `t` into `results`. */
  function Enter(tiers: seq<Tier>, teamMode: bool, updates: seq<RatingUpdate>, t: Team, p: Player, results: seq<Result>): Outcome
  {
    match UpdateOf(updates, p.name)
    case None => Null
    case Some(u) =>
      if tiers == [] then Throws
      else Ok(Objects.Put(results, SubmittedResult(tiers, teamMode, t, p, u), NameOf))
  }

  /** The result a seat enters: the player's, made from their first update, None where they have none. */
  function SubmittedAt(teams: seq<Team>, updates: seq<RatingUpdate>, tiers: seq<Tier>): (nat, nat) -> Option<Result>
  {
    (a: nat, b: nat) =>
      if tiers != [] && a < |teams| && b < |teams[a].players| && UpdateOf(updates, teams[a].players[b].name).Some? then
        Some(SubmittedResult(tiers, |teams| > 1, teams[a], teams[a].players[b], UpdateOf(updates, teams[a].players[b].name).value))
      else None
  }

  /**
   * The `submittedMatchResults` object once the players before the stop
   * `(i, j)` who have an update have been entered.
   */
  function Entered(teams: seq<Team>, updates: seq<RatingUpdate>, tiers: seq<Tier>, i: nat, j: nat): seq<Result>
    requires tiers != [] && Stop(teams, i, j)
  {
    SeatFold(teams, SubmittedAt(teams, updates, tiers), NameOf, i, j)
  }

  /** Some player seated before the stop `(i, j)` has no rating update. */
  ghost predicate MissingUpTo(teams: seq<Team>, updates: seq<RatingUpdate>, i: nat, j: nat)
  {
    exists a: nat, b: nat | Before(teams, a, b, i, j) :: UpdateOf(updates, teams[a].players[b].name).None?
  }

  /** The first player of the first team that has players. */
  function FirstPlayer(teams: seq<Team>): (r: Option<Player>)
    ensures r.None? <==> forall a :: 0 <= a < |teams| ==> teams[a].players == []
  {
    if teams == [] then None
    else if teams[0].players != [] then Some(teams[0].players[0])
    else
      var r := FirstPlayer(teams[1..]);
      assert forall a :: 1 <= a < |teams| ==> teams[a] == teams[1..][a - 1];
      r
  }

  /**
   * What `calculateSubmittedMatch` returns. Without tiers, the first
   * player gives null when they have no update and otherwise throws.
   * With tiers: null when some player has no update; otherwise the
   * results sorted by position, null where there is none.
   */
  ghost function SubmittedSpec(teams: seq<Team>, updates: seq<RatingUpdate>, tiers: seq<Tier>): Outcome
  {
    if tiers == [] then
      match FirstPlayer(teams)
      case None => Null
      case Some(p) => if UpdateOf(updates, p.name).None? then Null else Throws
    else if MissingUpTo(teams, updates, |teams|, 0) then Null
    else
      var sorted := Ranking.Sort(Entered(teams, updates, tiers, |teams|, 0), ByPosition(|teams| > 1));
      if sorted == [] then Null else Ok(sorted)
  }

  /** The body of the loops: one player's result, or how the loops end. */
  method EnterSubmitted(tiers: seq<Tier>, lowest: Option<Tier>, teamMode: bool, updates: seq<RatingUpdate>,
                        t: Team, p: Player, results: seq<Result>) returns (r: Outcome)
    requires lowest == Lowest(tiers)
    ensures r == Enter(tiers, teamMode, updates, t, p, results)
  {
    var update := UpdateOf(updates, p.name);
    if update.None? {
      return Null;
    }
    var u := update.value;
    var originalTier := ScanTier(tiers, lowest, u.ratingBefore);
    if originalTier.None? {
      return Throws;
    }
    var finalTier := ScanTier(tiers, lowest, u.ratingAfter);
    var teamName := if teamMode then t.name else p.name;
    var originalRanking := if !u.firstMatch && u.rankingBefore >= 0 then Some(u.rankingBefore + 1) else None;
    var finalRanking := if u.rankingAfter >= 0 then Some(u.rankingAfter + 1) else None;
    var result := Result(p.name, teamName, originalRanking, finalRanking,
                         u.ratingBefore, u.ratingAfter - u.ratingBefore, u.ratingAfter,
                         t.position, p.inTeamPosition, p.position, originalTier.value, finalTier.value);
    assert result == SubmittedResult(tiers, teamMode, t, p, u);
    assert Enter(tiers, teamMode, updates, t, p, results) == Ok(Objects.Put(results, SubmittedResult(tiers, teamMode, t, p, u), NameOf));
    r := Ok(Objects.Put(results, result, NameOf));
  }

  lemma EnteredStep(teams: seq<Team>, updates: seq<RatingUpdate>, tiers: seq<Tier>, i: nat, j: nat, results: seq<Result>)
    requires tiers != [] && i < |teams| && j < |teams[i].players|
    requires results == Entered(teams, updates, tiers, i, j)
    requires Enter(tiers, |teams| > 1, updates, teams[i], teams[i].players[j], results).Ok?
    ensures Entered(teams, updates, tiers, i, j + 1) == Enter(tiers, |teams| > 1, updates, teams[i], teams[i].players[j], results).results
  {
    var p := teams[i].players[j];
    assert SubmittedAt(teams, updates, tiers)(i, j) == Some(SubmittedResult(tiers, |teams| > 1, teams[i], p, UpdateOf(updates, p.name).value));
  }

  /** Entering one more player adds them to the players seen. */
  lemma MissingStep(teams: seq<Team>, updates: seq<RatingUpdate>, i: nat, j: nat)
    requires i < |teams| && j < |teams[i].players|
    ensures MissingUpTo(teams, updates, i, j + 1)
      <==> MissingUpTo(teams, updates, i, j) || UpdateOf(updates, teams[i].players[j].name).None?
  {
    assert Before(teams, i, j, i, j + 1);
    if MissingUpTo(teams, updates, i, j) {
      var a: nat, b: nat :| Before(teams, a, b, i, j) && UpdateOf(updates, teams[a].players[b].name).None?;
      assert Before(teams, a, b, i, j + 1);
    }
    if MissingUpTo(teams, updates, i, j + 1) {
      var a: nat, b: nat :| Before(teams, a, b, i, j + 1) && UpdateOf(updates, teams[a].players[b].name).None?;
      if !(a == i && b == j) {
        assert Before(teams, a, b, i, j);
      }
    }
  }

  lemma MissingNext(teams: seq<Team>, updates: seq<RatingUpdate>, i: nat)
    requires i < |teams|
    ensures MissingUpTo(teams, updates, i + 1, 0) <==> MissingUpTo(teams, updates, i, |teams[i].players|)
  {
    assert forall a: nat, b: nat :: Before(teams, a, b, i + 1, 0) <==> Before(teams, a, b, i, |teams[i].players|);
  }

  /** The first player of the first team with players. */
  lemma {:induction false} FirstPlayerAt(teams: seq<Team>, i: nat)
    requires i < |teams| && teams[i].players != []
    requires forall a :: 0 <= a < i ==> teams[a].players == []
    ensures FirstPlayer(teams) == Some(teams[i].players[0])
  {
    if i > 0 {
      FirstPlayerAt(teams[1..], i - 1);
    }
  }

  /**
   * The inner loop of `calculateSubmittedMatch` over the players of team
   * `i`: the results once they are entered, or how the whole call ends.
   */
  method EnterTeam(teams: seq<Team>, updates: seq<RatingUpdate>, tiers: seq<Tier>, lowest: Option<Tier>, i: nat, results: seq<Result>)
    returns (r: Outcome)
    requires lowest == Lowest(tiers) && i < |teams|
    requires !MissingUpTo(teams, updates, i, 0)
    requires tiers != [] ==> results == Entered(teams, updates, tiers, i, 0)
    requires tiers == [] ==> results == [] && forall a | 0 <= a < i :: teams[a].players == []
    ensures !r.Ok? ==> r == SubmittedSpec(teams, updates, tiers)
    ensures r.Ok? ==> !MissingUpTo(teams, updates, i + 1, 0)
    ensures r.Ok? && tiers != [] ==> r.results == Entered(teams, updates, tiers, i + 1, 0)
    ensures r.Ok? && tiers == [] ==> r.results == [] && teams[i].players == []
  {
    var acc := results;
    var j := 0;
    while j < |teams[i].players|
      invariant j <= |teams[i].players|
      invariant !MissingUpTo(teams, updates, i, j)
      invariant tiers != [] ==> acc == Entered(teams, updates, tiers, i, j)
      invariant tiers == [] ==> acc == [] && j == 0
    {
      var entered := EnterSubmitted(tiers, lowest, |teams| > 1, updates, teams[i], teams[i].players[j], acc);
      if !entered.Ok? {
        if tiers == [] {
          FirstPlayerAt(teams, i);
        } else {
          assert Before(teams, i, j, |teams|, 0);
        }
        return entered;
      }
      MissingStep(teams, updates, i, j);
      EnteredStep(teams, updates, tiers, i, j, acc);
      acc := entered.results;
      j := j + 1;
    }
    MissingNext(teams, updates, i);
    r := Ok(acc);
  }

  /** `calculateSubmittedMatch` for a match of `teams` the board reports `updates` for. */
  method CalculateSubmittedMatch(teams: seq<Team>, updates: seq<RatingUpdate>, tiers: seq<Tier>) returns (r: Outcome)
    ensures r == SubmittedSpec(teams, updates, tiers)
  {
    var results: seq<Result> := [];
    var lowest := GetLowestTier(tiers);
    var i := 0;
    while i < |teams|
      invariant i <= |teams|
      invariant !MissingUpTo(teams, updates, i, 0)
      invariant tiers != [] ==> results == Entered(teams, updates, tiers, i, 0)
      invariant tiers == [] ==> results == [] && forall a | 0 <= a < i :: teams[a].players == []
    {
      var entered := EnterTeam(teams, updates, tiers, lowest, i, results);
      if !entered.Ok? {
        return entered;
      }
      results := entered.results;
      i := i + 1;
    }
    var sorted := Ranking.Sort(results, ByPosition(|teams| > 1));
    if |sorted| == 0 {
      return Null;
    }
    r := Ok(sorted);
  }

  // ---------------------------------------------------------------
  // What the submitted results promise
  // ---------------------------------------------------------------

  /**
   * With tiers, `calculateSubmittedMatch` never throws, and returns null
   * exactly when the match has no player or some player has no rating
   * update. Without tiers it never returns results.
   */
  lemma SubmittedNull(teams: seq<Team>, updates: seq<RatingUpdate>, tiers: seq<Tier>)
    ensures tiers != [] ==> SubmittedSpec(teams, updates, tiers) != Throws
    ensures tiers != [] ==> (SubmittedSpec(teams, updates, tiers) == Null
                             <==> FirstPlayer(teams).None? || MissingUpTo(teams, updates, |teams|, 0))
    ensures tiers == [] ==> !SubmittedSpec(teams, updates, tiers).Ok?
  {
    if tiers != [] && !MissingUpTo(teams, updates, |teams|, 0) {
      var entered := Entered(teams, updates, tiers, |teams|, 0);
      var sorted := Ranking.Sort(entered, ByPosition(|teams| > 1));
      assert SubmittedSpec(teams, updates, tiers) == if sorted == [] then Null else Ok(sorted);
      if FirstPlayer(teams).Some? {
        var a :| 0 <= a < |teams| && teams[a].players != [];
        assert Before(teams, a, 0, |teams|, 0);
        FoldKeyed(teams, SubmittedAt(teams, updates, tiers), NameOf, |teams|, 0, a, 0);
        assert |sorted| > 0;
      } else {
        FoldNoSeats(teams, SubmittedAt(teams, updates, tiers), NameOf, |teams|);
        assert |sorted| == 0;
      }
    }
  }

  /**
   * When `calculateSubmittedMatch` returns results: one per player name,
   * and one for every player of the match.
   */
  lemma SubmittedResults(teams: seq<Team>, updates: seq<RatingUpdate>, tiers: seq<Tier>)
    requires SubmittedSpec(teams, updates, tiers).Ok?
    ensures tiers != []
    ensures var rs := SubmittedSpec(teams, updates, tiers).results;
      Objects.DistinctKeys(rs, NameOf)
      && forall a, b | 0 <= a < |teams| && 0 <= b < |teams[a].players| :: Named(rs, teams[a].players[b].name)
  {
    assert !MissingUpTo(teams, updates, |teams|, 0);
    SortedEnteredNamed(teams, updates, tiers);
  }

  lemma SortedEnteredNamed(teams: seq<Team>, updates: seq<RatingUpdate>, tiers: seq<Tier>)
    requires tiers != [] && !MissingUpTo(teams, updates, |teams|, 0)
    ensures var rs := Ranking.Sort(Entered(teams, updates, tiers, |teams|, 0), ByPosition(|teams| > 1));
      Objects.DistinctKeys(rs, NameOf)
      && forall a, b | 0 <= a < |teams| && 0 <= b < |teams[a].players| :: Named(rs, teams[a].players[b].name)
  {
    var unsorted := Entered(teams, updates, tiers, |teams|, 0);
    var rs := Ranking.Sort(unsorted, ByPosition(|teams| > 1));
    FoldDistinct(teams, SubmittedAt(teams, updates, tiers), NameOf, |teams|, 0);
    Objects.SortDistinct(unsorted, ByPosition(|teams| > 1), NameOf);
    forall a, b | 0 <= a < |teams| && 0 <= b < |teams[a].players| ensures Named(rs, teams[a].players[b].name) {
      assert Before(teams, a, b, |teams|, 0);
      FoldKeyed(teams, SubmittedAt(teams, updates, tiers), NameOf, |teams|, 0, a, b);
      var k :| 0 <= k < |unsorted| && unsorted[k].name == teams[a].players[b].name;
      assert unsorted[k] in multiset(rs) by { assert unsorted[k] in multiset(unsorted); }
      var k' :| 0 <= k' < |rs| && rs[k'] == unsorted[k];
    }
  }

  /**
   * Each result returned is made from a player of the match and that
   * player's first rating update.
   */
  lemma SubmittedFromUpdates(teams: seq<Team>, updates: seq<RatingUpdate>, tiers: seq<Tier>, k: nat)
    requires SubmittedSpec(teams, updates, tiers).Ok? && k < |SubmittedSpec(teams, updates, tiers).results|
    ensures tiers != []
    ensures exists a: nat, b: nat | Before(teams, a, b, |teams|, 0) ::
      UpdateOf(updates, teams[a].players[b].name).Some?
      && SubmittedSpec(teams, updates, tiers).results[k]
         == SubmittedResult(tiers, |teams| > 1, teams[a], teams[a].players[b], UpdateOf(updates, teams[a].players[b].name).value)
  {
    var unsorted := Entered(teams, updates, tiers, |teams|, 0);
    var rs := Ranking.Sort(unsorted, ByPosition(|teams| > 1));
    assert SubmittedSpec(teams, updates, tiers) == Ok(rs);
    FoldFromSeats(teams, SubmittedAt(teams, updates, tiers), NameOf, |teams|, 0);
    SortedMembers(unsorted, |teams| > 1, k);
    var a: nat, b: nat :| Before(teams, a, b, |teams|, 0) && SubmittedAt(teams, updates, tiers)(a, b) == Some(rs[k]);
  }

  /**
   * The results returned are sorted by team position and then position.
   * With more than one team they are sorted by team position, and each
   * team by position when no two players and no two teams share a name.
   */
  lemma SubmittedSorted(teams: seq<Team>, updates: seq<RatingUpdate>, tiers: seq<Tier>)
    requires SubmittedSpec(teams, updates, tiers).Ok?
    ensures var rs := SubmittedSpec(teams, updates, tiers).results;
      (|teams| <= 1 ==> Ranking.SortedBy(rs, PositionOrder()))
      && (|teams| > 1 ==> Ranking.SortedBy(rs, TeamPositionOrder()))
    ensures |teams| > 1 && DistinctSeats(teams) && DistinctTeamNames(teams) ==>
      InTeamOrder(SubmittedSpec(teams, updates, tiers).results)
  {
    var unsorted := Entered(teams, updates, tiers, |teams|, 0);
    if |teams| > 1 && DistinctSeats(teams) && DistinctTeamNames(teams) {
      assert SeatedResults(teams, SubmittedAt(teams, updates, tiers));
      FoldTeamOrdered(teams, SubmittedAt(teams, updates, tiers), |teams|, 0);
      OrderedContiguous(teams, unsorted, |teams|);
    }
    SortedByPosition(unsorted, |teams| > 1);
  }
}
