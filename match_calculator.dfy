// `MatchCalculator.calculate` (utils/scores_calculation/match_calculator.js):
// the board tiers a rating falls into, the order results are listed in,
// and the calculation of a match from the board's ratings. Every player's
// delta sums the rating system's points against every player of every
// other team; team modes may then share a team's average; the final
// rating is floored at the board's minimum rating.
//
// The calculation is specified by folds over the match's seats (team i,
// player j) that follow the source's loops one step at a time, and the
// method that runs those loops is proved against them.
module MatchCalculation {
  import opened Wrappers
  import opened Records
  import opened Seats
  import opened RatingSystems
  import Lobby
  import Ranking
  import Objects
  import TeamRanking

  /** A board tier: its name and the least rating that reaches it. */
  datatype Tier = Tier(name: string, lowerBound: int)

  /** One player's entry in the match results. */
  datatype Result = Result(
    name: string,
    team: string,
    originalRanking: Option<int>,
    finalRanking: Option<int>,
    originalRating: real,
    delta: real,
    finalRating: real,
    teamPosition: nat,
    inTeamPosition: nat,
    position: nat,
    originalTier: string,
    finalTier: string)

  /** The property name a result is stored under. */
  function NameOf(r: Result): string
  {
    r.name
  }

  // ---------------------------------------------------------------
  // Tiers
  // ---------------------------------------------------------------

  /** How many tiers, from the first, the rating reaches before the first one it does not. */
  function Reached(tiers: seq<Tier>, rating: real): (n: nat)
    ensures n <= |tiers|
    ensures forall i :: 0 <= i < n ==> tiers[i].lowerBound as real <= rating
    ensures n < |tiers| ==> rating < tiers[n].lowerBound as real
  {
    if tiers == [] || rating < tiers[0].lowerBound as real then 0
    else 1 + Reached(tiers[1..], rating)
  }

  /** The first tier with the least lower bound. */
  function LowestIndex(tiers: seq<Tier>): (r: Option<nat>)
    ensures r.None? <==> tiers == []
    ensures r.Some? ==> r.value < |tiers|
    ensures r.Some? ==> forall i :: 0 <= i < |tiers| ==> tiers[r.value].lowerBound <= tiers[i].lowerBound
    ensures r.Some? ==> forall i :: 0 <= i < r.value ==> tiers[r.value].lowerBound < tiers[i].lowerBound
  {
    if tiers == [] then None
    else
      var prev := LowestIndex(tiers[..|tiers| - 1]);
      if prev.None? || tiers[|tiers| - 1].lowerBound < tiers[prev.value].lowerBound then Some(|tiers| - 1)
      else prev
  }

  function Lowest(tiers: seq<Tier>): Option<Tier>
  {
    match LowestIndex(tiers)
    case None => None
    case Some(i) => Some(tiers[i])
  }

  /**
   * `_getLowestTier`: the running minimum starts at infinity (None here),
   * and a tier replaces the one kept only with a strictly smaller bound.
   */
  method GetLowestTier(tiers: seq<Tier>) returns (tier: Option<Tier>)
    ensures tier == Lowest(tiers)
  {
    var minLowerBound: Option<int> := None;
    tier := None;
    var i := 0;
    while i < |tiers|
      invariant 0 <= i <= |tiers|
      invariant tier == Lowest(tiers[..i])
      invariant minLowerBound == if tier.Some? then Some(tier.value.lowerBound) else None
    {
      assert tiers[..i + 1][..i] == tiers[..i];
      if minLowerBound.None? || tiers[i].lowerBound < minLowerBound.value {
        minLowerBound := Some(tiers[i].lowerBound);
        tier := Some(tiers[i]);
      }
      i := i + 1;
    }
    assert tiers[..i] == tiers;
  }

  /** `_getMinRating`: the least lower bound of any tier; None where there is no tier (the source throws). */
  function MinRating(tiers: seq<Tier>): (r: Option<int>)
    ensures r.Some? <==> tiers != []
    ensures r.Some? ==> forall t :: t in tiers ==> r.value <= t.lowerBound
    ensures r.Some? ==> exists t :: t in tiers && t.lowerBound == r.value
  {
    match LowestIndex(tiers)
    case None => None
    case Some(i) =>
      assert tiers[i] in tiers;
      assert forall t :: t in tiers ==> exists k :: 0 <= k < |tiers| && tiers[k] == t;
      Some(tiers[i].lowerBound)
  }

  /**
   * `_getTierByRating`: the last tier of the leading run of tiers the
   * rating reaches, or the lowest tier when it reaches none.
   */
  function TierOf(tiers: seq<Tier>, rating: real): (r: Option<Tier>)
    ensures r.Some? <==> tiers != []
  {
    var n := Reached(tiers, rating);
    if n > 0 then Some(tiers[n - 1]) else Lowest(tiers)
  }

  method TierByRating(tiers: seq<Tier>, rating: real) returns (tier: Option<Tier>)
    ensures tier == TierOf(tiers, rating)
  {
    tier := None;
    var i := 0;
    while i < |tiers|
      invariant 0 <= i <= |tiers|
      invariant forall k :: 0 <= k < i ==> tiers[k].lowerBound as real <= rating
      invariant tier == if i == 0 then None else Some(tiers[i - 1])
    {
      if rating >= tiers[i].lowerBound as real {
        tier := Some(tiers[i]);
      } else {
        break;
      }
      i := i + 1;
    }
    assert i == Reached(tiers, rating);
    if tier.None? {
      tier := GetLowestTier(tiers);
    }
  }

  predicate Ascending(tiers: seq<Tier>)
  {
    forall i, j :: 0 <= i < j < |tiers| ==> tiers[i].lowerBound < tiers[j].lowerBound
  }

  /**
   * On tiers listed by increasing lower bound, a rating's tier is the one
   * with the greatest bound it reaches, and the lowest tier when it
   * reaches none.
   */
  lemma TierOfAscending(tiers: seq<Tier>, rating: real)
    requires Ascending(tiers) && tiers != []
    ensures TierOf(tiers, rating).Some? && TierOf(tiers, rating).value in tiers
    ensures rating < tiers[0].lowerBound as real ==> TierOf(tiers, rating) == Some(tiers[0])
    ensures tiers[0].lowerBound as real <= rating ==>
      var t := TierOf(tiers, rating).value;
      t.lowerBound as real <= rating
      && forall u :: u in tiers && u.lowerBound as real <= rating ==> u.lowerBound <= t.lowerBound
  {
    var n := Reached(tiers, rating);
    if n == 0 {
      var k := LowestIndex(tiers).value;
      assert k == 0;
    } else {
      forall u | u in tiers && u.lowerBound as real <= rating ensures u.lowerBound <= tiers[n - 1].lowerBound {
        var m :| 0 <= m < |tiers| && tiers[m] == u;
        assert m < n;
      }
    }
  }

  // ---------------------------------------------------------------
  // Order of the results
  // ---------------------------------------------------------------

  /**
   * `_sortResultsByPosition` as the sort's `after` relation. Outside team
   * mode: by team position, then by position. In team mode: by team
   * position, and within one team by position; players of different
   * teams sharing a team position stay as they are.
   */
  function ByPosition(teamMode: bool): (Result, Result) -> bool
  {
    (a: Result, b: Result) =>
      if teamMode then
        if a.teamPosition != b.teamPosition then a.teamPosition > b.teamPosition
        else a.team == b.team && a.position > b.position
      else a.teamPosition > b.teamPosition || (a.teamPosition == b.teamPosition && a.position > b.position)
  }

  /** Team position first, then position. */
  function PositionOrder(): (Result, Result) -> bool
  {
    (a: Result, b: Result) => a.teamPosition < b.teamPosition || (a.teamPosition == b.teamPosition && a.position <= b.position)
  }

  function TeamPositionOrder(): (Result, Result) -> bool
  {
    (a: Result, b: Result) => a.teamPosition <= b.teamPosition
  }

  lemma ByPositionOrders()
    ensures Ranking.Transitive(PositionOrder()) && Ranking.Respects(ByPosition(false), PositionOrder())
    ensures Ranking.Transitive(TeamPositionOrder()) && Ranking.Respects(ByPosition(true), TeamPositionOrder())
  {
  }

  /**
   * Sorted results are listed by team position and then position. In
   * team mode, where the comparator is not a total order, they are listed
   * by team position, and each team by position when its results come in
   * next to each other.
   */
  lemma SortedByPosition(results: seq<Result>, teamMode: bool)
    ensures !teamMode ==> Ranking.SortedBy(Ranking.Sort(results, ByPosition(teamMode)), PositionOrder())
    ensures teamMode ==> Ranking.SortedBy(Ranking.Sort(results, ByPosition(teamMode)), TeamPositionOrder())
    ensures teamMode && TeamsContiguous(results) && TeamsPlaced(results) ==>
      InTeamOrder(Ranking.Sort(results, ByPosition(teamMode)))
  {
    ByPositionOrders();
    if teamMode {
      Ranking.SortSortedBy(results, ByPosition(true), TeamPositionOrder());
      if TeamsContiguous(results) && TeamsPlaced(results) {
        SortInTeam(results);
      }
    } else {
      Ranking.SortSortedBy(results, ByPosition(false), PositionOrder());
    }
  }

  /** Within each team, results are listed by position. */
  predicate InTeamOrder(s: seq<Result>)
  {
    forall i, j :: 0 <= i < j < |s| && s[i].team == s[j].team ==> s[i].position <= s[j].position
  }

  /** The results of each team are next to each other. */
  predicate TeamsContiguous(s: seq<Result>)
  {
    forall i, j, k :: 0 <= i < j < k < |s| && s[i].team == s[k].team ==> s[j].team == s[i].team
  }

  /** The results of one team share its team position. */
  ghost predicate TeamsPlaced(s: seq<Result>)
  {
    forall x, y :: x in s && y in s && x.team == y.team ==> x.teamPosition == y.teamPosition
  }

  /** Every result of another team listed after a result of team `t` has a greater team position. */
  predicate ClosesBlock(s: seq<Result>, t: string)
  {
    forall i, j :: 0 <= i < j < |s| && s[i].team == t && s[j].team != t ==> s[i].teamPosition < s[j].teamPosition
  }

  /**
   * Inserting a result of team `t` into results that keep each team by
   * position, and that list no other team after `t` at `t`'s team
   * position, keeps each team by position, and still lists no other team
   * after `t` at that team position.
   */
  lemma {:induction false} InsertInTeam(x: Result, r: seq<Result>)
    requires Ranking.SortedBy(r, TeamPositionOrder()) && InTeamOrder(r) && ClosesBlock(r, x.team)
    requires forall y | y in r && y.team == x.team :: y.teamPosition == x.teamPosition
    ensures InTeamOrder(Ranking.Insert(x, r, ByPosition(true)))
    ensures ClosesBlock(Ranking.Insert(x, r, ByPosition(true)), x.team)
    decreases |r|
  {
    if r == [] {
      return;
    }
    var init, e := r[..|r| - 1], r[|r| - 1];
    if ByPosition(true)(e, x) {
      PrefixInTeam(r, x.team);
      InsertInTeam(x, init);
      InsertPastLast(x, r);
    } else {
      InsertAtLast(x, r);
    }
  }

  /** The facts `InsertInTeam` asks of a sequence hold for its prefix. */
  lemma PrefixInTeam(r: seq<Result>, t: string)
    requires r != []
    requires Ranking.SortedBy(r, TeamPositionOrder()) && InTeamOrder(r) && ClosesBlock(r, t)
    ensures var init := r[..|r| - 1];
      Ranking.SortedBy(init, TeamPositionOrder()) && InTeamOrder(init) && ClosesBlock(init, t)
      && forall y | y in init :: y in r
  {
  }

  /** A result the comparator leaves behind the last one is appended. */
  lemma InsertAtLast(x: Result, r: seq<Result>)
    requires r != [] && !ByPosition(true)(r[|r| - 1], x)
    requires Ranking.SortedBy(r, TeamPositionOrder()) && InTeamOrder(r) && ClosesBlock(r, x.team)
    requires forall y | y in r && y.team == x.team :: y.teamPosition == x.teamPosition
    ensures InTeamOrder(Ranking.Insert(x, r, ByPosition(true)))
    ensures ClosesBlock(Ranking.Insert(x, r, ByPosition(true)), x.team)
  {
    assert Ranking.Insert(x, r, ByPosition(true)) == r + [x];
    var e := r[|r| - 1];
    forall i | 0 <= i < |r| && r[i].team == x.team
      ensures r[i].position <= x.position
    {
      assert r[i] in r && e in r;
      if i < |r| - 1 {
        assert TeamPositionOrder()(r[i], e);
      }
    }
    SnocInTeam(r, x, x.team);
  }

  /** A result the comparator moves past the last one is inserted before it. */
  lemma InsertPastLast(x: Result, r: seq<Result>)
    requires r != [] && ByPosition(true)(r[|r| - 1], x)
    requires InTeamOrder(r) && ClosesBlock(r, x.team)
    requires forall y | y in r && y.team == x.team :: y.teamPosition == x.teamPosition
    requires var m := Ranking.Insert(x, r[..|r| - 1], ByPosition(true));
      InTeamOrder(m) && ClosesBlock(m, x.team)
    ensures InTeamOrder(Ranking.Insert(x, r, ByPosition(true)))
    ensures ClosesBlock(Ranking.Insert(x, r, ByPosition(true)), x.team)
  {
    var init, e := r[..|r| - 1], r[|r| - 1];
    var m := Ranking.Insert(x, init, ByPosition(true));
    assert Ranking.Insert(x, r, ByPosition(true)) == m + [e];
    assert e in r;
    forall i | 0 <= i < |m| && m[i].team == e.team
      ensures m[i].position <= e.position
    {
      var k := InsertedFrom(x, init, i);
      if k < |init| {
        assert r[k] == init[k];
      }
    }
    forall i | 0 <= i < |m| && m[i].team == x.team && e.team != x.team
      ensures m[i].teamPosition < e.teamPosition
    {
      var k := InsertedFrom(x, init, i);
      if k < |init| {
        assert r[k] == init[k];
      }
    }
    SnocInTeam(m, e, x.team);
  }

  /** Appending a result keeps the two orders when it follows its team and closes the block of `t`. */
  lemma SnocInTeam(m: seq<Result>, e: Result, t: string)
    requires InTeamOrder(m) && ClosesBlock(m, t)
    requires forall i | 0 <= i < |m| && m[i].team == e.team :: m[i].position <= e.position
    requires forall i | 0 <= i < |m| && m[i].team == t && e.team != t :: m[i].teamPosition < e.teamPosition
    ensures InTeamOrder(m + [e]) && ClosesBlock(m + [e], t)
  {
  }

  /**
   * A result of the inserted sequence is the inserted one (`k == |r|`) or
   * the `k`-th of the sequence inserted into.
   */
  lemma InsertedFrom(x: Result, r: seq<Result>, i: nat) returns (k: nat)
    requires i < |Ranking.Insert(x, r, ByPosition(true))|
    ensures k <= |r|
    ensures k == |r| ==> Ranking.Insert(x, r, ByPosition(true))[i] == x
    ensures k < |r| ==> Ranking.Insert(x, r, ByPosition(true))[i] == r[k]
  {
    var y := Ranking.Insert(x, r, ByPosition(true))[i];
    assert y in multiset(Ranking.Insert(x, r, ByPosition(true)));
    if y == x {
      k := |r|;
    } else {
      assert y in multiset(r);
      k :| 0 <= k < |r| && r[k] == y;
    }
  }

  /**
   * In team mode the sort lists each team by position, as the comparator
   * says, whenever each team's results come next to each other and share
   * one team position; the last team inserted closes its team position.
   */
  lemma {:induction false} SortInTeam(results: seq<Result>)
    requires TeamsContiguous(results) && TeamsPlaced(results)
    ensures InTeamOrder(Ranking.Sort(results, ByPosition(true)))
    ensures results != [] ==> ClosesBlock(Ranking.Sort(results, ByPosition(true)), results[|results| - 1].team)
  {
    if results == [] {
      return;
    }
    var init, x := results[..|results| - 1], results[|results| - 1];
    PrefixContiguous(results);
    SortInTeam(init);
    var r := Ranking.Sort(init, ByPosition(true));
    assert Ranking.Sort(results, ByPosition(true)) == Ranking.Insert(x, r, ByPosition(true));
    ByPositionOrders();
    Ranking.SortSortedBy(init, ByPosition(true), TeamPositionOrder());
    SortedWithin(init);
    if init == [] || init[|init| - 1].team != x.team {
      NewTeamCloses(results);
    }
    InsertInTeam(x, r);
  }

  /** The premises of `SortInTeam` hold for the prefix, whose results are all results, and the last one shares its team's position. */
  lemma PrefixContiguous(results: seq<Result>)
    requires results != [] && TeamsContiguous(results) && TeamsPlaced(results)
    ensures var init, x := results[..|results| - 1], results[|results| - 1];
      TeamsContiguous(init) && TeamsPlaced(init)
      && forall y | y in init && y.team == x.team :: y.teamPosition == x.teamPosition
  {
    var init, x := results[..|results| - 1], results[|results| - 1];
    assert results == init + [x];
    forall y | y in init
      ensures y in results
    {
    }
  }

  /** The sorted results are results of the input. */
  lemma SortedWithin(s: seq<Result>)
    ensures forall y | y in Ranking.Sort(s, ByPosition(true)) :: y in s
  {
    forall y | y in Ranking.Sort(s, ByPosition(true))
      ensures y in s
    {
      assert y in multiset(Ranking.Sort(s, ByPosition(true)));
    }
  }

  /** When the last result starts a team, no earlier result, sorted or not, is of that team. */
  lemma NewTeamCloses(results: seq<Result>)
    requires results != [] && TeamsContiguous(results)
    requires var init := results[..|results| - 1];
      init == [] || init[|init| - 1].team != results[|results| - 1].team
    ensures var init := results[..|results| - 1];
      ClosesBlock(Ranking.Sort(init, ByPosition(true)), results[|results| - 1].team)
  {
    var init, x := results[..|results| - 1], results[|results| - 1];
    forall k | 0 <= k < |init|
      ensures init[k].team != x.team
    {
      if k < |init| - 1 {
        assert results[k] == init[k] && results[|init| - 1] == init[|init| - 1];
      }
    }
    SortedWithin(init);
    var r := Ranking.Sort(init, ByPosition(true));
    forall i | 0 <= i < |r|
      ensures r[i].team != x.team
    {
      assert r[i] in init;
    }
  }

  /** No two teams share a name. */
  predicate DistinctTeamNames(teams: seq<Team>)
  {
    forall a, c | 0 <= a < c < |teams| :: teams[a].name != teams[c].name
  }

  /** The index of the first team with the name, `|teams|` when there is none. */
  function TeamAt(teams: seq<Team>, name: string): (a: nat)
    ensures a <= |teams| && (a < |teams| ==> teams[a].name == name)
    ensures forall c | 0 <= c < a :: teams[c].name != name
  {
    if teams == [] then 0
    else if teams[0].name == name then 0
    else
      var a := TeamAt(teams[1..], name);
      assert forall c | 1 <= c < a + 1 :: teams[c] == teams[1..][c - 1];
      a + 1
  }

  /** The entry of each seat is a result for its player, with the team's name and position. */
  ghost predicate SeatedResults(teams: seq<Team>, entry: (nat, nat) -> Option<Result>)
  {
    forall a: nat, b: nat | entry(a, b).Some? ::
      a < |teams| && b < |teams[a].players| && entry(a, b).value.name == teams[a].players[b].name
      && entry(a, b).value.team == teams[a].name && entry(a, b).value.teamPosition == teams[a].position
  }

  /**
   * The results come team by team in the order of `teams`, none from a
   * team after `i`, each with its team's position.
   */
  ghost predicate TeamOrdered(teams: seq<Team>, rs: seq<Result>, i: nat)
  {
    (forall k | 0 <= k < |rs| ::
      TeamAt(teams, rs[k].team) <= i && TeamAt(teams, rs[k].team) < |teams|
      && rs[k].teamPosition == teams[TeamAt(teams, rs[k].team)].position)
    && forall k1, k2 | 0 <= k1 < k2 < |rs| :: TeamAt(teams, rs[k1].team) <= TeamAt(teams, rs[k2].team)
  }

  /**
   * With distinct players, the walk over the seats appends each entry, so
   * with distinct team names the results come team by team.
   */
  lemma {:induction false} FoldTeamOrdered(teams: seq<Team>, entry: (nat, nat) -> Option<Result>, i: nat, j: nat)
    requires Stop(teams, i, j) && DistinctSeats(teams) && DistinctTeamNames(teams) && SeatedResults(teams, entry)
    ensures TeamOrdered(teams, SeatFold(teams, entry, NameOf, i, j), i)
    decreases i, j
  {
    if j > 0 {
      FoldTeamOrdered(teams, entry, i, j - 1);
      if entry(i, j - 1).Some? {
        var x := entry(i, j - 1).value;
        FoldAppends(teams, entry, i, j);
        TeamAtSeat(teams, i, x.team);
        SnocOrdered(teams, SeatFold(teams, entry, NameOf, i, j - 1), x, i);
      }
    } else if i > 0 {
      var prev := SeatFold(teams, entry, NameOf, i - 1, |teams[i - 1].players|);
      FoldTeamOrdered(teams, entry, i - 1, |teams[i - 1].players|);
      assert SeatFold(teams, entry, NameOf, i, j) == prev;
      WidenOrdered(teams, prev, i - 1);
    }
  }

  /** With distinct team names, a team's name leads back to it. */
  lemma TeamAtSeat(teams: seq<Team>, a: nat, name: string)
    requires DistinctTeamNames(teams) && a < |teams| && teams[a].name == name
    ensures TeamAt(teams, name) == a
  {
  }

  /** A result of team `i` can follow results that come no later than team `i`. */
  lemma SnocOrdered(teams: seq<Team>, rs: seq<Result>, x: Result, i: nat)
    requires TeamOrdered(teams, rs, i) && i < |teams| && TeamAt(teams, x.team) == i && x.teamPosition == teams[i].position
    ensures TeamOrdered(teams, rs + [x], i)
  {
  }

  /** Results that come no later than team `i` come no later than team `i + 1`. */
  lemma WidenOrdered(teams: seq<Team>, rs: seq<Result>, i: nat)
    requires TeamOrdered(teams, rs, i)
    ensures TeamOrdered(teams, rs, i + 1)
  {
  }

  /** With distinct players, the entry of the seat before the stop is a new key, so it is appended. */
  lemma FoldAppends(teams: seq<Team>, entry: (nat, nat) -> Option<Result>, i: nat, j: nat)
    requires Stop(teams, i, j) && j > 0 && DistinctSeats(teams) && SeatedResults(teams, entry) && entry(i, j - 1).Some?
    ensures SeatFold(teams, entry, NameOf, i, j) == SeatFold(teams, entry, NameOf, i, j - 1) + [entry(i, j - 1).value]
  {
    var prev := SeatFold(teams, entry, NameOf, i, j - 1);
    var x := entry(i, j - 1).value;
    FoldFromSeats(teams, entry, NameOf, i, j - 1);
    forall k | 0 <= k < |prev|
      ensures NameOf(prev[k]) != NameOf(x)
    {
      assert prev[k] in prev;
      var a: nat, b: nat :| Before(teams, a, b, i, j - 1) && entry(a, b) == Some(prev[k]);
    }
    assert Objects.Find(prev, NameOf, NameOf(x)).None?;
  }

  /** Results that come team by team, with distinct team names, meet the premises of `SortInTeam`. */
  lemma OrderedContiguous(teams: seq<Team>, rs: seq<Result>, i: nat)
    requires DistinctTeamNames(teams) && TeamOrdered(teams, rs, i)
    ensures TeamsContiguous(rs) && TeamsPlaced(rs)
  {
    forall x, y | x in rs && y in rs && x.team == y.team
      ensures x.teamPosition == y.teamPosition
    {
      var k1 :| 0 <= k1 < |rs| && rs[k1] == x;
      var k2 :| 0 <= k2 < |rs| && rs[k2] == y;
    }
  }

  // ---------------------------------------------------------------
  // The calculation
  // ---------------------------------------------------------------

  /** `_getRatingSystem`: the scheme named by the settings; None for an unknown one. */
  function SchemeOf(name: string): (r: Option<Scheme>)
    ensures r == Some(Elo) <==> name == Lobby.SchemeElo
    ensures r == Some(Mmr) <==> name == Lobby.SchemeMmr
  {
    if name == Lobby.SchemeElo then Some(Elo)
    else if name == Lobby.SchemeMmr then Some(Mmr)
    else None
  }

  /** Everything the rating system needs to rate each player of the match. */
  ghost predicate Rated(s: Setup)
  {
    (s.scheme == Elo ==> PowersOfTen(s.maths))
    && forall p | p in AllPlayers(s.teams) :: HasOpponents(s, p.name)
  }

  lemma ValidRated(s: Setup)
    requires SetupValid(s) && (s.scheme == Elo ==> PowersOfTen(s.maths))
    ensures Rated(s)
  {
    forall p | p in AllPlayers(s.teams) ensures HasOpponents(s, p.name) {
      ValidHasOpponents(s, p);
    }
  }

  /** What `player` collects against the first `n` players of the team `ot`. */
  function AgainstTeam(s: Setup, player: Player, pt: Team, ot: Team, n: nat): real
    requires n <= |ot.players|
    requires s.scheme == Elo ==> PowersOfTen(s.maths) && HasOpponents(s, player.name)
  {
    if n == 0 then 0.0
    else AgainstTeam(s, player, pt, ot, n - 1) + PairPoints(s, player, pt, ot.players[n - 1], ot)
  }

  /** What `player` collects against the first `m` teams, skipping every team named like its own. */
  function Against(s: Setup, player: Player, pt: Team, m: nat): real
    requires m <= |s.teams|
    requires s.scheme == Elo ==> PowersOfTen(s.maths) && HasOpponents(s, player.name)
  {
    if m == 0 then 0.0
    else
      var ot := s.teams[m - 1];
      Against(s, player, pt, m - 1) + (if ot.name == pt.name then 0.0 else AgainstTeam(s, player, pt, ot, |ot.players|))
  }

  /** `getRatingDelta` for the `j`-th player of the `i`-th team. */
  function PlayerDelta(s: Setup, i: nat, j: nat): real
    requires Rated(s) && i < |s.teams| && j < |s.teams[i].players|
  {
    var p := s.teams[i].players[j];
    TeamRanking.InAllPlayers(s.teams, i, j);
    AdjustedPoints(s, p, Against(s, p, s.teams[i], |s.teams|))
  }

  predicate Covers<T>(d: map<string, T>, teams: seq<Team>)
  {
    forall a, b | 0 <= a < |teams| && 0 <= b < |teams[a].players| :: teams[a].players[b].name in d
  }

  /** The delta of the player at the seat `(a, b)`. */
  ghost function DeltaAt(s: Setup): (nat, nat) -> real
    requires Rated(s)
  {
    (a: nat, b: nat) => if a < |s.teams| && b < |s.teams[a].players| then PlayerDelta(s, a, b) else 0.0
  }

  /** The `deltas` object once the players before the stop `(i, j)` have been rated. */
  ghost function Deltas(s: Setup, i: nat, j: nat): (d: map<string, real>)
    requires Rated(s) && Stop(s.teams, i, j)
  {
    SeatMap(s.teams, DeltaAt(s), i, j)
  }

  /** Every player rated before the stop has a delta. */
  lemma DeltasCover(s: Setup, i: nat, j: nat)
    requires Rated(s) && Stop(s.teams, i, j)
    ensures CoversUpTo(Deltas(s, i, j), s.teams, i, j)
  {
  }

  /** The sum of the deltas of the first `n` players of `t`. */
  function TeamTotal(d: map<string, real>, t: Team, n: nat): real
    requires n <= |t.players| && forall k | 0 <= k < |t.players| :: t.players[k].name in d
  {
    if n == 0 then 0.0 else TeamTotal(d, t, n - 1) + d[t.players[n - 1].name]
  }

  /** `deltas[player.name] = v` for the first `n` players of `t`. */
  function Assign(d: map<string, real>, t: Team, n: nat, v: real): (r: map<string, real>)
    requires n <= |t.players| && forall k | 0 <= k < |t.players| :: t.players[k].name in d
    ensures r.Keys == d.Keys
  {
    if n == 0 then d else Assign(d, t, n - 1, v)[t.players[n - 1].name := v]
  }

  /** The deltas once the first `m` teams have taken their average (an empty team changes nothing). */
  function Averaged(d: map<string, real>, teams: seq<Team>, m: nat): (r: map<string, real>)
    requires m <= |teams| && Covers(d, teams)
    ensures r.Keys == d.Keys
  {
    if m == 0 then d
    else
      var prev := Averaged(d, teams, m - 1);
      var t := teams[m - 1];
      assert forall k | 0 <= k < |t.players| :: t.players[k].name in prev;
      if t.players == [] then prev
      else Assign(prev, t, |t.players|, TeamTotal(prev, t, |t.players|) / |t.players| as real)
  }

  /** The deltas the results are made from: averaged per team in team mode when the board asks for it. */
  ghost function FinalDeltas(s: Setup): (d: map<string, real>)
    requires Rated(s)
    ensures Covers(d, s.teams)
  {
    var d := Deltas(s, |s.teams|, 0);
    DeltasCover(s, |s.teams|, 0);
    assert forall a, b | 0 <= a < |s.teams| && 0 <= b < |s.teams[a].players| :: Before(s.teams, a, b, |s.teams|, 0);
    if TeamMode(s) && s.settings.ratingAverageByTeam then Averaged(d, s.teams, |s.teams|) else d
  }

  /** The board rating plus the delta, raised to the board's minimum rating. */
  function FinalRating(settings: Settings, p: Player, delta: real): real
  {
    var f := RatingOf(p) + delta;
    if f < settings.ratingMin then settings.ratingMin else f
  }

  /** A player's entry in `results`, rankings left for the board update to set. */
  function MakeResult(settings: Settings, tiers: seq<Tier>, t: Team, p: Player, delta: real): Result
    requires tiers != []
  {
    var finalRating := FinalRating(settings, p, delta);
    Result(p.name, t.name, None, None, RatingOf(p), delta, finalRating, t.position, p.inTeamPosition, p.position,
           TierOf(tiers, RatingOf(p)).value.name, TierOf(tiers, finalRating).value.name)
  }

  /** What the results loops set for the seat `(a, b)`: the player's result, made from their delta. */
  function MadeAt(settings: Settings, teams: seq<Team>, tiers: seq<Tier>, d: map<string, real>): (nat, nat) -> Option<Result>
  {
    (a: nat, b: nat) =>
      if tiers != [] && a < |teams| && b < |teams[a].players| && teams[a].players[b].name in d then
        Some(MakeResult(settings, tiers, teams[a], teams[a].players[b], d[teams[a].players[b].name]))
      else None
  }

  /** The `results` object once the players before the stop `(i, j)` have been entered. */
  function ResultsUpTo(settings: Settings, teams: seq<Team>, tiers: seq<Tier>, d: map<string, real>, i: nat, j: nat): seq<Result>
    requires tiers != [] && Covers(d, teams) && Stop(teams, i, j)
  {
    SeatFold(teams, MadeAt(settings, teams, tiers, d), NameOf, i, j)
  }

  lemma ResultsStep(settings: Settings, teams: seq<Team>, tiers: seq<Tier>, d: map<string, real>, i: nat, j: nat)
    requires tiers != [] && Covers(d, teams) && i < |teams| && j < |teams[i].players|
    ensures ResultsUpTo(settings, teams, tiers, d, i, j + 1)
      == Objects.Put(ResultsUpTo(settings, teams, tiers, d, i, j), MakeResult(settings, tiers, teams[i], teams[i].players[j], d[teams[i].players[j].name]), NameOf)
  {
  }

  /**
   * What `calculate` returns: None where the scheme is unknown, the
   * rating system is not valid, or there is no tier to name (the source
   * throws and catches); otherwise the results sorted by position.
   */
  ghost function CalculateSpec(settings: Settings, teams: seq<Team>, lobbyType: string, maths: Maths, tiers: seq<Tier>): Option<seq<Result>>
    requires settings.scheme == Lobby.SchemeElo ==> PowersOfTen(maths)
  {
    match SchemeOf(settings.scheme)
    case None => None
    case Some(scheme) =>
      var s := Setup(scheme, teams, lobbyType, settings, maths);
      if !SetupValid(s) || tiers == [] then None
      else
        ValidRated(s);
        Some(Ranking.Sort(ResultsUpTo(settings, teams, tiers, FinalDeltas(s), |teams|, 0), ByPosition(TeamMode(s))))
  }

  /** `getRatingDelta` for the `j`-th player of the `i`-th team. */
  method RatingDelta(rs: RatingSystem, i: nat, j: nat) returns (delta: real)
    requires rs.Valid() && Rated(rs.Config())
    requires i < |rs.teams| && j < |rs.teams[i].players|
    modifies rs
    ensures delta == PlayerDelta(rs.Config(), i, j)
  {
    ghost var s := rs.Config();
    var playerTeam := rs.teams[i];
    var player := playerTeam.players[j];
    TeamRanking.InAllPlayers(s.teams, i, j);
    delta := PointsAgainstAll(rs, s, player, playerTeam);
    delta := rs.Adjust(player, delta);
  }

  /** The outer loop of `getRatingDelta`: what `player` collects against every other team. */
  method PointsAgainstAll(rs: RatingSystem, ghost s: Setup, player: Player, playerTeam: Team) returns (delta: real)
    requires rs.Valid() && rs.Config() == s
    requires s.scheme == Elo ==> PowersOfTen(s.maths) && HasOpponents(s, player.name)
    modifies rs
    ensures delta == Against(s, player, playerTeam, |s.teams|)
  {
    delta := 0.0;
    var m := 0;
    while m < |rs.teams|
      invariant m <= |rs.teams|
      invariant delta == Against(s, player, playerTeam, m)
    {
      var opponentTeam := rs.teams[m];
      if playerTeam.name != opponentTeam.name {
        var points := PointsAgainstTeam(rs, s, player, playerTeam, opponentTeam);
        delta := delta + points;
      }
      m := m + 1;
    }
  }

  /** The inner loop of `getRatingDelta`: what `player` collects against each player of `opponentTeam`. */
  method PointsAgainstTeam(rs: RatingSystem, ghost s: Setup, player: Player, playerTeam: Team, opponentTeam: Team)
    returns (points: real)
    requires rs.Valid() && rs.Config() == s
    requires s.scheme == Elo ==> PowersOfTen(s.maths) && HasOpponents(s, player.name)
    modifies rs
    ensures points == AgainstTeam(s, player, playerTeam, opponentTeam, |opponentTeam.players|)
  {
    points := 0.0;
    var n := 0;
    while n < |opponentTeam.players|
      invariant n <= |opponentTeam.players|
      invariant points == AgainstTeam(s, player, playerTeam, opponentTeam, n)
    {
      var pair := rs.Calculate(player, playerTeam, opponentTeam.players[n], opponentTeam);
      points := points + pair;
      n := n + 1;
    }
  }

  /** The team averaging loop of `calculate`. */
  method AverageByTeam(deltas: map<string, real>, teams: seq<Team>) returns (r: map<string, real>)
    requires Covers(deltas, teams)
    ensures r == Averaged(deltas, teams, |teams|)
  {
    r := deltas;
    var m := 0;
    while m < |teams|
      invariant m <= |teams| && r == Averaged(deltas, teams, m)
    {
      var t := teams[m];
      assert forall k | 0 <= k < |t.players| :: t.players[k].name in r;
      var teamDelta := 0.0;
      var k := 0;
      while k < |t.players|
        invariant k <= |t.players| && teamDelta == TeamTotal(r, t, k)
      {
        teamDelta := teamDelta + r[t.players[k].name];
        k := k + 1;
      }
      // an empty team's average is 0 / 0, which is assigned to nobody
      if |t.players| > 0 {
        teamDelta := teamDelta / |t.players| as real;
        ghost var before := r;
        k := 0;
        while k < |t.players|
          invariant k <= |t.players| && r == Assign(before, t, k, teamDelta)
        {
          r := r[t.players[k].name := teamDelta];
          k := k + 1;
        }
      }
      m := m + 1;
    }
  }

  /** A match with players has a team with players. */
  lemma SomeSeat(teams: seq<Team>)
    requires |AllPlayers(teams)| >= 1
    ensures exists a :: 0 <= a < |teams| && teams[a].players != []
  {
    AllPlayersCount(teams);
    PlayersMeanNonEmpty(teams);
    SomeNonEmpty(teams);
  }

  /** One more player rated: their name set to their delta. */
  lemma DeltasStep(s: Setup, i: nat, j: nat)
    requires Rated(s) && i < |s.teams| && j < |s.teams[i].players|
    ensures Deltas(s, i, j + 1) == Deltas(s, i, j)[s.teams[i].players[j].name := PlayerDelta(s, i, j)]
    ensures j + 1 == |s.teams[i].players| ==> Deltas(s, i + 1, 0) == Deltas(s, i, j + 1)
  {
    SeatMapStep(s.teams, DeltaAt(s), i, j);
    assert DeltaAt(s)(i, j) == PlayerDelta(s, i, j);
  }

  /** The inner loop of `calculate` over the players of team `i`. */
  method TeamDeltas(rs: RatingSystem, i: nat, ghost s: Setup, before: map<string, real>) returns (deltas: map<string, real>)
    requires rs.Valid() && rs.Config() == s && Rated(s)
    requires i < |s.teams| && before == Deltas(s, i, 0)
    modifies rs
    ensures deltas == Deltas(s, i + 1, 0)
  {
    deltas := before;
    var players := rs.teams[i].players;
    if players == [] {
      assert Deltas(s, i + 1, 0) == Deltas(s, i, 0);
      return;
    }
    var j := 0;
    while j < |players|
      invariant j <= |players| && deltas == Deltas(s, i, j)
    {
      var delta := RatingDelta(rs, i, j);
      DeltasStep(s, i, j);
      deltas := deltas[players[j].name := delta];
      j := j + 1;
    }
  }

  /** The rating loops of `calculate`: every player's delta, by name. */
  method AllDeltas(rs: RatingSystem) returns (deltas: map<string, real>)
    requires rs.Valid() && Rated(rs.Config())
    modifies rs
    ensures deltas == Deltas(rs.Config(), |rs.teams|, 0)
  {
    ghost var s := rs.Config();
    deltas := map[];
    var i := 0;
    while i < |rs.teams|
      invariant i <= |rs.teams| && deltas == Deltas(s, i, 0)
    {
      deltas := TeamDeltas(rs, i, s, deltas);
      i := i + 1;
    }
  }

  /** One step of the results loops of `calculate`: the result of the `j`-th player of the `i`-th team, None where naming a tier throws. */
  method EnterResult(settings: Settings, teams: seq<Team>, tiers: seq<Tier>, deltas: map<string, real>, i: nat, j: nat)
    returns (result: Option<Result>)
    requires Covers(deltas, teams) && i < |teams| && j < |teams[i].players|
    ensures result == if tiers == [] then None else Some(MakeResult(settings, tiers, teams[i], teams[i].players[j], deltas[teams[i].players[j].name]))
  {
    var player := teams[i].players[j];
    var delta := deltas[player.name];
    var finalRating := RatingOf(player) + delta;
    if finalRating < settings.ratingMin {
      finalRating := settings.ratingMin;
    }
    var originalTier := TierByRating(tiers, RatingOf(player));
    var finalTier := TierByRating(tiers, finalRating);
    if originalTier.None? || finalTier.None? {
      return None;
    }
    result := Some(Result(player.name, teams[i].name, None, None, RatingOf(player), delta, finalRating,
                          teams[i].position, player.inTeamPosition, player.position,
                          originalTier.value.name, finalTier.value.name));
  }

  /** The inner results loop of `calculate` over the players of team `i`. */
  method EnterTeam(settings: Settings, teams: seq<Team>, tiers: seq<Tier>, deltas: map<string, real>, i: nat,
                   results: seq<Result>) returns (r: Option<seq<Result>>)
    requires Covers(deltas, teams) && i < |teams|
    requires tiers != [] ==> results == ResultsUpTo(settings, teams, tiers, deltas, i, 0)
    ensures r == if tiers != [] then Some(ResultsUpTo(settings, teams, tiers, deltas, i + 1, 0))
                 else if teams[i].players == [] then Some(results) else None
  {
    var entries := results;
    var j := 0;
    while j < |teams[i].players|
      invariant j <= |teams[i].players|
      invariant tiers != [] ==> entries == ResultsUpTo(settings, teams, tiers, deltas, i, j)
      invariant tiers == [] ==> j == 0 && entries == results
    {
      var entered := EnterResult(settings, teams, tiers, deltas, i, j);
      if entered.None? {
        return None;
      }
      ResultsStep(settings, teams, tiers, deltas, i, j);
      entries := Objects.Put(entries, entered.value, NameOf);
      j := j + 1;
    }
    if tiers != [] {
      assert ResultsUpTo(settings, teams, tiers, deltas, i + 1, 0) == ResultsUpTo(settings, teams, tiers, deltas, i, j);
    }
    r := Some(entries);
  }

  /**
   * The results loops of `calculate`. With no tier at all, naming the
   * first player's tier throws, which `calculate` turns into null.
   */
  method CollectResults(settings: Settings, teams: seq<Team>, tiers: seq<Tier>, deltas: map<string, real>)
    returns (r: Option<seq<Result>>)
    requires Covers(deltas, teams) && |AllPlayers(teams)| >= 1
    ensures r == if tiers == [] then None else Some(ResultsUpTo(settings, teams, tiers, deltas, |teams|, 0))
  {
    var results: seq<Result> := [];
    var i := 0;
    while i < |teams|
      invariant i <= |teams|
      invariant tiers != [] ==> results == ResultsUpTo(settings, teams, tiers, deltas, i, 0)
      invariant tiers == [] ==> forall a | 0 <= a < i :: teams[a].players == []
    {
      var entered := EnterTeam(settings, teams, tiers, deltas, i, results);
      if entered.None? {
        return None;
      }
      results := entered.value;
      i := i + 1;
    }
    SomeSeat(teams);
    assert tiers != [];
    r := Some(results);
  }

  /** `calculate`. */
  method Calculate(settings: Settings, teams: seq<Team>, lobbyType: string, maths: Maths, tiers: seq<Tier>)
    returns (r: Option<seq<Result>>)
    requires settings.scheme == Lobby.SchemeElo ==> PowersOfTen(maths)
    ensures r == CalculateSpec(settings, teams, lobbyType, maths, tiers)
  {
    var scheme := SchemeOf(settings.scheme);
    if scheme.None? {
      // `_getRatingSystem` returns null and `isValid` throws, which `calculate` catches
      return None;
    }
    var ratingSystem := new RatingSystem(Setup(scheme.value, teams, lobbyType, settings, maths));
    if !ratingSystem.IsValid() {
      return None;
    }
    ghost var s := ratingSystem.Config();
    ValidRated(s);
    var deltas := AllDeltas(ratingSystem);
    var isTeamMode := Lobby.IsTeamMode(lobbyType);
    assert forall a, b | 0 <= a < |teams| && 0 <= b < |teams[a].players| :: Before(teams, a, b, |teams|, 0);
    if isTeamMode && settings.ratingAverageByTeam {
      deltas := AverageByTeam(deltas, teams);
    }
    assert deltas == FinalDeltas(s);
    var results := CollectResults(settings, teams, tiers, deltas);
    if results.None? {
      return None;
    }
    r := Some(Ranking.Sort(results.value, ByPosition(isTeamMode)));
  }

  // ---------------------------------------------------------------
  // What the calculation promises
  // ---------------------------------------------------------------

  /**
   * `calculate` returns null exactly when the scheme is unknown, there is
   * no tier, the match has too few players (outside team mode) or too few
   * teams with players (in team mode), or the settings lack a parameter
   * the scheme reads for the lobby type.
   */
  lemma CalculateFails(settings: Settings, teams: seq<Team>, lobbyType: string, maths: Maths, tiers: seq<Tier>)
    requires settings.scheme == Lobby.SchemeElo ==> PowersOfTen(maths)
    ensures CalculateSpec(settings, teams, lobbyType, maths, tiers).None? <==>
      SchemeOf(settings.scheme).None? || tiers == []
      || (if Lobby.IsTeamMode(lobbyType) then NonEmptyTeams(teams) < 2 else |AllPlayers(teams)| < 2)
      || ScalingFactor(SchemeOf(settings.scheme).value, lobbyType, settings).None?
      || (settings.scheme == Lobby.SchemeMmr && Baseline(Mmr, lobbyType, settings).None?)
  {
    SoloValid(teams);
    TeamValid(teams);
  }

  /** The final rating is the original rating plus the delta, raised to the minimum. */
  predicate Floored(r: Result, ratingMin: real)
  {
    r.finalRating == Max(r.originalRating + r.delta, ratingMin)
  }

  lemma MadeResult(settings: Settings, tiers: seq<Tier>, t: Team, p: Player, delta: real)
    requires tiers != []
    ensures var r := MakeResult(settings, tiers, t, p, delta);
      r.name == p.name && r.team == t.name && r.originalRating == RatingOf(p) && r.delta == delta
      && Floored(r, settings.ratingMin)
  {
  }

  /** Some result carries the name. */
  ghost predicate Named(rs: seq<Result>, name: string)
  {
    exists k :: 0 <= k < |rs| && rs[k].name == name
  }

  /** The sorted results are a permutation of the `results` object's values. */
  lemma SortedMembers(rs: seq<Result>, teamMode: bool, k: nat)
    requires k < |Ranking.Sort(rs, ByPosition(teamMode))|
    ensures Ranking.Sort(rs, ByPosition(teamMode))[k] in rs
  {
    var sorted := Ranking.Sort(rs, ByPosition(teamMode));
    assert sorted[k] in multiset(rs) by { assert sorted[k] in multiset(sorted); }
  }

  /** Every sorted result is made for a player of the match, with its rating floored at the minimum. */
  lemma SortedResultsMade(settings: Settings, teams: seq<Team>, tiers: seq<Tier>, d: map<string, real>, teamMode: bool)
    requires tiers != [] && Covers(d, teams)
    ensures var rs := Ranking.Sort(ResultsUpTo(settings, teams, tiers, d, |teams|, 0), ByPosition(teamMode));
      (forall k | 0 <= k < |rs| :: InMatch(teams, rs[k].name))
      && (forall k | 0 <= k < |rs| :: Floored(rs[k], settings.ratingMin))
  {
    var unsorted := ResultsUpTo(settings, teams, tiers, d, |teams|, 0);
    var rs := Ranking.Sort(unsorted, ByPosition(teamMode));
    forall k | 0 <= k < |rs|
      ensures InMatch(teams, rs[k].name) && Floored(rs[k], settings.ratingMin)
    {
      SortedResultsMadeAt(settings, teams, tiers, d, teamMode, k);
      var a: nat, b: nat :| Before(teams, a, b, |teams|, 0) &&
        rs[k] == MakeResult(settings, tiers, teams[a], teams[a].players[b], d[teams[a].players[b].name]);
      MadeResult(settings, tiers, teams[a], teams[a].players[b], d[teams[a].players[b].name]);
      assert rs[k].name == teams[a].players[b].name;
    }
  }

  /** The sorted results hold one result per name, and one for every player of the match. */
  lemma SortedResultsNamed(settings: Settings, teams: seq<Team>, tiers: seq<Tier>, d: map<string, real>, teamMode: bool)
    requires tiers != [] && Covers(d, teams)
    ensures var rs := Ranking.Sort(ResultsUpTo(settings, teams, tiers, d, |teams|, 0), ByPosition(teamMode));
      Objects.DistinctKeys(rs, NameOf)
      && forall a, b | 0 <= a < |teams| && 0 <= b < |teams[a].players| :: Named(rs, teams[a].players[b].name)
  {
    var unsorted := ResultsUpTo(settings, teams, tiers, d, |teams|, 0);
    var rs := Ranking.Sort(unsorted, ByPosition(teamMode));
    FoldDistinct(teams, MadeAt(settings, teams, tiers, d), NameOf, |teams|, 0);
    Objects.SortDistinct(unsorted, ByPosition(teamMode), NameOf);
    forall a, b | 0 <= a < |teams| && 0 <= b < |teams[a].players| ensures Named(rs, teams[a].players[b].name) {
      assert Before(teams, a, b, |teams|, 0);
      FoldKeyed(teams, MadeAt(settings, teams, tiers, d), NameOf, |teams|, 0, a, b);
      var k :| 0 <= k < |unsorted| && unsorted[k].name == teams[a].players[b].name;
      assert unsorted[k] in multiset(rs) by { assert unsorted[k] in multiset(unsorted); }
      var k' :| 0 <= k' < |rs| && rs[k'] == unsorted[k];
    }
  }

  /**
   * One result per player name, every player of the match has one, and
   * every result is made for a player of the match, with its final rating
   * the board rating plus the delta, raised to the board's minimum.
   */
  lemma CalculateResults(settings: Settings, teams: seq<Team>, lobbyType: string, maths: Maths, tiers: seq<Tier>)
    requires settings.scheme == Lobby.SchemeElo ==> PowersOfTen(maths)
    requires CalculateSpec(settings, teams, lobbyType, maths, tiers).Some?
    ensures var rs := CalculateSpec(settings, teams, lobbyType, maths, tiers).value;
      Objects.DistinctKeys(rs, NameOf)
      && (forall a, b | 0 <= a < |teams| && 0 <= b < |teams[a].players| :: Named(rs, teams[a].players[b].name))
      && (forall k | 0 <= k < |rs| :: InMatch(teams, rs[k].name))
      && (forall k | 0 <= k < |rs| :: Floored(rs[k], settings.ratingMin))
  {
    var s := Setup(SchemeOf(settings.scheme).value, teams, lobbyType, settings, maths);
    ValidRated(s);
    var rs := Ranking.Sort(ResultsUpTo(settings, teams, tiers, FinalDeltas(s), |teams|, 0), ByPosition(TeamMode(s)));
    assert CalculateSpec(settings, teams, lobbyType, maths, tiers) == Some(rs);
    SortedResultsMade(settings, teams, tiers, FinalDeltas(s), TeamMode(s));
    SortedResultsNamed(settings, teams, tiers, FinalDeltas(s), TeamMode(s));
  }

  /**
   * Results are listed by team position and then position. In team mode,
   * where the comparator leaves players of different teams sharing a team
   * position as they are, they are listed by team position, and each team
   * by position when no two teams share a name.
   */
  lemma CalculateOrder(settings: Settings, teams: seq<Team>, lobbyType: string, maths: Maths, tiers: seq<Tier>)
    requires settings.scheme == Lobby.SchemeElo ==> PowersOfTen(maths)
    requires CalculateSpec(settings, teams, lobbyType, maths, tiers).Some?
    ensures var rs := CalculateSpec(settings, teams, lobbyType, maths, tiers).value;
      (!Lobby.IsTeamMode(lobbyType) ==> Ranking.SortedBy(rs, PositionOrder()))
      && (Lobby.IsTeamMode(lobbyType) ==> Ranking.SortedBy(rs, TeamPositionOrder()))
    ensures Lobby.IsTeamMode(lobbyType) && DistinctSeats(teams) && DistinctTeamNames(teams) ==>
      InTeamOrder(CalculateSpec(settings, teams, lobbyType, maths, tiers).value)
  {
    var s := Setup(SchemeOf(settings.scheme).value, teams, lobbyType, settings, maths);
    ValidRated(s);
    var unsorted := ResultsUpTo(settings, teams, tiers, FinalDeltas(s), |teams|, 0);
    if DistinctSeats(teams) && DistinctTeamNames(teams) {
      ResultsTeamOrdered(settings, teams, tiers, FinalDeltas(s));
      OrderedContiguous(teams, unsorted, |teams|);
    }
    SortedByPosition(unsorted, TeamMode(s));
  }

  /** With distinct players and team names, the `results` object lists the results team by team. */
  lemma ResultsTeamOrdered(settings: Settings, teams: seq<Team>, tiers: seq<Tier>, d: map<string, real>)
    requires tiers != [] && Covers(d, teams) && DistinctSeats(teams) && DistinctTeamNames(teams)
    ensures TeamOrdered(teams, ResultsUpTo(settings, teams, tiers, d, |teams|, 0), |teams|)
  {
    assert SeatedResults(teams, MadeAt(settings, teams, tiers, d));
    FoldTeamOrdered(teams, MadeAt(settings, teams, tiers, d), |teams|, 0);
  }

  /** With distinct names, the `deltas` object holds each rated player's own delta. */
  lemma DeltasAt(s: Setup, i: nat, j: nat, a: nat, b: nat)
    requires Rated(s) && Stop(s.teams, i, j) && DistinctSeats(s.teams) && Before(s.teams, a, b, i, j)
    ensures Deltas(s, i, j)[s.teams[a].players[b].name] == PlayerDelta(s, a, b)
  {
    SeatMapAt(s.teams, DeltaAt(s), i, j, a, b);
  }

  /** With distinct names, the result under a player's name is the one made for that player. */
  lemma ResultAt(settings: Settings, teams: seq<Team>, tiers: seq<Tier>, d: map<string, real>, teamMode: bool, a: nat, b: nat)
    requires tiers != [] && Covers(d, teams) && DistinctSeats(teams)
    requires a < |teams| && b < |teams[a].players|
    ensures var rs := Ranking.Sort(ResultsUpTo(settings, teams, tiers, d, |teams|, 0), ByPosition(teamMode));
      exists k :: 0 <= k < |rs| && rs[k] == MakeResult(settings, tiers, teams[a], teams[a].players[b], d[teams[a].players[b].name])
  {
    var unsorted := ResultsUpTo(settings, teams, tiers, d, |teams|, 0);
    var rs := Ranking.Sort(unsorted, ByPosition(teamMode));
    var p := teams[a].players[b];
    SortedResultsNamed(settings, teams, tiers, d, teamMode);
    var k :| 0 <= k < |rs| && rs[k].name == p.name;
    SortedResultsMadeAt(settings, teams, tiers, d, teamMode, k);
  }

  lemma SortedResultsMadeAt(settings: Settings, teams: seq<Team>, tiers: seq<Tier>, d: map<string, real>, teamMode: bool, k: nat)
    requires tiers != [] && Covers(d, teams)
    requires k < |Ranking.Sort(ResultsUpTo(settings, teams, tiers, d, |teams|, 0), ByPosition(teamMode))|
    ensures var rs := Ranking.Sort(ResultsUpTo(settings, teams, tiers, d, |teams|, 0), ByPosition(teamMode));
      exists a: nat, b: nat | Before(teams, a, b, |teams|, 0) ::
        rs[k] == MakeResult(settings, tiers, teams[a], teams[a].players[b], d[teams[a].players[b].name])
  {
    var unsorted := ResultsUpTo(settings, teams, tiers, d, |teams|, 0);
    var rs := Ranking.Sort(unsorted, ByPosition(teamMode));
    FoldFromSeats(teams, MadeAt(settings, teams, tiers, d), NameOf, |teams|, 0);
    SortedMembers(unsorted, teamMode, k);
    var a: nat, b: nat :| Before(teams, a, b, |teams|, 0) && MadeAt(settings, teams, tiers, d)(a, b) == Some(rs[k]);
  }

  lemma {:induction false} AssignSet(d: map<string, real>, t: Team, n: nat, v: real, k: nat)
    requires n <= |t.players| && forall q | 0 <= q < |t.players| :: t.players[q].name in d
    requires k < n
    ensures Assign(d, t, n, v)[t.players[k].name] == v
  {
    if k < n - 1 {
      AssignSet(d, t, n - 1, v, k);
    }
  }

  lemma {:induction false} AssignKeep(d: map<string, real>, t: Team, n: nat, v: real, x: string)
    requires n <= |t.players| && forall q | 0 <= q < |t.players| :: t.players[q].name in d
    requires x in d && forall q | 0 <= q < n :: t.players[q].name != x
    ensures Assign(d, t, n, v)[x] == d[x]
  {
    if n > 0 {
      AssignKeep(d, t, n - 1, v, x);
    }
  }

  lemma {:induction false} TeamTotalSame(d: map<string, real>, e: map<string, real>, t: Team, n: nat)
    requires n <= |t.players|
    requires forall q | 0 <= q < |t.players| :: t.players[q].name in d && t.players[q].name in e && d[t.players[q].name] == e[t.players[q].name]
    ensures TeamTotal(d, t, n) == TeamTotal(e, t, n)
  {
    if n > 0 {
      TeamTotalSame(d, e, t, n - 1);
    }
  }

  /**
   * With distinct names, once the first `m` teams have been averaged each
   * of their players holds the mean of the team's deltas, and every other
   * player still holds their own.
   */
  lemma {:induction false} AveragedAt(d: map<string, real>, teams: seq<Team>, m: nat, a: nat, b: nat)
    requires m <= |teams| && Covers(d, teams) && DistinctSeats(teams)
    requires a < |teams| && b < |teams[a].players|
    ensures Averaged(d, teams, m)[teams[a].players[b].name]
      == if a < m then TeamTotal(d, teams[a], |teams[a].players|) / |teams[a].players| as real else d[teams[a].players[b].name]
  {
    if m > 0 {
      var prev := Averaged(d, teams, m - 1);
      var t := teams[m - 1];
      var x := teams[a].players[b].name;
      if t.players != [] {
        var n := |t.players|;
        if a == m - 1 {
          forall q | 0 <= q < n ensures t.players[q].name in prev && t.players[q].name in d && prev[t.players[q].name] == d[t.players[q].name] {
            AveragedAt(d, teams, m - 1, m - 1, q);
          }
          TeamTotalSame(prev, d, t, n);
          AssignSet(prev, t, n, TeamTotal(prev, t, n) / n as real, b);
        } else {
          assert forall q | 0 <= q < n :: t.players[q].name != x;
          AveragedAt(d, teams, m - 1, a, b);
          AssignKeep(prev, t, n, TeamTotal(prev, t, n) / n as real, x);
        }
      } else {
        AveragedAt(d, teams, m - 1, a, b);
      }
    }
  }

  /** The sum of the first `n` deltas of the players of the `a`-th team, as the rating loops compute them. */
  function RawTotal(s: Setup, a: nat, n: nat): real
    requires Rated(s) && a < |s.teams| && n <= |s.teams[a].players|
  {
    if n == 0 then 0.0 else RawTotal(s, a, n - 1) + PlayerDelta(s, a, n - 1)
  }

  lemma {:induction false} RawTotalOfDeltas(s: Setup, a: nat, n: nat)
    requires Rated(s) && DistinctSeats(s.teams) && a < |s.teams| && n <= |s.teams[a].players|
    requires Covers(Deltas(s, |s.teams|, 0), s.teams)
    ensures TeamTotal(Deltas(s, |s.teams|, 0), s.teams[a], n) == RawTotal(s, a, n)
  {
    if n > 0 {
      RawTotalOfDeltas(s, a, n - 1);
      DeltasAt(s, |s.teams|, 0, a, n - 1);
    }
  }

  /**
   * Without team averaging, and with distinct names, each player's delta
   * is the adjusted sum of their points against every player of every
   * other team.
   */
  lemma OwnDelta(s: Setup, a: nat, b: nat)
    requires Rated(s) && DistinctSeats(s.teams) && !(TeamMode(s) && s.settings.ratingAverageByTeam)
    requires a < |s.teams| && b < |s.teams[a].players|
    ensures FinalDeltas(s)[s.teams[a].players[b].name] == PlayerDelta(s, a, b)
  {
    DeltasAt(s, |s.teams|, 0, a, b);
  }

  /**
   * With team averaging in team mode, and with distinct names, each
   * player of a team gets the mean of the deltas of the team's players.
   */
  lemma TeamAverage(s: Setup, a: nat, b: nat)
    requires Rated(s) && DistinctSeats(s.teams) && TeamMode(s) && s.settings.ratingAverageByTeam
    requires a < |s.teams| && b < |s.teams[a].players|
    ensures FinalDeltas(s)[s.teams[a].players[b].name] == RawTotal(s, a, |s.teams[a].players|) / |s.teams[a].players| as real
  {
    var d := Deltas(s, |s.teams|, 0);
    DeltasCover(s, |s.teams|, 0);
    assert forall a, b | 0 <= a < |s.teams| && 0 <= b < |s.teams[a].players| :: Before(s.teams, a, b, |s.teams|, 0);
    assert FinalDeltas(s) == Averaged(d, s.teams, |s.teams|);
    AveragedAt(d, s.teams, |s.teams|, a, b);
    RawTotalOfDeltas(s, a, |s.teams[a].players|);
  }

  /** Two players alone in a match outside team mode: each has the other as only opponent. */
  lemma DuelRated(s: Setup)
    requires !TeamMode(s) && (s.scheme == Elo ==> PowersOfTen(s.maths))
    requires |s.teams| == 2 && |s.teams[0].players| == 1 && |s.teams[1].players| == 1
    ensures Rated(s)
    ensures forall name :: NbOpponents(s.teams, false, name) == Some(1)
  {
    AllPlayersCount(s.teams);
    assert PlayerCount(s.teams) == PlayerCount(s.teams[..1]) + 1;
  }

  /** In an Elo duel what one player wins the other loses. */
  lemma EloDuel(s: Setup)
    requires s.scheme == Elo && PowersOfTen(s.maths) && !TeamMode(s)
    requires |s.teams| == 2 && |s.teams[0].players| == 1 && |s.teams[1].players| == 1 && s.teams[0].name != s.teams[1].name
    ensures Rated(s) && PlayerDelta(s, 0, 0) + PlayerDelta(s, 1, 0) == 0.0
  {
    DuelRated(s);
    var p, q := s.teams[0].players[0], s.teams[1].players[0];
    assert Against(s, p, s.teams[0], 0) == 0.0;
    assert Against(s, p, s.teams[0], 1) == 0.0;
    assert AgainstTeam(s, p, s.teams[0], s.teams[1], 1) == PairPoints(s, p, s.teams[0], q, s.teams[1]);
    assert Against(s, p, s.teams[0], 2) == PairPoints(s, p, s.teams[0], q, s.teams[1]);
    assert Against(s, q, s.teams[1], 0) == 0.0;
    assert AgainstTeam(s, q, s.teams[1], s.teams[0], 1) == PairPoints(s, q, s.teams[1], p, s.teams[0]);
    assert Against(s, q, s.teams[1], 1) == PairPoints(s, q, s.teams[1], p, s.teams[0]);
    assert Against(s, q, s.teams[1], 2) == PairPoints(s, q, s.teams[1], p, s.teams[0]);
    EloSoloPair(s, p, s.teams[0], q, s.teams[1]);
  }

  /** In an MMR duel that is decisive, or a tie between ratings within the cap, what one player wins the other loses. */
  lemma MmrDuel(s: Setup)
    requires s.scheme == Mmr && Powers(s.maths) && !TeamMode(s)
    requires |s.teams| == 2 && |s.teams[0].players| == 1 && |s.teams[1].players| == 1 && s.teams[0].name != s.teams[1].name
    requires MatchPoints(false, s.teams[0].players[0], s.teams[0]) == MatchPoints(false, s.teams[1].players[0], s.teams[1])
             ==> -9997.0 <= RatingOf(s.teams[0].players[0]) - RatingOf(s.teams[1].players[0]) <= 9997.0
    ensures Rated(s) && PlayerDelta(s, 0, 0) + PlayerDelta(s, 1, 0) == 0.0
  {
    DuelRated(s);
    var p, q := s.teams[0].players[0], s.teams[1].players[0];
    assert Against(s, p, s.teams[0], 0) == 0.0;
    assert Against(s, p, s.teams[0], 1) == 0.0;
    assert AgainstTeam(s, p, s.teams[0], s.teams[1], 1) == PairPoints(s, p, s.teams[0], q, s.teams[1]);
    assert Against(s, p, s.teams[0], 2) == PairPoints(s, p, s.teams[0], q, s.teams[1]);
    assert Against(s, q, s.teams[1], 0) == 0.0;
    assert AgainstTeam(s, q, s.teams[1], s.teams[0], 1) == PairPoints(s, q, s.teams[1], p, s.teams[0]);
    assert Against(s, q, s.teams[1], 1) == PairPoints(s, q, s.teams[1], p, s.teams[0]);
    assert Against(s, q, s.teams[1], 2) == PairPoints(s, q, s.teams[1], p, s.teams[0]);
    MmrPair(s, p, s.teams[0], q, s.teams[1]);
  }

  /** With distinct names, the result of every player carries the delta computed for their seat. */
  lemma CalculateDeltas(settings: Settings, teams: seq<Team>, lobbyType: string, maths: Maths, tiers: seq<Tier>, a: nat, b: nat)
    requires settings.scheme == Lobby.SchemeElo ==> PowersOfTen(maths)
    requires CalculateSpec(settings, teams, lobbyType, maths, tiers).Some? && DistinctSeats(teams)
    requires a < |teams| && b < |teams[a].players|
    ensures var s := Setup(SchemeOf(settings.scheme).value, teams, lobbyType, settings, maths);
      var rs := CalculateSpec(settings, teams, lobbyType, maths, tiers).value;
      Rated(s) && exists k :: 0 <= k < |rs| && rs[k] == MakeResult(settings, tiers, teams[a], teams[a].players[b], FinalDeltas(s)[teams[a].players[b].name])
  {
    var s := Setup(SchemeOf(settings.scheme).value, teams, lobbyType, settings, maths);
    ValidRated(s);
    var rs := Ranking.Sort(ResultsUpTo(settings, teams, tiers, FinalDeltas(s), |teams|, 0), ByPosition(TeamMode(s)));
    assert CalculateSpec(settings, teams, lobbyType, maths, tiers) == Some(rs);
    ResultAt(settings, teams, tiers, FinalDeltas(s), TeamMode(s), a, b);
  }
}
