// The drawing-independent helpers of `Helper`
// (utils/scores_calculation/table/helper.js) that the results table is
// laid out with: the number of races, the lobby's points, shortened
// names, the last place worth marking, the ranking shift symbol, the
// penalty and ranking flags, and the text a rank falls back to when its
// image cannot be loaded.
module TableHelper {
  import opened Wrappers
  import opened Strings
  import opened Records
  import MatchCalculation
  import Ranking

  /** `▲`: up a ranking or a tier. */
  const Up := "\U{25B2}"
  /** `▼`: down a ranking or a tier. */
  const Down := "\U{25BC}"
  /** `–`: no shift, or none known. */
  const Level := "\U{2013}"

  // ---------------------------------------------------------------
  // getMaxNbScores
  // ---------------------------------------------------------------

  /** `Math.max` of two numbers, None standing for `-Infinity`. */
  function Larger(a: Option<nat>, b: Option<nat>): Option<nat>
  {
    if a.None? then b
    else if b.None? then a
    else Some(if a.value > b.value then a.value else b.value)
  }

  /** The most scores any of `players` has; None (`-Infinity`) when there is no player. */
  function MostScores(players: seq<Player>): (r: Option<nat>)
    ensures r.None? <==> players == []
    ensures r.Some? ==> exists j :: 0 <= j < |players| && |players[j].scores| == r.value
    ensures r.Some? ==> forall j :: 0 <= j < |players| ==> |players[j].scores| <= r.value
  {
    if players == [] then None
    else Larger(MostScores(players[..|players| - 1]), Some(|players[|players| - 1].scores|))
  }

  /**
   * `getMaxNbScores(teams)`: the number of races, the most scores any
   * player of any team has; None (`-Infinity`) when no team has a player.
   */
  function MaxNbScores(teams: seq<Team>): (r: Option<nat>)
    ensures r.None? <==> forall i :: 0 <= i < |teams| ==> teams[i].players == []
    ensures r.Some? ==>
      exists i, j :: 0 <= i < |teams| && 0 <= j < |teams[i].players| && |teams[i].players[j].scores| == r.value
    ensures r.Some? ==>
      forall i, j :: 0 <= i < |teams| && 0 <= j < |teams[i].players| ==> |teams[i].players[j].scores| <= r.value
  {
    if teams == [] then None
    else
      var init, last := teams[..|teams| - 1], teams[|teams| - 1];
      var r := Larger(MaxNbScores(init), MostScores(last.players));
      assert forall i :: 0 <= i < |init| ==> init[i] == teams[i];
      r
  }

  // ---------------------------------------------------------------
  // getTotalMatchPoints
  // ---------------------------------------------------------------

  /** `getTotalMatchPoints(teams)`: each team's score less its penalty, added up from the first team. */
  function TotalMatchPoints(teams: seq<Team>): int
  {
    if teams == [] then 0
    else TotalMatchPoints(teams[..|teams| - 1]) + (teams[|teams| - 1].score - teams[|teams| - 1].penalty)
  }

  /** The points of two groups of teams together are the points of each added. */
  lemma {:induction false} TotalMatchPointsConcat(a: seq<Team>, b: seq<Team>)
    ensures TotalMatchPoints(a + b) == TotalMatchPoints(a) + TotalMatchPoints(b)
    decreases |b|
  {
    if b != [] {
      TotalMatchPointsConcat(a, b[..|b| - 1]);
      assert (a + b)[..|a + b| - 1] == a + b[..|b| - 1];
    } else {
      assert a + b == a;
    }
  }

  /** The lobby's points do not depend on the order its teams are listed in. */
  lemma {:induction false} TotalMatchPointsReordered(a: seq<Team>, b: seq<Team>)
    requires multiset(a) == multiset(b)
    ensures TotalMatchPoints(a) == TotalMatchPoints(b)
    decreases |a|
  {
    if a != [] {
      var k := Ranking.PermutationLast(a, b);
      var x, rest := b[k], b[..k] + b[k + 1..];
      TotalMatchPointsReordered(a[..|a| - 1], rest);
      TotalMatchPointsConcat(b[..k] + [x], b[k + 1..]);
      TotalMatchPointsConcat(b[..k], [x]);
      TotalMatchPointsConcat(b[..k], b[k + 1..]);
      assert [x][..0] == [];
    } else {
      assert |multiset(b)| == 0;
    }
  }

  // ---------------------------------------------------------------
  // getName
  // ---------------------------------------------------------------

  const DefaultNameLength := 24

  /** Where `slice(0, end)` stops on a text of `n` characters: a negative end counts back from the end. */
  function SliceEnd(n: nat, end: int): (e: nat)
    ensures e <= n
    ensures 0 <= end <= n ==> e == end
  {
    if end < 0 then (if n + end < 0 then 0 else n + end)
    else if end > n then n
    else end
  }

  /**
   * `getName(name, maxLength)`: a name longer than `maxLength` code
   * points keeps its first `maxLength - 3` and ends in "..."; a shorter
   * one is kept.
   */
  function ShortName(name: string, maxLength: int): (r: string)
  {
    if |name| > maxLength then name[..SliceEnd(|name|, maxLength - 3)] + "..." else name
  }

  /** For any length of at least three, the shortened name fits, and is the name or a prefix of it followed by "...". */
  lemma ShortNameFits(name: string, maxLength: int)
    requires maxLength >= 3
    ensures |ShortName(name, maxLength)| <= maxLength
    ensures var r := ShortName(name, maxLength);
      r == name || (|r| == maxLength && StartsWith(name, r[..maxLength - 3]) && r[maxLength - 3..] == "...")
  {
  }

  /** Shortening a shortened name changes nothing more. */
  lemma ShortNameIdempotent(name: string, maxLength: int)
    requires maxLength >= 3
    ensures ShortName(ShortName(name, maxLength), maxLength) == ShortName(name, maxLength)
  {
    ShortNameFits(name, maxLength);
  }

  // ---------------------------------------------------------------
  // getRank's fallback
  // ---------------------------------------------------------------

  /** The text `getRank` returns when the rank image cannot be loaded: "1st", "2nd", "3rd", and "Nth" for every other N. */
  function RankText(rank: nat): (r: string)
    ensures |r| >= 3 && r[..|r| - 2] == NatToString(rank)
    ensures r[|r| - 2..] == (if rank == 1 then "st" else if rank == 2 then "nd" else if rank == 3 then "rd" else "th")
  {
    NatToString(rank) + (if rank == 1 then "st" else if rank == 2 then "nd" else if rank == 3 then "rd" else "th")
  }

  /** Distinct ranks have distinct texts. */
  lemma RankTextInjective(a: nat, b: nat)
    requires RankText(a) == RankText(b)
    ensures a == b
  {
    var r := RankText(a);
    assert NatToString(a) == r[..|r| - 2] == NatToString(b);
    NatToStringInjective(a, b);
  }

  // ---------------------------------------------------------------
  // getLastPlaceNumber
  // ---------------------------------------------------------------

  /** The lowest position among the entries; None stands for `Infinity`. */
  function LowestPosition(rs: seq<MatchCalculation.Result>): (r: Option<nat>)
    ensures r.None? <==> rs == []
    ensures r.Some? ==> exists i :: 0 <= i < |rs| && rs[i].position == r.value
    ensures r.Some? ==> forall i :: 0 <= i < |rs| ==> r.value <= rs[i].position
  {
    if rs == [] then None
    else
      var low := LowestPosition(rs[..|rs| - 1]);
      var p := rs[|rs| - 1].position;
      var r := if low.Some? && low.value <= p then low else Some(p);
      assert forall i :: 0 <= i < |rs| - 1 ==> rs[..|rs| - 1][i] == rs[i];
      r
  }

  /** The highest position among the entries; None stands for `-Infinity`. */
  function HighestPosition(rs: seq<MatchCalculation.Result>): (r: Option<nat>)
    ensures r.None? <==> rs == []
    ensures r.Some? ==> exists i :: 0 <= i < |rs| && rs[i].position == r.value
    ensures r.Some? ==> forall i :: 0 <= i < |rs| ==> rs[i].position <= r.value
  {
    if rs == [] then None
    else
      var high := HighestPosition(rs[..|rs| - 1]);
      var p := rs[|rs| - 1].position;
      var r := if high.Some? && high.value >= p then high else Some(p);
      assert forall i :: 0 <= i < |rs| - 1 ==> rs[..|rs| - 1][i] == rs[i];
      r
  }

  /** How many entries hold position `h`. */
  function CountAt(rs: seq<MatchCalculation.Result>, h: int): nat
  {
    if rs == [] then 0
    else CountAt(rs[..|rs| - 1], h) + (if rs[|rs| - 1].position == h then 1 else 0)
  }

  /** `getLastPlaceNumber` on the entries' positions; None stands for `Infinity`. */
  function LastPlace(rs: seq<MatchCalculation.Result>): Option<nat>
  {
    var low, high := LowestPosition(rs), HighestPosition(rs);
    if low.Some? && high.Some? && low.value < high.value && high.value > 3 && CountAt(rs, high.value) == 1 then high
    else None
  }

  /**
   * Position `h` is a last place worth its own mark: it is beyond the
   * podium, exactly one entry holds it, every other entry is ahead of it,
   * and at least one is.
   */
  predicate SoleLast(rs: seq<MatchCalculation.Result>, h: nat)
  {
    h > 3
    && (exists i :: 0 <= i < |rs| && rs[i].position == h && forall j :: 0 <= j < |rs| && j != i ==> rs[j].position < h)
    && (exists i :: 0 <= i < |rs| && rs[i].position < h)
  }

  lemma {:induction false} CountAtLeastOne(rs: seq<MatchCalculation.Result>, h: int, i: nat)
    requires i < |rs| && rs[i].position == h
    ensures CountAt(rs, h) >= 1
    decreases |rs|
  {
    if i < |rs| - 1 {
      CountAtLeastOne(rs[..|rs| - 1], h, i);
    }
  }

  lemma {:induction false} CountOnlyOne(rs: seq<MatchCalculation.Result>, h: int, i: nat)
    requires i < |rs| && rs[i].position == h
    requires forall j :: 0 <= j < |rs| && j != i ==> rs[j].position != h
    ensures CountAt(rs, h) == 1
    decreases |rs|
  {
    var init := rs[..|rs| - 1];
    if i < |rs| - 1 {
      CountOnlyOne(init, h, i);
    } else {
      CountNone(init, h);
    }
  }

  lemma {:induction false} CountNone(rs: seq<MatchCalculation.Result>, h: int)
    requires forall j :: 0 <= j < |rs| ==> rs[j].position != h
    ensures CountAt(rs, h) == 0
    decreases |rs|
  {
    if rs != [] {
      CountNone(rs[..|rs| - 1], h);
    }
  }

  lemma {:induction false} CountOneUnique(rs: seq<MatchCalculation.Result>, h: int, i: nat, j: nat)
    requires CountAt(rs, h) <= 1 && i < |rs| && j < |rs| && i != j
    requires rs[i].position == h
    ensures rs[j].position != h
    decreases |rs|
  {
    var init := rs[..|rs| - 1];
    if i < |rs| - 1 && j < |rs| - 1 {
      CountOneUnique(init, h, i, j);
    } else if i == |rs| - 1 {
      if rs[j].position == h {
        CountAtLeastOne(init, h, j);
      }
    } else {
      CountAtLeastOne(init, h, i);
    }
  }

  /** `getLastPlaceNumber` names a position exactly when it is the sole last place beyond the podium. */
  lemma LastPlaceSole(rs: seq<MatchCalculation.Result>)
    ensures LastPlace(rs).Some? ==> SoleLast(rs, LastPlace(rs).value)
    ensures forall h: nat :: SoleLast(rs, h) ==> LastPlace(rs) == Some(h)
  {
    var low, high := LowestPosition(rs), HighestPosition(rs);
    if LastPlace(rs).Some? {
      var h := high.value;
      var i :| 0 <= i < |rs| && rs[i].position == h;
      forall j | 0 <= j < |rs| && j != i
        ensures rs[j].position < h
      {
        CountOneUnique(rs, h, i, j);
      }
      var k :| 0 <= k < |rs| && rs[k].position == low.value;
    }
    forall h: nat | SoleLast(rs, h)
      ensures LastPlace(rs) == Some(h)
    {
      var i :| 0 <= i < |rs| && rs[i].position == h && forall j :: 0 <= j < |rs| && j != i ==> rs[j].position < h;
      var k :| 0 <= k < |rs| && rs[k].position < h;
      assert high.value == h;
      CountOnlyOne(rs, h, i);
    }
  }

  /** The first pass of `getLastPlaceNumber`: the lowest and highest positions. */
  method Extremes(rs: seq<MatchCalculation.Result>) returns (lowest: Option<nat>, highest: Option<nat>)
    ensures lowest == LowestPosition(rs) && highest == HighestPosition(rs)
  {
    lowest, highest := None, None;
    for i := 0 to |rs|
      invariant lowest == LowestPosition(rs[..i]) && highest == HighestPosition(rs[..i])
    {
      assert rs[..i + 1][..i] == rs[..i];
      var p := rs[i].position;
      if lowest.None? || p < lowest.value {
        lowest := Some(p);
      }
      if highest.None? || p > highest.value {
        highest := Some(p);
      }
    }
    assert rs[..|rs|] == rs;
  }

  /** The second pass of `getLastPlaceNumber`: how many entries hold position `h`. */
  method CountPosition(rs: seq<MatchCalculation.Result>, h: int) returns (count: nat)
    ensures count == CountAt(rs, h)
  {
    count := 0;
    for i := 0 to |rs|
      invariant count == CountAt(rs[..i], h)
    {
      assert rs[..i + 1][..i] == rs[..i];
      if rs[i].position == h {
        count := count + 1;
      }
    }
    assert rs[..|rs|] == rs;
  }

  /** `getLastPlaceNumber(lobbyResults)`: the extremes, then how many entries share the highest. */
  method GetLastPlaceNumber(rs: seq<MatchCalculation.Result>) returns (last: Option<nat>)
    ensures last == LastPlace(rs)
  {
    var lowest, highest := Extremes(rs);
    if highest.None? {
      return None;
    }
    var nbLastPlaces := CountPosition(rs, highest.value);
    if lowest.Some? && lowest.value < highest.value && highest.value > 3 && nbLastPlaces == 1 {
      return highest;
    }
    return None;
  }

  // ---------------------------------------------------------------
  // Flags and symbols
  // ---------------------------------------------------------------

  /**
   * `areRankingsAvailable(lobbyResults)`: whether some entry carries a
   * `finalRanking` property. Every entry the calculation makes carries
   * one, null when the ranking is unknown, so the first entry settles it.
   */
  function AreRankingsAvailable(rs: seq<MatchCalculation.Result>): (available: bool)
    ensures available <==> exists r :: r in rs
  {
    if rs == [] then false
    else assert rs[0] in rs; true
  }

  /**
   * `getRankingShiftSymbol(player)`: down when the final ranking is a
   * larger number than the original one, up when it is smaller, level
   * when they are equal or either is null.
   */
  function RankingShiftSymbol(r: MatchCalculation.Result): (s: string)
    ensures s == Down <==> r.originalRanking.Some? && r.finalRanking.Some? && r.finalRanking.value > r.originalRanking.value
    ensures s == Up <==> r.originalRanking.Some? && r.finalRanking.Some? && r.finalRanking.value < r.originalRanking.value
    ensures s == Level <==> r.originalRanking.None? || r.finalRanking.None? || r.finalRanking == r.originalRanking
  {
    if r.originalRanking.Some? && r.finalRanking.Some? then
      if r.finalRanking.value > r.originalRanking.value then Down
      else if r.finalRanking.value < r.originalRanking.value then Up
      else Level
    else Level
  }

  /** Reading the rankings the other way round turns up into down and down into up. */
  lemma RankingShiftReversed(r: MatchCalculation.Result)
    ensures var s := RankingShiftSymbol(r.(originalRanking := r.finalRanking, finalRanking := r.originalRanking));
      s == (if RankingShiftSymbol(r) == Up then Down else if RankingShiftSymbol(r) == Down then Up else Level)
  {
  }

  /** `hasPenalty(teams)`: some player of some team has a penalty other than zero. */
  predicate HasPenalty(teams: seq<Team>)
  {
    exists i, j :: 0 <= i < |teams| && 0 <= j < |teams[i].players| && teams[i].players[j].penalty != 0
  }

  /** Without a penalty every player's net points are the sum of their race scores. */
  lemma NoPenaltyNets(teams: seq<Team>)
    requires !HasPenalty(teams)
    ensures forall i, j :: 0 <= i < |teams| && 0 <= j < |teams[i].players| ==>
      PlayerNet(teams[i].players[j]) == Sum(teams[i].players[j].scores) as real
  {
  }
}
