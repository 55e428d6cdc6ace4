// `MatchCalculator.calculateBoardRatings` and `calculateBoardRankings`:
// folding the results of a match into the board the bot simulates while it
// replays matches. Both write into the caller's board rows and results.
module Board {
  import opened Wrappers
  import Ranking
  import Objects
  import opened MatchCalculation

  /** A row of the board: `ranking` is None where it is null. */
  datatype BoardPlayer = BoardPlayer(name: string, ranking: Option<int>, rating: real)

  function RowName(p: BoardPlayer): string
  {
    p.name
  }

  function RowRating(p: BoardPlayer): real
  {
    p.rating
  }

  /** The row a result not on the board gets: no ranking yet and the final rating. */
  function NewRow(r: Result): BoardPlayer
  {
    BoardPlayer(r.name, None, r.finalRating)
  }

  /** The rows added for the results whose player has no row on `board`, in the results' order. */
  function NewRows(results: seq<Result>, board: seq<BoardPlayer>): (rows: seq<BoardPlayer>)
    ensures |rows| <= |results|
  {
    if results == [] then []
    else
      var r := results[|results| - 1];
      NewRows(results[..|results| - 1], board) + (if Objects.Find(board, RowName, r.name).None? then [NewRow(r)] else [])
  }

  /** The names of `rows`, in order. */
  function RowNames(rows: seq<BoardPlayer>): (names: seq<string>)
    ensures |names| == |rows| && forall k | 0 <= k < |rows| :: names[k] == rows[k].name
  {
    seq(|rows|, k requires 0 <= k < |rows| => rows[k].name)
  }

  // ---------------------------------------------------------------
  // calculateBoardRatings
  // ---------------------------------------------------------------

  /** Every row added is the new row of a result whose player has no row on the board. */
  lemma {:induction false} NewRowsFrom(results: seq<Result>, board: seq<BoardPlayer>, x: BoardPlayer)
    requires x in NewRows(results, board)
    ensures exists i :: 0 <= i < |results| && x == NewRow(results[i]) && Objects.Find(board, RowName, results[i].name).None?
  {
    var init, r := results[..|results| - 1], results[|results| - 1];
    if x in NewRows(init, board) {
      NewRowsFrom(init, board, x);
      var i :| 0 <= i < |init| && x == NewRow(init[i]) && Objects.Find(board, RowName, init[i].name).None?;
      assert results[i] == init[i];
    } else {
      assert x == NewRow(results[|results| - 1]);
    }
  }

  /** A result whose player has no row on the board gets a new row. */
  lemma {:induction false} NewRowsCover(results: seq<Result>, board: seq<BoardPlayer>, i: nat)
    requires i < |results| && Objects.Find(board, RowName, results[i].name).None?
    ensures NewRow(results[i]) in NewRows(results, board)
  {
    var init := results[..|results| - 1];
    if i < |results| - 1 {
      assert results[i] == init[i];
      NewRowsCover(init, board, i);
    }
  }

  /** Results with distinct names add rows with distinct names, none of them already on the board. */
  lemma {:induction false} NewRowsDistinct(results: seq<Result>, board: seq<BoardPlayer>)
    requires Objects.DistinctKeys(results, NameOf)
    ensures Objects.DistinctKeys(NewRows(results, board), RowName)
    ensures forall x | x in NewRows(results, board) :: Objects.Find(board, RowName, x.name).None?
  {
    if results != [] {
      var init, r := results[..|results| - 1], results[|results| - 1];
      NewRowsDistinct(init, board);
      forall x | x in NewRows(init, board) ensures x.name != r.name && Objects.Find(board, RowName, x.name).None? {
        NewRowsFrom(init, board, x);
        var i :| 0 <= i < |init| && x == NewRow(init[i]) && Objects.Find(board, RowName, init[i].name).None?;
        assert NameOf(results[i]) != NameOf(results[|results| - 1]);
      }
    }
  }

  /**
   * After `calculateBoardRatings`: every result's player has a row, the
   * rows added are new rows of results whose player had none, and rows
   * with distinct names stay distinct.
   */
  lemma BoardRatings(results: seq<Result>, board: seq<BoardPlayer>)
    requires Objects.DistinctKeys(results, NameOf)
    ensures var after := board + NewRows(results, board);
      (forall i | 0 <= i < |results| :: Objects.Find(after, RowName, results[i].name).Some?)
      && (forall x | x in after[|board|..] :: exists i :: 0 <= i < |results| && x == NewRow(results[i]) && Objects.Find(board, RowName, results[i].name).None?)
      && (Objects.DistinctKeys(board, RowName) ==> Objects.DistinctKeys(after, RowName))
  {
    var added := NewRows(results, board);
    var after := board + added;
    assert after[|board|..] == added;
    forall i | 0 <= i < |results| ensures Objects.Find(after, RowName, results[i].name).Some? {
      if Objects.Find(board, RowName, results[i].name).None? {
        NewRowsCover(results, board, i);
        var k :| 0 <= k < |added| && added[k] == NewRow(results[i]);
        assert RowName(after[|board| + k]) == results[i].name;
      } else {
        var k := Objects.Find(board, RowName, results[i].name).value;
        assert RowName(after[k]) == results[i].name;
      }
    }
    forall x | x in added ensures exists i :: 0 <= i < |results| && x == NewRow(results[i]) && Objects.Find(board, RowName, results[i].name).None? {
      NewRowsFrom(results, board, x);
    }
    if Objects.DistinctKeys(board, RowName) {
      NewRowsDistinct(results, board);
      AppendDistinct(board, added);
    }
  }

  lemma AppendDistinct(board: seq<BoardPlayer>, added: seq<BoardPlayer>)
    requires Objects.DistinctKeys(board, RowName) && Objects.DistinctKeys(added, RowName)
    requires forall x | x in added :: Objects.Find(board, RowName, x.name).None?
    ensures Objects.DistinctKeys(board + added, RowName)
  {
    var after := board + added;
    forall i, j | 0 <= i < j < |after| ensures RowName(after[i]) != RowName(after[j]) {
      if i < |board| <= j {
        assert added[j - |board|] in added;
      }
    }
  }

  // ---------------------------------------------------------------
  // calculateBoardRankings
  // ---------------------------------------------------------------

  /** `parseFloat(boardPlayersMap[name].ranking)`: None for a null ranking (NaN) or for a player with no row. */
  function BoardRanking(board: seq<BoardPlayer>, name: string): Option<int>
  {
    match Objects.Find(board, RowName, name)
    case None => None
    case Some(k) => board[k].ranking
  }

  /** The rows once the final rating of each result is written into its player's row. */
  function Rerated(board: seq<BoardPlayer>, results: seq<Result>): (rows: seq<BoardPlayer>)
    ensures |rows| == |board|
    ensures forall k | 0 <= k < |board| :: rows[k].name == board[k].name && rows[k].ranking == board[k].ranking
  {
    if results == [] then board
    else
      var rows := Rerated(board, results[..|results| - 1]);
      var r := results[|results| - 1];
      match Objects.Find(board, RowName, r.name)
      case None => rows
      case Some(k) => rows[k := rows[k].(rating := r.finalRating)]
  }

  /** The values of `boardPlayersMap` once every result's player has a row holding the final rating. */
  function Rows(board: seq<BoardPlayer>, results: seq<Result>): seq<BoardPlayer>
  {
    Rerated(board, results) + NewRows(results, board)
  }

  /** `sortedBoardPlayers`: the rows by rating, highest first, ties in row order. */
  function Standing(board: seq<BoardPlayer>, results: seq<Result>): seq<BoardPlayer>
  {
    Ranking.SortDesc(Rows(board, results), RowRating)
  }

  /** The 1-based place of the name in `standing`; None (null) where it has no row. */
  function Place(standing: seq<BoardPlayer>, name: string): (r: Option<int>)
    ensures r.Some? ==> 1 <= r.value <= |standing| && standing[r.value - 1].name == name
    ensures r.None? <==> forall k | 0 <= k < |standing| :: standing[k].name != name
  {
    match Objects.Find(standing, RowName, name)
    case None => None
    case Some(p) => Some(p + 1)
  }

  /** `originalRanking + 1`, `n` times over; a NaN ranking stays NaN. */
  function Shifted(ranking: Option<int>, n: nat): Option<int>
  {
    match ranking
    case None => None
    case Some(x) => Some(x + n)
  }

  /** How many of the names are of results whose original rating is above `rating`. */
  function Newcomers(results: seq<Result>, names: seq<string>, rating: real): (n: nat)
    ensures n <= |names|
  {
    if names == [] then 0
    else
      Newcomers(results, names[..|names| - 1], rating)
      + match Objects.Get(results, NameOf, names[|names| - 1])
        case Some(q) => if q.originalRating > rating then 1 else 0
        case None => 0
  }

  /** `newPlayers` once the name of every player given a row has been pushed; null stays null. */
  function Pushed(newPlayers: Option<seq<string>>, results: seq<Result>, board: seq<BoardPlayer>): Option<seq<string>>
  {
    match newPlayers
    case None => None
    case Some(names) => Some(names + RowNames(NewRows(results, board)))
  }

  /** A result once its original ranking is read off the board and its final one is cleared. */
  function Reset(board: seq<BoardPlayer>, r: Result): Result
  {
    r.(originalRanking := BoardRanking(board, r.name), finalRanking := None)
  }

  /** The results once every original ranking is read off the board and every final one cleared. */
  function Resets(board: seq<BoardPlayer>, results: seq<Result>): (rs: seq<Result>)
    ensures |rs| == |results| && forall i | 0 <= i < |results| :: rs[i] == Reset(board, results[i])
  {
    seq(|results|, i requires 0 <= i < |results| => Reset(board, results[i]))
  }

  lemma ResetsSnoc(board: seq<BoardPlayer>, results: seq<Result>, i: nat)
    requires i < |results|
    ensures Resets(board, results[..i + 1]) == Resets(board, results[..i]) + [Reset(board, results[i])]
  {
  }

  /**
   * A result after `calculateBoardRankings`: the final ranking is the
   * player's place in the standing; the original ranking is the board's,
   * shifted down once per new player with a higher original rating,
   * unless the player is new.
   */
  function Ranked(board: seq<BoardPlayer>, results: seq<Result>, pushed: Option<seq<string>>, r: Result): Result
  {
    var base := BoardRanking(board, r.name);
    var original := if pushed.None? || r.name in pushed.value then base else Shifted(base, Newcomers(results, pushed.value, r.originalRating));
    r.(originalRanking := original, finalRanking := Place(Standing(board, results), r.name))
  }

  function RankedResults(board: seq<BoardPlayer>, results: seq<Result>, pushed: Option<seq<string>>): (rs: seq<Result>)
    ensures |rs| == |results|
  {
    seq(|results|, i requires 0 <= i < |results| => Ranked(board, results, pushed, results[i]))
  }

  /** A row ranked by its place in `standing`; a row with no place keeps its ranking. */
  function Placed(row: BoardPlayer, standing: seq<BoardPlayer>): BoardPlayer
  {
    match Place(standing, row.name)
    case None => row
    case Some(p) => row.(ranking := Some(p))
  }

  /** The caller's rows after `calculateBoardRankings`: final ratings written in, each ranked by its place. */
  function RankedBoard(board: seq<BoardPlayer>, results: seq<Result>): (rows: seq<BoardPlayer>)
    ensures |rows| == |board|
  {
    var rerated := Rerated(board, results);
    seq(|board|, k requires 0 <= k < |board| => Placed(rerated[k], Standing(board, results)))
  }

  /** One more result written into the rows. */
  lemma WriteStep(board: seq<BoardPlayer>, results: seq<Result>, i: nat)
    requires i < |results|
    ensures Rerated(board, results[..i + 1]) ==
      match Objects.Find(board, RowName, results[i].name)
      case None => Rerated(board, results[..i])
      case Some(k) => Rerated(board, results[..i])[k := Rerated(board, results[..i])[k].(rating := results[i].finalRating)]
    ensures NewRows(results[..i + 1], board) ==
      NewRows(results[..i], board) + if Objects.Find(board, RowName, results[i].name).None? then [NewRow(results[i])] else []
  {
    assert results[..i + 1][..i] == results[..i];
  }

  /** Before any result, the pushed names are the given ones. */
  lemma PushedNone(newPlayers: Option<seq<string>>, board: seq<BoardPlayer>)
    ensures Pushed(newPlayers, [], board) == newPlayers
  {
    if newPlayers.Some? {
      assert newPlayers.value + RowNames([]) == newPlayers.value;
    }
  }

  /** One more result pushes its name when it has no row on `board`, and nothing otherwise. */
  lemma PushedSnoc(newPlayers: Option<seq<string>>, results: seq<Result>, board: seq<BoardPlayer>, i: nat)
    requires i < |results|
    ensures Pushed(newPlayers, results[..i + 1], board).Some? == newPlayers.Some?
    ensures newPlayers.Some? ==>
      Pushed(newPlayers, results[..i + 1], board).value == Pushed(newPlayers, results[..i], board).value
        + if Objects.Find(board, RowName, results[i].name).None? then [results[i].name] else []
  {
    WriteStep(board, results, i);
    if newPlayers.Some? && Objects.Find(board, RowName, results[i].name).None? {
      RowNamesSnoc(NewRows(results[..i], board), NewRow(results[i]));
    }
  }

  lemma RowNamesSnoc(rows: seq<BoardPlayer>, x: BoardPlayer)
    ensures RowNames(rows + [x]) == RowNames(rows) + [x.name]
  {
  }

  /** One more row of the standing places only the players of that name. */
  lemma PlaceSnoc(standing: seq<BoardPlayer>, i: nat)
    requires i < |standing| && Objects.DistinctKeys(standing, RowName)
    ensures forall name :: Place(standing[..i + 1], name) == if name == standing[i].name then Some(i + 1) else Place(standing[..i], name)
  {
    assert standing[..i + 1] == standing[..i] + [standing[i]];
    forall name ensures Place(standing[..i + 1], name) == if name == standing[i].name then Some(i + 1) else Place(standing[..i], name) {
      Objects.FindSnoc(standing[..i], standing[i], RowName, name);
      if name == standing[i].name {
        assert forall k | 0 <= k < i :: RowName(standing[..i][k]) != name;
      }
    }
  }

  /** The standing of distinct rows and results holds each name once. */
  lemma StandingDistinct(board: seq<BoardPlayer>, results: seq<Result>)
    requires Objects.DistinctKeys(results, NameOf) && Objects.DistinctKeys(board, RowName)
    ensures Objects.DistinctKeys(Rows(board, results), RowName)
    ensures Objects.DistinctKeys(Standing(board, results), RowName)
  {
    NewRowsDistinct(results, board);
    ReratedDistinct(board, results);
    var rerated := Rerated(board, results);
    forall x | x in NewRows(results, board) ensures Objects.Find(rerated, RowName, x.name).None? {
      assert forall k | 0 <= k < |rerated| :: RowName(rerated[k]) != x.name;
    }
    AppendDistinct(rerated, NewRows(results, board));
    Objects.SortDistinct(Rows(board, results), Ranking.Desc(RowRating), RowName);
  }

  lemma ReratedDistinct(board: seq<BoardPlayer>, results: seq<Result>)
    requires Objects.DistinctKeys(board, RowName)
    ensures Objects.DistinctKeys(Rerated(board, results), RowName)
  {
    var rows := Rerated(board, results);
    assert forall k | 0 <= k < |board| :: RowName(rows[k]) == RowName(board[k]);
  }

  /** A result's final rating is written into the row of its player. */
  lemma {:induction false} ReratedRating(board: seq<BoardPlayer>, results: seq<Result>, i: nat, k: nat)
    requires Objects.DistinctKeys(results, NameOf) && i < |results|
    requires Objects.Find(board, RowName, results[i].name) == Some(k)
    ensures Rerated(board, results)[k].rating == results[i].finalRating
  {
    var init, last := results[..|results| - 1], results[|results| - 1];
    if i < |results| - 1 {
      assert init[i] == results[i];
      assert NameOf(results[i]) != NameOf(last);
      ReratedRating(board, init, i, k);
    }
  }

  /** Every result has a row holding its player's name and final rating. */
  lemma RowOfResult(board: seq<BoardPlayer>, results: seq<Result>, i: nat) returns (p: nat)
    requires Objects.DistinctKeys(results, NameOf) && i < |results|
    ensures p < |Rows(board, results)|
    ensures Rows(board, results)[p].name == results[i].name && Rows(board, results)[p].rating == results[i].finalRating
  {
    var r := results[i];
    match Objects.Find(board, RowName, r.name)
    case Some(k) =>
      ReratedRating(board, results, i, k);
      p := k;
    case None =>
      NewRowsCover(results, board, i);
      var m :| 0 <= m < |NewRows(results, board)| && NewRows(results, board)[m] == NewRow(r);
      p := |board| + m;
  }

  /** Every result has the row of the standing that holds its player's name and final rating. */
  lemma StandingRow(board: seq<BoardPlayer>, results: seq<Result>, i: nat) returns (q: nat)
    requires Objects.DistinctKeys(results, NameOf) && Objects.DistinctKeys(board, RowName) && i < |results|
    ensures q < |Standing(board, results)|
    ensures Standing(board, results)[q].name == results[i].name && Standing(board, results)[q].rating == results[i].finalRating
    ensures Place(Standing(board, results), results[i].name) == Some(q + 1)
  {
    var p := RowOfResult(board, results, i);
    q := Ranking.SortDescHolds(Rows(board, results), RowRating, p);
    StandingDistinct(board, results);
    Objects.FindDistinct(Standing(board, results), RowName, q);
  }

  /**
   * `calculateBoardRankings` ranks by the final ratings: every result gets
   * a final ranking, and a player rated higher ranks better.
   */
  lemma RankingsFollowRatings(board: seq<BoardPlayer>, results: seq<Result>, pushed: Option<seq<string>>, i: nat, j: nat)
    requires Objects.DistinctKeys(results, NameOf) && Objects.DistinctKeys(board, RowName)
    requires i < |results| && j < |results|
    ensures RankedResults(board, results, pushed)[i].finalRanking.Some? && RankedResults(board, results, pushed)[j].finalRanking.Some?
    ensures results[i].finalRating > results[j].finalRating ==>
      RankedResults(board, results, pushed)[i].finalRanking.value < RankedResults(board, results, pushed)[j].finalRanking.value
  {
    var qi := StandingRow(board, results, i);
    var qj := StandingRow(board, results, j);
    Ranking.SortDescSorted(Rows(board, results), RowRating);
    if qj < qi {
      assert RowRating(Standing(board, results)[qj]) >= RowRating(Standing(board, results)[qi]);
    }
  }

  /**
   * The caller's rows agree with the results: a row of a match player
   * holds the player's final rating and final ranking.
   */
  lemma BoardAgrees(board: seq<BoardPlayer>, results: seq<Result>, pushed: Option<seq<string>>, i: nat, k: nat)
    requires Objects.DistinctKeys(results, NameOf) && Objects.DistinctKeys(board, RowName)
    requires i < |results| && k < |board| && board[k].name == results[i].name
    ensures RankedBoard(board, results)[k].rating == results[i].finalRating
    ensures RankedBoard(board, results)[k].ranking == RankedResults(board, results, pushed)[i].finalRanking
  {
    var f := Objects.Find(board, RowName, results[i].name);
    assert f == Some(k) by {
      assert RowName(board[k]) == results[i].name;
      assert RowName(board[f.value]) == RowName(board[k]);
    }
    ReratedRating(board, results, i, k);
    var q := StandingRow(board, results, i);
  }

  /** Every row of the caller's board gets a ranking, and no two the same one. */
  lemma BoardRanksDistinct(board: seq<BoardPlayer>, results: seq<Result>, k: nat, l: nat)
    requires Objects.DistinctKeys(results, NameOf) && Objects.DistinctKeys(board, RowName)
    requires k < |board| && l < |board| && k != l
    ensures RankedBoard(board, results)[k].ranking.Some?
    ensures RankedBoard(board, results)[k].ranking != RankedBoard(board, results)[l].ranking
  {
    var pk := RowPlaced(board, results, k);
    var pl := RowPlaced(board, results, l);
    assert RowName(board[k]) != RowName(board[l]);
  }

  /** A row of the caller's board is ranked by the place its name holds in the standing. */
  lemma RowPlaced(board: seq<BoardPlayer>, results: seq<Result>, k: nat) returns (p: int)
    requires k < |board|
    ensures 1 <= p <= |Standing(board, results)| && Standing(board, results)[p - 1].name == board[k].name
    ensures RankedBoard(board, results)[k].ranking == Some(p)
  {
    var rows := Rows(board, results);
    var standing := Standing(board, results);
    assert rows[k].name == board[k].name;
    assert rows[k] in multiset(standing) by { assert rows[k] in multiset(rows); }
    var pk :| 0 <= pk < |standing| && standing[pk] == rows[k];
    assert Place(standing, board[k].name).Some?;
    p := Place(standing, board[k].name).value;
  }

  // ---- Two writes that miss the caller's board ----

  /**
   * `calculateBoardRatings` as written assigns the final rating to a property
   * of the array instead of the row, so a board player's row keeps its old
   * rating; the intended rows, those of `Rows`, hold the final rating.
   */
  lemma StaleRating(board: seq<BoardPlayer>, results: seq<Result>, i: nat, k: nat)
    requires Objects.DistinctKeys(results, NameOf) && i < |results|
    requires Objects.Find(board, RowName, results[i].name) == Some(k)
    requires board[k].rating != results[i].finalRating
    ensures (board + NewRows(results, board))[k].rating != results[i].finalRating
    ensures Rows(board, results)[k].rating == results[i].finalRating
  {
    ReratedRating(board, results, i, k);
  }

  /**
   * The board `calculateBoardRankings` means to leave behind: the standing,
   * each row ranked by its place.
   */
  function RankedStanding(board: seq<BoardPlayer>, results: seq<Result>): (rows: seq<BoardPlayer>)
    ensures |rows| == |Standing(board, results)|
  {
    var standing := Standing(board, results);
    seq(|standing|, k requires 0 <= k < |standing| => standing[k].(ranking := Some(k + 1)))
  }

  /** The intended board lists the rows by rating, highest first, ranked 1, 2, 3 and on. */
  lemma RankedStandingOrdered(board: seq<BoardPlayer>, results: seq<Result>)
    ensures Ranking.SortedDesc(RankedStanding(board, results), RowRating)
    ensures forall k | 0 <= k < |RankedStanding(board, results)| :: RankedStanding(board, results)[k].ranking == Some(k + 1)
  {
    var standing := Standing(board, results);
    var rows := RankedStanding(board, results);
    Ranking.SortDescSorted(Rows(board, results), RowRating);
    assert forall k | 0 <= k < |rows| :: RowRating(rows[k]) == RowRating(standing[k]);
  }

  /**
   * Each row of the caller's board ends as the intended board's row of the
   * same name: the rows are right, only their order is the caller's.
   */
  lemma CallerRowRanked(board: seq<BoardPlayer>, results: seq<Result>, k: nat) returns (p: nat)
    requires Objects.DistinctKeys(results, NameOf) && Objects.DistinctKeys(board, RowName)
    requires k < |board|
    ensures p < |RankedStanding(board, results)| && RankedBoard(board, results)[k] == RankedStanding(board, results)[p]
  {
    var rows := Rows(board, results);
    var standing := Standing(board, results);
    StandingDistinct(board, results);
    var q := RowPlaced(board, results, k);
    assert rows[k] in multiset(standing) by { assert rows[k] in multiset(rows); }
    var pk :| 0 <= pk < |standing| && standing[pk] == rows[k];
    assert RowName(standing[pk]) == RowName(standing[q - 1]);
    p := q - 1;
  }

  /**
   * `calculateBoardRankings` as written rebinds its parameter to the ranked
   * standing, so the caller's rows stay in their order: two rows with the
   * lower rating first keep it, where the intended board puts it second.
   */
  lemma BoardOrderKept(board: seq<BoardPlayer>)
    requires |board| == 2 && board[0].rating < board[1].rating
    ensures RankedBoard(board, [])[0].name == board[0].name
    ensures RankedStanding(board, [])[0].name == board[1].name
  {
    TwoRowsSwapped(board);
  }

  /** Two rows with the lower rating first come out of the standing swapped. */
  lemma TwoRowsSwapped(board: seq<BoardPlayer>)
    requires |board| == 2 && board[0].rating < board[1].rating
    ensures Standing(board, []) == [board[1], board[0]]
  {
    assert Rows(board, []) == [board[0], board[1]];
    Ranking.SortDescPair(board[0], board[1], RowRating);
  }

  /** No new player is rated above: the count of newcomers is zero. */
  lemma {:induction false} NewcomersNone(results: seq<Result>, names: seq<string>, rating: real)
    requires forall q | q in names && Objects.Get(results, NameOf, q).Some? :: Objects.Get(results, NameOf, q).value.originalRating <= rating
    ensures Newcomers(results, names, rating) == 0
  {
    if names != [] {
      assert forall q | q in names[..|names| - 1] :: q in names;
      NewcomersNone(results, names[..|names| - 1], rating);
      assert names[|names| - 1] in names;
    }
  }

  /**
   * A returning player's original ranking moves down by at most one place
   * per new player, and stays the board's when no new player was rated
   * above them.
   */
  lemma OriginalShift(board: seq<BoardPlayer>, results: seq<Result>, pushed: seq<string>, i: nat)
    requires i < |results| && results[i].name !in pushed && BoardRanking(board, results[i].name).Some?
    ensures var x := BoardRanking(board, results[i].name).value;
      var shifted := RankedResults(board, results, Some(pushed))[i].originalRanking;
      shifted.Some? && x <= shifted.value <= x + |pushed|
      && ((forall q | q in pushed && Objects.Get(results, NameOf, q).Some? :: Objects.Get(results, NameOf, q).value.originalRating <= results[i].originalRating)
          ==> shifted.value == x)
  {
    if forall q | q in pushed && Objects.Get(results, NameOf, q).Some? :: Objects.Get(results, NameOf, q).value.originalRating <= results[i].originalRating {
      NewcomersNone(results, pushed, results[i].originalRating);
    }
  }

  /** The caller's `boardPlayers` array, whose rows the board calculations write into. */
  class Leaderboard {
    var players: seq<BoardPlayer>

    constructor (players: seq<BoardPlayer>)
      ensures this.players == players
    {
      this.players := players;
    }

    /**
     * `calculateBoardRatings`: push a new row for every result whose player
     * has no row. The rows already on the board keep their rating: the
     * assignment meant for them writes to the array instead.
     */
    method CalculateBoardRatings(results: seq<Result>)
      modifies this
      ensures players == old(players) + NewRows(results, old(players))
    {
      var board := players;
      for i := 0 to |results|
        invariant players == board + NewRows(results[..i], board)
      {
        var r := results[i];
        assert results[..i + 1][..i] == results[..i];
        if Objects.Find(board, RowName, r.name).None? {
          players := players + [NewRow(r)];
        }
      }
      assert results[..|results|] == results;
    }

    /**
     * `calculateBoardRankings`. `newPlayers` is None where the caller
     * leaves it null; it must then have no result without a row, since
     * pushing into null throws.
     */
    method CalculateBoardRankings(results: seq<Result>, newPlayers: Option<seq<string>>)
      returns (ranked: seq<Result>, pushed: Option<seq<string>>)
      requires Objects.DistinctKeys(results, NameOf) && Objects.DistinctKeys(players, RowName)
      requires newPlayers.None? ==> forall i | 0 <= i < |results| :: Objects.Find(players, RowName, results[i].name).Some?
      modifies this
      ensures pushed == Pushed(newPlayers, results, old(players))
      ensures ranked == RankedResults(old(players), results, pushed)
      ensures players == RankedBoard(old(players), results)
    {
      var board := players;
      var added, originals;
      added, pushed, originals := WriteRatings(results, newPlayers);
      var standing := Ranking.SortDesc(players + added, RowRating);
      ranked := RankResults(board, results, originals, standing, pushed);
      StandingDistinct(board, results);
      WriteRankings(standing);
    }

    /**
     * The second loop: read each player's original ranking off the board,
     * give a row to each player without one, pushing the name, and write
     * the final rating into the player's row. The rows this loop adds are
     * for other names, since the results have distinct names.
     */
    method WriteRatings(results: seq<Result>, newPlayers: Option<seq<string>>)
      returns (added: seq<BoardPlayer>, pushed: Option<seq<string>>, originals: seq<Result>)
      requires newPlayers.None? ==> forall i | 0 <= i < |results| :: Objects.Find(players, RowName, results[i].name).Some?
      modifies this
      ensures players == Rerated(old(players), results)
      ensures added == NewRows(results, old(players))
      ensures pushed == Pushed(newPlayers, results, old(players))
      ensures originals == Resets(old(players), results)
    {
      var board := players;
      added, pushed, originals := [], newPlayers, [];
      PushedNone(newPlayers, board);
      for i := 0 to |results|
        invariant players == Rerated(board, results[..i])
        invariant added == NewRows(results[..i], board)
        invariant pushed == Pushed(newPlayers, results[..i], board)
        invariant originals == Resets(board, results[..i])
      {
        var r := results[i];
        WriteStep(board, results, i);
        PushedSnoc(newPlayers, results, board, i);
        var original, onBoard := WriteRow(board, r);
        if !onBoard {
          added := added + [NewRow(r)];
          pushed := Some(pushed.value + [r.name]);
        }
        ResetsSnoc(board, results, i);
        originals := originals + [r.(originalRanking := original, finalRanking := None)];
      }
      assert results[..|results|] == results;
    }

    /** One step of the second loop: look the player up in `boardPlayersMap` (the rows `board` as they were), read the ranking and write the final rating. */
    method WriteRow(board: seq<BoardPlayer>, r: Result) returns (original: Option<int>, onBoard: bool)
      requires |players| == |board| && forall k | 0 <= k < |board| :: players[k].name == board[k].name && players[k].ranking == board[k].ranking
      modifies this
      ensures onBoard == Objects.Find(board, RowName, r.name).Some?
      ensures original == BoardRanking(board, r.name)
      ensures players == match Objects.Find(board, RowName, r.name)
        case None => old(players)
        case Some(k) => old(players)[k := old(players)[k].(rating := r.finalRating)]
    {
      var k := Objects.Find(board, RowName, r.name);
      original := None;
      onBoard := k.Some?;
      if k.Some? {
        original := players[k.value].ranking;
        players := players[k.value := players[k.value].(rating := r.finalRating)];
      }
    }

    /**
     * The third loop: each result's final ranking is its place in the
     * standing, and a player not pushed as new has the original ranking
     * shifted by the new players rated above them.
     */
    static method RankResults(ghost board: seq<BoardPlayer>, results: seq<Result>, originals: seq<Result>,
                              standing: seq<BoardPlayer>, pushed: Option<seq<string>>) returns (ranked: seq<Result>)
      requires originals == Resets(board, results)
      requires standing == Standing(board, results)
      ensures ranked == RankedResults(board, results, pushed)
    {
      ranked := [];
      for i := 0 to |results|
        invariant |ranked| == i && forall j | 0 <= j < i :: ranked[j] == Ranked(board, results, pushed, results[j])
      {
        var r := originals[i];
        var finalRanking := Place(standing, r.name);
        var originalRanking := r.originalRanking;
        if pushed.Some? && r.name !in pushed.value {
          originalRanking := ShiftByNewcomers(results, pushed.value, originalRanking, r.originalRating);
        }
        ranked := ranked + [r.(originalRanking := originalRanking, finalRanking := finalRanking)];
      }
    }

    /** The loop over the new players: one more for each whose original rating is above `rating`. */
    static method ShiftByNewcomers(results: seq<Result>, names: seq<string>, original: Option<int>, rating: real)
      returns (shifted: Option<int>)
      ensures shifted == Shifted(original, Newcomers(results, names, rating))
    {
      shifted := original;
      for j := 0 to |names|
        invariant shifted == Shifted(original, Newcomers(results, names[..j], rating))
      {
        assert names[..j + 1][..j] == names[..j];
        var newcomer := Objects.Get(results, NameOf, names[j]);
        if newcomer.Some? && newcomer.value.originalRating > rating {
          shifted := Shifted(shifted, 1);
        }
      }
      assert names[..|names|] == names;
    }

    /** The last loop: every row of the standing that is one of the caller's gets its place as ranking. */
    method WriteRankings(standing: seq<BoardPlayer>)
      requires Objects.DistinctKeys(standing, RowName) && Objects.DistinctKeys(players, RowName)
      modifies this
      ensures |players| == |old(players)| && forall k | 0 <= k < |players| :: players[k] == Placed(old(players)[k], standing)
    {
      var board := players;
      for i := 0 to |standing|
        invariant |players| == |board| && forall k | 0 <= k < |board| :: players[k] == Placed(board[k], standing[..i])
      {
        var k := Objects.Find(board, RowName, standing[i].name);
        PlaceSnoc(standing, i);
        if k.Some? {
          players := players[k.value := players[k.value].(ranking := Some(i + 1))];
        }
      }
      assert standing[..|standing|] == standing;
    }
  }
}
