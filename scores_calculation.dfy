// `ScoresCalculation` of utils/scores_calculation/scores_calculation.js:
// `calculate` parses the table, fetches the board, and then either shows
// the results of the match as the board recorded them, when the table is
// already on the board, or predicts them from the matches waiting in the
// results submissions channel. Each way out sets an error type.
module ScoresCalculation {
  import opened Wrappers
  import opened Records
  import Objects
  import MatchComparison
  import Board
  import MatchCalculation
  import RatingSystems
  import Lorenzi
  import TableParsing
  import TeamRanking
  import SubmittedMatch
  import Prediction
  import BoardSettings

  const ErrorUnset := 0
  const ErrorFatal := 1
  const ErrorCalculation := 2
  const ErrorParse := 3
  const ErrorLorenziBoard := 4
  const ErrorSubmittedMatchNotFound := 5
  const ErrorSubmittedMatchCalculation := 6

  /**
   * What `calculate` reaches outside the object: the board and rating
   * updates fetched from Lorenzi's API, the submissions of the results
   * channel (oldest first), the table parser applied to each of them, and
   * `Math.pow(10, x)`.
   */
  datatype Services = Services(
    fetchBoard: string -> Option<Lorenzi.BoardData>,
    fetchUpdates: string -> Option<seq<SubmittedMatch.RatingUpdate>>,
    backlog: seq<Prediction.Submission>,
    parse: string -> Option<Match>,
    maths: RatingSystems.Maths)

  // ---------------------------------------------------------------
  // Finding the table on the board
  // ---------------------------------------------------------------

  /** `parseInt(table.lobbyNumber) === parseInt(match.lobbyNumber)`. */
  predicate SameLobby(table: Match, m: Match)
  {
    MatchComparison.SameNumber(table.lobbyNumber, m.lobbyNumber)
  }

  /** The board's matches with the table's lobby number, in the board's order. */
  function SameLobbyMatches(table: Match, ms: seq<Match>): (r: seq<Match>)
    ensures |r| <= |ms|
    ensures forall m :: m in r <==> m in ms && SameLobby(table, m)
  {
    if ms == [] then []
    else
      var init, m := ms[..|ms| - 1], ms[|ms| - 1];
      assert ms == init + [m];
      SameLobbyMatches(table, init) + (if SameLobby(table, m) then [m] else [])
  }

  /** `_isSubmittedMatch`: the board has matches, and the table equals one with its lobby number. */
  predicate Submitted(table: Match, board: Lorenzi.BoardData)
  {
    board.matchCount != 0 && |board.matches| != 0
    && exists m :: m in SameLobbyMatches(table, board.matches) && MatchComparison.MatchesEqual(Some(table), Some(m))
  }

  /** The first match with the table's lobby number that equals the table, compared the other way round. */
  function SelectedMatch(table: Match, candidates: seq<Match>): (r: Option<Match>)
    ensures r.Some? ==> r.value in candidates && MatchComparison.MatchesEqual(Some(r.value), Some(table))
    ensures r.None? ==> forall m :: m in candidates ==> !MatchComparison.MatchesEqual(Some(m), Some(table))
  {
    if candidates == [] then None
    else if MatchComparison.MatchesEqual(Some(candidates[0]), Some(table)) then Some(candidates[0])
    else SelectedMatch(table, candidates[1..])
  }

  /** `_getSubmittedMatch`: the selected match and its fetched rating updates. */
  function SubmittedMatchOf(table: Match, board: Lorenzi.BoardData,
                            fetchUpdates: string -> Option<seq<SubmittedMatch.RatingUpdate>>)
    : Option<(Match, seq<SubmittedMatch.RatingUpdate>)>
  {
    match SelectedMatch(table, SameLobbyMatches(table, board.matches))
    case None => None
    case Some(m) =>
      match fetchUpdates(m.id)
      case None => None
      case Some(updates) => Some((m, updates))
  }

  method FilterSameLobby(table: Match, ms: seq<Match>) returns (r: seq<Match>)
    ensures r == SameLobbyMatches(table, ms)
  {
    r := [];
    for k := 0 to |ms|
      invariant r == SameLobbyMatches(table, ms[..k])
    {
      assert ms[..k + 1][..k] == ms[..k];
      if MatchComparison.SameNumber(table.lobbyNumber, ms[k].lobbyNumber) {
        r := r + [ms[k]];
      }
    }
    assert ms[..|ms|] == ms;
  }

  method IsSubmittedMatch(table: Match, board: Lorenzi.BoardData) returns (submitted: bool)
    ensures submitted == Submitted(table, board)
  {
    if board.matchCount == 0 || |board.matches| == 0 {
      return false;
    }
    var ms := FilterSameLobby(table, board.matches);
    for k := 0 to |ms|
      invariant forall l :: 0 <= l < k ==> !MatchComparison.MatchesEqual(Some(table), Some(ms[l]))
    {
      var equal := MatchComparison.AreMatchesEqual(Some(table), Some(ms[k]));
      if equal {
        return true;
      }
    }
    return false;
  }

  method GetSubmittedMatch(table: Match, board: Lorenzi.BoardData,
                           fetchUpdates: string -> Option<seq<SubmittedMatch.RatingUpdate>>)
    returns (r: Option<(Match, seq<SubmittedMatch.RatingUpdate>)>)
    ensures r == SubmittedMatchOf(table, board, fetchUpdates)
  {
    var ms := FilterSameLobby(table, board.matches);
    var k := 0;
    while k < |ms| && !MatchComparison.MatchesEqual(Some(ms[k]), Some(table))
      invariant 0 <= k <= |ms|
      invariant SelectedMatch(table, ms) == SelectedMatch(table, ms[k..])
    {
      assert ms[k..][1..] == ms[k + 1..];
      k := k + 1;
    }
    if k == |ms| {
      return None;
    }
    var updates := fetchUpdates(ms[k].id);
    if updates.None? {
      return None;
    }
    return Some((ms[k], updates.value));
  }

  /**
   * `_isSubmittedMatch` compares the table with the board's match and
   * `_getSubmittedMatch` the board's match with the table. The
   * comparison looks up only the first match's players in the second, so
   * a table whose players are all in a board match that has more players
   * counts as submitted, and is then not found.
   */
  lemma SubmittedYetNotFound()
    ensures exists table: Match, board: Lorenzi.BoardData ::
      Submitted(table, board) && SelectedMatch(table, SameLobbyMatches(table, board.matches)).None?
  {
    var pa := Player("a", "", [10], 10, 0, None, 1, 1);
    var pb := Player("b", "", [5], 5, 0, None, 2, 2);
    var small := Match("", "1", None, Number(7), "", "race_items_ffa", [Team("t", "", [pa], 10, 0, 0, ["t"], 1)]);
    var large := Match("", "1", None, Number(7), "", "race_items_ffa", [Team("t", "", [pa, pb], 15, 0, 0, ["t"], 1)]);
    var board := Lorenzi.BoardData([], [], false, 0.0, "elo", map[], 1, [large]);
    assert MatchComparison.FindPlayer(large.teams[0], "a") == Some(pa);
    assert MatchComparison.Corresponds(pa, large.teams);
    assert MatchComparison.MatchesEqual(Some(small), Some(large));
    assert MatchComparison.FindPlayer(small.teams[0], "b") == None;
    assert large.teams[0].players[1] == pb;
    assert !MatchComparison.Corresponds(pb, small.teams);
    assert !MatchComparison.MatchesEqual(Some(large), Some(small));
    assert SameLobbyMatches(small, board.matches) == [large];
    assert Submitted(small, board);
  }

  /**
   * The check as intended: both steps compare the board's match with the
   * table, the way `_getSubmittedMatch` selects it.
   */
  predicate SubmittedAsSelected(table: Match, board: Lorenzi.BoardData)
  {
    board.matchCount != 0 && |board.matches| != 0
    && exists m :: m in SameLobbyMatches(table, board.matches) && MatchComparison.MatchesEqual(Some(m), Some(table))
  }

  /** With the check as intended, a table counts as submitted exactly when a board match is then selected for it. */
  lemma SubmittedAsSelectedFound(table: Match, board: Lorenzi.BoardData)
    requires board.matchCount != 0 && |board.matches| != 0
    ensures SubmittedAsSelected(table, board) <==> SelectedMatch(table, SameLobbyMatches(table, board.matches)).Some?
  {
    var r := SelectedMatch(table, SameLobbyMatches(table, board.matches));
    if r.Some? {
      assert r.value in SameLobbyMatches(table, board.matches);
    }
  }

  // ---------------------------------------------------------------
  // `calculate`
  // ---------------------------------------------------------------

  /**
   * How `calculate` ends: the error type and message, what it returns
   * (None is `null`), whether it throws, whether it stores its result,
   * and the board rows a prediction leaves.
   */
  datatype Flow = Flow(errorType: int, error: string, result: Option<seq<MatchCalculation.Result>>, thrown: bool,
                       stored: bool, rows: Option<seq<Board.BoardPlayer>>)

  const ParseFailure := "Could not parse table results template."
  const BoardFailure := "Could not fetch board data from gb.lorenzi.com"
  const SubmittedFailure := "Could not calculate submitted match scores."
  const CalculationFailure := "Could not calculate scores."

  function NotFoundMessage(n: LobbyNumber): string
  {
    "Could not fetch a submitted match #" + LobbyNumberKey(n)
  }

  /** The message a prediction leaves: its own, or the one already set, after the general one. */
  function PredictionMessage(own: Option<string>, previous: string): string
  {
    var detail := if own.Some? then own.value else previous;
    CalculationFailure + (if detail != "" then " " + detail else "")
  }

  /** How the submitted-match path ends. */
  ghost function SubmittedFlow(table: Match, board: Lorenzi.BoardData, previous: string,
                               fetchUpdates: string -> Option<seq<SubmittedMatch.RatingUpdate>>): Flow
  {
    match SubmittedMatchOf(table, board, fetchUpdates)
    case None => Flow(ErrorSubmittedMatchNotFound, NotFoundMessage(table.lobbyNumber), None, false, false, None)
    case Some((m, updates)) =>
      match SubmittedMatch.SubmittedSpec(m.teams, updates, board.tiers)
      case Throws => Flow(ErrorUnset, previous, None, true, false, None)
      case Null => Flow(ErrorSubmittedMatchCalculation, SubmittedFailure, None, false, true, None)
      case Ok(rs) => Flow(ErrorUnset, previous, Some(rs), false, true, None)
  }

  /** How the prediction path ends once the prediction `p` is made. */
  function Predicting(p: Prediction.Predicted, previous: string): Flow
  {
    Flow(if p.result.None? then ErrorCalculation else ErrorUnset, PredictionMessage(p.error, previous),
         p.result, false, true, Some(p.players))
  }

  /** How the prediction path ends. */
  ghost function PredictedFlow(table: Match, template: string, board: Lorenzi.BoardData, previous: string, s: Services): Flow
    requires RatingSystems.PowersOfTen(s.maths)
  {
    Predicting(Prediction.PredictSpec(table, template, board, s.backlog, s.parse, s.maths), previous)
  }

  ghost function Outcome(text: string, parsed: Option<Match>, parseError: string, previous: string, s: Services): Flow
    requires RatingSystems.PowersOfTen(s.maths)
  {
    if parsed.None? then
      Flow(ErrorParse, ParseFailure + " " + parseError, None, false, false, None)
    else OnBoard(parsed.value, text, previous, s)
  }

  /** How `calculate` ends once the table is parsed. */
  ghost function OnBoard(table: Match, template: string, previous: string, s: Services): Flow
    requires RatingSystems.PowersOfTen(s.maths)
  {
    match s.fetchBoard(table.boardID)
    case None => Flow(ErrorLorenziBoard, BoardFailure, None, false, false, None)
    case Some(board) =>
      if Submitted(table, board) then SubmittedFlow(table, board, previous, s.fetchUpdates)
      else PredictedFlow(table, template, board, previous, s)
  }

  /** The board after `calculate` on a parsed table: a prediction leaves its rows on it. */
  function BoardAfter(fetched: Option<Lorenzi.BoardData>, f: Flow): Option<Lorenzi.BoardData>
  {
    match fetched
    case None => None
    case Some(b) => Some(if f.rows.Some? then b.(players := f.rows.value) else b)
  }

  /**
   * The table after `calculate`: a submitted match lends it its lobby type
   * and name, and a prediction leaves in its players the ratings the replay
   * wrote into them.
   */
  ghost function TableAfter(parsed: Option<Match>, template: string, s: Services): Option<Match>
    requires RatingSystems.PowersOfTen(s.maths)
  {
    if parsed.None? then None
    else
      var table := parsed.value;
      match s.fetchBoard(table.boardID)
      case None => parsed
      case Some(board) =>
        if !Submitted(table, board) then Some(Prediction.TableLeft(table, template, board, s.backlog, s.parse, s.maths))
        else
          match SubmittedMatchOf(table, board, s.fetchUpdates)
          case None => parsed
          case Some((m, _)) => Some(table.(lobbyType := m.lobbyType, lobbyName := m.lobbyName))
  }

  /** Without a throw, `calculate` returns a result exactly when it leaves the error type unset. */
  lemma ResultIffUnset(text: string, parsed: Option<Match>, parseError: string, previous: string, s: Services)
    requires RatingSystems.PowersOfTen(s.maths)
    ensures var f := Outcome(text, parsed, parseError, previous, s);
      !f.thrown ==> (f.result.Some? <==> f.errorType == ErrorUnset)
  {
  }

  /** `calculate` never sets the fatal error type itself, and throws only with the type unset. */
  lemma NeverFatal(text: string, parsed: Option<Match>, parseError: string, previous: string, s: Services)
    requires RatingSystems.PowersOfTen(s.maths)
    ensures var f := Outcome(text, parsed, parseError, previous, s);
      f.errorType in {ErrorUnset, ErrorCalculation, ErrorParse, ErrorLorenziBoard,
                      ErrorSubmittedMatchNotFound, ErrorSubmittedMatchCalculation}
      && (f.thrown ==> f.errorType == ErrorUnset && f.result.None?)
  {
    if parsed.Some? && s.fetchBoard(parsed.value.boardID).Some? {
      var table, board := parsed.value, s.fetchBoard(parsed.value.boardID).value;
      if !Submitted(table, board) {
        var p := Prediction.PredictSpec(table, text, board, s.backlog, s.parse, s.maths);
        assert Outcome(text, parsed, parseError, previous, s) == Predicting(p, previous);
      }
    }
  }

  /** A board that lacks its scheme's settings fails a prediction with that reason. */
  lemma UnsupportedSchemeFails(text: string, parsed: Option<Match>, parseError: string, previous: string, s: Services)
    requires RatingSystems.PowersOfTen(s.maths)
    requires parsed.Some? && s.fetchBoard(parsed.value.boardID).Some?
    requires var board := s.fetchBoard(parsed.value.boardID).value;
      !Submitted(parsed.value, board) && BoardSettings.SettingsKey(board.ratingScheme) !in board.schemes
    ensures Outcome(text, parsed, parseError, previous, s).errorType == ErrorCalculation
    ensures Outcome(text, parsed, parseError, previous, s).error == CalculationFailure + " " + Prediction.Unsupported
  {
    var board := s.fetchBoard(parsed.value.boardID).value;
    OutcomePredicted(text, parsed, parseError, previous, s, board);
    PredictedUnsupported(parsed.value, text, board, previous, s);
  }

  /**
   * A table the parser refuses ends with the parse error type, and the
   * message shows the parser's error as the text of the thrown `Error`:
   * the message of the header or line that failed, or "Invalid teams.".
   */
  lemma ParseErrorShown(text: string, parseError: string, previous: string, s: Services)
    requires RatingSystems.PowersOfTen(s.maths)
    requires TableParsing.ParseTable(text).Rejected? && parseError == TableParsing.ParseTable(text).error
    ensures Outcome(text, None, parseError, previous, s).errorType == ErrorParse
    ensures var r := TableParsing.ReadTable(text);
      Outcome(text, None, parseError, previous, s).error
        == ParseFailure + " " + TableParsing.Thrown(if r.Unread? then r.error else TableParsing.InvalidTeams)
  {
    TableParsing.RejectedMessage(text);
  }

  /** A parsed table on a board it was not submitted to ends on the prediction path. */
  lemma OutcomePredicted(text: string, parsed: Option<Match>, parseError: string, previous: string, s: Services,
                         board: Lorenzi.BoardData)
    requires RatingSystems.PowersOfTen(s.maths)
    requires parsed.Some? && s.fetchBoard(parsed.value.boardID) == Some(board) && !Submitted(parsed.value, board)
    ensures Outcome(text, parsed, parseError, previous, s) == PredictedFlow(parsed.value, text, board, previous, s)
  {
  }

  /** On the prediction path, an unsupported scheme is a calculation error carrying the prediction's message. */
  lemma PredictedUnsupported(table: Match, template: string, board: Lorenzi.BoardData, previous: string, s: Services)
    requires RatingSystems.PowersOfTen(s.maths)
    requires BoardSettings.SettingsKey(board.ratingScheme) !in board.schemes
    ensures PredictedFlow(table, template, board, previous, s).errorType == ErrorCalculation
    ensures PredictedFlow(table, template, board, previous, s).error == CalculationFailure + " " + Prediction.Unsupported
  {
    Prediction.UnsupportedScheme(table, template, board, s.backlog, s.parse, s.maths);
  }

  /** The parsing step of `calculate`: a fresh parser reads the template. */
  method ReadTable(text: string) returns (parsed: Option<Match>, parseError: string)
    ensures TableParsing.ParsedAs(text, parsed, parseError)
  {
    var parser := new TableParsing.TableParser();
    var read := parser.Parse(text);
    parsed := if read.Some? then Some(read.value.m) else None;
    parseError := parser.error;
  }

  /** The calculating object: what the last `calculate` left behind. */
  class Calculation {
    var errorType: int
    var error: string
    var template: string
    var table: Option<Match>
    var result: Option<seq<MatchCalculation.Result>>
    var board: Option<Lorenzi.BoardData>

    constructor()
      ensures errorType == ErrorUnset && error == "" && template == ""
      ensures table.None? && result.None? && board.None?
    {
      errorType, error, template := ErrorUnset, "", "";
      table, result, board := None, None, None;
    }

    /**
     * `calculate(text)`. `thrown` stands for the exception
     * `calculateSubmittedMatch` lets through; the error message is never
     * cleared, so a prediction's message can carry the previous one.
     */
    method Calculate(text: string, s: Services) returns (r: Option<seq<MatchCalculation.Result>>, thrown: bool, ghost parsed: Option<Match>, ghost parseError: string)
      requires RatingSystems.PowersOfTen(s.maths)
      requires forall id :: s.fetchBoard(id).Some? ==> Objects.DistinctKeys(s.fetchBoard(id).value.players, Board.RowName)
      modifies this
      ensures TableParsing.ParsedAs(text, parsed, parseError)
      ensures var f := Outcome(text, parsed, parseError, old(error), s);
        errorType == f.errorType && error == f.error && r == f.result && thrown == f.thrown
        && result == (if f.stored then r else old(result))
        && board == (if parsed.None? then old(board) else BoardAfter(s.fetchBoard(parsed.value.boardID), f))
      ensures template == text && table == TableAfter(parsed, text, s)
    {
      var read, message := ReadTable(text);
      parsed, parseError := read, message;
      r, thrown := CalculateRead(text, read, message, s);
    }

    /**
     * `calculate` given what the parser returned for `text`: reset the
     * error type, keep the template, then stop on the parser's error or go
     * on with its table. The parser touches no field, so running it first
     * changes nothing.
     */
    method CalculateRead(text: string, read: Option<Match>, message: string, s: Services)
      returns (r: Option<seq<MatchCalculation.Result>>, thrown: bool)
      requires RatingSystems.PowersOfTen(s.maths)
      requires forall id :: s.fetchBoard(id).Some? ==> Objects.DistinctKeys(s.fetchBoard(id).value.players, Board.RowName)
      modifies this
      ensures var f := Outcome(text, read, message, old(error), s);
        errorType == f.errorType && error == f.error && r == f.result && thrown == f.thrown
        && result == (if f.stored then r else old(result))
        && board == (if read.None? then old(board) else BoardAfter(s.fetchBoard(read.value.boardID), f))
      ensures template == text && table == TableAfter(read, text, s)
    {
      errorType := ErrorUnset;
      template := text;
      table := read;
      if read.None? {
        errorType := ErrorParse;
        error := ParseFailure;
        error := error + " " + message;
        return None, false;
      }
      r, thrown := CalculateParsed(read.value, s);
    }

    /** `calculate` once the table is parsed: fetch the board, then show the submitted match or predict. */
    method CalculateParsed(current: Match, s: Services) returns (r: Option<seq<MatchCalculation.Result>>, thrown: bool)
      requires errorType == ErrorUnset && table == Some(current)
      requires RatingSystems.PowersOfTen(s.maths)
      requires forall id :: s.fetchBoard(id).Some? ==> Objects.DistinctKeys(s.fetchBoard(id).value.players, Board.RowName)
      modifies this
      ensures var f := OnBoard(current, old(template), old(error), s);
        errorType == f.errorType && error == f.error && r == f.result && thrown == f.thrown
        && result == (if f.stored then r else old(result))
        && board == BoardAfter(s.fetchBoard(current.boardID), f)
      ensures template == old(template) && table == TableAfter(Some(current), old(template), s)
    {
      board := s.fetchBoard(current.boardID);
      if board.None? {
        errorType := ErrorLorenziBoard;
        error := BoardFailure;
        return None, false;
      }
      var fetched := board.value;
      var submitted := IsSubmittedMatch(current, fetched);
      if submitted {
        r, thrown := ShowSubmitted(current, fetched, s.fetchUpdates);
      } else {
        var p, left := Prediction.PredictMatch(current, template, fetched, s.backlog, s.parse, s.maths);
        r := ShowPrediction(fetched, p, left);
        thrown := false;
      }
    }

    /** The submitted-match path of `calculate`. */
    method ShowSubmitted(current: Match, fetched: Lorenzi.BoardData,
                         fetchUpdates: string -> Option<seq<SubmittedMatch.RatingUpdate>>)
      returns (r: Option<seq<MatchCalculation.Result>>, thrown: bool)
      requires errorType == ErrorUnset
      modifies this
      ensures var f := SubmittedFlow(current, fetched, old(error), fetchUpdates);
        errorType == f.errorType && error == f.error && r == f.result && thrown == f.thrown
        && result == (if f.stored then r else old(result))
      ensures table == match SubmittedMatchOf(current, fetched, fetchUpdates)
        case None => old(table)
        case Some((m, _)) => Some(current.(lobbyType := m.lobbyType, lobbyName := m.lobbyName))
      ensures template == old(template) && board == old(board)
    {
      var found := GetSubmittedMatch(current, fetched, fetchUpdates);
      if found.None? {
        errorType := ErrorSubmittedMatchNotFound;
        error := NotFoundMessage(current.lobbyNumber);
        return None, false;
      }
      var (m, updates) := found.value;
      table := Some(current.(lobbyType := m.lobbyType, lobbyName := m.lobbyName));
      var outcome := SubmittedMatch.CalculateSubmittedMatch(m.teams, updates, fetched.tiers);
      if outcome.Throws? {
        return None, true;
      }
      result := if outcome.Ok? then Some(outcome.results) else None;
      if outcome.Null? {
        errorType := ErrorSubmittedMatchCalculation;
        error := SubmittedFailure;
      }
      return result, false;
    }

    /**
     * The prediction path of `calculate`, once the prediction `p` is made
     * and the replay has left the table as `left`.
     */
    method ShowPrediction(fetched: Lorenzi.BoardData, p: Prediction.Predicted, left: Match)
      returns (r: Option<seq<MatchCalculation.Result>>)
      requires errorType == ErrorUnset
      modifies this
      ensures var f := Predicting(p, old(error));
        errorType == f.errorType && error == f.error && r == f.result && result == r
        && board == Some(fetched.(players := f.rows.value))
      ensures template == old(template) && table == Some(left)
    {
      table := Some(left);
      board := Some(fetched.(players := p.players));
      if p.error.Some? {
        error := p.error.value;
      }
      result := p.result;
      if result.None? && errorType == ErrorUnset {
        errorType := ErrorCalculation;
      }
      error := CalculationFailure + (if error != "" then " " + error else "");
      r := result;
    }
  }
}
