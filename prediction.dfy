// `_predictMatch` of utils/scores_calculation/scores_calculation.js: the
// results submissions still waiting in the channel, the current table and
// the board's latest match decide which matches are replayed; they are
// thinned by lobby number, every player is seeded with a rating, and the
// matches are calculated one after the other, each one's final ratings
// seeding the next, the board rows updated after each.
module Prediction {
  import opened Wrappers
  import opened Records
  import Strings
  import Objects
  import Lobby
  import MatchComparison
  import Dedup
  import Board
  import MatchCalculation
  import RatingSystems
  import Lorenzi
  import BoardSettings

  /** A results submission of the channel: its template text and when it was posted, in milliseconds. */
  datatype Submission = Submission(message: string, datetime: int)

  /** A match kept for the replay, under the property the blanked text of its template names. */
  datatype Candidate = Candidate(key: string, m: Match)

  function KeyOf(c: Candidate): string
  {
    c.key
  }

  /** `message.replace(/\s/g, ' ')`. */
  function CacheKey(message: string): string
  {
    Strings.BlankSpaces(message)
  }

  /** `_getLatestSubmittedMatch`: the board's newest match, when it has any. */
  function LatestSubmitted(board: Lorenzi.BoardData): (r: Option<Match>)
    ensures r.Some? <==> board.matchCount > 0 && |board.matches| > 0
    ensures r.Some? ==> r.value == board.matches[0]
  {
    if board.matchCount > 0 && |board.matches| > 0 then Some(board.matches[0]) else None
  }

  /**
   * When the latest match was played: its play date when positive, else
   * `new Date(match.date)`; the board's matches have no `date`, so that
   * date is invalid, and an invalid date compares false with everything.
   */
  function LatestDate(latest: Option<Match>): (r: Option<int>)
    ensures r.Some? ==> latest.Some? && r.value > 0
  {
    if latest.Some? && latest.value.playDate.Some? && latest.value.playDate.value > 0 then latest.value.playDate else None
  }

  /**
   * The fallback as evidently intended: the creation date the board query
   * fetches with each match (`createDate`), which `_parseMatches` does not
   * carry into the match it stores.
   */
  function LatestDateCreated(latest: Option<Match>, created: Option<int>): (r: Option<int>)
    ensures latest.Some? && created.Some? ==> r.Some?
    ensures r.Some? ==> latest.Some?
  {
    if latest.None? then None
    else if latest.value.playDate.Some? && latest.value.playDate.value > 0 then latest.value.playDate
    else created
  }

  /**
   * A latest match without a positive play date gives no date as written,
   * so the lower bound of the submissions window is lost; the intended
   * fallback keeps it at the match's creation date.
   */
  lemma UndatedLatestUnbounded(m: Match, created: int)
    requires m.playDate.None? || m.playDate.value <= 0
    ensures LatestDate(Some(m)).None?
    ensures LatestDateCreated(Some(m), Some(created)) == Some(created)
  {
  }

  // ---------------------------------------------------------------
  // The first loop: the cache, and when the current match was posted
  // ---------------------------------------------------------------

  /** The first submission whose parse the current table equals. */
  function FirstEqual(backlog: seq<Submission>, parse: string -> Option<Match>, table: Match): (r: Option<nat>)
    ensures r.Some? ==> r.value < |backlog| && MatchComparison.MatchesEqual(Some(table), parse(backlog[r.value].message))
    ensures forall k :: 0 <= k < |backlog| && (r.None? || k < r.value) ==>
      !MatchComparison.MatchesEqual(Some(table), parse(backlog[k].message))
  {
    if backlog == [] then None
    else if MatchComparison.MatchesEqual(Some(table), parse(backlog[0].message)) then Some(0)
    else
      match FirstEqual(backlog[1..], parse, table)
      case None => None
      case Some(k) => Some(k + 1)
  }

  /** The submissions the first loop reads before it stops. */
  function Scanned(backlog: seq<Submission>, parse: string -> Option<Match>, table: Match): seq<Submission>
  {
    match FirstEqual(backlog, parse, table)
    case None => backlog
    case Some(k) => backlog[..k + 1]
  }

  /** When the current match was posted, when it was. */
  function CurrentDate(backlog: seq<Submission>, parse: string -> Option<Match>, table: Match): Option<int>
  {
    match FirstEqual(backlog, parse, table)
    case None => None
    case Some(k) => Some(backlog[k].datetime)
  }

  /** The parse cache: the last submission with a given key decides its entry. */
  function Cache(subs: seq<Submission>, parse: string -> Option<Match>): map<string, Option<Match>>
  {
    if subs == [] then map[]
    else Cache(subs[..|subs| - 1], parse)[CacheKey(subs[|subs| - 1].message) := parse(subs[|subs| - 1].message)]
  }

  /** Every entry of the cache is the parse of a submission read. */
  lemma {:induction false} CacheFaithful(subs: seq<Submission>, parse: string -> Option<Match>, key: string)
    requires key in Cache(subs, parse)
    ensures exists k :: 0 <= k < |subs| && CacheKey(subs[k].message) == key && Cache(subs, parse)[key] == parse(subs[k].message)
  {
    var init, last := subs[..|subs| - 1], subs[|subs| - 1];
    if key != CacheKey(last.message) {
      CacheFaithful(init, parse, key);
      var k :| 0 <= k < |init| && CacheKey(init[k].message) == key && Cache(init, parse)[key] == parse(init[k].message);
      assert subs[k] == init[k];
    }
  }

  /** The first loop. */
  method ScanBacklog(backlog: seq<Submission>, parse: string -> Option<Match>, table: Match)
    returns (cache: map<string, Option<Match>>, current: Option<int>)
    ensures cache == Cache(Scanned(backlog, parse, table), parse)
    ensures current == CurrentDate(backlog, parse, table)
  {
    cache, current := map[], None;
    var k := 0;
    while k < |backlog| && current.None?
      invariant 0 <= k <= |backlog|
      invariant cache == Cache(backlog[..k], parse)
      invariant current.None? ==> forall l :: 0 <= l < k ==> !MatchComparison.MatchesEqual(Some(table), parse(backlog[l].message))
      invariant current.Some? ==> (0 < k && current == Some(backlog[k - 1].datetime)
        && MatchComparison.MatchesEqual(Some(table), parse(backlog[k - 1].message))
        && forall l :: 0 <= l < k - 1 ==> !MatchComparison.MatchesEqual(Some(table), parse(backlog[l].message)))
    {
      var parsed := parse(backlog[k].message);
      assert backlog[..k + 1][..k] == backlog[..k];
      cache := cache[CacheKey(backlog[k].message) := parsed];
      if parsed.Some? {
        var equal := MatchComparison.AreMatchesEqual(Some(table), parsed);
        if equal {
          current := Some(backlog[k].datetime);
        }
      }
      k := k + 1;
    }
    if current.None? {
      assert backlog[..k] == backlog;
    }
  }

  // ---------------------------------------------------------------
  // The second loop: which submissions become candidates
  // ---------------------------------------------------------------

  /** What the second loop works with. */
  datatype Context = Context(
    parse: string -> Option<Match>,
    cache: map<string, Option<Match>>,
    table: Match,
    latest: Option<Match>,
    latestDate: Option<int>,
    current: Option<int>)

  /** A submission's parse, from the cache when the cache has its key. */
  function Parsed(c: Context, s: Submission): Option<Match>
  {
    var key := CacheKey(s.message);
    if key in c.cache then c.cache[key] else c.parse(s.message)
  }

  /**
   * The filters a parsed submission must pass: same board as the table,
   * neither the board's latest match nor the table itself, posted no
   * earlier than the latest match was played and no later than the table
   * was posted.
   */
  predicate Passes(c: Context, s: Submission, m: Match)
  {
    m.boardID == c.table.boardID
    && !(c.latest.Some? && MatchComparison.MatchesEqual(Some(m), c.latest))
    && !MatchComparison.MatchesEqual(Some(m), Some(c.table))
    && !(c.latestDate.Some? && s.datetime < c.latestDate.value)
    && !(c.current.Some? && s.datetime > c.current.value)
  }

  /** A submission is taken when it parses, its key is new, and it passes the filters. */
  predicate Admitted(c: Context, s: Submission, picked: seq<Candidate>)
  {
    Parsed(c, s).Some? && Objects.Find(picked, KeyOf, CacheKey(s.message)).None? && Passes(c, s, Parsed(c, s).value)
  }

  function Collect(c: Context, backlog: seq<Submission>): seq<Candidate>
  {
    if backlog == [] then []
    else
      var picked := Collect(c, backlog[..|backlog| - 1]);
      var s := backlog[|backlog| - 1];
      if Admitted(c, s, picked) then picked + [Candidate(CacheKey(s.message), Parsed(c, s).value)] else picked
  }

  /** The table joins the candidates under the template's key unless that key is taken. */
  function WithTemplate(picked: seq<Candidate>, template: string, table: Match): (r: seq<Candidate>)
    ensures r != []
  {
    if Objects.Find(picked, KeyOf, CacheKey(template)).Some? then picked else picked + [Candidate(CacheKey(template), table)]
  }

  /** The candidate came from a submission of the backlog that passed the filters. */
  predicate FromBacklog(c: Context, backlog: seq<Submission>, x: Candidate)
  {
    exists k :: 0 <= k < |backlog| && x.key == CacheKey(backlog[k].message)
      && Parsed(c, backlog[k]) == Some(x.m) && Passes(c, backlog[k], x.m)
  }

  /** Every candidate is a submission that passed the filters, and no key is taken twice. */
  lemma {:induction false} CollectSound(c: Context, backlog: seq<Submission>)
    ensures Objects.DistinctKeys(Collect(c, backlog), KeyOf)
    ensures forall x :: x in Collect(c, backlog) ==> FromBacklog(c, backlog, x)
  {
    if backlog != [] {
      var init, s := backlog[..|backlog| - 1], backlog[|backlog| - 1];
      CollectSound(c, init);
      var picked := Collect(c, init);
      forall x | x in Collect(c, backlog) ensures FromBacklog(c, backlog, x) {
        if x in picked {
          var k :| 0 <= k < |init| && x.key == CacheKey(init[k].message) && Parsed(c, init[k]) == Some(x.m) && Passes(c, init[k], x.m);
          assert backlog[k] == init[k];
        } else {
          assert backlog[|backlog| - 1] == s;
        }
      }
    }
  }

  /** When the template's key is free, the table is the last candidate. */
  lemma TemplateLast(picked: seq<Candidate>, template: string, table: Match)
    requires Objects.Find(picked, KeyOf, CacheKey(template)).None?
    ensures WithTemplate(picked, template, table)[|WithTemplate(picked, template, table)| - 1].m == table
  {
  }

  function Matches(cs: seq<Candidate>): (ms: seq<Match>)
    ensures |ms| == |cs| && forall k :: 0 <= k < |cs| ==> ms[k] == cs[k].m
  {
    seq(|cs|, k requires 0 <= k < |cs| => cs[k].m)
  }

  /** The context of the second loop. */
  function ContextOf(table: Match, board: Lorenzi.BoardData, backlog: seq<Submission>, parse: string -> Option<Match>): Context
  {
    var latest := LatestSubmitted(board);
    Context(parse, Cache(Scanned(backlog, parse, table), parse), table, latest, LatestDate(latest), CurrentDate(backlog, parse, table))
  }

  /** The candidates of the backlog, with the table. */
  function Candidates(table: Match, template: string, board: Lorenzi.BoardData,
                      backlog: seq<Submission>, parse: string -> Option<Match>): seq<Candidate>
  {
    WithTemplate(Collect(ContextOf(table, board, backlog, parse), backlog), template, table)
  }

  /** The second loop. */
  method CollectCandidates(c: Context, backlog: seq<Submission>) returns (picked: seq<Candidate>)
    ensures picked == Collect(c, backlog)
  {
    picked := [];
    for k := 0 to |backlog|
      invariant picked == Collect(c, backlog[..k])
    {
      assert backlog[..k + 1][..k] == backlog[..k];
      var s := backlog[k];
      var key := CacheKey(s.message);
      var parsed := if key in c.cache then c.cache[key] else c.parse(s.message);
      var admit := parsed.Some? && Objects.Find(picked, KeyOf, key).None? && parsed.value.boardID == c.table.boardID;
      if admit && c.latest.Some? {
        var equal := MatchComparison.AreMatchesEqual(parsed, c.latest);
        admit := !equal;
      }
      if admit {
        var equal := MatchComparison.AreMatchesEqual(parsed, Some(c.table));
        admit := !equal;
      }
      if admit && c.latestDate.Some? && s.datetime < c.latestDate.value {
        admit := false;
      }
      if admit && c.current.Some? && s.datetime > c.current.value {
        admit := false;
      }
      if admit {
        picked := picked + [Candidate(key, parsed.value)];
      }
    }
    assert backlog[..|backlog|] == backlog;
  }

  /** The table joins the candidates: no submission of the backlog took the template's key. */
  predicate TableAdded(table: Match, template: string, board: Lorenzi.BoardData,
                       backlog: seq<Submission>, parse: string -> Option<Match>)
  {
    Objects.Find(Collect(ContextOf(table, board, backlog, parse), backlog), KeyOf, CacheKey(template)).None?
  }

  method GatherCandidates(table: Match, template: string, board: Lorenzi.BoardData,
                          backlog: seq<Submission>, parse: string -> Option<Match>) returns (cs: seq<Candidate>, added: bool)
    ensures cs == Candidates(table, template, board, backlog, parse)
    ensures added == TableAdded(table, template, board, backlog, parse)
  {
    var latest := LatestSubmitted(board);
    var cache, current := ScanBacklog(backlog, parse, table);
    var picked := CollectCandidates(Context(parse, cache, table, latest, LatestDate(latest), current), backlog);
    cs := picked;
    added := Objects.Find(picked, KeyOf, CacheKey(template)).None?;
    if added {
      cs := picked + [Candidate(CacheKey(template), table)];
    }
  }

  // ---------------------------------------------------------------
  // Seeding the ratings
  // ---------------------------------------------------------------

  function PlayerNames(ps: seq<Player>): set<string>
  {
    set p | p in ps :: p.name
  }

  function TeamNames(ts: seq<Team>): set<string>
  {
    set t, p | t in ts && p in t.players :: p.name
  }

  /** The name of every player of every match. */
  function NamesIn(ms: seq<Match>): set<string>
  {
    set m, t, p | m in ms && t in m.teams && p in t.players :: p.name
  }

  /** `board.players.find(row => row.name === name)`'s rating, or the scheme's initial rating. */
  function BoardRatingOr(board: seq<Board.BoardPlayer>, name: string, initial: real): real
  {
    match Objects.Get(board, Board.RowName, name)
    case Some(row) => row.rating
    case None => initial
  }

  /** Every player starts at the rating of their first board row, or at the initial rating. */
  function Seeded(ms: seq<Match>, initial: real, board: seq<Board.BoardPlayer>): (r: map<string, real>)
    ensures r.Keys == NamesIn(ms)
  {
    FromBoard(NamesIn(ms), initial, board)
  }

  function FromBoard(names: set<string>, initial: real, board: seq<Board.BoardPlayer>): (r: map<string, real>)
    ensures r.Keys == names
  {
    map n | n in names :: BoardRatingOr(board, n, initial)
  }

  /** A seeded player without a row is at the initial rating; one with rows is at the first row's. */
  lemma SeededRatings(ms: seq<Match>, initial: real, board: seq<Board.BoardPlayer>, n: string)
    requires n in NamesIn(ms)
    ensures Objects.Find(board, Board.RowName, n).None? ==> Seeded(ms, initial, board)[n] == initial
    ensures Objects.Find(board, Board.RowName, n).Some? ==>
      Seeded(ms, initial, board)[n] == board[Objects.Find(board, Board.RowName, n).value].rating
      && forall k :: 0 <= k < Objects.Find(board, Board.RowName, n).value ==> board[k].name != n
  {
  }

  method SeedPlayers(ratings: map<string, real>, ps: seq<Player>, initial: real) returns (r: map<string, real>)
    requires forall n :: n in ratings ==> ratings[n] == initial
    ensures r.Keys == ratings.Keys + PlayerNames(ps)
    ensures forall n :: n in r ==> r[n] == initial
  {
    r := ratings;
    for j := 0 to |ps|
      invariant r.Keys == ratings.Keys + PlayerNames(ps[..j])
      invariant forall n :: n in r ==> r[n] == initial
    {
      assert PlayerNames(ps[..j + 1]) == PlayerNames(ps[..j]) + {ps[j].name} by {
        assert ps[..j + 1] == ps[..j] + [ps[j]];
      }
      r := r[ps[j].name := initial];
    }
    assert ps[..|ps|] == ps;
  }

  method SeedTeams(ratings: map<string, real>, ts: seq<Team>, initial: real) returns (r: map<string, real>)
    requires forall n :: n in ratings ==> ratings[n] == initial
    ensures r.Keys == ratings.Keys + TeamNames(ts)
    ensures forall n :: n in r ==> r[n] == initial
  {
    r := ratings;
    for a := 0 to |ts|
      invariant r.Keys == ratings.Keys + TeamNames(ts[..a])
      invariant forall n :: n in r ==> r[n] == initial
    {
      assert TeamNames(ts[..a + 1]) == TeamNames(ts[..a]) + PlayerNames(ts[a].players) by {
        assert ts[..a + 1] == ts[..a] + [ts[a]];
      }
      r := SeedPlayers(r, ts[a].players, initial);
    }
    assert ts[..|ts|] == ts;
  }

  lemma NamesInSnoc(ms: seq<Match>, i: nat)
    requires i < |ms|
    ensures NamesIn(ms[..i + 1]) == NamesIn(ms[..i]) + TeamNames(ms[i].teams)
  {
    assert ms[..i + 1] == ms[..i] + [ms[i]];
  }

  /** The first seeding loop: every player at the initial rating. */
  method SeedInitial(ms: seq<Match>, initial: real) returns (ratings: map<string, real>)
    ensures ratings.Keys == NamesIn(ms)
    ensures forall n :: n in ratings ==> ratings[n] == initial
  {
    ratings := map[];
    for i := 0 to |ms|
      invariant ratings.Keys == NamesIn(ms[..i])
      invariant forall n :: n in ratings ==> ratings[n] == initial
    {
      NamesInSnoc(ms, i);
      ratings := SeedTeams(ratings, ms[i].teams, initial);
    }
    assert ms[..|ms|] == ms;
  }

  /** The second seeding loop: a player with a board row takes the row's rating. */
  method SeedFromBoard(ratings: map<string, real>, initial: real, board: seq<Board.BoardPlayer>) returns (r: map<string, real>)
    requires forall n :: n in ratings ==> ratings[n] == initial
    ensures r == FromBoard(ratings.Keys, initial, board)
  {
    r := ratings;
    var todo := ratings.Keys;
    while todo != {}
      invariant todo <= r.Keys && r.Keys == ratings.Keys
      invariant forall n :: n in todo ==> r[n] == initial
      invariant forall n :: n in r.Keys - todo ==> r[n] == BoardRatingOr(board, n, initial)
      decreases |todo|
    {
      var n :| n in todo;
      var row := Objects.Get(board, Board.RowName, n);
      if row.Some? {
        r := r[n := row.value.rating];
      }
      todo := todo - {n};
    }
    assert forall n :: n in r ==> r[n] == FromBoard(ratings.Keys, initial, board)[n];
  }

  /** The two seeding loops: every player at the initial rating, then at their board rating. */
  method SeedRatings(ms: seq<Match>, initial: real, board: seq<Board.BoardPlayer>) returns (ratings: map<string, real>)
    ensures ratings == Seeded(ms, initial, board)
  {
    ratings := SeedInitial(ms, initial);
    ratings := SeedFromBoard(ratings, initial, board);
  }

  // ---------------------------------------------------------------
  // The replay
  // ---------------------------------------------------------------

  /** `player.boardRating = parseFloat(playersRatings[player.name])`, for every player of the match. */
  function WithRatings(teams: seq<Team>, ratings: map<string, real>): (r: seq<Team>)
    ensures |r| == |teams|
  {
    seq(|teams|, a requires 0 <= a < |teams| =>
      teams[a].(players := seq(|teams[a].players|, j requires 0 <= j < |teams[a].players| =>
        var p := teams[a].players[j];
        p.(boardRating := if p.name in ratings then Some(ratings[p.name]) else None))))
  }

  /** Every player's rating is read off the map, and only ratings change. */
  lemma WithRatingsReads(teams: seq<Team>, ratings: map<string, real>, a: nat, j: nat)
    requires a < |teams| && j < |teams[a].players| && teams[a].players[j].name in ratings
    ensures var p := WithRatings(teams, ratings)[a].players[j];
      p.boardRating == Some(ratings[teams[a].players[j].name]) && p == teams[a].players[j].(boardRating := p.boardRating)
  {
  }

  /** `playersRatings[name] = finalRating` for every result. */
  function Rerate(ratings: map<string, real>, rs: seq<MatchCalculation.Result>): (r: map<string, real>)
    ensures r.Keys == ratings.Keys + set x | x in rs :: x.name
  {
    if rs == [] then ratings
    else
      var init := rs[..|rs| - 1];
      assert rs == init + [rs[|rs| - 1]];
      Rerate(ratings, init)[rs[|rs| - 1].name := rs[|rs| - 1].finalRating]
  }

  /** With distinct names, each result's player now has the result's final rating. */
  lemma {:induction false} RerateFinal(ratings: map<string, real>, rs: seq<MatchCalculation.Result>, i: nat)
    requires Objects.DistinctKeys(rs, MatchCalculation.NameOf) && i < |rs|
    ensures Rerate(ratings, rs)[rs[i].name] == rs[i].finalRating
  {
    var init := rs[..|rs| - 1];
    if i < |rs| - 1 {
      assert MatchCalculation.NameOf(rs[i]) != MatchCalculation.NameOf(rs[|rs| - 1]);
      assert init[i] == rs[i];
      RerateFinal(ratings, init, i);
    }
  }

  /** The names of the results without a board row: `newPlayers`. */
  function Fresh(rs: seq<MatchCalculation.Result>, board: seq<Board.BoardPlayer>): (names: seq<string>)
    ensures forall n :: n in names ==> n !in Board.RowNames(board)
  {
    if rs == [] then []
    else
      var name := rs[|rs| - 1].name;
      Fresh(rs[..|rs| - 1], board) + (if name in Board.RowNames(board) then [] else [name])
  }

  /** The state between two matches of the replay. */
  datatype Replay =
    | Replayed(ratings: map<string, real>, board: seq<Board.BoardPlayer>, result: Option<seq<MatchCalculation.Result>>)
    | Failed(lobbyType: string, board: seq<Board.BoardPlayer>)

  /** One match: calculate it at the current ratings, carry its final ratings, update the board. */
  ghost function Step(st: Replay, m: Match, settings: RatingSystems.Settings, maths: RatingSystems.Maths,
                      tiers: seq<MatchCalculation.Tier>): Replay
    requires settings.scheme == Lobby.SchemeElo ==> RatingSystems.PowersOfTen(maths)
  {
    match st
    case Failed(_, _) => st
    case Replayed(ratings, board, _) =>
      match MatchCalculation.CalculateSpec(settings, WithRatings(m.teams, ratings), m.lobbyType, maths, tiers)
      case None => Failed(m.lobbyType, board)
      case Some(rs) =>
        var rows := board + Board.NewRows(rs, board);
        var pushed := Board.Pushed(Some(Fresh(rs, board)), rs, rows);
        Replayed(Rerate(ratings, rs), Board.RankedBoard(rows, rs), Some(Board.RankedResults(rows, rs, pushed)))
  }

  ghost function ReplayAll(ms: seq<Match>, st: Replay, settings: RatingSystems.Settings, maths: RatingSystems.Maths,
                           tiers: seq<MatchCalculation.Tier>): Replay
    requires settings.scheme == Lobby.SchemeElo ==> RatingSystems.PowersOfTen(maths)
  {
    if ms == [] then st else Step(ReplayAll(ms[..|ms| - 1], st, settings, maths, tiers), ms[|ms| - 1], settings, maths, tiers)
  }

  /** A failure ends the replay: the rest of the matches change nothing. */
  lemma {:induction false} FailureStops(ms: seq<Match>, i: nat, st: Replay, settings: RatingSystems.Settings,
                                        maths: RatingSystems.Maths, tiers: seq<MatchCalculation.Tier>)
    requires settings.scheme == Lobby.SchemeElo ==> RatingSystems.PowersOfTen(maths)
    requires i <= |ms| && ReplayAll(ms[..i], st, settings, maths, tiers).Failed?
    ensures ReplayAll(ms, st, settings, maths, tiers) == ReplayAll(ms[..i], st, settings, maths, tiers)
  {
    if i < |ms| {
      var init := ms[..|ms| - 1];
      assert init[..i] == ms[..i];
      FailureStops(init, i, st, settings, maths, tiers);
      var before := ReplayAll(init, st, settings, maths, tiers);
      assert before.Failed?;
      assert ReplayAll(ms, st, settings, maths, tiers) == Step(before, ms[|ms| - 1], settings, maths, tiers);
    } else {
      assert ms[..i] == ms;
    }
  }

  /** A replay of at least one match ends with a result or with a failure. */
  lemma ReplayEnds(ms: seq<Match>, st: Replay, settings: RatingSystems.Settings,
                   maths: RatingSystems.Maths, tiers: seq<MatchCalculation.Tier>)
    requires settings.scheme == Lobby.SchemeElo ==> RatingSystems.PowersOfTen(maths)
    requires ms != []
    ensures var end := ReplayAll(ms, st, settings, maths, tiers); end.Failed? || end.result.Some?
  {
  }

  /** A replay loses no player's rating: the players rated before are rated after. */
  lemma {:induction false} ReplayKeepsRatings(ms: seq<Match>, st: Replay, settings: RatingSystems.Settings,
                                              maths: RatingSystems.Maths, tiers: seq<MatchCalculation.Tier>)
    requires settings.scheme == Lobby.SchemeElo ==> RatingSystems.PowersOfTen(maths)
    requires st.Replayed? && ReplayAll(ms, st, settings, maths, tiers).Replayed?
    ensures st.ratings.Keys <= ReplayAll(ms, st, settings, maths, tiers).ratings.Keys
  {
    if ms != [] {
      var before := ReplayAll(ms[..|ms| - 1], st, settings, maths, tiers);
      assert before.Replayed?;
      ReplayKeepsRatings(ms[..|ms| - 1], st, settings, maths, tiers);
    }
  }

  /** A match as the replay leaves it once it reaches it in state `st`: a failure before it leaves it alone. */
  function RatedMatch(st: Replay, m: Match): Match
  {
    if st.Replayed? then m.(teams := WithRatings(m.teams, st.ratings)) else m
  }

  /**
   * The matches as the replay leaves them. Before calculating a match the
   * loop writes the current rating of each of its players into the
   * player's `boardRating`; the matches after a failure are never reached.
   */
  ghost function Written(ms: seq<Match>, st: Replay, settings: RatingSystems.Settings, maths: RatingSystems.Maths,
                         tiers: seq<MatchCalculation.Tier>): (r: seq<Match>)
    requires settings.scheme == Lobby.SchemeElo ==> RatingSystems.PowersOfTen(maths)
    ensures |r| == |ms|
  {
    if ms == [] then []
    else
      var init := ms[..|ms| - 1];
      Written(init, st, settings, maths, tiers) + [RatedMatch(ReplayAll(init, st, settings, maths, tiers), ms[|ms| - 1])]
  }

  /**
   * Each match is left with the ratings of the replay just before its own
   * step, and left alone when an earlier match failed; nothing but its
   * players' ratings changes.
   */
  lemma {:induction false} WrittenAt(ms: seq<Match>, st: Replay, settings: RatingSystems.Settings,
                                     maths: RatingSystems.Maths, tiers: seq<MatchCalculation.Tier>, i: nat)
    requires settings.scheme == Lobby.SchemeElo ==> RatingSystems.PowersOfTen(maths)
    requires i < |ms|
    ensures var before := ReplayAll(ms[..i], st, settings, maths, tiers);
      Written(ms, st, settings, maths, tiers)[i]
        == (if before.Replayed? then ms[i].(teams := WithRatings(ms[i].teams, before.ratings)) else ms[i])
    decreases |ms|
  {
    var init := ms[..|ms| - 1];
    if i < |ms| - 1 {
      WrittenAt(init, st, settings, maths, tiers, i);
      assert init[..i] == ms[..i] && init[i] == ms[i];
    } else {
      assert init == ms[..i];
    }
  }

  /** Once the replay has failed, the matches after the failure are left as they were. */
  lemma {:induction false} WrittenAfterFailure(ms: seq<Match>, j: nat, st: Replay, settings: RatingSystems.Settings,
                                               maths: RatingSystems.Maths, tiers: seq<MatchCalculation.Tier>)
    requires settings.scheme == Lobby.SchemeElo ==> RatingSystems.PowersOfTen(maths)
    requires j <= |ms| && ReplayAll(ms[..j], st, settings, maths, tiers).Failed?
    ensures Written(ms, st, settings, maths, tiers) == Written(ms[..j], st, settings, maths, tiers) + ms[j..]
    decreases |ms|
  {
    if j == |ms| {
      assert ms[..j] == ms && ms[j..] == [];
    } else {
      var init := ms[..|ms| - 1];
      assert init[..j] == ms[..j];
      WrittenAfterFailure(init, j, st, settings, maths, tiers);
      FailureStops(init, j, st, settings, maths, tiers);
      assert ms[j..] == init[j..] + [ms[|ms| - 1]];
    }
  }

  /** The rows' names survive the rankings, so distinct rows stay distinct. */
  lemma RankedBoardDistinct(board: seq<Board.BoardPlayer>, rs: seq<MatchCalculation.Result>)
    requires Objects.DistinctKeys(board, Board.RowName)
    ensures Objects.DistinctKeys(Board.RankedBoard(board, rs), Board.RowName)
  {
    var rows := Board.RankedBoard(board, rs);
    assert forall k :: 0 <= k < |board| ==> Board.RowName(rows[k]) == Board.RowName(board[k]);
  }

  method RerateAll(ratings: map<string, real>, rs: seq<MatchCalculation.Result>) returns (r: map<string, real>)
    ensures r == Rerate(ratings, rs)
  {
    r := ratings;
    for j := 0 to |rs|
      invariant r == Rerate(ratings, rs[..j])
    {
      assert rs[..j + 1][..j] == rs[..j];
      r := r[rs[j].name := rs[j].finalRating];
    }
    assert rs[..|rs|] == rs;
  }

  method FreshNames(rs: seq<MatchCalculation.Result>, board: seq<Board.BoardPlayer>) returns (names: seq<string>)
    ensures names == Fresh(rs, board)
  {
    var boardPlayers := Board.RowNames(board);
    names := [];
    for j := 0 to |rs|
      invariant names == Fresh(rs[..j], board)
    {
      assert rs[..j + 1][..j] == rs[..j];
      if rs[j].name !in boardPlayers {
        names := names + [rs[j].name];
      }
    }
    assert rs[..|rs|] == rs;
  }

  /** One pass of the replay loop. */
  method ReplayOne(m: Match, ratings: map<string, real>, settings: RatingSystems.Settings, maths: RatingSystems.Maths,
                   tiers: seq<MatchCalculation.Tier>, lb: Board.Leaderboard, ghost st: Replay) returns (next: Replay)
    requires settings.scheme == Lobby.SchemeElo ==> RatingSystems.PowersOfTen(maths)
    requires Objects.DistinctKeys(lb.players, Board.RowName)
    requires st.Replayed? && st.ratings == ratings && st.board == lb.players
    modifies lb
    ensures next == Step(st, m, settings, maths, tiers)
    ensures lb.players == next.board && Objects.DistinctKeys(lb.players, Board.RowName)
  {
    var teams := WithRatings(m.teams, ratings);
    var calculated := MatchCalculation.Calculate(settings, teams, m.lobbyType, maths, tiers);
    if calculated.None? {
      return Failed(m.lobbyType, lb.players);
    }
    var rs := calculated.value;
    MatchCalculation.CalculateResults(settings, teams, m.lobbyType, maths, tiers);
    var rated := RerateAll(ratings, rs);
    var board := lb.players;
    var newPlayers := FreshNames(rs, board);
    lb.CalculateBoardRatings(rs);
    Board.BoardRatings(rs, board);
    var rows := lb.players;
    var ranked, pushed := lb.CalculateBoardRankings(rs, Some(newPlayers));
    RankedBoardDistinct(rows, rs);
    next := Replayed(rated, lb.players, Some(ranked));
  }

  /** One more match replays one more step. */
  lemma ReplayAllNext(ms: seq<Match>, i: nat, st: Replay, settings: RatingSystems.Settings,
                      maths: RatingSystems.Maths, tiers: seq<MatchCalculation.Tier>)
    requires settings.scheme == Lobby.SchemeElo ==> RatingSystems.PowersOfTen(maths)
    requires i < |ms|
    ensures ReplayAll(ms[..i + 1], st, settings, maths, tiers)
      == Step(ReplayAll(ms[..i], st, settings, maths, tiers), ms[i], settings, maths, tiers)
  {
    assert ms[..i + 1][..i] == ms[..i];
  }

  /**
   * The replay loop, stopping at the first match that cannot be calculated;
   * `written` holds the matches with the ratings the loop wrote into them.
   */
  method ReplayMatches(ms: seq<Match>, ratings: map<string, real>, settings: RatingSystems.Settings,
                       maths: RatingSystems.Maths, tiers: seq<MatchCalculation.Tier>, lb: Board.Leaderboard)
    returns (outcome: Replay, written: seq<Match>)
    requires settings.scheme == Lobby.SchemeElo ==> RatingSystems.PowersOfTen(maths)
    requires Objects.DistinctKeys(lb.players, Board.RowName)
    modifies lb
    ensures outcome == ReplayAll(ms, Replayed(ratings, old(lb.players), None), settings, maths, tiers)
    ensures written == Written(ms, Replayed(ratings, old(lb.players), None), settings, maths, tiers)
    ensures lb.players == outcome.board
  {
    outcome := Replayed(ratings, lb.players, None);
    ghost var start := outcome;
    written := [];
    var i := 0;
    while i < |ms|
      invariant 0 <= i <= |ms|
      invariant outcome == ReplayAll(ms[..i], start, settings, maths, tiers)
      invariant written == Written(ms[..i], start, settings, maths, tiers)
      invariant outcome.Replayed? && lb.players == outcome.board
      invariant Objects.DistinctKeys(lb.players, Board.RowName)
    {
      assert ms[..i + 1][..i] == ms[..i];
      written := written + [ms[i].(teams := WithRatings(ms[i].teams, outcome.ratings))];
      var next := ReplayOne(ms[i], outcome.ratings, settings, maths, tiers, lb, outcome);
      ReplayAllNext(ms, i, start, settings, maths, tiers);
      if next.Failed? {
        FailureStops(ms, i + 1, start, settings, maths, tiers);
        WrittenAfterFailure(ms, i + 1, start, settings, maths, tiers);
        return next, written + ms[i + 1..];
      }
      outcome := next;
      i := i + 1;
    }
    assert ms[..i] == ms;
  }

  // ---------------------------------------------------------------
  // `_predictMatch` as a whole
  // ---------------------------------------------------------------

  /**
   * What the prediction leaves: the result (None is `null`), the message
   * it sets when it sets one, and the board's rows after the replay.
   */
  datatype Predicted = Predicted(result: Option<seq<MatchCalculation.Result>>, error: Option<string>,
                                 players: seq<Board.BoardPlayer>)

  const NoMatches := "No matches found."
  const Unsupported := "Board contains unsupported rating scheme"

  function FailureMessage(lobbyType: string): string
  {
    "Could not calculate match #" + lobbyType + " results."
  }

  /** The matches replayed, in order. */
  function Replayable(table: Match, template: string, board: Lorenzi.BoardData,
                      backlog: seq<Submission>, parse: string -> Option<Match>): seq<Match>
  {
    Dedup.Thinned(Matches(Candidates(table, template, board, backlog, parse)))
  }

  /** The prediction made by replaying `ms`, in order. */
  ghost function PredictOn(ms: seq<Match>, board: Lorenzi.BoardData, maths: RatingSystems.Maths): Predicted
    requires board.ratingScheme == Lobby.SchemeElo ==> RatingSystems.PowersOfTen(maths)
  {
    if ms == [] then Predicted(None, Some(NoMatches), board.players)
    else
      match BoardSettings.RatingSettings(board)
      case None => Predicted(None, Some(Unsupported), board.players)
      case Some(settings) =>
        var start := Replayed(Seeded(ms, settings.initial, board.players), board.players, None);
        match ReplayAll(ms, start, settings, maths, board.tiers)
        case Failed(lobbyType, rows) => Predicted(None, Some(FailureMessage(lobbyType)), rows)
        case Replayed(_, rows, result) => Predicted(result, None, rows)
  }

  ghost function PredictSpec(table: Match, template: string, board: Lorenzi.BoardData,
                             backlog: seq<Submission>, parse: string -> Option<Match>, maths: RatingSystems.Maths): Predicted
    requires board.ratingScheme == Lobby.SchemeElo ==> RatingSystems.PowersOfTen(maths)
  {
    PredictOn(Replayable(table, template, board, backlog, parse), board, maths)
  }

  /** The index of the last match equal to `m`, None when there is none. */
  function LastAt(ms: seq<Match>, m: Match): (r: Option<nat>)
    ensures r.Some? ==> r.value < |ms| && ms[r.value] == m && forall k | r.value < k < |ms| :: ms[k] != m
    ensures r.None? <==> m !in ms
  {
    if ms == [] then None
    else if ms[|ms| - 1] == m then Some(|ms| - 1)
    else LastAt(ms[..|ms| - 1], m)
  }

  /**
   * The table as `_predictMatch` leaves it. When its key is free the table
   * object itself is a candidate (scores_calculation.js:451-454), and the
   * replay writes ratings into it as into every match it reaches. Matches
   * are values here, so the table is found as the last replayed match
   * equal to it: a match equal to it has its lobby number and so lies in
   * its group, where the table comes last and the survivors keep their
   * order.
   */
  ghost function TableLeft(table: Match, template: string, board: Lorenzi.BoardData,
                           backlog: seq<Submission>, parse: string -> Option<Match>, maths: RatingSystems.Maths): Match
    requires board.ratingScheme == Lobby.SchemeElo ==> RatingSystems.PowersOfTen(maths)
  {
    var ms := Replayable(table, template, board, backlog, parse);
    match BoardSettings.RatingSettings(board)
    case None => table
    case Some(settings) =>
      if !TableAdded(table, template, board, backlog, parse) then table
      else
        match LastAt(ms, table)
        case None => table
        case Some(i) =>
          Written(ms, Replayed(Seeded(ms, settings.initial, board.players), board.players, None), settings, maths, board.tiers)[i]
  }

  /** `_predictMatch`, with the table as the replay leaves it. */
  method PredictMatch(table: Match, template: string, board: Lorenzi.BoardData,
                      backlog: seq<Submission>, parse: string -> Option<Match>, maths: RatingSystems.Maths)
    returns (p: Predicted, left: Match)
    requires board.ratingScheme == Lobby.SchemeElo ==> RatingSystems.PowersOfTen(maths)
    requires Objects.DistinctKeys(board.players, Board.RowName)
    ensures p == PredictSpec(table, template, board, backlog, parse, maths)
    ensures left == TableLeft(table, template, board, backlog, parse, maths)
  {
    left := table;
    var cs, added := GatherCandidates(table, template, board, backlog, parse);
    var ms := Dedup.Thin(Matches(cs));
    if ms == [] {
      return Predicted(None, Some(NoMatches), board.players), left;
    }
    var settings := BoardSettings.RatingSettings(board);
    if settings.None? {
      return Predicted(None, Some(Unsupported), board.players), left;
    }
    var ratings := SeedRatings(ms, settings.value.initial, board.players);
    var lb := new Board.Leaderboard(board.players);
    var outcome, written := ReplayMatches(ms, ratings, settings.value, maths, board.tiers, lb);
    var at := LastAt(ms, table);
    if added && at.Some? {
      left := written[at.value];
    }
    if outcome.Failed? {
      return Predicted(None, Some(FailureMessage(outcome.lobbyType)), lb.players), left;
    }
    p := Predicted(outcome.result, None, lb.players);
  }

  // ---------------------------------------------------------------
  // What the prediction promises
  // ---------------------------------------------------------------

  /** The table is always a candidate, so "No matches found." is never the outcome. */
  lemma NeverNoMatches(table: Match, template: string, board: Lorenzi.BoardData,
                       backlog: seq<Submission>, parse: string -> Option<Match>, maths: RatingSystems.Maths)
    requires board.ratingScheme == Lobby.SchemeElo ==> RatingSystems.PowersOfTen(maths)
    ensures Replayable(table, template, board, backlog, parse) != []
    ensures PredictSpec(table, template, board, backlog, parse, maths).error != Some(NoMatches)
  {
    Dedup.ThinnedNonEmpty(Matches(Candidates(table, template, board, backlog, parse)));
  }

  /** A prediction has a result exactly when it sets no message. */
  lemma ResultOrMessage(table: Match, template: string, board: Lorenzi.BoardData,
                        backlog: seq<Submission>, parse: string -> Option<Match>, maths: RatingSystems.Maths)
    requires board.ratingScheme == Lobby.SchemeElo ==> RatingSystems.PowersOfTen(maths)
    ensures var p := PredictSpec(table, template, board, backlog, parse, maths);
      p.result.Some? <==> p.error.None?
  {
    var ms := Replayable(table, template, board, backlog, parse);
    NeverNoMatches(table, template, board, backlog, parse, maths);
    var settings := BoardSettings.RatingSettings(board);
    if settings.Some? {
      ReplayEnds(ms, Replayed(Seeded(ms, settings.value.initial, board.players), board.players, None),
                 settings.value, maths, board.tiers);
    }
  }

  /** An unsupported scheme is reported as such, whatever the matches. */
  lemma UnsupportedScheme(table: Match, template: string, board: Lorenzi.BoardData,
                          backlog: seq<Submission>, parse: string -> Option<Match>, maths: RatingSystems.Maths)
    requires board.ratingScheme == Lobby.SchemeElo ==> RatingSystems.PowersOfTen(maths)
    requires BoardSettings.SettingsKey(board.ratingScheme) !in board.schemes
    ensures PredictSpec(table, template, board, backlog, parse, maths) == Predicted(None, Some(Unsupported), board.players)
  {
    NeverNoMatches(table, template, board, backlog, parse, maths);
  }

  /** Every player of every replayed match is rated before the first match is calculated. */
  lemma SeededEveryone(ms: seq<Match>, initial: real, board: seq<Board.BoardPlayer>, i: nat, a: nat, j: nat)
    requires i < |ms| && a < |ms[i].teams| && j < |ms[i].teams[a].players|
    ensures WithRatings(ms[i].teams, Seeded(ms, initial, board))[a].players[j].boardRating.Some?
  {
    var p := ms[i].teams[a].players[j];
    assert ms[i] in ms && ms[i].teams[a] in ms[i].teams && p in ms[i].teams[a].players;
    assert p.name in NamesIn(ms);
  }

  /**
   * Unless a submission's text matches the template's, the table is
   * replayed: it is the last candidate, and the last candidate is never
   * thinned out.
   */
  lemma TableReplayed(table: Match, template: string, board: Lorenzi.BoardData,
                      backlog: seq<Submission>, parse: string -> Option<Match>)
    requires forall k :: 0 <= k < |backlog| ==> CacheKey(backlog[k].message) != CacheKey(template)
    ensures table in Replayable(table, template, board, backlog, parse)
  {
    TableLastCandidate(table, template, board, backlog, parse);
    Dedup.LastThinned(Matches(Candidates(table, template, board, backlog, parse)), table);
  }

  /**
   * When the table joins the candidates and the board has rating settings,
   * the table is replayed, and `_predictMatch` leaves it with the ratings of
   * the replay just before its own step, or as it was when an earlier match
   * failed; when the prediction has a result, the table always carries them.
   */
  lemma TableRated(table: Match, template: string, board: Lorenzi.BoardData,
                   backlog: seq<Submission>, parse: string -> Option<Match>, maths: RatingSystems.Maths)
    requires board.ratingScheme == Lobby.SchemeElo ==> RatingSystems.PowersOfTen(maths)
    requires TableAdded(table, template, board, backlog, parse) && BoardSettings.RatingSettings(board).Some?
    ensures var ms := Replayable(table, template, board, backlog, parse);
      var settings := BoardSettings.RatingSettings(board).value;
      var start := Replayed(Seeded(ms, settings.initial, board.players), board.players, None);
      LastAt(ms, table).Some? &&
      var before := ReplayAll(ms[..LastAt(ms, table).value], start, settings, maths, board.tiers);
      TableLeft(table, template, board, backlog, parse, maths)
        == (if before.Replayed? then table.(teams := WithRatings(table.teams, before.ratings)) else table)
      && (PredictSpec(table, template, board, backlog, parse, maths).result.Some? ==> before.Replayed?)
  {
    var cs := Candidates(table, template, board, backlog, parse);
    TemplateLast(Collect(ContextOf(table, board, backlog, parse), backlog), template, table);
    assert Dedup.EndsWith(Matches(cs), table);
    Dedup.LastThinned(Matches(cs), table);
    var ms := Replayable(table, template, board, backlog, parse);
    var settings := BoardSettings.RatingSettings(board).value;
    var start := Replayed(Seeded(ms, settings.initial, board.players), board.players, None);
    var i := LastAt(ms, table).value;
    WrittenAt(ms, start, settings, maths, board.tiers, i);
    if ReplayAll(ms[..i], start, settings, maths, board.tiers).Failed? {
      FailureStops(ms, i, start, settings, maths, board.tiers);
    }
  }

  /** When a submission took the template's key, or the board's scheme is unsupported, the table is left as it was. */
  lemma TableUntouched(table: Match, template: string, board: Lorenzi.BoardData,
                       backlog: seq<Submission>, parse: string -> Option<Match>, maths: RatingSystems.Maths)
    requires board.ratingScheme == Lobby.SchemeElo ==> RatingSystems.PowersOfTen(maths)
    requires !TableAdded(table, template, board, backlog, parse) || BoardSettings.RatingSettings(board).None?
    ensures TableLeft(table, template, board, backlog, parse, maths) == table
  {
  }

  // ---------------------------------------------------------------
  // Whose result the prediction returns
  // ---------------------------------------------------------------

  /** The results are those of the match's players: each result is a player's, and each player has one. */
  ghost predicate ResultsOf(rs: seq<MatchCalculation.Result>, m: Match)
  {
    (forall k :: 0 <= k < |rs| ==> InMatch(m.teams, rs[k].name))
    && (forall a, j :: 0 <= a < |m.teams| && 0 <= j < |m.teams[a].players| ==> MatchCalculation.Named(rs, m.teams[a].players[j].name))
  }

  /** Reading the ratings in changes no player's name. */
  lemma WithRatingsNames(teams: seq<Team>, ratings: map<string, real>, name: string)
    ensures InMatch(WithRatings(teams, ratings), name) <==> InMatch(teams, name)
  {
    var rated := WithRatings(teams, ratings);
    if InMatch(teams, name) {
      var a, j :| 0 <= a < |teams| && 0 <= j < |teams[a].players| && teams[a].players[j].name == name;
      assert rated[a].players[j].name == name;
    }
    if InMatch(rated, name) {
      var a, j :| 0 <= a < |rated| && 0 <= j < |rated[a].players| && rated[a].players[j].name == name;
      assert teams[a].players[j].name == name;
    }
  }

  /** One step that does not fail leaves the results of the match it calculates. */
  lemma StepResults(st: Replay, m: Match, settings: RatingSystems.Settings, maths: RatingSystems.Maths,
                    tiers: seq<MatchCalculation.Tier>)
    requires settings.scheme == Lobby.SchemeElo ==> RatingSystems.PowersOfTen(maths)
    requires Step(st, m, settings, maths, tiers).Replayed?
    ensures var next := Step(st, m, settings, maths, tiers); next.result.Some? && ResultsOf(next.result.value, m)
  {
    var teams := WithRatings(m.teams, st.ratings);
    var rs := MatchCalculation.CalculateSpec(settings, teams, m.lobbyType, maths, tiers).value;
    MatchCalculation.CalculateResults(settings, teams, m.lobbyType, maths, tiers);
    var rows := st.board + Board.NewRows(rs, st.board);
    var pushed := Board.Pushed(Some(Fresh(rs, st.board)), rs, rows);
    RankedNames(rows, rs, pushed);
    RenamedResultsOf(rs, Board.RankedResults(rows, rs, pushed), m, st.ratings);
  }

  /** Ranking a result changes its name in no way. */
  lemma RankedNames(board: seq<Board.BoardPlayer>, rs: seq<MatchCalculation.Result>, pushed: Option<seq<string>>)
    ensures var ranked := Board.RankedResults(board, rs, pushed);
      |ranked| == |rs| && forall k :: 0 <= k < |rs| ==> ranked[k].name == rs[k].name
  {
  }

  /** Results named as the rated players are, carried over name for name, are the match's results. */
  lemma RenamedResultsOf(rs: seq<MatchCalculation.Result>, ranked: seq<MatchCalculation.Result>, m: Match, ratings: map<string, real>)
    requires |ranked| == |rs| && forall k :: 0 <= k < |rs| ==> ranked[k].name == rs[k].name
    requires var teams := WithRatings(m.teams, ratings);
      (forall a, b | 0 <= a < |teams| && 0 <= b < |teams[a].players| :: MatchCalculation.Named(rs, teams[a].players[b].name))
      && (forall k | 0 <= k < |rs| :: InMatch(teams, rs[k].name))
    ensures ResultsOf(ranked, m)
  {
    var teams := WithRatings(m.teams, ratings);
    forall k | 0 <= k < |ranked| ensures InMatch(m.teams, ranked[k].name) {
      WithRatingsNames(m.teams, ratings, rs[k].name);
    }
    forall a, j | 0 <= a < |m.teams| && 0 <= j < |m.teams[a].players|
      ensures MatchCalculation.Named(ranked, m.teams[a].players[j].name)
    {
      assert teams[a].players[j].name == m.teams[a].players[j].name;
      var k :| 0 <= k < |rs| && rs[k].name == teams[a].players[j].name;
      assert ranked[k].name == rs[k].name;
    }
  }

  /** A prediction with a result has it from the last match replayed. */
  lemma PredictedFromLast(ms: seq<Match>, board: Lorenzi.BoardData, maths: RatingSystems.Maths)
    requires board.ratingScheme == Lobby.SchemeElo ==> RatingSystems.PowersOfTen(maths)
    requires PredictOn(ms, board, maths).result.Some?
    ensures ms != [] && ResultsOf(PredictOn(ms, board, maths).result.value, ms[|ms| - 1])
  {
    var settings := BoardSettings.RatingSettings(board).value;
    var start := Replayed(Seeded(ms, settings.initial, board.players), board.players, None);
    var before := ReplayAll(ms[..|ms| - 1], start, settings, maths, board.tiers);
    assert ReplayAll(ms, start, settings, maths, board.tiers) == Step(before, ms[|ms| - 1], settings, maths, board.tiers);
    StepResults(before, ms[|ms| - 1], settings, maths, board.tiers);
  }

  /**
   * When no submission's text matches the template's and the table's
   * lobby number is the last to appear among the candidates, the result is
   * the table's.
   */
  lemma TableResult(table: Match, template: string, board: Lorenzi.BoardData,
                    backlog: seq<Submission>, parse: string -> Option<Match>, maths: RatingSystems.Maths)
    requires board.ratingScheme == Lobby.SchemeElo ==> RatingSystems.PowersOfTen(maths)
    requires forall k :: 0 <= k < |backlog| ==> CacheKey(backlog[k].message) != CacheKey(template)
    requires var groups := Dedup.GroupByNumber(Matches(Candidates(table, template, board, backlog, parse)));
      groups != [] && groups[|groups| - 1].number == table.lobbyNumber
    requires PredictSpec(table, template, board, backlog, parse, maths).result.Some?
    ensures ResultsOf(PredictSpec(table, template, board, backlog, parse, maths).result.value, table)
  {
    TableLastCandidate(table, template, board, backlog, parse);
    Dedup.ThinnedEndsWithLast(Matches(Candidates(table, template, board, backlog, parse)), table);
    PredictEndsWith(Replayable(table, template, board, backlog, parse), table, board, maths);
  }

  /**
   * Otherwise the result is that of a match of another lobby number: the
   * last match of the group whose number appeared last.
   */
  lemma OtherGroupResult(table: Match, template: string, board: Lorenzi.BoardData,
                         backlog: seq<Submission>, parse: string -> Option<Match>, maths: RatingSystems.Maths)
    requires board.ratingScheme == Lobby.SchemeElo ==> RatingSystems.PowersOfTen(maths)
    requires var groups := Dedup.GroupByNumber(Matches(Candidates(table, template, board, backlog, parse)));
      groups != [] && groups[|groups| - 1].number != table.lobbyNumber
    requires PredictSpec(table, template, board, backlog, parse, maths).result.Some?
    ensures var ms := Replayable(table, template, board, backlog, parse);
      ms != [] && ms[|ms| - 1].lobbyNumber != table.lobbyNumber
      && ResultsOf(PredictSpec(table, template, board, backlog, parse, maths).result.value, ms[|ms| - 1])
  {
    PredictThinnedOther(Matches(Candidates(table, template, board, backlog, parse)), table.lobbyNumber, board, maths);
  }

  /** Replaying the thinned list, when another number than `n` appeared last, leaves the results of a match of that number. */
  lemma PredictThinnedOther(cs: seq<Match>, n: LobbyNumber, board: Lorenzi.BoardData, maths: RatingSystems.Maths)
    requires board.ratingScheme == Lobby.SchemeElo ==> RatingSystems.PowersOfTen(maths)
    requires var groups := Dedup.GroupByNumber(cs); groups != [] && groups[|groups| - 1].number != n
    requires PredictOn(Dedup.Thinned(cs), board, maths).result.Some?
    ensures var ms := Dedup.Thinned(cs);
      ms != [] && ms[|ms| - 1].lobbyNumber != n && ResultsOf(PredictOn(ms, board, maths).result.value, ms[|ms| - 1])
  {
    Dedup.ThinnedEndsNumber(cs);
    PredictedFromLast(Dedup.Thinned(cs), board, maths);
  }

  /** When no submission's text matches the template's, the table is the last candidate. */
  lemma TableLastCandidate(table: Match, template: string, board: Lorenzi.BoardData,
                           backlog: seq<Submission>, parse: string -> Option<Match>)
    requires forall k :: 0 <= k < |backlog| ==> CacheKey(backlog[k].message) != CacheKey(template)
    ensures Dedup.EndsWith(Matches(Candidates(table, template, board, backlog, parse)), table)
  {
    var c := ContextOf(table, board, backlog, parse);
    CollectSound(c, backlog);
    var picked := Collect(c, backlog);
    forall i | 0 <= i < |picked| ensures KeyOf(picked[i]) != CacheKey(template) {
      assert picked[i] in picked;
      var k :| 0 <= k < |backlog| && picked[i].key == CacheKey(backlog[k].message)
        && Parsed(c, backlog[k]) == Some(picked[i].m) && Passes(c, backlog[k], picked[i].m);
    }
    assert Objects.Find(picked, KeyOf, CacheKey(template)).None?;
    TemplateLast(picked, template, table);
  }

  /** The matches replayed, the table's lobby number last: what the prediction means to replay. */
  function ReplayableTableLast(table: Match, template: string, board: Lorenzi.BoardData,
                               backlog: seq<Submission>, parse: string -> Option<Match>): seq<Match>
  {
    Dedup.ThinnedLastGroupLast(Matches(Candidates(table, template, board, backlog, parse)))
  }

  /** The prediction with the table's lobby number replayed last. */
  ghost function PredictTable(table: Match, template: string, board: Lorenzi.BoardData,
                              backlog: seq<Submission>, parse: string -> Option<Match>, maths: RatingSystems.Maths): Predicted
    requires board.ratingScheme == Lobby.SchemeElo ==> RatingSystems.PowersOfTen(maths)
  {
    PredictOn(ReplayableTableLast(table, template, board, backlog, parse), board, maths)
  }

  /**
   * Replayed that way, whenever no submission's text matches the
   * template's, a result is the table's.
   */
  lemma PredictTableResult(table: Match, template: string, board: Lorenzi.BoardData,
                           backlog: seq<Submission>, parse: string -> Option<Match>, maths: RatingSystems.Maths)
    requires board.ratingScheme == Lobby.SchemeElo ==> RatingSystems.PowersOfTen(maths)
    requires forall k :: 0 <= k < |backlog| ==> CacheKey(backlog[k].message) != CacheKey(template)
    ensures var p := PredictTable(table, template, board, backlog, parse, maths); p.result.Some? ==> ResultsOf(p.result.value, table)
  {
    TableReplayedLast(table, template, board, backlog, parse);
    PredictEndsWith(ReplayableTableLast(table, template, board, backlog, parse), table, board, maths);
  }

  /** Unless a submission's text matches the template's, the corrected order replays the table last. */
  lemma TableReplayedLast(table: Match, template: string, board: Lorenzi.BoardData,
                          backlog: seq<Submission>, parse: string -> Option<Match>)
    requires forall k :: 0 <= k < |backlog| ==> CacheKey(backlog[k].message) != CacheKey(template)
    ensures Dedup.EndsWith(ReplayableTableLast(table, template, board, backlog, parse), table)
  {
    TableLastCandidate(table, template, board, backlog, parse);
    Dedup.ThinnedTableLastEnds(Matches(Candidates(table, template, board, backlog, parse)), table);
  }

  /** Replaying a list that ends with `m` leaves, if anything, `m`'s results. */
  lemma PredictEndsWith(ms: seq<Match>, m: Match, board: Lorenzi.BoardData, maths: RatingSystems.Maths)
    requires board.ratingScheme == Lobby.SchemeElo ==> RatingSystems.PowersOfTen(maths)
    requires Dedup.EndsWith(ms, m)
    ensures var p := PredictOn(ms, board, maths); p.result.Some? ==> ResultsOf(p.result.value, m)
  {
    if PredictOn(ms, board, maths).result.Some? {
      PredictedFromLast(ms, board, maths);
    }
  }

  /** The corrected order replays the same matches as the order as written. */
  lemma PredictTableKeeps(table: Match, template: string, board: Lorenzi.BoardData,
                          backlog: seq<Submission>, parse: string -> Option<Match>)
    ensures multiset(ReplayableTableLast(table, template, board, backlog, parse)) == multiset(Replayable(table, template, board, backlog, parse))
  {
    Dedup.ThinnedTableLastKeeps(Matches(Candidates(table, template, board, backlog, parse)));
  }
}
