# Scores calculation core of the CTR NF scores calculation bot

This project models, in Dafny, the part of the bot that turns a finished
results table into rating changes. It covers these steps:

- It parses the lobby's table template into teams, players, scores and penalties.
- It ranks the teams and players, as `sortTeams` does.
- It rates the match with the Elo or the MMR scheme of a Lorenzi board.
- It either reads back a match already submitted to the board, or predicts
  the match from the results submissions posted before it.
- It prepares the results for the image the bot draws.

Each source file is one module:

- `Lobby` (`lobby.dfy`): the lobby types, their codes, team modes and leaderboards (`db/models/lobby.js`).
- `Strings`, `Wrappers`, `Records` (`strings.dfy`, `wrappers.dfy`, `records.dfy`): JavaScript string operations, `Option`, and the match, team and player records the modules share.
- `Ranking`, `Objects` (`ranking.dfy`, `objects.dfy`): the stable `Array.prototype.sort` as an insertion sort, competition ranks, and objects used as dictionaries.
- `TableLexer`, `TableParsing`, `TeamRanking` (`table_lexer.dfy`, `table_parser.dfy`, `sort_teams.dfy`): the table parser: its line grammars, the `TableParser` class with its loop over the lines, and `sortTeams`.
- `RatingSystems` (`rating_system.dfy`): the abstract rating system and its Elo and MMR schemes, with the `RatingSystem` class.
- `Seats`, `MatchCalculation`, `SubmittedMatch`, `Board` (`seats.dfy`, `match_calculator.dfy`, `submitted_match.dfy`, `board.dfy`): the match calculator: rating a match, reading a submitted match, and updating the board (the `Leaderboard` class).
- `Lorenzi` (`lorenzi.dfy`): the parsing of the board's players and matches from the Lorenzi API.
- `BoardSettings`, `MatchComparison`, `Dedup`, `Prediction`, `ScoresCalculation` (`settings.dfy`, `match_compare.dfy`, `dedup.dfy`, `prediction.dfy`, `scores_calculation.dfy`): `ScoresCalculation`: the rating settings, comparing matches, thinning the candidate matches, `_predictMatch`, and `calculate` with its error flow (the `Calculation` class).
- `TableHelper`, `TableImage` (`table_helper.dfy`, `table_image.dfy`): the table helpers and the update of the lobby results before drawing (the `LobbyResults` class).

The source's loops are methods with loop invariants. Each is proved equal
to a function that specifies it, and lemmas state what the source
promises about those functions. Objects the source updates in place are
classes: the parser, the calculation, the board rows and the lobby
results.

Two behaviours of the parser are easy to miss, and the model keeps both:

- A team penalty line "Penalty 20" is summed to 20, clamped and then
  negated (`table_parser.js:588-598`), so it counts as a bonus of 20
  points; a line "Penalty -20" deducts 20. This is in
  `TableLexer.PenaltyLineAmount` and `TableParsing.PenaltyLineEffect`.
- A table with a single team that has players is valid: `_areTeamsValid`
  (`table_parser.js:356-357`) only asks for at least one team and no
  team without players (`TableParsing.TeamsValid`, `TableParsing.Conclude`).

## Model

| member | source | states |
|---|---|---|
| Lobby.FromCodeIn | db/models/lobby.js:36-55 | the lookup of a code among the keys of `LEADERBOARDS` finds a key equal to the code, the first one in insertion order, and finds none exactly when no key equals it |
| Lobby.AllTypesComplete | db/models/lobby.js:36-55 | every one of the eighteen lobby types is a key of `LEADERBOARDS` |
| Lobby.CodeInjective | db/models/lobby.js:5-22 | distinct lobby types have distinct code strings |
| Lobby.FromCodeOfCode | db/models/lobby.js:36-55 | looking a lobby type's code up in the table gives that type back |
| Lobby.FromCodeInverse | db/models/lobby.js:36-55 | a code that the table knows is the code of the type it is found as |
| Lobby.TeamTypes | db/models/lobby.js:24-26 | a lobby type is a team type exactly when it is one of the duos, 3v3 or 4v4 types of `DUO_MODES`, `_3V3_MODES`, `_4V4_MODES` or the three insta types |
| Lobby.TeamModeOfCode | utils/scores_calculation/table_parser.js:269-271 | the `_isTeamMode` test on a type's code holds exactly for the team types |
| Lobby.TeamModeIsKnown | utils/scores_calculation/table_parser.js:269-271 | every code that `_isTeamMode` accepts is a key of `LEADERBOARDS` and names a team type |
| Lobby.UnratedTypes | db/models/lobby.js:41-47 | exactly `race_survival`, `race_itemless_1v1` and `battle_1v1` map to `null` in `LEADERBOARDS` |
| Strings.Lower | utils/scores_calculation/table_parser.js:166 | `toLowerCase` keeps the length and maps each ASCII capital to its small letter and every other character to itself |
| Strings.Trim | utils/scores_calculation/table_parser.js:222 | `trim` yields a slice of its input that neither starts nor ends with white space |
| Strings.TrimSlice | utils/scores_calculation/table_parser.js:222 | what `trim` keeps is the input with its leading and trailing white space cut off |
| Strings.TrimIdempotent | utils/scores_calculation/table_parser.js:124 | trimming a trimmed string changes nothing, so the double `trim()` comparison of team names is the single one |
| Strings.IndexOf | utils/scores_calculation/table_parser.js:204 | `indexOf`/`includes`: -1 exactly when the pattern occurs nowhere, otherwise the first place it occurs |
| Strings.Split | utils/scores_calculation/table_parser.js:222 | `split` on a literal separator yields at least one piece |
| Strings.JoinSplit | utils/scores_calculation/table_parser.js:222 | joining the pieces of a `split` back with the separator gives the original string |
| Strings.SplitPiecesFree | utils/scores_calculation/table_parser.js:222 | no piece of a `split` contains the separator |
| Strings.SplitContains | utils/scores_calculation/table_parser.js:217-220 | a string that contains the separator splits into two pieces or more |
| Strings.CollapseSpaces | utils/scores_calculation/table_parser.js:167 | `replace(/\s+/g, ' ')` leaves only blanks as white space, never two in a row, and never lengthens the text |
| Strings.BlankSpaces | utils/scores_calculation/table_parser.js:167 | replacing each white-space character by a blank keeps the length and every other character |
| Strings.NatToString | utils/scores_calculation/table_parser.js:207 | `String(n)` of a natural number is a non-empty run of digits without a leading zero |
| Strings.DigitsValueOfNatToString | utils/scores_calculation/table_parser.js:207 | reading a rendered lobby number back gives the number |
| Strings.NatToStringInjective | utils/scores_calculation/table_parser.js:207 | distinct lobby numbers render differently |
| Strings.ParseIntDigits | utils/scores_calculation/table_parser.js:260 | `parseInt` of a digit string reads all of it, and of the empty string is NaN (None) |
| Strings.DigitPrefix | utils/scores_calculation/table_parser.js:260 | the digits `parseInt` reads are the longest digit prefix of the text |
| Ranking.Sort | utils/scores_calculation/table_parser.js:373 | `Array.prototype.sort` with a comparator returns a permutation of its input |
| Ranking.SortDescSorted | utils/scores_calculation/table_parser.js:373 | the comparator `(a, b) => key(b) - key(a)` leaves the keys in descending order |
| Ranking.SortDescStable | utils/scores_calculation/table_parser.js:373 | the sort is stable: the elements with any one key keep their relative order |
| Ranking.SortDescOfSorted | utils/scores_calculation/table_parser.js:373 | sorting a sequence already in descending key order leaves it as it is |
| Ranking.SortDescLex | utils/scores_calculation/table_parser.js:373 | with increasing tags on the input, the result is ordered by key and then by tag, that is by table order among equal keys |
| Ranking.SortSortedBy | utils/scores_calculation/match_calculator.js:399-418 | a comparator that agrees with an order leaves the sorted sequence ordered by it |
| Ranking.CountAbovePermutation | utils/scores_calculation/table_parser.js:412-436 | the number of keys above a value, and so a competition rank, does not depend on the order the keys are listed in |
| Ranking.CompetitionRanks | utils/scores_calculation/table_parser.js:376-395 | the position loop returns one position per key and, on keys in descending order, each position is one more than the number of keys strictly above it ("1224") |
| TeamRanking.RecordTableOrder | utils/scores_calculation/table_parser.js:365-367 | each team gets its index in the table as `tableOrder` and nothing else changes |
| TeamRanking.NumberPlayers | utils/scores_calculation/table_parser.js:398-400 | each player of a team gets `inTeamPosition` one more than its index and nothing else changes |
| TeamRanking.RankTeam | utils/scores_calculation/table_parser.js:377-400 | one step of the per-team pass gives the team its standing, remembers its players' table order, sorts its players by net score and numbers them |
| TeamRanking.RankTeams | utils/scores_calculation/table_parser.js:376-401 | the per-team pass keeps each team (ranked from the sorted team at its place) and, on teams in descending net order, each team's position is one more than the number of teams above it |
| TeamRanking.TeamRanksCount | utils/scores_calculation/table_parser.js:380-395 | on teams sorted by net score, the team positions count the teams with a strictly higher net score, plus one |
| TeamRanking.OverallPositions | utils/scores_calculation/table_parser.js:406-436 | every player of every team gets an overall position and, when names are distinct, it is one more than the number of players with a strictly higher net score |
| TeamRanking.StandingOfPlayer | utils/scores_calculation/table_parser.js:435 | a player's overall position is the count of players with a higher net score, plus one |
| TeamRanking.PositionsByName | utils/scores_calculation/table_parser.js:415-436 | the object `playerOverallPositions` has every sorted player's name as a key, holding the rank at that name's last occurrence |
| TeamRanking.SetPositions | utils/scores_calculation/table_parser.js:440-442 | each player's `position` is set from the object by its name and nothing else changes |
| TeamRanking.AssignPositions | utils/scores_calculation/table_parser.js:439-443 | every team keeps its fields and players in order; each player gets the overall position of its name |
| TeamRanking.OrderTeams | utils/scores_calculation/table_parser.js:365-373 | the first half of `sortTeams`: the teams tagged with their table index and sorted, each sorted team being the input team its tag names, the tags a permutation of the indices |
| TeamRanking.StandTeams | utils/scores_calculation/table_parser.js:376-443 | the second half of `sortTeams`: team positions are one plus the number of teams above, and player positions one plus the number of players above |
| TeamRanking.SortTeams | utils/scores_calculation/table_parser.js:363-446 | `sortTeams` returns the input teams, each once, ordered by score minus penalty with ties in table order, each team's position one plus the number of teams with a higher net score, and its players sorted and numbered |
| TeamRanking.StandingsOf | utils/scores_calculation/table_parser.js:363-446 | the two halves of `sortTeams` together meet its whole promise (`Standings`) |
| TeamRanking.PlayerStandings | utils/scores_calculation/table_parser.js:406-443 | with distinct names, each player's overall position is one plus the number of players in the match with a higher net score |
| Objects.GetPut | utils/scores_calculation/match_calculator.js:98 | `obj[key] = x` reads back `x` under its key and leaves every other key's value alone |
| Objects.SortDistinct | utils/scores_calculation/match_calculator.js:399-418 | sorting the values of an object keeps their keys distinct |
| BoardSettings.SettingsKey | utils/scores_calculation/scores_calculation.js:219-221 | the settings property is "rating" and the scheme with its first letter raised, the rest lowered and each `_x` joined into `X`; it is at most six characters longer than the scheme |
| BoardSettings.CamelJoined | utils/scores_calculation/scores_calculation.js:219-221 | after the `/_([a-z])/g` replacement no `_x` pair is left |
| BoardSettings.CamelPlain | utils/scores_calculation/scores_calculation.js:219-221 | text with no underscore passes the replacement unchanged |
| BoardSettings.EloKey | utils/scores_calculation/scores_calculation.js:219-221 | the scheme "elo" reads its settings from `ratingElo` |
| BoardSettings.MmrKey | utils/scores_calculation/scores_calculation.js:219-221 | the scheme "mk8dx_mmr" reads its settings from `ratingMk8dxMmr` |
| BoardSettings.KeyIgnoresCase | utils/scores_calculation/scores_calculation.js:219-221 | the key of a lower-cased scheme is the key of the scheme |
| BoardSettings.RatingSettings | utils/scores_calculation/scores_calculation.js:217-230 | the settings are present exactly when the board has the property, and then carry the board's scheme, `ratingAverageByTeam` and `ratingMin` |
| TableLexer.WithoutParens | utils/scores_calculation/table_parser.js:620 | `replace(/[()]/g, "")` removes only parentheses, never lengthens the text and leaves a penalty word a chain of signs and digits |
| TableLexer.SumFromString | utils/scores_calculation/table_parser.js:619-637 | the loop over the `+`/`-` chain returns the chain's value `Eval` of the text without parentheses (each term added or subtracted in turn) |
| TableLexer.EvalAppend | utils/scores_calculation/table_parser.js:626-635 | one more `+ n` or `- n` term adds or subtracts `n` from the chain's value |
| TableLexer.SignedPenalty | utils/scores_calculation/table_parser.js:548-556 | a raw penalty is clamped to [-99, 99] and negated: a written deduction becomes a positive stored penalty and a written bonus a negative one |
| TableLexer.TrackOf | utils/scores_calculation/table_parser.js:522-541 | one track score is at most 99, and only an `a-b` piece (with `-` and without `+`) deducts anything |
| TableLexer.TrackOfNumber | utils/scores_calculation/table_parser.js:539-540 | a plain number scores itself, capped at 99, and deducts nothing |
| TableLexer.TrackOfSum | utils/scores_calculation/table_parser.js:524-529 | `a+b` scores a + b, capped at 99, and deducts nothing |
| TableLexer.TrackOfDifference | utils/scores_calculation/table_parser.js:530-538 | `a-b` scores a, capped at 99, and deducts b |
| TableLexer.Words | utils/scores_calculation/table_parser.js:292 | the white-space-separated words of a line are non-empty and hold no white space |
| TableLexer.PlayerMatch | utils/scores_calculation/table_parser.js:287-293 | a matched player line has a name word, a score word of signs, digits and bars, and, when present, a penalty word |
| TableLexer.Pieces | utils/scores_calculation/table_parser.js:519 | `split('|').slice(0, 32)` keeps at most 32 track scores |
| TableLexer.PointsBounds | utils/scores_calculation/table_parser.js:522-543 | every track score lies in [0, 99] and their total in [0, 99 × tracks] |
| TableLexer.PlayerData | utils/scores_calculation/table_parser.js:512-559 | `_getPlayerData` keeps the matched name and flag, reads at most 32 scores in [0, 99], totals them, and stores the bracketed penalty minus the `a-b` deductions, clamped to [-99, 99] and negated |
| TableLexer.PenaltyGroup | utils/scores_calculation/table_parser.js:353 | a parenthesised team penalty is a prefix of the text made of `(`, signed digits and an optional `)` |
| TableLexer.TeamSplit | utils/scores_calculation/table_parser.js:353 | the team pattern's lazy name part is the shortest prefix after which the rest of the line fits the pattern, and the colour and penalty come from that rest |
| TableLexer.TeamData | utils/scores_calculation/table_parser.js:334-350 | `_getTeamData` gives a non-empty name: the whole line when it names neither a colour nor a penalty, else the text before them, with the default "Team X" name when that is empty; the penalty is the negated sum of the penalty group, 0 without one |
| TableLexer.DefaultTeamName | utils/scores_calculation/table_parser.js:337 | the default name is "Team " and one character |
| TableLexer.PenaltyLineAmount | utils/scores_calculation/table_parser.js:608-610 | the amount of a `Penalty`/`Bonus` line is the chain of signed digits after the keyword |
| TableLexer.HeaderMatch | utils/scores_calculation/table_parser.js:252-254 | a matched header has a non-empty run of digits and a non-empty rest |
| TableLexer.WithMode | utils/scores_calculation/table_parser.js:174-176 | a normalised type that does not start with "insta" or "battle" gets the prefix "race_", and the others are kept |
| TableLexer.FirstContained | utils/scores_calculation/table_parser.js:178-185 | the scan of `LEADERBOARDS` finds the first type, in table order, whose code the text contains, and none only when no code is contained |
| TableLexer.ParseLobbyType | utils/scores_calculation/table_parser.js:165-193 | `parseLobbyType` returns a known code with a leaderboard that the normalised text contains, the text itself when it is such a code, and null otherwise |
| TableLexer.HeaderDataOf | utils/scores_calculation/table_parser.js:256-267 | `_getHeaderData` reads the lobby number from the digits and the lobby type from the trimmed rest |
| TableLexer.HeaderIndex | utils/scores_calculation/table_parser.js:247-250 | `findIndex` gives the first header line, or -1 when no line is one |
| TableLexer.GetLines | utils/scores_calculation/table_parser.js:238-245 | `_getLines` returns the trimmed non-empty lines from the header on, starting with the header, and null exactly when no line is a header |
| TableLexer.NonEmptyTrimmed | utils/scores_calculation/table_parser.js:239 | `map(trim).filter(line !== '')` keeps trimmed, non-empty lines only |
| TableLexer.Comments | utils/scores_calculation/table_parser.js:224-228 | the comment filter keeps exactly the comment lines, in order |
| TableLexer.LobbyComments | utils/scores_calculation/table_parser.js:216-230 | `_getLobbyComments` returns only non-empty comment lines from before the first "lobby" |
| TableLexer.CollapseNewlines | utils/scores_calculation/table_parser.js:132 | `replace(/\n{3,}/g, '\n\n')` leaves no three line breaks in a row, empties only the empty text, and keeps whether the text starts with a line break |
| TableLexer.Min99 | utils/scores_calculation/table_parser.js:528-540 | a score is capped at 99 and otherwise kept |
| TableLexer.TrackOfPlus | utils/scores_calculation/table_parser.js:524-529 | `a+b` scores the sum of its parts, capped at 99 |
| TableLexer.PenaltyAt | utils/scores_calculation/table_parser.js:608-610 | a penalty word found at an index is that word and has the penalty shape |
| TableLexer.PlayerWords | utils/scores_calculation/table_parser.js:512-559 | a player line gives a name word without spaces, a score word and, if any, a penalty word |
| TableLexer.TracksOf | utils/scores_calculation/table_parser.js:512-559 | each score piece gives its own track |
| TableLexer.LookupKey | utils/scores_calculation/table_parser.js:178-185 | the key looked up is the text when it is a code, and otherwise a code the text contains |
| TableLexer.TeamMatch | utils/scores_calculation/table_parser.js:352-354 | a team line's penalty, if any, has the penalty shape |
| TableParsing.Initial | utils/scores_calculation/table_parser.js:65-76 | the loop starts from data that satisfy the parse invariant: the header line in the template, no team, no player, default letter `A`, the mode of the lobby type |
| TableParsing.PenaltyStep | utils/scores_calculation/table_parser.js:577-602 | `_processTeamPenaltyLine` keeps the data well shaped and the mode unchanged |
| TableParsing.PenaltyStepInv | utils/scores_calculation/table_parser.js:577-602 | a penalty line changes no player, so the parse invariant (distinct names, team scores that total their players', solo teams of one) is kept |
| TableParsing.Reopened | utils/scores_calculation/table_parser.js:313-318 | after a team line the team and the template line opened just before are popped, and otherwise nothing |
| TableParsing.ReopenedInv | utils/scores_calculation/table_parser.js:313-318 | the popped team has no players, so the player list and the invariant stay |
| TableParsing.OpenedTeam | utils/scores_calculation/table_parser.js:302-311 | a team line opens a team with `_getTeamData`'s name, colour and penalty, no players and score 0 |
| TableParsing.TeamCode | utils/scores_calculation/table_parser.js:297-299 | right after another team line the default letter steps back by one |
| TableParsing.TeamStep | utils/scores_calculation/table_parser.js:295-332 | `_processTeamLine` appends the opened team (in place of one opened just before), advances the default letter, and marks the last line a team line |
| TableParsing.TeamStepInv | utils/scores_calculation/table_parser.js:295-332 | a team line keeps the parse invariant |
| TableParsing.AddPlayer | utils/scores_calculation/table_parser.js:459-510 | adding a player fails only with "Duplicate player names." or "Invalid team initialization.", and otherwise leaves a team open in the same mode |
| TableParsing.AddPlayerInv | utils/scores_calculation/table_parser.js:459-510 | a player is only added under a new name, so names stay distinct and team scores stay the totals of their players' |
| TableParsing.PlayerStep | utils/scores_calculation/table_parser.js:448-457 | `_processPlayerLine` adds the player and writes the line to the template, failing only as `AddPlayer` does |
| TableParsing.Classify | utils/scores_calculation/table_parser.js:82-114 | each line after the header is told as comment, penalty, possible team or player in the order the loop tests them, a penalty line carrying its amount and a player line its data |
| TableParsing.Apply | utils/scores_calculation/table_parser.js:79-115 | one pass of the loop keeps the data well shaped and fails only with a player-line error |
| TableParsing.ApplyInv | utils/scores_calculation/table_parser.js:79-115 | one pass of the loop keeps the parse invariant |
| TableParsing.Run | utils/scores_calculation/table_parser.js:79-115 | the loop over the lines stops at the first failing line, and fails only with a player-line error |
| TableParsing.RunInv | utils/scores_calculation/table_parser.js:79-115 | the whole loop keeps the parse invariant |
| TableParsing.ReadLines | utils/scores_calculation/table_parser.js:56-115 | a table is read when its header names a rated lobby type and no player line fails; it is refused with "Could not parse lobby number / type / name." exactly when the header names none |
| TableParsing.Thrown | utils/scores_calculation/table_parser.js:151-154 | the stored text of an error thrown with a message is "Error: " followed by that message, so the message can be read back |
| TableParsing.RejectedMessage | utils/scores_calculation/table_parser.js:108-154 | a refused table's error is "Error: " followed by the reading error, or by "Invalid teams." when the teams were read |
| TableParsing.ErrorsDiffer | utils/scores_calculation/table_parser.js:53-136 | the messages for a missing header, a bad header, invalid teams and the player errors are all different; two thrown errors read alike only when their messages do, and none reads like the clean-up's TypeError |
| TableParsing.ReadTable | utils/scores_calculation/table_parser.js:48-115 | `parse` up to the clean-up: it fails for a missing header exactly when no trimmed line after the first "Lobby" is a header line, and otherwise only for the header or a player line |
| TableParsing.ReadTableInv | utils/scores_calculation/table_parser.js:48-115 | whenever the loop ends its data satisfy the parse invariant |
| TableParsing.Finish | utils/scores_calculation/table_parser.js:134-150 | the result is the thrown "Invalid teams." error exactly when `_areTeamsValid` fails, and otherwise a match with those teams, the lobby type, its board from `LEADERBOARDS`, the lobby number and the mode |
| TableParsing.NonEmptyTeams | utils/scores_calculation/table_parser.js:117-122 | the clean-up keeps only teams with players |
| TableParsing.NonEmptyTeamsMembers | utils/scores_calculation/table_parser.js:117-122 | the clean-up keeps exactly the teams with players, nothing else |
| TableParsing.NonEmptyTeamsPlayers | utils/scores_calculation/table_parser.js:117-122 | dropping teams without players keeps the list of all players |
| TableParsing.Conclude | utils/scores_calculation/table_parser.js:117-137 | the corrected end of `parse` rejects only with the thrown reading error or the thrown "Invalid teams." |
| TableParsing.ConcludeFacts | utils/scores_calculation/table_parser.js:117-150 | a concluded table has valid teams, distinct player names, well-formed teams, one player per team in solo mode, the board of its lobby type and the mode of its lobby type |
| TableParsing.ParsedTable | utils/scores_calculation/table_parser.js:44-156 | every table `parse` accepts has at least one team, no team without players, distinct player names, team scores that total their players', one team per player in solo mode, and the board and mode of its lobby type |
| TableParsing.TrailingTeamLine | utils/scores_calculation/table_parser.js:96-100 | a team line that is the table's last line changes nothing |
| TableParsing.PenaltyLineEffect | utils/scores_calculation/table_parser.js:577-602 | a `Penalty`/`Bonus` line changes only the last team's penalty, by the clamped and negated amount, and only in team mode right after a team, player or penalty line; otherwise it changes nothing at all |
| TableParsing.DuplicatePlayer | utils/scores_calculation/table_parser.js:466-471 | a player line with a name already seen fails the table with "Duplicate player names.", in either mode |
| TableParsing.NewPlayerLine | utils/scores_calculation/table_parser.js:473-509 | a player with a new name joins the last team, whose score and penalty grow by the player's (failing with "Invalid team initialization." with no team open), or in solo mode becomes a team of its own named after it |
| TableParsing.TeamThenComment | utils/scores_calculation/table_parser.js:82-105 | a team line followed only by a comment leaves that team without players at the end of the loop |
| TableParsing.EmptyTeamRejected | utils/scores_calculation/table_parser.js:117-137 | as written, any team left without players makes the clean-up throw; the intended clean-up parses the table exactly when some team has players |
| TableParsing.CleanedTeamsEmpty | utils/scores_calculation/table_parser.js:117-122 | nothing is left after the clean-up exactly when no team has a player |
| TableParsing.NoEmptyTeamAgrees | utils/scores_calculation/table_parser.js:117-130 | when no team is empty, the clean-up as written and as intended agree |
| TableParsing.HeaderRequired | utils/scores_calculation/table_parser.js:51-54 | the table is refused for a missing header exactly when none of its trimmed lines is a header line |
| TableParsing.HeaderTypeRequired | utils/scores_calculation/table_parser.js:57-60 | with a header, the table is refused for its header exactly when the header names no rated lobby type |
| TableParsing.TableParser.IsPlayerDuplicated | utils/scores_calculation/table_parser.js:561-567 | the name is reported as seen exactly when it was seen, and a new name is recorded; nothing else changes |
| TableParsing.TableParser.ProcessTeamPlayer | utils/scores_calculation/table_parser.js:459-485 | the parser's data become those of `AddPlayer` in team mode, with the error set on failure |
| TableParsing.TableParser.ProcessSoloPlayer | utils/scores_calculation/table_parser.js:487-510 | the parser's data become those of `AddPlayer` in solo mode, with the error set on failure |
| TableParsing.TableParser.ProcessPlayerLine | utils/scores_calculation/table_parser.js:448-457 | the parser's data become those of `PlayerStep`, and the line goes to the template either way |
| TableParsing.TableParser.ProcessTeamLine | utils/scores_calculation/table_parser.js:295-332 | the parser's data become `TeamStep` of the team `_getTeamData` reads with the current default letter |
| TableParsing.TableParser.ProcessTeamPenaltyLine | utils/scores_calculation/table_parser.js:577-602 | the parser's data become `PenaltyStep` with the clamped and negated amount |
| TableParsing.TableParser.ProcessLine | utils/scores_calculation/table_parser.js:82-114 | one pass of the loop on the parser's fields does what `Apply` says |
| TableParsing.TableParser.RemoveEmptyTeams | utils/scores_calculation/table_parser.js:118-130 | the loop from the last team back leaves exactly the teams with players, in order |
| TableParsing.TableParser.ProcessLineAt | utils/scores_calculation/table_parser.js:79-115 | the pass for line `i` either advances `Run` by one line or fails with `Run`'s error |
| TableParsing.TableParser.ProcessLines | utils/scores_calculation/table_parser.js:79-115 | the line loop on the parser's fields ends in the state, or the error, of `Run` |
| TableParsing.TableParser.ReadLoop | utils/scores_calculation/table_parser.js:48-115 | the lines, the header and the loop leave the parser as `ReadTable` says, or with its error |
| TableParsing.TableParser.Complete | utils/scores_calculation/table_parser.js:117-150 | the clean-up, the validity check and `sortTeams` give the corrected conclusion, teams ranked by `Standings` |
| TableParsing.TableParser.Rank | utils/scores_calculation/table_parser.js:140-150 | the returned match is the read one with its teams put through `sortTeams` |
| TableParsing.TableParser.Parse | utils/scores_calculation/table_parser.js:44-156 | `parse` returns the corrected `ParseTable` result with its teams sorted and ranked; on failure it returns null, keeps the error and empties the template |
| TableParsing.TableParser.OpenTeam | utils/scores_calculation/table_parser.js:304-331 | the opened team goes in as the team step specifies, replacing a team opened on the line before; error and template unchanged |
| TableParsing.TableParser.ChargeLastTeam | utils/scores_calculation/table_parser.js:587-601 | the amount read goes to the last team as the penalty step specifies; error and template unchanged |
| TableParsing.TableParser.Start | utils/scores_calculation/table_parser.js:62-76 | the loop data of a table with the header line is the specified initial data |
| TableParsing.TableParser.SetTemplate | utils/scores_calculation/table_parser.js:130-132 | the template kept is the lobby comments followed by the template lines |
| TableParsing.TableParser.Settle | utils/scores_calculation/table_parser.js:117-137 | the clean-up keeps the teams with players, sets the template and answers whether the teams are valid |
| TableParsing.LoopLines | utils/scores_calculation/table_parser.js:79-115 | a finished loop leaves well-formed data of the header's lobby type, or a line error |
| TableParsing.Step | utils/scores_calculation/table_parser.js:81-114 | a line either keeps the data well-formed in the same mode or fails with a line error |
| TableParsing.NewPlayer | utils/scores_calculation/table_parser.js:459-510 | a new player is well-formed and keeps the line's name |
| TableParsing.LinePlayer | utils/scores_calculation/table_parser.js:512-559 | the player a player line describes is well-formed |
| RatingSystems.At | utils/scores_calculation/rating_system_elo.js:105-114 | a settings list entry is present exactly when the lobby type reads an index and the list is long enough (a missing entry is None, see "Left out") |
| RatingSystems.NbPlayers | utils/scores_calculation/abstract_rating_system.js:95-103 | `_getNbPlayers` counts one per player of every team |
| RatingSystems.TeamIndexOf | utils/scores_calculation/abstract_rating_system.js:116-127 | the labelled loop finds the first team holding a player of that name, and none (the "Could not get player team" throw) exactly when no team holds one |
| RatingSystems.SizesExceptCount | utils/scores_calculation/abstract_rating_system.js:128-133 | the teams other than the skipped one hold every player but the skipped team's |
| RatingSystems.NbOpponents | utils/scores_calculation/abstract_rating_system.js:112-139 | in team mode the opponents are the players of every team but the first one holding the name (None exactly when no team holds it); in solo mode all players but one |
| RatingSystems.PlayerTeam | utils/scores_calculation/abstract_rating_system.js:116-127 | every player listed for the match belongs to one of its teams |
| RatingSystems.SoloValid | utils/scores_calculation/abstract_rating_system.js:56-68 | in solo mode `isValid` holds exactly when there are at least two players |
| RatingSystems.TwoTeamsValid | utils/scores_calculation/abstract_rating_system.js:56-68 | in team mode two teams with players give every player an opponent, so `isValid` holds |
| RatingSystems.LoneTeam | utils/scores_calculation/abstract_rating_system.js:112-139 | with one team holding players, its players have no opponent |
| RatingSystems.OneTeamInvalid | utils/scores_calculation/abstract_rating_system.js:56-68 | with at most one team holding players, `isValid` fails |
| RatingSystems.TeamValid | utils/scores_calculation/abstract_rating_system.js:56-68 | in team mode `isValid` holds exactly when at least two teams have players |
| RatingSystems.EloIndex | utils/scores_calculation/rating_system_elo.js:101-117 | the Elo switch reads a scaling factor index below 4, or none for the other lobby types |
| RatingSystems.MmrIndex | utils/scores_calculation/rating_system_mmr.js:120-147 | the MMR switch reads a baseline and scaling factor index below 4, or none for the other lobby types |
| RatingSystems.ParameterIndexOfType | utils/scores_calculation/rating_system_mmr.js:120-147 | Elo rates exactly the itemless types, MMR every other type but survival, and in a team type the index is the team size minus one |
| RatingSystems.DuoIndex | utils/scores_calculation/rating_system_elo.js:107-109 | a lobby type of two-player teams reads index 1 |
| RatingSystems.TrioIndex | utils/scores_calculation/rating_system_elo.js:110-112 | a lobby type of three-player teams reads index 2 |
| RatingSystems.QuadIndex | utils/scores_calculation/rating_system_elo.js:113-115 | a lobby type of four-player teams reads index 3 |
| RatingSystems.ActualScore | utils/scores_calculation/rating_system_elo.js:79-84 | Elo's actual score is 1 exactly for a win, 0.5 exactly for a tie and 0 exactly for a loss |
| RatingSystems.Expected | utils/scores_calculation/rating_system_elo.js:85 | Elo's expected score lies strictly between 0 and 1 |
| RatingSystems.ExpectedComplement | utils/scores_calculation/rating_system_elo.js:85 | the expected scores of the two players of a pair add up to one |
| RatingSystems.EloPairSum | utils/scores_calculation/rating_system_elo.js:83-88 | with the same K, what one player of a pair wins the other loses |
| RatingSystems.WinAtLeastOne | utils/scores_calculation/rating_system_mmr.js:102-104 | with a baseline that is not negative a win is worth at least one point |
| RatingSystems.MmrWinnerGains | utils/scores_calculation/rating_system_mmr.js:73-77 | the winner of a decisive pair gains at least one point and the loser loses at least one |
| RatingSystems.TieBySquare | utils/scores_calculation/rating_system_mmr.js:113-115 | the tie magnitude depends on the capped rating difference only through its square |
| RatingSystems.TieSymmetric | utils/scores_calculation/rating_system_mmr.js:113-115 | within the cap the tie magnitude is the same seen from either player |
| RatingSystems.MmrAntisymmetric | utils/scores_calculation/rating_system_mmr.js:56-78 | what one player of a pair wins the other loses: always on a decisive pair, within the cap on a tie |
| RatingSystems.ValidHasOpponents | utils/scores_calculation/abstract_rating_system.js:56-68 | a valid system has an opponent for every player of the match |
| RatingSystems.ValidIndex | utils/scores_calculation/rating_system_mmr.js:83-85 | the parameters of a valid system come from a lobby type the scheme rates |
| RatingSystems.EloPairPoints | utils/scores_calculation/rating_system_elo.js:67-89 | an Elo pair's points are K over the number of opponents times the actual minus the expected score, on team or player net scores by mode |
| RatingSystems.AdjustedPoints | utils/scores_calculation/rating_system_mmr.js:90-92 | Elo keeps the summed points; MMR divides them by the player's number of opponents |
| RatingSystems.EloSoloPair | utils/scores_calculation/rating_system_elo.js:67-89 | in solo mode two Elo players win and lose the same amount against each other |
| RatingSystems.MmrPair | utils/scores_calculation/rating_system_mmr.js:56-78 | two MMR players win and lose the same amount against each other: always when one beats the other, within the cap on a tie |
| RatingSystems.RatingSystem.constructor | utils/scores_calculation/rating_system_elo.js:59-62 | a new system holds its setup and no K, actual or expected score yet |
| RatingSystems.RatingSystem.IsValid | utils/scores_calculation/rating_system_mmr.js:83-85 | `isValid` holds exactly when the base check passes and the scheme's parameters were found |
| RatingSystems.RatingSystem.Calculate | utils/scores_calculation/rating_system_elo.js:67-89 | `calculate` returns the pair's points; Elo leaves K, the actual and the expected score in its fields, MMR changes none |
| RatingSystems.RatingSystem.Adjust | utils/scores_calculation/rating_system_mmr.js:90-92 | `adjustPlayerFinalRatingPoints` returns the adjusted points of the scheme |
| MatchCalculation.Reached | utils/scores_calculation/match_calculator.js:342-348 | the tier loop walks the leading tiers whose lower bound the rating reaches and stops at the first it does not |
| MatchCalculation.LowestIndex | utils/scores_calculation/match_calculator.js:365-376 | the lowest tier is the first with the least lower bound, and there is none only when there are no tiers |
| MatchCalculation.GetLowestTier | utils/scores_calculation/match_calculator.js:365-376 | the loop of `_getLowestTier`, replacing the kept tier only on a strictly smaller bound, returns the first tier with the least bound |
| MatchCalculation.MinRating | utils/scores_calculation/match_calculator.js:386-388 | `_getMinRating` is the least lower bound of any tier, itself the bound of some tier; None without tiers, where the source throws |
| MatchCalculation.TierOf | utils/scores_calculation/match_calculator.js:339-355 | `_getTierByRating` names a tier exactly when there are tiers |
| MatchCalculation.TierByRating | utils/scores_calculation/match_calculator.js:339-355 | the loop of `_getTierByRating` returns the last tier of the leading run the rating reaches, or the lowest tier when it reaches none |
| MatchCalculation.TierOfAscending | utils/scores_calculation/match_calculator.js:339-355 | on tiers by increasing bound, a rating's tier is one of the tiers: the first when the rating is below every bound, and otherwise the one with the greatest bound the rating reaches |
| MatchCalculation.SortedByPosition | utils/scores_calculation/match_calculator.js:399-418 | results sorted with `_sortResultsByPosition` are ordered by team position and then position in solo mode; in team mode they are ordered by team position, and when each team's results are next to each other and share its team position, each team's results are also in position order |
| MatchCalculation.InsertInTeam | utils/scores_calculation/match_calculator.js:401-418 | inserting a result into results sorted by team position and by position within each team keeps them by position within each team, when no other team is listed after its team at the same team position |
| MatchCalculation.SortInTeam | utils/scores_calculation/match_calculator.js:401-418 | sorting in team mode results whose teams are each listed together and share a team position puts each team's results in position order |
| MatchCalculation.FoldTeamOrdered | utils/scores_calculation/match_calculator.js:84-113 | with distinct player and team names, the results object lists the results team by team, each with its team's position |
| MatchCalculation.OrderedContiguous | utils/scores_calculation/match_calculator.js:84-113 | results listed team by team with distinct team names have each team's results next to each other, sharing one team position |
| MatchCalculation.ResultsTeamOrdered | utils/scores_calculation/match_calculator.js:84-113 | with distinct player and team names, the calculated results object lists the results team by team |
| MatchCalculation.SchemeOf | utils/scores_calculation/match_calculator.js:315-328 | `_getRatingSystem` picks Elo exactly for "elo", MMR exactly for "mk8dx_mmr", and nothing for any other scheme |
| MatchCalculation.RatingDelta | utils/scores_calculation/match_calculator.js:48-62 | `getRatingDelta` returns the player's adjusted sum of pair points against every player of every team with another name |
| MatchCalculation.PointsAgainstAll | utils/scores_calculation/match_calculator.js:51-60 | the outer loop of `getRatingDelta` collects the pair points against every other team |
| MatchCalculation.PointsAgainstTeam | utils/scores_calculation/match_calculator.js:57-59 | the inner loop collects the pair points against each player of the opponent team |
| MatchCalculation.AverageByTeam | utils/scores_calculation/match_calculator.js:70-82 | the averaging loop gives every team's players the mean of their deltas, team by team |
| MatchCalculation.DeltasStep | utils/scores_calculation/match_calculator.js:63 | one more player rated sets their name to their delta |
| MatchCalculation.TeamDeltas | utils/scores_calculation/match_calculator.js:42-64 | the loop over a team's players sets each name to its delta |
| MatchCalculation.AllDeltas | utils/scores_calculation/match_calculator.js:40-65 | the rating loops give every player's delta by name |
| MatchCalculation.FinalDeltas | utils/scores_calculation/match_calculator.js:67-82 | every player of the match has a delta, averaged per team only in team mode when the board asks for it |
| MatchCalculation.EnterResult | utils/scores_calculation/match_calculator.js:89-111 | one step of the results loop makes the player's result: the board rating plus the delta raised to the minimum, the team's and player's positions and the tiers; none without tiers, where naming a tier throws |
| MatchCalculation.EnterTeam | utils/scores_calculation/match_calculator.js:88-112 | the loop over a team's players enters each player's result |
| MatchCalculation.CollectResults | utils/scores_calculation/match_calculator.js:84-113 | the results loops enter every player's result, or fail (null) when there are no tiers |
| MatchCalculation.Calculate | utils/scores_calculation/match_calculator.js:31-123 | `calculate` returns what `CalculateSpec` describes: null on an unknown scheme, an invalid system or no tiers, else the sorted results |
| MatchCalculation.CalculateFails | utils/scores_calculation/match_calculator.js:31-123 | `calculate` returns null exactly when the scheme is unknown, there is no tier, there are too few players (solo) or too few teams with players (team mode), or the settings lack a parameter the lobby type reads |
| MatchCalculation.MadeResult | utils/scores_calculation/match_calculator.js:92-111 | a result carries the player's name and team, the board rating as original rating, the delta, the final rating raised to the minimum and the tiers of both ratings |
| MatchCalculation.SortedMembers | utils/scores_calculation/match_calculator.js:116 | every sorted result is one of the object's values |
| MatchCalculation.SortedResultsMade | utils/scores_calculation/match_calculator.js:84-116 | every sorted result is made for a player of the match, with its rating floored at the minimum |
| MatchCalculation.SortedResultsNamed | utils/scores_calculation/match_calculator.js:98-116 | the sorted results hold one result per name, and one for every player of the match |
| MatchCalculation.CalculateResults | utils/scores_calculation/match_calculator.js:31-123 | one result per player name, every player of the match has one, and each result's final rating is the board rating plus the delta, raised to the board's minimum |
| MatchCalculation.CalculateOrder | utils/scores_calculation/match_calculator.js:116 | the results are listed by team position and then position; in team mode by team position, and with distinct player and team names also by position within each team |
| MatchCalculation.DeltasAt | utils/scores_calculation/match_calculator.js:40-65 | with distinct names the deltas object holds each rated player's own delta |
| MatchCalculation.ResultAt | utils/scores_calculation/match_calculator.js:98-111 | with distinct names the result under a player's name is the one made for that player |
| MatchCalculation.AveragedAt | utils/scores_calculation/match_calculator.js:70-82 | with distinct names, once some teams have been averaged each of their players holds the team's mean delta and every other player their own |
| MatchCalculation.OwnDelta | utils/scores_calculation/match_calculator.js:48-63 | without team averaging each player's delta is the adjusted sum of their points against every player of every other team |
| MatchCalculation.TeamAverage | utils/scores_calculation/match_calculator.js:70-82 | with team averaging in team mode each player of a team gets the mean of the team's raw deltas |
| MatchCalculation.DuelRated | utils/scores_calculation/match_calculator.js:34-37 | two players alone in a solo match make a valid system in which each has one opponent |
| MatchCalculation.EloDuel | utils/scores_calculation/match_calculator.js:48-63 | in an Elo duel what one player wins the other loses |
| MatchCalculation.MmrDuel | utils/scores_calculation/match_calculator.js:48-63 | in an MMR duel, what one player wins the other loses: always when one beats the other, within the cap on a tie |
| MatchCalculation.CalculateDeltas | utils/scores_calculation/match_calculator.js:89-104 | with distinct names every player's result carries the delta computed for their seat |
| Board.NewRows | utils/scores_calculation/match_calculator.js:229-237 | the rows added are at most one per result |
| Board.NewRowsFrom | utils/scores_calculation/match_calculator.js:229-237 | every row added is the new row (no ranking, final rating) of a result whose player had no row on the board |
| Board.NewRowsCover | utils/scores_calculation/match_calculator.js:229-237 | every result whose player has no row on the board gets its new row |
| Board.NewRowsDistinct | utils/scores_calculation/match_calculator.js:229-237 | results with distinct names add rows with distinct names, none already on the board |
| Board.BoardRatings | utils/scores_calculation/match_calculator.js:217-238 | after calculateBoardRatings every result's player has a row, the added rows are new rows of players that had none, and distinct rows stay distinct |
| Board.Rerated | utils/scores_calculation/match_calculator.js:262-275 | writing the final ratings keeps every row's name and ranking and the number of rows |
| Board.Place | utils/scores_calculation/match_calculator.js:283-286 | the 1-based place of a name is that of a standing row with the name, and None exactly when no row has it |
| Board.Newcomers | utils/scores_calculation/match_calculator.js:293-297 | the number of new players rated above is at most the number of new players |
| Board.Resets | utils/scores_calculation/match_calculator.js:255-265 | every result's final ranking is cleared and its original ranking read off the board |
| Board.RankedResults | utils/scores_calculation/match_calculator.js:280-298 | ranking keeps one result per result |
| Board.RankedBoard | utils/scores_calculation/match_calculator.js:300-306 | the caller's rows after ranking are as many as before |
| Board.PlaceSnoc | utils/scores_calculation/match_calculator.js:283 | one more standing row places only players of that name, at its position |
| Board.StandingDistinct | utils/scores_calculation/match_calculator.js:249-278 | distinct rows and results give rows and a standing that hold each name once |
| Board.ReratedRating | utils/scores_calculation/match_calculator.js:274 | a result's final rating is written into its player's row |
| Board.RowOfResult | utils/scores_calculation/match_calculator.js:262-275 | every result has a row with its player's name and final rating |
| Board.StandingRow | utils/scores_calculation/match_calculator.js:278-286 | every result has the standing row holding its name and final rating, and its place is that row's position |
| Board.RankingsFollowRatings | utils/scores_calculation/match_calculator.js:277-286 | every result gets a final ranking, and a player rated higher ranks better |
| Board.BoardAgrees | utils/scores_calculation/match_calculator.js:262-305 | a board row of a match player ends with that player's final rating and final ranking |
| Board.BoardRanksDistinct | utils/scores_calculation/match_calculator.js:300-305 | every board row gets a ranking and no two rows the same one |
| Board.RowPlaced | utils/scores_calculation/match_calculator.js:300-305 | a board row is ranked by the place its name holds in the standing |
| Board.StaleRating | utils/scores_calculation/match_calculator.js:220-226 | as written, a board player's row keeps its old rating where the intended rows hold the result's final rating |
| Board.RankedStanding | utils/scores_calculation/match_calculator.js:300-306 | the intended board has one row per standing row |
| Board.RankedStandingOrdered | utils/scores_calculation/match_calculator.js:277-306 | the intended board lists rows by rating, highest first, ranked 1, 2, 3 and on |
| Board.CallerRowRanked | utils/scores_calculation/match_calculator.js:300-306 | each row of the caller's board equals the intended board's row of that name; only the order differs |
| Board.BoardOrderKept | utils/scores_calculation/match_calculator.js:306 | as written, two rows with the lower rating first keep that order on the caller's board, where the intended board puts it second |
| Board.TwoRowsSwapped | utils/scores_calculation/match_calculator.js:278 | the standing of two rows with the lower rating first swaps them |
| Board.NewcomersNone | utils/scores_calculation/match_calculator.js:293-297 | when no new player is rated above, the count of newcomers is zero |
| Board.OriginalShift | utils/scores_calculation/match_calculator.js:288-297 | a returning player's original ranking moves down by at most one per new player, and stays when no newcomer is rated above |
| Board.Leaderboard.constructor | utils/scores_calculation/match_calculator.js:217 | the leaderboard holds the rows given |
| Board.Leaderboard.CalculateBoardRatings | utils/scores_calculation/match_calculator.js:217-238 | the rows become the old rows plus the new rows of players without one |
| Board.Leaderboard.CalculateBoardRankings | utils/scores_calculation/match_calculator.js:247-307 | the pushed names, the ranked results and the caller's rows are those of the specification functions |
| Board.Leaderboard.WriteRatings | utils/scores_calculation/match_calculator.js:262-275 | the second loop leaves the rerated rows, the added rows and the pushed names of the specification |
| Board.Leaderboard.WriteRow | utils/scores_calculation/match_calculator.js:263-274 | one step reads the board ranking, says whether the player had a row, and writes the final rating into it |
| Board.Leaderboard.WriteRankings | utils/scores_calculation/match_calculator.js:301-305 | the last loop ranks each row by its place in the standing and changes nothing else |
| SubmittedMatch.UpdateOf | utils/scores_calculation/match_calculator.js:141 | the update found carries the name, and none is found exactly when no update has it |
| SubmittedMatch.UpdateOfFirst | utils/scores_calculation/match_calculator.js:141 | the update found is one of the updates |
| SubmittedMatch.ScannedTierName | utils/scores_calculation/match_calculator.js:147-168 | a tier name is found exactly when there are tiers |
| SubmittedMatch.ScanTier | utils/scores_calculation/match_calculator.js:148-157 | one tier loop gives the specified tier name |
| SubmittedMatch.ScannedTierAgrees | utils/scores_calculation/match_calculator.js:148-157 | where no tier has an empty name, the loop names the tier the rating reaches |
| SubmittedMatch.FirstPlayer | utils/scores_calculation/match_calculator.js:136-137 | there is no first player exactly when every team is empty |
| SubmittedMatch.EnterSubmitted | utils/scores_calculation/match_calculator.js:139-193 | one player's step is the specified entry |
| SubmittedMatch.FirstPlayerAt | utils/scores_calculation/match_calculator.js:136-137 | the first player is the first of the first team that has players |
| SubmittedMatch.EnterTeam | utils/scores_calculation/match_calculator.js:137-194 | the inner loop ends as the whole call does, or leaves every player so far found and entered |
| SubmittedMatch.CalculateSubmittedMatch | utils/scores_calculation/match_calculator.js:130-209 | the result is the specification's |
| SubmittedMatch.SubmittedNull | utils/scores_calculation/match_calculator.js:141-206 | with tiers it never throws, and returns null exactly when there is no player or a player has no update; without tiers no results |
| SubmittedMatch.SubmittedResults | utils/scores_calculation/match_calculator.js:180-208 | the results have distinct names, one per player of the match |
| SubmittedMatch.SubmittedFromUpdates | utils/scores_calculation/match_calculator.js:180-193 | each result is made from a match player and that player's first update |
| SubmittedMatch.SubmittedSorted | utils/scores_calculation/match_calculator.js:198 | the results are sorted by team position; with one team also by position, and with several teams of distinct player and team names by position within each team |
| Lorenzi.Rows | utils/scores_calculation/lorenzi_api.js:140-144 | one row per board player, each made from that player |
| Lorenzi.ParsePlayers | utils/scores_calculation/lorenzi_api.js:132-149 | no players gives none; otherwise the rows sorted by rating, highest first |
| Lorenzi.ParsedPlayersOrdered | utils/scores_calculation/lorenzi_api.js:140-145 | the parsed players are the board's players with 1-based rankings, by rating descending, ties in board order |
| Lorenzi.HashDigits | utils/scores_calculation/lorenzi_api.js:252-262 | the lobby number is the digits after the first `#` followed by a digit, and there is none exactly when no `#` is followed by a digit |
| Lorenzi.BoardTypes | utils/scores_calculation/lorenzi_api.js:224-229 | a type is listed exactly when the leaderboard table rates it on the board |
| Lorenzi.FirstWithCounts | utils/scores_calculation/lorenzi_api.js:281-286 | the type found is the first with the match's counts, and none is found exactly when no type has them |
| Lorenzi.Kept | utils/scores_calculation/lorenzi_api.js:231-349 | no more matches are kept than there are |
| Lorenzi.InferType | utils/scores_calculation/lorenzi_api.js:277-287 | the loop keeps the first board type whose default counts are the match's |
| Lorenzi.BuildTagTeam | utils/scores_calculation/lorenzi_api.js:316-338 | one team mode team is built with its players and running totals |
| Lorenzi.BuildTeams | utils/scores_calculation/lorenzi_api.js:294-340 | the push loops build the teams of the specification |
| Lorenzi.ParseMatch | utils/scores_calculation/lorenzi_api.js:234-347 | a match is skipped exactly when its data is not JSON, its lobby number lookup throws, it has no `teams` or it has no type; otherwise only its teams are re-sorted |
| Lorenzi.ShapeMatch | utils/scores_calculation/lorenzi_api.js:236-340 | the stored match is built as specified |
| Lorenzi.ReadType | utils/scores_calculation/lorenzi_api.js:264-287 | the type comes from the title or tag, else from the board's types |
| Lorenzi.ParseMatches | utils/scores_calculation/lorenzi_api.js:160-350 | no matches gives none; otherwise the kept matches, in board order, each with its teams sorted |
| Lorenzi.KeptStep | utils/scores_calculation/lorenzi_api.js:233-345 | one more board match adds its shaped match when it is not skipped |
| Lorenzi.SoloTeamsFrom | utils/scores_calculation/lorenzi_api.js:296-314 | outside team modes every team is the team of one stored player, one per player |
| Lorenzi.SoloTeamsOfOne | utils/scores_calculation/lorenzi_api.js:296-314 | outside team modes each team is named after its only player |
| Lorenzi.PenaltiesAbsolute | utils/scores_calculation/lorenzi_api.js:307-330 | every stored penalty is an absolute value, on players and teams |
| Lorenzi.TeamTotals | utils/scores_calculation/lorenzi_api.js:316-338 | in team modes a team's score and penalty are its players' totals |
| Lorenzi.NoTeamsSkipped | utils/scores_calculation/lorenzi_api.js:240-342 | a stored match without a `teams` property is skipped, whatever its title |
| Lorenzi.KeptExactly | utils/scores_calculation/lorenzi_api.js:236-344 | a stored match is kept exactly when its data is JSON, its lobby number lookup does not throw, it has `teams` and it has a lobby type |
| Lorenzi.NoSourceKeepsEmptyType | utils/scores_calculation/lorenzi_api.js:243-291 | a match with no title and no team name keeps the type "" and is neither inferred nor skipped |
| Lorenzi.InferredType | utils/scores_calculation/lorenzi_api.js:277-287 | an inferred type is rated on the board and has the match's default counts |
| Lorenzi.DefaultCountsConsistent | utils/scores_calculation/lorenzi_api.js:166-222 | a team lobby holds teams times team size players, other lobbies one player per team |
| MatchComparison.ArePenaltiesSame | utils/scores_calculation/scores_calculation.js:675-690 | the penalties are the same exactly when the team counts agree and no two teams with the same player order differ in penalty |
| MatchComparison.Correspond | utils/scores_calculation/scores_calculation.js:609-623 | a player corresponds exactly when some team of the other match has the name and every such player has the same total |
| MatchComparison.AreTeamsEqual | utils/scores_calculation/scores_calculation.js:591-628 | the loop returns the specification's team equality |
| MatchComparison.AreMatchesEqual | utils/scores_calculation/scores_calculation.js:586-636 | the comparison returns the specification's match equality |
| MatchComparison.FoundItself | utils/scores_calculation/scores_calculation.js:611 | with distinct names a name is found in its own team only |
| MatchComparison.MatchesEqualReflexive | utils/scores_calculation/scores_calculation.js:586-636 | a well-formed match equals itself |
| MatchComparison.EqualPlayersPlay | utils/scores_calculation/scores_calculation.js:606-625 | equality looks one way: every player of the first match plays in the second with the same total |
| MatchComparison.MatchesEqualNotSymmetric | utils/scores_calculation/scores_calculation.js:606-625 | some first match equals a second that does not equal it |
| MatchComparison.SoloEqualsPair | utils/scores_calculation/scores_calculation.js:606-625 | a table listing one player of a two-player lobby equals it |
| MatchComparison.PairNotSolo | utils/scores_calculation/scores_calculation.js:621-623 | the two-player lobby does not equal that table |
| MatchComparison.LetteredIdIsNaN | utils/scores_calculation/scores_calculation.js:661 | a board id starting with a letter parses to NaN |
| MatchComparison.LetteredBoardNeverDuplicated | utils/scores_calculation/scores_calculation.js:646-665 | a match on such a board is never found duplicated, not even by itself |
| MatchComparison.DuplicatedByExtension | utils/scores_calculation/scores_calculation.js:646-665 | a match on a numeric board with a numeric lobby number is duplicated by any copy with longer player orders |
| MatchComparison.PrefixesDuplicate | utils/scores_calculation/scores_calculation.js:651-658 | teams paired with teams extending their player orders are duplicated by them |
| MatchComparison.PrefixOrder | utils/scores_calculation/scores_calculation.js:656 | a team whose order is a prefix of another's is matched by it |
| Dedup.Somes | utils/scores_calculation/scores_calculation.js:480 | the filter keeps at most as many values as there are slots |
| Dedup.SomesFrom | utils/scores_calculation/scores_calculation.js:480 | every value kept comes from a slot |
| Dedup.SomesOrdered | utils/scores_calculation/scores_calculation.js:480 | the values kept stay in the order of their slots |
| Dedup.SomesAll | utils/scores_calculation/scores_calculation.js:480 | with no null slot nothing is dropped |
| Dedup.Marks | utils/scores_calculation/scores_calculation.js:469-479 | after the nulling loops a slot is null exactly when a later match of the group relates to it |
| Dedup.DropRelated | utils/scores_calculation/scores_calculation.js:468-481 | one pass over a group leaves its survivors |
| Dedup.NullIfRelated | utils/scores_calculation/scores_calculation.js:470-478 | the inner loop sets slot i as specified and leaves every other slot |
| Dedup.Compact | utils/scores_calculation/scores_calculation.js:480 | the filter leaves the non-null slots in order |
| Dedup.SurvivorsKeepLast | utils/scores_calculation/scores_calculation.js:469-480 | the last match of a group always survives, so a group never empties |
| Dedup.SurvivorsInOrder | utils/scores_calculation/scores_calculation.js:469-480 | survivors keep their order in the group |
| Dedup.SurvivorsWithin | utils/scores_calculation/scores_calculation.js:469-480 | every survivor is a match of the group |
| Dedup.SurvivorsUnrelated | utils/scores_calculation/scores_calculation.js:469-480 | no survivor relates to a later survivor |
| Dedup.SurvivorsAll | utils/scores_calculation/scores_calculation.js:469-480 | a group with no related pair survives whole |
| Dedup.FindGroup | utils/scores_calculation/scores_calculation.js:459 | the group found has the lobby number, and none is found exactly when no group has it |
| Dedup.GroupIntoSnoc | utils/scores_calculation/scores_calculation.js:457-463 | one more match is added to the groups built so far |
| Dedup.GroupBySnoc | utils/scores_calculation/scores_calculation.js:457-463 | the last match is added to the grouping of the others |
| Dedup.AddToGroupWell | utils/scores_calculation/scores_calculation.js:459-462 | adding a match keeps the groups well formed and non-empty |
| Dedup.AddToGroupContents | utils/scores_calculation/scores_calculation.js:459-462 | adding a match adds exactly that match to the groups' contents |
| Dedup.GroupByNumberWell | utils/scores_calculation/scores_calculation.js:457-463 | grouping gives distinct non-empty groups of matches of their number |
| Dedup.GroupByNumberKeeps | utils/scores_calculation/scores_calculation.js:457-463 | grouping loses and adds no match |
| Dedup.Deduped | utils/scores_calculation/scores_calculation.js:468-498 | a pass keeps one group per group |
| Dedup.GroupMatches | utils/scores_calculation/scores_calculation.js:457-463 | the grouping loop builds the specified groups |
| Dedup.DropInGroups | utils/scores_calculation/scores_calculation.js:468-481 | a pass over every group leaves the specified groups |
| Dedup.FlattenGroups | utils/scores_calculation/scores_calculation.js:501-506 | the flattening loop lists the groups' matches in group order |
| Dedup.Thin | utils/scores_calculation/scores_calculation.js:457-506 | grouping, both passes and flattening give the thinned list |
| Dedup.ThinnedNonEmpty | utils/scores_calculation/scores_calculation.js:457-506 | thinning never empties a non-empty list |
| Dedup.ThinnedGroupsClean | utils/scores_calculation/scores_calculation.js:468-498 | within a group no match left equals or duplicates a later one |
| Dedup.LastGrouped | utils/scores_calculation/scores_calculation.js:457-463 | the last match added closes its group |
| Dedup.LastThinned | utils/scores_calculation/scores_calculation.js:457-506 | the last match of the list is always kept |
| Dedup.PassesKeepLast | utils/scores_calculation/scores_calculation.js:468-498 | both passes keep the last match of every group |
| Dedup.ThinnedEnds | utils/scores_calculation/scores_calculation.js:457-506 | the list ends with the last match of the group whose number first appeared last |
| Dedup.ThinnedEndsWithLast | utils/scores_calculation/scores_calculation.js:457-506 | when the last match's number is the last group's, the list ends with it |
| Dedup.ThinnedEndsNumber | utils/scores_calculation/scores_calculation.js:457-506 | the list ends with a match of the number whose group came last |
| Dedup.ThinnedEndsWithOther | utils/scores_calculation/scores_calculation.js:457-506 | two matches of one number around one of another: the list ends with the other number's match, though it came earlier |
| Dedup.GroupsOfThree | utils/scores_calculation/scores_calculation.js:457-463 | the first match opens the first group, the second the second, and the third joins the first's group |
| Dedup.FlattenMovingLastKeeps | utils/scores_calculation/scores_calculation.js:501-506 | moving a group to the end keeps every match |
| Dedup.ThinnedTableLastKeeps | utils/scores_calculation/scores_calculation.js:457-506 | the corrected order keeps what the thinning keeps |
| Dedup.ThinnedTableLastEnds | utils/scores_calculation/scores_calculation.js:457-506 | the corrected order ends with the last match, the table |
| Dedup.PassesFindEnd | utils/scores_calculation/scores_calculation.js:468-506 | the group of a number is still found after both passes, and moving it last puts its last match last |
| Dedup.GroupOfLast | utils/scores_calculation/scores_calculation.js:457-463 | the group of the last match is the one it closes |
| Dedup.FindGroupDeduped | utils/scores_calculation/scores_calculation.js:480 | a pass keeps the groups' numbers, so it finds the same group |
| Prediction.LatestSubmitted | utils/scores_calculation/scores_calculation.js:263-265 | the latest match exists exactly when the board has matches, and is the first |
| Prediction.LatestDate | utils/scores_calculation/scores_calculation.js:362-365 | a date is known only for a latest match with a positive play date |
| Prediction.FirstEqual | utils/scores_calculation/scores_calculation.js:371-387 | the submission found is the first whose parse the table equals, and no earlier one is |
| Prediction.CacheFaithful | utils/scores_calculation/scores_calculation.js:370-377 | every cache entry is the parse of a submission read, under its whitespace-normalised key |
| Prediction.ScanBacklog | utils/scores_calculation/scores_calculation.js:369-387 | the first loop leaves the specified cache and current submission date |
| Prediction.WithTemplate | utils/scores_calculation/scores_calculation.js:451-454 | the candidates with the table are never empty |
| Prediction.CollectSound | utils/scores_calculation/scores_calculation.js:391-447 | every candidate passed the filters and no key is taken twice |
| Prediction.TemplateLast | utils/scores_calculation/scores_calculation.js:451-454 | when the template's key is free the table is the last candidate |
| Prediction.CollectCandidates | utils/scores_calculation/scores_calculation.js:391-447 | the second loop collects the specified candidates |
| Prediction.GatherCandidates | utils/scores_calculation/scores_calculation.js:369-454 | both loops and the template give the specified candidates, and it reports whether the table joined them because its key was free |
| Prediction.Seeded | utils/scores_calculation/scores_calculation.js:525-540 | exactly the players of the matches are seeded |
| Prediction.SeededRatings | utils/scores_calculation/scores_calculation.js:525-540 | a player without a board row starts at the initial rating, one with rows at the first row's |
| Prediction.SeedInitial | utils/scores_calculation/scores_calculation.js:525-532 | the first seeding loop puts every player at the initial rating |
| Prediction.SeedFromBoard | utils/scores_calculation/scores_calculation.js:535-540 | the second seeding loop gives a player with a row the row's rating |
| Prediction.SeedRatings | utils/scores_calculation/scores_calculation.js:525-540 | the two seeding loops give the specified ratings |
| Prediction.WithRatings | utils/scores_calculation/scores_calculation.js:546-550 | reading ratings in keeps the teams |
| Prediction.WithRatingsReads | utils/scores_calculation/scores_calculation.js:546-550 | every player's rating is read off the map and only ratings change |
| Prediction.Rerate | utils/scores_calculation/scores_calculation.js:560-562 | the result names join the rated players |
| Prediction.RerateFinal | utils/scores_calculation/scores_calculation.js:560-562 | with distinct names each result's player takes the result's final rating |
| Prediction.Fresh | utils/scores_calculation/scores_calculation.js:565-566 | the new players have no board row |
| Prediction.FailureStops | utils/scores_calculation/scores_calculation.js:553-557 | a failure ends the replay; later matches change nothing |
| Prediction.ReplayEnds | utils/scores_calculation/scores_calculation.js:543-573 | a replay of at least one match ends with a result or a failure |
| Prediction.ReplayKeepsRatings | utils/scores_calculation/scores_calculation.js:543-573 | the players rated before the replay are rated after |
| Prediction.RankedBoardDistinct | utils/scores_calculation/scores_calculation.js:569-572 | ranking keeps distinct rows distinct |
| Prediction.RerateAll | utils/scores_calculation/scores_calculation.js:560-562 | the loop writes the specified ratings |
| Prediction.FreshNames | utils/scores_calculation/scores_calculation.js:565-566 | the filter gives the specified new players |
| Prediction.ReplayOne | utils/scores_calculation/scores_calculation.js:546-572 | one pass of the replay loop takes the specified step, and the board rows stay distinct |
| Prediction.ReplayAllNext | utils/scores_calculation/scores_calculation.js:544-573 | one more match replays one more step |
| Prediction.ReplayMatches | utils/scores_calculation/scores_calculation.js:543-573 | the replay loop ends in the specified outcome and board, and leaves each match it reached with the ratings it wrote into its players |
| Prediction.PredictMatch | utils/scores_calculation/scores_calculation.js:350-576 | the prediction is the specification's, and the table is left as `TableLeft` says |
| Prediction.NeverNoMatches | utils/scores_calculation/scores_calculation.js:451-514 | the table is always a candidate, so "No matches found." is never the outcome |
| Prediction.ResultOrMessage | utils/scores_calculation/scores_calculation.js:511-575 | a prediction has a result exactly when it sets no message |
| Prediction.UnsupportedScheme | utils/scores_calculation/scores_calculation.js:517-521 | an unsupported scheme is reported as such, whatever the matches |
| Prediction.SeededEveryone | utils/scores_calculation/scores_calculation.js:525-548 | every player of every replayed match is rated before the first match is calculated |
| Prediction.TableReplayed | utils/scores_calculation/scores_calculation.js:451-506 | unless a submission's text is the template's, the table is replayed |
| Prediction.LastAt | utils/scores_calculation/scores_calculation.js:451-454 | the index of the last match equal to the given one, with no equal match after it, and None exactly when there is none |
| Prediction.WrittenAt | utils/scores_calculation/scores_calculation.js:543-557 | each replayed match is left with the ratings of the replay just before its step, or as it was when an earlier match failed |
| Prediction.WrittenAfterFailure | utils/scores_calculation/scores_calculation.js:553-557 | after a failure the remaining matches are left as they were |
| Prediction.TableRated | utils/scores_calculation/scores_calculation.js:451-557 | when the table joins the candidates and the scheme is supported, the table is replayed and left with the ratings just before its step, and always so when the prediction has a result |
| Prediction.TableUntouched | utils/scores_calculation/scores_calculation.js:451-521 | when a submission took the template's key, or the scheme is unsupported, the table is left as parsed |
| Prediction.StepResults | utils/scores_calculation/scores_calculation.js:553-572 | a step that does not fail leaves the results of its match |
| Prediction.PredictedFromLast | utils/scores_calculation/scores_calculation.js:543-575 | a prediction's result is that of the last match replayed |
| Prediction.TableResult | utils/scores_calculation/scores_calculation.js:451-575 | when the table's lobby number appeared last among the candidates, the result is the table's |
| Prediction.OtherGroupResult | utils/scores_calculation/scores_calculation.js:456-575 | otherwise the result is that of the last match of the group whose number appeared last |
| Prediction.PredictThinnedOther | utils/scores_calculation/scores_calculation.js:456-575 | replaying a thinned list whose last group has another number leaves that number's results |
| Prediction.TableLastCandidate | utils/scores_calculation/scores_calculation.js:451-454 | when no submission's text is the template's, the table is the last candidate |
| Prediction.PredictTableResult | utils/scores_calculation/scores_calculation.js:451-575 | replayed with the table's group last, a result is always the table's |
| Prediction.TableReplayedLast | utils/scores_calculation/scores_calculation.js:451-506 | the corrected order replays the table last |
| Prediction.PredictEndsWith | utils/scores_calculation/scores_calculation.js:543-575 | replaying a list ending with a match leaves, if anything, that match's results |
| Prediction.PredictTableKeeps | utils/scores_calculation/scores_calculation.js:457-506 | the corrected order replays the same matches as the order as written |
| Prediction.LatestDateCreated | utils/scores_calculation/scores_calculation.js:362-365 | with the intended fallback, a latest match with a known creation date always gives a date |
| Prediction.UndatedLatestUnbounded | utils/scores_calculation/scores_calculation.js:362-365 | as written, a latest match without a positive play date gives no date, where the intended fallback gives its creation date |
| ScoresCalculation.SameLobbyMatches | utils/scores_calculation/scores_calculation.js:243 | exactly the board's matches whose lobby number parses to the table's, and no more of them |
| ScoresCalculation.SelectedMatch | utils/scores_calculation/scores_calculation.js:281-291 | the match selected equals the table, compared the board's way round, and none is selected exactly when no candidate does |
| ScoresCalculation.FilterSameLobby | utils/scores_calculation/scores_calculation.js:274 | the filter keeps the specified matches |
| ScoresCalculation.IsSubmittedMatch | utils/scores_calculation/scores_calculation.js:237-256 | the loop answers the specified submitted check |
| ScoresCalculation.GetSubmittedMatch | utils/scores_calculation/scores_calculation.js:272-305 | the submitted match is the specified one, with its rating updates fetched |
| ScoresCalculation.SubmittedYetNotFound | utils/scores_calculation/scores_calculation.js:237-305 | some table counts as submitted although no board match is then selected for it |
| ScoresCalculation.ResultIffUnset | utils/scores_calculation/scores_calculation.js:105-162 | without a throw, calculate returns a result exactly when it leaves the error type unset |
| ScoresCalculation.NeverFatal | utils/scores_calculation/scores_calculation.js:105-162 | calculate never sets the fatal error type itself |
| ScoresCalculation.UnsupportedSchemeFails | utils/scores_calculation/scores_calculation.js:153-159 | a board lacking its scheme's settings fails a prediction with a calculation error and that reason |
| ScoresCalculation.ParseErrorShown | utils/scores_calculation/scores_calculation.js:111-116 | a refused table gives the parse error type and the message "Could not parse table results template. Error: " followed by the reading error, or by "Invalid teams." |
| ScoresCalculation.OutcomePredicted | utils/scores_calculation/scores_calculation.js:131-153 | a parsed table not submitted to its board ends on the prediction path |
| ScoresCalculation.PredictedUnsupported | utils/scores_calculation/scores_calculation.js:153-159 | on the prediction path an unsupported scheme is a calculation error carrying its message |
| ScoresCalculation.ReadTable | utils/scores_calculation/scores_calculation.js:109-111 | the parse step gives what the parser gives for the text |
| ScoresCalculation.Calculation.Calculate | utils/scores_calculation/scores_calculation.js:105-162 | the result, error type, message and board are those of the specified flow; the table is the parsed one, with the submitted match's lobby type and name, or with the ratings the prediction's replay wrote into it |
| ScoresCalculation.Calculation.CalculateRead | utils/scores_calculation/scores_calculation.js:106-117 | the error type is reset, the template kept, and a parse error stops the flow with "Could not parse table results template. " followed by the parser's thrown error; otherwise the table ends as `TableAfter` says, including the prediction's rating writes |
| ScoresCalculation.Calculation.CalculateParsed | utils/scores_calculation/scores_calculation.js:119-161 | with a parsed table, the board is fetched, then the submitted match shown or the match predicted, as specified; on the prediction path the table carries the ratings the replay wrote into it |
| ScoresCalculation.Calculation.ShowSubmitted | utils/scores_calculation/scores_calculation.js:131-146 | the submitted path sets the specified outcome and table, and keeps the template and board |
| ScoresCalculation.Calculation.ShowPrediction | utils/scores_calculation/scores_calculation.js:153-161 | the prediction path sets the specified outcome, keeps the template, and leaves the table as the replay left it |
| TableHelper.MostScores | utils/scores_calculation/table/helper.js:27 | the most scores is that of some player and at least every player's, and none exactly when there is no player |
| TableHelper.MaxNbScores | utils/scores_calculation/table/helper.js:26-28 | the number of races is the most scores of any player of any team, none exactly when no team has a player |
| TableHelper.TotalMatchPointsConcat | utils/scores_calculation/table/helper.js:36-38 | the points of two groups of teams together are their sum |
| TableHelper.TotalMatchPointsReordered | utils/scores_calculation/table/helper.js:36-38 | the lobby's points do not depend on the teams' order |
| TableHelper.SliceEnd | utils/scores_calculation/table/helper.js:48 | a slice end is within the text and is the end itself when it is in range |
| TableHelper.ShortNameFits | utils/scores_calculation/table/helper.js:47-49 | for a limit of at least three, the name shown fits and is the name or a prefix followed by "..." |
| TableHelper.ShortNameIdempotent | utils/scores_calculation/table/helper.js:47-49 | shortening a shortened name changes nothing |
| TableHelper.RankText | utils/scores_calculation/table/helper.js:65-76 | the fallback rank text is the number followed by "st", "nd", "rd" or "th" |
| TableHelper.RankTextInjective | utils/scores_calculation/table/helper.js:65-76 | distinct ranks have distinct texts |
| TableHelper.LowestPosition | utils/scores_calculation/table/helper.js:86-96 | the lowest position is some entry's and at most every entry's, none exactly when there is no entry |
| TableHelper.HighestPosition | utils/scores_calculation/table/helper.js:86-96 | the highest position is some entry's and at least every entry's, none exactly when there is no entry |
| TableHelper.LastPlaceSole | utils/scores_calculation/table/helper.js:85-109 | a last place is named exactly when it is the sole last place beyond the podium |
| TableHelper.Extremes | utils/scores_calculation/table/helper.js:86-96 | the first pass finds the lowest and highest positions |
| TableHelper.CountPosition | utils/scores_calculation/table/helper.js:98-103 | the second pass counts the entries at the position |
| TableHelper.GetLastPlaceNumber | utils/scores_calculation/table/helper.js:85-109 | the method returns the specified last place |
| TableHelper.AreRankingsAvailable | utils/scores_calculation/table/helper.js:158-165 | rankings are available exactly when there is an entry |
| TableHelper.RankingShiftSymbol | utils/scores_calculation/table/helper.js:173-190 | down exactly when the final ranking is larger, up exactly when smaller, level when equal or either is null |
| TableHelper.RankingShiftReversed | utils/scores_calculation/table/helper.js:173-190 | swapping the rankings swaps up and down |
| TableHelper.NoPenaltyNets | utils/scores_calculation/table/helper.js:197-199 | without a penalty every player's net points are their race scores' sum |
| TableImage.TierMap | utils/scores_calculation/table/image.js:54-57 | a name is mapped exactly when some tier has it, to a tier of that name |
| TableImage.TierMapLast | utils/scores_calculation/table/image.js:55-57 | of several tiers with one name, the last is the one looked up |
| TableImage.ShownFor | utils/scores_calculation/table/image.js:64-70 | the final tier is drawn, shifted exactly when the names differ, up exactly when the final tier starts higher |
| TableImage.WithTiers | utils/scores_calculation/table/image.js:59-73 | every entry gets the tier specified for it |
| TableImage.FirstUnknown | utils/scores_calculation/table/image.js:59-73 | the loop stops at the first entry whose tier is not on the board, or at the end |
| TableImage.Updated | utils/scores_calculation/table/image.js:51-83 | after both loops every entry has its tier and its recomputed delta |
| TableImage.UpdatedEntry | utils/scores_calculation/table/image.js:59-79 | each entry gets its final tier, a shift only when its tier changed, the difference of its whole ratings, and nothing else changes |
| TableImage.WholeDeltaClose | utils/scores_calculation/table/image.js:78 | the recomputed delta is within one point of the exact change |
| TableImage.UpdateIdempotent | utils/scores_calculation/table/image.js:51-83 | updating updated results changes nothing |
| TableImage.BoardTiersKnown | utils/scores_calculation/table/image.js:59-73 | results whose tiers come from the board update without a throw |
| TableImage.LobbyResults.UpdateLobbyResults | utils/scores_calculation/table/image.js:51-83 | a missing tier stops the update after the entries before it have their tier; otherwise every entry is updated |
| TableImage.LobbyResults.SetTiers | utils/scores_calculation/table/image.js:59-73 | the second loop tiers each entry up to the first missing one |
| TableImage.LobbyResults.SetDeltas | utils/scores_calculation/table/image.js:76-79 | the third loop sets each entry's delta from its whole ratings |
| TableImage.BuildTierMap | utils/scores_calculation/table/image.js:54-57 | the first loop builds the tier map |
| ScoresCalculation.SubmittedAsSelectedFound | utils/scores_calculation/scores_calculation.js:237-291 | with the check as intended, a table counts as submitted exactly when a board match is then selected for it |

## Left out

- RatingSystems.RatingSystem.Calculate, RatingSystems.RatingSystem.Adjust: `Math.pow` is the parameter `maths` (a `RatingSystems.Maths`), and the laws the proofs need are `requires` clauses (`RatingSystems.PowersOfTen`, `RatingSystems.Powers`). Ratings are real numbers rather than IEEE doubles, so NaN, infinities and rounding are not modelled.
- RatingSystems.At, RatingSystems.ScalingFactor, RatingSystems.Baseline: a settings list with no entry for the lobby type gives None, so `IsValid` fails and the calculation returns null. In the source the entry is `undefined`, which passes the `null !==` checks of `isValid` (`rating_system_elo.js:95`, `rating_system_mmr.js:84`), and the ratings come out NaN.
- Objects: JavaScript lists integer-like property names (such as a player named "7") first, in numeric order, before the other names. The model keeps every object in the order its properties were first set. For such names it therefore does not follow the order of the results, of `newPlayers` (`scores_calculation.js:560-566`), or of the rows pushed onto the board.
- Strings, TableLexer: the regular expressions of the table parser are replaced by grammars over the line's words and characters. `toLowerCase` and `toUpperCase` change only ASCII letters, and `\s` is a fixed set of whitespace characters. `_removeEmojis` is not modelled.
- ScoresCalculation.Services: `parse` is a free parameter. The source reads the submissions with the same `TableParser` (`scores_calculation.js:352, 375, 400`), but the model does not tie `parse` to `TableParsing.ParseTable`. Fetching the board and the rating updates from Lorenzi, and reading the results submissions channel (`_getResultsSubmissionsMessages`), are also parameters of `Services`.
- TableParsing.TableParser.Parse, ScoresCalculation.ReadTable, ScoresCalculation.Calculation.Calculate: these use the corrected clean-up `TableParsing.ParseTable` (see "## Findings"). Take a table whose last team line is followed only by a comment line. The source throws at `table_parser.js:123` and `parse` returns null, so `calculate` sets the parse error with the TypeError's message (`scores_calculation.js:111-116`). The model drops the empty team and goes on to fetch the board. `TableParsing.ParseAsWritten` is the source's behaviour.
- MatchCalculation.CalculateOrder, SubmittedMatch.SubmittedSorted: the order within each team is proved only when player names and team names are distinct. The parser does not refuse two teams of one name, and the sort then treats them as one team, so their results can interleave.
- MatchCalculation.Tier, SubmittedMatch.ScanTier: a tier's lower bound is an integer. The source reads it three ways: `parseInt` when scanning the tiers of a submitted match (`match_calculator.js:149, 160`), the raw value in `_getTierByRating` and `_getLowestTier` (`match_calculator.js:343, 370`), and `parseFloat` in `_getMinRating` (`match_calculator.js:387`). A fractional or textual bound is not modelled, and neither is the way these readings can then disagree.
- TableParsing.Conclude: the corrected clean-up drops the empty teams but leaves their lines in the template. The source means to remove each template line whose trimmed text is an empty team's name (`table_parser.js:123-127`); the model does not capture that.
- ScoresCalculation.Calculation.Calculate: the prediction replays the matches in the source's order (`Prediction.PredictSpec`), not in the corrected order `Prediction.PredictTable`. It also keeps the source's check that a match was submitted (`ScoresCalculation.Submitted`) and the source's latest-match date (`Prediction.LatestDate`).
- Prediction.TableLeft: matches are values, so the table object among the replayed matches is taken to be the last replayed match equal to it. A match equal to the table has its lobby number and lies in its group, where the table comes last. The ratings written into the other replayed matches, which are parses of the submissions, are kept in `Prediction.Written` but read by nothing afterwards.
- Board.Leaderboard.CalculateBoardRatings, Board.Leaderboard.CalculateBoardRankings: these are modelled as written (see "## Findings"). The source mutates the result objects in place; the model returns the ranked results as values.
- Board.Leaderboard.CalculateBoardRankings: the board's rows must have distinct names, as the rows of a Lorenzi board do. With two rows of one name, the source's map keeps the later row, and the model does not follow that.
- TableHelper.ShortNameFits: it requires a limit of at least three. With a smaller limit, `slice` with a negative end counts back from the end of the name, and the shortened name can be longer than the limit.
- TableHelper: `getDate` reads the clock, and `getRank`, `getFlag` and `getShiftImage` load images; only `getRank`'s fallback text is modelled (`TableHelper.RankText`).
- TableImage: only `_updateLobbyResults` is modelled. A tier is its name and lower bound; its colour and the other fields drawn are not modelled.
- ScoresCalculation: `generateResultsTable`, `drawTable`, `getErrorMessage` and the class constructor are not modelled. They format messages and draw the image. The asynchronous calls are modelled as plain calls.
- Lorenzi: `getBoard`, `getMatchRatingUpdates`, `makeRequest` and `checkLorenziStatus` are HTTP requests and are not modelled. `JSON.parse` of a match's data is modelled by the parsed data it yields (None where it throws).

## Findings

Each finding below pairs a member that models the code as written, with a lemma that exhibits the discrepancy, and a member that models the evidently intended behaviour, with that behaviour proved.

| source | as written | input that shows it | evidently intended | confidence | as-written member | corrected member |
|---|---|---|---|---|---|---|
| utils/scores_calculation/table_parser.js:117-129 | an empty team left after the loop makes the clean-up call `entries()` on the template string, which throws, so `parse` returns null | a team with players, then a team line followed only by a comment line at the end of the table | drop the empty teams, then check the teams that are left | not executed | TableParsing.ParseAsWritten, TableParsing.EmptyTeamRejected | TableParsing.ParseTable, TableParsing.Conclude |
| utils/scores_calculation/match_calculator.js:222 | the final rating is assigned to `boardPlayers.rating`, a property of the array, so a board player's row keeps its old rating | a result for a player who already has a row with another rating | write the final rating into the player's row | not executed | Board.Leaderboard.CalculateBoardRatings, Board.StaleRating | Board.Rows, Board.RowOfResult |
| utils/scores_calculation/match_calculator.js:306 | `boardPlayers = newBoardPlayers` rebinds only the parameter, so the caller's rows keep their order | two rows, the first rated lower, and no results | leave the rows sorted by rating, ranked 1, 2, 3 and on | not executed | Board.Leaderboard.CalculateBoardRankings, Board.BoardOrderKept | Board.RankedStanding, Board.RankedStandingOrdered, Board.CallerRowRanked |
| utils/scores_calculation/scores_calculation.js:364 | the fallback reads `date`, which the stored match does not have, so the date is invalid and the lower bound of the submissions window is lost | a latest board match whose play date is 0 | fall back to the match's creation date, which the board query fetches | not executed | Prediction.LatestDate, Prediction.UndatedLatestUnbounded | Prediction.LatestDateCreated |
| utils/scores_calculation/scores_calculation.js:250 | `_isSubmittedMatch` compares the table with the board's match, and `_getSubmittedMatch` (line 283) compares the other way round; the comparison looks up only the first match's players in the second | a table of one player whose board match has that player and one more | compare the same way in both steps, so a match found submitted is then selected | not executed | ScoresCalculation.SubmittedYetNotFound | ScoresCalculation.SubmittedAsSelected, ScoresCalculation.SubmittedAsSelectedFound |
| utils/scores_calculation/scores_calculation.js:456-506 | the groups are flattened in the order their lobby number first appeared, and the result is the last replayed match's (line 544-575), so the table's result is returned only when the table's number appeared last | a submission of lobby 3 with other players, then one of lobby 5, then the table of lobby 3 | replay the table's group last, so the result is the table's | not executed | Prediction.OtherGroupResult, Dedup.ThinnedEndsWithOther | Prediction.PredictTable, Prediction.PredictTableResult, Prediction.PredictTableKeeps |
