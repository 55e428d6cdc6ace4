// The line grammar of a results table (utils/scores_calculation/table_parser.js):
// the lobby header, player lines, team lines, team penalty lines and
// comment lines, and the arithmetic of scores and penalties written in
// them. The regular expressions of the source are stated as grammars on
// the whitespace-separated words of a line (player lines) or on the
// characters of a line (header, team and penalty lines).
module TableLexer {
  import opened Wrappers
  import opened Strings
  import opened Records
  import opened Lobby

  predicate IsSign(c: char) { c == '+' || c == '-' }

  predicate IsParen(c: char) { c == '(' || c == ')' }

  /** The characters of a chain of decimal terms joined by `+` and `-`. */
  predicate SignsAndDigits(t: string)
  {
    forall i :: 0 <= i < |t| ==> IsDigit(t[i]) || IsSign(t[i])
  }

  /** The characters a penalty written in a table may hold: digits, signs and parentheses. */
  predicate PenaltyAlphabet(s: string)
  {
    forall i :: 0 <= i < |s| ==> IsDigit(s[i]) || IsSign(s[i]) || IsParen(s[i])
  }

  /** `str.replace(/[()]/g, "")`. */
  function WithoutParens(s: string): (r: string)
    ensures PenaltyAlphabet(s) ==> SignsAndDigits(r)
    ensures (forall i :: 0 <= i < |s| ==> !IsParen(s[i])) ==> r == s
    ensures |r| <= |s|
  {
    if s == [] then []
    else if IsParen(s[|s| - 1]) then WithoutParens(s[..|s| - 1])
    else WithoutParens(s[..|s| - 1]) + [s[|s| - 1]]
  }

  /** The index of the last sign in `t`, or -1. */
  function LastSign(t: string): (k: int)
    ensures -1 <= k < |t|
    ensures k >= 0 ==> IsSign(t[k])
    ensures forall j :: k < j < |t| ==> !IsSign(t[j])
  {
    if t == [] then -1
    else if IsSign(t[|t| - 1]) then |t| - 1
    else LastSign(t[..|t| - 1])
  }

  /**
   * The value of a chain of decimal terms joined by `+` and `-`, summed
   * from left to right; an empty term counts as 0 (the source reads it
   * as "0"). This is what `_sumFromString` computes on the penalties the
   * line grammars let through.
   */
  function Eval(t: string): int
    requires SignsAndDigits(t)
    decreases |t|
  {
    var k := LastSign(t);
    if k < 0 then DigitsValue(t)
    else if t[k] == '+' then Eval(t[..k]) + DigitsValue(t[k + 1..])
    else Eval(t[..k]) - DigitsValue(t[k + 1..])
  }

  /** Appending a signed term to a chain adds or subtracts its value. */
  lemma EvalAppend(t: string, op: char, n: nat)
    requires SignsAndDigits(t) && IsSign(op)
    ensures SignsAndDigits(t + [op] + NatToString(n))
    ensures Eval(t + [op] + NatToString(n)) == if op == '+' then Eval(t) + n else Eval(t) - n
  {
    var d := NatToString(n);
    var s := t + [op] + d;
    assert LastSign(s) == |t| by {
      assert forall j :: |t| < j < |s| ==> s[j] == d[j - |t| - 1];
      assert LastSign(s[..|t| + 1]) == |t|;
      LastSignDigits(s, |t| + 1);
    }
    assert s[..|t|] == t;
    assert s[|t| + 1..] == d;
    DigitsValueOfNatToString(n);
  }

  /** Digits appended after the last sign leave the last sign where it is. */
  lemma {:induction false} LastSignDigits(s: string, m: nat)
    requires m <= |s| && forall j :: m <= j < |s| ==> IsDigit(s[j])
    ensures LastSign(s) == LastSign(s[..m])
    decreases |s| - m
  {
    if m < |s| {
      LastSignDigits(s[..|s| - 1], m);
      assert s[..|s| - 1][..m] == s[..m];
    } else {
      assert s[..m] == s;
    }
  }

  /** A chain without signs is one term. */
  lemma EvalDigits(t: string)
    requires AllDigits(t)
    ensures SignsAndDigits(t) && Eval(t) == DigitsValue(t)
  {
    assert LastSign(t) == -1;
  }

  /** One more character of the chain: a digit extends the last term, a sign closes it. */
  lemma EvalStep(t: string, i: nat, start: nat)
    requires SignsAndDigits(t) && start <= i < |t|
    requires LastSign(t[..i]) == start - 1
    ensures AllDigits(t[start..i])
    ensures IsSign(t[i]) ==> LastSign(t[..i + 1]) == i && Eval(t[..i + 1]) == Eval(t[..i])
    ensures !IsSign(t[i]) ==>
      (LastSign(t[..i + 1]) == start - 1 && AllDigits(t[start..i + 1])
       && DigitsValue(t[start..i + 1]) == DigitsValue(t[start..i]) * 10 + DigitValue(t[i]))
  {
    var p := t[..i + 1];
    assert p[..i] == t[..i];
    if IsSign(t[i]) {
      assert p[i + 1..] == [];
    } else {
      assert t[start..i + 1][..i - start] == t[start..i];
    }
  }

  /** The running value of a chain: the closed terms, plus or minus the open one. */
  lemma EvalOpen(t: string, i: nat, start: nat)
    requires SignsAndDigits(t) && start <= i <= |t|
    requires LastSign(t[..i]) == start - 1
    ensures AllDigits(t[start..i])
    ensures start > 0 ==> SignsAndDigits(t[..start - 1])
    ensures Eval(t[..i]) == if start == 0 then DigitsValue(t[start..i])
      else if t[start - 1] == '+' then Eval(t[..start - 1]) + DigitsValue(t[start..i])
      else Eval(t[..start - 1]) - DigitsValue(t[start..i])
  {
    var p := t[..i];
    if start > 0 {
      assert p[..start - 1] == t[..start - 1];
      assert p[start..] == t[start..i];
    } else {
      assert p == t[start..i];
    }
  }

  /** What has been read of the chain after `i` characters, the open term starting at `start`. */
  predicate Scanned(t: string, i: nat, start: nat, sum: int, cur: int, neg: bool)
    requires SignsAndDigits(t)
  {
    start <= i <= |t|
    && LastSign(t[..i]) == start - 1
    && AllDigits(t[start..i]) && cur == DigitsValue(t[start..i])
    && (start > 0 ==> SignsAndDigits(t[..start - 1]) && sum == Eval(t[..start - 1]))
    && (start == 0 ==> sum == 0)
    && (neg <==> start > 0 && t[start - 1] == '-')
  }

  lemma ScanSign(t: string, i: nat, start: nat, sum: int, cur: int, neg: bool)
    requires SignsAndDigits(t) && i < |t| && IsSign(t[i]) && Scanned(t, i, start, sum, cur, neg)
    ensures Scanned(t, i + 1, i + 1, if neg then sum - cur else sum + cur, 0, t[i] == '-')
  {
    EvalStep(t, i, start);
    EvalOpen(t, i, start);
    assert t[i + 1..i + 1] == [];
    assert t[..i + 1][..i] == t[..i];
  }

  lemma ScanDigit(t: string, i: nat, start: nat, sum: int, cur: int, neg: bool)
    requires SignsAndDigits(t) && i < |t| && !IsSign(t[i]) && Scanned(t, i, start, sum, cur, neg)
    ensures IsDigit(t[i]) && Scanned(t, i + 1, start, sum, cur * 10 + DigitValue(t[i]), neg)
  {
    EvalStep(t, i, start);
  }

  lemma ScanEnd(t: string, start: nat, sum: int, cur: int, neg: bool)
    requires SignsAndDigits(t) && Scanned(t, |t|, start, sum, cur, neg)
    ensures Eval(t) == if neg then sum - cur else sum + cur
  {
    EvalOpen(t, |t|, start);
    assert t[..|t|] == t;
  }

  /**
   * `_sumFromString`: drop the parentheses, then sum the `+`/`-` chain
   * from left to right, one term at a time.
   */
  method SumFromString(s: string) returns (sum: int)
    requires PenaltyAlphabet(s)
    ensures sum == Eval(WithoutParens(s))
  {
    var t := WithoutParens(s);
    sum := 0;
    var cur := 0;
    var neg := false;
    var start := 0;
    var i := 0;
    assert t[..0] == [];
    while i < |t|
      invariant i <= |t| && Scanned(t, i, start, sum, cur, neg)
    {
      if IsSign(t[i]) {
        ScanSign(t, i, start, sum, cur, neg);
        sum := if neg then sum - cur else sum + cur;
        neg := t[i] == '-';
        cur := 0;
        start := i + 1;
      } else {
        ScanDigit(t, i, start, sum, cur, neg);
        cur := cur * 10 + DigitValue(t[i]);
      }
      i := i + 1;
    }
    ScanEnd(t, start, sum, cur, neg);
    sum := if neg then sum - cur else sum + cur;
  }

  /**
   * A raw penalty as the table writes it becomes the stored penalty:
   * clamped to [-99, 99] and negated, so that a positive stored value
   * is a deduction and a negative one a bonus (-0 does not arise on
   * integers).
   */
  function SignedPenalty(raw: int): (p: int)
    ensures -99 <= p <= 99
    ensures -99 <= raw <= 99 ==> p == -raw
    ensures raw > 99 ==> p == -99
    ensures raw < -99 ==> p == 99
  {
    if raw < -99 then 99 else if raw > 99 then -99 else -raw
  }

  function Min99(n: nat): (r: nat)
    ensures r <= 99 && (r == n || (n > 99 && r == 99))
  {
    if n > 99 then 99 else n
  }

  /** The characters of the score token of a player line. */
  predicate ScoreAlphabet(s: string)
  {
    forall i :: 0 <= i < |s| ==> IsDigit(s[i]) || IsSign(s[i]) || s[i] == '|'
  }

  /**
   * `parseInt(x > 0 ? x : 0)` on a piece of a track score: the value of
   * a digit string, and 0 for anything else (the comparison turns "",
   * "-5" and "5-3" into 0 or NaN, neither of which is positive).
   */
  function PositiveOrZero(x: string): nat
  {
    if AllDigits(x) then DigitsValue(x) else 0
  }

  /** One track of a player line: the points it scores and the deduction it adds to the penalty. */
  datatype Track = Track(points: nat, deduction: nat)

  /**
   * One `|`-separated track score: "" counts 0; `a+b` scores a + b;
   * `a-b` scores a and deducts b; a number scores itself; every score is
   * capped at 99.
   */
  function TrackOf(piece: string): (r: Track)
    ensures r.points <= 99
    ensures r.deduction > 0 ==> ContainsChar(piece, '-') && !ContainsChar(piece, '+')
  {
    ContainsSingle(piece, '+');
    ContainsSingle(piece, '-');
    if ContainsChar(piece, '+') then
      SplitContains(piece, "+");
      var nbs := Split(piece, "+");
      Track(Min99(PositiveOrZero(nbs[0]) + PositiveOrZero(nbs[1])), 0)
    else if ContainsChar(piece, '-') then
      SplitContains(piece, "-");
      var nbs := Split(piece, "-");
      Track(Min99(PositiveOrZero(nbs[0])), PositiveOrZero(nbs[1]))
    else
      Track(Min99(PositiveOrZero(piece)), 0)
  }

  /** A plain number scores itself, capped at 99. */
  lemma TrackOfNumber(n: nat)
    ensures TrackOf(NatToString(n)) == Track(Min99(n), 0)
  {
    DigitsValueOfNatToString(n);
  }

  /** Two digit strings around one character: every other character is a digit. */
  lemma AroundChar(a: string, c: char, b: string)
    requires AllDigits(a) && AllDigits(b)
    ensures forall i :: 0 <= i < |a + [c] + b| ==> IsDigit((a + [c] + b)[i]) || (a + [c] + b)[i] == c
    ensures (a + [c] + b)[|a|] == c
  {
  }

  lemma TrackOfPlus(p: string, x: string, y: string)
    requires ContainsChar(p, '+') && Split(p, "+") == [x, y]
    ensures TrackOf(p) == Track(Min99(PositiveOrZero(x) + PositiveOrZero(y)), 0)
  {
  }

  /** `a+b` scores a + b, capped at 99. */
  lemma TrackOfSum(a: nat, b: nat)
    ensures var p := NatToString(a) + "+" + NatToString(b);
      TrackOf(p) == Track(Min99(a + b), 0)
  {
    var sa, sb := NatToString(a), NatToString(b);
    var p := sa + "+" + sb;
    AroundChar(sa, '+', sb);
    assert ContainsChar(p, '+');
    assert Split(p, "+") == [sa, sb] by {
      SplitAtChar(sa, '+', sb);
      SplitNone(sb, "+") by { ContainsSingle(sb, '+'); }
    }
    DigitsValueOfNatToString(a);
    DigitsValueOfNatToString(b);
    TrackOfPlus(p, sa, sb);
  }

  /** `a-b` scores a, capped at 99, and deducts b. */
  lemma TrackOfDifference(a: nat, b: nat)
    ensures var p := NatToString(a) + "-" + NatToString(b);
      TrackOf(p) == Track(Min99(a), b)
  {
    var sa, sb := NatToString(a), NatToString(b);
    var p := sa + "-" + sb;
    AroundChar(sa, '-', sb);
    assert !ContainsChar(p, '+');
    assert ContainsChar(p, '-');
    SplitAtChar(sa, '-', sb);
    SplitNone(sb, "-") by { ContainsSingle(sb, '-'); }
    DigitsValueOfNatToString(a);
    DigitsValueOfNatToString(b);
  }

  /** The longest prefix of `s` without white space. */
  function WordPrefix(s: string): (w: string)
    ensures |w| <= |s| && w == s[..|w|] && NoSpace(w)
    ensures |w| == |s| || IsSpace(s[|w|])
  {
    if s == [] || IsSpace(s[0]) then [] else [s[0]] + WordPrefix(s[1..])
  }

  /** The white-space-separated words of a line. */
  function Words(s: string): (ws: seq<string>)
    ensures forall i :: 0 <= i < |ws| ==> ws[i] != [] && NoSpace(ws[i])
    decreases |s|
  {
    var t := TrimStart(s);
    if t == [] then []
    else
      var w := WordPrefix(t);
      assert w != [] by { assert !IsSpace(t[0]); }
      [w] + Words(t[|w|..])
  }

  /**
   * The first word of a player line: it starts with a word character and
   * is not the keyword `Bonus` or `Penalty` alone (any letter case).
   */
  predicate NameWord(w: string)
  {
    w != [] && IsWordChar(w[0]) && Lower(w) != "bonus" && Lower(w) != "penalty"
  }

  /** A word without one leading `[` and one trailing `]`. */
  function FlagBody(w: string): (b: string)
    ensures |b| <= |w|
  {
    var a := if w != [] && w[0] == '[' then w[1..] else w;
    if a != [] && a[|a| - 1] == ']' then a[..|a| - 1] else a
  }

  /** A flag word: up to seven letters, `-` or `_`, optionally in square brackets. */
  predicate FlagWord(w: string)
  {
    var b := FlagBody(w);
    |b| <= 7 && forall i :: 0 <= i < |b| ==> IsAsciiLetter(b[i]) || b[i] == '-' || b[i] == '_'
  }

  /** A score word: digits and `|` separators, each optionally preceded by one sign. */
  predicate ScoreWord(w: string)
  {
    w != [] && ScoreAlphabet(w)
    && forall i :: 0 <= i < |w| ==> SignFollowed(w, i)
  }

  /** A sign at position `i` is followed by a digit or a `|`. */
  predicate SignFollowed(w: string, i: int)
    requires 0 <= i < |w|
  {
    IsSign(w[i]) ==> i + 1 < |w| && (IsDigit(w[i + 1]) || w[i + 1] == '|')
  }

  /** A word without one leading `(` and one trailing `)`. */
  function Unparen(w: string): (b: string)
    ensures |b| <= |w|
    ensures forall i :: 0 <= i < |b| ==> b[i] in w
  {
    var a := if w != [] && w[0] == '(' then w[1..] else w;
    if a != [] && a[|a| - 1] == ')' then a[..|a| - 1] else a
  }

  /** A penalty word: signs and digits, optionally in parentheses. */
  predicate PenaltyWord(w: string)
  {
    SignsAndDigits(Unparen(w))
  }

  lemma PenaltyWordAlphabet(w: string)
    requires PenaltyWord(w)
    ensures PenaltyAlphabet(w)
  {
    var a := if w != [] && w[0] == '(' then w[1..] else w;
    var b := Unparen(w);
    forall i | 0 <= i < |w| ensures IsDigit(w[i]) || IsSign(w[i]) || IsParen(w[i]) {
      if !(i == 0 && w[0] == '(') && !(i == |w| - 1 && w[i] == ')') {
        var j := if w != [] && w[0] == '(' then i - 1 else i;
        assert a[j] == w[i];
        assert b[j] == a[j];
      }
    }
  }

  /** The value `_sumFromString` gives a penalty word. */
  function PenaltyValue(w: string): int
    requires PenaltyWord(w)
  {
    PenaltyWordAlphabet(w);
    Eval(WithoutParens(w))
  }

  /** The parts of a player line: its name, flag, score word and penalty word. */
  datatype PlayerFields = PlayerFields(name: string, flag: string, scores: string, penalty: Option<string>)

  /** The penalty word at index `k`, if there is one there. */
  function PenaltyAt(ws: seq<string>, k: nat): (r: Option<string>)
    ensures r.Some? ==> k < |ws| && r.value == ws[k] && PenaltyWord(r.value)
  {
    if k < |ws| && PenaltyWord(ws[k]) then Some(ws[k]) else None
  }

  /**
   * The player line pattern: a name word, an optional flag word, a score
   * word, an optional penalty word, and anything after that. A flag is
   * only taken when a score word follows it.
   */
  function PlayerMatch(line: string): (r: Option<PlayerFields>)
    ensures r.Some? ==> NameWord(r.value.name) && NoSpace(r.value.name) && ScoreWord(r.value.scores)
    ensures r.Some? && r.value.penalty.Some? ==> PenaltyWord(r.value.penalty.value)
  {
    if line == [] || IsSpace(line[0]) then None else PlayerWords(Words(line))
  }

  function PlayerWords(ws: seq<string>): (r: Option<PlayerFields>)
    requires forall i :: 0 <= i < |ws| ==> NoSpace(ws[i])
    ensures r.Some? ==> NameWord(r.value.name) && NoSpace(r.value.name) && ScoreWord(r.value.scores)
    ensures r.Some? && r.value.penalty.Some? ==> PenaltyWord(r.value.penalty.value)
  {
    if |ws| < 2 || !NameWord(ws[0]) then None
    else if |ws| >= 3 && FlagWord(ws[1]) && ScoreWord(ws[2]) then
      Some(PlayerFields(ws[0], FlagBody(ws[1]), ws[2], PenaltyAt(ws, 3)))
    else if ScoreWord(ws[1]) then
      Some(PlayerFields(ws[0], "", ws[1], PenaltyAt(ws, 2)))
    else None
  }

  predicate IsPlayerLine(line: string) { PlayerMatch(line).Some? }

  /** The first 32 `|`-separated track scores of a score word. */
  function Pieces(scores: string): (r: seq<string>)
    ensures |r| <= 32
  {
    var all := Split(scores, "|");
    if |all| > 32 then all[..32] else all
  }

  function TracksOf(pieces: seq<string>): (r: seq<Track>)
    ensures |r| == |pieces| && forall i :: 0 <= i < |pieces| ==> r[i] == TrackOf(pieces[i])
  {
    if pieces == [] then [] else TracksOf(pieces[..|pieces| - 1]) + [TrackOf(pieces[|pieces| - 1])]
  }

  function Points(ts: seq<Track>): (r: seq<int>)
    ensures |r| == |ts| && forall i :: 0 <= i < |ts| ==> r[i] == ts[i].points
  {
    if ts == [] then [] else Points(ts[..|ts| - 1]) + [ts[|ts| - 1].points]
  }

  function Deductions(ts: seq<Track>): (r: nat)
  {
    if ts == [] then 0 else Deductions(ts[..|ts| - 1]) + ts[|ts| - 1].deduction
  }

  lemma PointsBounds(ts: seq<Track>)
    requires forall i :: 0 <= i < |ts| ==> ts[i].points <= 99
    ensures forall i :: 0 <= i < |ts| ==> 0 <= Points(ts)[i] <= 99
    ensures 0 <= Sum(Points(ts)) <= 99 * |ts|
  {
    SumBounds(Points(ts), 0, 99);
  }

  /** What a player line contributes: its name, flag, track scores, their total and its penalty. */
  datatype PlayerLine = PlayerLine(name: string, flag: string, scores: seq<int>, score: int, penalty: int)

  /**
   * `_getPlayerData` on a matched player line: at most 32 track scores,
   * each between 0 and 99; the score is their total; the penalty is the
   * bracketed penalty minus the deductions of `a-b` tracks, clamped to
   * [-99, 99] and negated.
   */
  function PlayerData(f: PlayerFields): (r: PlayerLine)
    requires f.penalty.Some? ==> PenaltyWord(f.penalty.value)
    ensures r.name == f.name && r.flag == f.flag
    ensures |r.scores| <= 32 && forall i :: 0 <= i < |r.scores| ==> 0 <= r.scores[i] <= 99
    ensures r.score == Sum(r.scores) && 0 <= r.score <= 99 * |r.scores|
    ensures -99 <= r.penalty <= 99
  {
    var tracks := TracksOf(Pieces(f.scores));
    var scores := Points(tracks);
    PointsBounds(tracks);
    var bracket := if f.penalty.Some? then PenaltyValue(f.penalty.value) else 0;
    PlayerLine(f.name, f.flag, scores, Sum(scores), SignedPenalty(bracket - Deductions(tracks)))
  }

  // ---- Team lines ----

  /** The longest prefix of `s` made of hexadecimal digits. */
  function HexRun(s: string): (h: string)
    ensures |h| <= |s| && h == s[..|h|]
    ensures |h| == |s| || !IsHexDigit(s[|h|])
  {
    if s != [] && IsHexDigit(s[0]) then [s[0]] + HexRun(s[1..]) else []
  }

  /** The length of the longest prefix of `x` made of digits, each optionally preceded by one sign. */
  function UnitsLength(x: string): (n: nat)
    ensures n <= |x| && SignsAndDigits(x[..n])
    ensures n == 0 || IsDigit(x[n - 1])
  {
    if |x| >= 2 && IsSign(x[0]) && IsDigit(x[1]) then
      var n := 2 + UnitsLength(x[2..]);
      assert x[..n] == x[..2] + x[2..][..n - 2];
      n
    else if x != [] && IsDigit(x[0]) then
      var n := 1 + UnitsLength(x[1..]);
      assert x[..n] == x[..1] + x[1..][..n - 1];
      n
    else 0
  }

  /** A parenthesised team penalty at the start of `s`: `(`, one or more signed digits, and an optional `)`. */
  function PenaltyGroup(s: string): (r: Option<string>)
    ensures r.Some? ==> 0 < |r.value| <= |s| && r.value == s[..|r.value|] && PenaltyWord(r.value)
  {
    if s != [] && s[0] == '(' && UnitsLength(s[1..]) > 0 then
      var n := 1 + UnitsLength(s[1..]);
      var g := if n < |s| && s[n] == ')' then s[..n + 1] else s[..n];
      assert Unparen(g) == s[1..][..n - 1];
      Some(g)
    else None
  }

  /** What may end a team line: nothing, or white space followed by text without `#` or `(`. */
  predicate TailOk(t: string)
  {
    t == [] || (IsSpace(t[0]) && forall i :: 0 <= i < |t| ==> t[i] != '#' && t[i] != '(')
  }

  /** After the colour: an optional penalty group, then an acceptable ending. */
  function AfterColor(rest: string): (r: Option<Option<string>>)
    ensures r.Some? && r.value.Some? ==> PenaltyWord(r.value.value)
  {
    var t := TrimStart(rest);
    match PenaltyGroup(t)
    case Some(g) => if TailOk(t[|g|..]) then Some(Some(g)) else None
    case None => if TailOk(rest) then Some(None) else None
  }

  /**
   * Whether the text after the name part of a team line fits the team
   * pattern, and then the colour and the penalty group it holds: white
   * space, an optional `#`-prefixed hexadecimal colour, an optional
   * parenthesised penalty, and an ending without `#` or `(`.
   */
  function TeamSuffix(r: string): (m: Option<(Option<string>, Option<string>)>)
    ensures m.Some? && m.value.1.Some? ==> PenaltyWord(m.value.1.value)
  {
    var r1 := TrimStart(r);
    if r1 != [] && r1[0] == '#' && HexRun(r1[1..]) != [] then
      var c := r1[..1 + |HexRun(r1[1..])|];
      match AfterColor(r1[|c|..])
      case None => None
      case Some(p) => Some((Some(c), p))
    else
      match AfterColor(r)
      case None => None
      case Some(p) => Some((None, p))
  }

  /** The captures of the team pattern: the name part, the colour and the penalty group. */
  datatype TeamFields = TeamFields(prefix: string, color: Option<string>, penalty: Option<string>)

  /**
   * The team pattern is anchored and its name part is lazy: the name part
   * is the shortest prefix after which the rest of the line fits.
   */
  function TeamSplit(line: string, k: nat): (r: TeamFields)
    requires k <= |line|
    ensures k <= |r.prefix| <= |line| && r.prefix == line[..|r.prefix|]
    ensures TeamSuffix(line[|r.prefix|..]) == Some((r.color, r.penalty))
    ensures forall j :: k <= j < |r.prefix| ==> TeamSuffix(line[j..]).None?
    ensures r.penalty.Some? ==> PenaltyWord(r.penalty.value)
    decreases |line| - k
  {
    if k == |line| then
      assert line[..k] == line && line[k..] == [];
      TeamFields(line, None, None)
    else
      match TeamSuffix(line[k..])
      case Some((c, p)) => TeamFields(line[..k], c, p)
      case None => TeamSplit(line, k + 1)
  }

  function TeamMatch(line: string): (r: TeamFields)
    ensures r.penalty.Some? ==> PenaltyWord(r.penalty.value)
  {
    TeamSplit(line, 0)
  }

  /** The name of the `code`-th default team: "Team " and the character with that code. */
  function DefaultTeamName(code: nat): (r: string)
    ensures |r| == 6 && r[..5] == "Team "
  {
    var c := code % 0x1_0000;
    "Team " + [if 0xD800 <= c < 0xE000 then '\U{FFFD}' else c as char]
  }

  /** What a team line contributes: its name, colour and penalty. */
  datatype TeamLine = TeamLine(name: string, color: string, penalty: int)

  /**
   * `_getTeamData`: the name is the whole line when it names neither a
   * colour nor a penalty, else the text before them, trimmed, and the
   * default name when that is empty; the penalty is the negated sum of
   * the penalty group.
   */
  function TeamData(line: string, code: nat): (r: TeamLine)
    ensures r.name != []
    ensures var m := TeamMatch(line);
      r.color == (if m.color.Some? then m.color.value else "")
      && r.penalty == (if m.penalty.Some? then -PenaltyValue(m.penalty.value) else 0)
  {
    var m := TeamMatch(line);
    var name := Trim(if m.color.None? && m.penalty.None? then line else m.prefix);
    TeamLine(if name == [] then DefaultTeamName(code) else name,
             if m.color.Some? then m.color.value else "",
             if m.penalty.Some? then -PenaltyValue(m.penalty.value) else 0)
  }

  /** In team mode a player line is read as a team line when it also names a colour after a name part. */
  predicate IsPossibleTeamLine(line: string, isTeamMode: bool)
  {
    var isPlayer := IsPlayerLine(line);
    var m := TeamMatch(line);
    isTeamMode && ((isPlayer && m.prefix != [] && m.color.Some?) || !isPlayer)
  }

  // ---- Penalty, comment and header lines ----

  /** The amount of a `Penalty`/`Bonus` line (any letter case): the signed digits after the keyword. */
  function PenaltyLineAmount(line: string): (r: Option<string>)
    ensures r.Some? ==> PenaltyWord(r.value)
  {
    var t := Trim(line);
    var k := if |t| >= 7 && Lower(t[..7]) == "penalty" then 7 else if |t| >= 5 && Lower(t[..5]) == "bonus" then 5 else 0;
    if k == 0 then None
    else
      var rest := t[k..];
      var u := TrimStart(rest);
      if |u| < |rest| && u != [] && UnitsLength(u) == |u| then
        assert u[..|u|] == u;
        Some(u)
      else None
  }

  predicate IsPenaltyLine(line: string) { PenaltyLineAmount(line).Some? }

  predicate IsCommentLine(line: string)
  {
    var t := Trim(line);
    StartsWith(t, "//") || StartsWith(t, "#")
  }

  /** The captures of the header pattern: the lobby number's digits and the text after it. */
  datatype Header = Header(digits: string, rest: string)

  /**
   * The header pattern: `lobby` in any letter case, white space, an
   * optional `#`, digits, white space, an optional `-`, white space, and
   * at least one more character. When nothing is left after the digits,
   * the pattern backtracks: the last character read becomes the text.
   */
  function HeaderMatch(line: string): (r: Option<Header>)
    ensures r.Some? ==> r.value.digits != [] && AllDigits(r.value.digits) && r.value.rest != []
  {
    if |line| < 5 || Lower(line[..5]) != "lobby" then None
    else
      var r0 := TrimStart(line[5..]);
      var r1 := if r0 != [] && r0[0] == '#' then r0[1..] else r0;
      var d := DigitPrefix(r1);
      var after := r1[|d|..];
      var a := TrimStart(after);
      var b := if a != [] && a[0] == '-' then a[1..] else a;
      var c := TrimStart(b);
      if d == [] then None
      else if c != [] then Some(Header(d, c))
      else if after != [] then Some(Header(d, [after[|after| - 1]]))
      else if |d| >= 2 then Some(Header(d[..|d| - 1], [d[|d| - 1]]))
      else None
  }

  predicate IsHeaderLine(line: string) { HeaderMatch(line).Some? }

  // ---- Lobby type and lobby name ----

  /**
   * The lobby type text as the table writes it, brought to the shape of a
   * lobby type code: lower case, white space runs to one blank, every
   * spelling of "versus" to `v`, blanks to `_`.
   */
  function Normalize(s: string): string
  {
    var a := CollapseSpaces(Lower(s));
    var b := ReplaceAll(a, " vs. ", "v");
    var c := ReplaceAll(b, " vs ", "v");
    var d := ReplaceAll(c, " v ", "v");
    var e := ReplaceAll(d, "vs.", "v");
    var f := ReplaceAll(e, "vs", "v");
    ReplaceAll(f, " ", "_")
  }

  /** Texts that do not name an insta or battle mode name a race mode. */
  function WithMode(n: string): (r: string)
    ensures StartsWith(n, "insta") || StartsWith(n, "battle") ==> r == n
    ensures !(StartsWith(n, "insta") || StartsWith(n, "battle")) ==> r == "race_" + n
  {
    if StartsWith(n, "insta") || StartsWith(n, "battle") then n else "race_" + n
  }

  /** The first lobby type of `types` whose code occurs in `s`. */
  function FirstContained(s: string, types: seq<LobbyType>): (r: Option<LobbyType>)
    ensures r.Some? ==> r.value in types && Contains(s, Code(r.value))
    ensures r.None? ==> forall t :: t in types ==> !Contains(s, Code(t))
  {
    if types == [] then None
    else if Contains(s, Code(types[0])) then Some(types[0])
    else FirstContained(s, types[1..])
  }

  /**
   * `parseLobbyType`: the normalised text when it is a lobby type code,
   * else the first code (in table order) that it contains; None when
   * there is no such code or the code has no leaderboard.
   */
  function ParseLobbyType(s: string): (r: Option<string>)
    ensures r.Some? ==> IsKnown(r.value) && BoardOf(r.value).Some?
    ensures r.Some? ==> Contains(WithMode(Normalize(s)), r.value)
    ensures IsKnown(WithMode(Normalize(s))) ==>
      r == (if BoardOf(WithMode(Normalize(s))).Some? then Some(WithMode(Normalize(s))) else None)
  {
    var key := LookupKey(WithMode(Normalize(s)));
    if IsKnown(key) && BoardOf(key).Some? then Some(key) else None
  }

  /** The text itself when it is a code, else the first code it contains, else the text. */
  function LookupKey(k: string): (key: string)
    ensures IsKnown(k) ==> key == k
    ensures IsKnown(key) ==> Contains(k, key)
  {
    if IsKnown(k) then
      assert OccursAt(k, k, 0);
      k
    else
      var m := FirstContained(k, AllTypes);
      if m.Some? then Code(m.value) else k
  }

  /** `_parseLobbyName`: the lobby number and the text before any `#`. */
  function LobbyName(n: nat, text: string): string
  {
    var name := if ContainsChar(text, '#') then Trim(Split(text, "#")[0]) else text;
    "Lobby #" + NatToString(n) + " - " + name
  }

  /** What the header line gives: the lobby number, the lobby type (None when unknown or unrated) and the lobby name. */
  datatype HeaderData = HeaderData(number: nat, lobbyType: Option<string>, name: string)

  /** `_getHeaderData` on a matched header. */
  function HeaderDataOf(h: Header): (r: HeaderData)
    requires AllDigits(h.digits)
    ensures r.number == DigitsValue(h.digits)
    ensures r.lobbyType == ParseLobbyType(Trim(h.rest))
  {
    var n := DigitsValue(h.digits);
    HeaderData(n, ParseLobbyType(Trim(h.rest)), LobbyName(n, Trim(h.rest)))
  }

  // ---- Lines of a table ----

  /** The index just after the last line break before `q`, or 0: where the line holding `q` starts. */
  function LineStart(s: string, q: nat): (r: nat)
    requires q <= |s|
    ensures r <= q && (r == 0 || s[r - 1] == '\n')
    ensures forall i :: r <= i < q ==> s[i] != '\n'
  {
    if q == 0 then 0 else if s[q - 1] == '\n' then q else LineStart(s, q - 1)
  }

  /** `table.replace(/.*?(?=Lobby)/, '')`: the text before the first `Lobby` on its own line goes. */
  function RemoveBeforeLobby(table: string): string
  {
    var q := IndexOf(table, "Lobby");
    if q < 0 then table
    else
      var start := LineStart(table, q);
      table[..start] + table[q..]
  }

  /** The trimmed lines that are not empty. */
  function NonEmptyTrimmed(pieces: seq<string>): (r: seq<string>)
    ensures |r| <= |pieces|
    ensures forall i :: 0 <= i < |r| ==> r[i] != [] && Trim(r[i]) == r[i]
  {
    if pieces == [] then []
    else
      var init := NonEmptyTrimmed(pieces[..|pieces| - 1]);
      var last := Trim(pieces[|pieces| - 1]);
      TrimIdempotent(pieces[|pieces| - 1]);
      if last == [] then init else init + [last]
  }

  /** The index of the first header line, or -1. */
  function HeaderIndex(lines: seq<string>): (k: int)
    ensures -1 <= k < |lines|
    ensures k >= 0 ==> IsHeaderLine(lines[k])
    ensures forall j :: 0 <= j < |lines| && (k < 0 || j < k) ==> !IsHeaderLine(lines[j])
  {
    if lines == [] then -1
    else if IsHeaderLine(lines[0]) then 0
    else
      var k := HeaderIndex(lines[1..]);
      if k < 0 then -1 else k + 1
  }

  /** `_getLines`: the non-empty trimmed lines from the header on, or None without a header. */
  function GetLines(table: string): (r: Option<seq<string>>)
    ensures r.Some? ==> |r.value| >= 1 && IsHeaderLine(r.value[0])
    ensures r.None? <==> forall l :: l in NonEmptyTrimmed(Split(RemoveBeforeLobby(table), "\n")) ==> !IsHeaderLine(l)
  {
    var lines := NonEmptyTrimmed(Split(RemoveBeforeLobby(table), "\n"));
    var h := HeaderIndex(lines);
    if h < 0 then None else Some(lines[h..])
  }

  /** Only the comment lines of `lines`. */
  function Comments(lines: seq<string>): (r: seq<string>)
    ensures forall i :: 0 <= i < |r| ==> IsCommentLine(r[i]) && r[i] in lines
    ensures forall l :: l in lines && IsCommentLine(l) ==> l in r
  {
    if lines == [] then []
    else
      var init := Comments(lines[..|lines| - 1]);
      var last := lines[|lines| - 1];
      if IsCommentLine(last) then init + [last] else init
  }

  /** `_getLobbyComments`: the comment lines written before the first `lobby` (any letter case). */
  function LobbyComments(table: string): (r: seq<string>)
    ensures forall i :: 0 <= i < |r| ==> IsCommentLine(r[i]) && r[i] != []
  {
    var q := IndexOf(Lower(table), "lobby");
    if q < 0 then []
    else Comments(NonEmptyTrimmed(Split(table[..q], "\n")))
  }

  // ---- Template text ----

  /** The number of line breaks `s` starts with. */
  function NewlineRun(s: string): (n: nat)
    ensures n <= |s| && forall i :: 0 <= i < n ==> s[i] == '\n'
    ensures n == |s| || s[n] != '\n'
  {
    if s != [] && s[0] == '\n' then 1 + NewlineRun(s[1..]) else 0
  }

  /** No three line breaks in a row. */
  predicate NoTripleNewline(s: string)
  {
    forall i :: 0 <= i < |s| - 2 ==> !TripleAt(s, i)
  }

  /** Three line breaks start at position `i`. */
  predicate TripleAt(s: string, i: int)
    requires 0 <= i < |s| - 2
  {
    s[i] == '\n' && s[i + 1] == '\n' && s[i + 2] == '\n'
  }

  lemma NoTripleAfterChar(c: char, rest: string)
    requires c != '\n' && NoTripleNewline(rest)
    ensures NoTripleNewline([c] + rest)
  {
    var r := [c] + rest;
    forall i | 0 <= i < |r| - 2 ensures !TripleAt(r, i) {
      if i > 0 {
        assert r[i] == rest[i - 1] && r[i + 1] == rest[i] && r[i + 2] == rest[i + 1];
        assert TripleAt(r, i) == TripleAt(rest, i - 1);
      }
    }
  }

  lemma NoTripleAfterBreaks(head: string, rest: string)
    requires |head| <= 2 && NoTripleNewline(rest) && (rest == [] || rest[0] != '\n')
    ensures NoTripleNewline(head + rest)
  {
    var r := head + rest;
    forall i | 0 <= i < |r| - 2 ensures !TripleAt(r, i) {
      if i >= |head| {
        assert r[i] == rest[i - |head|] && r[i + 1] == rest[i + 1 - |head|] && r[i + 2] == rest[i + 2 - |head|];
        assert TripleAt(r, i) == TripleAt(rest, i - |head|);
      } else {
        var j := |head| - i;
        assert r[i + j] == rest[0];
      }
    }
  }

  /** `s.replace(/\n{3,}/g, '\n\n')`: runs of three or more line breaks become two. */
  function CollapseNewlines(s: string): (r: string)
    ensures NoTripleNewline(r)
    ensures s == [] <==> r == []
    ensures r != [] ==> (r[0] == '\n' <==> s[0] == '\n')
    decreases |s|
  {
    if s == [] then []
    else
      var n := NewlineRun(s);
      if n == 0 then
        var rest := CollapseNewlines(s[1..]);
        NoTripleAfterChar(s[0], rest);
        [s[0]] + rest
      else
        var head := if n >= 3 then "\n\n" else s[..n];
        var rest := CollapseNewlines(s[n..]);
        NoTripleAfterBreaks(head, rest);
        head + rest
  }

  /** The template kept for drawing: the comments before the lobby, then the template lines with blank runs collapsed, trimmed. */
  function FinalTemplate(comments: seq<string>, parts: seq<string>): string
  {
    (if comments != [] then Join(comments, "\n") + "\n\n" else "") + Trim(CollapseNewlines(Join(parts, "")))
  }
}
