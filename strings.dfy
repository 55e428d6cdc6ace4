// The JavaScript string operations the bot relies on, for strings of
// UTF-16 code units modelled as `seq<char>`: `\s` and `\w` character
// classes, `trim`, `toLowerCase` on ASCII letters, `indexOf`/`includes`,
// `split` and `join` on a literal separator, global literal `replace`,
// and decimal digit strings as read by `parseInt`.
module Strings {
  import opened Wrappers

  /** The characters matched by the `\s` class of JavaScript regular expressions (and removed by `trim`). */
  predicate IsSpace(c: char)
  {
    var n := c as int;
    (9 <= n <= 13) || n == 32 || n == 0xA0 || n == 0x1680 || (0x2000 <= n <= 0x200A)
    || n == 0x2028 || n == 0x2029 || n == 0x202F || n == 0x205F || n == 0x3000 || n == 0xFEFF
  }

  predicate IsDigit(c: char) { '0' <= c <= '9' }

  predicate IsHexDigit(c: char) { IsDigit(c) || 'a' <= c <= 'f' || 'A' <= c <= 'F' }

  predicate IsAsciiLetter(c: char) { 'a' <= c <= 'z' || 'A' <= c <= 'Z' }

  /** The `\w` class of a non-Unicode regular expression. */
  predicate IsWordChar(c: char) { IsAsciiLetter(c) || IsDigit(c) || c == '_' }

  predicate NoSpace(s: string) { forall i :: 0 <= i < |s| ==> !IsSpace(s[i]) }

  predicate AllDigits(s: string) { forall i :: 0 <= i < |s| ==> IsDigit(s[i]) }

  function LowerChar(c: char): (r: char)
    ensures IsAsciiLetter(c) ==> 'a' <= r <= 'z'
    ensures !('A' <= c <= 'Z') ==> r == c
  {
    if 'A' <= c <= 'Z' then (c as int + 32) as char else c
  }

  function UpperChar(c: char): (r: char)
    ensures IsAsciiLetter(c) ==> 'A' <= r <= 'Z'
    ensures !('a' <= c <= 'z') ==> r == c
  {
    if 'a' <= c <= 'z' then (c as int - 32) as char else c
  }

  /** `toLowerCase`, restricted to the ASCII letters every name and keyword of the bot uses. */
  function Lower(s: string): (r: string)
    ensures |r| == |s|
    ensures forall i :: 0 <= i < |s| ==> r[i] == LowerChar(s[i])
  {
    if s == [] then [] else Lower(s[..|s| - 1]) + [LowerChar(s[|s| - 1])]
  }

  function Upper(s: string): (r: string)
    ensures |r| == |s|
    ensures forall i :: 0 <= i < |s| ==> r[i] == UpperChar(s[i])
  {
    if s == [] then [] else Upper(s[..|s| - 1]) + [UpperChar(s[|s| - 1])]
  }

  function TrimStart(s: string): (r: string)
    ensures |r| <= |s|
    ensures r == [] || !IsSpace(r[0])
    ensures forall i :: 0 <= i < |s| - |r| ==> IsSpace(s[i])
  {
    if s != [] && IsSpace(s[0]) then TrimStart(s[1..]) else s
  }

  function TrimEnd(s: string): (r: string)
    ensures |r| <= |s|
    ensures r == [] || !IsSpace(r[|r| - 1])
    ensures forall i :: |r| <= i < |s| ==> IsSpace(s[i])
  {
    if s != [] && IsSpace(s[|s| - 1]) then TrimEnd(s[..|s| - 1]) else s
  }

  /** `trim`: the longest slice of `s` that neither starts nor ends with white space. */
  function Trim(s: string): (r: string)
    ensures |r| <= |s|
    ensures r == [] || (!IsSpace(r[0]) && !IsSpace(r[|r| - 1]))
  {
    TrimEndSlice(TrimStart(s));
    TrimEnd(TrimStart(s))
  }

  /** `trimStart` drops a prefix. */
  lemma {:induction false} TrimStartSlice(s: string)
    ensures TrimStart(s) == s[|s| - |TrimStart(s)|..]
    decreases |s|
  {
    if s != [] && IsSpace(s[0]) {
      TrimStartSlice(s[1..]);
      assert s[1..][|s| - 1 - |TrimStart(s)|..] == s[|s| - |TrimStart(s)|..];
    }
  }

  /** `trimEnd` drops a suffix. */
  lemma {:induction false} TrimEndSlice(s: string)
    ensures TrimEnd(s) == s[..|TrimEnd(s)|]
    decreases |s|
  {
    if s != [] && IsSpace(s[|s| - 1]) {
      TrimEndSlice(s[..|s| - 1]);
      assert s[..|s| - 1][..|TrimEnd(s)|] == s[..|TrimEnd(s)|];
    }
  }

  /** `trim` keeps a slice of its input. */
  lemma TrimSlice(s: string)
    ensures var k := |s| - |TrimStart(s)|; k + |Trim(s)| <= |s| && Trim(s) == s[k..k + |Trim(s)|]
  {
    TrimStartSlice(s);
    TrimEndSlice(TrimStart(s));
  }

  lemma TrimIdempotent(s: string)
    ensures Trim(Trim(s)) == Trim(s)
  {
    var t := Trim(s);
    assert TrimStart(t) == t;
    assert TrimEnd(t) == t;
  }

  lemma TrimNoSpace(s: string)
    requires NoSpace(s)
    ensures Trim(s) == s
  {
    assert TrimStart(s) == s;
    assert TrimEnd(s) == s;
  }

  predicate StartsWith(s: string, p: string) { |p| <= |s| && s[..|p|] == p }

  predicate OccursAt(s: string, p: string, i: int)
  {
    0 <= i && i + |p| <= |s| && s[i..i + |p|] == p
  }

  /** The first index at or after `from` where `p` occurs in `s`, or -1. */
  function FindFrom(s: string, p: string, from: nat): (k: int)
    requires from <= |s|
    decreases |s| - from
    ensures k == -1 || (from <= k && OccursAt(s, p, k))
    ensures k == -1 ==> forall j :: from <= j <= |s| ==> !OccursAt(s, p, j)
    ensures k != -1 ==> forall j :: from <= j < k ==> !OccursAt(s, p, j)
  {
    if from + |p| > |s| then -1
    else if s[from..from + |p|] == p then from
    else FindFrom(s, p, from + 1)
  }

  /** `indexOf`: the first occurrence of `p` in `s`, or -1. */
  function IndexOf(s: string, p: string): (k: int)
    ensures k == -1 <==> forall j :: 0 <= j <= |s| ==> !OccursAt(s, p, j)
    ensures k != -1 ==> OccursAt(s, p, k) && forall j :: 0 <= j < k ==> !OccursAt(s, p, j)
  {
    FindFrom(s, p, 0)
  }

  /** `includes`. */
  predicate Contains(s: string, p: string) { IndexOf(s, p) >= 0 }

  predicate ContainsChar(s: string, c: char) { exists i :: 0 <= i < |s| && s[i] == c }

  lemma ContainsSingle(s: string, c: char)
    ensures Contains(s, [c]) <==> ContainsChar(s, c)
  {
    if ContainsChar(s, c) {
      var i :| 0 <= i < |s| && s[i] == c;
      assert OccursAt(s, [c], i);
    }
    if Contains(s, [c]) {
      var k := IndexOf(s, [c]);
      assert s[k..k + 1] == [c];
      assert s[k] == c;
    }
  }

  /** `split` on a non-empty literal separator. */
  function Split(s: string, sep: string): (parts: seq<string>)
    requires |sep| > 0
    decreases |s|
    ensures |parts| >= 1
  {
    var k := IndexOf(s, sep);
    if k < 0 then [s] else [s[..k]] + Split(s[k + |sep|..], sep)
  }

  /** `join`. */
  function Join(parts: seq<string>, sep: string): string
  {
    if |parts| == 0 then ""
    else if |parts| == 1 then parts[0]
    else parts[0] + sep + Join(parts[1..], sep)
  }

  lemma JoinCons(head: string, tail: seq<string>, sep: string)
    requires |tail| >= 1
    ensures Join([head] + tail, sep) == head + sep + Join(tail, sep)
  {
    assert ([head] + tail)[1..] == tail;
  }

  lemma SplitUnfold(s: string, sep: string)
    requires |sep| > 0
    ensures var k := IndexOf(s, sep);
      k >= 0 ==> k + |sep| <= |s| && Split(s, sep) == [s[..k]] + Split(s[k + |sep|..], sep)
  {
  }

  /** A string that contains the separator splits into at least two pieces. */
  lemma SplitContains(s: string, sep: string)
    requires |sep| > 0 && Contains(s, sep)
    ensures |Split(s, sep)| >= 2
  {
    SplitUnfold(s, sep);
  }

  /** Splitting at a one-character separator that the head does not contain. */
  lemma SplitAtChar(a: string, c: char, b: string)
    requires forall i :: 0 <= i < |a| ==> a[i] != c
    ensures Split(a + [c] + b, [c]) == [a] + Split(b, [c])
  {
    var s := a + [c] + b;
    assert OccursAt(s, [c], |a|);
    forall j | 0 <= j < |a| ensures !OccursAt(s, [c], j) {
      assert s[j] == a[j];
    }
    var k := IndexOf(s, [c]);
    assert k == |a|;
    SplitUnfold(s, [c]);
    assert s[..k] == a;
    assert s[k + 1..] == b;
  }

  /** A string without the separator is one piece. */
  lemma SplitNone(s: string, sep: string)
    requires |sep| > 0 && !Contains(s, sep)
    ensures Split(s, sep) == [s]
  {
  }

  /** Splitting on a separator and joining back with it gives the original string. */
  lemma {:induction false} JoinSplit(s: string, sep: string)
    requires |sep| > 0
    ensures Join(Split(s, sep), sep) == s
    decreases |s|
  {
    var k := IndexOf(s, sep);
    if k >= 0 {
      SplitUnfold(s, sep);
      var rest := s[k + |sep|..];
      JoinSplit(rest, sep);
      JoinCons(s[..k], Split(rest, sep), sep);
      assert s[k..k + |sep|] == sep;
      assert s == s[..k] + s[k..k + |sep|] + rest;
    }
  }

  /** No piece of a split contains the separator. */
  lemma {:induction false} SplitPiecesFree(s: string, sep: string)
    requires |sep| > 0
    ensures forall i :: 0 <= i < |Split(s, sep)| ==> !Contains(Split(s, sep)[i], sep)
    decreases |s|
  {
    var k := IndexOf(s, sep);
    if k >= 0 {
      SplitPiecesFree(s[k + |sep|..], sep);
      var head := s[..k];
      forall j | 0 <= j <= |head| ensures !OccursAt(head, sep, j) {
        if OccursAt(head, sep, j) {
          assert s[j..j + |sep|] == head[j..j + |sep|];
          assert OccursAt(s, sep, j);
        }
      }
    } else {
      assert Split(s, sep) == [s];
    }
  }

  /** A global `replace` of a literal pattern: `s.replace(/pat/g, rep)`. */
  function ReplaceAll(s: string, pat: string, rep: string): string
    requires |pat| > 0
  {
    Join(Split(s, pat), rep)
  }

  /** `s.replace(/\s+/g, ' ')`: every run of white space becomes one blank. */
  function CollapseSpaces(s: string): (r: string)
    ensures forall i :: 0 <= i < |r| ==> (IsSpace(r[i]) ==> r[i] == ' ')
    ensures forall i :: 0 <= i < |r| - 1 ==> !SpacePairAt(r, i)
    ensures |r| <= |s|
    ensures r == [] <==> s == []
    ensures s != [] ==> (IsSpace(r[|r| - 1]) <==> IsSpace(s[|s| - 1]))
    decreases |s|
  {
    if s == [] then []
    else if IsSpace(s[|s| - 1]) then
      var head := CollapseSpaces(s[..|s| - 1]);
      if head != [] && IsSpace(head[|head| - 1]) then head
      else SpacePairsExtend(head, ' '); head + [' ']
    else
      var head := CollapseSpaces(s[..|s| - 1]);
      SpacePairsExtend(head, s[|s| - 1]); head + [s[|s| - 1]]
  }

  /** Appending one character keeps the pairs before it. */
  lemma SpacePairsExtend(head: string, c: char)
    ensures forall i :: 0 <= i < |head| - 1 ==> SpacePairAt(head + [c], i) == SpacePairAt(head, i)
  {
  }

  /** Two white-space characters in a row start at position `i`. */
  predicate SpacePairAt(s: string, i: int)
    requires 0 <= i < |s| - 1
  {
    IsSpace(s[i]) && IsSpace(s[i + 1])
  }

  /** `s.replace(/\s/g, ' ')`: every white-space character becomes a blank. */
  function BlankSpaces(s: string): (r: string)
    ensures |r| == |s|
    ensures forall i :: 0 <= i < |s| ==> r[i] == (if IsSpace(s[i]) then ' ' else s[i])
  {
    if s == [] then [] else BlankSpaces(s[..|s| - 1]) + [if IsSpace(s[|s| - 1]) then ' ' else s[|s| - 1]]
  }

  function DigitValue(c: char): (d: nat)
    requires IsDigit(c)
    ensures d < 10
  {
    c as int - '0' as int
  }

  function DigitChar(d: nat): (c: char)
    requires d < 10
    ensures IsDigit(c) && DigitValue(c) == d
  {
    ('0' as int + d) as char
  }

  /** The value `parseInt(s, 10)` gives for a string of decimal digits (0 for the empty string). */
  function DigitsValue(s: string): nat
    requires AllDigits(s)
  {
    if s == [] then 0 else DigitsValue(s[..|s| - 1]) * 10 + DigitValue(s[|s| - 1])
  }

  /** The decimal rendering of a natural number, as `String(n)` writes it. */
  function NatToString(n: nat): (r: string)
    ensures |r| >= 1 && AllDigits(r)
    ensures |r| > 1 ==> r[0] != '0'
  {
    if n < 10 then [DigitChar(n)] else NatToString(n / 10) + [DigitChar(n % 10)]
  }

  function IntToString(n: int): string
  {
    if n < 0 then "-" + NatToString(-n) else NatToString(n)
  }

  /** Reading back a rendered number gives the number. */
  lemma {:induction false} DigitsValueOfNatToString(n: nat)
    ensures DigitsValue(NatToString(n)) == n
  {
    if n >= 10 {
      DigitsValueOfNatToString(n / 10);
      var s := NatToString(n);
      assert s[..|s| - 1] == NatToString(n / 10);
    }
  }

  /** Rendering is injective: distinct numbers have distinct renderings. */
  lemma NatToStringInjective(m: nat, n: nat)
    requires NatToString(m) == NatToString(n)
    ensures m == n
  {
    DigitsValueOfNatToString(m);
    DigitsValueOfNatToString(n);
  }

  /** The longest prefix of `s` made of decimal digits. */
  function DigitPrefix(s: string): (d: string)
    ensures AllDigits(d) && StartsWith(s, d)
    ensures |d| == |s| || !IsDigit(s[|d|])
  {
    if s != [] && IsDigit(s[0]) then [s[0]] + DigitPrefix(s[1..]) else []
  }

  /** `parseInt(s, 10)`: optional leading white space and sign, then the leading digits; None stands for NaN. */
  function ParseInt(s: string): Option<int>
  {
    var t := TrimStart(s);
    var neg := t != [] && t[0] == '-';
    var body := if t != [] && (t[0] == '-' || t[0] == '+') then t[1..] else t;
    var d := DigitPrefix(body);
    if d == [] then None else Some(if neg then -(DigitsValue(d) as int) else DigitsValue(d))
  }

  /** On a string of digits `parseInt` reads the whole string, and the empty string is NaN. */
  lemma ParseIntDigits(s: string)
    requires AllDigits(s)
    ensures ParseInt(s) == (if s == [] then None else Some(DigitsValue(s) as int))
  {
    if s != [] {
      assert !IsSpace(s[0]);
      assert TrimStart(s) == s;
      DigitPrefixAll(s);
    }
  }

  lemma {:induction false} DigitPrefixAll(s: string)
    requires AllDigits(s)
    ensures DigitPrefix(s) == s
  {
    if s != [] {
      DigitPrefixAll(s[1..]);
    }
  }
}
