// `_getRatingSettings` of utils/scores_calculation/scores_calculation.js:
// the board names its scheme ("elo", "mk8dx_mmr") and carries the
// scheme's settings under a camel-cased property ("ratingElo",
// "ratingMk8dxMmr"); the bot derives that property name and copies three
// board-wide fields onto the settings it finds there.
module BoardSettings {
  import opened Wrappers
  import opened Strings
  import Lorenzi
  import RatingSystems

  /** `replace(/_([a-z])/g, (match, group) => group.toUpperCase())`, scanning left to right. */
  function Camel(s: string): (r: string)
    ensures |r| <= |s|
    decreases |s|
  {
    if |s| >= 2 && s[0] == '_' && 'a' <= s[1] <= 'z' then [UpperChar(s[1])] + Camel(s[2..])
    else if s == [] then []
    else [s[0]] + Camel(s[1..])
  }

  /** No underscore is followed by a lower-case letter. */
  predicate Joined(r: string)
  {
    forall i :: 0 <= i < |r| - 1 ==> !(r[i] == '_' && 'a' <= r[i + 1] <= 'z')
  }

  /** The first character of the camel-cased text: its own, or the raised letter of a joined pair. */
  lemma CamelHead(s: string)
    requires s != []
    ensures Camel(s) != []
    ensures Camel(s)[0] == s[0] || (s[0] == '_' && 'A' <= Camel(s)[0] <= 'Z')
  {
  }

  /** After the replacement, no `_x` pair is left for it to match again. */
  lemma {:induction false} CamelJoined(s: string)
    ensures Joined(Camel(s))
    decreases |s|
  {
    if |s| >= 2 && s[0] == '_' && 'a' <= s[1] <= 'z' {
      CamelJoined(s[2..]);
      var r := Camel(s);
      assert r == [UpperChar(s[1])] + Camel(s[2..]);
      forall i | 0 <= i < |r| - 1 ensures !(r[i] == '_' && 'a' <= r[i + 1] <= 'z') {
        if i > 0 {
          assert r[i] == Camel(s[2..])[i - 1] && r[i + 1] == Camel(s[2..])[i];
        }
      }
    } else if s != [] {
      CamelJoined(s[1..]);
      var r := Camel(s);
      assert r == [s[0]] + Camel(s[1..]);
      forall i | 0 <= i < |r| - 1 ensures !(r[i] == '_' && 'a' <= r[i + 1] <= 'z') {
        if i > 0 {
          assert r[i] == Camel(s[1..])[i - 1] && r[i + 1] == Camel(s[1..])[i];
        } else if s[0] == '_' {
          CamelHead(s[1..]);
        }
      }
    }
  }

  /** Text with no underscore passes through unchanged. */
  lemma {:induction false} CamelPlain(s: string)
    requires forall i :: 0 <= i < |s| ==> s[i] != '_'
    ensures Camel(s) == s
    decreases |s|
  {
    if s != [] {
      CamelPlain(s[1..]);
    }
  }

  /**
   * The property holding a scheme's settings: "rating", the scheme's
   * first character upper-cased, the rest lower-cased, then each `_x`
   * joined into `X`.
   */
  function SettingsKey(scheme: string): (key: string)
    ensures |key| <= 6 + |scheme|
  {
    var head := if scheme == [] then [] else [UpperChar(scheme[0])];
    Camel("rating" + head + (if scheme == [] then [] else Lower(scheme)[1..]))
  }

  /** Text with no underscore in front is copied as it is. */
  lemma {:induction false} CamelAppend(a: string, b: string)
    requires forall i :: 0 <= i < |a| ==> a[i] != '_'
    ensures Camel(a + b) == a + Camel(b)
    decreases |a|
  {
    if a != [] {
      var ab := a + b;
      CamelAppend(a[1..], b);
      assert ab[0] == a[0] != '_';
      assert ab[1..] == a[1..] + b;
      assert Camel(ab) == [ab[0]] + Camel(ab[1..]);
      assert [a[0]] + (a[1..] + Camel(b)) == a + Camel(b);
    } else {
      assert a + b == b;
    }
  }

  lemma EloKey()
    ensures SettingsKey("elo") == "ratingElo"
  {
    LowerKeeps("elo");
    assert "rating" + "E" + "lo" == "ratingElo";
    CamelPlain("ratingElo");
  }

  lemma MmrKey()
    ensures SettingsKey("mk8dx_mmr") == "ratingMk8dxMmr"
  {
    var scheme := "mk8dx_mmr";
    LowerKeeps(scheme);
    var text := "rating" + [UpperChar(scheme[0])] + Lower(scheme)[1..];
    assert text == "ratingMk8dx" + "_mmr";
    CamelPlain("mr");
    assert "_mmr"[2..] == "mr";
    assert Camel("_mmr") == [UpperChar('m')] + Camel("mr");
    CamelAppend("ratingMk8dx", "_mmr");
  }

  /** Lower-casing leaves text without upper-case letters as it is. */
  lemma LowerKeeps(s: string)
    requires forall i :: 0 <= i < |s| ==> !('A' <= s[i] <= 'Z')
    ensures Lower(s) == s
  {
  }

  /** Only the case of the scheme's first letter is normalised: case elsewhere does not matter either. */
  lemma KeyIgnoresCase(scheme: string)
    ensures SettingsKey(Lower(scheme)) == SettingsKey(scheme)
  {
    var lowered := Lower(scheme);
    assert Lower(lowered) == Lower(scheme) by {
      forall i | 0 <= i < |scheme|
        ensures Lower(lowered)[i] == Lower(scheme)[i]
      {
        assert LowerChar(LowerChar(scheme[i])) == LowerChar(scheme[i]);
      }
    }
    if scheme != [] {
      assert UpperChar(LowerChar(scheme[0])) == UpperChar(scheme[0]);
    }
  }

  /**
   * The board's settings for its scheme, with its scheme, its
   * `ratingAverageByTeam` and its `ratingMin` attached; None when the
   * board has no such property.
   */
  function RatingSettings(board: Lorenzi.BoardData): (r: Option<RatingSystems.Settings>)
    ensures r.Some? <==> SettingsKey(board.ratingScheme) in board.schemes
    ensures r.Some? ==> (r.value.scheme == board.ratingScheme
      && r.value.ratingAverageByTeam == board.ratingAverageByTeam && r.value.ratingMin == board.ratingMin)
  {
    var key := SettingsKey(board.ratingScheme);
    if key in board.schemes then
      var s := board.schemes[key];
      Some(RatingSystems.Settings(board.ratingScheme, s.scalingFactors, s.baselines, s.initial,
                                  board.ratingAverageByTeam, board.ratingMin))
    else None
  }
}
