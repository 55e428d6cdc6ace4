// The walk the calculator's loops make over the players of a match, team
// by team and player by player, setting one property of a results object
// per player seated.
module Seats {
  import opened Wrappers
  import opened Records
  import Objects

  /** A seat (team `i`, player `j`) a walk over the players of `teams` can stop at; `(|teams|, 0)` is the end. */
  predicate Stop(teams: seq<Team>, i: nat, j: nat)
  {
    (i < |teams| && j <= |teams[i].players|) || (i == |teams| && j == 0)
  }

  /** The seat `(a, b)` comes before the stop `(i, j)`. */
  predicate Before(teams: seq<Team>, a: nat, b: nat, i: nat, j: nat)
  {
    a < |teams| && b < |teams[a].players| && (a < i || (a == i && b < j))
  }

  /**
   * The object the walk has built at the stop `(i, j)` when at each seat
   * it sets the property `entry` gives, if any, under its key.
   */
  function SeatFold<T>(teams: seq<Team>, entry: (nat, nat) -> Option<T>, key: T -> string, i: nat, j: nat): seq<T>
    requires Stop(teams, i, j)
    decreases i, j
  {
    if j > 0 then
      var prev := SeatFold(teams, entry, key, i, j - 1);
      match entry(i, j - 1)
      case None => prev
      case Some(x) => Objects.Put(prev, x, key)
    else if i == 0 then []
    else SeatFold(teams, entry, key, i - 1, |teams[i - 1].players|)
  }

  /** `x` is the entry of a seat before the stop `(i, j)`. */
  ghost predicate FromSeat<T>(teams: seq<Team>, entry: (nat, nat) -> Option<T>, x: T, i: nat, j: nat)
  {
    exists a: nat, b: nat | Before(teams, a, b, i, j) :: entry(a, b) == Some(x)
  }

  /** The object holds one value per key. */
  lemma {:induction false} FoldDistinct<T>(teams: seq<Team>, entry: (nat, nat) -> Option<T>, key: T -> string, i: nat, j: nat)
    requires Stop(teams, i, j)
    ensures Objects.DistinctKeys(SeatFold(teams, entry, key, i, j), key)
    decreases i, j
  {
    if j > 0 {
      FoldDistinct(teams, entry, key, i, j - 1);
    } else if i > 0 {
      FoldDistinct(teams, entry, key, i - 1, |teams[i - 1].players|);
    }
  }

  /** Every value of the object is the entry of a seat walked over. */
  lemma {:induction false} FoldFromSeats<T>(teams: seq<Team>, entry: (nat, nat) -> Option<T>, key: T -> string, i: nat, j: nat)
    requires Stop(teams, i, j)
    ensures forall x | x in SeatFold(teams, entry, key, i, j) :: FromSeat(teams, entry, x, i, j)
    decreases i, j
  {
    if j > 0 {
      FoldFromSeats(teams, entry, key, i, j - 1);
      FoldDistinct(teams, entry, key, i, j - 1);
      forall x | x in SeatFold(teams, entry, key, i, j - 1) ensures FromSeat(teams, entry, x, i, j) {
        var a: nat, b: nat :| Before(teams, a, b, i, j - 1) && entry(a, b) == Some(x);
        assert Before(teams, a, b, i, j);
      }
      assert Before(teams, i, j - 1, i, j);
    } else if i > 0 {
      FoldFromSeats(teams, entry, key, i - 1, |teams[i - 1].players|);
      assert SeatFold(teams, entry, key, i, j) == SeatFold(teams, entry, key, i - 1, |teams[i - 1].players|);
      forall x | x in SeatFold(teams, entry, key, i, j) ensures FromSeat(teams, entry, x, i, j) {
        var a: nat, b: nat :| Before(teams, a, b, i - 1, |teams[i - 1].players|) && entry(a, b) == Some(x);
        assert Before(teams, a, b, i, j);
      }
    }
  }

  /** Every seat walked over that has an entry has a value under that entry's key. */
  lemma {:induction false} FoldKeyed<T>(teams: seq<Team>, entry: (nat, nat) -> Option<T>, key: T -> string, i: nat, j: nat, a: nat, b: nat)
    requires Stop(teams, i, j) && Before(teams, a, b, i, j) && entry(a, b).Some?
    ensures exists k :: 0 <= k < |SeatFold(teams, entry, key, i, j)| && key(SeatFold(teams, entry, key, i, j)[k]) == key(entry(a, b).value)
    decreases i, j
  {
    var rs := SeatFold(teams, entry, key, i, j);
    if j > 0 {
      var prev := SeatFold(teams, entry, key, i, j - 1);
      FoldStepKeys(teams, entry, key, i, j);
      if a == i && b == j - 1 {
        var k :| 0 <= k < |rs| && rs[k] == entry(a, b).value;
        assert key(rs[k]) == key(entry(a, b).value);
      } else {
        assert Before(teams, a, b, i, j - 1);
        FoldKeyed(teams, entry, key, i, j - 1, a, b);
        var k :| 0 <= k < |prev| && key(prev[k]) == key(entry(a, b).value);
        assert key(rs[k]) == key(prev[k]);
      }
    } else {
      assert rs == SeatFold(teams, entry, key, i - 1, |teams[i - 1].players|);
      assert Before(teams, a, b, i - 1, |teams[i - 1].players|);
      FoldKeyed(teams, entry, key, i - 1, |teams[i - 1].players|, a, b);
    }
  }

  /** One step of the walk keeps the keys already set in place and sets the seat's entry. */
  lemma FoldStepKeys<T>(teams: seq<Team>, entry: (nat, nat) -> Option<T>, key: T -> string, i: nat, j: nat)
    requires Stop(teams, i, j) && j > 0
    ensures var rs, prev := SeatFold(teams, entry, key, i, j), SeatFold(teams, entry, key, i, j - 1);
      |prev| <= |rs| && (forall k :: 0 <= k < |prev| ==> key(rs[k]) == key(prev[k]))
      && (entry(i, j - 1).Some? ==> exists k :: 0 <= k < |rs| && rs[k] == entry(i, j - 1).value)
  {
    var prev := SeatFold(teams, entry, key, i, j - 1);
    match entry(i, j - 1)
    case None =>
    case Some(x) =>
      var rs := Objects.Put(prev, x, key);
      assert x in rs;
  }

  /** A walk over teams without players builds nothing. */
  lemma {:induction false} FoldNoSeats<T>(teams: seq<Team>, entry: (nat, nat) -> Option<T>, key: T -> string, i: nat)
    requires i <= |teams| && forall a | 0 <= a < i :: teams[a].players == []
    ensures SeatFold(teams, entry, key, i, 0) == []
  {
    if i > 0 {
      FoldNoSeats(teams, entry, key, i - 1);
      assert SeatFold(teams, entry, key, i, 0) == SeatFold(teams, entry, key, i - 1, 0);
    }
  }

  /** No two seats hold players of the same name. */
  predicate DistinctSeats(teams: seq<Team>)
  {
    forall a, b, c, e | 0 <= a < |teams| && 0 <= b < |teams[a].players| && 0 <= c < |teams| && 0 <= e < |teams[c].players|
      :: teams[a].players[b].name == teams[c].players[e].name ==> a == c && b == e
  }

  /** Every player seated before the stop has an entry in `d`. */
  ghost predicate CoversUpTo<V>(d: map<string, V>, teams: seq<Team>, i: nat, j: nat)
  {
    forall a: nat, b: nat | Before(teams, a, b, i, j) :: teams[a].players[b].name in d
  }

  /**
   * The dictionary the walk has built at the stop `(i, j)` when at each
   * seat it sets the player's name to the seat's `value`.
   */
  function SeatMap<V>(teams: seq<Team>, value: (nat, nat) -> V, i: nat, j: nat): (d: map<string, V>)
    requires Stop(teams, i, j)
    ensures CoversUpTo(d, teams, i, j)
    decreases i, j
  {
    if j > 0 then
      var d := SeatMap(teams, value, i, j - 1)[teams[i].players[j - 1].name := value(i, j - 1)];
      assert forall a: nat, b: nat | Before(teams, a, b, i, j) :: Before(teams, a, b, i, j - 1) || (a == i && b == j - 1);
      d
    else if i == 0 then map[]
    else
      var d := SeatMap(teams, value, i - 1, |teams[i - 1].players|);
      assert forall a: nat, b: nat | Before(teams, a, b, i, 0) :: Before(teams, a, b, i - 1, |teams[i - 1].players|);
      d
  }

  /** One more step of the walk sets the next player's name to their seat's value. */
  lemma SeatMapStep<V>(teams: seq<Team>, value: (nat, nat) -> V, i: nat, j: nat)
    requires i < |teams| && j < |teams[i].players|
    ensures SeatMap(teams, value, i, j + 1) == SeatMap(teams, value, i, j)[teams[i].players[j].name := value(i, j)]
    ensures j + 1 == |teams[i].players| ==> SeatMap(teams, value, i + 1, 0) == SeatMap(teams, value, i, j + 1)
  {
  }

  /** With distinct names, each player seated before the stop holds their own seat's value. */
  lemma {:induction false} SeatMapAt<V>(teams: seq<Team>, value: (nat, nat) -> V, i: nat, j: nat, a: nat, b: nat)
    requires Stop(teams, i, j) && DistinctSeats(teams) && Before(teams, a, b, i, j)
    ensures SeatMap(teams, value, i, j)[teams[a].players[b].name] == value(a, b)
    decreases i, j
  {
    if j > 0 {
      if !(a == i && b == j - 1) {
        SeatMapAt(teams, value, i, j - 1, a, b);
      }
    } else {
      SeatMapAt(teams, value, i - 1, |teams[i - 1].players|, a, b);
    }
  }
}
