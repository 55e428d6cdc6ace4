// `Image._updateLobbyResults` of utils/scores_calculation/table/image.js:
// before the results table is drawn, every entry of the lobby results is
// given the tier it is drawn with (its final tier, named, and the
// direction it moved from its original tier), and its delta is recomputed
// from the whole parts of its ratings, so that it agrees with the whole
// ratings the table shows.
module TableImage {
  import opened Wrappers
  import MatchCalculation
  import TableHelper

  type Tier = MatchCalculation.Tier

  /** The tier an entry is drawn with: the final tier, its name as the text, and the shift from the original tier (None is null). */
  datatype ShownTier = ShownTier(tier: Tier, text: string, shift: Option<string>)

  /** An entry of the lobby results: the result and, once updated, the tier it is drawn with. */
  datatype Entry = Entry(result: MatchCalculation.Result, tier: Option<ShownTier>)

  /** `tierMap`: each board tier under its name, a later tier replacing an earlier one of the same name. */
  function TierMap(tiers: seq<Tier>): (m: map<string, Tier>)
    ensures forall name :: name in m <==> exists i :: 0 <= i < |tiers| && tiers[i].name == name
    ensures forall name :: name in m ==> m[name].name == name
  {
    if tiers == [] then map[]
    else
      var init, last := tiers[..|tiers| - 1], tiers[|tiers| - 1];
      assert forall i :: 0 <= i < |init| ==> init[i] == tiers[i];
      TierMap(init)[last.name := last]
  }

  /** Of several tiers with one name, the last is the one looked up. */
  lemma {:induction false} TierMapLast(tiers: seq<Tier>, i: nat)
    requires i < |tiers| && forall j :: i < j < |tiers| ==> tiers[j].name != tiers[i].name
    ensures TierMap(tiers)[tiers[i].name] == tiers[i]
    decreases |tiers|
  {
    if i < |tiers| - 1 {
      var init := tiers[..|tiers| - 1];
      TierMapLast(init, i);
    }
  }

  /** Both of the entry's tiers are on the board; otherwise reading the missing tier's name throws. */
  predicate Known(e: Entry, m: map<string, Tier>)
  {
    e.result.originalTier in m && e.result.finalTier in m
  }

  /**
   * The tier record drawn for a move from `original` to `final`: no
   * shift when the names agree, up when the final tier starts higher,
   * down otherwise.
   */
  function ShownFor(original: Tier, final: Tier): (t: ShownTier)
    ensures t.tier == final && t.text == final.name
    ensures t.shift.None? <==> original.name == final.name
    ensures t.shift == Some(TableHelper.Up) <==> original.name != final.name && final.lowerBound > original.lowerBound
    ensures t.shift == Some(TableHelper.Down) <==> original.name != final.name && final.lowerBound <= original.lowerBound
  {
    ShownTier(final, final.name,
              if original.name != final.name then Some(if final.lowerBound > original.lowerBound then TableHelper.Up else TableHelper.Down)
              else None)
  }

  /** The entry with its tier set, as the first loop leaves it. */
  function WithTier(e: Entry, m: map<string, Tier>): Entry
    requires Known(e, m)
  {
    e.(tier := Some(ShownFor(m[e.result.originalTier], m[e.result.finalTier])))
  }

  function WithTiers(es: seq<Entry>, m: map<string, Tier>): (r: seq<Entry>)
    requires forall i :: 0 <= i < |es| ==> Known(es[i], m)
    ensures |r| == |es| && forall i :: 0 <= i < |es| ==> r[i] == WithTier(es[i], m)
  {
    seq(|es|, i requires 0 <= i < |es| && Known(es[i], m) => WithTier(es[i], m))
  }

  /** `Math.floor(finalRating) - Math.floor(originalRating)`. */
  function WholeDelta(r: MatchCalculation.Result): real
  {
    (r.finalRating.Floor - r.originalRating.Floor) as real
  }

  /** The entry with its delta recomputed, as the second loop leaves it. */
  function Redelta(e: Entry): Entry
  {
    e.(result := e.result.(delta := WholeDelta(e.result)))
  }

  /** Where the first loop stops: the first entry with a tier missing from the board, or the end. */
  function FirstUnknown(es: seq<Entry>, m: map<string, Tier>): (k: nat)
    ensures k <= |es| && (forall i :: 0 <= i < k ==> Known(es[i], m)) && (k < |es| ==> !Known(es[k], m))
  {
    if es == [] || !Known(es[0], m) then 0 else 1 + FirstUnknown(es[1..], m)
  }

  /** The lobby results once both loops have run over every entry. */
  function Updated(es: seq<Entry>, m: map<string, Tier>): (r: seq<Entry>)
    requires forall i :: 0 <= i < |es| ==> Known(es[i], m)
    ensures |r| == |es| && forall i :: 0 <= i < |es| ==> r[i] == Redelta(WithTier(es[i], m))
  {
    seq(|es|, i requires 0 <= i < |es| && Known(es[i], m) => Redelta(WithTier(es[i], m)))
  }

  /**
   * After the update each entry is drawn with its final tier, a shift
   * only when its tier changed (up when the new tier starts higher), and
   * a delta that is the difference of its whole ratings; nothing else of
   * its result changes.
   */
  lemma UpdatedEntry(es: seq<Entry>, tiers: seq<Tier>, i: nat)
    requires forall k :: 0 <= k < |es| ==> Known(es[k], TierMap(tiers))
    requires i < |es|
    ensures var m, e, u := TierMap(tiers), es[i].result, Updated(es, TierMap(tiers))[i];
      && u.tier.Some? && u.tier.value.tier.name == e.finalTier && u.tier.value.text == e.finalTier
      && (u.tier.value.shift.None? <==> e.originalTier == e.finalTier)
      && (u.tier.value.shift == Some(TableHelper.Up) <==>
            e.originalTier != e.finalTier && m[e.finalTier].lowerBound > m[e.originalTier].lowerBound)
      && u.result == e.(delta := (e.finalRating.Floor - e.originalRating.Floor) as real)
  {
  }

  /** The recomputed delta differs from the exact change of rating by less than one point. */
  lemma WholeDeltaClose(r: MatchCalculation.Result)
    ensures -1.0 < WholeDelta(r) - (r.finalRating - r.originalRating) < 1.0
  {
    var f, o := r.finalRating.Floor, r.originalRating.Floor;
    assert f as real <= r.finalRating < f as real + 1.0;
    assert o as real <= r.originalRating < o as real + 1.0;
  }

  /** Updating updated results changes nothing: the tiers come from the names and the delta from the ratings. */
  lemma UpdateIdempotent(es: seq<Entry>, m: map<string, Tier>)
    requires forall i :: 0 <= i < |es| ==> Known(es[i], m)
    ensures forall i :: 0 <= i < |es| ==> Known(Updated(es, m)[i], m)
    ensures Updated(Updated(es, m), m) == Updated(es, m)
  {
  }

  /** Results whose tiers all come from the board's tiers update without a throw. */
  lemma BoardTiersKnown(es: seq<Entry>, tiers: seq<Tier>)
    requires forall i :: 0 <= i < |es| ==>
      (exists a :: 0 <= a < |tiers| && tiers[a].name == es[i].result.originalTier)
      && (exists b :: 0 <= b < |tiers| && tiers[b].name == es[i].result.finalTier)
    ensures FirstUnknown(es, TierMap(tiers)) == |es|
  {
  }

  /** The first loop stops at `k` when every entry before it is known and the one at it is not. */
  lemma StopsAt(start: seq<Entry>, m: map<string, Tier>, k: nat)
    requires k <= |start| && forall i :: 0 <= i < k ==> Known(start[i], m)
    requires k < |start| ==> !Known(start[k], m)
    ensures FirstUnknown(start, m) == k
  {
  }

  /** Entries tiered up to `k`, where the first loop stopped, are the tiered prefix and the untouched rest. */
  lemma TieredPrefix(es: seq<Entry>, start: seq<Entry>, m: map<string, Tier>, k: nat)
    requires |es| == |start| && k <= |start|
    requires forall i :: 0 <= i < k ==> Known(start[i], m) && es[i] == WithTier(start[i], m)
    requires forall i :: k <= i < |start| ==> es[i] == start[i]
    ensures es == WithTiers(start[..k], m) + start[k..]
  {
    var tiered := WithTiers(start[..k], m);
    var r := tiered + start[k..];
    forall i | 0 <= i < |es|
      ensures es[i] == r[i]
    {
      if i < k {
        assert r[i] == tiered[i] == WithTier(start[..k][i], m);
      } else {
        assert r[i] == start[k..][i - k];
      }
    }
  }

  /** The lobby results handed to the drawing, updated in place. */
  class LobbyResults {
    var entries: seq<Entry>

    constructor(results: seq<MatchCalculation.Result>)
      ensures |entries| == |results| && forall i :: 0 <= i < |results| ==> entries[i] == Entry(results[i], None)
    {
      entries := seq(|results|, i requires 0 <= i < |results| => Entry(results[i], None));
    }

    /**
     * `_updateLobbyResults(lobbyResults, board)`: `ok` false stands for
     * the TypeError of a tier missing from the board, which `draw` turns
     * into a null image; the entries before it have their tier by then.
     */
    method UpdateLobbyResults(tiers: seq<Tier>) returns (ok: bool)
      modifies this
      ensures var m := TierMap(tiers); var k := FirstUnknown(old(entries), m);
        ok == (k == |old(entries)|)
        && entries == if ok then Updated(old(entries), m) else WithTiers(old(entries)[..k], m) + old(entries)[k..]
    {
      var tierMap := BuildTierMap(tiers);
      ok := SetTiers(tierMap);
      if ok {
        SetDeltas();
      }
    }

    /** The second loop of `_updateLobbyResults`: each entry's tier, up to the first missing one. */
    method SetTiers(m: map<string, Tier>) returns (ok: bool)
      modifies this
      ensures var k := FirstUnknown(old(entries), m);
        ok == (k == |old(entries)|) && entries == WithTiers(old(entries)[..k], m) + old(entries)[k..]
    {
      ghost var start := entries;
      for i := 0 to |entries|
        invariant |entries| == |start|
        invariant forall k :: 0 <= k < i ==> Known(start[k], m) && entries[k] == WithTier(start[k], m)
        invariant forall k :: i <= k < |start| ==> entries[k] == start[k]
      {
        if !Known(entries[i], m) {
          StopsAt(start, m, i);
          TieredPrefix(entries, start, m, i);
          return false;
        }
        entries := entries[i := WithTier(entries[i], m)];
      }
      StopsAt(start, m, |start|);
      TieredPrefix(entries, start, m, |start|);
      return true;
    }

    /** The third loop of `_updateLobbyResults`: each entry's delta from its whole ratings. */
    method SetDeltas()
      modifies this
      ensures |entries| == |old(entries)| && forall k :: 0 <= k < |entries| ==> entries[k] == Redelta(old(entries)[k])
    {
      for i := 0 to |entries|
        invariant |entries| == |old(entries)|
        invariant forall k :: 0 <= k < i ==> entries[k] == Redelta(old(entries)[k])
        invariant forall k :: i <= k < |entries| ==> entries[k] == old(entries)[k]
      {
        entries := entries[i := Redelta(entries[i])];
      }
    }
  }

  /** The first loop of `_updateLobbyResults`: the board's tiers under their names. */
  method BuildTierMap(tiers: seq<Tier>) returns (m: map<string, Tier>)
    ensures m == TierMap(tiers)
  {
    m := map[];
    for i := 0 to |tiers|
      invariant m == TierMap(tiers[..i])
    {
      assert tiers[..i + 1][..i] == tiers[..i];
      m := m[tiers[i].name := tiers[i]];
    }
    assert tiers[..|tiers|] == tiers;
  }
}
