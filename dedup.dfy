// How `_predictMatch` (utils/scores_calculation/scores_calculation.js)
// thins out the candidate matches: it groups them by lobby number, and
// within a group it nulls every match that a later match of the group
// equals (first pass) or duplicates (second pass), so that the later
// copy survives; then it drops the nulls and flattens the groups in the
// order their lobby numbers first appeared.
module Dedup {
  import opened Wrappers
  import opened Records
  import MatchComparison

  // ---------------------------------------------------------------
  // `filter(item => item !== null)`
  // ---------------------------------------------------------------

  function Somes<T>(s: seq<Option<T>>): (r: seq<T>)
    ensures |r| <= |s|
  {
    if s == [] then [] else Somes(s[..|s| - 1]) + (if s[|s| - 1].Some? then [s[|s| - 1].value] else [])
  }

  /** Every value kept comes from a slot of the input. */
  lemma {:induction false} SomesFrom<T>(s: seq<Option<T>>, q: nat)
    requires q < |Somes(s)|
    ensures exists k :: 0 <= k < |s| && s[k] == Some(Somes(s)[q])
  {
    var init := s[..|s| - 1];
    if q < |Somes(init)| {
      SomesFrom(init, q);
      var k :| 0 <= k < |init| && init[k] == Some(Somes(init)[q]);
      assert s[k] == init[k];
    } else {
      assert s[|s| - 1] == Some(Somes(s)[q]);
    }
  }

  /** The values kept stay in the order of their slots. */
  lemma {:induction false} SomesOrdered<T>(s: seq<Option<T>>, x: nat, y: nat)
    requires x < y < |Somes(s)|
    ensures exists kx, ky :: 0 <= kx < ky < |s| && s[kx] == Some(Somes(s)[x]) && s[ky] == Some(Somes(s)[y])
  {
    var init := s[..|s| - 1];
    if y < |Somes(init)| {
      SomesOrdered(init, x, y);
      var kx, ky :| 0 <= kx < ky < |init| && init[kx] == Some(Somes(init)[x]) && init[ky] == Some(Somes(init)[y]);
      assert s[kx] == init[kx] && s[ky] == init[ky];
    } else {
      SomesFrom(init, x);
      var kx :| 0 <= kx < |init| && init[kx] == Some(Somes(init)[x]);
      assert s[kx] == init[kx];
      assert s[|s| - 1] == Some(Somes(s)[y]);
    }
  }

  /** With no null slot, nothing is dropped. */
  lemma {:induction false} SomesAll<T>(xs: seq<T>)
    ensures Somes(seq(|xs|, k requires 0 <= k < |xs| => Some(xs[k]))) == xs
  {
    if xs != [] {
      var init := xs[..|xs| - 1];
      SomesAll(init);
      var s := seq(|xs|, k requires 0 <= k < |xs| => Some(xs[k]));
      assert s[..|s| - 1] == seq(|init|, k requires 0 <= k < |init| => Some(init[k]));
    }
  }

  // ---------------------------------------------------------------
  // Nulling the earlier of two related matches
  // ---------------------------------------------------------------

  /** The `k`-th match of a group is nulled: a later match of the group relates to it. */
  predicate Dropped(g: seq<Match>, rel: (Match, Match) -> bool, k: nat)
    requires k < |g|
  {
    exists j :: k < j < |g| && rel(g[k], g[j])
  }

  /** The slots after the nulling loops. */
  function Marks(g: seq<Match>, rel: (Match, Match) -> bool): (r: seq<Option<Match>>)
    ensures |r| == |g| && forall k {:trigger r[k]} :: 0 <= k < |g| ==> r[k] == if Dropped(g, rel, k) then None else Some(g[k])
  {
    seq(|g|, k requires 0 <= k < |g| => if Dropped(g, rel, k) then None else Some(g[k]))
  }

  function Survivors(g: seq<Match>, rel: (Match, Match) -> bool): seq<Match>
  {
    Somes(Marks(g, rel))
  }

  /**
   * One pass over one group: for i < j, a related pair nulls slot i; a
   * null slot relates to nothing, as `_areMatchesEqual` and
   * `_areMatchesDuplicated` both answer false on null. Then the nulls
   * are filtered out.
   */
  method DropRelated(g: seq<Match>, rel: (Match, Match) -> bool) returns (kept: seq<Match>)
    ensures kept == Survivors(g, rel)
  {
    var a := new Option<Match>[|g|](k requires 0 <= k < |g| => Some(g[k]));
    var i := 0;
    while i < |g| - 1
      invariant 0 <= i <= |g|
      invariant forall k :: 0 <= k < i ==> a[k] == Marks(g, rel)[k]
      invariant forall k :: i <= k < |g| ==> a[k] == Some(g[k])
    {
      NullIfRelated(a, g, rel, i);
      i := i + 1;
    }
    assert a[..] == Marks(g, rel);
    kept := Compact(a);
  }

  /** The inner nulling loop for slot `i`: a later match related to it nulls it. */
  method NullIfRelated(a: array<Option<Match>>, g: seq<Match>, rel: (Match, Match) -> bool, i: nat)
    requires a.Length == |g| && i < |g|
    requires forall k :: i <= k < |g| ==> a[k] == Some(g[k])
    modifies a
    ensures a[i] == Marks(g, rel)[i]
    ensures forall k :: 0 <= k < |g| && k != i ==> a[k] == old(a[k])
  {
    var j := i + 1;
    while j < |g|
      invariant i + 1 <= j <= |g|
      invariant a[i] == if exists j' :: i < j' < j && rel(g[i], g[j']) then None else Some(g[i])
      invariant forall k :: 0 <= k < |g| && k != i ==> a[k] == old(a[k])
    {
      // i < j always holds here, so the source's branch that nulls slot j never runs
      if a[i].Some? && a[j].Some? && rel(a[i].value, a[j].value) {
        a[i] := None;
      }
      j := j + 1;
    }
  }

  /** `filter(item => item !== null)` over the slots. */
  method Compact(a: array<Option<Match>>) returns (kept: seq<Match>)
    ensures kept == Somes(a[..])
  {
    kept := [];
    for k := 0 to a.Length
      invariant kept == Somes(a[..k])
    {
      assert a[..k + 1][..k] == a[..k];
      if a[k].Some? {
        kept := kept + [a[k].value];
      }
    }
    assert a[..a.Length] == a[..];
  }

  /** The last match of a group always survives, so a group never empties. */
  lemma SurvivorsKeepLast(g: seq<Match>, rel: (Match, Match) -> bool)
    requires g != []
    ensures Survivors(g, rel) != [] && Survivors(g, rel)[|Survivors(g, rel)| - 1] == g[|g| - 1]
  {
    var s := Marks(g, rel);
    assert s[|s| - 1] == Some(g[|g| - 1]);
  }

  /** Survivors keep their order in the group. */
  lemma SurvivorsInOrder(g: seq<Match>, rel: (Match, Match) -> bool, x: nat, y: nat)
    requires x < y < |Survivors(g, rel)|
    ensures exists kx, ky :: 0 <= kx < ky < |g| && g[kx] == Survivors(g, rel)[x] && g[ky] == Survivors(g, rel)[y]
  {
    SomesOrdered(Marks(g, rel), x, y);
  }

  /** Every survivor is a match of the group. */
  lemma SurvivorsWithin(g: seq<Match>, rel: (Match, Match) -> bool, x: nat)
    requires x < |Survivors(g, rel)|
    ensures Survivors(g, rel)[x] in g
  {
    SomesFrom(Marks(g, rel), x);
  }

  /** No surviving match relates to a later survivor. */
  lemma SurvivorsUnrelated(g: seq<Match>, rel: (Match, Match) -> bool, x: nat, y: nat)
    requires x < y < |Survivors(g, rel)|
    ensures !rel(Survivors(g, rel)[x], Survivors(g, rel)[y])
  {
    var s := Marks(g, rel);
    SomesOrdered(s, x, y);
    var kx, ky :| 0 <= kx < ky < |s| && s[kx] == Some(Somes(s)[x]) && s[ky] == Some(Somes(s)[y]);
    assert !Dropped(g, rel, kx);
  }

  /** A group with no related pair survives whole. */
  lemma SurvivorsAll(g: seq<Match>, rel: (Match, Match) -> bool)
    requires forall i, j :: 0 <= i < j < |g| ==> !rel(g[i], g[j])
    ensures Survivors(g, rel) == g
  {
    assert Marks(g, rel) == seq(|g|, k requires 0 <= k < |g| => Some(g[k]));
    SomesAll(g);
  }

  // ---------------------------------------------------------------
  // Grouping by lobby number
  // ---------------------------------------------------------------

  datatype Group = Group(number: LobbyNumber, matches: seq<Match>)

  /** The group of a lobby number; the `Map` compares the raw values, so `7` and `"7"` are different keys. */
  function FindGroup(groups: seq<Group>, n: LobbyNumber): (r: Option<nat>)
    ensures r.Some? ==> r.value < |groups| && groups[r.value].number == n
    ensures r.None? ==> forall k :: 0 <= k < |groups| ==> groups[k].number != n
  {
    if groups == [] then None
    else if groups[0].number == n then Some(0)
    else
      match FindGroup(groups[1..], n)
      case None => None
      case Some(k) => Some(k + 1)
  }

  /** `matchesByNumber.get(n).push(match)`, opening the group first when it is new. */
  function AddToGroup(groups: seq<Group>, m: Match): seq<Group>
  {
    match FindGroup(groups, m.lobbyNumber)
    case None => groups + [Group(m.lobbyNumber, [m])]
    case Some(k) => groups[k := Group(groups[k].number, groups[k].matches + [m])]
  }

  /** The grouping loop from `groups` on: each match of `ms`, in turn, added to its number's group. */
  function GroupInto(groups: seq<Group>, ms: seq<Match>): seq<Group>
    decreases |ms|
  {
    if ms == [] then groups else GroupInto(AddToGroup(groups, ms[0]), ms[1..])
  }

  /** `matchesByNumber`: the candidates grouped by lobby number, groups in the order their number first appears. */
  function GroupByNumber(ms: seq<Match>): seq<Group>
  {
    GroupInto([], ms)
  }

  /** One more match: it is added to what the loop has built so far. */
  lemma {:induction false} GroupIntoSnoc(groups: seq<Group>, ms: seq<Match>, m: Match)
    ensures GroupInto(groups, ms + [m]) == AddToGroup(GroupInto(groups, ms), m)
    decreases |ms|
  {
    if ms == [] {
      assert (ms + [m])[1..] == [];
    } else {
      assert (ms + [m])[0] == ms[0] && (ms + [m])[1..] == ms[1..] + [m];
      GroupIntoSnoc(AddToGroup(groups, ms[0]), ms[1..], m);
    }
  }

  /** The last match is added to the grouping of the others. */
  lemma GroupBySnoc(ms: seq<Match>)
    requires ms != []
    ensures GroupByNumber(ms) == AddToGroup(GroupByNumber(ms[..|ms| - 1]), ms[|ms| - 1])
  {
    GroupIntoSnoc([], ms[..|ms| - 1], ms[|ms| - 1]);
    assert ms[..|ms| - 1] + [ms[|ms| - 1]] == ms;
  }

  /** The groups' matches, group after group. */
  function Flatten(groups: seq<Group>): seq<Match>
  {
    if groups == [] then [] else Flatten(groups[..|groups| - 1]) + groups[|groups| - 1].matches
  }

  /** Every group is non-empty and holds only matches of its number, and no number has two groups. */
  predicate WellGrouped(groups: seq<Group>)
  {
    (forall k :: 0 <= k < |groups| ==> groups[k].matches != [])
    && (forall k, x :: 0 <= k < |groups| && x in groups[k].matches ==> x.lobbyNumber == groups[k].number)
    && (forall k, l :: 0 <= k < l < |groups| ==> groups[k].number != groups[l].number)
  }

  lemma {:induction false} FlattenUpdate(groups: seq<Group>, k: nat, g: Group)
    requires k < |groups|
    ensures multiset(Flatten(groups[k := g])) == multiset(Flatten(groups)) - multiset(groups[k].matches) + multiset(g.matches)
  {
    var n := |groups|;
    var init, u := groups[..n - 1], groups[k := g];
    var last := groups[n - 1].matches;
    assert Flatten(groups) == Flatten(init) + last;
    if k == n - 1 {
      assert u[..n - 1] == init;
      assert Flatten(u) == Flatten(init) + g.matches;
      MultisetReplaceLast(multiset(Flatten(init)), multiset(last), multiset(g.matches));
    } else {
      FlattenUpdate(init, k, g);
      assert u[..n - 1] == init[k := g];
      assert Flatten(u) == Flatten(init[k := g]) + last;
      FlattenHolds(init, k);
      MultisetReplaceInside(multiset(Flatten(init)), multiset(last), multiset(groups[k].matches), multiset(g.matches));
    }
  }

  lemma MultisetReplaceLast<T>(a: multiset<T>, l: multiset<T>, g: multiset<T>)
    ensures a + l - l + g == a + g
  {
    assert a + l - l == a;
  }

  lemma MultisetReplaceInside<T>(a: multiset<T>, l: multiset<T>, k: multiset<T>, g: multiset<T>)
    requires k <= a
    ensures a - k + g + l == a + l - k + g
  {
    forall x ensures (a - k + g + l)[x] == (a + l - k + g)[x] {
      assert k[x] <= a[x];
    }
  }

  lemma {:induction false} FlattenHolds(groups: seq<Group>, k: nat)
    requires k < |groups|
    ensures multiset(groups[k].matches) <= multiset(Flatten(groups))
  {
    var n := |groups|;
    if k < n - 1 {
      FlattenHolds(groups[..n - 1], k);
    }
  }

  /** Adding a match to the groups keeps them well formed. */
  lemma AddToGroupWell(groups: seq<Group>, m: Match)
    requires WellGrouped(groups)
    ensures WellGrouped(AddToGroup(groups, m)) && AddToGroup(groups, m) != []
  {
    match FindGroup(groups, m.lobbyNumber)
    case None =>
      var r := groups + [Group(m.lobbyNumber, [m])];
      assert forall k :: 0 <= k < |groups| ==> r[k] == groups[k];
    case Some(k) =>
  }

  /** Adding a match to the groups adds exactly that match to their contents. */
  lemma AddToGroupContents(groups: seq<Group>, m: Match)
    ensures multiset(Flatten(AddToGroup(groups, m))) == multiset(Flatten(groups)) + multiset{m}
  {
    match FindGroup(groups, m.lobbyNumber)
    case None =>
      assert (groups + [Group(m.lobbyNumber, [m])])[..|groups|] == groups;
    case Some(k) =>
      var g := Group(groups[k].number, groups[k].matches + [m]);
      FlattenUpdate(groups, k, g);
      FlattenHolds(groups, k);
  }

  /** Grouping groups as promised. */
  lemma {:induction false} GroupByNumberWell(ms: seq<Match>)
    ensures WellGrouped(GroupByNumber(ms))
    ensures ms != [] ==> GroupByNumber(ms) != []
  {
    if ms != [] {
      GroupBySnoc(ms);
      GroupByNumberWell(ms[..|ms| - 1]);
      AddToGroupWell(GroupByNumber(ms[..|ms| - 1]), ms[|ms| - 1]);
    }
  }

  /** Grouping loses and adds nothing. */
  lemma {:induction false} GroupByNumberKeeps(ms: seq<Match>)
    ensures multiset(Flatten(GroupByNumber(ms))) == multiset(ms)
  {
    if ms != [] {
      var init, m := ms[..|ms| - 1], ms[|ms| - 1];
      var grouped := GroupByNumber(init);
      GroupBySnoc(ms);
      calc {
        multiset(Flatten(GroupByNumber(ms)));
        multiset(Flatten(AddToGroup(grouped, m)));
        { AddToGroupContents(grouped, m); }
        multiset(Flatten(grouped)) + multiset{m};
        { GroupByNumberKeeps(init); }
        multiset(init) + multiset{m};
        { assert ms == init + [m]; }
        multiset(ms);
      }
    }
  }

  // ---------------------------------------------------------------
  // The two passes over the groups
  // ---------------------------------------------------------------

  function Deduped(groups: seq<Group>, rel: (Match, Match) -> bool): (r: seq<Group>)
    ensures |r| == |groups|
  {
    seq(|groups|, k requires 0 <= k < |groups| => Group(groups[k].number, Survivors(groups[k].matches, rel)))
  }

  /** `_areMatchesEqual` on two matches of a group. */
  predicate EqualPair(a: Match, b: Match)
  {
    MatchComparison.MatchesEqual(Some(a), Some(b))
  }

  /** `_areMatchesDuplicated` on two matches of a group. */
  predicate DuplicatedPair(a: Match, b: Match)
  {
    MatchComparison.MatchesDuplicated(Some(a), Some(b))
  }

  function Equal(): (Match, Match) -> bool
  {
    EqualPair
  }

  function Duplicated(): (Match, Match) -> bool
  {
    DuplicatedPair
  }

  /** What is left of the candidates, in the order the source lists them. */
  function Thinned(ms: seq<Match>): seq<Match>
  {
    Flatten(Deduped(Deduped(GroupByNumber(ms), Equal()), Duplicated()))
  }

  /** The grouping loop. */
  method GroupMatches(ms: seq<Match>) returns (groups: seq<Group>)
    ensures groups == GroupByNumber(ms)
  {
    groups := [];
    for i := 0 to |ms|
      invariant groups == GroupByNumber(ms[..i])
    {
      assert ms[..i + 1][..i] == ms[..i];
      GroupBySnoc(ms[..i + 1]);
      var k := FindGroup(groups, ms[i].lobbyNumber);
      if k.None? {
        groups := groups + [Group(ms[i].lobbyNumber, [ms[i]])];
      } else {
        groups := groups[k.value := Group(groups[k.value].number, groups[k.value].matches + [ms[i]])];
      }
    }
    assert ms[..|ms|] == ms;
  }

  /** A pass over every group: `matchesByNumber.set(lobbyNumber, filtered)`. */
  method DropInGroups(groups: seq<Group>, rel: (Match, Match) -> bool) returns (r: seq<Group>)
    ensures r == Deduped(groups, rel)
  {
    r := groups;
    for k := 0 to |groups|
      invariant |r| == |groups|
      invariant forall l :: 0 <= l < k ==> r[l] == Deduped(groups, rel)[l]
      invariant forall l :: k <= l < |groups| ==> r[l] == groups[l]
    {
      var kept := DropRelated(groups[k].matches, rel);
      r := r[k := Group(groups[k].number, kept)];
    }
  }

  /** The flattening loop. */
  method FlattenGroups(groups: seq<Group>) returns (ms: seq<Match>)
    ensures ms == Flatten(groups)
  {
    ms := [];
    for k := 0 to |groups|
      invariant ms == Flatten(groups[..k])
    {
      assert groups[..k + 1][..k] == groups[..k];
      for j := 0 to |groups[k].matches|
        invariant ms == Flatten(groups[..k]) + groups[k].matches[..j]
      {
        assert groups[k].matches[..j + 1] == groups[k].matches[..j] + [groups[k].matches[j]];
        ms := ms + [groups[k].matches[j]];
      }
      assert groups[k].matches[..|groups[k].matches|] == groups[k].matches;
    }
    assert groups[..|groups|] == groups;
  }

  method Thin(ms: seq<Match>) returns (r: seq<Match>)
    ensures r == Thinned(ms)
  {
    var groups := GroupMatches(ms);
    groups := DropInGroups(groups, Equal());
    groups := DropInGroups(groups, Duplicated());
    r := FlattenGroups(groups);
  }

  // ---------------------------------------------------------------
  // What the thinning promises
  // ---------------------------------------------------------------

  lemma {:induction false} FlattenEmpty(groups: seq<Group>)
    requires forall k :: 0 <= k < |groups| ==> groups[k].matches != []
    ensures groups != [] ==> Flatten(groups) != []
  {
  }

  /** Thinning never empties a non-empty list: every group keeps its last match through both passes. */
  lemma ThinnedNonEmpty(ms: seq<Match>)
    requires ms != []
    ensures Thinned(ms) != []
  {
    GroupByNumberWell(ms);
    var groups := GroupByNumber(ms);
    var once := Deduped(groups, Equal());
    forall k | 0 <= k < |once| ensures once[k].matches != [] {
      SurvivorsKeepLast(groups[k].matches, Equal());
    }
    var twice := Deduped(once, Duplicated());
    forall k | 0 <= k < |twice| ensures twice[k].matches != [] {
      SurvivorsKeepLast(once[k].matches, Duplicated());
    }
    assert twice[0].matches != [];
    assert Flatten(twice) == Flatten(twice[..|twice| - 1]) + twice[|twice| - 1].matches;
  }

  /**
   * Within a group, no match left equals or duplicates a later one: the
   * second pass keeps the first pass's survivors in order.
   */
  lemma ThinnedGroupsClean(ms: seq<Match>, k: nat, x: nat, y: nat)
    requires k < |GroupByNumber(ms)|
    requires var g := Deduped(Deduped(GroupByNumber(ms), Equal()), Duplicated())[k].matches; x < y < |g|
    ensures var g := Deduped(Deduped(GroupByNumber(ms), Equal()), Duplicated())[k].matches;
      !MatchComparison.MatchesDuplicated(Some(g[x]), Some(g[y])) && !MatchComparison.MatchesEqual(Some(g[x]), Some(g[y]))
  {
    var once := Survivors(GroupByNumber(ms)[k].matches, Equal());
    var g := Survivors(once, Duplicated());
    SurvivorsUnrelated(once, Duplicated(), x, y);
    SurvivorsInOrder(once, Duplicated(), x, y);
    var kx, ky :| 0 <= kx < ky < |once| && once[kx] == g[x] && once[ky] == g[y];
    SurvivorsUnrelated(GroupByNumber(ms)[k].matches, Equal(), kx, ky);
  }

  /** The last match added closes its group. */
  lemma LastGrouped(ms: seq<Match>) returns (k: nat)
    requires ms != []
    ensures var groups := GroupByNumber(ms);
      k < |groups| && groups[k].matches != [] && groups[k].matches[|groups[k].matches| - 1] == ms[|ms| - 1]
  {
    GroupBySnoc(ms);
    var groups := GroupByNumber(ms[..|ms| - 1]);
    var m := ms[|ms| - 1];
    match FindGroup(groups, m.lobbyNumber)
    case None =>
      k := |groups|;
      assert GroupByNumber(ms)[k].matches == [m];
    case Some(j) =>
      k := j;
      assert GroupByNumber(ms)[k].matches == groups[k].matches + [m];
  }

  /** The last match of the list is always among those left. */
  lemma LastThinned(ms: seq<Match>, m: Match)
    requires EndsWith(ms, m)
    ensures m in Thinned(ms)
  {
    var k := LastGrouped(ms);
    PassesKeepLast(GroupByNumber(ms), Equal(), Duplicated(), k);
  }

  /** Both passes keep the last match of every group. */
  lemma PassesKeepLast(groups: seq<Group>, first: (Match, Match) -> bool, second: (Match, Match) -> bool, k: nat)
    requires k < |groups| && groups[k].matches != []
    ensures groups[k].matches[|groups[k].matches| - 1] in Flatten(Deduped(Deduped(groups, first), second))
  {
    var once := Deduped(groups, first);
    var twice := Deduped(once, second);
    KeepsLastAt(groups, first, k);
    KeepsLastAt(once, second, k);
    FlattenHolds(twice, k);
    assert groups[k].matches[|groups[k].matches| - 1] in multiset(twice[k].matches);
  }

  /** A pass keeps, in its group, the last match of each group. */
  lemma KeepsLastAt(groups: seq<Group>, rel: (Match, Match) -> bool, k: nat)
    requires k < |groups| && groups[k].matches != []
    ensures var g := Deduped(groups, rel)[k].matches;
      g != [] && g[|g| - 1] == groups[k].matches[|groups[k].matches| - 1]
  {
    assert Deduped(groups, rel)[k].matches == Survivors(groups[k].matches, rel);
    SurvivorsKeepLast(groups[k].matches, rel);
  }

  // ---------------------------------------------------------------
  // Which match ends the list
  // ---------------------------------------------------------------

  /** `ms` is not empty and ends with `m`. */
  predicate EndsWith(ms: seq<Match>, m: Match)
  {
    ms != [] && ms[|ms| - 1] == m
  }

  /** The list ends with the last match of the last group, the group whose number appeared last. */
  lemma ThinnedEnds(ms: seq<Match>)
    requires ms != []
    ensures var groups := GroupByNumber(ms); var r := Thinned(ms);
      groups != [] && groups[|groups| - 1].matches != []
      && r != [] && r[|r| - 1] == groups[|groups| - 1].matches[|groups[|groups| - 1].matches| - 1]
  {
    ThinnedByEnds(ms, Equal(), Duplicated());
    ThinnedIsBy(ms);
  }

  /** The thinning with any two passes over the groups. */
  function ThinnedBy(ms: seq<Match>, first: (Match, Match) -> bool, second: (Match, Match) -> bool): seq<Match>
  {
    Flatten(Deduped(Deduped(GroupByNumber(ms), first), second))
  }

  lemma ThinnedIsBy(ms: seq<Match>)
    ensures Thinned(ms) == ThinnedBy(ms, Equal(), Duplicated())
  {
  }

  lemma ThinnedByEnds(ms: seq<Match>, first: (Match, Match) -> bool, second: (Match, Match) -> bool)
    requires ms != []
    ensures var groups := GroupByNumber(ms); var r := ThinnedBy(ms, first, second);
      groups != [] && groups[|groups| - 1].matches != []
      && r != [] && r[|r| - 1] == groups[|groups| - 1].matches[|groups[|groups| - 1].matches| - 1]
  {
    LastGroupNonEmpty(ms);
    PassesEnd(GroupByNumber(ms), first, second);
  }

  lemma LastGroupNonEmpty(ms: seq<Match>)
    requires ms != []
    ensures var groups := GroupByNumber(ms); groups != [] && groups[|groups| - 1].matches != []
  {
    GroupByNumberWell(ms);
  }

  /** Two passes keep the last match of the last group at the end. */
  lemma PassesEnd(groups: seq<Group>, first: (Match, Match) -> bool, second: (Match, Match) -> bool)
    requires groups != [] && groups[|groups| - 1].matches != []
    ensures var f, g := Flatten(Deduped(Deduped(groups, first), second)), groups[|groups| - 1].matches;
      f != [] && f[|f| - 1] == g[|g| - 1]
  {
    var n := |groups|;
    var once := Deduped(groups, first);
    KeepsLastAt(groups, first, n - 1);
    KeepsLastAt(once, second, n - 1);
    FlattenEnds(Deduped(once, second));
  }

  /** Flattened groups end with the last match of the last group, when it has one. */
  lemma FlattenEnds(groups: seq<Group>)
    requires groups != [] && groups[|groups| - 1].matches != []
    ensures var f, g := Flatten(groups), groups[|groups| - 1].matches; f != [] && f[|f| - 1] == g[|g| - 1]
  {
    assert Flatten(groups) == Flatten(groups[..|groups| - 1]) + groups[|groups| - 1].matches;
  }

  /** When the last match's number has the last group, the list ends with the last match. */
  lemma ThinnedEndsWithLast(ms: seq<Match>, m: Match)
    requires EndsWith(ms, m)
    requires var groups := GroupByNumber(ms); groups != [] && groups[|groups| - 1].number == m.lobbyNumber
    ensures EndsWith(Thinned(ms), m)
  {
    ThinnedEnds(ms);
    GroupByNumberWell(ms);
    var k := LastGrouped(ms);
    var groups := GroupByNumber(ms);
    assert ms[|ms| - 1] in groups[k].matches;
    assert k == |groups| - 1;
  }

  /** The list ends with a match of the number that appeared last. */
  lemma ThinnedEndsNumber(ms: seq<Match>)
    requires ms != []
    ensures var groups := GroupByNumber(ms); var r := Thinned(ms);
      groups != [] && r != [] && r[|r| - 1].lobbyNumber == groups[|groups| - 1].number
  {
    ThinnedEnds(ms);
    LastGroupNumber(ms);
  }

  lemma LastGroupNumber(ms: seq<Match>)
    requires ms != []
    ensures var groups := GroupByNumber(ms);
      groups != [] && var g := groups[|groups| - 1].matches; g != [] && g[|g| - 1].lobbyNumber == groups[|groups| - 1].number
  {
    GroupByNumberWell(ms);
    var groups := GroupByNumber(ms);
    var g := groups[|groups| - 1].matches;
    assert g[|g| - 1] in g;
  }

  /**
   * Two matches of one number around a match of another number: the list
   * ends with the match of the other number, though it came before the
   * last one.
   */
  lemma ThinnedEndsWithOther(a: Match, b: Match, t: Match)
    requires a.lobbyNumber == t.lobbyNumber && b.lobbyNumber != a.lobbyNumber
    ensures EndsWith(Thinned([a, b, t]), b)
  {
    ThinnedEnds([a, b, t]);
    GroupsOfThree(a, b, t);
  }

  /** `a` opens the first group, `b` the second, and `t` joins `a`'s group. */
  lemma GroupsOfThree(a: Match, b: Match, t: Match)
    requires a.lobbyNumber == t.lobbyNumber && b.lobbyNumber != a.lobbyNumber
    ensures GroupByNumber([a, b, t]) == [Group(a.lobbyNumber, [a, t]), Group(b.lobbyNumber, [b])]
  {
    var one := [Group(a.lobbyNumber, [a])];
    assert AddToGroup([], a) == one;
    assert FindGroup(one, b.lobbyNumber) == None;
    var two := one + [Group(b.lobbyNumber, [b])];
    assert AddToGroup(one, b) == two;
    assert FindGroup(two, t.lobbyNumber) == Some(0);
    assert two[0].matches + [t] == [a, t];
    var three := two[0 := Group(a.lobbyNumber, [a, t])];
    assert AddToGroup(two, t) == three;
    assert [a, b, t][1..] == [b, t] && [b, t][1..] == [t] && [t][1..] == [];
    assert GroupInto(two, [t]) == three;
    assert GroupInto(one, [b, t]) == three;
    assert three == [Group(a.lobbyNumber, [a, t]), Group(b.lobbyNumber, [b])];
  }

  lemma {:induction false} FlattenConcat(a: seq<Group>, b: seq<Group>)
    ensures Flatten(a + b) == Flatten(a) + Flatten(b)
  {
    if b == [] {
      assert a + b == a;
    } else {
      assert (a + b)[..|a + b| - 1] == a + b[..|b| - 1];
      FlattenConcat(a, b[..|b| - 1]);
    }
  }

  /** The groups' matches, group after group, except that the `k`-th group comes last. */
  function FlattenMovingLast(groups: seq<Group>, k: nat): (r: seq<Match>)
    requires k < |groups|
  {
    Flatten(groups[..k]) + Flatten(groups[k + 1..]) + groups[k].matches
  }

  /** A group between others: its matches come between theirs. */
  lemma FlattenAround(before: seq<Group>, g: Group, after: seq<Group>)
    ensures Flatten(before + [g] + after) == Flatten(before) + g.matches + Flatten(after)
  {
    FlattenConcat(before + [g], after);
    assert (before + [g])[..|before|] == before;
  }

  /** Moving a group to the end keeps every match. */
  lemma FlattenMovingLastKeeps(groups: seq<Group>, k: nat)
    requires k < |groups|
    ensures multiset(FlattenMovingLast(groups, k)) == multiset(Flatten(groups))
  {
    SplitAround(groups, k);
    FlattenAround(groups[..k], groups[k], groups[k + 1..]);
  }

  lemma SplitAround(groups: seq<Group>, k: nat)
    requires k < |groups|
    ensures groups[..k] + [groups[k]] + groups[k + 1..] == groups
  {
  }

  /**
   * The thinning as the prediction means it: the same passes, but the
   * group of the last match, the table, flattened last.
   */
  function ThinnedLastGroupLast(ms: seq<Match>): seq<Match>
  {
    var groups := Deduped(Deduped(GroupByNumber(ms), Equal()), Duplicated());
    if ms == [] then Flatten(groups)
    else
      match FindGroup(groups, ms[|ms| - 1].lobbyNumber)
      case None => Flatten(groups)
      case Some(k) => FlattenMovingLast(groups, k)
  }

  /** It keeps what the thinning keeps. */
  lemma ThinnedTableLastKeeps(ms: seq<Match>)
    ensures multiset(ThinnedLastGroupLast(ms)) == multiset(Thinned(ms))
  {
    var twice := Deduped(Deduped(GroupByNumber(ms), Equal()), Duplicated());
    if ms != [] {
      match FindGroup(twice, ms[|ms| - 1].lobbyNumber)
      case None =>
      case Some(k) =>
        MovedLastGroup(ms, k);
        FlattenMovingLastKeeps(twice, k);
    }
  }

  /** It ends with the last match, the table. */
  lemma ThinnedTableLastEnds(ms: seq<Match>, m: Match)
    requires EndsWith(ms, m)
    ensures EndsWith(ThinnedLastGroupLast(ms), m)
  {
    var k := GroupOfLast(ms);
    PassesFindEnd(GroupByNumber(ms), Equal(), Duplicated(), ms[|ms| - 1].lobbyNumber, k);
    MovedLastGroup(ms, k);
  }

  lemma MovedLastGroup(ms: seq<Match>, k: nat)
    requires ms != []
    requires var twice := Deduped(Deduped(GroupByNumber(ms), Equal()), Duplicated());
      FindGroup(twice, ms[|ms| - 1].lobbyNumber) == Some(k)
    ensures var twice := Deduped(Deduped(GroupByNumber(ms), Equal()), Duplicated());
      k < |twice| && ThinnedLastGroupLast(ms) == FlattenMovingLast(twice, k) && Thinned(ms) == Flatten(twice)
  {
  }

  /** The group found for `n` is still found after both passes, and moving it last puts its last match last. */
  lemma PassesFindEnd(groups: seq<Group>, first: (Match, Match) -> bool, second: (Match, Match) -> bool, n: LobbyNumber, k: nat)
    requires k < |groups| && groups[k].matches != [] && FindGroup(groups, n) == Some(k)
    ensures var twice := Deduped(Deduped(groups, first), second);
      var r, g := FlattenMovingLast(twice, k), groups[k].matches;
      FindGroup(twice, n) == Some(k) && r != [] && r[|r| - 1] == g[|g| - 1]
  {
    FindGroupDeduped(groups, first, n);
    FindGroupDeduped(Deduped(groups, first), second, n);
    KeepsLastAt(groups, first, k);
    KeepsLastAt(Deduped(groups, first), second, k);
  }

  /** The group of the last match: the one it closes. */
  lemma GroupOfLast(ms: seq<Match>) returns (k: nat)
    requires ms != []
    ensures var groups := GroupByNumber(ms);
      k < |groups| && groups[k].matches != [] && groups[k].matches[|groups[k].matches| - 1] == ms[|ms| - 1]
      && FindGroup(groups, ms[|ms| - 1].lobbyNumber) == Some(k)
  {
    GroupByNumberWell(ms);
    k := LastGrouped(ms);
    var groups := GroupByNumber(ms);
    assert ms[|ms| - 1] in groups[k].matches;
  }

  /** A pass keeps the groups' numbers, so it finds the same group. */
  lemma {:induction false} FindGroupDeduped(groups: seq<Group>, rel: (Match, Match) -> bool, n: LobbyNumber)
    ensures FindGroup(Deduped(groups, rel), n) == FindGroup(groups, n)
  {
    if groups != [] && groups[0].number != n {
      DedupedTail(groups, rel);
      FindGroupDeduped(groups[1..], rel, n);
    }
  }

  lemma DedupedTail(groups: seq<Group>, rel: (Match, Match) -> bool)
    requires groups != []
    ensures Deduped(groups, rel)[1..] == Deduped(groups[1..], rel)
  {
  }
}
