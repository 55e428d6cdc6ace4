// Sorting and competition ranking as the bot does them: `Array.prototype.sort`
// with a comparator (stable, modelled as insertion from the right, which is
// what the JavaScript engine does on short arrays) and the "1224" standing
// count used for team positions, player positions and board rankings.
module Ranking {

  /**
   * Insert `x` behind the sorted `s`, moving it to the left past every
   * element the comparator says must come after it.
   */
  function Insert<T>(x: T, s: seq<T>, after: (T, T) -> bool): (r: seq<T>)
    ensures |r| == |s| + 1
    ensures multiset(r) == multiset(s) + multiset{x}
  {
    if s == [] then [x]
    else if after(s[|s| - 1], x) then
      assert s == s[..|s| - 1] + [s[|s| - 1]];
      Insert(x, s[..|s| - 1], after) + [s[|s| - 1]]
    else s + [x]
  }

  /** `s.sort(cmp)`, where `after(a, b)` stands for `cmp(a, b) > 0`. */
  function Sort<T>(s: seq<T>, after: (T, T) -> bool): (r: seq<T>)
    ensures |r| == |s|
    ensures multiset(r) == multiset(s)
  {
    if s == [] then []
    else
      var init := Sort(s[..|s| - 1], after);
      assert s == s[..|s| - 1] + [s[|s| - 1]];
      Insert(s[|s| - 1], init, after)
  }

  /** The comparator `(a, b) => key(b) - key(a)`: larger keys first. */
  function Desc<T>(key: T -> real): (T, T) -> bool
  {
    (a: T, b: T) => key(a) < key(b)
  }

  function SortDesc<T>(s: seq<T>, key: T -> real): (r: seq<T>)
    ensures |r| == |s| && multiset(r) == multiset(s)
  {
    Sort(s, Desc(key))
  }

  predicate SortedDesc<T>(s: seq<T>, key: T -> real)
  {
    forall i, j :: 0 <= i < j < |s| ==> key(s[i]) >= key(s[j])
  }

  /** The elements of `s` whose key is `v`, in their order in `s`. */
  function WithKey<T>(s: seq<T>, key: T -> real, v: real): seq<T>
  {
    if s == [] then []
    else WithKey(s[..|s| - 1], key, v) + (if key(s[|s| - 1]) == v then [s[|s| - 1]] else [])
  }

  lemma {:induction false} WithKeyConcat<T>(a: seq<T>, b: seq<T>, key: T -> real, v: real)
    ensures WithKey(a + b, key, v) == WithKey(a, key, v) + WithKey(b, key, v)
    decreases |b|
  {
    if b == [] {
      assert a + b == a;
    } else {
      WithKeyConcat(a, b[..|b| - 1], key, v);
      assert (a + b)[..|a + b| - 1] == a + b[..|b| - 1];
    }
  }

  lemma {:induction false} InsertSorted<T>(x: T, s: seq<T>, key: T -> real)
    requires SortedDesc(s, key)
    ensures SortedDesc(Insert(x, s, Desc(key)), key)
  {
    if s != [] && key(s[|s| - 1]) < key(x) {
      var init := s[..|s| - 1];
      var last := s[|s| - 1];
      InsertSorted(x, init, key);
      var r := Insert(x, init, Desc(key));
      forall i | 0 <= i < |r| ensures key(r[i]) >= key(last) {
        assert r[i] in multiset(init) + multiset{x} by { assert r[i] in multiset(r); }
        if r[i] != x {
          var k :| 0 <= k < |init| && init[k] == r[i];
          assert s[k] == r[i];
        }
      }
    }
  }

  /** The comparator sort leaves the keys in descending order. */
  lemma {:induction false} SortDescSorted<T>(s: seq<T>, key: T -> real)
    ensures SortedDesc(SortDesc(s, key), key)
  {
    if s != [] {
      SortDescSorted(s[..|s| - 1], key);
      InsertSorted(s[|s| - 1], SortDesc(s[..|s| - 1], key), key);
    }
  }

  lemma {:induction false} InsertWithKey<T>(x: T, s: seq<T>, key: T -> real, v: real)
    ensures WithKey(Insert(x, s, Desc(key)), key, v) == WithKey(s, key, v) + (if key(x) == v then [x] else [])
  {
    WithKeySingle(x, key, v);
    if s != [] {
      var init, last := s[..|s| - 1], s[|s| - 1];
      assert s == init + [last];
      if key(last) < key(x) {
        InsertWithKey(x, init, key, v);
        PassedWithKey(x, init, last, key, v);
      } else {
        assert Insert(x, s, Desc(key)) == s + [x];
        WithKeyConcat(s, [x], key, v);
      }
    }
  }

  /** One step of `InsertWithKey`: `x` moves past `last`, whose key differs from its own. */
  lemma PassedWithKey<T>(x: T, init: seq<T>, last: T, key: T -> real, v: real)
    requires key(last) < key(x)
    requires WithKey(Insert(x, init, Desc(key)), key, v) == WithKey(init, key, v) + (if key(x) == v then [x] else [])
    ensures WithKey(Insert(x, init + [last], Desc(key)), key, v) == WithKey(init + [last], key, v) + (if key(x) == v then [x] else [])
  {
    var moved := Insert(x, init, Desc(key));
    InsertPast(x, init, last, key);
    WithKeyConcat(moved, [last], key, v);
    WithKeyConcat(init, [last], key, v);
    WithKeySingle(last, key, v);
  }

  /** `x` moves to the left of a last element whose key is below its own. */
  lemma InsertPast<T>(x: T, init: seq<T>, last: T, key: T -> real)
    requires key(last) < key(x)
    ensures Insert(x, init + [last], Desc(key)) == Insert(x, init, Desc(key)) + [last]
  {
    assert (init + [last])[..|init + [last]| - 1] == init;
  }

  /** Every element is somewhere in the sorted sequence. */
  lemma SortDescHolds<T>(s: seq<T>, key: T -> real, p: nat) returns (q: nat)
    requires p < |s|
    ensures q < |SortDesc(s, key)| && SortDesc(s, key)[q] == s[p]
  {
    var r := SortDesc(s, key);
    assert s[p] in multiset(s);
    assert s[p] in multiset(r);
    q :| 0 <= q < |r| && r[q] == s[p];
  }

  /** Two elements with the smaller key first are swapped by the sort. */
  lemma SortDescPair<T>(a: T, b: T, key: T -> real)
    requires key(a) < key(b)
    ensures SortDesc([a, b], key) == [b, a]
  {
    assert [a, b][..1] == [] + [a];
    assert Sort([a], Desc(key)) == [a];
    InsertPast(b, [], a, key);
  }

  lemma WithKeySingle<T>(x: T, key: T -> real, v: real)
    ensures WithKey([x], key, v) == if key(x) == v then [x] else []
  {
    assert [x][..0] == [];
  }

  /** The sort is stable: elements with equal keys keep their relative order. */
  lemma {:induction false} SortDescStable<T>(s: seq<T>, key: T -> real, v: real)
    ensures WithKey(SortDesc(s, key), key, v) == WithKey(s, key, v)
  {
    if s != [] {
      SortDescStable(s[..|s| - 1], key, v);
      InsertWithKey(s[|s| - 1], SortDesc(s[..|s| - 1], key), key, v);
    }
  }

  /** An element whose key is not above the last one's stays at the end. */
  lemma InsertAtEnd<T>(x: T, s: seq<T>, key: T -> real)
    requires s == [] || key(s[|s| - 1]) >= key(x)
    ensures Insert(x, s, Desc(key)) == s + [x]
  {
  }

  /** Sorting a sequence that is already in descending order changes nothing. */
  lemma {:induction false} SortDescOfSorted<T>(s: seq<T>, key: T -> real)
    requires SortedDesc(s, key)
    ensures SortDesc(s, key) == s
  {
    if s != [] {
      var init, last := s[..|s| - 1], s[|s| - 1];
      assert SortedDesc(init, key);
      SortDescOfSorted(init, key);
      assert SortDesc(s, key) == Insert(last, SortDesc(init, key), Desc(key));
      if |init| > 0 {
        assert key(init[|init| - 1]) >= key(last);
      }
      InsertAtEnd(last, init, key);
      assert init + [last] == s;
    }
  }

  /** Where the last element of `a` sits in its permutation `b`, and what is left of both without it. */
  lemma PermutationLast<T>(a: seq<T>, b: seq<T>) returns (k: nat)
    requires multiset(a) == multiset(b) && a != []
    ensures k < |b| && b[k] == a[|a| - 1]
    ensures b == b[..k] + [b[k]] + b[k + 1..]
    ensures multiset(a[..|a| - 1]) == multiset(b[..k] + b[k + 1..])
  {
    var x := a[|a| - 1];
    assert x in multiset(b) by { assert x in multiset(a); }
    k :| 0 <= k < |b| && b[k] == x;
    var rest := b[..k] + b[k + 1..];
    assert b == b[..k] + [x] + b[k + 1..];
    assert a == a[..|a| - 1] + [x];
    assert multiset(b) == multiset(b[..k]) + multiset{x} + multiset(b[k + 1..]);
    assert multiset(rest) == multiset(b[..k]) + multiset(b[k + 1..]);
    assert multiset(a) == multiset(a[..|a| - 1]) + multiset{x};
    assert multiset(a[..|a| - 1]) == multiset(a) - multiset{x};
    assert multiset(rest) == multiset(b) - multiset{x};
  }

  /** How many elements of `s` have a key strictly above `v`. */
  function CountAbove<T>(s: seq<T>, key: T -> real, v: real): (n: nat)
    ensures n <= |s|
  {
    if s == [] then 0 else CountAbove(s[..|s| - 1], key, v) + (if key(s[|s| - 1]) > v then 1 else 0)
  }

  lemma {:induction false} CountAboveConcat<T>(a: seq<T>, b: seq<T>, key: T -> real, v: real)
    ensures CountAbove(a + b, key, v) == CountAbove(a, key, v) + CountAbove(b, key, v)
    decreases |b|
  {
    if b == [] {
      assert a + b == a;
    } else {
      CountAboveConcat(a, b[..|b| - 1], key, v);
      assert (a + b)[..|a + b| - 1] == a + b[..|b| - 1];
    }
  }

  /** A competition rank depends on the multiset of keys only, not on the order they are listed in. */
  lemma {:induction false} CountAbovePermutation<T>(a: seq<T>, b: seq<T>, key: T -> real, v: real)
    requires multiset(a) == multiset(b)
    ensures CountAbove(a, key, v) == CountAbove(b, key, v)
    decreases |a|
  {
    if a != [] {
      var k := PermutationLast(a, b);
      var x, rest := b[k], b[..k] + b[k + 1..];
      CountAbovePermutation(a[..|a| - 1], rest, key, v);
      CountAboveConcat(b[..k] + [x], b[k + 1..], key, v);
      CountAboveConcat(b[..k], [x], key, v);
      CountAboveConcat(b[..k], b[k + 1..], key, v);
    }
  }

  function Id(x: real): real { x }

  lemma {:induction false} CountAboveSortedPrefix(s: seq<real>, i: nat)
    requires SortedDesc(s, Id) && i < |s|
    requires i == 0 || s[i] < s[i - 1]
    ensures CountAbove(s, Id, s[i]) == i
  {
    var v, above, rest := s[i], s[..i], s[i..];
    forall k | 0 <= k < |above|
      ensures above[k] > v
    {
      assert Id(s[k]) >= Id(s[i - 1]);
    }
    forall k | 0 <= k < |rest|
      ensures rest[k] <= v
    {
      assert Id(s[i]) >= Id(s[i + k]);
    }
    AllAbove(above, v);
    NoneAbove(rest, v);
    assert s == above + rest;
    CountAboveConcat(above, rest, Id, v);
  }

  lemma {:induction false} AllAbove(s: seq<real>, v: real)
    requires forall k :: 0 <= k < |s| ==> s[k] > v
    ensures CountAbove(s, Id, v) == |s|
  {
    if s != [] {
      AllAbove(s[..|s| - 1], v);
    }
  }

  lemma {:induction false} NoneAbove(s: seq<real>, v: real)
    requires forall k :: 0 <= k < |s| ==> s[k] <= v
    ensures CountAbove(s, Id, v) == 0
  {
    if s != [] {
      NoneAbove(s[..|s| - 1], v);
    }
  }

  /** The keys of `s`, in order. */
  function Keys<T, K>(s: seq<T>, key: T -> K): (r: seq<K>)
    ensures |r| == |s| && forall i :: 0 <= i < |s| ==> r[i] == key(s[i])
  {
    if s == [] then [] else Keys(s[..|s| - 1], key) + [key(s[|s| - 1])]
  }

  lemma {:induction false} CountAboveKeys<T>(s: seq<T>, key: T -> real, v: real)
    ensures CountAbove(Keys(s, key), Id, v) == CountAbove(s, key, v)
  {
    if s != [] {
      CountAboveKeys(s[..|s| - 1], key, v);
      assert Keys(s, key)[..|s| - 1] == Keys(s[..|s| - 1], key);
    }
  }

  /** Two sequences whose keys agree position by position have the same counts. */
  lemma {:induction false} CountAboveSameKeys<T>(a: seq<T>, b: seq<T>, key: T -> real, v: real)
    requires |a| == |b| && forall i :: 0 <= i < |a| ==> key(a[i]) == key(b[i])
    ensures CountAbove(a, key, v) == CountAbove(b, key, v)
  {
    if a != [] {
      CountAboveSameKeys(a[..|a| - 1], b[..|b| - 1], key, v);
    }
  }

  predicate TagsIncreasing<T>(s: seq<T>, tag: T -> int)
  {
    forall i, j :: 0 <= i < j < |s| ==> tag(s[i]) < tag(s[j])
  }

  /** Descending by key, and among equal keys ascending by tag. */
  predicate LexSortedDesc<T>(s: seq<T>, key: T -> real, tag: T -> int)
  {
    forall i, j :: 0 <= i < j < |s| ==> key(s[i]) > key(s[j]) || (key(s[i]) == key(s[j]) && tag(s[i]) < tag(s[j]))
  }

  /** An element that comes after everything of a sorted sequence extends it. */
  lemma LexAppend<T>(s: seq<T>, x: T, key: T -> real, tag: T -> int)
    requires LexSortedDesc(s, key, tag)
    requires forall i :: 0 <= i < |s| ==> key(s[i]) > key(x) || (key(s[i]) == key(x) && tag(s[i]) < tag(x))
    ensures LexSortedDesc(s + [x], key, tag)
  {
  }

  lemma {:induction false} InsertLex<T>(x: T, s: seq<T>, key: T -> real, tag: T -> int)
    requires LexSortedDesc(s, key, tag)
    requires forall y :: y in s ==> tag(y) < tag(x)
    ensures LexSortedDesc(Insert(x, s, Desc(key)), key, tag)
  {
    if s != [] {
      var init, last := s[..|s| - 1], s[|s| - 1];
      if key(last) < key(x) {
        assert forall y :: y in init ==> y in s;
        InsertLex(x, init, key, tag);
        var r := Insert(x, init, Desc(key));
        forall i | 0 <= i < |r| ensures key(r[i]) > key(last) || (key(r[i]) == key(last) && tag(r[i]) < tag(last)) {
          assert r[i] in multiset(init) + multiset{x} by { assert r[i] in multiset(r); }
          if r[i] != x {
            var k :| 0 <= k < |init| && init[k] == r[i];
            assert s[k] == r[i];
          }
        }
        LexAppend(r, last, key, tag);
      } else {
        forall i | 0 <= i < |s| ensures key(s[i]) > key(x) || (key(s[i]) == key(x) && tag(s[i]) < tag(x)) {
          assert s[i] in s;
        }
        LexAppend(s, x, key, tag);
      }
    }
  }

  /** With distinct increasing tags in the input, the sort orders by key and then by original position. */
  lemma {:induction false} SortDescLex<T>(s: seq<T>, key: T -> real, tag: T -> int)
    requires TagsIncreasing(s, tag)
    ensures LexSortedDesc(SortDesc(s, key), key, tag)
  {
    if s != [] {
      var init := s[..|s| - 1];
      SortDescLex(init, key, tag);
      var sorted := SortDesc(init, key);
      forall y | y in sorted ensures tag(y) < tag(s[|s| - 1]) {
        assert y in multiset(init) by { assert y in multiset(sorted); }
      }
      InsertLex(s[|s| - 1], sorted, key, tag);
    }
  }

  /** Lexicographic order depends only on the keys and tags. */
  lemma LexSortedSameKeys<T>(a: seq<T>, b: seq<T>, key: T -> real, tag: T -> int)
    requires |a| == |b| && LexSortedDesc(b, key, tag)
    requires forall i :: 0 <= i < |a| ==> key(a[i]) == key(b[i]) && tag(a[i]) == tag(b[i])
    ensures LexSortedDesc(a, key, tag)
  {
  }

  /** The image of a permutation is a permutation of the image. */
  lemma {:induction false} KeysPermutation<T, K>(a: seq<T>, b: seq<T>, f: T -> K)
    requires multiset(a) == multiset(b)
    ensures multiset(Keys(a, f)) == multiset(Keys(b, f))
    decreases |a|
  {
    if a != [] {
      var x := a[|a| - 1];
      assert x in multiset(b) by { assert x in multiset(a); }
      var k :| 0 <= k < |b| && b[k] == x;
      var rest := b[..k] + b[k + 1..];
      assert b == b[..k] + [x] + b[k + 1..];
      assert a == a[..|a| - 1] + [x];
      assert multiset(b) == multiset(b[..k]) + multiset{x} + multiset(b[k + 1..]);
      assert multiset(rest) == multiset(b[..k]) + multiset(b[k + 1..]);
      assert multiset(a) == multiset(a[..|a| - 1]) + multiset{x};
      assert multiset(a[..|a| - 1]) == multiset(a) - multiset{x};
      assert multiset(rest) == multiset(b) - multiset{x};
      KeysPermutation(a[..|a| - 1], rest, f);
      KeysConcat(b[..k] + [x], b[k + 1..], f);
      KeysConcat(b[..k], [x], f);
      KeysConcat(b[..k], b[k + 1..], f);
      KeysConcat(a[..|a| - 1], [x], f);
    }
  }

  lemma KeysConcat<T, K>(a: seq<T>, b: seq<T>, f: T -> K)
    ensures Keys(a + b, f) == Keys(a, f) + Keys(b, f)
  {
  }

  /** `le` is transitive. */
  ghost predicate Transitive<T(!new)>(le: (T, T) -> bool)
  {
    forall a, b, c :: le(a, b) && le(b, c) ==> le(a, c)
  }

  /**
   * The comparator agrees with the order `le`: what it moves behind
   * another element may follow it, and what it leaves in place may
   * precede it.
   */
  ghost predicate Respects<T(!new)>(after: (T, T) -> bool, le: (T, T) -> bool)
  {
    forall a, b :: (after(a, b) ==> le(b, a)) && (!after(a, b) ==> le(a, b))
  }

  predicate SortedBy<T>(s: seq<T>, le: (T, T) -> bool)
  {
    forall i, j :: 0 <= i < j < |s| ==> le(s[i], s[j])
  }

  lemma {:induction false} InsertSortedBy<T(!new)>(x: T, s: seq<T>, after: (T, T) -> bool, le: (T, T) -> bool)
    requires Transitive(le) && Respects(after, le) && SortedBy(s, le)
    ensures SortedBy(Insert(x, s, after), le)
  {
    if s != [] {
      var init, last := s[..|s| - 1], s[|s| - 1];
      if after(last, x) {
        InsertSortedBy(x, init, after, le);
        var r := Insert(x, init, after);
        forall i | 0 <= i < |r| ensures le(r[i], last) {
          assert r[i] in multiset(init) + multiset{x} by { assert r[i] in multiset(r); }
          if r[i] != x {
            var k :| 0 <= k < |init| && init[k] == r[i];
            assert s[k] == r[i];
          }
        }
      } else {
        forall i | 0 <= i < |s| ensures le(s[i], x) {
          if i < |s| - 1 {
            assert le(s[i], last);
          }
        }
      }
    }
  }

  /** Sorting with a comparator that agrees with an order leaves the sequence ordered by it. */
  lemma {:induction false} SortSortedBy<T(!new)>(s: seq<T>, after: (T, T) -> bool, le: (T, T) -> bool)
    requires Transitive(le) && Respects(after, le)
    ensures SortedBy(Sort(s, after), le)
  {
    if s != [] {
      SortSortedBy(s[..|s| - 1], after, le);
      InsertSortedBy(s[|s| - 1], Sort(s[..|s| - 1], after), after, le);
    }
  }

  /**
   * The position loop of `sortTeams`: walking keys in descending order,
   * a key below its predecessor moves the position on by the number of
   * equal keys seen, so equal keys share a position and the next one
   * skips ("1224"). On descending keys each position is one more than
   * the number of strictly larger keys.
   */
  method CompetitionRanks(keys: seq<real>) returns (pos: seq<nat>)
    ensures |pos| == |keys|
    ensures SortedDesc(keys, Id) ==> forall i :: 0 <= i < |keys| ==> pos[i] == 1 + CountAbove(keys, Id, keys[i])
  {
    var position: nat := 0;
    var stack: nat := 1;
    pos := [];
    var i := 0;
    while i < |keys|
      invariant 0 <= i <= |keys| && |pos| == i
      invariant position + stack == i + 1 && stack >= 1
      invariant i > 0 ==> position == pos[i - 1]
      invariant SortedDesc(keys, Id) ==> forall k :: 0 <= k < i ==> pos[k] == 1 + CountAbove(keys, Id, keys[k])
    {
      if i == 0 || keys[i] < keys[i - 1] {
        position := position + stack;
        stack := 1;
        if SortedDesc(keys, Id) {
          CountAboveSortedPrefix(keys, i);
        }
      } else {
        stack := stack + 1;
      }
      pos := pos + [position];
      i := i + 1;
    }
  }
}
