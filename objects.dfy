// JavaScript objects used as dictionaries keyed by a name: the bot
// builds them with `obj[name] = value` and reads them back with
// `Object.values`. The model takes the order of such an object to be the
// order in which its properties were first set, each holding the value set
// last; JavaScript puts integer-like keys (such as "12") first, in numeric
// order, which the model does not follow. Such an object is modelled by
// the sequence of its values in that order, each value carrying its key.
module Objects {
  import opened Wrappers
  import Ranking

  predicate DistinctKeys<T>(s: seq<T>, key: T -> string)
  {
    forall i, j :: 0 <= i < j < |s| ==> key(s[i]) != key(s[j])
  }

  /** The place of the property `k`. */
  function Find<T>(s: seq<T>, key: T -> string, k: string): (r: Option<nat>)
    ensures r.Some? ==> r.value < |s| && key(s[r.value]) == k
    ensures r.Some? ==> forall i :: 0 <= i < r.value ==> key(s[i]) != k
    ensures r.None? ==> forall i :: 0 <= i < |s| ==> key(s[i]) != k
  {
    if s == [] then None
    else if key(s[0]) == k then Some(0)
    else
      match Find(s[1..], key, k)
      case None => None
      case Some(i) => Some(i + 1)
  }

  /** Looking a key up in a sequence grown by one value. */
  lemma FindSnoc<T>(s: seq<T>, x: T, key: T -> string, k: string)
    ensures Find(s + [x], key, k) == if Find(s, key, k).Some? then Find(s, key, k) else if key(x) == k then Some(|s|) else None
  {
    var t := s + [x];
    assert forall j :: 0 <= j < |s| ==> t[j] == s[j];
    if Find(s, key, k).Some? {
      var i := Find(s, key, k).value;
      assert key(t[i]) == k;
    } else if key(x) == k {
      assert key(t[|s|]) == k;
    } else {
      assert forall j :: 0 <= j < |t| ==> key(t[j]) != k;
    }
  }

  /** With distinct keys, a key is found where it is. */
  lemma FindDistinct<T>(s: seq<T>, key: T -> string, q: nat)
    requires DistinctKeys(s, key) && q < |s|
    ensures Find(s, key, key(s[q])) == Some(q)
  {
    var p := Find(s, key, key(s[q]));
    assert p.Some?;
    assert key(s[p.value]) == key(s[q]);
  }

  /** `obj[k]`, None where the object has no such property. */
  function Get<T>(s: seq<T>, key: T -> string, k: string): Option<T>
  {
    match Find(s, key, k)
    case None => None
    case Some(i) => Some(s[i])
  }

  /** `obj[key(x)] = x`. */
  function Put<T>(s: seq<T>, x: T, key: T -> string): (r: seq<T>)
    ensures |r| == |s| || r == s + [x]
    ensures forall i :: 0 <= i < |s| ==> key(r[i]) == key(s[i])
    ensures x in r
    ensures DistinctKeys(s, key) ==> DistinctKeys(r, key)
    ensures DistinctKeys(s, key) ==> forall y :: y in r ==> y == x || (y in s && key(y) != key(x))
  {
    match Find(s, key, key(x))
    case None => s + [x]
    case Some(i) => s[i := x]
  }

  /** A property reads back what was set last, and setting one leaves the others alone. */
  lemma GetPut<T>(s: seq<T>, x: T, key: T -> string, k: string)
    requires DistinctKeys(s, key)
    ensures Get(Put(s, x, key), key, k) == if k == key(x) then Some(x) else Get(s, key, k)
  {
    var r := Put(s, x, key);
    var found := Find(r, key, k);
    if k == key(x) {
      var i :| 0 <= i < |r| && r[i] == x;
      assert found == Some(i);
    } else if Find(s, key, k).Some? {
      var i := Find(s, key, k).value;
      assert key(r[i]) == k;
      assert found == Some(i);
      assert r[i] in r;
    }
  }

  /** A stable sort of an object's values keeps their keys distinct. */
  lemma {:induction false} SortDistinct<T>(s: seq<T>, after: (T, T) -> bool, key: T -> string)
    requires DistinctKeys(s, key)
    ensures DistinctKeys(Ranking.Sort(s, after), key)
  {
    if s != [] {
      var init, last := s[..|s| - 1], s[|s| - 1];
      SortDistinct(init, after, key);
      var sorted := Ranking.Sort(init, after);
      forall y | y in sorted ensures key(y) != key(last) {
        assert y in multiset(init) by { assert y in multiset(sorted); }
        var k :| 0 <= k < |init| && init[k] == y;
        assert s[k] == y;
      }
      InsertDistinct(last, sorted, after, key);
    }
  }

  lemma {:induction false} InsertDistinct<T>(x: T, s: seq<T>, after: (T, T) -> bool, key: T -> string)
    requires DistinctKeys(s, key)
    requires forall y :: y in s ==> key(y) != key(x)
    ensures DistinctKeys(Ranking.Insert(x, s, after), key)
  {
    if s != [] {
      var init, last := s[..|s| - 1], s[|s| - 1];
      if after(last, x) {
        InsertDistinct(x, init, after, key);
        var r := Ranking.Insert(x, init, after);
        forall i | 0 <= i < |r| ensures key(r[i]) != key(last) {
          assert r[i] in multiset(init) + multiset{x} by { assert r[i] in multiset(r); }
          if r[i] != x {
            var k :| 0 <= k < |init| && init[k] == r[i];
            assert s[k] == r[i];
          }
        }
      } else {
        assert forall i :: 0 <= i < |s| ==> s[i] in s;
      }
    }
  }
}
