/** The grouping helpers of `src/utils/slices.go`, and the two slice helpers
    `utils.AppendToSliceIfAbsent` and `utils.FindInSlice` that the discovery
    engine calls. Those two are not defined in that file; their meaning here
    is the one their names and their calls in `src/ui.go` give them. The key
    or test function is a total Dafny function value. */
module Slices {

  datatype SliceGroup<T, K> = SliceGroup(Key: K, Items: seq<T>)

  // ---------------------------------------------------------------------
  // Specification

  /** The items whose key is `k`, in their original order. */
  function WithKey<T, K(==)>(items: seq<T>, f: T -> K, k: K): seq<T>
  {
    if |items| == 0 then []
    else
      var last := items[|items| - 1];
      WithKey(items[..|items| - 1], f, k) + (if f(last) == k then [last] else [])
  }

  /** The keys of the items. */
  function Keys<T, K>(items: seq<T>, f: T -> K): set<K>
  {
    set i | 0 <= i < |items| :: f(items[i])
  }

  /** The keys of the items in order of first occurrence, each once. */
  function FirstKeys<T, K(==)>(items: seq<T>, f: T -> K): seq<K>
  {
    if |items| == 0 then []
    else
      var ks := FirstKeys(items[..|items| - 1], f);
      var k := f(items[|items| - 1]);
      if k in ks then ks else ks + [k]
  }

  /** What GroupIntoMap builds. */
  function GroupMap<T, K(==)>(items: seq<T>, f: T -> K): map<K, seq<T>>
  {
    map k | k in Keys(items, f) :: WithKey(items, f, k)
  }

  /** What GroupIntoSlice builds: one group per key, in order of first
      occurrence. */
  function GroupSlices<T, K(==)>(items: seq<T>, f: T -> K): seq<SliceGroup<T, K>>
  {
    var ks := FirstKeys(items, f);
    seq(|ks|, j requires 0 <= j < |ks| => SliceGroup(ks[j], WithKey(items, f, ks[j])))
  }

  /** The summed size of the groups of keys `ks`. */
  function Total<T, K(==)>(items: seq<T>, f: T -> K, ks: seq<K>): nat
  {
    if |ks| == 0 then 0
    else Total(items, f, ks[..|ks| - 1]) + |WithKey(items, f, ks[|ks| - 1])|
  }

  /** No two elements share a key. */
  predicate UniqueBy<T, K(==)>(s: seq<T>, key: T -> K)
  {
    forall i, j :: 0 <= i < j < |s| ==> key(s[i]) != key(s[j])
  }

  /** `a` is `b` with some elements left out. */
  ghost predicate IsSubsequence<T>(a: seq<T>, b: seq<T>)
  {
    if |a| == 0 then true
    else if |b| == 0 then false
    else
      (a[|a| - 1] == b[|b| - 1] && IsSubsequence(a[..|a| - 1], b[..|b| - 1])) ||
      IsSubsequence(a, b[..|b| - 1])
  }

  predicate Distinct<K(==)>(ks: seq<K>)
  {
    forall i, j :: 0 <= i < j < |ks| ==> ks[i] != ks[j]
  }

  // ---------------------------------------------------------------------
  // The source's loops

  /** GroupIntoMap: `res[key] = append(res[key], item)` for every item; a
      missing key reads as the empty slice. */
  method GroupIntoMap<T, K(==)>(items: seq<T>, f: T -> K) returns (res: map<K, seq<T>>)
    ensures res == GroupMap(items, f)
  {
    res := map[];
    for n := 0 to |items|
      invariant res.Keys == Keys(items[..n], f)
      invariant forall k :: k in res ==> res[k] == WithKey(items[..n], f, k)
    {
      var item := items[n];
      var key := f(item);
      KeysStep(items, f, n);
      WithKeyAbsent(items[..n], f, key);
      ghost var before := res;
      res := res[key := (if key in res then res[key] else []) + [item]];
      forall k | k in res ensures res[k] == WithKey(items[..n + 1], f, k) {
        WithKeyStep(items, f, n, k);
        if k != key {
          assert k in before && res[k] == before[k];
        }
      }
    }
    assert items[..|items|] == items;
  }

  /** GroupIntoSlice: a search for the item's group that appends to it and
      continues with the next item, or else a new group of one. */
  method GroupIntoSlice<T, K(==)>(items: seq<T>, f: T -> K) returns (res: seq<SliceGroup<T, K>>)
    ensures res == GroupSlices(items, f)
  {
    res := [];
    label NextItem:
    for n := 0 to |items|
      invariant IsGrouping(res, items[..n], f)
    {
      var item := items[n];
      var key := f(item);
      for i := 0 to |res|
        invariant forall j :: 0 <= j < i ==> res[j].Key != key
      {
        if res[i].Key == key {
          GroupingExtend(res, items, f, n, i);
          res := res[i := res[i].(Items := res[i].Items + [item])];
          continue NextItem;
        }
      }
      GroupingAdd(res, items, f, n);
      res := res + [SliceGroup(key, [item])];
    }
    assert items[..|items|] == items;
    GroupingIsGroupSlices(res, items, f);
  }

  /** `res` holds one group per key, in first-occurrence order, each with
      the items of its key. */
  ghost predicate IsGrouping<T, K>(res: seq<SliceGroup<T, K>>, items: seq<T>, f: T -> K)
  {
    var ks := FirstKeys(items, f);
    |res| == |ks| &&
    forall j :: 0 <= j < |res| ==> res[j].Key == ks[j] && res[j].Items == WithKey(items, f, ks[j])
  }

  /** An item whose key has a group joins that group. */
  lemma GroupingExtend<T, K>(res: seq<SliceGroup<T, K>>, items: seq<T>, f: T -> K, n: nat, i: nat)
    requires n < |items| && IsGrouping(res, items[..n], f)
    requires i < |res| && res[i].Key == f(items[n])
    ensures IsGrouping(res[i := res[i].(Items := res[i].Items + [items[n]])], items[..n + 1], f)
  {
    var ks := FirstKeys(items[..n], f);
    FirstKeysDistinct(items[..n], f);
    FirstKeysStep(items, f, n);
    forall j | 0 <= j < |ks| ensures WithKey(items[..n + 1], f, ks[j]) ==
      WithKey(items[..n], f, ks[j]) + (if f(items[n]) == ks[j] then [items[n]] else [])
    {
      WithKeyStep(items, f, n, ks[j]);
    }
    assert f(items[n]) in ks;
  }

  /** An item whose key has no group starts a new one at the end. */
  lemma GroupingAdd<T, K>(res: seq<SliceGroup<T, K>>, items: seq<T>, f: T -> K, n: nat)
    requires n < |items| && IsGrouping(res, items[..n], f)
    requires forall j :: 0 <= j < |res| ==> res[j].Key != f(items[n])
    ensures IsGrouping(res + [SliceGroup(f(items[n]), [items[n]])], items[..n + 1], f)
  {
    var ks := FirstKeys(items[..n], f);
    FirstKeysStep(items, f, n);
    forall j | 0 <= j < |ks| ensures WithKey(items[..n + 1], f, ks[j]) == WithKey(items[..n], f, ks[j]) {
      WithKeyStep(items, f, n, ks[j]);
    }
    WithKeyStep(items, f, n, f(items[n]));
    assert f(items[n]) !in ks;
    FirstKeysAreKeys(items[..n], f, f(items[n]));
    WithKeyAbsent(items[..n], f, f(items[n]));
  }

  lemma GroupingIsGroupSlices<T, K>(res: seq<SliceGroup<T, K>>, items: seq<T>, f: T -> K)
    requires IsGrouping(res, items, f)
    ensures res == GroupSlices(items, f)
  {
  }

  // ---------------------------------------------------------------------
  // Properties

  lemma WithKeyStep<T, K>(items: seq<T>, f: T -> K, n: nat, k: K)
    requires n < |items|
    ensures WithKey(items[..n + 1], f, k) ==
      WithKey(items[..n], f, k) + (if f(items[n]) == k then [items[n]] else [])
  {
    assert items[..n + 1][..n] == items[..n];
  }

  lemma FirstKeysStep<T, K>(items: seq<T>, f: T -> K, n: nat)
    requires n < |items|
    ensures FirstKeys(items[..n + 1], f) ==
      var ks := FirstKeys(items[..n], f);
      if f(items[n]) in ks then ks else ks + [f(items[n])]
  {
    assert items[..n + 1][..n] == items[..n];
  }

  lemma KeysStep<T, K>(items: seq<T>, f: T -> K, n: nat)
    requires n < |items|
    ensures Keys(items[..n + 1], f) == Keys(items[..n], f) + {f(items[n])}
  {
    var a, b := items[..n + 1], items[..n];
    forall k | k in Keys(a, f) ensures k in Keys(b, f) + {f(items[n])} {
      var i :| 0 <= i < |a| && f(a[i]) == k;
      if i < n { assert f(b[i]) == k; }
    }
    forall k | k in Keys(b, f) + {f(items[n])} ensures k in Keys(a, f) {
      if k == f(items[n]) {
        assert f(a[n]) == k;
      } else {
        var i :| 0 <= i < |b| && f(b[i]) == k;
        assert f(a[i]) == k;
      }
    }
  }

  /** Every item of a group has the group's key. */
  lemma {:induction false} WithKeyHasKey<T, K>(items: seq<T>, f: T -> K, k: K)
    ensures forall x :: x in WithKey(items, f, k) ==> f(x) == k
  {
    if |items| > 0 {
      WithKeyHasKey(items[..|items| - 1], f, k);
    }
  }

  /** Grouping distributes over concatenation, so a group is the in-order
      subsequence of its key's items. */
  lemma {:induction false} WithKeyAppend<T, K>(a: seq<T>, b: seq<T>, f: T -> K, k: K)
    ensures WithKey(a + b, f, k) == WithKey(a, f, k) + WithKey(b, f, k)
  {
    if |b| == 0 {
      assert a + b == a;
    } else {
      var b' := b[..|b| - 1];
      assert (a + b)[..|a + b| - 1] == a + b';
      WithKeyAppend(a, b', f, k);
    }
  }

  /** A key occurs among the items exactly when its group is non-empty. */
  lemma {:induction false} WithKeyAbsent<T, K>(items: seq<T>, f: T -> K, k: K)
    ensures WithKey(items, f, k) == [] <==> k !in Keys(items, f)
  {
    if |items| > 0 {
      var n := |items| - 1;
      WithKeyAbsent(items[..n], f, k);
      KeysStep(items, f, n);
      assert items[..n + 1] == items;
    }
  }

  /** The keys of GroupIntoSlice are pairwise distinct. */
  lemma {:induction false} FirstKeysDistinct<T, K>(items: seq<T>, f: T -> K)
    ensures Distinct(FirstKeys(items, f))
  {
    if |items| > 0 {
      FirstKeysDistinct(items[..|items| - 1], f);
    }
  }

  /** The keys of GroupIntoSlice are the keys of the items. */
  lemma {:induction false} FirstKeysAreKeys<T, K>(items: seq<T>, f: T -> K, k: K)
    ensures k in FirstKeys(items, f) <==> k in Keys(items, f)
  {
    if |items| > 0 {
      var n := |items| - 1;
      FirstKeysAreKeys(items[..n], f, k);
      KeysStep(items, f, n);
      assert items[..n + 1] == items;
    }
  }

  /** The keys of a prefix of the items come first. */
  lemma {:induction false} FirstKeysPrefix<T, K>(items: seq<T>, f: T -> K, n: nat)
    requires n <= |items|
    ensures FirstKeys(items[..n], f) <= FirstKeys(items, f)
    decreases |items| - n
  {
    if n < |items| {
      var m := |items| - 1;
      assert items[..m][..n] == items[..n];
      FirstKeysPrefix(items[..m], f, n);
    } else {
      assert items[..n] == items;
    }
  }

  /** Groups come in order of first occurrence: every item of a later group
      is preceded by an item of each earlier group. */
  lemma FirstOccurrenceOrder<T, K>(items: seq<T>, f: T -> K, j1: nat, j2: nat, q: nat)
    requires j1 < j2 < |FirstKeys(items, f)|
    requires q < |items| && f(items[q]) == FirstKeys(items, f)[j2]
    ensures exists p :: 0 <= p < q && f(items[p]) == FirstKeys(items, f)[j1]
  {
    var ks := FirstKeys(items, f);
    var pre := items[..q + 1];
    var pks := FirstKeys(pre, f);
    FirstKeysPrefix(items, f, q + 1);
    FirstKeysDistinct(items, f);
    assert j2 < |pks| by {
      assert f(pre[q]) == ks[j2];
      assert ks[j2] in Keys(pre, f);
      FirstKeysAreKeys(pre, f, ks[j2]);
      var at :| 0 <= at < |pks| && pks[at] == ks[j2];
      assert ks[at] == ks[j2];
    }
    assert ks[j1] in Keys(pre, f) by {
      assert pks[j1] == ks[j1];
      FirstKeysAreKeys(pre, f, ks[j1]);
    }
    var p :| 0 <= p < |pre| && f(pre[p]) == ks[j1];
    assert p != q by {
      assert ks[j1] != ks[j2];
    }
    assert f(items[p]) == ks[j1];
  }

  /** Each added item lands in exactly one group of a distinct key list. */
  lemma {:induction false} TotalStep<T, K>(items: seq<T>, x: T, f: T -> K, ks: seq<K>)
    requires Distinct(ks)
    ensures Total(items + [x], f, ks) == Total(items, f, ks) + (if f(x) in ks then 1 else 0)
  {
    if |ks| > 0 {
      var ks' := ks[..|ks| - 1];
      TotalStep(items, x, f, ks');
      assert (items + [x])[..|items|] == items;
    }
  }

  /** The group sizes add up to the number of items. */
  lemma {:induction false} GroupSizesSum<T, K>(items: seq<T>, f: T -> K)
    ensures Total(items, f, FirstKeys(items, f)) == |items|
  {
    if |items| > 0 {
      var n := |items| - 1;
      var pre, x := items[..n], items[n];
      var ks := FirstKeys(pre, f);
      assert pre + [x] == items;
      assert items[..n] == pre;
      GroupSizesSum(pre, f);
      FirstKeysDistinct(pre, f);
      TotalStep(pre, x, f, ks);
      if f(x) !in ks {
        FirstKeysAreKeys(pre, f, f(x));
        WithKeyAbsent(pre, f, f(x));
        assert FirstKeys(items, f) == ks + [f(x)];
        assert (ks + [f(x)])[..|ks|] == ks;
        assert WithKey(items, f, f(x)) == [x];
      }
    }
  }

  /** GroupIntoSlice's groups are non-empty, and each holds what
      GroupIntoMap stores under its key; both have the same keys. */
  lemma SliceAgreesWithMap<T, K>(items: seq<T>, f: T -> K)
    ensures forall g :: g in GroupSlices(items, f) ==>
      g.Items != [] && g.Key in GroupMap(items, f) && GroupMap(items, f)[g.Key] == g.Items
    ensures forall k :: k in GroupMap(items, f) <==> exists g :: g in GroupSlices(items, f) && g.Key == k
  {
    var ks := FirstKeys(items, f);
    var gs := GroupSlices(items, f);
    forall g | g in gs
      ensures g.Items != [] && g.Key in GroupMap(items, f) && GroupMap(items, f)[g.Key] == g.Items
    {
      var j :| 0 <= j < |gs| && gs[j] == g;
      assert g == SliceGroup(ks[j], WithKey(items, f, ks[j]));
      assert ks[j] in ks;
      FirstKeysAreKeys(items, f, ks[j]);
      WithKeyAbsent(items, f, ks[j]);
    }
    forall k | k in GroupMap(items, f) ensures exists g :: g in gs && g.Key == k {
      FirstKeysAreKeys(items, f, k);
      assert k in ks;
      var j :| 0 <= j < |ks| && ks[j] == k;
      assert gs[j] in gs;
    }
  }

  // ---------------------------------------------------------------------
  // AppendToSliceIfAbsent and FindInSlice

  /** The index of the first element that passes `p`, or -1. */
  function FirstWhere<T>(s: seq<T>, p: T -> bool): (r: int)
    ensures -1 <= r < |s|
    ensures r >= 0 ==> p(s[r]) && forall j :: 0 <= j < r ==> !p(s[j])
    ensures r < 0 ==> forall j :: 0 <= j < |s| ==> !p(s[j])
  {
    if |s| == 0 then -1
    else if p(s[0]) then 0
    else
      var r := FirstWhere(s[1..], p);
      if r < 0 then -1 else r + 1
  }

  /** The index of the first element whose key is `k`, or -1. */
  function IndexOfKey<T, K(==)>(s: seq<T>, key: T -> K, k: K): (r: int)
    ensures -1 <= r < |s|
    ensures r >= 0 ==> key(s[r]) == k && forall j :: 0 <= j < r ==> key(s[j]) != k
    ensures r < 0 ==> forall j :: 0 <= j < |s| ==> key(s[j]) != k
  {
    if |s| == 0 then -1
    else if key(s[0]) == k then 0
    else
      var r := IndexOfKey(s[1..], key, k);
      if r < 0 then -1 else r + 1
  }

  /** FindInSlice: the first element that passes `p`, as an index in place
      of a pointer, with an ok flag. */
  method FindInSlice<T>(s: seq<T>, p: T -> bool) returns (idx: int, ok: bool)
    ensures idx == FirstWhere(s, p)
    ensures ok <==> 0 <= idx
  {
    idx := -1;
    var i := 0;
    while i < |s|
      invariant 0 <= i <= |s|
      invariant forall j :: 0 <= j < i ==> !p(s[j])
    {
      if p(s[i]) {
        idx := i;
        FirstWhereIs(s, p, i);
        return idx, true;
      }
      i := i + 1;
    }
    FirstWhereNone(s, p);
    return idx, false;
  }

  lemma FirstWhereIs<T>(s: seq<T>, p: T -> bool, i: nat)
    requires i < |s| && p(s[i]) && forall j :: 0 <= j < i ==> !p(s[j])
    ensures FirstWhere(s, p) == i
  {
  }

  lemma FirstWhereNone<T>(s: seq<T>, p: T -> bool)
    requires forall j :: 0 <= j < |s| ==> !p(s[j])
    ensures FirstWhere(s, p) == -1
  {
  }

  /** The slice after AppendToSliceIfAbsent: unchanged when an element has
      the key of `x`, `x` appended otherwise. Either way exactly one
      position now holds the first element with that key. */
  function AppendedIfAbsent<T, K(==)>(s: seq<T>, x: T, key: T -> K): (r: seq<T>)
    ensures IndexOfKey(r, key, key(x)) ==
      (if IndexOfKey(s, key, key(x)) >= 0 then IndexOfKey(s, key, key(x)) else |s|)
    ensures |s| <= |r| <= |s| + 1 && r[..|s|] == s
  {
    if IndexOfKey(s, key, key(x)) >= 0 then s
    else
      IndexOfKeyIs(s + [x], key, key(x), |s|);
      s + [x]
  }

  /** AppendToSliceIfAbsent: appends `x` unless an element with the same key
      is there already, and gives the index of the element that now stands
      for that key (the existing one, or the appended one) in place of the
      pointer the Go helper hands back. */
  method AppendToSliceIfAbsent<T, K(==)>(s: seq<T>, x: T, key: T -> K) returns (r: seq<T>, idx: nat)
    ensures r == AppendedIfAbsent(s, x, key)
    ensures idx == IndexOfKey(r, key, key(x))
  {
    var k := key(x);
    var i := 0;
    while i < |s|
      invariant 0 <= i <= |s|
      invariant forall j :: 0 <= j < i ==> key(s[j]) != k
    {
      if key(s[i]) == k {
        IndexOfKeyIs(s, key, k, i);
        return s, i;
      }
      i := i + 1;
    }
    IndexOfKeyNone(s, key, k);
    return s + [x], |s|;
  }

  /** A test that compares an element's key with `k` finds what the key
      lookup finds. */
  lemma {:induction false} FirstWhereIsIndexOfKey<T, K>(s: seq<T>, p: T -> bool, key: T -> K, k: K)
    requires forall x :: p(x) == (key(x) == k)
    ensures FirstWhere(s, p) == IndexOfKey(s, key, k)
  {
    if |s| > 0 {
      FirstWhereIsIndexOfKey(s[1..], p, key, k);
    }
  }

  /** The key lookup depends on the keys only. */
  lemma {:induction false} IndexOfKeySameKeys<T, K>(s: seq<T>, t: seq<T>, key: T -> K, k: K)
    requires |s| == |t| && forall j :: 0 <= j < |s| ==> key(s[j]) == key(t[j])
    ensures IndexOfKey(s, key, k) == IndexOfKey(t, key, k)
  {
    if |s| > 0 {
      IndexOfKeySameKeys(s[1..], t[1..], key, k);
    }
  }

  lemma IndexOfKeyIs<T, K>(s: seq<T>, key: T -> K, k: K, i: nat)
    requires i < |s| && key(s[i]) == k && forall j :: 0 <= j < i ==> key(s[j]) != k
    ensures IndexOfKey(s, key, k) == i
  {
  }

  lemma IndexOfKeyNone<T, K>(s: seq<T>, key: T -> K, k: K)
    requires forall j :: 0 <= j < |s| ==> key(s[j]) != k
    ensures IndexOfKey(s, key, k) == -1
  {
  }

  /** AppendToSliceIfAbsent keeps the keys unique. */
  lemma AppendedIfAbsentUnique<T, K>(s: seq<T>, x: T, key: T -> K)
    requires UniqueBy(s, key)
    ensures UniqueBy(AppendedIfAbsent(s, x, key), key)
  {
  }

  /** With unique keys, the lookup of an element's key finds that element. */
  lemma IndexOfKeyUnique<T, K>(s: seq<T>, key: T -> K, i: nat)
    requires UniqueBy(s, key) && i < |s|
    ensures IndexOfKey(s, key, key(s[i])) == i
  {
  }

  /** A subsequence holds elements of the whole only, and keeps its keys
      unique when the whole has unique keys. */
  lemma {:induction false} SubsequenceKeeps<T, K>(a: seq<T>, b: seq<T>, key: T -> K)
    requires IsSubsequence(a, b)
    ensures forall i :: 0 <= i < |a| ==> a[i] in b
    ensures UniqueBy(b, key) ==> UniqueBy(a, key)
    decreases |b|
  {
    if |a| > 0 {
      var a', b' := a[..|a| - 1], b[..|b| - 1];
      if a[|a| - 1] == b[|b| - 1] && IsSubsequence(a', b') {
        SubsequenceKeeps(a', b', key);
        forall i | 0 <= i < |a| ensures a[i] in b {
          if i < |a| - 1 { assert a[i] == a'[i]; }
        }
        if UniqueBy(b, key) {
          assert UniqueBy(b', key);
          forall i | 0 <= i < |a| - 1 ensures key(a[i]) != key(a[|a| - 1]) {
            assert a[i] == a'[i];
            var j :| 0 <= j < |b'| && b'[j] == a'[i];
            assert b[j] == a[i];
          }
        }
      } else {
        SubsequenceKeeps(a, b', key);
        forall i | 0 <= i < |a| ensures a[i] in b {
          var j :| 0 <= j < |b'| && b'[j] == a[i];
          assert b[j] == a[i];
        }
        if UniqueBy(b, key) {
          assert UniqueBy(b', key);
        }
      }
    }
  }
}
