/**
 * Generic collection helpers of the editor: `groupBy` and `sortAndUnique`,
 * plus the three helpers the diff engine imports without their source being
 * part of this model (`mapEntryDiff`, `flattenMapToArray`, `arrayEquals`),
 * each pinned down here by the assumption its call sites make of it.
 *
 * JavaScript `Map`s iterate in insertion order; a Dafny map has no order, so
 * every enumeration of map keys below walks them in ascending order.
 */
module Util {
  import opened JsText

  // ---------------------------------------------------------------------
  // Ordered enumeration of integer keys

  predicate StrictlyIncreasing(s: seq<int>) {
    forall i, j :: 0 <= i < j < |s| ==> s[i] < s[j]
  }

  /** A non-empty set of keys has an element to pick. */
  lemma HasElement(s: set<int>)
    requires s != {}
    ensures exists y :: y in s
  {
    if forall y :: y !in s {
      assert false;
    }
  }

  lemma MinExists(s: set<int>)
    requires s != {}
    ensures exists m :: m in s && forall x :: x in s ==> m <= x
  {
    var m := LeastOf(s);
  }

  lemma {:induction false} LeastOf(s: set<int>) returns (m: int)
    requires s != {}
    ensures m in s && forall x :: x in s ==> m <= x
    decreases |s|
  {
    HasElement(s);
    var y :| y in s;
    var rest := s - {y};
    if rest == {} {
      m := y;
      forall x | x in s ensures m <= x { assert x in rest || x == y; }
    } else {
      var least := LeastOf(rest);
      m := if y < least then y else least;
      forall x | x in s ensures m <= x {
        if x != y { assert x in rest; }
      }
    }
  }

  function Min(s: set<int>): (m: int)
    requires s != {}
    ensures m in s && forall x :: x in s ==> m <= x
  {
    MinExists(s);
    var m :| m in s && forall x :: x in s ==> m <= x;
    m
  }

  /** The keys of a set in ascending order, each exactly once. */
  function SortedKeys(s: set<int>): (r: seq<int>)
    ensures StrictlyIncreasing(r)
    ensures forall x :: x in r <==> x in s
    ensures forall i :: 0 <= i < |r| ==> r[i] in s
    ensures |r| == |s|
    decreases |s|
  {
    if s == {} then []
    else
      var m := Min(s);
      var rest := SortedKeys(s - {m});
      LeastFirst(s, m, rest);
      [m] + rest
  }

  /** Putting the least key in front of the ascending list of the others gives the ascending list of all. */
  lemma LeastFirst(s: set<int>, m: int, rest: seq<int>)
    requires m in s && forall x :: x in s ==> m <= x
    requires StrictlyIncreasing(rest)
    requires forall x :: x in rest <==> x in s - {m}
    requires |rest| == |s - {m}|
    ensures StrictlyIncreasing([m] + rest)
    ensures forall x :: x in [m] + rest <==> x in s
    ensures forall i :: 0 <= i < |[m] + rest| ==> ([m] + rest)[i] in s
    ensures |[m] + rest| == |s|
  {
    var r := [m] + rest;
    forall i | 0 < i < |r| ensures r[i] == rest[i - 1] && r[i] in s && m < r[i] {
      assert rest[i - 1] in rest;
    }
    forall i, j | 0 <= i < j < |r| ensures r[i] < r[j] {
      if i > 0 { assert r[i] == rest[i - 1] && r[j] == rest[j - 1]; }
    }
    forall x ensures x in r <==> x in s {
      if x in s && x != m { assert x in rest; }
    }
  }

  /**
   * A loop's walk over the keys of a map: every key once, ascending. Only
   * membership and the absence of repeats are exported to the loops.
   */
  method KeysInOrder(s: set<int>) returns (keys: seq<int>)
    ensures forall x :: x in keys <==> x in s
    ensures forall p :: 0 <= p < |keys| ==> keys[p] in s && keys[p] !in keys[..p]
  {
    keys := SortedKeys(s);
    forall p | 0 <= p < |keys| ensures keys[p] !in keys[..p] {
      assert forall q :: 0 <= q < p ==> keys[..p][q] == keys[q] < keys[p];
    }
  }

  /** The keys of `m` that `other` lacks, ascending. */
  function KeysOnlyIn<V>(m: map<int, V>, other: map<int, V>): (r: seq<int>)
    ensures StrictlyIncreasing(r)
    ensures forall k :: k in r <==> k in m && k !in other
    ensures forall i :: 0 <= i < |r| ==> r[i] in m && r[i] !in other
    ensures |r| == |m.Keys - other.Keys|
  {
    SortedKeys(m.Keys - other.Keys)
  }

  /** The keys both maps have, ascending. */
  function CommonKeys<V>(m: map<int, V>, other: map<int, V>): (r: seq<int>)
    ensures StrictlyIncreasing(r)
    ensures forall k :: k in r <==> k in m && k in other
    ensures forall i :: 0 <= i < |r| ==> r[i] in m && r[i] in other
    ensures |r| == |m.Keys * other.Keys|
  {
    SortedKeys(m.Keys * other.Keys)
  }

  /** The values a map holds at the given keys, in the order of the keys. */
  function ValuesAt<V>(m: map<int, V>, keys: seq<int>): (r: seq<V>)
    requires forall i :: 0 <= i < |keys| ==> keys[i] in m
    ensures |r| == |keys|
    ensures forall i :: 0 <= i < |keys| ==> r[i] == m[keys[i]]
    decreases |keys|
  {
    if keys == [] then [] else [m[keys[0]]] + ValuesAt(m, keys[1..])
  }

  /** The value pairs two maps hold at the given keys, in the order of the keys. */
  function PairsAt<V>(m: map<int, V>, n: map<int, V>, keys: seq<int>): (r: seq<(V, V)>)
    requires forall i :: 0 <= i < |keys| ==> keys[i] in m && keys[i] in n
    ensures |r| == |keys|
    ensures forall i :: 0 <= i < |keys| ==> r[i] == (m[keys[i]], n[keys[i]])
    decreases |keys|
  {
    if keys == [] then [] else [(m[keys[0]], n[keys[0]])] + PairsAt(m, n, keys[1..])
  }

  // ---------------------------------------------------------------------
  // arrayEquals

  /**
   * `arrayEquals(a, b)`: element-wise equality in order. Its source is not
   * part of this model; this is the meaning its use in `modelEquals` assumes.
   */
  predicate ArrayEquals<T(==)>(a: seq<T>, b: seq<T>) {
    |a| == |b| && forall i :: 0 <= i < |a| ==> a[i] == b[i]
  }

  lemma ArrayEqualsIsEquality<T>(a: seq<T>, b: seq<T>)
    ensures ArrayEquals(a, b) <==> a == b
  {
  }

  // ---------------------------------------------------------------------
  // mapEntryDiff

  /**
   * The result of `mapEntryDiff(original, working)`: the working values at
   * keys only `working` has, the (original, working) value pairs at common
   * keys, and the original values at keys only `original` has. The key
   * sequences record which key each entry came from.
   */
  datatype EntryDiff<V> = EntryDiff(
    addedKeys: seq<int>, added: seq<V>,
    commonKeys: seq<int>, common: seq<(V, V)>,
    removedKeys: seq<int>, removed: seq<V>)

  /**
   * `mapEntryDiff`. Its source is not part of this model; this definition is
   * the assumption `ModelChangeset` makes of it: three disjoint groups of
   * entries, one entry per key, covering every key of either map.
   */
  function MapEntryDiff<V>(original: map<int, V>, working: map<int, V>): (d: EntryDiff<V>)
    ensures StrictlyIncreasing(d.addedKeys) && StrictlyIncreasing(d.commonKeys) && StrictlyIncreasing(d.removedKeys)
    ensures forall k :: k in d.addedKeys <==> k in working && k !in original
    ensures forall k :: k in d.commonKeys <==> k in working && k in original
    ensures forall k :: k in d.removedKeys <==> k in original && k !in working
    ensures forall i :: 0 <= i < |d.addedKeys| ==> d.addedKeys[i] in working && d.addedKeys[i] !in original
    ensures forall i :: 0 <= i < |d.commonKeys| ==> d.commonKeys[i] in working && d.commonKeys[i] in original
    ensures forall i :: 0 <= i < |d.removedKeys| ==> d.removedKeys[i] in original && d.removedKeys[i] !in working
    ensures |d.added| == |d.addedKeys| && forall i :: 0 <= i < |d.addedKeys| ==> d.added[i] == working[d.addedKeys[i]]
    ensures |d.common| == |d.commonKeys| && forall i :: 0 <= i < |d.commonKeys| ==>
              d.common[i] == (original[d.commonKeys[i]], working[d.commonKeys[i]])
    ensures |d.removed| == |d.removedKeys| && forall i :: 0 <= i < |d.removedKeys| ==> d.removed[i] == original[d.removedKeys[i]]
    ensures |d.addedKeys| == |working.Keys - original.Keys| && |d.removedKeys| == |original.Keys - working.Keys|
    ensures |d.commonKeys| == |working.Keys * original.Keys|
  {
    var addedKeys := KeysOnlyIn(working, original);
    var commonKeys := CommonKeys(original, working);
    assert original.Keys * working.Keys == working.Keys * original.Keys;
    var removedKeys := KeysOnlyIn(original, working);
    EntryDiff(addedKeys, ValuesAt(working, addedKeys),
              commonKeys, PairsAt(original, working, commonKeys),
              removedKeys, ValuesAt(original, removedKeys))
  }

  /** The added keys of `mapEntryDiff` with their values: increasing keys, each holding its working value. */
  function AddedEntries<V>(original: map<int, V>, working: map<int, V>): (r: (seq<int>, seq<V>))
    ensures StrictlyIncreasing(r.0) && |r.1| == |r.0|
    ensures forall i :: 0 <= i < |r.0| ==> r.0[i] in working && r.1[i] == working[r.0[i]]
  {
    var d := MapEntryDiff(original, working);
    (d.addedKeys, d.added)
  }

  /** The removed keys of `mapEntryDiff` with their values: increasing keys, each holding its original value. */
  function RemovedEntries<V>(original: map<int, V>, working: map<int, V>): (r: (seq<int>, seq<V>))
    ensures StrictlyIncreasing(r.0) && |r.1| == |r.0|
    ensures forall i :: 0 <= i < |r.0| ==> r.0[i] in original && r.1[i] == original[r.0[i]]
  {
    var d := MapEntryDiff(original, working);
    (d.removedKeys, d.removed)
  }

  /** The common keys of `mapEntryDiff` with their (original, working) pairs, keys increasing. */
  function CommonEntries<V>(original: map<int, V>, working: map<int, V>): (r: (seq<int>, seq<(V, V)>))
    ensures StrictlyIncreasing(r.0) && |r.1| == |r.0|
    ensures forall i :: 0 <= i < |r.0| ==> r.0[i] in original && r.0[i] in working
    ensures forall i :: 0 <= i < |r.0| ==> r.1[i] == (original[r.0[i]], working[r.0[i]])
  {
    var d := MapEntryDiff(original, working);
    (d.commonKeys, d.common)
  }

  /** The `added` list of `mapEntryDiff`: exactly the working values under keys original lacks. */
  function AddedValues<V(!new)>(original: map<int, V>, working: map<int, V>): (r: seq<V>)
    ensures forall x :: x in r <==> exists k :: k in working && k !in original && working[k] == x
    ensures |r| == |working.Keys - original.Keys|
  {
    var d := MapEntryDiff(original, working);
    ValuesOnlyIn(working, original, d.addedKeys, d.added);
    d.added
  }

  /** The `removed` list of `mapEntryDiff`: exactly the original values under keys working lacks. */
  function RemovedValues<V(!new)>(original: map<int, V>, working: map<int, V>): (r: seq<V>)
    ensures forall x :: x in r <==> exists k :: k in original && k !in working && original[k] == x
    ensures |r| == |original.Keys - working.Keys|
  {
    var d := MapEntryDiff(original, working);
    ValuesOnlyIn(original, working, d.removedKeys, d.removed);
    d.removed
  }

  /** Values listed under exactly the keys of `m` that `other` lacks are exactly the values `m` holds there. */
  lemma ValuesOnlyIn<V(!new)>(m: map<int, V>, other: map<int, V>, keys: seq<int>, r: seq<V>)
    requires forall k :: k in keys <==> k in m && k !in other
    requires forall i :: 0 <= i < |keys| ==> keys[i] in m && keys[i] !in other
    requires |r| == |keys| && forall i :: 0 <= i < |keys| ==> r[i] == m[keys[i]]
    ensures forall x :: x in r <==> exists k :: k in m && k !in other && m[k] == x
  {
    forall x | x in r ensures exists k :: k in m && k !in other && m[k] == x {
      var i :| 0 <= i < |r| && r[i] == x;
      var k := keys[i];
      assert k in m && k !in other && m[k] == x;
    }
    forall x | exists k :: k in m && k !in other && m[k] == x ensures x in r {
      var k :| k in m && k !in other && m[k] == x;
      var i :| 0 <= i < |keys| && keys[i] == k;
      assert r[i] == x;
    }
  }

  // ---------------------------------------------------------------------
  // flattenMapToArray

  /** One group keyed by record id; a later record overrides an earlier one with the same id. */
  function ById<V>(s: seq<V>, idOf: V -> int): (m: map<int, V>)
    ensures forall i :: 0 <= i < |s| ==> idOf(s[i]) in m
    ensures forall id :: id in m ==> idOf(m[id]) == id && m[id] in s
    decreases |s|
  {
    if s == [] then map[]
    else
      var last := s[|s| - 1];
      ById(s[..|s| - 1], idOf)[idOf(last) := last]
  }

  function FlattenKeys<V>(groups: map<int, seq<V>>, keys: seq<int>, idOf: V -> int): (m: map<int, V>)
    requires forall j :: 0 <= j < |keys| ==> keys[j] in groups
    ensures forall j, i :: 0 <= j < |keys| && 0 <= i < |groups[keys[j]]| ==> idOf(groups[keys[j]][i]) in m
    ensures forall id :: id in m ==> idOf(m[id]) == id && exists j :: 0 <= j < |keys| && m[id] in groups[keys[j]]
    decreases |keys|
  {
    if keys == [] then map[]
    else
      var prefix := FlattenKeys(groups, keys[..|keys| - 1], idOf);
      var last := ById(groups[keys[|keys| - 1]], idOf);
      assert forall j :: 0 <= j < |keys| - 1 ==> keys[..|keys| - 1][j] == keys[j];
      prefix + last
  }

  /**
   * `flattenMapToArray`: a parent-grouped map turned into one collection
   * keyed by record id. Its source is not part of this model; this is the
   * meaning the diff engine assumes: every grouped record is reachable
   * under its own id, and nothing else is there.
   */
  function FlattenMapToArray<V>(groups: map<int, seq<V>>, idOf: V -> int): (m: map<int, V>)
    ensures forall g, i :: g in groups && 0 <= i < |groups[g]| ==> idOf(groups[g][i]) in m
    ensures forall id :: id in m ==> idOf(m[id]) == id && exists g :: g in groups && m[id] in groups[g]
  {
    var keys := SortedKeys(groups.Keys);
    FlattenKeysCovers(groups, keys, idOf);
    FlattenKeys(groups, keys, idOf)
  }

  /** Flattening the groups under a list holding every key reaches every record, and only those. */
  lemma FlattenKeysCovers<V>(groups: map<int, seq<V>>, keys: seq<int>, idOf: V -> int)
    requires forall j :: 0 <= j < |keys| ==> keys[j] in groups
    requires forall g :: g in groups ==> g in keys
    ensures var m := FlattenKeys(groups, keys, idOf);
            forall g, i :: g in groups && 0 <= i < |groups[g]| ==> idOf(groups[g][i]) in m
    ensures var m := FlattenKeys(groups, keys, idOf);
            forall id :: id in m ==> idOf(m[id]) == id && exists g :: g in groups && m[id] in groups[g]
  {
    var m := FlattenKeys(groups, keys, idOf);
    forall g, i | g in groups && 0 <= i < |groups[g]|
      ensures idOf(groups[g][i]) in m
    {
      var j :| 0 <= j < |keys| && keys[j] == g;
    }
    forall id | id in m
      ensures exists g :: g in groups && m[id] in groups[g]
    {
      var j :| 0 <= j < |keys| && m[id] in groups[keys[j]];
      var g := keys[j];
      assert g in groups && m[id] in groups[g];
    }
  }

  // ---------------------------------------------------------------------
  // groupBy

  /** The elements of `objs` whose key is `k`, in input order. */
  function Filter<T, K(==)>(objs: seq<T>, f: T -> K, k: K): seq<T>
    decreases |objs|
  {
    if objs == [] then []
    else
      var last := objs[|objs| - 1];
      Filter(objs[..|objs| - 1], f, k) + (if f(last) == k then [last] else [])
  }

  /**
   * `groupBy(objs, keyExtractor)`: one group per key that some element maps
   * to, holding exactly the elements with that key, in input order.
   */
  function GroupBy<T, K(==,!new)>(objs: seq<T>, f: T -> K): (r: map<K, seq<T>>)
    ensures forall k :: k in r <==> exists i :: 0 <= i < |objs| && f(objs[i]) == k
    ensures forall k :: k in r ==> r[k] == Filter(objs, f, k)
    decreases |objs|
  {
    if objs == [] then map[]
    else
      var init := objs[..|objs| - 1];
      var o := objs[|objs| - 1];
      assert objs == init + [o];
      var prefix := GroupBy(init, f);
      GroupKeys(init, o, f, prefix);
      GroupContents(init, o, f, prefix);
      AddToGroup(prefix, f(o), o)
  }

  /** `groups[key].push(obj)`, creating the group when missing. */
  function AddToGroup<T, K>(groups: map<K, seq<T>>, k: K, o: T): map<K, seq<T>> {
    if k in groups then groups[k := groups[k] + [o]] else groups[k := [o]]
  }

  lemma GroupKeys<T, K(!new)>(init: seq<T>, o: T, f: T -> K, prefix: map<K, seq<T>>)
    requires forall k :: k in prefix <==> exists i :: 0 <= i < |init| && f(init[i]) == k
    ensures forall k :: k in AddToGroup(prefix, f(o), o) <==> exists i :: 0 <= i < |init + [o]| && f((init + [o])[i]) == k
  {
    var objs := init + [o];
    assert forall i :: 0 <= i < |init| ==> objs[i] == init[i];
    assert objs[|init|] == o;
  }

  lemma GroupContents<T, K(!new)>(init: seq<T>, o: T, f: T -> K, prefix: map<K, seq<T>>)
    requires forall k :: k in prefix <==> exists i :: 0 <= i < |init| && f(init[i]) == k
    requires forall k :: k in prefix ==> prefix[k] == Filter(init, f, k)
    ensures forall k :: k in AddToGroup(prefix, f(o), o) ==> AddToGroup(prefix, f(o), o)[k] == Filter(init + [o], f, k)
  {
    var objs := init + [o];
    assert objs[..|init|] == init;
    if f(o) !in prefix {
      FilterEmpty(init, f, f(o));
    }
  }

  /** `a` is `b` with some elements left out and the rest in their order. */
  predicate IsSubsequence<T(==)>(a: seq<T>, b: seq<T>)
    decreases |b|
  {
    if a == [] then true
    else if b == [] then false
    else if a[|a| - 1] == b[|b| - 1] then IsSubsequence(a[..|a| - 1], b[..|b| - 1])
    else IsSubsequence(a, b[..|b| - 1])
  }

  lemma {:induction false} FilterEmpty<T, K>(objs: seq<T>, f: T -> K, k: K)
    requires forall i :: 0 <= i < |objs| ==> f(objs[i]) != k
    ensures Filter(objs, f, k) == []
    decreases |objs|
  {
    if objs != [] {
      FilterEmpty(objs[..|objs| - 1], f, k);
    }
  }

  /** The filter keeps every occurrence of an element with the key and none of the others. */
  lemma {:induction false} FilterCounts<T, K>(objs: seq<T>, f: T -> K, k: K)
    ensures forall x :: multiset(Filter(objs, f, k))[x] == if f(x) == k then multiset(objs)[x] else 0
    decreases |objs|
  {
    if objs != [] {
      var init := objs[..|objs| - 1];
      var last := objs[|objs| - 1];
      FilterCounts(init, f, k);
      assert objs == init + [last];
    }
  }

  /** The filter keeps input order. */
  lemma {:induction false} FilterOrder<T, K>(objs: seq<T>, f: T -> K, k: K)
    ensures IsSubsequence(Filter(objs, f, k), objs)
    decreases |objs|
  {
    if objs != [] {
      var init := objs[..|objs| - 1];
      var last := objs[|objs| - 1];
      FilterOrder(init, f, k);
      assert objs == init + [last];
      var fi := Filter(init, f, k);
      if f(last) == k {
        assert Filter(objs, f, k) == fi + [last];
        assert (fi + [last])[..|fi|] == fi;
      } else {
        assert Filter(objs, f, k) == fi;
        if fi != [] {
          FilterMember(init, f, k, fi[|fi| - 1]);
        }
      }
    }
  }

  /** An element the filter keeps is an input element with the key. */
  lemma {:induction false} FilterMember<T, K>(objs: seq<T>, f: T -> K, k: K, x: T)
    requires x in Filter(objs, f, k)
    ensures x in objs && f(x) == k
    decreases |objs|
  {
    var n := |objs| - 1;
    if x in Filter(objs[..n], f, k) {
      FilterMember(objs[..n], f, k, x);
      assert x in objs[..n];
    } else {
      assert x == objs[n];
    }
  }

  /** Every element of a group has that group's key. */
  lemma GroupMembersHaveKey<T, K(!new)>(objs: seq<T>, f: T -> K, k: K, x: T)
    requires k in GroupBy(objs, f) && x in GroupBy(objs, f)[k]
    ensures f(x) == k
  {
    FilterMember(objs, f, k, x);
  }

  /**
   * Each input element sits in exactly one group, that of its own key, as
   * often as it occurs in the input: the groups together are a permutation
   * of the input.
   */
  lemma GroupsPartitionInput<T, K(!new)>(objs: seq<T>, f: T -> K, x: T)
    requires x in objs
    ensures f(x) in GroupBy(objs, f)
    ensures multiset(GroupBy(objs, f)[f(x)])[x] == multiset(objs)[x]
    ensures forall k :: k in GroupBy(objs, f) && k != f(x) ==> x !in GroupBy(objs, f)[k]
  {
    var i :| 0 <= i < |objs| && objs[i] == x;
    FilterCounts(objs, f, f(x));
    forall k | k in GroupBy(objs, f) && k != f(x)
      ensures x !in GroupBy(objs, f)[k]
    {
      FilterCounts(objs, f, k);
    }
  }

  /** Within a group, elements keep their input order. */
  lemma GroupKeepsOrder<T, K(!new)>(objs: seq<T>, f: T -> K, k: K)
    requires k in GroupBy(objs, f)
    ensures IsSubsequence(GroupBy(objs, f)[k], objs)
  {
    FilterOrder(objs, f, k);
  }

  // ---------------------------------------------------------------------
  // sortAndUnique

  predicate StrictlySorted(s: seq<string>) {
    forall i, j :: 0 <= i < j < |s| ==> StrLess(s[i], s[j])
  }

  function Insert(x: string, s: seq<string>): (r: seq<string>)
    requires StrictlySorted(s)
    ensures StrictlySorted(r)
    ensures forall y :: y in r <==> y == x || y in s
    decreases |s|
  {
    if s == [] then [x]
    else if x == s[0] then s
    else if StrLess(x, s[0]) then
      assert forall j :: 0 <= j < |s| ==> StrLess(x, s[j]) by {
        forall j | 0 < j < |s| ensures StrLess(x, s[j]) {
          StrLessTransitive(x, s[0], s[j]);
        }
      }
      [x] + s
    else
      StrLessTotal(x, s[0]);
      var rest := Insert(x, s[1..]);
      assert forall y :: y in rest ==> StrLess(s[0], y) by {
        forall y | y in rest ensures StrLess(s[0], y) {
          if y != x {
            var j :| 0 <= j < |s[1..]| && s[1..][j] == y;
            assert s[j + 1] == y;
          }
        }
      }
      [s[0]] + rest
  }

  /**
   * `sortAndUnique(arr)` = `[...new Set(arr)].sort()`, over strings: the
   * distinct elements of `arr` in ascending code-unit order.
   */
  function SortAndUnique(arr: seq<string>): (r: seq<string>)
    ensures StrictlySorted(r)
    ensures forall y :: y in r <==> y in arr
    decreases |arr|
  {
    if arr == [] then []
    else
      var init := arr[..|arr| - 1];
      assert arr == init + [arr[|arr| - 1]];
      Insert(arr[|arr| - 1], SortAndUnique(init))
  }

  /** A strictly sorted list has no duplicates. */
  lemma SortedHasNoDuplicates(s: seq<string>)
    requires StrictlySorted(s)
    ensures forall i, j :: 0 <= i < j < |s| ==> s[i] != s[j]
  {
    forall i, j | 0 <= i < j < |s| ensures s[i] != s[j] {
      StrLessIrreflexive(s[i]);
    }
  }

  /** Two strictly sorted lists with the same elements are the same list. */
  lemma {:induction false} SortedListIsUnique(a: seq<string>, b: seq<string>)
    requires StrictlySorted(a) && StrictlySorted(b)
    requires forall y :: y in a <==> y in b
    ensures a == b
    decreases |a|
  {
    if a != [] {
      assert a[0] in b;
    }
    if b != [] {
      assert b[0] in a;
    }
    if a != [] && b != [] {
      assert a[0] == b[0] by {
        assert a[0] in a && b[0] in b;
        var i :| 0 <= i < |b| && b[i] == a[0];
        var j :| 0 <= j < |a| && a[j] == b[0];
        if a[0] != b[0] {
          assert i > 0 && j > 0;
          StrLessAsymmetric(b[0], a[0]);
        }
      }
      forall y ensures y in a[1..] <==> y in b[1..] {
        StrLessIrreflexive(y);
        if y in a[1..] {
          var i :| 1 <= i < |a| && a[i] == y;
          assert y in b;
        }
        if y in b[1..] {
          var i :| 1 <= i < |b| && b[i] == y;
          assert y in a;
        }
      }
      SortedListIsUnique(a[1..], b[1..]);
      assert a == [a[0]] + a[1..] && b == [b[0]] + b[1..];
    }
  }

  /**
   * The output depends only on the set of input strings, and an input that
   * is already sorted and duplicate-free comes back unchanged.
   */
  lemma SortAndUniqueIsCanonical(arr: seq<string>, other: seq<string>)
    requires forall y :: y in arr <==> y in other
    ensures SortAndUnique(arr) == SortAndUnique(other)
    ensures StrictlySorted(arr) ==> SortAndUnique(arr) == arr
  {
    SortedListIsUnique(SortAndUnique(arr), SortAndUnique(other));
    if StrictlySorted(arr) {
      SortedListIsUnique(SortAndUnique(arr), arr);
    }
  }
}
