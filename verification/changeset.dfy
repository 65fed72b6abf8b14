/**
 * The diff engine: `ModelChangeset` sorts the records of two id-keyed
 * collections into added, changed and removed, and `Changeset` does so for
 * all seven kinds of two snapshots, diffing the three grouped kinds over
 * their flattened collections.
 */
module Changesets {
  import opened Entities
  import opened Snapshot
  import Util

  datatype ModelChangeset<V> = ModelChangeset(added: seq<V>, changed: seq<V>, removed: seq<V>)
  {
    predicate IsEmpty() {
      added == [] && changed == [] && removed == []
    }
  }

  /** `possiblyChanged.filter(pair => !same(pair[0], pair[1])).map(pair => pair[1])`. */
  function ChangedOf<V(!new)>(pairs: seq<(V, V)>, same: (V, V) -> bool): (r: seq<V>)
    ensures |r| <= |pairs|
    ensures forall x :: x in r <==> exists i :: 0 <= i < |pairs| && pairs[i].1 == x && !same(pairs[i].0, pairs[i].1)
    decreases |pairs|
  {
    if pairs == [] then []
    else
      var init := pairs[..|pairs| - 1];
      var last := pairs[|pairs| - 1];
      assert forall i :: 0 <= i < |init| ==> init[i] == pairs[i];
      ChangedOf(init, same) + (if !same(last.0, last.1) then [last.1] else [])
  }

  /** What `ChangedOf` keeps when the pairs are the common-key pairs of two maps. */
  lemma ChangedOfCommonPairs<V(!new)>(
    pairs: seq<(V, V)>, keys: seq<int>, original: map<int, V>, working: map<int, V>, same: (V, V) -> bool)
    requires |pairs| == |keys|
    requires forall i :: 0 <= i < |keys| ==> keys[i] in original && keys[i] in working
    requires forall i :: 0 <= i < |keys| ==> pairs[i] == (original[keys[i]], working[keys[i]])
    requires forall k :: k in keys <==> k in working && k in original
    ensures forall x :: x in ChangedOf(pairs, same) <==>
      exists k :: k in working && k in original && working[k] == x && !same(original[k], working[k])
  {
    var r := ChangedOf(pairs, same);
    forall x | x in r
      ensures exists k :: k in working && k in original && working[k] == x && !same(original[k], working[k])
    {
      var i :| 0 <= i < |pairs| && pairs[i].1 == x && !same(pairs[i].0, pairs[i].1);
      var k := keys[i];
      assert pairs[i] == (original[k], working[k]);
      assert k in working && k in original && working[k] == x && !same(original[k], working[k]);
    }
    forall x | exists k :: k in working && k in original && working[k] == x && !same(original[k], working[k])
      ensures x in r
    {
      var k :| k in working && k in original && working[k] == x && !same(original[k], working[k]);
      var i :| 0 <= i < |keys| && keys[i] == k;
      assert pairs[i] == (original[k], working[k]);
    }
  }

  /** The `possiblyChanged` pairs of `mapEntryDiff` with the equal ones dropped, working side kept. */
  function ChangedSide<V(!new)>(original: map<int, V>, working: map<int, V>, same: (V, V) -> bool): (r: seq<V>)
    ensures forall x :: x in r <==>
      exists k :: k in working && k in original && working[k] == x && !same(original[k], working[k])
    ensures |r| <= |working.Keys * original.Keys|
  {
    var d := Util.MapEntryDiff(original, working);
    ChangedOfCommonPairs(d.common, d.commonKeys, original, working, same);
    ChangedOf(d.common, same)
  }

  /**
   * `new ModelChangeset(original, working)` with `same` for modelEquals:
   * the working records under keys original lacks, the working side of
   * every common key whose two records differ, and the original records
   * under keys working lacks.
   */
  function DiffBy<V(!new)>(original: map<int, V>, working: map<int, V>, same: (V, V) -> bool): (c: ModelChangeset<V>)
    ensures forall x :: x in c.added <==> exists k :: k in working && k !in original && working[k] == x
    ensures forall x :: x in c.changed <==>
      exists k :: k in working && k in original && working[k] == x && !same(original[k], working[k])
    ensures forall x :: x in c.removed <==> exists k :: k in original && k !in working && original[k] == x
    ensures |c.added| == |working.Keys - original.Keys| && |c.removed| == |original.Keys - working.Keys|
    ensures |c.changed| <= |working.Keys * original.Keys|
  {
    ModelChangeset(Util.AddedValues(original, working), ChangedSide(original, working, same), Util.RemovedValues(original, working))
  }

  /** The diff engine's instance: records compared with modelEquals. */
  function MakeModelChangeset(original: map<int, Model>, working: map<int, Model>): (c: ModelChangeset<Model>)
    ensures |c.added| == |working.Keys - original.Keys| && |c.removed| == |original.Keys - working.Keys|
    ensures |c.changed| <= |working.Keys * original.Keys|
    ensures forall x :: x in c.changed ==> exists k :: k in working && k in original && working[k] == x
  {
    DiffBy(original, working, ModelEquals)
  }

  /** No two records of `s` share an id. */
  predicate DistinctIds(s: seq<Model>) {
    forall i, j :: 0 <= i < j < |s| ==> s[i].id != s[j].id
  }

  /**
   * With both collections keyed by id, no id is listed twice in any of the
   * three lists, so no record is created, updated or destroyed twice.
   */
  lemma ChangesetIdsAreDistinct(original: map<int, Model>, working: map<int, Model>)
    requires KeyedById(original) && KeyedById(working)
    ensures DistinctIds(MakeModelChangeset(original, working).added)
    ensures DistinctIds(MakeModelChangeset(original, working).changed)
    ensures DistinctIds(MakeModelChangeset(original, working).removed)
  {
    DiffByLists(original, working, ModelEquals);
    AddedEntryIdsAreDistinct(original, working);
    RemovedEntryIdsAreDistinct(original, working);
    ChangedIdsAreDistinct(original, working);
  }

  /** The added entries of two maps keyed by id carry distinct ids. */
  lemma AddedEntryIdsAreDistinct(original: map<int, Model>, working: map<int, Model>)
    requires KeyedById(working)
    ensures DistinctIds(Util.AddedEntries(original, working).1)
  {
    var (ak, av) := Util.AddedEntries(original, working);
    IncreasingKeysGiveDistinctIds(ak, av, working);
  }

  /** The removed entries of two maps keyed by id carry distinct ids. */
  lemma RemovedEntryIdsAreDistinct(original: map<int, Model>, working: map<int, Model>)
    requires KeyedById(original)
    ensures DistinctIds(Util.RemovedEntries(original, working).1)
  {
    var (rk, rv) := Util.RemovedEntries(original, working);
    IncreasingKeysGiveDistinctIds(rk, rv, original);
  }

  /** The changed records of two maps keyed by id carry distinct ids. */
  lemma ChangedIdsAreDistinct(original: map<int, Model>, working: map<int, Model>)
    requires KeyedById(working)
    ensures DistinctIds(ChangedOf(Util.CommonEntries(original, working).1, ModelEquals))
  {
    var (ck, cv) := Util.CommonEntries(original, working);
    PairsUnderIncreasingKeys(ck, cv, original, working);
    ChangedOfIncreasing(cv, ModelEquals);
  }

  /** The three lists of `DiffBy` are the entry diff's added and removed values and the filtered common pairs. */
  lemma DiffByLists<V(!new)>(original: map<int, V>, working: map<int, V>, same: (V, V) -> bool)
    ensures DiffBy(original, working, same).added == Util.AddedEntries(original, working).1
    ensures DiffBy(original, working, same).changed == ChangedOf(Util.CommonEntries(original, working).1, same)
    ensures DiffBy(original, working, same).removed == Util.RemovedEntries(original, working).1
  {
  }

  /** Pairs listed under strictly increasing keys of a working map keyed by id carry increasing working ids. */
  lemma PairsUnderIncreasingKeys(keys: seq<int>, pairs: seq<(Model, Model)>, original: map<int, Model>, working: map<int, Model>)
    requires KeyedById(working) && Util.StrictlyIncreasing(keys)
    requires |pairs| == |keys| && forall i :: 0 <= i < |keys| ==> keys[i] in working && keys[i] in original
    requires forall i :: 0 <= i < |keys| ==> pairs[i] == (original[keys[i]], working[keys[i]])
    ensures forall i, j :: 0 <= i < j < |pairs| ==> pairs[i].1.id < pairs[j].1.id
  {
  }

  /** Records listed under strictly increasing keys of a map keyed by id have distinct ids. */
  lemma IncreasingKeysGiveDistinctIds(keys: seq<int>, vals: seq<Model>, m: map<int, Model>)
    requires KeyedById(m) && Util.StrictlyIncreasing(keys)
    requires |vals| == |keys| && forall i :: 0 <= i < |keys| ==> keys[i] in m && vals[i] == m[keys[i]]
    ensures DistinctIds(vals)
  {
  }

  /** Filtering pairs whose working sides have increasing ids keeps the ids increasing. */
  lemma {:induction false} ChangedOfIncreasing(pairs: seq<(Model, Model)>, same: (Model, Model) -> bool)
    requires forall i, j :: 0 <= i < j < |pairs| ==> pairs[i].1.id < pairs[j].1.id
    ensures forall i, j :: 0 <= i < j < |ChangedOf(pairs, same)| ==> ChangedOf(pairs, same)[i].id < ChangedOf(pairs, same)[j].id
    decreases |pairs|
  {
    if pairs != [] {
      var n := |pairs| - 1;
      var init := pairs[..n];
      ChangedOfIncreasing(init, same);
      var r := ChangedOf(init, same);
      forall x | x in r ensures x.id < pairs[n].1.id {
        var i :| 0 <= i < |init| && init[i].1 == x && !same(init[i].0, init[i].1);
        assert init[i] == pairs[i];
      }
    }
  }

  /** Some record of `s` carries the id `k`. */
  predicate HasId(s: seq<Model>, k: int) {
    exists i :: 0 <= i < |s| && s[i].id == k
  }

  /**
   * With both collections keyed by id, every id is classified at most
   * once: added iff only working has it, changed iff both have it and the
   * records differ, removed iff only original has it. A common id whose
   * records are modelEquals-equal appears in none of the three lists.
   */
  lemma ClassificationByKey(original: map<int, Model>, working: map<int, Model>, k: int)
    requires KeyedById(original) && KeyedById(working)
    ensures HasId(MakeModelChangeset(original, working).added, k) <==> k in working && k !in original
    ensures HasId(MakeModelChangeset(original, working).changed, k) <==>
      k in working && k in original && !ModelEquals(original[k], working[k])
    ensures HasId(MakeModelChangeset(original, working).removed, k) <==> k in original && k !in working
  {
    var c := MakeModelChangeset(original, working);
    AddedById(original, working, c, k);
    ChangedById(original, working, c, k);
    RemovedById(original, working, c, k);
  }

  lemma AddedById(original: map<int, Model>, working: map<int, Model>, c: ModelChangeset<Model>, k: int)
    requires KeyedById(working)
    requires forall x :: x in c.added <==> exists k :: k in working && k !in original && working[k] == x
    ensures HasId(c.added, k) <==> k in working && k !in original
  {
    if k in working && k !in original {
      assert working[k] in c.added;
    }
    if HasId(c.added, k) {
      var i :| 0 <= i < |c.added| && c.added[i].id == k;
      assert c.added[i] in c.added;
    }
  }

  lemma ChangedById(original: map<int, Model>, working: map<int, Model>, c: ModelChangeset<Model>, k: int)
    requires KeyedById(working)
    requires forall x :: x in c.changed <==>
      exists k :: k in working && k in original && working[k] == x && !ModelEquals(original[k], working[k])
    ensures HasId(c.changed, k) <==> k in working && k in original && !ModelEquals(original[k], working[k])
  {
    if k in working && k in original && !ModelEquals(original[k], working[k]) {
      assert working[k] in c.changed;
    }
    if HasId(c.changed, k) {
      var i :| 0 <= i < |c.changed| && c.changed[i].id == k;
      assert c.changed[i] in c.changed;
    }
  }

  lemma RemovedById(original: map<int, Model>, working: map<int, Model>, c: ModelChangeset<Model>, k: int)
    requires KeyedById(original)
    requires forall x :: x in c.removed <==> exists k :: k in original && k !in working && original[k] == x
    ensures HasId(c.removed, k) <==> k in original && k !in working
  {
    if k in original && k !in working {
      assert original[k] in c.removed;
    }
    if HasId(c.removed, k) {
      var i :| 0 <= i < |c.removed| && c.removed[i].id == k;
      assert c.removed[i] in c.removed;
    }
  }

  /** Diffing a collection against itself finds nothing, since modelEquals is reflexive. */
  lemma SelfDiffIsEmpty(m: map<int, Model>)
    ensures MakeModelChangeset(m, m).IsEmpty()
  {
    forall k | k in m ensures ModelEquals(m[k], m[k]) {
      ModelEqualsReflexive(m[k]);
    }
    ReflexiveSelfDiff(m, ModelEquals);
  }

  /** Under any reflexive `same`, a collection has no differences from itself. */
  lemma ReflexiveSelfDiff<V(!new)>(m: map<int, V>, same: (V, V) -> bool)
    requires forall k :: k in m ==> same(m[k], m[k])
    ensures DiffBy(m, m, same).IsEmpty()
  {
    var c := DiffBy(m, m, same);
    assert forall x :: x !in c.added && x !in c.removed;
    assert forall x :: x !in c.changed;
    NoMembersMeansEmpty(c.added);
    NoMembersMeansEmpty(c.changed);
    NoMembersMeansEmpty(c.removed);
  }

  lemma NoMembersMeansEmpty<V>(s: seq<V>)
    requires forall x :: x !in s
    ensures s == []
  {
    FirstIsMember(s);
  }

  lemma FirstIsMember<V>(s: seq<V>)
    ensures |s| > 0 ==> s[0] in s
  {
  }

  datatype Changeset = Changeset(
    jwlers: ModelChangeset<Model>,
    jwlerAvailabilities: ModelChangeset<Model>,
    clients: ModelChangeset<Model>,
    clientAvailabilities: ModelChangeset<Model>,
    locations: ModelChangeset<Model>,
    tours: ModelChangeset<Model>,
    tourElements: ModelChangeset<Model>)
  {
    predicate IsEmpty() {
      && jwlers.IsEmpty() && jwlerAvailabilities.IsEmpty() && clients.IsEmpty()
      && clientAvailabilities.IsEmpty() && locations.IsEmpty() && tours.IsEmpty() && tourElements.IsEmpty()
    }
  }

  /** `flattenMapToArray` over a grouped kind: one collection keyed by record id. */
  function Flatten(groups: map<int, seq<Model>>): (m: map<int, Model>)
    ensures KeyedById(m)
    ensures m.Keys == AllIds(groups)
  {
    var m := Util.FlattenMapToArray(groups, IdOf);
    FlattenedKeys(groups, m);
    m
  }

  /** What `flattenMapToArray` promises, restated over ids: exactly the grouped ids, each keying its record. */
  lemma FlattenedKeys(groups: map<int, seq<Model>>, m: map<int, Model>)
    requires forall g, i :: g in groups && 0 <= i < |groups[g]| ==> IdOf(groups[g][i]) in m
    requires forall id :: id in m ==> IdOf(m[id]) == id && exists g :: g in groups && m[id] in groups[g]
    ensures KeyedById(m)
    ensures m.Keys == AllIds(groups)
  {
    forall id | id in m ensures id in AllIds(groups) {
      var g :| g in groups && m[id] in groups[g];
      var i :| 0 <= i < |groups[g]| && groups[g][i] == m[id];
    }
    forall id | id in AllIds(groups) ensures id in m {
      var g, i :| g in groups && 0 <= i < |groups[g]| && groups[g][i].id == id;
      assert IdOf(groups[g][i]) in m;
    }
  }

  /** With unique ids, each grouped record is what the flattened collection holds under its id. */
  lemma FlattenedRecord(groups: map<int, seq<Model>>, g: int, i: int)
    requires UniqueIds(groups)
    requires g in groups && 0 <= i < |groups[g]|
    ensures groups[g][i].id in Flatten(groups)
    ensures Flatten(groups)[groups[g][i].id] == groups[g][i]
  {
    var m := Flatten(groups);
    var id := groups[g][i].id;
    assert id in m;
    var h, j := FlattenedFrom(groups, id);
    assert groups[h][j].id == groups[g][i].id;
  }

  /** A position in the groups holding the record the flattened collection keeps under `id`. */
  lemma FlattenedFrom(groups: map<int, seq<Model>>, id: int) returns (h: int, j: int)
    requires id in Flatten(groups)
    ensures h in groups && 0 <= j < |groups[h]| && groups[h][j] == Flatten(groups)[id]
  {
    var m := Util.FlattenMapToArray(groups, IdOf);
    h :| h in groups && m[id] in groups[h];
    j :| 0 <= j < |groups[h]| && groups[h][j] == m[id];
  }

  /**
   * `new Changeset(original, working)`: one ModelChangeset per kind, each
   * computed from that kind's two collections alone; the three grouped
   * kinds are compared over their flattened collections.
   */
  function MakeChangeset(original: StateData, working: StateData): (c: Changeset)
    ensures |c.jwlers.added| == |working.jwlers.Keys - original.jwlers.Keys|
    ensures |c.jwlers.removed| == |original.jwlers.Keys - working.jwlers.Keys|
    ensures |c.clients.added| == |working.clients.Keys - original.clients.Keys|
    ensures |c.clients.removed| == |original.clients.Keys - working.clients.Keys|
    ensures |c.locations.added| == |working.locations.Keys - original.locations.Keys|
    ensures |c.locations.removed| == |original.locations.Keys - working.locations.Keys|
    ensures |c.tours.added| == |working.tours.Keys - original.tours.Keys|
    ensures |c.tours.removed| == |original.tours.Keys - working.tours.Keys|
    ensures |c.tourElements.added| == |AllIds(working.tourElements) - AllIds(original.tourElements)|
    ensures |c.tourElements.removed| == |AllIds(original.tourElements) - AllIds(working.tourElements)|
  {
    Changeset(
      MakeModelChangeset(original.jwlers, working.jwlers),
      MakeModelChangeset(Flatten(original.jwlerAvailabilities), Flatten(working.jwlerAvailabilities)),
      MakeModelChangeset(original.clients, working.clients),
      MakeModelChangeset(Flatten(original.clientAvailabilities), Flatten(working.clientAvailabilities)),
      MakeModelChangeset(original.locations, working.locations),
      MakeModelChangeset(original.tours, working.tours),
      MakeModelChangeset(Flatten(original.tourElements), Flatten(working.tourElements)))
  }

  /** Comparing a snapshot with itself yields empty lists for all seven kinds. */
  lemma SelfChangesetIsEmpty(s: StateData)
    ensures MakeChangeset(s, s).IsEmpty()
  {
    SelfDiffIsEmpty(s.jwlers);
    SelfDiffIsEmpty(Flatten(s.jwlerAvailabilities));
    SelfDiffIsEmpty(s.clients);
    SelfDiffIsEmpty(Flatten(s.clientAvailabilities));
    SelfDiffIsEmpty(s.locations);
    SelfDiffIsEmpty(s.tours);
    SelfDiffIsEmpty(Flatten(s.tourElements));
  }

  /** With `working` keyed by `idOf`, its record under `k` is added iff `k` is new and changed iff it differs. */
  lemma KeyClassification<V(!new)>(original: map<int, V>, working: map<int, V>, same: (V, V) -> bool, idOf: V -> int, k: int)
    requires forall j :: j in working ==> idOf(working[j]) == j
    requires k in working
    ensures working[k] in DiffBy(original, working, same).added <==> k !in original
    ensures working[k] in DiffBy(original, working, same).changed <==> k in original && !same(original[k], working[k])
  {
    var c := DiffBy(original, working, same);
    var x := working[k];
    if x in c.added {
      var j :| j in working && j !in original && working[j] == x;
      assert idOf(working[j]) == j;
    }
    if x in c.changed {
      var j :| j in working && j in original && working[j] == x && !same(original[j], working[j]);
      assert idOf(working[j]) == j;
    }
  }

  /** When every working record has an equal original under its key, nothing is added or changed. */
  lemma NothingNewOrChanged<V(!new)>(original: map<int, V>, working: map<int, V>, same: (V, V) -> bool)
    requires forall k :: k in working ==> k in original && same(original[k], working[k])
    ensures DiffBy(original, working, same).added == []
    ensures DiffBy(original, working, same).changed == []
  {
    var c := DiffBy(original, working, same);
    assert working.Keys - original.Keys == {};
    NoMembersMeansEmpty(c.changed);
  }

  /**
   * A grouped record is diffed by id, regardless of which group it sits
   * in: it is added iff no original group holds its id.
   */
  lemma GroupedRecordAdded(original: map<int, seq<Model>>, working: map<int, seq<Model>>, g: int, i: int)
    requires UniqueIds(working)
    requires g in working && 0 <= i < |working[g]|
    ensures working[g][i] in MakeModelChangeset(Flatten(original), Flatten(working)).added
      <==> working[g][i].id !in AllIds(original)
  {
    FlattenedRecord(working, g, i);
    RecordClassification(Flatten(original), Flatten(working), working[g][i], AllIds(original));
  }

  /**
   * A grouped working record is listed as changed only when its id was
   * there and modelEquals says the original record differs from it...
   */
  lemma GroupedRecordChangedOnlyIf(original: map<int, seq<Model>>, working: map<int, seq<Model>>, g: int, i: int)
    requires UniqueIds(working)
    requires g in working && 0 <= i < |working[g]|
    ensures working[g][i] in MakeModelChangeset(Flatten(original), Flatten(working)).changed
      ==> working[g][i].id in AllIds(original) && !ModelEquals(Flatten(original)[working[g][i].id], working[g][i])
  {
    FlattenedRecord(working, g, i);
    RecordClassification(Flatten(original), Flatten(working), working[g][i], AllIds(original));
  }

  /** ...and whenever that holds, it is listed as changed. */
  lemma GroupedRecordChangedIf(original: map<int, seq<Model>>, working: map<int, seq<Model>>, g: int, i: int)
    requires UniqueIds(working)
    requires g in working && 0 <= i < |working[g]|
    ensures working[g][i].id in AllIds(original) && !ModelEquals(Flatten(original)[working[g][i].id], working[g][i])
      ==> working[g][i] in MakeModelChangeset(Flatten(original), Flatten(working)).changed
  {
    FlattenedRecord(working, g, i);
    RecordClassification(Flatten(original), Flatten(working), working[g][i], AllIds(original));
  }

  /** A record a keyed-by-id working collection holds under its own id is classified by that id. */
  lemma RecordClassification(o: map<int, Model>, w: map<int, Model>, x: Model, ids: set<int>)
    requires KeyedById(w) && x.id in w && w[x.id] == x
    requires o.Keys == ids
    ensures x in MakeModelChangeset(o, w).added <==> x.id !in ids
    ensures x in MakeModelChangeset(o, w).changed ==> x.id in ids && !ModelEquals(o[x.id], x)
    ensures x.id in ids && !ModelEquals(o[x.id], x) ==> x in MakeModelChangeset(o, w).changed
  {
    KeyClassification(o, w, ModelEquals, IdOf, x.id);
  }

  /** Moving records between groups without editing them is neither an addition nor a change. */
  lemma RegroupingIsNotAChange(original: map<int, seq<Model>>, working: map<int, seq<Model>>)
    requires UniqueIds(original) && UniqueIds(working)
    requires forall g, i :: g in working && 0 <= i < |working[g]| ==>
      exists h, j :: h in original && 0 <= j < |original[h]| && original[h][j] == working[g][i]
    ensures MakeModelChangeset(Flatten(original), Flatten(working)).added == []
    ensures MakeModelChangeset(Flatten(original), Flatten(working)).changed == []
  {
    var o := Flatten(original);
    var w := Flatten(working);
    forall k | k in w ensures k in o && ModelEquals(o[k], w[k]) {
      RegroupedRecord(original, working, k);
    }
    NothingNewOrChanged(o, w, ModelEquals);
  }

  lemma RegroupedRecord(original: map<int, seq<Model>>, working: map<int, seq<Model>>, k: int)
    requires UniqueIds(original) && UniqueIds(working)
    requires forall g, i :: g in working && 0 <= i < |working[g]| ==>
      exists h, j :: h in original && 0 <= j < |original[h]| && original[h][j] == working[g][i]
    requires k in Flatten(working)
    ensures k in Flatten(original) && ModelEquals(Flatten(original)[k], Flatten(working)[k])
  {
    var g, i :| g in working && 0 <= i < |working[g]| && working[g][i].id == k;
    FlattenedRecord(working, g, i);
    var h, j :| h in original && 0 <= j < |original[h]| && original[h][j] == working[g][i];
    FlattenedRecord(original, h, j);
    ModelEqualsReflexive(working[g][i]);
  }
}
