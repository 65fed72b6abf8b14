/**
 * The reconciliation and editing helpers of the working copy:
 * `handleIdChangeAfterApiCreate` (foreign keys and child groups follow the
 * ids the server assigned), `handleAfterApiDestroy` (the server's cascading
 * deletes, mirrored locally), `popTourElement` / `addTourElement`, and the
 * two id allocators.
 */
module ModelUtils {
  import opened Wrappers
  import opened Entities
  import opened Snapshot
  import Util

  // ---------------------------------------------------------------------
  // Moving child groups after a rename

  /** A child record with its parent reference pointed at `parent`. */
  function RetagAll<V>(s: seq<V>, parent: int, retag: (V, int) -> V): (r: seq<V>)
    ensures |r| == |s|
    ensures forall i :: 0 <= i < |s| ==> r[i] == retag(s[i], parent)
  {
    seq(|s|, i requires 0 <= i < |s| => retag(s[i], parent))
  }

  /** The groups still in place and the moved groups waiting to be written back. */
  datatype Moves<V> = Moves(groups: map<int, seq<V>>, deferred: map<int, seq<V>>)

  /**
   * One pass over the renames (old id, new id) in order: a group under the
   * old id is retagged, deleted at once, and remembered under the new id
   * for a write after the pass.
   */
  function MoveGroups<V>(groups: map<int, seq<V>>, renames: seq<(int, int)>, retag: (V, int) -> V): Moves<V>
    decreases |renames|
  {
    if renames == [] then Moves(groups, map[])
    else
      var n := |renames| - 1;
      var acc := MoveGroups(groups, renames[..n], retag);
      var (oldId, newId) := renames[n];
      if oldId in acc.groups then
        Moves(acc.groups - {oldId}, acc.deferred[newId := RetagAll(acc.groups[oldId], newId, retag)])
      else acc
  }

  function OldIds(renames: seq<(int, int)>): set<int> {
    set i | 0 <= i < |renames| :: renames[i].0
  }

  predicate DistinctRenames(renames: seq<(int, int)>) {
    forall i, j :: 0 <= i < j < |renames| ==> renames[i].0 != renames[j].0 && renames[i].1 != renames[j].1
  }

  /** The pass deletes exactly the old ids: the groups left in place are the rest, untouched. */
  lemma {:induction false} MoveGroupsRemaining<V>(groups: map<int, seq<V>>, renames: seq<(int, int)>, retag: (V, int) -> V)
    ensures MoveGroups(groups, renames, retag).groups == groups - OldIds(renames)
    decreases |renames|
  {
    if renames != [] {
      var n := |renames| - 1;
      MoveGroupsRemaining(groups, renames[..n], retag);
      assert OldIds(renames) == OldIds(renames[..n]) + {renames[n].0} by {
        assert forall i :: 0 <= i < n ==> renames[..n][i] == renames[i];
      }
    }
  }

  /**
   * With distinct old and new ids, every renamed parent's group ends up
   * under the new id, retagged, whatever other renames read or wrote in
   * between: writes wait until the pass is over.
   */
  lemma {:induction false} MoveGroupsDeferred<V>(groups: map<int, seq<V>>, renames: seq<(int, int)>, retag: (V, int) -> V, i: int)
    requires DistinctRenames(renames)
    requires 0 <= i < |renames| && renames[i].0 in groups
    ensures renames[i].1 in MoveGroups(groups, renames, retag).deferred
    ensures MoveGroups(groups, renames, retag).deferred[renames[i].1] == RetagAll(groups[renames[i].0], renames[i].1, retag)
    decreases |renames|
  {
    var n := |renames| - 1;
    var prefix := renames[..n];
    assert forall j :: 0 <= j < n ==> prefix[j] == renames[j];
    MoveGroupsRemaining(groups, prefix, retag);
    if i < n {
      MoveGroupsDeferred(groups, prefix, retag, i);
    } else {
      assert renames[i].0 !in OldIds(prefix);
    }
  }

  /** Nothing is written back under a key that is not the new id of some moved group. */
  lemma {:induction false} MoveGroupsDeferredKeys<V>(groups: map<int, seq<V>>, renames: seq<(int, int)>, retag: (V, int) -> V, k: int)
    requires k in MoveGroups(groups, renames, retag).deferred
    ensures exists i :: 0 <= i < |renames| && renames[i].1 == k && renames[i].0 in groups
    decreases |renames|
  {
    var n := |renames| - 1;
    var prefix := renames[..n];
    var acc := MoveGroups(groups, prefix, retag);
    MoveGroupsRemaining(groups, prefix, retag);
    if k in acc.deferred {
      MoveGroupsDeferredKeys(groups, prefix, retag, k);
      var i :| 0 <= i < |prefix| && prefix[i].1 == k && prefix[i].0 in groups;
      assert renames[i] == prefix[i];
    }
  }

  // ---------------------------------------------------------------------
  // Renaming the created objects

  /** `oldObj.id = newId`: a record that is one of the created objects takes the server's id. */
  function RenameOne(x: Model, changes: seq<(Model, Model)>): Model
    decreases |changes|
  {
    if changes == [] then x
    else if changes[0].0 == x then x.(id := changes[0].1.id)
    else RenameOne(x, changes[1..])
  }

  function RenameSeq(s: seq<Model>, changes: seq<(Model, Model)>): seq<Model> {
    seq(|s|, i requires 0 <= i < |s| => RenameOne(s[i], changes))
  }

  function RenameMap(m: map<int, Model>, changes: seq<(Model, Model)>): map<int, Model> {
    map k | k in m :: RenameOne(m[k], changes)
  }

  function RenameGroups(groups: map<int, seq<Model>>, changes: seq<(Model, Model)>): map<int, seq<Model>> {
    map g | g in groups :: RenameSeq(groups[g], changes)
  }

  /** The created objects are the store's own records, so the new id shows wherever they are stored; keys stay. */
  function RenameRecords(data: StateData, changes: seq<(Model, Model)>): StateData {
    data.(
      jwlers := RenameMap(data.jwlers, changes),
      jwlerAvailabilities := RenameGroups(data.jwlerAvailabilities, changes),
      clients := RenameMap(data.clients, changes),
      clientAvailabilities := RenameGroups(data.clientAvailabilities, changes),
      locations := RenameMap(data.locations, changes),
      tours := RenameMap(data.tours, changes),
      tourElements := RenameGroups(data.tourElements, changes))
  }

  /** A record that is the i-th created object, and no other, gets the i-th new id and keeps everything else. */
  lemma {:induction false} RenameOneMatches(x: Model, changes: seq<(Model, Model)>, i: int)
    requires 0 <= i < |changes| && changes[i].0 == x
    requires forall j :: 0 <= j < i ==> changes[j].0 != x
    ensures RenameOne(x, changes) == x.(id := changes[i].1.id)
    decreases |changes|
  {
    if i > 0 {
      RenameOneMatches(x, changes[1..], i - 1);
    }
  }

  /** A record that is none of the created objects is left alone. */
  lemma {:induction false} RenameOneMisses(x: Model, changes: seq<(Model, Model)>)
    requires forall j :: 0 <= j < |changes| ==> changes[j].0 != x
    ensures RenameOne(x, changes) == x
    decreases |changes|
  {
    if changes != [] {
      RenameOneMisses(x, changes[1..]);
    }
  }

  /** Records of a kind no created object has are never renamed. */
  lemma RenameOtherKind(x: Model, changes: seq<(Model, Model)>)
    requires forall j :: 0 <= j < |changes| ==> changes[j].0.KindOf() != x.KindOf()
    ensures RenameOne(x, changes) == x
  {
    RenameOneMisses(x, changes);
  }

  // ---------------------------------------------------------------------
  // handleIdChangeAfterApiCreate

  function RetagTour(e: Model, tour: int): Model {
    if e.TourElement? then e.(tour := tour) else e
  }

  function RetagClient(av: Model, client: int): Model {
    if av.ClientAvailability? then av.(client := client) else av
  }

  function RetagJWler(av: Model, jwler: int): Model {
    if av.JWlerAvailability? then av.(jwler := jwler) else av
  }

  /** The (old id, new id) pairs of the changes whose new object is of kind `k`, in order. */
  function RenamesOf(changes: seq<(Model, Model)>, k: Kind): (r: seq<(int, int)>)
    decreases |changes|
  {
    if changes == [] then []
    else
      var n := |changes| - 1;
      RenamesOf(changes[..n], k) + (if changes[n].1.KindOf() == k then [(changes[n].0.id, changes[n].1.id)] else [])
  }

  /** All old/new pairs, in order. */
  function IdPairs(changes: seq<(Model, Model)>): (r: seq<(int, int)>)
    ensures |r| == |changes|
    ensures forall i :: 0 <= i < |changes| ==> r[i] == (changes[i].0.id, changes[i].1.id)
  {
    seq(|changes|, i requires 0 <= i < |changes| => (changes[i].0.id, changes[i].1.id))
  }

  /** Every change's new object is of kind `k`. */
  predicate AllOfKind(changes: seq<(Model, Model)>, k: Kind) {
    forall i :: 0 <= i < |changes| ==> changes[i].0.KindOf() == k && changes[i].1.KindOf() == k
  }

  lemma {:induction false} RenamesOfOneKind(changes: seq<(Model, Model)>, k: Kind, other: Kind)
    requires AllOfKind(changes, k) && other != k
    ensures RenamesOf(changes, k) == IdPairs(changes)
    ensures RenamesOf(changes, other) == []
    decreases |changes|
  {
    if changes != [] {
      var n := |changes| - 1;
      var init := changes[..n];
      assert forall i :: 0 <= i < n ==> init[i] == changes[i];
      RenamesOfOneKind(init, k, other);
      assert IdPairs(changes) == IdPairs(init) + [(changes[n].0.id, changes[n].1.id)];
    }
  }

  /**
   * The reconciliation as the source writes it: the three regrouping
   * passes run, but only the tour-element groups are written back; the
   * moved availability groups of renamed clients and jwlers are collected
   * and then dropped. Then every created object takes its new id.
   */
  function HandleIdChangeAsWritten(data: StateData, changes: seq<(Model, Model)>): (r: StateData)
    ensures r.jwlers.Keys == data.jwlers.Keys && r.clients.Keys == data.clients.Keys
    ensures r.locations.Keys == data.locations.Keys && r.tours.Keys == data.tours.Keys
    ensures r.drivingTimeMatrix == data.drivingTimeMatrix && r.baseLocation == data.baseLocation
    ensures r.clientAvailabilities.Keys == data.clientAvailabilities.Keys - OldIds(RenamesOf(changes, ClientKind))
    ensures r.jwlerAvailabilities.Keys == data.jwlerAvailabilities.Keys - OldIds(RenamesOf(changes, JWlerKind))
  {
    var te := MoveGroups(data.tourElements, RenamesOf(changes, TourKind), RetagTour);
    var ca := MoveGroups(data.clientAvailabilities, RenamesOf(changes, ClientKind), RetagClient);
    var ja := MoveGroups(data.jwlerAvailabilities, RenamesOf(changes, JWlerKind), RetagJWler);
    MoveGroupsRemaining(data.clientAvailabilities, RenamesOf(changes, ClientKind), RetagClient);
    MoveGroupsRemaining(data.jwlerAvailabilities, RenamesOf(changes, JWlerKind), RetagJWler);
    RenameRecords(
      data.(tourElements := te.groups + te.deferred, clientAvailabilities := ca.groups, jwlerAvailabilities := ja.groups),
      changes)
  }

  /**
   * `handleIdChangeAfterApiCreate` as evidently intended: the moved
   * availability groups are written back under the new client or jwler id,
   * like the tour-element groups.
   */
  function HandleIdChangeAfterApiCreate(data: StateData, changes: seq<(Model, Model)>): (r: StateData)
    ensures r.jwlers.Keys == data.jwlers.Keys && r.clients.Keys == data.clients.Keys
    ensures r.locations.Keys == data.locations.Keys && r.tours.Keys == data.tours.Keys
    ensures r.drivingTimeMatrix == data.drivingTimeMatrix && r.baseLocation == data.baseLocation
    ensures data.clientAvailabilities.Keys - OldIds(RenamesOf(changes, ClientKind)) <= r.clientAvailabilities.Keys
    ensures data.jwlerAvailabilities.Keys - OldIds(RenamesOf(changes, JWlerKind)) <= r.jwlerAvailabilities.Keys
    ensures data.tourElements.Keys - OldIds(RenamesOf(changes, TourKind)) <= r.tourElements.Keys
  {
    var te := MoveGroups(data.tourElements, RenamesOf(changes, TourKind), RetagTour);
    var ca := MoveGroups(data.clientAvailabilities, RenamesOf(changes, ClientKind), RetagClient);
    var ja := MoveGroups(data.jwlerAvailabilities, RenamesOf(changes, JWlerKind), RetagJWler);
    MoveGroupsRemaining(data.tourElements, RenamesOf(changes, TourKind), RetagTour);
    MoveGroupsRemaining(data.clientAvailabilities, RenamesOf(changes, ClientKind), RetagClient);
    MoveGroupsRemaining(data.jwlerAvailabilities, RenamesOf(changes, JWlerKind), RetagJWler);
    RenameRecords(
      data.(tourElements := te.groups + te.deferred,
            clientAvailabilities := ca.groups + ca.deferred,
            jwlerAvailabilities := ja.groups + ja.deferred),
      changes)
  }

  /** The three grouped collections after either version of the reconciliation, one field at a time. */
  lemma ReconciledGroups(data: StateData, changes: seq<(Model, Model)>)
    ensures var te := MoveGroups(data.tourElements, RenamesOf(changes, TourKind), RetagTour);
            && HandleIdChangeAfterApiCreate(data, changes).tourElements == RenameGroups(te.groups + te.deferred, changes)
            && HandleIdChangeAsWritten(data, changes).tourElements == RenameGroups(te.groups + te.deferred, changes)
    ensures var ca := MoveGroups(data.clientAvailabilities, RenamesOf(changes, ClientKind), RetagClient);
            && HandleIdChangeAfterApiCreate(data, changes).clientAvailabilities == RenameGroups(ca.groups + ca.deferred, changes)
            && HandleIdChangeAsWritten(data, changes).clientAvailabilities == RenameGroups(ca.groups, changes)
    ensures var ja := MoveGroups(data.jwlerAvailabilities, RenamesOf(changes, JWlerKind), RetagJWler);
            && HandleIdChangeAfterApiCreate(data, changes).jwlerAvailabilities == RenameGroups(ja.groups + ja.deferred, changes)
            && HandleIdChangeAsWritten(data, changes).jwlerAvailabilities == RenameGroups(ja.groups, changes)
  {
  }

  /** Renaming with changes of another kind leaves a grouped collection as it is. */
  lemma RenameGroupsOtherKind(groups: map<int, seq<Model>>, changes: seq<(Model, Model)>, k: Kind)
    requires forall j :: 0 <= j < |changes| ==> changes[j].0.KindOf() == k
    requires forall g, i :: g in groups && 0 <= i < |groups[g]| ==> groups[g][i].KindOf() != k
    ensures RenameGroups(groups, changes) == groups
  {
    forall g | g in groups ensures RenameSeq(groups[g], changes) == groups[g] {
      forall i | 0 <= i < |groups[g]| ensures RenameOne(groups[g][i], changes) == groups[g][i] {
        RenameOtherKind(groups[g][i], changes);
      }
    }
  }

  /** Renaming with changes of another kind leaves a top-level collection as it is. */
  lemma RenameMapOtherKind(m: map<int, Model>, changes: seq<(Model, Model)>, k: Kind)
    requires forall j :: 0 <= j < |changes| ==> changes[j].0.KindOf() == k
    requires forall key :: key in m ==> m[key].KindOf() != k
    ensures RenameMap(m, changes) == m
  {
    forall key | key in m ensures RenameOne(m[key], changes) == m[key] {
      RenameOtherKind(m[key], changes);
    }
  }

  /** A group whose records are of a kind none of the created objects has comes through the renaming as it is. */
  lemma MovedGroupNotRenamed(groups: map<int, seq<Model>>, changes: seq<(Model, Model)>, k: int)
    requires k in groups
    requires forall i, j :: 0 <= i < |groups[k]| && 0 <= j < |changes| ==> changes[j].0.KindOf() != groups[k][i].KindOf()
    ensures k in RenameGroups(groups, changes) && RenameGroups(groups, changes)[k] == groups[k]
  {
    forall i | 0 <= i < |groups[k]| ensures RenameOne(groups[k][i], changes) == groups[k][i] {
      RenameOtherKind(groups[k][i], changes);
    }
  }

  /**
   * After tours are created, each renamed tour's element group sits under
   * the new id with every element pointing at it, in both versions.
   */
  lemma TourRenameMovesElements(data: StateData, changes: seq<(Model, Model)>, i: int)
    requires AllOfKind(changes, TourKind) && DistinctRenames(IdPairs(changes))
    requires 0 <= i < |changes| && changes[i].0.id in data.tourElements
    requires forall j :: 0 <= j < |data.tourElements[changes[i].0.id]| ==> data.tourElements[changes[i].0.id][j].TourElement?
    ensures var newId := changes[i].1.id;
            var g := data.tourElements[changes[i].0.id];
            && newId in HandleIdChangeAfterApiCreate(data, changes).tourElements
            && HandleIdChangeAfterApiCreate(data, changes).tourElements[newId] == RetagAll(g, newId, RetagTour)
            && HandleIdChangeAsWritten(data, changes).tourElements[newId] == RetagAll(g, newId, RetagTour)
            && forall j :: 0 <= j < |g| ==> HandleIdChangeAfterApiCreate(data, changes).tourElements[newId][j].tour == newId
  {
    var newId := changes[i].1.id;
    var g := data.tourElements[changes[i].0.id];
    RenamesOfOneKind(changes, TourKind, ClientKind);
    ReconciledGroups(data, changes);
    var mg := MoveGroups(data.tourElements, IdPairs(changes), RetagTour);
    MoveGroupsDeferred(data.tourElements, IdPairs(changes), RetagTour, i);
    var moved := RetagAll(g, newId, RetagTour);
    assert (mg.groups + mg.deferred)[newId] == moved;
    assert forall j :: 0 <= j < |moved| ==> moved[j].TourElement?;
    MovedGroupNotRenamed(mg.groups + mg.deferred, changes, newId);
  }

  /** A renamed tour's old key is gone unless another rename reused it as its new id. */
  lemma TourRenameDropsOldKey(data: StateData, changes: seq<(Model, Model)>, i: int)
    requires AllOfKind(changes, TourKind)
    requires 0 <= i < |changes|
    requires forall j :: 0 <= j < |changes| ==> changes[j].1.id != changes[i].0.id
    ensures changes[i].0.id !in HandleIdChangeAfterApiCreate(data, changes).tourElements
    ensures changes[i].0.id !in HandleIdChangeAsWritten(data, changes).tourElements
  {
    RenamesOfOneKind(changes, TourKind, ClientKind);
    ReconciledGroups(data, changes);
    var rs := IdPairs(changes);
    var te := MoveGroups(data.tourElements, rs, RetagTour);
    var oldId := changes[i].0.id;
    assert oldId !in te.groups by {
      MoveGroupsRemaining(data.tourElements, rs, RetagTour);
      assert rs[i].0 in OldIds(rs);
    }
    assert oldId !in te.deferred by {
      if oldId in te.deferred {
        MoveGroupsDeferredKeys(data.tourElements, rs, RetagTour, oldId);
      }
    }
    assert oldId !in te.groups + te.deferred;
  }

  /**
   * As written, creating clients deletes each renamed client's availability
   * group and puts nothing back: the group keys that remain are exactly the
   * old keys minus the renamed ids. The same holds for jwlers.
   */
  lemma AsWrittenDropsAvailabilityGroups(data: StateData, changes: seq<(Model, Model)>)
    ensures AllOfKind(changes, ClientKind) ==>
      HandleIdChangeAsWritten(data, changes).clientAvailabilities.Keys
        == data.clientAvailabilities.Keys - OldIds(IdPairs(changes))
    ensures AllOfKind(changes, JWlerKind) ==>
      HandleIdChangeAsWritten(data, changes).jwlerAvailabilities.Keys
        == data.jwlerAvailabilities.Keys - OldIds(IdPairs(changes))
  {
    if AllOfKind(changes, ClientKind) {
      ClientGroupsDropped(data, changes);
    }
    if AllOfKind(changes, JWlerKind) {
      JWlerGroupsDropped(data, changes);
    }
  }

  lemma ClientGroupsDropped(data: StateData, changes: seq<(Model, Model)>)
    requires AllOfKind(changes, ClientKind)
    ensures HandleIdChangeAsWritten(data, changes).clientAvailabilities.Keys
              == data.clientAvailabilities.Keys - OldIds(IdPairs(changes))
  {
    RenamesOfOneKind(changes, ClientKind, TourKind);
    ReconciledGroups(data, changes);
    MoveGroupsRemaining(data.clientAvailabilities, IdPairs(changes), RetagClient);
  }

  lemma JWlerGroupsDropped(data: StateData, changes: seq<(Model, Model)>)
    requires AllOfKind(changes, JWlerKind)
    ensures HandleIdChangeAsWritten(data, changes).jwlerAvailabilities.Keys
              == data.jwlerAvailabilities.Keys - OldIds(IdPairs(changes))
  {
    RenamesOfOneKind(changes, JWlerKind, TourKind);
    ReconciledGroups(data, changes);
    MoveGroupsRemaining(data.jwlerAvailabilities, IdPairs(changes), RetagJWler);
  }

  /** The corrected reconciliation moves a renamed client's availabilities to the new id and points them at it. */
  lemma ClientRenameMovesAvailabilities(data: StateData, changes: seq<(Model, Model)>, i: int)
    requires AllOfKind(changes, ClientKind) && DistinctRenames(IdPairs(changes))
    requires 0 <= i < |changes| && changes[i].0.id in data.clientAvailabilities
    requires forall j :: 0 <= j < |data.clientAvailabilities[changes[i].0.id]|
               ==> data.clientAvailabilities[changes[i].0.id][j].ClientAvailability?
    ensures var newId := changes[i].1.id;
            var g := data.clientAvailabilities[changes[i].0.id];
            && newId in HandleIdChangeAfterApiCreate(data, changes).clientAvailabilities
            && HandleIdChangeAfterApiCreate(data, changes).clientAvailabilities[newId] == RetagAll(g, newId, RetagClient)
            && forall j :: 0 <= j < |g| ==> HandleIdChangeAfterApiCreate(data, changes).clientAvailabilities[newId][j].client == newId
  {
    var newId := changes[i].1.id;
    var g := data.clientAvailabilities[changes[i].0.id];
    RenamesOfOneKind(changes, ClientKind, TourKind);
    ReconciledGroups(data, changes);
    var mg := MoveGroups(data.clientAvailabilities, IdPairs(changes), RetagClient);
    MoveGroupsDeferred(data.clientAvailabilities, IdPairs(changes), RetagClient, i);
    var moved := RetagAll(g, newId, RetagClient);
    assert (mg.groups + mg.deferred)[newId] == moved;
    assert forall j :: 0 <= j < |moved| ==> moved[j].ClientAvailability?;
    MovedGroupNotRenamed(mg.groups + mg.deferred, changes, newId);
  }

  /** The corrected reconciliation moves a renamed jwler's availabilities to the new id and points them at it. */
  lemma JWlerRenameMovesAvailabilities(data: StateData, changes: seq<(Model, Model)>, i: int)
    requires AllOfKind(changes, JWlerKind) && DistinctRenames(IdPairs(changes))
    requires 0 <= i < |changes| && changes[i].0.id in data.jwlerAvailabilities
    requires forall j :: 0 <= j < |data.jwlerAvailabilities[changes[i].0.id]|
               ==> data.jwlerAvailabilities[changes[i].0.id][j].JWlerAvailability?
    ensures var newId := changes[i].1.id;
            var g := data.jwlerAvailabilities[changes[i].0.id];
            && newId in HandleIdChangeAfterApiCreate(data, changes).jwlerAvailabilities
            && HandleIdChangeAfterApiCreate(data, changes).jwlerAvailabilities[newId] == RetagAll(g, newId, RetagJWler)
            && forall j :: 0 <= j < |g| ==> HandleIdChangeAfterApiCreate(data, changes).jwlerAvailabilities[newId][j].jwler == newId
  {
    var newId := changes[i].1.id;
    var g := data.jwlerAvailabilities[changes[i].0.id];
    RenamesOfOneKind(changes, JWlerKind, TourKind);
    ReconciledGroups(data, changes);
    var mg := MoveGroups(data.jwlerAvailabilities, IdPairs(changes), RetagJWler);
    MoveGroupsDeferred(data.jwlerAvailabilities, IdPairs(changes), RetagJWler, i);
    var moved := RetagAll(g, newId, RetagJWler);
    assert (mg.groups + mg.deferred)[newId] == moved;
    assert forall j :: 0 <= j < |moved| ==> moved[j].JWlerAvailability?;
    MovedGroupNotRenamed(mg.groups + mg.deferred, changes, newId);
  }

  /**
   * The loss itself: when a client is created and the server assigns it an
   * id no availability group uses yet, as written its availabilities are
   * under neither the old nor the new id afterwards; corrected, they sit
   * under the new id and point at it.
   */
  lemma AsWrittenLosesCreatedClientsAvailabilities(data: StateData, changes: seq<(Model, Model)>, i: int)
    requires AllOfKind(changes, ClientKind) && DistinctRenames(IdPairs(changes))
    requires 0 <= i < |changes| && changes[i].0.id in data.clientAvailabilities
    requires changes[i].1.id !in data.clientAvailabilities
    requires forall j :: 0 <= j < |data.clientAvailabilities[changes[i].0.id]|
               ==> data.clientAvailabilities[changes[i].0.id][j].ClientAvailability?
    ensures changes[i].0.id !in HandleIdChangeAsWritten(data, changes).clientAvailabilities
    ensures changes[i].1.id !in HandleIdChangeAsWritten(data, changes).clientAvailabilities
    ensures changes[i].1.id in HandleIdChangeAfterApiCreate(data, changes).clientAvailabilities
    ensures HandleIdChangeAfterApiCreate(data, changes).clientAvailabilities[changes[i].1.id]
              == RetagAll(data.clientAvailabilities[changes[i].0.id], changes[i].1.id, RetagClient)
  {
    AsWrittenDropsAvailabilityGroups(data, changes);
    assert IdPairs(changes)[i].0 in OldIds(IdPairs(changes));
    ClientRenameMovesAvailabilities(data, changes, i);
  }

  /**
   * A concrete loss: client -1 with one availability is created and comes
   * back as client 42. As written the availability disappears from the
   * working copy; corrected, it sits under 42 and points at 42.
   */
  lemma CreatedClientLosesAvailabilities(data: StateData, changes: seq<(Model, Model)>, av: Model)
    requires av == ClientAvailability(10, -1, 0, 3600000)
    requires data == EmptyState.(clients := map[-1 := Client(-1, "A", 3)], clientAvailabilities := map[-1 := [av]])
    requires changes == [(Client(-1, "A", 3), Client(42, "A", 3))]
    ensures HandleIdChangeAsWritten(data, changes).clientAvailabilities == map[]
    ensures 42 in HandleIdChangeAfterApiCreate(data, changes).clientAvailabilities
    ensures HandleIdChangeAfterApiCreate(data, changes).clientAvailabilities[42] == [av.(client := 42)]
  {
    AsWrittenDropsAvailabilityGroups(data, changes);
    assert OldIds(IdPairs(changes)) == {-1} by {
      assert IdPairs(changes)[0] == (-1, 42);
    }
    AsWrittenLosesCreatedClientsAvailabilities(data, changes, 0);
    assert RetagAll([av], 42, RetagClient) == [av.(client := 42)];
  }

  /** Every created object stored in the tours ends with its new id and nothing else changed about it. */
  lemma CreatedTourTakesNewId(data: StateData, changes: seq<(Model, Model)>, k: int, i: int)
    requires k in data.tours && 0 <= i < |changes| && data.tours[k] == changes[i].0
    requires forall j :: 0 <= j < i ==> changes[j].0 != changes[i].0
    ensures k in HandleIdChangeAfterApiCreate(data, changes).tours
    ensures HandleIdChangeAfterApiCreate(data, changes).tours[k] == changes[i].0.(id := changes[i].1.id)
    ensures HandleIdChangeAsWritten(data, changes).tours[k] == changes[i].0.(id := changes[i].1.id)
  {
    RenameOneMatches(data.tours[k], changes, i);
  }

  /**
   * Creating tours touches nothing but tours and tour elements: jwlers,
   * clients, locations and both availability collections keep their
   * contents, in both versions.
   */
  lemma TourCreationTouchesOnlyTours(data: StateData, changes: seq<(Model, Model)>)
    requires AllOfKind(changes, TourKind) && WellKinded(data)
    ensures var r := HandleIdChangeAfterApiCreate(data, changes);
            r.jwlers == data.jwlers && r.clients == data.clients && r.locations == data.locations
            && r.jwlerAvailabilities == data.jwlerAvailabilities && r.clientAvailabilities == data.clientAvailabilities
    ensures var r := HandleIdChangeAsWritten(data, changes);
            r.jwlers == data.jwlers && r.clients == data.clients && r.locations == data.locations
            && r.jwlerAvailabilities == data.jwlerAvailabilities && r.clientAvailabilities == data.clientAvailabilities
  {
    RenamesOfOneKind(changes, TourKind, ClientKind);
    RenamesOfOneKind(changes, TourKind, JWlerKind);
    assert MoveGroups(data.clientAvailabilities, [], RetagClient) == Moves(data.clientAvailabilities, map[]);
    assert MoveGroups(data.jwlerAvailabilities, [], RetagJWler) == Moves(data.jwlerAvailabilities, map[]);
    assert data.clientAvailabilities + map[] == data.clientAvailabilities;
    assert data.jwlerAvailabilities + map[] == data.jwlerAvailabilities;
    RenameMapOtherKind(data.jwlers, changes, TourKind);
    RenameMapOtherKind(data.clients, changes, TourKind);
    RenameMapOtherKind(data.locations, changes, TourKind);
    RenameGroupsOtherKind(data.jwlerAvailabilities, changes, TourKind);
    RenameGroupsOtherKind(data.clientAvailabilities, changes, TourKind);
  }

  /** A created client stored under `k` shows its new id afterwards, in both versions; its key stays. */
  lemma CreatedClientTakesNewId(data: StateData, changes: seq<(Model, Model)>, k: int, i: int)
    requires k in data.clients && 0 <= i < |changes| && data.clients[k] == changes[i].0
    requires forall j :: 0 <= j < i ==> changes[j].0 != changes[i].0
    ensures k in HandleIdChangeAfterApiCreate(data, changes).clients
    ensures HandleIdChangeAfterApiCreate(data, changes).clients[k] == changes[i].0.(id := changes[i].1.id)
    ensures HandleIdChangeAsWritten(data, changes).clients[k] == changes[i].0.(id := changes[i].1.id)
  {
    RenameOneMatches(data.clients[k], changes, i);
  }

  /** A created jwler stored under `k` shows its new id afterwards, in both versions; its key stays. */
  lemma CreatedJWlerTakesNewId(data: StateData, changes: seq<(Model, Model)>, k: int, i: int)
    requires k in data.jwlers && 0 <= i < |changes| && data.jwlers[k] == changes[i].0
    requires forall j :: 0 <= j < i ==> changes[j].0 != changes[i].0
    ensures k in HandleIdChangeAfterApiCreate(data, changes).jwlers
    ensures HandleIdChangeAfterApiCreate(data, changes).jwlers[k] == changes[i].0.(id := changes[i].1.id)
    ensures HandleIdChangeAsWritten(data, changes).jwlers[k] == changes[i].0.(id := changes[i].1.id)
  {
    RenameOneMatches(data.jwlers[k], changes, i);
  }

  /**
   * Creating clients touches nothing but clients and client
   * availabilities: jwlers, locations, tours, tour elements and jwler
   * availabilities keep their contents, in both versions.
   */
  lemma ClientCreationTouchesOnlyClients(data: StateData, changes: seq<(Model, Model)>)
    requires AllOfKind(changes, ClientKind) && WellKinded(data)
    ensures var r := HandleIdChangeAfterApiCreate(data, changes);
            r.jwlers == data.jwlers && r.locations == data.locations && r.tours == data.tours
            && r.jwlerAvailabilities == data.jwlerAvailabilities && r.tourElements == data.tourElements
    ensures var r := HandleIdChangeAsWritten(data, changes);
            r.jwlers == data.jwlers && r.locations == data.locations && r.tours == data.tours
            && r.jwlerAvailabilities == data.jwlerAvailabilities && r.tourElements == data.tourElements
  {
    RenamesOfOneKind(changes, ClientKind, TourKind);
    RenamesOfOneKind(changes, ClientKind, JWlerKind);
    assert MoveGroups(data.tourElements, [], RetagTour) == Moves(data.tourElements, map[]);
    assert MoveGroups(data.jwlerAvailabilities, [], RetagJWler) == Moves(data.jwlerAvailabilities, map[]);
    assert data.tourElements + map[] == data.tourElements;
    assert data.jwlerAvailabilities + map[] == data.jwlerAvailabilities;
    RenameMapOtherKind(data.jwlers, changes, ClientKind);
    RenameMapOtherKind(data.locations, changes, ClientKind);
    RenameMapOtherKind(data.tours, changes, ClientKind);
    RenameGroupsOtherKind(data.jwlerAvailabilities, changes, ClientKind);
    RenameGroupsOtherKind(data.tourElements, changes, ClientKind);
  }

  /**
   * Creating jwlers touches nothing but jwlers and jwler availabilities:
   * clients, locations, tours, tour elements and client availabilities
   * keep their contents, in both versions.
   */
  lemma JWlerCreationTouchesOnlyJWlers(data: StateData, changes: seq<(Model, Model)>)
    requires AllOfKind(changes, JWlerKind) && WellKinded(data)
    ensures var r := HandleIdChangeAfterApiCreate(data, changes);
            r.clients == data.clients && r.locations == data.locations && r.tours == data.tours
            && r.clientAvailabilities == data.clientAvailabilities && r.tourElements == data.tourElements
    ensures var r := HandleIdChangeAsWritten(data, changes);
            r.clients == data.clients && r.locations == data.locations && r.tours == data.tours
            && r.clientAvailabilities == data.clientAvailabilities && r.tourElements == data.tourElements
  {
    RenamesOfOneKind(changes, JWlerKind, TourKind);
    RenamesOfOneKind(changes, JWlerKind, ClientKind);
    assert MoveGroups(data.tourElements, [], RetagTour) == Moves(data.tourElements, map[]);
    assert MoveGroups(data.clientAvailabilities, [], RetagClient) == Moves(data.clientAvailabilities, map[]);
    assert data.tourElements + map[] == data.tourElements;
    assert data.clientAvailabilities + map[] == data.clientAvailabilities;
    RenameMapOtherKind(data.clients, changes, JWlerKind);
    RenameMapOtherKind(data.locations, changes, JWlerKind);
    RenameMapOtherKind(data.tours, changes, JWlerKind);
    RenameGroupsOtherKind(data.clientAvailabilities, changes, JWlerKind);
    RenameGroupsOtherKind(data.tourElements, changes, JWlerKind);
  }

  // ---------------------------------------------------------------------
  // handleAfterApiDestroy

  /**
   * After the server destroyed `obj`, drop the children it deletes with
   * it: a tour's element group, a jwler's or a client's availability group.
   * Other kinds cascade to nothing.
   */
  function HandleAfterApiDestroy(data: StateData, obj: Model): (r: StateData)
    ensures r.tourElements.Keys == data.tourElements.Keys - (if obj.Tour? then {obj.id} else {})
    ensures r.jwlerAvailabilities.Keys == data.jwlerAvailabilities.Keys - (if obj.JWler? then {obj.id} else {})
    ensures r.clientAvailabilities.Keys == data.clientAvailabilities.Keys - (if obj.Client? then {obj.id} else {})
    ensures forall g :: g in r.tourElements ==> r.tourElements[g] == data.tourElements[g]
    ensures forall g :: g in r.jwlerAvailabilities ==> r.jwlerAvailabilities[g] == data.jwlerAvailabilities[g]
    ensures forall g :: g in r.clientAvailabilities ==> r.clientAvailabilities[g] == data.clientAvailabilities[g]
    ensures r.jwlers == data.jwlers && r.clients == data.clients && r.locations == data.locations && r.tours == data.tours
  {
    match obj
    case Tour(id, _, _, _, _) => data.(tourElements := data.tourElements - {id})
    case JWler(id, _) => data.(jwlerAvailabilities := data.jwlerAvailabilities - {id})
    case Client(id, _, _) => data.(clientAvailabilities := data.clientAvailabilities - {id})
    case _ => data
  }

  /**
   * With tour elements grouped by their tour, destroying a tour leaves no
   * element of it behind and every element of another tour in place.
   */
  lemma DestroyedTourLeavesNoElements(data: StateData, tour: Model)
    requires tour.Tour? && GroupedBy(data.tourElements, TourOf)
    ensures forall g, i :: g in HandleAfterApiDestroy(data, tour).tourElements
              && 0 <= i < |HandleAfterApiDestroy(data, tour).tourElements[g]|
              ==> TourOf(HandleAfterApiDestroy(data, tour).tourElements[g][i]) != tour.id
    ensures forall g, i :: g in data.tourElements && 0 <= i < |data.tourElements[g]| && TourOf(data.tourElements[g][i]) != tour.id
              ==> data.tourElements[g][i] in HandleAfterApiDestroy(data, tour).tourElements[g]
  {
    var r := HandleAfterApiDestroy(data, tour);
    forall g, i | g in data.tourElements && 0 <= i < |data.tourElements[g]| && TourOf(data.tourElements[g][i]) != tour.id
      ensures data.tourElements[g][i] in r.tourElements[g]
    {
      assert g != tour.id;
    }
  }

  // ---------------------------------------------------------------------
  // popTourElement / addTourElement

  /** The first record with id `id`, if any: `elements.find(te => te.id == id)`. */
  function FindById(s: seq<Model>, id: int): (r: Option<Model>)
    ensures r.Some? <==> exists i :: 0 <= i < |s| && s[i].id == id
    ensures r.Some? ==> exists i :: 0 <= i < |s| && s[i] == r.value && r.value.id == id
                                   && forall j :: 0 <= j < i ==> s[j].id != id
    decreases |s|
  {
    if s == [] then None
    else if s[0].id == id then Some(s[0])
    else
      var r := FindById(s[1..], id);
      assert forall j :: 0 < j < |s| ==> s[1..][j - 1] == s[j];
      r
  }

  /** `elements.filter(te => te.id != id)`. */
  function WithoutId(s: seq<Model>, id: int): (r: seq<Model>)
    ensures forall x :: x in r <==> x in s && x.id != id
    ensures Util.IsSubsequence(r, s)
    decreases |s|
  {
    if s == [] then []
    else
      var n := |s| - 1;
      var init := WithoutId(s[..n], id);
      assert forall x :: x in s <==> x in s[..n] || x == s[n];
      if s[n].id != id then
        assert (init + [s[n]])[..|init|] == init;
        init + [s[n]]
      else
        assert init == [] || init[|init| - 1] in init;
        init
  }

  /** `ids.filter(e => e != id)`. */
  function WithoutValue(ids: seq<int>, id: int): (r: seq<int>)
    ensures forall x :: x in r <==> x in ids && x != id
    ensures id !in ids ==> r == ids
    ensures Util.IsSubsequence(r, ids)
    decreases |ids|
  {
    if ids == [] then []
    else
      var n := |ids| - 1;
      assert ids == ids[..n] + [ids[n]];
      var init := WithoutValue(ids[..n], id);
      if ids[n] != id then
        assert (init + [ids[n]])[..|init|] == init;
        init + [ids[n]]
      else
        assert init == [] || init[|init| - 1] in init;
        init
  }

  /**
   * `popTourElement(tourId, elementId)`: the element with `elementId` (if
   * the group has one) is returned and taken out of the tour's group and
   * out of the tour's element ids. A group of exactly one element is
   * deleted outright, without looking at that element's id.
   */
  function PopTourElement(data: StateData, tourId: int, elementId: int): (r: (StateData, Option<Model>))
    requires tourId in data.tourElements
    ensures r.1 == FindById(data.tourElements[tourId], elementId)
    ensures |data.tourElements[tourId]| == 1 ==> r.0.tourElements == data.tourElements - {tourId}
    ensures |data.tourElements[tourId]| != 1 ==>
      && tourId in r.0.tourElements
      && (forall x :: x in r.0.tourElements[tourId] <==> x in data.tourElements[tourId] && x.id != elementId)
      && Util.IsSubsequence(r.0.tourElements[tourId], data.tourElements[tourId])
      && forall g :: g in data.tourElements && g != tourId ==> g in r.0.tourElements && r.0.tourElements[g] == data.tourElements[g]
    ensures tourId in data.tours && data.tours[tourId].Tour? ==>
      tourId in r.0.tours && r.0.tours[tourId].Tour?
      && forall e :: e in r.0.tours[tourId].elements <==> e in data.tours[tourId].elements && e != elementId
    ensures tourId in data.tours && data.tours[tourId].Tour? ==>
      && r.0.tours[tourId] == data.tours[tourId].(elements := r.0.tours[tourId].elements)
      && Util.IsSubsequence(r.0.tours[tourId].elements, data.tours[tourId].elements)
    ensures r.0.tours.Keys == data.tours.Keys
    ensures forall t :: t in data.tours && t != tourId ==> r.0.tours[t] == data.tours[t]
    ensures r.0.jwlers == data.jwlers && r.0.clients == data.clients && r.0.locations == data.locations
    ensures r.0.jwlerAvailabilities == data.jwlerAvailabilities && r.0.clientAvailabilities == data.clientAvailabilities
    ensures r.0.drivingTimeMatrix == data.drivingTimeMatrix && r.0.baseLocation == data.baseLocation
  {
    var elements := data.tourElements[tourId];
    var popped := FindById(elements, elementId);
    var groups := PopGroup(data.tourElements, tourId, elementId);
    (data.(tourElements := groups, tours := PopElementId(data.tours, tourId, elementId)), popped)
  }

  /** The element groups after a pop: a single-element group goes, any other loses the elements with the id. */
  function PopGroup(groups: map<int, seq<Model>>, tourId: int, elementId: int): map<int, seq<Model>>
    requires tourId in groups
  {
    if |groups[tourId]| == 1 then groups - {tourId}
    else groups[tourId := WithoutId(groups[tourId], elementId)]
  }

  /** The tours after a pop: the tour, if there is one, forgets the element id. */
  function PopElementId(tours: map<int, Model>, tourId: int, elementId: int): map<int, Model> {
    if tourId in tours && tours[tourId].Tour? then
      tours[tourId := tours[tourId].(elements := WithoutValue(tours[tourId].elements, elementId))]
    else tours
  }

  /**
   * `addTourElement(tourId, newElement)`: the element is appended to the
   * tour's group (which is created if missing) and its id to the tour's
   * element ids.
   */
  function AddTourElement(data: StateData, tourId: int, newElement: Model): (r: StateData)
    requires tourId in data.tours && data.tours[tourId].Tour?
    ensures tourId in r.tourElements && tourId in r.tours
    ensures r.tourElements[tourId] == (if tourId in data.tourElements then data.tourElements[tourId] else []) + [newElement]
    ensures r.tours[tourId] == data.tours[tourId].(elements := data.tours[tourId].elements + [newElement.id])
    ensures forall g :: g in data.tourElements && g != tourId ==> g in r.tourElements && r.tourElements[g] == data.tourElements[g]
    ensures r.tourElements.Keys == data.tourElements.Keys + {tourId} && r.tours.Keys == data.tours.Keys
    ensures forall t :: t in data.tours && t != tourId ==> r.tours[t] == data.tours[t]
    ensures r.jwlers == data.jwlers && r.clients == data.clients && r.locations == data.locations
    ensures r.jwlerAvailabilities == data.jwlerAvailabilities && r.clientAvailabilities == data.clientAvailabilities
    ensures r.drivingTimeMatrix == data.drivingTimeMatrix && r.baseLocation == data.baseLocation
  {
    var groups := Util.AddToGroup(data.tourElements, tourId, newElement);
    data.(tourElements := groups, tours := AddElementId(data.tours, tourId, newElement.id))
  }

  /** The tours after an add: the tour's element ids gain the new id at the end. */
  function AddElementId(tours: map<int, Model>, tourId: int, elementId: int): map<int, Model>
    requires tourId in tours && tours[tourId].Tour?
  {
    tours[tourId := tours[tourId].(elements := tours[tourId].elements + [elementId])]
  }

  lemma {:induction false} WithoutFreshId(s: seq<Model>, x: Model)
    requires forall i :: 0 <= i < |s| ==> s[i].id != x.id
    ensures WithoutId(s + [x], x.id) == s
    decreases |s|
  {
    var t := s + [x];
    assert t[..|t| - 1] == s;
    WithoutIdKeepsAll(s, x.id);
  }

  lemma {:induction false} WithoutIdKeepsAll(s: seq<Model>, id: int)
    requires forall i :: 0 <= i < |s| ==> s[i].id != id
    ensures WithoutId(s, id) == s
    decreases |s|
  {
    if s != [] {
      var n := |s| - 1;
      WithoutIdKeepsAll(s[..n], id);
      WithoutIdSnoc(s, id);
      assert s[..n] + [s[n]] == s;
    }
  }

  /** One step of `WithoutId`: a last record with another id is kept. */
  lemma WithoutIdSnoc(s: seq<Model>, id: int)
    requires s != [] && s[|s| - 1].id != id
    ensures WithoutId(s, id) == WithoutId(s[..|s| - 1], id) + [s[|s| - 1]]
  {
  }

  /**
   * Adding an element with a fresh id and popping it straight away gives
   * back the element and the data as it was, provided the tour's group was
   * missing or non-empty (an empty group would be deleted by the pop).
   */
  lemma AddThenPopRestores(data: StateData, tourId: int, e: Model)
    requires tourId in data.tours && data.tours[tourId].Tour?
    requires e.id !in data.tours[tourId].elements
    requires tourId in data.tourElements ==> data.tourElements[tourId] != []
    requires tourId in data.tourElements ==> forall i :: 0 <= i < |data.tourElements[tourId]| ==> data.tourElements[tourId][i].id != e.id
    ensures PopTourElement(AddTourElement(data, tourId, e), tourId, e.id) == (data, Some(e))
  {
    var added := AddTourElement(data, tourId, e);
    var g := if tourId in data.tourElements then data.tourElements[tourId] else [];
    assert added.tourElements[tourId] == g + [e];
    FoundLast(g, e);
    PopRestoresTours(data, tourId, e);
    PopRestoresGroups(data, tourId, e);
  }

  /** An element appended after elements of other ids is the one found by its id. */
  lemma FoundLast(g: seq<Model>, e: Model)
    requires forall i :: 0 <= i < |g| ==> g[i].id != e.id
    ensures FindById(g + [e], e.id) == Some(e)
  {
    var f := FindById(g + [e], e.id);
    assert (g + [e])[|g|].id == e.id;
    var i :| 0 <= i < |g + [e]| && (g + [e])[i] == f.value && f.value.id == e.id;
  }

  lemma PopRestoresTours(data: StateData, tourId: int, e: Model)
    requires tourId in data.tours && data.tours[tourId].Tour?
    requires e.id !in data.tours[tourId].elements
    ensures PopTourElement(AddTourElement(data, tourId, e), tourId, e.id).0.tours == data.tours
  {
    var tour := data.tours[tourId];
    assert AddTourElement(data, tourId, e).tours == AddElementId(data.tours, tourId, e.id);
    assert (tour.elements + [e.id])[..|tour.elements|] == tour.elements;
    assert WithoutValue(tour.elements + [e.id], e.id) == tour.elements;
    assert data.tours[tourId := tour] == data.tours;
  }

  lemma PopRestoresGroups(data: StateData, tourId: int, e: Model)
    requires tourId in data.tours && data.tours[tourId].Tour?
    requires tourId in data.tourElements ==> data.tourElements[tourId] != []
    requires tourId in data.tourElements ==> forall i :: 0 <= i < |data.tourElements[tourId]| ==> data.tourElements[tourId][i].id != e.id
    ensures PopTourElement(AddTourElement(data, tourId, e), tourId, e.id).0.tourElements == data.tourElements
  {
    var added := AddTourElement(data, tourId, e);
    assert added.tourElements == Util.AddToGroup(data.tourElements, tourId, e);
    assert PopTourElement(added, tourId, e.id).0.tourElements == PopGroup(added.tourElements, tourId, e.id);
    PopUndoesAdd(data.tourElements, tourId, e);
  }

  lemma PopUndoesAdd(groups: map<int, seq<Model>>, tourId: int, e: Model)
    requires tourId in groups ==> groups[tourId] != []
    requires tourId in groups ==> forall i :: 0 <= i < |groups[tourId]| ==> groups[tourId][i].id != e.id
    ensures PopGroup(Util.AddToGroup(groups, tourId, e), tourId, e.id) == groups
  {
    if tourId in groups {
      WithoutFreshId(groups[tourId], e);
      assert groups[tourId := groups[tourId]] == groups;
    } else {
      assert groups[tourId := [e]] - {tourId} == groups;
    }
  }

  // ---------------------------------------------------------------------
  // Id allocators

  lemma {:induction false} IntSubsetSize(a: set<int>, b: set<int>)
    requires a <= b
    ensures |a| <= |b|
    decreases |a|
  {
    if a != {} {
      Util.HasElement(a);
      var x :| x in a;
      IntSubsetSize(a - {x}, b - {x});
    }
  }

  /** `findNewTourId`: the least positive integer that is not a tour key. */
  method FindNewTourId<V>(tours: map<int, V>) returns (newId: int)
    ensures newId >= 1 && newId !in tours
    ensures forall k :: 1 <= k < newId ==> k in tours
  {
    newId := 1;
    ghost var seen: set<int> := {};
    while newId in tours
      invariant newId >= 1
      invariant forall k :: 1 <= k < newId ==> k in tours
      invariant seen <= tours.Keys && |seen| == newId - 1
      invariant forall k :: k in seen ==> k < newId
      decreases |tours| - |seen|
    {
      assert newId !in seen;
      seen := seen + {newId};
      IntSubsetSize(seen, tours.Keys);
      newId := newId + 1;
    }
  }

  /** The largest of 1 and every id in the groups: what `Math.max(max, ...ids)` accumulates. */
  predicate IsMaxId<T>(groups: map<int, seq<T>>, idOf: T -> int, m: int) {
    && m >= 1
    && (forall g, i :: g in groups && 0 <= i < |groups[g]| ==> idOf(groups[g][i]) <= m)
    && (m == 1 || exists g, i :: g in groups && 0 <= i < |groups[g]| && idOf(groups[g][i]) == m)
  }

  /**
   * `findNewTourElementId`: one more than the largest of 1 and every
   * element id, so at least 2 and above every id in use.
   */
  method FindNewTourElementId<T>(groups: map<int, seq<T>>, idOf: T -> int) returns (newId: int)
    ensures IsMaxId(groups, idOf, newId - 1)
    ensures newId >= 2
    ensures forall g, i :: g in groups && 0 <= i < |groups[g]| ==> idOf(groups[g][i]) < newId
  {
    var keys := Util.KeysInOrder(groups.Keys);
    var max := 1;
    var j := 0;
    while j < |keys|
      invariant 0 <= j <= |keys|
      invariant max >= 1
      invariant forall p, i :: 0 <= p < j && 0 <= i < |groups[keys[p]]| ==> idOf(groups[keys[p]][i]) <= max
      invariant max == 1 || exists g, i :: g in groups && 0 <= i < |groups[g]| && idOf(groups[g][i]) == max
    {
      var elements := groups[keys[j]];
      var i := 0;
      while i < |elements|
        invariant 0 <= i <= |elements|
        invariant max >= 1
        invariant forall p, q :: 0 <= p < j && 0 <= q < |groups[keys[p]]| ==> idOf(groups[keys[p]][q]) <= max
        invariant forall q :: 0 <= q < i ==> idOf(elements[q]) <= max
        invariant max == 1 || exists g, q :: g in groups && 0 <= q < |groups[g]| && idOf(groups[g][q]) == max
      {
        if idOf(elements[i]) > max {
          max := idOf(elements[i]);
          var g := keys[j];
          assert g in groups && 0 <= i < |groups[g]| && idOf(groups[g][i]) == max;
        }
        i := i + 1;
      }
      j := j + 1;
    }
    forall g, i | g in groups && 0 <= i < |groups[g]| ensures idOf(groups[g][i]) <= max {
      var p :| 0 <= p < |keys| && keys[p] == g;
    }
    newId := max + 1;
  }
}
