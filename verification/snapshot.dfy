/**
 * `StateData`, one snapshot of the editor's data: the four top-level kinds
 * keyed by id, the three child kinds grouped by the id of their parent
 * (availabilities by jwler or client, tour elements by tour), plus the
 * base location and the driving-time matrix, which are kept as opaque
 * values.
 */
module Snapshot {
  import opened Wrappers
  import opened Entities
  import Util

  /** The driving-time matrix is carried along but never inspected here. */
  datatype DrivingTimeMatrix = NoMatrix | Matrix(locationIds: seq<int>, seconds: seq<seq<int>>)

  datatype StateData = StateData(
    jwlers: map<int, Model>,
    jwlerAvailabilities: map<int, seq<Model>>,
    clients: map<int, Model>,
    clientAvailabilities: map<int, seq<Model>>,
    locations: map<int, Model>,
    tours: map<int, Model>,
    tourElements: map<int, seq<Model>>,
    baseLocation: Option<Model>,
    drivingTimeMatrix: DrivingTimeMatrix)

  /** A freshly constructed `StateData`: every collection empty, no base location, no matrix. */
  const EmptyState: StateData :=
    StateData(map[], map[], map[], map[], map[], map[], map[], None, NoMatrix)

  /** Every collection holds records of its own kind, as the source's typed maps do. */
  predicate WellKinded(st: StateData) {
    && (forall k :: k in st.jwlers ==> st.jwlers[k].JWler?)
    && (forall k :: k in st.clients ==> st.clients[k].Client?)
    && (forall k :: k in st.locations ==> st.locations[k].Location?)
    && (forall k :: k in st.tours ==> st.tours[k].Tour?)
    && (forall g, i :: g in st.jwlerAvailabilities && 0 <= i < |st.jwlerAvailabilities[g]|
          ==> st.jwlerAvailabilities[g][i].JWlerAvailability?)
    && (forall g, i :: g in st.clientAvailabilities && 0 <= i < |st.clientAvailabilities[g]|
          ==> st.clientAvailabilities[g][i].ClientAvailability?)
    && (forall g, i :: g in st.tourElements && 0 <= i < |st.tourElements[g]| ==> st.tourElements[g][i].TourElement?)
  }

  /** Every record sits under its own id. */
  predicate KeyedById(m: map<int, Model>) {
    forall k :: k in m ==> m[k].id == k
  }

  /** No two positions across all groups hold records with one id. */
  predicate UniqueIds(groups: map<int, seq<Model>>) {
    forall g, i, h, j ::
      (g in groups && h in groups && 0 <= i < |groups[g]| && 0 <= j < |groups[h]|
       && groups[g][i].id == groups[h][j].id) ==> g == h && i == j
  }

  /** Every child record sits in the group of its parent, and ids are unique across groups. */
  predicate GroupedBy(groups: map<int, seq<Model>>, parentOf: Model -> int) {
    && (forall g, i :: g in groups && 0 <= i < |groups[g]| ==> parentOf(groups[g][i]) == g)
    && UniqueIds(groups)
  }

  /** The ids of all grouped records. */
  function AllIds(groups: map<int, seq<Model>>): set<int> {
    set g, i | g in groups && 0 <= i < |groups[g]| :: groups[g][i].id
  }

  function JWlerOf(m: Model): int {
    if m.JWlerAvailability? then m.jwler else m.id
  }

  function ClientOf(m: Model): int {
    if m.ClientAvailability? then m.client else m.id
  }

  function TourOf(m: Model): int {
    if m.TourElement? then m.tour else m.id
  }

  /** `_assign(other)`: the receiver's nine fields all become (copies of) `other`'s. */
  function Assign(self: StateData, other: StateData): (r: StateData)
    ensures r.jwlers == other.jwlers && r.jwlerAvailabilities == other.jwlerAvailabilities
    ensures r.clients == other.clients && r.clientAvailabilities == other.clientAvailabilities
    ensures r.locations == other.locations && r.tours == other.tours && r.tourElements == other.tourElements
    ensures r.baseLocation == other.baseLocation && r.drivingTimeMatrix == other.drivingTimeMatrix
  {
    self.(jwlers := other.jwlers, jwlerAvailabilities := other.jwlerAvailabilities,
          clients := other.clients, clientAvailabilities := other.clientAvailabilities,
          locations := other.locations, tours := other.tours, tourElements := other.tourElements,
          baseLocation := other.baseLocation, drivingTimeMatrix := other.drivingTimeMatrix)
  }

  /** Rebaselining forgets everything the receiver held and is idempotent. */
  lemma AssignForgetsReceiver(a: StateData, b: StateData, other: StateData)
    ensures Assign(a, other) == Assign(b, other) == other
    ensures Assign(Assign(a, other), other) == Assign(a, other)
  {
  }

  // ---------------------------------------------------------------------
  // countVisits

  predicate IsVisit(m: Model) {
    m.TourElement? && m.elementType == V
  }

  /** `elements.filter(e => e.type == V)`. */
  function Visits(elements: seq<Model>): (r: seq<Model>)
    ensures |r| <= |elements|
    ensures forall x :: x in r <==> x in elements && IsVisit(x)
    decreases |elements|
  {
    if elements == [] then []
    else
      var last := elements[|elements| - 1];
      Visits(elements[..|elements| - 1]) + (if IsVisit(last) then [last] else [])
  }

  /** Every position, across all groups, that holds a visit. */
  function VisitPositions(groups: map<int, seq<Model>>): set<(int, int)> {
    set g, i | g in groups && 0 <= i < |groups[g]| && IsVisit(groups[g][i]) :: (g, i)
  }

  function VisitPositionsAmong(groups: map<int, seq<Model>>, done: set<int>): set<(int, int)> {
    set g, i | g in groups && g in done && 0 <= i < |groups[g]| && IsVisit(groups[g][i]) :: (g, i)
  }

  function PositionsIn(g: int, elements: seq<Model>): set<(int, int)> {
    set i | 0 <= i < |elements| && IsVisit(elements[i]) :: (g, i)
  }

  /** One group contributes as many positions as its filter has visits. */
  lemma {:induction false} PositionsInCount(g: int, elements: seq<Model>)
    ensures |PositionsIn(g, elements)| == |Visits(elements)|
    decreases |elements|
  {
    if elements != [] {
      var n := |elements| - 1;
      PositionsInCount(g, elements[..n]);
      PositionsInSnoc(g, elements);
    }
  }

  /** The positions of a group are those of all but its last element, plus the last if it is a visit. */
  lemma PositionsInSnoc(g: int, elements: seq<Model>)
    requires elements != []
    ensures var n := |elements| - 1;
      PositionsIn(g, elements) == PositionsIn(g, elements[..n]) + (if IsVisit(elements[n]) then {(g, n)} else {})
    ensures (g, |elements| - 1) !in PositionsIn(g, elements[..|elements| - 1])
  {
    var n := |elements| - 1;
    var init := elements[..n];
    var extra: set<(int, int)> := if IsVisit(elements[n]) then {(g, n)} else {};
    forall pos | pos in PositionsIn(g, elements) ensures pos in PositionsIn(g, init) + extra {
      var i :| 0 <= i < |elements| && IsVisit(elements[i]) && pos == (g, i);
      if i < n {
        assert init[i] == elements[i];
      }
    }
    forall pos | pos in PositionsIn(g, init) ensures pos in PositionsIn(g, elements) {
      var i :| 0 <= i < |init| && IsVisit(init[i]) && pos == (g, i);
      assert elements[i] == init[i];
    }
  }

  /** Adding one more group to the walked keys adds that group's visits. */
  lemma PositionsAmongStep(groups: map<int, seq<Model>>, done: set<int>, g: int)
    requires g in groups && g !in done
    ensures |VisitPositionsAmong(groups, done + {g})| == |VisitPositionsAmong(groups, done)| + |Visits(groups[g])|
  {
    assert VisitPositionsAmong(groups, done + {g}) == VisitPositionsAmong(groups, done) + PositionsIn(g, groups[g]);
    assert VisitPositionsAmong(groups, done) !! PositionsIn(g, groups[g]);
    PositionsInCount(g, groups[g]);
  }

  /**
   * `countVisits`: the number of visit elements over all tour-element
   * groups. Groups are summed in ascending key order.
   */
  method CountVisits(st: StateData) returns (sum: nat)
    ensures sum == |VisitPositions(st.tourElements)|
  {
    var groups := st.tourElements;
    var keys := Util.KeysInOrder(groups.Keys);
    sum := 0;
    ghost var done: set<int> := {};
    var j := 0;
    while j < |keys|
      invariant 0 <= j <= |keys|
      invariant forall x :: x in done <==> x in keys[..j]
      invariant sum == |VisitPositionsAmong(groups, done)|
    {
      var g := keys[j];
      PositionsAmongStep(groups, done, g);
      sum := sum + |Visits(groups[g])|;
      assert keys[..j + 1] == keys[..j] + [g];
      done := done + {g};
      j := j + 1;
    }
    assert keys[..j] == keys;
    assert VisitPositionsAmong(groups, done) == VisitPositions(groups);
  }

  /** A group of tour elements holding no visit adds nothing to the count. */
  lemma VisitPositionsIgnoreVisitFreeGroup(groups: map<int, seq<Model>>, g: int, elements: seq<Model>)
    requires g !in groups
    requires forall i :: 0 <= i < |elements| ==> !IsVisit(elements[i])
    ensures VisitPositions(groups[g := elements]) == VisitPositions(groups)
  {
  }

  // ---------------------------------------------------------------------
  // getUnassignedClients

  /** The clients that a list of tour elements visits. */
  function ClientsVisitedBy(elements: seq<Model>): set<int> {
    set i | 0 <= i < |elements| && elements[i].TourElement? && elements[i].visitedClient.Some?
      :: elements[i].visitedClient.value
  }

  /** The clients visited by the element group of the tour stored under key `tk`, looked up by the tour's own id. */
  function TourRefs(st: StateData, tk: int): set<int> {
    if tk in st.tours && st.tours[tk].id in st.tourElements then
      ClientsVisitedBy(st.tourElements[st.tours[tk].id])
    else {}
  }

  /** Every client visited by an element of an existing tour's group. */
  function AssignedClients(st: StateData): set<int> {
    set tk, c | tk in st.tours && c in TourRefs(st, tk) :: c
  }

  function RefsAmong(st: StateData, keys: seq<int>): set<int> {
    set j, c | 0 <= j < |keys| && c in TourRefs(st, keys[j]) :: c
  }

  lemma ClientsVisitedStep(elements: seq<Model>, i: int)
    requires 0 <= i < |elements|
    ensures ClientsVisitedBy(elements[..i + 1]) ==
      ClientsVisitedBy(elements[..i]) +
      (if elements[i].TourElement? && elements[i].visitedClient.Some? then {elements[i].visitedClient.value} else {})
  {
    assert forall p :: 0 <= p < i ==> elements[..i + 1][p] == elements[..i][p];
  }

  lemma RefsAmongStep(st: StateData, keys: seq<int>, j: int)
    requires 0 <= j < |keys|
    ensures RefsAmong(st, keys[..j + 1]) == RefsAmong(st, keys[..j]) + TourRefs(st, keys[j])
  {
    var pre := keys[..j];
    var ext := keys[..j + 1];
    assert forall p :: 0 <= p < j ==> ext[p] == pre[p];
    forall c | c in RefsAmong(st, ext) ensures c in RefsAmong(st, pre) + TourRefs(st, keys[j]) {
      var p :| 0 <= p < |ext| && c in TourRefs(st, ext[p]);
      if p < j {
        assert c in TourRefs(st, pre[p]);
      }
    }
    forall c | c in RefsAmong(st, pre) ensures c in RefsAmong(st, ext) {
      var p :| 0 <= p < |pre| && c in TourRefs(st, pre[p]);
      assert c in TourRefs(st, ext[p]);
    }
    forall c | c in TourRefs(st, keys[j]) ensures c in RefsAmong(st, ext) {
      assert c in TourRefs(st, ext[j]);
    }
  }

  lemma RefsAmongAll(st: StateData, keys: seq<int>)
    requires forall x :: x in keys <==> x in st.tours
    ensures RefsAmong(st, keys) == AssignedClients(st)
  {
    forall c | c in AssignedClients(st) ensures c in RefsAmong(st, keys) {
      var tk :| tk in st.tours && c in TourRefs(st, tk);
      var p :| 0 <= p < |keys| && keys[p] == tk;
    }
  }

  /** Deletes from `result` every client visited by `elements`. */
  method DropVisited(result: map<int, Model>, elements: seq<Model>) returns (r: map<int, Model>)
    ensures r == result - ClientsVisitedBy(elements)
  {
    r := result;
    var i := 0;
    while i < |elements|
      invariant 0 <= i <= |elements|
      invariant r == result - ClientsVisitedBy(elements[..i])
    {
      var te := elements[i];
      ClientsVisitedStep(elements, i);
      if te.TourElement? && te.visitedClient.Some? {
        r := r - {te.visitedClient.value};
      }
      i := i + 1;
    }
    assert elements[..i] == elements;
  }

  /**
   * `getUnassignedClients`: a fresh map holding every client that no tour
   * visits, under its original key and with its original value. Tours are
   * walked in ascending key order.
   */
  method GetUnassignedClients(st: StateData) returns (result: map<int, Model>)
    ensures forall k :: k in result <==> k in st.clients && k !in AssignedClients(st)
    ensures forall k :: k in result ==> result[k] == st.clients[k]
  {
    result := st.clients;
    var keys := Util.KeysInOrder(st.tours.Keys);
    ghost var refs: set<int> := {};
    var j := 0;
    while j < |keys|
      invariant 0 <= j <= |keys|
      invariant refs == RefsAmong(st, keys[..j])
      invariant result == st.clients - refs
    {
      var t := st.tours[keys[j]];
      RefsAmongStep(st, keys, j);
      if t.id in st.tourElements {
        result := DropVisited(result, st.tourElements[t.id]);
      }
      refs := refs + TourRefs(st, keys[j]);
      j := j + 1;
    }
    assert keys[..j] == keys;
    RefsAmongAll(st, keys);
    assert result == st.clients - AssignedClients(st);
  }

  /**
   * A tour-element group filed under a key that is no tour's id takes no
   * client out of the unassigned set.
   */
  lemma OrphanGroupsDoNotAssign(st: StateData, g: int, elements: seq<Model>)
    requires forall tk :: tk in st.tours ==> st.tours[tk].id != g
    ensures AssignedClients(st.(tourElements := st.tourElements[g := elements])) == AssignedClients(st)
  {
    var st' := st.(tourElements := st.tourElements[g := elements]);
    assert forall tk :: TourRefs(st', tk) == TourRefs(st, tk);
  }

  /** Visiting a client in an element of an existing tour assigns it. */
  lemma VisitedClientIsAssigned(st: StateData, tk: int, i: int)
    requires tk in st.tours && st.tours[tk].id in st.tourElements
    requires 0 <= i < |st.tourElements[st.tours[tk].id]|
    requires st.tourElements[st.tours[tk].id][i].TourElement?
    requires st.tourElements[st.tours[tk].id][i].visitedClient.Some?
    ensures st.tourElements[st.tours[tk].id][i].visitedClient.value in AssignedClients(st)
  {
    var c := st.tourElements[st.tours[tk].id][i].visitedClient.value;
    assert c in ClientsVisitedBy(st.tourElements[st.tours[tk].id]);
    assert c in TourRefs(st, tk);
  }
}
