/**
 * The store's fetch bookkeeping: `fetchData` launches one promise chain per
 * fetcher group, every settled fetcher (success or failure) bumps
 * `fetchingProgress.fetched`, and the completion that makes the progress
 * finished rebaselines `originalData` from `data` (`_afterFetch`).
 *
 * Which fetcher settles next is the server's and the event loop's choice,
 * so a run is a sequence of completions; a completion is allowed when its
 * fetcher has been started and has not settled yet. The second fetcher of
 * a group is started only when the first one settles.
 */
module Store {
  import opened Wrappers
  import opened Entities
  import opened Snapshot
  import opened Changesets
  import Util

  datatype FetchingProgress = FetchingProgress(total: int, fetched: int)
  {
    /** `finished()`: a total has been set and that many fetchers have settled. */
    predicate Finished() {
      total >= 0 && fetched >= total
    }
  }

  /** A new `FetchingProgress`: no total yet, nothing fetched. */
  const FreshProgress: FetchingProgress := FetchingProgress(-1, 0)

  datatype Fetcher =
    | FetchJWlers
    | FetchJWlerAvailabilities
    | FetchClients
    | FetchClientAvailabilities
    | FetchLocations
    | FetchDrivingTimeMatrix
    | FetchTours
    | FetchTourElements
    | FetchBaseLocation

  /** The fetcher groups of `fetchData`; the driving-time matrix waits for the locations. */
  const FetcherGroups: seq<seq<Fetcher>> := [
    [FetchJWlers],
    [FetchJWlerAvailabilities],
    [FetchClients],
    [FetchClientAvailabilities],
    [FetchLocations, FetchDrivingTimeMatrix],
    [FetchTours],
    [FetchTourElements],
    [FetchBaseLocation]
  ]

  /** `fetchers.map(arr => arr.length).reduce((a, b) => a + b, 0)`. */
  function FetcherCount(groups: seq<seq<Fetcher>>): nat {
    if groups == [] then 0 else FetcherCount(groups[..|groups| - 1]) + |groups[|groups| - 1]|
  }

  /** A fetcher, as (group, position in group). */
  type Slot = (int, int)

  predicate ValidSlot(slot: Slot) {
    0 <= slot.0 < |FetcherGroups| && 0 <= slot.1 < |FetcherGroups[slot.0]|
  }

  const AllSlots: set<Slot> := {(0, 0), (1, 0), (2, 0), (3, 0), (4, 0), (4, 1), (5, 0), (6, 0), (7, 0)}

  /** The first fetcher of every group: what `fetchers.forEach(farr => runFunc(..., farr, 0))` starts. */
  const FirstSlots: set<Slot> := {(0, 0), (1, 0), (2, 0), (3, 0), (4, 0), (5, 0), (6, 0), (7, 0)}

  lemma FetcherCountIsNine()
    ensures FetcherCount(FetcherGroups) == 9
  {
    var g := FetcherGroups;
    assert g[..0] == [];
    assert g[..1][..0] == g[..0] && g[..2][..1] == g[..1] && g[..3][..2] == g[..2] && g[..4][..3] == g[..3];
    assert g[..5][..4] == g[..4] && g[..6][..5] == g[..5] && g[..7][..6] == g[..6] && g[..8][..7] == g[..7];
    assert FetcherCount(g[..1]) == 1;
    assert FetcherCount(g[..2]) == 2;
    assert FetcherCount(g[..3]) == 3;
    assert FetcherCount(g[..4]) == 4;
    assert FetcherCount(g[..5]) == 6;
    assert FetcherCount(g[..6]) == 7;
    assert FetcherCount(g[..7]) == 8;
    assert g[..8] == g;
  }

  lemma AllSlotsCount()
    ensures |AllSlots| == 9
  {
    var x := FourSlots((0, 0), (1, 0), (2, 0), (3, 0));
    var y := FourSlots((4, 0), (4, 1), (5, 0), (6, 0));
    assert |x + y| == 8 by { DisjointCount(x, y); }
    assert |x + y + {(7, 0)}| == 9 by { DisjointCount(x + y, {(7, 0)}); }
    assert AllSlots == x + y + {(7, 0)};
  }

  /** Four different slots make a set of four. */
  lemma FourSlots(a: Slot, b: Slot, c: Slot, d: Slot) returns (r: set<Slot>)
    requires a != b && a != c && a != d && b != c && b != d && c != d
    ensures r == {a, b, c, d} && |r| == 4
  {
    r := {a, b} + {c, d};
    DisjointCount({a, b}, {c, d});
  }

  /** Disjoint sets of slots add up. */
  lemma DisjointCount(s: set<Slot>, t: set<Slot>)
    requires s !! t
    ensures |s + t| == |s| + |t|
  {
  }

  lemma ValidSlots(slot: Slot)
    ensures slot in AllSlots <==> ValidSlot(slot)
    ensures slot in FirstSlots <==> ValidSlot(slot) && slot.1 == 0
  {
  }

  /** The slots are exactly the nine fetchers of `fetchData`. */
  lemma SlotsAreTheFetchers()
    ensures forall slot :: slot in AllSlots <==> ValidSlot(slot)
    ensures |AllSlots| == FetcherCount(FetcherGroups) == 9
    ensures forall slot :: slot in FirstSlots <==> ValidSlot(slot) && slot.1 == 0
  {
    forall slot ensures slot in AllSlots <==> ValidSlot(slot) {
      ValidSlots(slot);
    }
    forall slot ensures slot in FirstSlots <==> ValidSlot(slot) && slot.1 == 0 {
      ValidSlots(slot);
    }
    FetcherCountIsNine();
    AllSlotsCount();
  }

  /** What the server answered to one fetcher. */
  datatype Response =
    | Records(items: seq<Model>)
    | MatrixResponse(matrix: DrivingTimeMatrix)
    | BaseResponse(location: Model)
    | Failure

  /** `response.forEach(x => map.set(x.id, x))`: the keys of `m` plus every record's id. */
  function Upsert(m: map<int, Model>, items: seq<Model>): (r: map<int, Model>)
    ensures forall k :: k in r <==> k in m || exists i :: 0 <= i < |items| && items[i].id == k
    decreases |items|
  {
    if items == [] then m
    else
      var n := |items| - 1;
      var init := items[..n];
      assert forall i :: 0 <= i < n ==> init[i] == items[i];
      Upsert(m, init)[items[n].id := items[n]]
  }

  /** A record written by the fetch is stored under its id unless a later one has that id. */
  lemma {:induction false} UpsertLastWins(m: map<int, Model>, items: seq<Model>, i: int)
    requires 0 <= i < |items|
    requires forall j :: i < j < |items| ==> items[j].id != items[i].id
    ensures Upsert(m, items)[items[i].id] == items[i]
    decreases |items|
  {
    var n := |items| - 1;
    if i < n {
      var init := items[..n];
      assert init[i] == items[i];
      assert forall j :: i < j < n ==> init[j] == items[j];
      UpsertLastWins(m, init, i);
    }
  }

  /** A key no fetched record has keeps its stored record. */
  lemma {:induction false} UpsertKeepsOthers(m: map<int, Model>, items: seq<Model>, k: int)
    requires k in m && forall i :: 0 <= i < |items| ==> items[i].id != k
    ensures Upsert(m, items)[k] == m[k]
    decreases |items|
  {
    if items != [] {
      var n := |items| - 1;
      var init := items[..n];
      assert forall i :: 0 <= i < n ==> init[i] == items[i];
      UpsertKeepsOthers(m, init, k);
    }
  }

  /** Writing records under their own ids keeps a collection keyed by id. */
  lemma {:induction false} UpsertKeepsKeyedById(m: map<int, Model>, items: seq<Model>)
    requires KeyedById(m)
    ensures KeyedById(Upsert(m, items))
    decreases |items|
  {
    if items != [] {
      UpsertKeepsKeyedById(m, items[..|items| - 1]);
    }
  }

  /** The server answered `f` with a response of the shape its `.then` expects. */
  predicate Answers(f: Fetcher, response: Response) {
    match f
    case FetchDrivingTimeMatrix => response.MatrixResponse?
    case FetchBaseLocation => response.BaseResponse?
    case _ => response.Records?
  }

  /** The fetchers whose collection differs between `data` and `r`. */
  function Writes(data: StateData, r: StateData): set<Fetcher> {
    (if r.jwlers != data.jwlers then {FetchJWlers} else {})
    + (if r.jwlerAvailabilities != data.jwlerAvailabilities then {FetchJWlerAvailabilities} else {})
    + (if r.clients != data.clients then {FetchClients} else {})
    + (if r.clientAvailabilities != data.clientAvailabilities then {FetchClientAvailabilities} else {})
    + (if r.locations != data.locations then {FetchLocations} else {})
    + (if r.drivingTimeMatrix != data.drivingTimeMatrix then {FetchDrivingTimeMatrix} else {})
    + (if r.tours != data.tours then {FetchTours} else {})
    + (if r.tourElements != data.tourElements then {FetchTourElements} else {})
    + (if r.baseLocation != data.baseLocation then {FetchBaseLocation} else {})
  }

  /**
   * The `.then` of one fetcher: the top-level kinds are written record by
   * record, the grouped kinds group the response by parent and set each
   * group, the matrix and the base location are replaced. A failure, which
   * the chain only logs, changes nothing.
   */
  function ApplyResponse(data: StateData, f: Fetcher, response: Response): (r: StateData)
    ensures !Answers(f, response) ==> r == data
    ensures Answers(f, response) ==> Writes(data, r) <= {f}
    ensures data.jwlers.Keys <= r.jwlers.Keys && data.clients.Keys <= r.clients.Keys
    ensures data.locations.Keys <= r.locations.Keys && data.tours.Keys <= r.tours.Keys
    ensures data.jwlerAvailabilities.Keys <= r.jwlerAvailabilities.Keys
    ensures data.clientAvailabilities.Keys <= r.clientAvailabilities.Keys
    ensures data.tourElements.Keys <= r.tourElements.Keys
    ensures f == FetchDrivingTimeMatrix && response.MatrixResponse? ==> r.drivingTimeMatrix == response.matrix
    ensures f == FetchBaseLocation && response.BaseResponse? ==> r.baseLocation == Some(response.location)
    ensures f == FetchTours && response.Records? ==> forall i :: 0 <= i < |response.items| ==> response.items[i].id in r.tours
  {
    match (f, response)
    case (FetchJWlers, Records(items)) => data.(jwlers := Upsert(data.jwlers, items))
    case (FetchJWlerAvailabilities, Records(items)) =>
      data.(jwlerAvailabilities := data.jwlerAvailabilities + Util.GroupBy(items, JWlerOf))
    case (FetchClients, Records(items)) => data.(clients := Upsert(data.clients, items))
    case (FetchClientAvailabilities, Records(items)) =>
      data.(clientAvailabilities := data.clientAvailabilities + Util.GroupBy(items, ClientOf))
    case (FetchLocations, Records(items)) => data.(locations := Upsert(data.locations, items))
    case (FetchDrivingTimeMatrix, MatrixResponse(matrix)) => data.(drivingTimeMatrix := matrix)
    case (FetchTours, Records(items)) => data.(tours := Upsert(data.tours, items))
    case (FetchTourElements, Records(items)) =>
      data.(tourElements := data.tourElements + Util.GroupBy(items, TourOf))
    case (FetchBaseLocation, BaseResponse(location)) => data.(baseLocation := Some(location))
    case _ => data
  }

  /** A fetched tour-element list lands grouped by tour, each group exactly the elements of that tour. */
  lemma FetchedElementsAreGroupedByTour(data: StateData, items: seq<Model>, t: int)
    requires exists i :: 0 <= i < |items| && TourOf(items[i]) == t
    ensures t in ApplyResponse(data, FetchTourElements, Records(items)).tourElements
    ensures forall x :: x in ApplyResponse(data, FetchTourElements, Records(items)).tourElements[t]
              ==> x in items && TourOf(x) == t
  {
    var groups := Util.GroupBy(items, TourOf);
    assert t in groups && groups[t] == Util.Filter(items, TourOf, t);
    forall x | x in groups[t] ensures x in items && TourOf(x) == t {
      Util.FilterMember(items, TourOf, t, x);
    }
  }

  datatype FetchState = FetchState(
    progress: FetchingProgress,
    started: set<Slot>,
    settled: set<Slot>,
    data: StateData,
    originalData: StateData,
    afterFetchRuns: nat)

  /** The completion of one fetcher with the server's answer. */
  datatype Completion = Completion(slot: Slot, response: Response)

  predicate Enabled(s: FetchState, c: Completion) {
    ValidSlot(c.slot) && c.slot in s.started && c.slot !in s.settled
  }

  /** The fetcher `runFunc` starts when `slot` settles: the next one of its group, if any. */
  function Successor(slot: Slot): set<Slot>
    requires ValidSlot(slot)
  {
    if slot.1 + 1 < |FetcherGroups[slot.0]| then {(slot.0, slot.1 + 1)} else {}
  }

  /**
   * The `finally` of `runFunc`: start the next fetcher of the group, count
   * the completion, and rebaseline if that finished the progress.
   */
  function Complete(s: FetchState, c: Completion): (r: FetchState)
    requires Enabled(s, c)
    ensures r.progress == s.progress.(fetched := s.progress.fetched + 1)
    ensures r.settled == s.settled + {c.slot}
    ensures r.data == ApplyResponse(s.data, FetcherGroups[c.slot.0][c.slot.1], c.response)
    ensures r.started == s.started + Successor(c.slot)
    ensures r.afterFetchRuns == s.afterFetchRuns + (if r.progress.Finished() then 1 else 0)
    ensures r.progress.Finished() ==> r.originalData == r.data
    ensures !r.progress.Finished() ==> r.originalData == s.originalData
  {
    var f := FetcherGroups[c.slot.0][c.slot.1];
    var data := ApplyResponse(s.data, f, c.response);
    var next := if c.slot.1 + 1 < |FetcherGroups[c.slot.0]| then {(c.slot.0, c.slot.1 + 1)} else {};
    var progress := s.progress.(fetched := s.progress.fetched + 1);
    var r := FetchState(progress, s.started + next, s.settled + {c.slot}, data, s.originalData, s.afterFetchRuns);
    if progress.Finished() then
      AssignForgetsReceiver(r.originalData, r.originalData, data);
      r.(originalData := Assign(r.originalData, data), afterFetchRuns := r.afterFetchRuns + 1)
    else r
  }

  predicate EnabledRun(s: FetchState, cs: seq<Completion>)
    decreases |cs|
  {
    cs == [] || (Enabled(s, cs[0]) && EnabledRun(Complete(s, cs[0]), cs[1..]))
  }

  function Run(s: FetchState, cs: seq<Completion>): FetchState
    requires EnabledRun(s, cs)
    decreases |cs|
  {
    if cs == [] then s else Run(Complete(s, cs[0]), cs[1..])
  }

  /** `fetchData` as written: set the total and start every group's first fetcher. */
  function StartFetch(s: FetchState): (r: FetchState)
    ensures r.progress.total == FetcherCount(FetcherGroups)
    ensures r.progress.fetched == s.progress.fetched
  {
    SlotsAreTheFetchers();
    s.(progress := s.progress.(total := FetcherCount(FetcherGroups)), started := FirstSlots, settled := {})
  }

  /** `fetchData` with the count restarted, as a second fetch needs. */
  function StartFetchReset(s: FetchState): (r: FetchState)
    ensures r.progress == FetchingProgress(9, 0)
  {
    SlotsAreTheFetchers();
    s.(progress := FetchingProgress(FetcherCount(FetcherGroups), 0), started := FirstSlots, settled := {})
  }

  /** The chains keep their shape: what settled was started, and a later fetcher starts only after its predecessor settled. */
  predicate ChainInvariant(s: FetchState) {
    && s.settled <= s.started
    && s.started <= AllSlots
    && (forall slot :: slot in s.started && slot.1 > 0 ==> (slot.0, slot.1 - 1) in s.settled)
  }

  lemma StartEstablishesInvariant(s: FetchState)
    ensures ChainInvariant(StartFetch(s)) && ChainInvariant(StartFetchReset(s))
    ensures StartFetch(s).settled == {} && StartFetchReset(s).settled == {}
  {
  }

  lemma CompletePreservesInvariant(s: FetchState, c: Completion)
    requires ChainInvariant(s) && Enabled(s, c)
    ensures ChainInvariant(Complete(s, c))
  {
    SlotsAreTheFetchers();
  }

  /** How many of the next `n` completions find the progress finished. */
  function Firings(p: FetchingProgress, n: nat): nat
    decreases n
  {
    if n == 0 then 0
    else Firings(p, n - 1) + (if p.(fetched := p.fetched + n).Finished() then 1 else 0)
  }

  /**
   * Over any run, every completion counts once, whatever the server
   * answered, each settles a different fetcher, and `_afterFetch` runs once
   * per completion that finds the progress finished.
   */
  lemma {:induction false} RunCounts(s: FetchState, cs: seq<Completion>)
    requires EnabledRun(s, cs)
    ensures Run(s, cs).progress == s.progress.(fetched := s.progress.fetched + |cs|)
    ensures Run(s, cs).afterFetchRuns == s.afterFetchRuns + Firings(s.progress, |cs|)
  {
    RunProgress(s, cs);
    RunFirings(s, cs);
  }

  lemma {:induction false} RunProgress(s: FetchState, cs: seq<Completion>)
    requires EnabledRun(s, cs)
    ensures Run(s, cs).progress == s.progress.(fetched := s.progress.fetched + |cs|)
    decreases |cs|
  {
    if cs != [] {
      RunProgress(Complete(s, cs[0]), cs[1..]);
    }
  }

  lemma {:induction false} RunFirings(s: FetchState, cs: seq<Completion>)
    requires EnabledRun(s, cs)
    ensures Run(s, cs).afterFetchRuns == s.afterFetchRuns + Firings(s.progress, |cs|)
    decreases |cs|
  {
    if cs != [] {
      var next, rest := Complete(s, cs[0]), cs[1..];
      assert |rest| + 1 == |cs|;
      RunFirings(next, rest);
      FiringsShift(s.progress, |rest|);
    }
  }

  /** Each completion of a run settles a fetcher that had not settled, and the chains keep their shape. */
  lemma {:induction false} RunSettles(s: FetchState, cs: seq<Completion>)
    requires ChainInvariant(s) && EnabledRun(s, cs)
    ensures ChainInvariant(Run(s, cs))
    ensures |Run(s, cs).settled| == |s.settled| + |cs|
    decreases |cs|
  {
    if cs != [] {
      var s' := Complete(s, cs[0]);
      CompletePreservesInvariant(s, cs[0]);
      RunSettles(s', cs[1..]);
    }
  }

  lemma {:induction false} FiringsShift(p: FetchingProgress, n: nat)
    ensures Firings(p, n + 1) == (if p.(fetched := p.fetched + 1).Finished() then 1 else 0)
                                 + Firings(p.(fetched := p.fetched + 1), n)
    decreases n
  {
    if n > 0 {
      FiringsShift(p, n - 1);
    }
  }

  /** No run settles more fetchers than there are. */
  lemma RunLength(s: FetchState, cs: seq<Completion>)
    requires ChainInvariant(s) && EnabledRun(s, cs)
    ensures |s.settled| + |cs| <= 9
  {
    RunSettles(s, cs);
    AllSlotsCount();
    var r := Run(s, cs);
    SubsetSize(r.settled, AllSlots);
  }

  lemma HasSlot(a: set<Slot>)
    requires a != {}
    ensures exists x :: x in a
  {
    if forall x :: x !in a {
      assert false;
    }
  }

  lemma {:induction false} SubsetSize(a: set<Slot>, b: set<Slot>)
    requires a <= b
    ensures |a| <= |b|
    decreases |a|
  {
    if a != {} {
      HasSlot(a);
      var x :| x in a;
      SubsetSize(a - {x}, b - {x});
    }
  }

  lemma {:induction false} FiringsFromZero(n: nat)
    ensures Firings(FetchingProgress(9, 0), n) == if n >= 9 then n - 8 else 0
    decreases n
  {
    if n > 0 {
      FiringsFromZero(n - 1);
    }
  }

  lemma {:induction false} FiringsWhenFinished(p: FetchingProgress, n: nat)
    requires p.Finished()
    ensures Firings(p, n) == n
    decreases n
  {
    if n > 0 {
      FiringsWhenFinished(p, n - 1);
    }
  }

  /**
   * A fetch that starts counting from zero rebaselines exactly once, on the
   * ninth completion, and leaves `originalData` equal to `data` then.
   */
  lemma ResetFetchRebaselinesOnce(s: FetchState, cs: seq<Completion>)
    requires EnabledRun(StartFetchReset(s), cs)
    ensures |cs| <= 9
    ensures Run(StartFetchReset(s), cs).afterFetchRuns == s.afterFetchRuns + (if |cs| == 9 then 1 else 0)
    ensures |cs| == 9 ==> Run(StartFetchReset(s), cs).progress.Finished()
  {
    var s0 := StartFetchReset(s);
    StartEstablishesInvariant(s);
    RunLength(s0, cs);
    RunCounts(s0, cs);
    FiringsFromZero(|cs|);
  }

  /** The last completion of a full run is the one that rebaselined, so the snapshots agree afterwards. */
  lemma {:induction false} FinishedRunIsRebaselined(s: FetchState, cs: seq<Completion>)
    requires EnabledRun(s, cs) && cs != []
    requires Run(s, cs).progress.Finished()
    ensures Run(s, cs).originalData == Run(s, cs).data
    decreases |cs|
  {
    if |cs| > 1 {
      FinishedRunIsRebaselined(Complete(s, cs[0]), cs[1..]);
    }
  }

  /**
   * `fetchData` as written keeps the old `fetched`: after one full fetch
   * every completion of the next one already finds the progress finished
   * and rebaselines, with only part of the data refreshed.
   */
  lemma RefetchRebaselinesOnEveryCompletion(s: FetchState, cs: seq<Completion>)
    requires s.progress == FetchingProgress(9, 9)
    requires EnabledRun(StartFetch(s), cs)
    ensures Run(StartFetch(s), cs).afterFetchRuns == s.afterFetchRuns + |cs|
  {
    var s0 := StartFetch(s);
    StartEstablishesInvariant(s);
    RunCounts(s0, cs);
    FiringsWhenFinished(s0.progress, |cs|);
  }

  /**
   * On a store that has never fetched, `fetchData` as written behaves like
   * the corrected start: it rebaselines exactly once, on the ninth
   * completion.
   */
  lemma FirstFetchRebaselinesOnce(s: FetchState, cs: seq<Completion>)
    requires s.progress.fetched == 0
    requires EnabledRun(StartFetch(s), cs)
    ensures |cs| <= 9
    ensures Run(StartFetch(s), cs).afterFetchRuns == s.afterFetchRuns + (if |cs| == 9 then 1 else 0)
    ensures |cs| == 9 ==> Run(StartFetch(s), cs).progress.Finished()
  {
    assert StartFetch(s) == StartFetchReset(s);
    ResetFetchRebaselinesOnce(s, cs);
  }

  /** A concrete refetch: the first fetcher to answer already rebaselines. */
  lemma RefetchFirstCompletionRebaselines(d: StateData, o: StateData)
    ensures var s := StartFetch(FetchState(FetchingProgress(9, 9), {}, {}, d, o, 1));
            var c := Completion((0, 0), Failure);
            Enabled(s, c) && Complete(s, c).afterFetchRuns == 2
  {
    var s := StartFetch(FetchState(FetchingProgress(9, 9), {}, {}, d, o, 1));
    assert (0, 0) in FirstSlots;
    SlotsAreTheFetchers();
  }

  /**
   * Settling happens along the chains: whenever a run settles the second
   * fetcher of a group (the driving-time matrix), the first one (the
   * locations) settled earlier in the run or before it.
   */
  lemma {:induction false} ChainOrder(s: FetchState, cs: seq<Completion>, j: int)
    requires ChainInvariant(s) && EnabledRun(s, cs)
    requires 0 <= j < |cs| && cs[j].slot.1 > 0
    ensures (cs[j].slot.0, cs[j].slot.1 - 1) in s.settled
         || exists i :: 0 <= i < j && cs[i].slot == (cs[j].slot.0, cs[j].slot.1 - 1)
    decreases j
  {
    var prev := (cs[j].slot.0, cs[j].slot.1 - 1);
    if j > 0 {
      var s' := Complete(s, cs[0]);
      CompletePreservesInvariant(s, cs[0]);
      ChainOrder(s', cs[1..], j - 1);
      if prev !in s'.settled {
        var i :| 0 <= i < j - 1 && cs[1..][i].slot == prev;
        assert cs[i + 1].slot == prev;
      } else if prev !in s.settled {
        assert cs[0].slot == prev;
      }
    }
  }

  /** Right after a rebaseline, the changeset is empty for every kind. */
  lemma AfterFetchChangesetIsEmpty(s: FetchState, c: Completion)
    requires Enabled(s, c)
    requires Complete(s, c).progress.Finished()
    ensures MakeChangeset(Complete(s, c).originalData, Complete(s, c).data).IsEmpty()
  {
    SelfChangesetIsEmpty(Complete(s, c).data);
  }

  /** The nine fetchers, group after group. */
  const GroupOrder: seq<Slot> := [(0, 0), (1, 0), (2, 0), (3, 0), (4, 0), (4, 1), (5, 0), (6, 0), (7, 0)]

  /** One completion per fetcher, group after group, the `i`-th answered with `answers[i]`. */
  function InOrder(answers: seq<Response>): (cs: seq<Completion>)
    requires |answers| == 9
    ensures |cs| == 9 && forall i :: 0 <= i < 9 ==> cs[i] == Completion(GroupOrder[i], answers[i])
  {
    [Completion(GroupOrder[0], answers[0]), Completion(GroupOrder[1], answers[1]), Completion(GroupOrder[2], answers[2]),
     Completion(GroupOrder[3], answers[3]), Completion(GroupOrder[4], answers[4]), Completion(GroupOrder[5], answers[5]),
     Completion(GroupOrder[6], answers[6]), Completion(GroupOrder[7], answers[7]), Completion(GroupOrder[8], answers[8])]
  }

  /**
   * Whether a run is allowed depends only on which fetchers have started
   * and settled: this is `EnabledRun` with the data left out.
   */
  predicate Schedulable(started: set<Slot>, settled: set<Slot>, cs: seq<Completion>)
    decreases |cs|
  {
    cs == [] ||
    (&& ValidSlot(cs[0].slot) && cs[0].slot in started && cs[0].slot !in settled
     && Schedulable(started + Successor(cs[0].slot), settled + {cs[0].slot}, cs[1..]))
  }

  lemma {:induction false} SchedulableRunIsEnabled(s: FetchState, cs: seq<Completion>)
    requires Schedulable(s.started, s.settled, cs)
    ensures EnabledRun(s, cs)
    decreases |cs|
  {
    if cs != [] {
      SchedulableRunIsEnabled(Complete(s, cs[0]), cs[1..]);
    }
  }

  /** One allowed completion in front of a schedulable rest. */
  lemma ScheduleOne(started: set<Slot>, settled: set<Slot>, cs: seq<Completion>, k: int)
    requires 0 <= k < |cs| && ValidSlot(cs[k].slot)
    requires cs[k].slot in started && cs[k].slot !in settled
    requires Schedulable(started + Successor(cs[k].slot), settled + {cs[k].slot}, cs[k + 1..])
    ensures Schedulable(started, settled, cs[k..])
  {
    assert cs[k..][1..] == cs[k + 1..];
  }

  /** Completing the fetchers group after group is always allowed from the start of a fetch. */
  lemma GroupOrderIsSchedulable(answers: seq<Response>)
    requires |answers| == 9
    ensures Schedulable(FirstSlots, {}, InOrder(answers))
  {
    var cs := InOrder(answers);
    var st1, se1 := FirstSlots + Successor(cs[0].slot), {} + {cs[0].slot};
    var st2, se2 := st1 + Successor(cs[1].slot), se1 + {cs[1].slot};
    var st3, se3 := st2 + Successor(cs[2].slot), se2 + {cs[2].slot};
    var st4, se4 := st3 + Successor(cs[3].slot), se3 + {cs[3].slot};
    var st5, se5 := st4 + Successor(cs[4].slot), se4 + {cs[4].slot};
    var st6, se6 := st5 + Successor(cs[5].slot), se5 + {cs[5].slot};
    var st7, se7 := st6 + Successor(cs[6].slot), se6 + {cs[6].slot};
    var st8, se8 := st7 + Successor(cs[7].slot), se7 + {cs[7].slot};
    assert Schedulable(st8 + Successor(cs[8].slot), se8 + {cs[8].slot}, cs[9..]);
    ScheduleOne(st8, se8, cs, 8);
    ScheduleOne(st7, se7, cs, 7);
    ScheduleOne(st6, se6, cs, 6);
    ScheduleOne(st5, se5, cs, 5);
    ScheduleOne(st4, se4, cs, 4);
    ScheduleOne(st3, se3, cs, 3);
    ScheduleOne(st2, se2, cs, 2);
    ScheduleOne(st1, se1, cs, 1);
    ScheduleOne(FirstSlots, {}, cs, 0);
    assert cs[0..] == cs;
  }

  /**
   * A full fetch from the reset start settles all nine fetchers, whatever
   * each one answered: the run is allowed, `_afterFetch` runs exactly once,
   * and it leaves `originalData` equal to `data`.
   */
  lemma FullFetchRebaselinesOnce(s: FetchState, answers: seq<Response>)
    requires |answers| == 9
    ensures EnabledRun(StartFetchReset(s), InOrder(answers))
    ensures Run(StartFetchReset(s), InOrder(answers)).afterFetchRuns == s.afterFetchRuns + 1
    ensures Run(StartFetchReset(s), InOrder(answers)).originalData == Run(StartFetchReset(s), InOrder(answers)).data
  {
    var cs := InOrder(answers);
    var s0 := StartFetchReset(s);
    GroupOrderIsSchedulable(answers);
    SchedulableRunIsEnabled(s0, cs);
    ResetFetchRebaselinesOnce(s, cs);
    FinishedRunIsRebaselined(s0, cs);
  }

  /** A fresh progress is not finished, however many fetchers have settled into it before a total is set. */
  lemma FreshProgressIsNotFinished()
    ensures !FreshProgress.Finished()
    ensures forall n: int :: !FreshProgress.(fetched := n).Finished()
  {
  }
}
