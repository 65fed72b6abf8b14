# Local working copy and sync engine of the tour editor

This project models the data core of the Chlaus tour editor in Dafny. The editor keeps two
snapshots of the server's data: `originalData`, as last fetched, and `data`, the user's working
copy. Four pieces work on them:

- **The changeset.** It diffs the two snapshots, kind by kind, into added, changed and removed
  records. "Changed" uses the attribute-wise `modelEquals`, under which two dates within one second
  of each other count as equal.
- **The upload.** It commits a changeset. Each of the seven kinds runs its creates, one id
  reconciliation (`handleIdChangeAfterApiCreate`), its updates and its destroys, and collects the
  API-error bodies. The kinds run in two stages: the top-level kinds first, then the child kinds.
  The per-kind results are folded into `(successes, errors)`, or the first rejection is rethrown.
  The upload takes a `Reconciliation` parameter. `AsWritten` is the program's reconciliation, and
  `Corrected` is the fix described under "Findings".
- **The fetch bookkeeping.** Nine fetchers in eight promise chains each count a completion. The
  completion that finishes the progress re-baselines `originalData` from `data`.
- **The undo/redo plugin.** It keeps a stack of snapshots with a cursor. A one-shot flag keeps the
  store's own patch out of the history.

It also models the older, URL-based helpers:

- `extractId`, and `getJwlersOfTour`;
- the `unassignedClients` getter;
- `getJwlerUrl`;
- `sortAndUnique` and `groupBy`;
- the id allocators and the tour-element editing helpers (`popTourElement`, `addTourElement`).

Modules, one per source concern:

| module | file | models |
|---|---|---|
| `Wrappers` | wrappers.dfy | `Option` |
| `JsText` | js_text.dfy | the JavaScript string and number primitives the code relies on: `lastIndexOf`, `substring`, `parseInt`, number-to-string, code-unit string order |
| `Util` | util.dfy | Map iteration order, `mapEntryDiff`, `flattenMapToArray`, `arrayEquals`, `groupBy`, `sortAndUnique` |
| `Entities` | entities.dfy | the seven record kinds and `modelEquals` |
| `Snapshot` | snapshot.dfy | `StateData`, `_assign`, `countVisits`, `getUnassignedClients` |
| `Changesets` | changeset.dfy | `Changeset`, `ModelChangeset` |
| `Store` | store.dfy | `fetchData`, `FetchingProgress`, `_afterFetch` |
| `ModelUtils` | model_utils.dfy | `handleIdChangeAfterApiCreate`, `handleAfterApiDestroy`, `popTourElement`, `addTourElement`, the id allocators |
| `Upload` | upload.dfy | `_uploadModelChangeset`, `upload` |
| `UndoRedo` | undo_redo.dfy | the undo/redo plugin |
| `Legacy` | legacy.dfy | the URL-based store: `extractId`, `getJwlersOfTour`, `unassignedClients` |
| `ApiUrls` | api_url.dfy | `API_URL`, `getJwlerUrl` |

Modelling choices:

- **The remote API is an oracle.** A `Server` is a function from the kind, the position of the
  request within that kind's upload, and the request, to an outcome: `Ok(record)`,
  `ApiError(body)`, or `Fatal(reason)` for any other exception.
- **Shared mutable records become values.**
  - The changeset holds the working store's own record objects. When stage A creates a parent
    under a new id, the reconciliation points every record of the parent's old group at the new id.
    It does this in both versions, before it deletes the group. Stage B therefore sends its added
    and changed records re-pointed by the id changes of every stage-A kind that reached its
    reconciliation (`Upload.Retag`). A kind whose creates a non-API failure aborted rethrows before
    `handleIdChangeAfterApiCreate`, so its id changes re-point nothing and its store stays as it
    was. The two versions differ only in whether the moved groups are written back to the store.
  - `oldObj.id = newId` becomes a rename of every stored record equal to `oldObj` by value (`ModelUtils.RenameOne`).
- **Map iteration follows ascending key order.** Every result stated about it (membership, counts,
  sets of ids) holds for any order.
- **The record kinds are assumed.** The record classes live in `@/api`, which is not part of this
  model. Their fields, and the attribute list `modelEquals` walks for each kind, follow the way
  src/model/model_utils.ts and src/model/store.ts use them.

## Model

| member | source | states |
|---|---|---|
| JsText.LastIndexOf | src/model_utils.ts:26 | `lastIndexOf(c, from)` returns the last index at or before the clamped `from` that holds `c`, or -1; no later position up to `from` holds `c` |
| JsText.Substring | src/model_utils.ts:26 | `substring(start, end)` yields the slice between the two bounds, swapping them when `end < start` |
| JsText.IntToString | src/api_url_builder.ts:4 | a number interpolated into a string is a run of decimal digits, with a leading `-` when negative |
| JsText.NoSlashInNumber | src/api_url_builder.ts:4 | the text of a number never contains "/", so it survives `extractId` |
| JsText.ParseInt | src/model_utils.ts:33 | `parseInt` is `NaN` exactly when no digit follows the optional sign |
| JsText.ParseIntRoundTrip | src/model_utils.ts:33 | `parseInt` of a number's decimal text gives that number back, negative ones included |
| JsText.CodeUnits | src/util.ts:7 | a character is one UTF-16 code unit, or a pair whose first unit is a high surrogate when it lies above U+FFFF; every unit is below 0x10000 |
| JsText.Utf16 | src/util.ts:7 | a string has between one and two code units per character |
| JsText.CodeUnitsInjective | src/util.ts:7 | two characters with the same code units are the same character |
| JsText.Utf16Injective | src/util.ts:7 | two strings with the same code units are the same string, so the code-unit order tells any two strings apart |
| JsText.UnitsLessIrreflexive | src/util.ts:7 | no code-unit sequence sorts before itself |
| JsText.UnitsLessTransitive | src/util.ts:7 | the lexicographic code-unit order is transitive |
| JsText.UnitsLessTotal | src/util.ts:7 | of two different code-unit sequences, one sorts before the other |
| JsText.StrLess | src/util.ts:7 | the empty string sorts before every other string; two strings starting with different characters below U+10000 sort by those characters |
| JsText.SurrogatePairSortsBeforeHighBmp | src/util.ts:7 | U+10000 sorts before U+FF61 although its code point is larger: `sort()` orders by code unit, not by code point |
| JsText.StrLessIrreflexive | src/util.ts:7 | the code-unit order `sort()` uses on strings is irreflexive |
| JsText.StrLessTransitive | src/util.ts:7 | the code-unit string order is transitive |
| JsText.StrLessTotal | src/util.ts:7 | any two distinct strings are ordered one way or the other |
| JsText.StrLessAsymmetric | src/util.ts:7 | no two strings are each less than the other |
| Util.SortedKeys | src/changeset.ts:42 | the key walk used for every Map iteration visits each key of the map exactly once, in ascending order |
| Util.KeysInOrder | src/model/store.ts:54 | a `Map.forEach` walk reaches every key, and no key twice |
| Util.KeysOnlyIn | src/changeset.ts:42 | the keys of one map that the other lacks, each once |
| Util.CommonKeys | src/changeset.ts:42 | the keys both maps hold, each once |
| Util.MapEntryDiff | src/changeset.ts:42 | `mapEntryDiff` splits the keys into added (working only), common (both) and removed (original only); the values are the working values, the (original, working) pairs and the original values of those keys |
| Util.AddedValues | src/changeset.ts:42 | a value is reported as added exactly when some key of the working map, absent from the original, holds it |
| Util.RemovedValues | src/changeset.ts:42 | a value is reported as removed exactly when some key of the original, absent from the working map, holds it |
| Util.ArrayEqualsIsEquality | src/model/model_utils.ts:328-329 | `arrayEquals` holds exactly for element-wise equal arrays of equal length |
| Util.FlattenMapToArray | src/changeset.ts:18-21 | every grouped record is reachable under its own id, and everything reachable comes from some group |
| Util.FlattenKeysCovers | src/changeset.ts:18-21 | flattening the groups in key order covers every group and invents nothing |
| Util.GroupBy | src/util.ts:14-28 | there is a group for exactly the keys some object yields; each group holds the objects with that key, in input order |
| Util.GroupMembersHaveKey | src/util.ts:18-25 | every member of a group yields that group's key |
| Util.GroupsPartitionInput | src/util.ts:14-28 | each input object lands, as often as it occurs, in the group of its key and in no other |
| Util.GroupKeepsOrder | src/util.ts:19-25 | each group is a subsequence of the input |
| Util.FilterCounts | src/util.ts:19-25 | collecting one key's objects keeps every occurrence of the objects with that key and none of the others |
| Util.FilterOrder | src/util.ts:19-25 | collecting one key's objects preserves their relative order |
| Util.Insert | src/util.ts:7 | inserting into a sorted duplicate-free list keeps it so, adding just the new element |
| Util.SortAndUnique | src/util.ts:6-8 | the result is strictly sorted and holds exactly the distinct input elements |
| Util.SortedHasNoDuplicates | src/util.ts:6-8 | a strictly sorted result has no repeated element |
| Util.SortedListIsUnique | src/util.ts:6-8 | two strictly sorted lists with the same members are equal |
| Util.SortAndUniqueIsCanonical | src/util.ts:6-8 | inputs with the same members give the same result, and an already sorted duplicate-free input comes back unchanged |
| Entities.Attributes | src/model/model_utils.ts:322 | every kind's attribute list has at least two entries and starts with the id, compared plainly |
| Entities.ModelEquals | src/model/model_utils.ts:317-339 | records that compare equal have the same id and the same kind |
| Entities.ModelEqualsReflexive | src/model/model_utils.ts:317-339 | every record equals itself |
| Entities.ModelEqualsSymmetric | src/model/model_utils.ts:317-339 | `modelEquals(a, b)` and `modelEquals(b, a)` agree |
| Entities.TourElementEquality | src/model/model_utils.ts:322-334 | two tour elements are equal iff id, tour, type and visited client match and start and end are each within a second |
| Entities.TourEquality | src/model/model_utils.ts:322-334 | two tours are equal iff id, date, name and the jwler and element arrays match |
| Entities.ToleranceIsNotTransitive | src/model/model_utils.ts:326-327 | because of the one-second tolerance, equality is not transitive: starts 0, 600 and 1200 ms give equal, equal, unequal |
| Snapshot.Assign | src/model/store.ts:88-98 | `_assign` copies all nine fields of `other` |
| Snapshot.AssignForgetsReceiver | src/model/store.ts:88-98 | the result does not depend on the receiver, and assigning twice is assigning once |
| Snapshot.Visits | src/model/store.ts:55 | the filtered list holds exactly the visit elements, and is no longer than the group |
| Snapshot.PositionsInCount | src/model/store.ts:55 | a group contributes as many visit positions as it has visits |
| Snapshot.PositionsInSnoc | src/model/store.ts:55 | appending an element adds its position exactly when it is a visit |
| Snapshot.PositionsAmongStep | src/model/store.ts:54-56 | each further group adds its own visit count to the sum |
| Snapshot.CountVisits | src/model/store.ts:52-58 | `countVisits` is the number of visit elements over all groups |
| Snapshot.VisitPositionsIgnoreVisitFreeGroup | src/model/store.ts:52-58 | a group without visits does not change the count |
| Snapshot.ClientsVisitedStep | src/model/store.ts:78-82 | each further element of a group adds its client, if it has one |
| Snapshot.RefsAmongStep | src/model/store.ts:74-84 | each further tour adds the clients its elements visit |
| Snapshot.RefsAmongAll | src/model/store.ts:74-84 | walking all tours collects exactly the clients visited by an element of an existing tour |
| Snapshot.DropVisited | src/model/store.ts:77-83 | the inner loop deletes exactly the clients the group's elements visit |
| Snapshot.GetUnassignedClients | src/model/store.ts:72-86 | a client is unassigned iff no element in an existing tour's group visits it; its record is kept unchanged |
| Snapshot.OrphanGroupsDoNotAssign | src/model/store.ts:74-76 | a group whose key is no tour's id assigns nobody |
| Snapshot.VisitedClientIsAssigned | src/model/store.ts:75-81 | a client visited by an element of an existing tour is not unassigned |
| Changesets.ChangedOf | src/changeset.ts:44 | a record is listed as changed exactly when some common pair, with it as the working side, fails the comparison |
| Changesets.ChangedOfCommonPairs | src/changeset.ts:42-44 | over the common pairs of `mapEntryDiff`, changed means: the key is in both maps and the two values differ |
| Changesets.ChangedSide | src/changeset.ts:42-44 | the changed list holds exactly the working values of common keys whose values differ |
| Changesets.DiffBy | src/changeset.ts:41-46 | `ModelChangeset` lists as added exactly the values of new keys, as changed exactly the working values of common keys that differ, and as removed exactly the values of vanished keys |
| Changesets.MakeModelChangeset | src/changeset.ts:41-46 | one added record per key only the working map has, one removed record per key only the original has, and at most one changed record per shared key, each the working record under a shared key |
| Changesets.ChangesetIdsAreDistinct | src/changeset.ts:41-46 | with both collections keyed by id, no id is listed twice as added, as changed or as removed, so no record is created, updated or destroyed twice |
| Changesets.ClassificationByKey | src/changeset.ts:41-46 | for records stored under their ids, an id is added iff only the working copy has it, changed iff both have it with unequal records, removed iff only the original has it |
| Changesets.AddedById | src/changeset.ts:42-43 | the added list holds a record with a given id iff only the working copy holds that id |
| Changesets.ChangedById | src/changeset.ts:44 | the changed list holds a record with a given id iff both copies hold it with unequal records |
| Changesets.RemovedById | src/changeset.ts:42-45 | the removed list holds a record with a given id iff only the original holds that id |
| Changesets.SelfDiffIsEmpty | src/changeset.ts:41-46 | a map diffed against itself gives an empty changeset |
| Changesets.ReflexiveSelfDiff | src/changeset.ts:41-46 | for any reflexive comparison, diffing a map with itself finds nothing |
| Changesets.Flatten | src/changeset.ts:18-21 | flattening grouped records stores each under its own id, and exactly the ids of the grouped records |
| Changesets.FlattenedKeys | src/changeset.ts:18-21 | any map that covers the groups and holds only grouped records has exactly their ids as keys |
| Changesets.FlattenedRecord | src/changeset.ts:18-21 | with unique ids, a grouped record is found under its id in the flattened map |
| Changesets.FlattenedFrom | src/changeset.ts:18-21 | every flattened record comes from some group position |
| Changesets.SelfChangesetIsEmpty | src/changeset.ts:16-33 | the changeset of a snapshot against itself is empty in all seven kinds |
| Changesets.MakeChangeset | src/changeset.ts:16-33 | for jwlers, clients, locations, tours and tour elements, as many records are added as the working copy has new ids and as many removed as it lost |
| Changesets.KeyClassification | src/changeset.ts:41-46 | a working record is added iff its key is new, and changed iff its key is shared and the values differ |
| Changesets.NothingNewOrChanged | src/changeset.ts:41-46 | when every working key exists in the original with an equal value, nothing is added or changed |
| Changesets.GroupedRecordAdded | src/changeset.ts:18-21 | a record of a grouped kind is added iff no original group holds its id, whatever group it sits in |
| Changesets.GroupedRecordChangedOnlyIf | src/changeset.ts:18-21 | a grouped record is listed as changed only when its id was in the original and the original record differs |
| Changesets.GroupedRecordChangedIf | src/changeset.ts:18-21 | a grouped record whose id was in the original with a differing record is listed as changed |
| Changesets.RecordClassification | src/changeset.ts:41-46 | a record stored under its id is added iff its id is new; it is changed iff its id is old and the old record differs |
| Changesets.RegroupingIsNotAChange | src/changeset.ts:18-21 | moving unchanged records between groups adds and changes nothing |
| Changesets.RegroupedRecord | src/changeset.ts:18-21 | a moved record is found under its id in the original, unchanged |
| Store.FetcherCountIsNine | src/model/store.ts:213 | the total of the fetcher groups is nine, the value of `FETCHED_ENTITY_TYPE_COUNT` in src/const.ts |
| Store.AllSlotsCount | src/model/store.ts:135-212 | there are nine distinct fetchers |
| Store.ValidSlots | src/model/store.ts:135-212 | a slot names a fetcher iff it is a (group, position) of the fetcher table; the first slots are position 0 of each group |
| Store.SlotsAreTheFetchers | src/model/store.ts:135-213 | the fetcher slots are exactly the table's positions, nine of them, matching the total |
| Store.Upsert | src/model/store.ts:140 | after `response.forEach(j => set(j.id, j))`, the keys are the old keys plus the ids of the response |
| Store.UpsertLastWins | src/model/store.ts:140 | the last response record with an id is the one stored under it |
| Store.UpsertKeepsOthers | src/model/store.ts:140 | keys the response does not mention keep their records |
| Store.UpsertKeepsKeyedById | src/model/store.ts:140 | if every record sat under its own id, it still does |
| Store.FetchedElementsAreGroupedByTour | src/model/store.ts:195-203 | after the tour-element fetch, each fetched tour's group holds only fetched elements of that tour |
| Store.ApplyResponse | src/model/store.ts:135-212 | a fetcher writes only its own collection, and a failed or mismatched answer changes nothing. No collection loses a key. The matrix and base location become the answer, and every fetched tour is stored under its id |
| Store.Complete | src/model/store.ts:214-229 | a completion applies its fetcher's answer to `data`, counts one more fetch, settles its fetcher and starts the next fetcher of its group. It re-baselines `originalData` from `data` exactly when the progress is then finished |
| Store.StartFetch | src/model/store.ts:213-230 | `fetchData` sets the total to the nine fetchers and leaves the fetched count as it was |
| Store.StartFetchReset | src/model/store.ts:213-230 | the corrected start counts from zero of nine |
| Store.StartEstablishesInvariant | src/model/store.ts:221-230 | after the start, only the first fetcher of each group runs, and nothing has settled |
| Store.CompletePreservesInvariant | src/model/store.ts:218-223 | a fetcher is started only after its predecessor in the chain settled, and settles at most once |
| Store.RunCounts | src/model/store.ts:224-227 | after n completions the count rose by n, and `_afterFetch` ran once per completion that found the progress finished |
| Store.RunSettles | src/model/store.ts:214-229 | each completion settles a distinct fetcher |
| Store.FiringsShift | src/model/store.ts:224-227 | the re-baseline count of a run is the first step's firing plus that of the rest |
| Store.RunLength | src/model/store.ts:214-230 | no run of one fetch completes more than nine fetchers |
| Store.FiringsFromZero | src/model/store.ts:34-36 | counting from zero of nine, only the ninth and later completions find the progress finished |
| Store.FiringsWhenFinished | src/model/store.ts:34-36 | once the progress is finished, every further completion fires `_afterFetch` |
| Store.ResetFetchRebaselinesOnce | src/model/store.ts:224-227 | with the count restarted, a fetch re-baselines exactly once, when its ninth fetcher completes |
| Store.FirstFetchRebaselinesOnce | src/model/store.ts:213-227 | on a store that has never fetched, `fetchData` as written re-baselines exactly once, when the ninth fetcher completes |
| Store.FinishedRunIsRebaselined | src/model/store.ts:225-234 | when a run ends finished, `originalData` equals `data` |
| Store.SchedulableRunIsEnabled | src/model/store.ts:214-229 | whether a run of completions is allowed depends only on which fetchers have started and settled |
| Store.GroupOrderIsSchedulable | src/model/store.ts:135-229 | completing the fetchers group after group, the matrix right after the locations, is allowed from the start of a fetch |
| Store.FullFetchRebaselinesOnce | src/model/store.ts:213-234 | from the reset start, completing all nine fetchers is allowed whatever each answers; `_afterFetch` runs exactly once, and `originalData` then equals `data` |
| Store.RefetchRebaselinesOnEveryCompletion | src/model/store.ts:213-227 | as written, a second fetch re-baselines on every completion, because `fetched` is never reset |
| Store.RefetchFirstCompletionRebaselines | src/model/store.ts:213-227 | a second fetch re-baselines on its very first completion, a failed one included |
| Store.ChainOrder | src/model/store.ts:221-223 | the second fetcher of a group (the driving-time matrix) completes only after the first (the locations) |
| Store.AfterFetchChangesetIsEmpty | src/model/store.ts:225-234 | right after the re-baseline the changeset getter reports no changes |
| Store.FreshProgressIsNotFinished | src/model/store.ts:26-37 | a progress with no total yet is never finished, whatever the count |
| ModelUtils.RetagAll | src/model/model_utils.ts:355 | every moved child gets the new parent id and nothing else changes in its position |
| ModelUtils.MoveGroupsRemaining | src/model/model_utils.ts:349-372 | the groups of renamed parents are deleted from the store's map and all others stay |
| ModelUtils.MoveGroupsDeferred | src/model/model_utils.ts:349-372 | a renamed parent's group is collected under the new id, each child retagged |
| ModelUtils.MoveGroupsDeferredKeys | src/model/model_utils.ts:349-372 | a collected group belongs to a renamed parent that had a group |
| ModelUtils.RenameOneMatches | src/model/model_utils.ts:374 | the first id change for a record gives it the new id |
| ModelUtils.RenameOneMisses | src/model/model_utils.ts:374 | a record no change names keeps its id |
| ModelUtils.RenameOtherKind | src/model/model_utils.ts:374 | id changes of another kind leave a record alone |
| ModelUtils.IdPairs | src/model/model_utils.ts:350-351 | the (old id, new id) pair of each change, in order |
| ModelUtils.RenamesOfOneKind | src/model/model_utils.ts:352-372 | when all changes are of one kind, only that kind's branch moves groups, and it moves them for every change |
| ModelUtils.HandleIdChangeAsWritten | src/model/model_utils.ts:344-377 | as written: the top-level maps keep their keys, the matrix and base location stay, and the client and jwler availability maps lose exactly the groups of the renamed parents |
| ModelUtils.HandleIdChangeAfterApiCreate | src/model/model_utils.ts:344-377 | corrected: the top-level maps keep their keys, the matrix and base location stay, and every child group whose parent was not renamed stays in its map |
| ModelUtils.RenameGroupsOtherKind | src/model/model_utils.ts:374 | renaming records of one kind leaves groups without such records unchanged |
| ModelUtils.RenameMapOtherKind | src/model/model_utils.ts:374 | renaming records of one kind leaves a map without such records unchanged |
| ModelUtils.MovedGroupNotRenamed | src/model/model_utils.ts:374 | a group whose records are of no renamed kind is kept as it is |
| ModelUtils.TourRenameMovesElements | src/model/model_utils.ts:352-376 | the elements of a renamed tour end up under its new id, each pointing at the new tour id |
| ModelUtils.TourRenameDropsOldKey | src/model/model_utils.ts:352-358 | no group remains under a renamed tour's old id |
| ModelUtils.AsWrittenDropsAvailabilityGroups | src/model/model_utils.ts:359-376 | as written, a client or jwler rename deletes the old group and never re-inserts it |
| ModelUtils.ClientGroupsDropped | src/model/model_utils.ts:359-365 | as written, the client availability keys lose the renamed clients' old ids |
| ModelUtils.JWlerGroupsDropped | src/model/model_utils.ts:366-372 | as written, the jwler availability keys lose the renamed jwlers' old ids |
| ModelUtils.ClientRenameMovesAvailabilities | src/model/model_utils.ts:359-365 | corrected: a renamed client's availabilities end up under its new id, each pointing at it |
| ModelUtils.JWlerRenameMovesAvailabilities | src/model/model_utils.ts:366-372 | corrected: a renamed jwler's availabilities end up under its new id, each pointing at it |
| ModelUtils.AsWrittenLosesCreatedClientsAvailabilities | src/model/model_utils.ts:359-376 | as written, a created client's availabilities vanish under both ids; corrected, they sit under the new id |
| ModelUtils.CreatedClientLosesAvailabilities | src/model/model_utils.ts:359-376 | client -1 with one availability, created as 42: as written no availability group remains; corrected, group 42 holds it retagged |
| ModelUtils.CreatedTourTakesNewId | src/model/model_utils.ts:374 | the stored record that was created gets the server's id, under its old key |
| ModelUtils.TourCreationTouchesOnlyTours | src/model/model_utils.ts:344-377 | renaming tours leaves jwlers, clients, locations and both availability maps as they were |
| ModelUtils.CreatedClientTakesNewId | src/model/model_utils.ts:374 | a created client gets the server's id, under its old key |
| ModelUtils.CreatedJWlerTakesNewId | src/model/model_utils.ts:374 | a created jwler gets the server's id, under its old key |
| ModelUtils.ClientCreationTouchesOnlyClients | src/model/model_utils.ts:344-377 | renaming clients leaves jwlers, locations, tours, tour elements and jwler availabilities as they were |
| ModelUtils.JWlerCreationTouchesOnlyJWlers | src/model/model_utils.ts:344-377 | renaming jwlers leaves clients, locations, tours, tour elements and client availabilities as they were |
| ModelUtils.HandleAfterApiDestroy | src/model/model_utils.ts:383-394 | destroying a tour, jwler or client deletes the group keyed by its id in the matching child map; everything else stays |
| ModelUtils.DestroyedTourLeavesNoElements | src/model/model_utils.ts:387-388 | with elements grouped by tour, no element of the destroyed tour remains, and every other element stays |
| ModelUtils.FindById | src/model/model_utils.ts:293 | `find` yields the first record with the id, or nothing when none has it |
| ModelUtils.WithoutId | src/model/model_utils.ts:298 | the filter keeps exactly the records with another id, in order |
| ModelUtils.WithoutValue | src/model/model_utils.ts:302-303 | the filter keeps exactly the other element ids, in order, and an absent id changes nothing |
| ModelUtils.PopTourElement | src/model/model_utils.ts:290-305 | the popped element is the first with the id. A one-element group is deleted; otherwise the group loses that id, keeping order. The tour's element ids lose it too, keeping order. Other groups, other tours and every other collection stay |
| ModelUtils.AddTourElement | src/model/model_utils.ts:307-315 | the element is appended to its tour's group (a new group when none existed) and its id to the tour's element ids. Other groups, other tours and every other collection stay |
| ModelUtils.WithoutFreshId | src/model/model_utils.ts:298 | filtering out the id of an appended fresh element gives the group back |
| ModelUtils.WithoutIdKeepsAll | src/model/model_utils.ts:298 | filtering by an id no element has keeps the group |
| ModelUtils.AddThenPopRestores | src/model/model_utils.ts:290-315 | popping an element right after adding it, with a fresh id, returns it and restores the data |
| ModelUtils.PopRestoresTours | src/model/model_utils.ts:302-314 | popping after adding restores the tours |
| ModelUtils.PopRestoresGroups | src/model/model_utils.ts:292-312 | popping after adding restores the groups, including deleting a group the add created |
| ModelUtils.PopUndoesAdd | src/model/model_utils.ts:292-312 | on the group map alone, pop undoes add |
| ModelUtils.FoundLast | src/model/model_utils.ts:293 | a freshly appended element is what `find` returns for its id |
| ModelUtils.FindNewTourId | src/model/model_utils.ts:125-131 | the new tour id is the least id from 1 upward not in use |
| ModelUtils.FindNewTourElementId | src/model/model_utils.ts:133-139 | the new element id is one more than the largest element id, and at least 2, so it exceeds every id in use |
| Upload.StepConsistent | src/model/upload.ts:120-148 | one loop iteration keeps the run in agreement with its log: errors, id changes, store and failure all follow from what was sent |
| Upload.Step | src/model/upload.ts:111-148 | after an abort nothing more is sent. Otherwise exactly the request is logged, at most one error body is appended to the kept ones, and only a create can record an id change |
| Upload.Steps | src/model/upload.ts:120-148 | a loop only extends the log, by at most one request per record, and by exactly one per record when it does not abort; no error body is lost |
| Upload.UploadModelChangeset | src/model/upload.ts:104-150 | one kind's upload makes at most one request per added, changed and removed record plus the reconciliation, and exactly that many when nothing aborts |
| Upload.StepAccounts | src/model/upload.ts:111-130 | one iteration adds to the errors, id changes and store exactly what its request's outcome accounts for |
| Upload.StepErrors | src/model/upload.ts:111-118 | an API error appends its body; other outcomes append nothing |
| Upload.StepRenames | src/model/upload.ts:122-125 | an accepted create with a different id records the pair (sent record, server record) |
| Upload.StepReplay | src/model/upload.ts:141-145 | an accepted destroy cascades into the store; other outcomes leave it |
| Upload.StepFatal | src/model/upload.ts:111-118 | a failure other than an API error aborts, with its reason, and only the last request can be such a failure |
| Upload.StepsConsistent | src/model/upload.ts:120-148 | a whole loop keeps the run consistent with its log |
| Upload.ReconcileConsistent | src/model/upload.ts:131 | the reconciliation keeps the run consistent |
| Upload.UploadIsConsistent | src/model/upload.ts:104-150 | one kind's upload ends with the API-error bodies, id changes and store that its log accounts for, aborted exactly when its last request failed otherwise |
| Upload.Calls | src/model/upload.ts:120-148 | one event per record of a loop |
| Upload.StepsLog | src/model/upload.ts:120-148 | a loop only appends to the log. When it completes it has sent one request per record, in order. An aborted run sends nothing more, and only creates record id changes |
| Upload.PlanPrefixes | src/model/upload.ts:120-139 | the creates, then the reconciliation, then the updates, in that order, begin the plan |
| Upload.AbortedCreatesFollowPlan | src/model/upload.ts:120-130 | an upload aborted during the creates has followed the plan so far |
| Upload.LaterLoopsFollowPlan | src/model/upload.ts:131-148 | after the creates, the upload follows the plan, completely when nothing aborted, and records no more id changes |
| Upload.UploadFollowsPlan | src/model/upload.ts:104-150 | the log is a prefix of: creates of the added records, one reconciliation with the id changes, updates, destroys; and all of it when nothing aborted |
| Upload.PlanAt | src/model/upload.ts:120-148 | position p of the plan is the p-th create, then the reconciliation, then only updates and destroys |
| Upload.FatalStopsTheUpload | src/model/upload.ts:111-118 | a fatal failure is the last request and its reason is rethrown; if it hit a create, nothing but creates was sent |
| Upload.ReconcilesIffCreatesSettle | src/model/upload.ts:111-131 | `handleIdChangeAfterApiCreate` runs exactly when no create failed with a non-API exception; when one did, the kind's upload leaves the store as it found it |
| Upload.CreatesKeepStore | src/model/upload.ts:120-129 | the create loop sends requests but never writes to the store |
| Upload.RenamedMembers | src/model/upload.ts:122-125 | the id changes are exactly the accepted creates whose returned id differs |
| Upload.IdChangesAreRenamedCreates | src/model/upload.ts:120-131 | the id changes handed to the reconciliation are exactly the added records the server accepted under another id, with the server's record |
| Upload.RenamedCreatesOfPlanLog | src/model/upload.ts:120-131 | in any log that follows the plan, the renamed pairs are exactly the accepted creates whose returned id differs |
| Upload.ErrorsAreApiErrorBodies | src/model/upload.ts:111-118 | the returned errors are the bodies of the API errors met, in order, and the store holds exactly the reconciliation and the accepted destroys' cascades |
| Upload.NoApiErrorsNoBodies | src/model/upload.ts:111-118 | a server without API errors yields no error bodies |
| Upload.AcceptingServerSettlesCleanly | src/model/upload.ts:104-150 | against a server that accepts everything, a kind's upload returns no errors and does not abort |
| Upload.KeyParsesBack | src/model/upload.ts:135 | the `id.toString()` key of an update or destroy parses back to the record's id |
| Upload.KindApi | src/model/upload.ts:41-102 | each kind calls the server's endpoints for that kind and keys records by id. Its reconciliation is the program's `handleIdChangeAfterApiCreate` (`AsWritten`) or the corrected one, and its cascade is `handleAfterApiDestroy` |
| Upload.NewParentId | src/model/model_utils.ts:348-372 | the new id of a parent of one kind: the first id change of that kind from the parent's old id, and none exactly when no change renames it |
| Upload.Repoint | src/model/model_utils.ts:355 | a child pointed at a parent names that parent, of the same kind, and keeps its id; it is unchanged exactly when the parent id is the old one |
| Upload.Retag | src/model/model_utils.ts:352-372 | re-pointing a stage-B record keeps its id and kind |
| Upload.RetagSeq | src/model/model_utils.ts:352-372 | each record of a list is re-pointed in its place |
| Upload.RetagNothing | src/model/model_utils.ts:352-372 | without id changes no record is re-pointed |
| Upload.Payload | src/model/model_utils.ts:355-368 | what a kind sends: the same records in the same places with the same ids and kinds, and the removed records untouched; a stage-A kind, or any kind when there are no id changes, sends its changeset as it is |
| Upload.PayloadFollowsRenamedParent | src/model/upload.ts:19-23 | a stage-B record whose parent stage A created under a new id is sent pointing at the new id, in both versions |
| Upload.PayloadKeepsUnrenamedParent | src/model/upload.ts:19-23 | a stage-B record whose parent no id change renamed is sent as the changeset holds it |
| Upload.IdChangesOf | src/model/upload.ts:120-131 | the id changes stage B sees are exactly those of the stage-A runs that reached their reconciliation; a kind aborted during its creates contributes none |
| Upload.StageRuns | src/model/upload.ts:13-23 | one upload per kind of the stage, with the chosen reconciliation |
| Upload.ChainAt | src/model/upload.ts:13-23 | in a chain of kind uploads, each kind starts from the store the kind before it left, the first from the given store |
| Upload.UploadRuns | src/model/upload.ts:13-23 | one upload for each of the seven kinds: stage A, then stage B on the store stage A left, with its payloads re-pointed by the id changes of the stage-A kinds that reconciled |
| Upload.StageRunAt | src/model/upload.ts:13-23 | each kind of a stage uploads its own payload on the store the kinds before it left |
| Upload.StageBSeesReconciledChanges | src/model/upload.ts:120-131 | an id change reaches stage B exactly when it belongs to a stage-A kind whose creates did not abort |
| Upload.StageAKindReconciles | src/model/upload.ts:120-131 | a stage-A kind reaches `handleIdChangeAfterApiCreate` exactly when none of its creates failed with a non-API exception |
| Upload.UploadResults | src/model/upload.ts:13-27 | one settled-or-rejected result per kind, in the order the aggregation reads them, for either reconciliation |
| Upload.CountsAddUp | src/model/upload.ts:27-34 | when nothing was rejected, every kind counts either as a success or as a kind with errors |
| Upload.Aggregate | src/model/upload.ts:25-38 | it throws iff some kind was rejected, and then with the first rejection's reason. Otherwise the successes are the kinds without errors, the errors are all kinds' errors in order, and successes plus errorful kinds make up all kinds |
| Upload.Upload | src/model/upload.ts:10-39 | `upload` throws iff one of the seven kinds was rejected, with the first reason; otherwise successes and errors as aggregated, successes plus errorful kinds making seven |
| Upload.Tagged | src/model/upload.ts:13-23 | one kind's events, each tagged with its kind |
| Upload.TraceTags | src/model/upload.ts:13-23 | every event of a stage's trace belongs to one of the stage's kinds |
| Upload.TraceSplits | src/model/upload.ts:13-23 | the trace of two stages is the first stage's trace followed by the second's |
| Upload.StageAPrecedesStageB | src/model/upload.ts:13-23 | once a child-kind request has been made, no top-level-kind request follows |
| Upload.StagesInOrder | src/model/upload.ts:13-23 | in the trace of four stage-A runs followed by three stage-B runs, nothing from stage A follows a stage-B event |
| Upload.StageRunsClean | src/model/upload.ts:13-23 | against an accepting server every kind of a stage settles without errors |
| Upload.AcceptingServerUploadsCleanly | src/model/upload.ts:10-39 | against an accepting server all seven kinds settle cleanly: seven successes, no errors |
| Upload.AllCleanCounts | src/model/upload.ts:27-34 | kinds that all settled without errors count each as a success |
| UndoRedo.Init | src/pinia_undo_redo.ts:8-11 | installing the plugin gives a one-snapshot history, in sync, with neither undo nor redo possible |
| UndoRedo.Undo | src/pinia_undo_redo.ts:30-37 | a possible undo steps the cursor back, raises the flag and puts the store in the snapshot under the cursor; otherwise nothing happens |
| UndoRedo.Redo | src/pinia_undo_redo.ts:38-45 | a possible redo steps the cursor forward, raises the flag and puts the store in that snapshot; otherwise nothing happens |
| UndoRedo.Clear | src/pinia_undo_redo.ts:46-51 | clearing keeps only the current state and raises the flag |
| UndoRedo.Notify | src/pinia_undo_redo.ts:52-68 | with the flag raised a change only lowers it. Otherwise the history keeps the snapshots up to the cursor, appends the new state, and moves the cursor onto it |
| UndoRedo.TransitionsKeepValid | src/pinia_undo_redo.ts:13-19 | every operation keeps the cursor inside the stack |
| UndoRedo.RecordedChangeEndsRedo | src/pinia_undo_redo.ts:58-62 | a recorded change makes undo possible and redo impossible |
| UndoRedo.UndoRevertsChange | src/pinia_undo_redo.ts:30-62 | undo right after a recorded change gives the state before it, and a redo then gives the change back |
| UndoRedo.RedoAfterUndo | src/pinia_undo_redo.ts:30-45 | a redo reverts a possible undo |
| UndoRedo.UndoAfterRedo | src/pinia_undo_redo.ts:30-45 | an undo reverts a possible redo |
| UndoRedo.OwnPatchIsNotRecorded | src/pinia_undo_redo.ts:52-57 | the notification caused by an undo's or redo's own patch does not enter the history |
| UndoRedo.ClearSwallowsNextChange | src/pinia_undo_redo.ts:46-57 | after clearing, the next real change is swallowed: the history stays at the cleared state and undo is impossible |
| UndoRedo.NotifyAll | src/pinia_undo_redo.ts:52-68 | a run of notifications keeps the cursor inside the stack |
| UndoRedo.HistoryRecordsChanges | src/pinia_undo_redo.ts:28-62 | from a fresh plugin, every change is recorded, in order, with the cursor on the last one |
| Legacy.ExtractId | src/model_utils.ts:25-27 | for a URL of two characters or more, the id is a "/"-free stretch that ends just before the final character and reaches back to a "/" or to the start of the URL |
| Legacy.ExtractIdSpan | src/model_utils.ts:25-27 | `extractId` returns the text after the last "/" before the final character, up to the final character |
| Legacy.ExtractIdOfShortUrls | src/model_utils.ts:25-27 | the empty string and one-character strings give the empty string, except "/" which gives itself |
| Legacy.ExtractIdOfResourceUrl | src/model_utils.ts:25-27 | for `prefix/ID/` with no "/" in the id, `extractId` gives the id |
| Legacy.Resolve | src/model_utils.ts:31-34 | `jwlers.get(parseInt(extractId(url)))` gives a record exactly when the URL's id parses to a number that is a key, and that record is a stored one; otherwise `undefined` |
| Legacy.GetJwlersOfTour | src/model_utils.ts:29-37 | one entry per jwler URL, in order. An entry is the stored jwler exactly when the URL's id parses and is a key; otherwise it is undefined |
| Legacy.ClientsNamedStep | src/store.ts:59-63 | each further element adds the client its URL names, if any |
| Legacy.RefsAmongStep | src/store.ts:56-65 | each further tour adds the clients its elements name |
| Legacy.RefsAmongAll | src/store.ts:56-65 | walking all tours collects exactly the clients named by an element of an existing tour |
| Legacy.DropNamed | src/store.ts:59-63 | the inner loop deletes exactly the clients the group names |
| Legacy.DropTour | src/store.ts:57-64 | one tour's iteration deletes exactly the clients its group names |
| Legacy.UnassignedClients | src/store.ts:53-67 | a client is unassigned iff no element of an existing tour names it by URL; its record is kept |
| Legacy.RemainingClients | src/store.ts:54-55 | the copied clients minus the named ones are exactly the unnamed clients, unchanged |
| Legacy.OrphanGroupsAreIgnored | src/store.ts:57-58 | a group whose key is no tour's id names nobody |
| Legacy.ClientUrlNamesClient | src/store.ts:60-62 | an element whose client URL ends in a client's id makes that client assigned |
| ApiUrls.GetJwlerUrl | src/api_url_builder.ts:3-5 | the URL starts with the API address, ends in "/", and holds the id right after `/api/jwler/` |
| ApiUrls.ExtractIdOfJwlerUrl | src/api_url_builder.ts:3-5 | `extractId` of a built jwler URL gives the id back |
| ApiUrls.JwlerUrlRoundTrip | src/api_url_builder.ts:3-5 | a URL built from a numeric id parses back to that id |
| ApiUrls.StoredJwlerResolves | src/model_utils.ts:31-34 | the URL built from a stored jwler's key resolves to that jwler |

## Left out

- Date and time helpers are not modelled: day keys, display hours, ISO dates, `parseApiDateTime`, `formatHours`. They depend on the clock's time zone and on floating point.
- Route heuristics are not modelled: `insertDriveElements`, `getDriveTimeMs`, `getDurationMs`, `getTotalDriveTimeS`, `getJwlerAvailabilitiesOfTour`, `getJwlerAvailabilityOnDay`, `getTourElementDescription`. They are floating-point or UI heuristics that sit outside the sync engine.
- The `days` and `toursByDay` getters, `getHoursOfTour`, `getDisplayStartHourOfTour`, `getDisplayEndHourOfTour`, `toFractionHours` and `HourRange` are not modelled. They are date bucketing and floating-point display logic.
- src/api_client_factory.ts, src/drag_drop.ts, src/main.ts, src/router/index.ts and src/icons_library.ts are UI and bootstrap code, not sync logic, and are not part of this model. The same holds for the older store's `fetchData` in src/store.ts and for `uploadDataChanges`, which only forwards the changeset to `upload`.
- No separate lemma states that each kind's changeset depends only on that kind's two collections. `Changesets.MakeChangeset` builds each kind's lists from those two collections alone, so it holds by construction.
- The HTTP client is replaced by the `Server` outcome oracle, and the list endpoints by the fetch `Completion`s. `Promise.allSettled` and the interleaving of the fetch chains are modelled as one arbitrary sequential order. In the source, a stage's uploads are all started in one array literal (src/model/upload.ts:12-22), and each runs only up to its first `await` before the next one starts, so the requests of different kinds interleave. The model runs a stage's kinds one after another on the store each leaves, which is not itself such a schedule. It gives the same result because the kinds of a stage touch disjoint parts of the store. Creates write nothing (`Upload.CreatesKeepStore`). The reconciliation of a kind renames only that kind's records and moves only its own child groups (`ModelUtils.RenameOtherKind`, `ModelUtils.TourCreationTouchesOnlyTours`, `ModelUtils.ClientCreationTouchesOnlyClients`, `ModelUtils.JWlerCreationTouchesOnlyJWlers`). A destroy deletes only the child group keyed by its id (`ModelUtils.HandleAfterApiDestroy`). In stage A those parts are jwlers with jwler availabilities, clients with client availabilities, locations, and tours with tour elements. In stage B they are the three child collections. The `Server` oracle answers by kind, position and call, not by timing. So every interleaving leaves the same store and the same per-kind logs. No lemma states this commutation.
- Vue and Pinia reactivity, `toRaw`, `$patch`, `structuredClone`, `deepCloneMap` and `deepCloneObject` are not modelled. Records are values, so copying is the identity. The aliasing that matters, changeset records shared with the store, is modelled explicitly by `Upload.Retag`.
- The JSON fallback of `modelEquals` for objects of no known type is left out, because every record here is one of the seven known kinds.
- `mapEntryDiff`, `flattenMapToArray` and `arrayEquals` are imported from a version of src/util.ts that is not part of this model. Their contracts follow the way src/changeset.ts and src/model/model_utils.ts use them: the entry split by key, flattening by id, and element-wise equality.
- JsText.ParseInt: leading whitespace, a radix prefix and values beyond 2^53 are not handled. Ids are plain decimal integers.
- Util.SortedKeys: JavaScript Maps iterate in insertion order, and the model walks keys in ascending order instead. Every property stated about those walks is order-independent.
- The older allocators in src/model_utils.ts:86-100 behave like the newer ones in src/model/model_utils.ts:125-139 and are modelled once.
- UndoRedo.ClearSwallowsNextChange records the behaviour as written: `clearUndoRedo` raises the flag without patching, so the next real change is not recorded. It is not listed as a finding because the intent is unclear.
- Snapshot.StateData keeps the base location and the driving-time matrix as opaque values. The fetch of the driving-time matrix is modelled only as the second step of the locations chain.
- Upload.Retag: it assumes that a stage-B record sits in the group of the parent it names. It also assumes that the server answers each endpoint with a record of that endpoint's kind.
- Upload.KindApi: the program calls `handleIdChangeAfterApiCreate` as written (upload.ts:131), which is `Reconciliation.AsWritten`. The properties that need the fix, such as availability groups surviving a parent's creation, are proved only for `Corrected`.
- Entities.Attributes: the per-kind attribute lists are assumed, because the `@/api` classes are not part of this model. In the source, attributes holding nested objects (the detail and info types) fall to the plain `va == vb` at src/model/model_utils.ts:331. That is a reference comparison, so such attributes never compare equal after the deep clone in `_assign`. The model's records have no nested-object attributes, so it does not reproduce those spurious changes.
- Util.GroupBy: src/util.ts:14-28 returns a plain-object `Record`, while src/model/store.ts calls `.forEach` on the result as on a `Map`. The model assumes a version that returns a `Map`.
- ModelUtils.PopTourElement: the source throws when the tour has no element group (`get(tourId)!` is undefined, so `elements.find(...)` at src/model/model_utils.ts:293 throws before `.length` is reached). The model requires the group instead. With no element of that id it returns nothing, as `find` does.
- ModelUtils.AddTourElement: when the tour is missing, the source first pushes the element into a group and then throws. The model requires the tour and does not model the half-done update.
- Changesets.MakeChangeset: its contract counts added and removed records for five kinds only. The two availability kinds follow the same pattern, and `Changesets.SelfChangesetIsEmpty` covers all seven.
- Store.StartFetch: the promise chains of an earlier fetch that are still running are not modelled. A second fetch starts from a state in which all of them have settled.

## Findings

| source | as written | input that shows it | evidently intended | confidence | as-written member | corrected member |
|---|---|---|---|---|---|---|
| src/model/model_utils.ts:359-376 | After creating a client or jwler whose id the server changes, the availability group under the old id is deleted and collected into `newClientAvailabilities` or `newJWlerAvailabilities`. Only `newTourElements` is written back to the store, so those availabilities vanish from the working copy. | Client -1 with one availability, created by the server as client 42: as written, no client availability group remains. | Re-insert all three collected maps, like the tour elements. The group then sits under 42 with its availability pointing at 42. The availability is still uploaded pointing at 42 in both versions, because the shared record was retagged; only the store loses it. The upload is modelled for both (`Upload.Reconciliation`). | high; not executed | ModelUtils.AsWrittenLosesCreatedClientsAvailabilities | ModelUtils.ClientRenameMovesAvailabilities |
| src/model/store.ts:213-227 | `fetchData` sets `total` but never resets `fetched`. On a second fetch the progress is already finished, so every completion, including the first and including failures, runs `_afterFetch` and re-baselines on partial data. | A store after one full fetch (9 of 9) calls `fetchData` again; the first completion, a failure, re-baselines. | Restart the count at zero on every fetch, so that the re-baseline happens exactly once, after all nine fetchers. | low (a second fetch may never happen in the app); not executed | Store.RefetchRebaselinesOnEveryCompletion | Store.ResetFetchRebaselinesOnce |
