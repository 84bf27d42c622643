# Vehicle makes ingestion: a Dafny model

This project models the core of a NestJS service. The service pulls the list
of vehicle makes from the NHTSA vPIC XML API. It fetches the vehicle types of
every make in batches of ten, with a three-second pause between batches. It
stores one make aggregate per make through TypeORM and later reads the stored
aggregates back as records.

Two services make up the core:

- `XmlParserService` (`getAllMakes`, `getVehicleTypesForMake`, `transformData`).
  It fetches and parses, normalises the parser's container shapes into arrays,
  runs the batched fan-out of type requests, isolates failed type fetches, and
  maps the results to `VehicleMakeType` records.
- `VehicleService` (`syncData`, `getFormattedVehicleData`). It counts the
  stored makes, transforms, saves aggregates one at a time until the first
  failure, and projects the stored aggregates back to records.

Modules, in dependency order:

| file | module | contents |
|---|---|---|
| wrappers.dfy | Wrappers | `Option`, `Result` |
| records.dfy | Records | the records of `vehicle.interface.ts`; `Thrown`, what a `throw` carries; `MessageOr`, the `instanceof Error` message extraction |
| normalise.dfy | Normalise | the XML parser's container shapes (`explicitArray: false`); the `??` and `||` normalisers |
| fetchers.dfy | Fetchers | `getAllMakes` and `getVehicleTypesForMake` as traces of events |
| batching.dfy | Batching | `makes.slice(i, i + BATCH_SIZE)` as `Chunks`, with its partition laws |
| transform.dfy | Transform | the reference definitions of `transformData`; `TransformData` and `ProcessMakes`, the loop proved to follow them |
| transform_laws.dfy | TransformLaws | what `transformData` promises |
| entities.dfy | Entities | the `VehicleMake` and `VehicleType` entities; building aggregates and projecting them |
| vehicle_service.dfy | VehicleService | `syncData` as written (`RunSync`, and the loop `SyncData`), the guarded variant, and `getFormattedVehicleData` |
| sync_laws.dfy | SyncLaws | what `syncData` and `getFormattedVehicleData` promise |

Collaborators become parameters:

- The HTTP GET plus the XML parse of a URL is a `Response`. It holds either the
  container shape the parser produced or the value that was thrown.
  `getAllMakes` takes one response. `transformData` takes a `TypesSource`, a
  function from the make token in the URL to a response.
- The repository is a `Store`: the stored aggregates in insertion order, and
  the next surrogate id the database hands out. A `Backend` says which
  `count()` and `save()` calls fail, and with what. A `find()` failure is an
  optional thrown value.
- `transformData`'s outcome, as far as `syncData` sees it, is a
  `Result<seq<MakeEntry>, Thrown>`.

Observable behaviour is a trace of events:

- requests, in the order they are issued;
- pauses, with their length;
- error logs, with their site and message;
- for the sync: `count`, `transformData`, `save` calls and logs.

Informational log lines are not part of the trace, except the count guard's
"Data already exists in the database.", which the sync trace records.

## Model

| member | source | states |
|---|---|---|
| Records.MessageOr | src/xml-parser/services/xml-parser.service.ts:162-165 | an `Error` yields its own message; any other thrown value yields the call site's fixed fallback text |
| Normalise.NormaliseNullish | src/xml-parser/services/xml-parser.service.ts:46-48 | the make list: a missing container gives `[]`; a lone empty element gives `[""]`; one element gives a one-element array; several give the array as parsed, any `""` among them included |
| Normalise.NormaliseFalsy | src/xml-parser/services/xml-parser.service.ts:73-75 | the type list: a missing or empty-text container gives `[]`; one element gives a one-element array; several give the array as parsed, any `""` among them included |
| Normalise.NormaliseRecoversChildren | src/xml-parser/services/xml-parser.service.ts:46-48 | for any number of elements in the document, both normalisers return exactly those elements in document order |
| Normalise.NullishFalsyDiffer | src/xml-parser/services/xml-parser.service.ts:46-75 | the two call sites disagree exactly on the lone empty element: `[""]` for makes, `[]` for types |
| Normalise.BlankSources | src/xml-parser/services/xml-parser.service.ts:46-75 | the make list holds a `""` if and only if the container was a lone empty element or an array holding one; the type list if and only if it was an array holding one |
| Fetchers.Rethrown | src/xml-parser/services/xml-parser.service.ts:49-60 | the catch block throws an `Error`: the caught one's message when it was an `Error`, the fixed text otherwise |
| Fetchers.GetAllMakes | src/xml-parser/services/xml-parser.service.ts:35-61 | the request comes first; it succeeds if and only if the response did, yielding the `??`-normalised list with no error log; on failure it logs once and rejects with the same message or the makes fallback |
| Fetchers.GetVehicleTypesForMake | src/xml-parser/services/xml-parser.service.ts:63-87 | it succeeds if and only if the response did, yielding the `\|\|`-normalised list with no log; on failure it logs once and rejects with the same message or the types fallback |
| Batching.ChunksPartition | src/xml-parser/services/xml-parser.service.ts:108-109 | the slices concatenate back to the make list; each slice holds 1 to 10 makes; every slice but the last holds exactly 10; there is no slice for an empty list |
| Batching.ChunkCount | src/xml-parser/services/xml-parser.service.ts:108-109 | the loop runs ceil(n / 10) times for n makes |
| Batching.ChunkBounds | src/xml-parser/services/xml-parser.service.ts:108-109 | (batches - 1) * 10 < n <= batches * 10 |
| Batching.ChunksStep | src/xml-parser/services/xml-parser.service.ts:108-109 | one iteration: the batches from index i are `makes[i..min(i+10, n)]`, then the batches from that end |
| Transform.Settle | src/xml-parser/services/xml-parser.service.ts:114-124 | a batch element settles to its own make, with the fetched types, or `[]` when that fetch failed |
| Transform.Requests | src/xml-parser/services/xml-parser.service.ts:114-115 | `batchMakes.map` issues one request per make, in order, each for that make's token; it stops at the first `""`, whose `Make_ID` read throws |
| Transform.Tokens | src/xml-parser/services/xml-parser.service.ts:115 | on a list of records: one token per make, in order |
| Transform.SettleAll | src/xml-parser/services/xml-parser.service.ts:127 | `Promise.all` keeps positions: result j is the settlement of make j |
| Transform.SettleAllEvents | src/xml-parser/services/xml-parser.service.ts:117-122 | settling a batch only logs errors: one skip log and one fetcher log per failed fetch, two error logs each |
| Transform.SettleEventsCounts | src/xml-parser/services/xml-parser.service.ts:76-86 | one make's settlement logs twice if its fetch failed, otherwise not at all |
| Transform.SettleAllSplit | src/xml-parser/services/xml-parser.service.ts:127-128 | appending batch results equals settling the concatenated makes |
| Transform.TypeEntries | src/xml-parser/services/xml-parser.service.ts:146-149 | one `{typeId, typeName}` per fetched type, in order: copied from `VehicleTypeId` and `VehicleTypeName` for a record; both `undefined` for a `""`, whose fields do not exist; `typeId` is defined exactly for the records |
| Transform.TransformResult | src/xml-parser/services/xml-parser.service.ts:89-169 | the reference outcome the `transformData` laws are stated over: a failed make list rejects; a fetched list holding `""` rejects with the `Make_ID` read failure; otherwise it resolves with one entry per make |
| Transform.TransformEvents | src/xml-parser/services/xml-parser.service.ts:89-169 | the reference trace the `transformData` laws are stated over: the make-list request comes first, then the batched pipeline over `Chunks(makes, 10)`; a failed make list ends in the transform's own error log |
| Transform.TransformData | src/xml-parser/services/xml-parser.service.ts:89-169 | the method's result and trace are the reference `TransformResult` and `TransformEvents` |
| Transform.ProcessMakes | src/xml-parser/services/xml-parser.service.ts:105-156 | the batch loop: entries for a list of records, or the `Make_ID` read failure when it holds `""`; its trace is the batched pipeline over `Chunks(makes, 10)` |
| Transform.RunBatch | src/xml-parser/services/xml-parser.service.ts:109-140 | one iteration over a slice of records: one request per make of the slice, for its token and in order; exactly one pause when makes remain and none after the last slice; two error logs per failed fetch of the slice. A slice holding `""` ends in the catch block's log with no pause |
| Transform.BatchWithPause | src/xml-parser/services/xml-parser.service.ts:109-140 | a slice of records followed by at most one pause: its requests are the slice's tokens, its pauses are that one, its error logs two per failed fetch |
| Transform.BlankBatch | src/xml-parser/services/xml-parser.service.ts:114-115 | a slice holding `""` ends in the `Make_ID` read failure's log and pauses nowhere |
| Transform.EntriesOfSettled | src/xml-parser/services/xml-parser.service.ts:145-156 | mapping the accumulated results gives one entry per make in make order |
| Transform.PipelineStep | src/xml-parser/services/xml-parser.service.ts:108-140 | the pipeline from index i is this batch's events, then its pause, then the pipeline from the batch's end |
| TransformLaws.TransformSucceedsIff | src/xml-parser/services/xml-parser.service.ts:102-168 | `transformData` resolves if and only if the make list was fetched and holds no `""`: it is neither a lone empty element nor an array containing one |
| TransformLaws.EntriesFollowMakes | src/xml-parser/services/xml-parser.service.ts:127-156 | one entry per make, in make order: entry k has make k's id and name, and make k's own types mapped to `{typeId, typeName}`, or `[]` when that fetch failed |
| TransformLaws.EntryDependsOnOwnFetch | src/xml-parser/services/xml-parser.service.ts:114-125 | failure isolation: entry k depends only on the response to make k's own request |
| TransformLaws.MakesFailurePropagates | src/xml-parser/services/xml-parser.service.ts:103-168 | a failed make list is re-thrown as `getAllMakes` threw it; the trace is request, fetcher log, transform log with the same message; no type request is issued |
| TransformLaws.NoMakesNoFetches | src/xml-parser/services/xml-parser.service.ts:103-160 | an empty make list resolves to `[]` after the single make-list request |
| TransformLaws.BlankMakeRejects | src/xml-parser/services/xml-parser.service.ts:108-168 | a fetched make list holding `""` anywhere rejects with the `Make_ID` read failure, and the trace ends with the catch block's log of it |
| TransformLaws.EmptyMakeListBlocks | src/xml-parser/services/xml-parser.service.ts:46-48 | a make list that is the lone empty element becomes `[""]`; reading `Make_ID` of it throws before any type request; the transform logs and re-throws that |
| TransformLaws.TransformDelays | src/xml-parser/services/xml-parser.service.ts:108-140 | n makes give ceil(n / 10) - 1 pauses; each lasts 3000 ms and is followed by a type request; the rate limit: when the n-th pause starts exactly 10 * n type requests have been issued, and at most 10 follow the last pause |
| TransformLaws.PipelinePaced | src/xml-parser/services/xml-parser.service.ts:108-140 | over slices of records, each of ten makes but the last, every pause comes after exactly ten requests per pause so far, and at most ten requests follow the last pause |
| TransformLaws.TransformRequests | src/xml-parser/services/xml-parser.service.ts:108-127 | exactly one type request per make, in make-list order, each for that make's id |
| TransformLaws.TransformErrorLogs | src/xml-parser/services/xml-parser.service.ts:117-122 | every failed type fetch is logged twice, once by the fetcher and once by the batch; nothing else logs an error |
| TransformLaws.PipelineDelays | src/xml-parser/services/xml-parser.service.ts:135-140 | over any sequence of batches of records, the pauses number one fewer than the batches |
| TransformLaws.PipelinePauses | src/xml-parser/services/xml-parser.service.ts:135-140 | in the batched pipeline every pause is 3000 ms and is followed by a type request |
| Entities.BuildAggregate | src/vehicles/services/vehicle.service.ts:38-50 | the built make has one child per type of the record; every child carries the record's make id and no surrogate id yet |
| Entities.Aggregates | src/vehicles/services/vehicle.service.ts:37-50 | one aggregate per record, in order, every one linked |
| Entities.Project | src/vehicles/services/vehicle.service.ts:72-79 | one record per stored make, in order |
| Entities.WithIdsKeepsContent | src/vehicles/entities/vehicle-type.entity.ts:14-15 | inserting a make changes no record field and keeps children linked; the children get consecutive generated ids |
| Entities.BuildThenProject | src/vehicles/services/vehicle.service.ts:38-79 | projecting a built aggregate returns the record it was built from |
| Entities.ProjectAggregates | src/vehicles/services/vehicle.service.ts:37-79 | round trip: projecting the aggregates of records returns those records |
| Entities.ProjectIffSameContent | src/vehicles/services/vehicle.service.ts:72-79 | two makes project to the same record if and only if their ids, names and type ids and names agree |
| Entities.ProjectIffSameContents | src/vehicles/services/vehicle.service.ts:72-79 | the same, position by position, for lists of makes |
| Entities.ProjectAppend | src/vehicles/services/vehicle.service.ts:72-79 | projection commutes with concatenation |
| VehicleService.SaveFrom | src/vehicles/services/vehicle.service.ts:37-53 | the reference save loop from aggregate i on: it only calls `save`, at most once per remaining aggregate, and a failed loop issued at least the failing save |
| VehicleService.RunSync | src/vehicles/services/vehicle.service.ts:21-65 | `syncData` as written, the reference the sync laws are stated over: `count()` is the first call; a sync succeeds only when `count()` and the transform did; a failed sync ends with the catch block's log of its error |
| VehicleService.SyncData | src/vehicles/services/vehicle.service.ts:21-65 | the loop over the transformed records has the outcome, store and trace of the reference `RunSync` |
| VehicleService.GetFormattedVehicleData | src/vehicles/services/vehicle.service.ts:67-80 | a failing `find` rejects with its error; otherwise the result is the projection of the stored makes: one record per stored make, in order, with that make's id, name and as many types as it has children; an empty store formats to `[]` |
| SyncLaws.SaveLoopCalls | src/vehicles/services/vehicle.service.ts:37-53 | save j is handed aggregate j, in order, until the first failing save; every aggregate is saved if and only if no save fails; a failed loop ends with that save's error |
| SyncLaws.FailedLoopAnnounces | src/vehicles/services/vehicle.service.ts:52 | a failed loop issued the save that failed |
| SyncLaws.SaveLoopStore | src/vehicles/services/vehicle.service.ts:37-53 | after the loop the store holds the earlier rows untouched, then the saved aggregates in order with generated ids |
| SyncLaws.SaveLoopProject | src/vehicles/services/vehicle.service.ts:37-53 | the store's projection grows by exactly the projection of the saved aggregates; every row stays linked |
| SyncLaws.ProjectStored | src/vehicles/services/vehicle.service.ts:52 | inserting does not change what the rows project to |
| SyncLaws.StoredLinked | src/vehicles/services/vehicle.service.ts:47 | inserting linked aggregates appends linked rows |
| SyncLaws.SavesOfAppend | src/vehicles/services/vehicle.service.ts:37-53 | the saves of a trace distribute over concatenation |
| SyncLaws.SavesOfCalls | src/vehicles/services/vehicle.service.ts:52 | a trace of save calls hands `save` exactly their aggregates, in order |
| SyncLaws.SavesOfNonSaves | src/vehicles/services/vehicle.service.ts:24-31 | counting, logging and transforming hand nothing to `save` |
| SyncLaws.SyncSavesAre | src/vehicles/services/vehicle.service.ts:21-65 | the saves of a sync are exactly the saves of its loop |
| SyncLaws.SyncCallOrder | src/vehicles/services/vehicle.service.ts:24-31 | `count()` runs once and first; if it fails, its error is re-thrown and nothing else runs; otherwise `transformData` runs once right after it, with or without the guard log |
| SyncLaws.SyncTail | src/vehicles/services/vehicle.service.ts:37-64 | after the transform a sync only saves and logs |
| SyncLaws.SyncSavesInOrder | src/vehicles/services/vehicle.service.ts:37-64 | save j is handed the aggregate of record j until the first failing save; all records are saved if and only if no save fails; a failing save re-throws its own error after the catch block's log |
| SyncLaws.SavesCarryRecords | src/vehicles/services/vehicle.service.ts:38-52 | save j carries record j's make id and name, and types that project back to record j's |
| SyncLaws.EmptyTransformSavesNothing | src/vehicles/services/vehicle.service.ts:37-55 | an empty transform result succeeds, saves nothing and leaves the store as it was |
| SyncLaws.TransformFailureRethrown | src/vehicles/services/vehicle.service.ts:31-64 | a rejected transform is logged once and re-thrown unchanged; nothing is saved and the store is unchanged |
| SyncLaws.StoredByLoop | src/vehicles/services/vehicle.service.ts:37-53 | a sync stores as many aggregates as its loop kept |
| SyncLaws.SyncStore | src/vehicles/services/vehicle.service.ts:21-65 | after a sync: earlier rows untouched, then the saved aggregates, which project back to the transformed records; all rows linked; after a full success the projection is the old one followed by all records |
| SyncLaws.StoredLength | src/vehicles/services/vehicle.service.ts:52 | inserting n aggregates adds n rows |
| SyncLaws.SyncThenFormat | src/vehicles/services/vehicle.service.ts:21-80 | round trip: a successful sync into an empty store, then `getFormattedVehicleData`, returns exactly the transformed records |
| SyncLaws.IngestThenFormat | src/vehicles/services/vehicle.service.ts:21-80 | end to end: with no repository failure, syncing into an empty store and formatting returns what `transformData` resolved with; a rejected transform is re-thrown and stores nothing |
| SyncLaws.GuardDoesNotGate | src/vehicles/services/vehicle.service.ts:24-31 | as written, a populated store only adds the guard's log; the transform runs and every record is handed to `save` again |
| SyncLaws.SecondSyncSavesAgain | src/vehicles/services/vehicle.service.ts:24-52 | concrete case: a second sync of one record logs that data exists, then transforms and saves that record again |
| SyncLaws.GuardedAgreesOnEmptyStore | src/vehicles/services/vehicle.service.ts:24-29 | on an empty store the guarded sync is the sync as written |
| SyncLaws.GuardedSyncIdempotent | src/vehicles/services/vehicle.service.ts:24-29 | with the guard in force, a sync after a successful one only counts and logs, and leaves the store as it was |
| SyncLaws.FormatSeesOnlyContent | src/vehicles/services/vehicle.service.ts:67-80 | two stores format identically if and only if their makes agree, position by position, on record content (surrogate ids aside) |

## Left out

- HTTP (axios), the XML parser and its `stripPrefix` tag processor, and URL building: a response is a parameter. A make's token is its `Make_ID` text, because the parser delivers element text.
- `setTimeout` and real concurrency: a pause is an event carrying its length. Of the orders in which a batch's promises can settle, the model fixes one: requests in `map` order, then settlements in the same order. The result does not depend on the order, because `Promise.all` keeps positions.
- Informational log lines (start, batch progress, completion, "Data sync completed.") and the exact text of error logs: error logs carry their site and message only.
- The `Array.isArray(transformedData)` check of `syncData` (vehicle.service.ts:33-35): a `seq` is always an array, so that branch cannot be taken here.
- After the `Make_ID` read fails on `""`, the type requests already issued for earlier makes of that batch keep running and may log later. The model ends the trace at the failure.
- TypeORM cascade mechanics, eager loading, `createdAt`/`updatedAt` timestamps and migrations: a stored make is its id, name and child rows with generated ids.
- Save: a save is modelled as an append to the store. TypeORM updates a make whose primary key `makeId` is already stored. What it then does with that make's previous child rows is decided by its orphan handling, which is not modelled. The model's stored rows are therefore faithful only when the saved make ids are distinct and not yet stored. The call traces are faithful in every case.
- SyncThenFormat: the round trip is stated for the append store, which matches the source when the transformed records have distinct make ids.
- IngestThenFormat: as SyncThenFormat, for the make ids the NHTSA list delivers.
- `find` is assumed to return the makes in insertion order, and each make's children in insertion order. TypeORM gives no ordering without an `order` option.
- An element with no content inside a type array reaches the result as `{typeId: undefined, typeName: undefined}`. Whether the database accepts a type row with those columns empty is the `Backend`'s decision, not modelled further.
- `Make_ID`, `VehicleTypeId` and `typeId` are typed `number` in the interfaces but arrive as parser text. Ids are strings throughout, and no number/string conversion is modelled.
- Framework wiring (modules, GraphQL resolver, bootstrap) is outside the core.
- Transform.ProcessMakes: the loop index steps to the end of the current slice instead of `i + 10`. The two agree on every iteration that runs, because the slice is clamped to the list's length.

Where the source differs from a plain reading of its design, the model follows the source:

- A failed type fetch produces two error logs: one from `getVehicleTypesForMake`'s catch block and one from the batch's `.catch`.
- The `count()` guard of `syncData` does not stop the sync (see Findings).

## Findings

| source | as written | input that shows it | evidently intended | confidence | as-written member | corrected member |
|---|---|---|---|---|---|---|
| src/vehicles/services/vehicle.service.ts:24-29 | the `return` inside the `.then` callback of `count()` leaves only the callback, so `syncData` goes on to `transformData` and saves every record again | a store holding make 440 (ASTON MARTIN), and a second sync whose transform yields that record again: "Data already exists in the database." is logged, then `transformData` runs and `save` is called for make 440 | a populated store ends the sync after the log, so syncing is idempotent | high, not executed | SyncLaws.SecondSyncSavesAgain | SyncLaws.GuardedSyncIdempotent |

`VehicleService.RunSync` is the sync as written, and `VehicleService.SyncData`
is proved to follow it. `VehicleService.RunSyncGuarded` is the corrected sync,
and `SyncLaws.GuardedAgreesOnEmptyStore` shows that it differs from the
as-written sync only on a populated store. The rest of the model states the
source's behaviour, so its sync lemmas are about `RunSync`.
