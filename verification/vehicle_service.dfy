/**
 * `VehicleService`: `syncData` counts the stored makes, transforms, and saves
 * one aggregate per transformed record, one at a time, stopping at the first
 * failure; `getFormattedVehicleData` projects the stored aggregates.
 *
 * The `return` inside the `.then` callback of `count()` leaves only the
 * callback, so a populated store is logged and then synced again.
 * `RunSync` models that; `RunSyncGuarded` is the sync the guard was evidently
 * meant to give.
 *
 * The repository is a `Store`: the stored aggregates in insertion order and
 * the next surrogate id the database would hand out. `count`, `save` and
 * `find` can each fail; a `Backend` says which calls do.
 */
module VehicleService {
  import opened Wrappers
  import opened Records
  import opened Entities

  const SyncFallback := "Unknown error during vehicle data sync"

  datatype Store = Store(makes: seq<MakeRow>, nextId: nat)

  /**
   * Which repository calls fail: `count()` with `countFault`, and the save
   * with index `i` of the run (counting from 0) with `saveFault(i)`.
   */
  datatype Backend = Backend(countFault: Option<Thrown>, saveFault: nat -> Option<Thrown>)

  datatype Outcome = Done | Failed(error: Thrown)

  datatype SyncSite =
    | AlreadyPopulated        // "Data already exists in the database."
    | SyncFailed(message: string)

  /** The observable steps of one `syncData` call. */
  datatype SyncEvent =
    | CountCall
    | TransformCall
    | SaveCall(make: MakeRow)
    | SyncLog(site: SyncSite)

  datatype SyncRun = SyncRun(outcome: Outcome, store: Store, events: seq<SyncEvent>)

  predicate SaveFails(backend: Backend, i: nat)
  {
    backend.saveFault(i).Some?
  }

  /** `save(make)` of a new aggregate: it is stored last, its children numbered from `nextId`. */
  function Save(store: Store, m: MakeRow): Store
  {
    Store(store.makes + [WithIds(m, store.nextId)], store.nextId + |m.vehicleTypes|)
  }

  /** The aggregates handed to `save`, in call order. */
  function SavesOf(events: seq<SyncEvent>): seq<MakeRow>
  {
    if |events| == 0 then []
    else (if events[0].SaveCall? then [events[0].make] else []) + SavesOf(events[1..])
  }

  /**
   * `for (const parsedData of transformedData) { ...; await save(make) }`
   * from the aggregate at index `i` on: each save is announced, and the first
   * failing one ends the loop with its error and the store as the earlier
   * saves left it.
   */
  function SaveFrom(store: Store, backend: Backend, aggs: seq<MakeRow>, i: nat): (r: SyncRun)
    requires i <= |aggs|
    ensures |r.events| <= |aggs| - i
    ensures r.outcome.Failed? ==> |r.events| > 0
    decreases |aggs| - i
  {
    if i == |aggs| then SyncRun(Done, store, [])
    else
      match backend.saveFault(i)
      case Some(e) => SyncRun(Failed(e), store, [SaveCall(aggs[i])])
      case None =>
        var rest := SaveFrom(Save(store, aggs[i]), backend, aggs, i + 1);
        SyncRun(rest.outcome, rest.store, [SaveCall(aggs[i])] + rest.events)
  }

  /** The log line of the catch block of `syncData`. */
  function FailLog(e: Thrown): seq<SyncEvent>
  {
    [SyncLog(SyncFailed(MessageOr(e, SyncFallback)))]
  }

  /** The catch block of `syncData`: log, then re-throw what was caught, unchanged. */
  function Fail(store: Store, events: seq<SyncEvent>, e: Thrown): SyncRun
  {
    SyncRun(Failed(e), store, events + FailLog(e))
  }

  /** Adds the catch block's log when the run failed. */
  function Conclude(prefix: seq<SyncEvent>, saved: SyncRun): SyncRun
  {
    match saved.outcome
    case Done => SyncRun(Done, saved.store, prefix + saved.events)
    case Failed(e) => Fail(saved.store, prefix + saved.events, e)
  }

  /** The guard's log line, which is all that a populated store changes. */
  function GuardLog(store: Store): seq<SyncEvent>
  {
    if |store.makes| > 0 then [SyncLog(AlreadyPopulated)] else []
  }

  /** `count()`, its callback's log when the store holds makes, then `transformData()`. */
  function SyncPrefix(store: Store): seq<SyncEvent>
  {
    [CountCall] + GuardLog(store) + [TransformCall]
  }

  /**
   * `syncData` as written. `transformed` is what `transformData` settles to.
   * A populated store only adds a log line: the transform and the saves run
   * regardless.
   */
  function RunSync(store: Store, backend: Backend, transformed: Result<seq<MakeEntry>, Thrown>): (r: SyncRun)
    ensures |r.events| > 0 && r.events[0] == CountCall
    ensures r.outcome.Done? ==> backend.countFault.None? && transformed.Ok?
    ensures r.outcome.Failed? ==> r.events[|r.events| - 1] == SyncLog(SyncFailed(MessageOr(r.outcome.error, SyncFallback)))
  {
    match backend.countFault
    case Some(e) => Fail(store, [CountCall], e)
    case None =>
      match transformed
      case Err(e) => Fail(store, SyncPrefix(store), e)
      case Ok(t) => Conclude(SyncPrefix(store), SaveFrom(store, backend, Aggregates(t), 0))
  }

  /** `syncData` with a `count()` guard that ends the sync when the store already holds makes. */
  function RunSyncGuarded(store: Store, backend: Backend, transformed: Result<seq<MakeEntry>, Thrown>): SyncRun
  {
    match backend.countFault
    case Some(e) => Fail(store, [CountCall], e)
    case None =>
      if |store.makes| > 0 then SyncRun(Done, store, [CountCall, SyncLog(AlreadyPopulated)])
      else RunSync(store, backend, transformed)
  }

  /**
   * `syncData` following the source's loop over the transformed records. It
   * agrees with `RunSync`.
   */
  method SyncData(store: Store, backend: Backend, transformed: Result<seq<MakeEntry>, Thrown>)
    returns (outcome: Outcome, store': Store, events: seq<SyncEvent>)
    ensures SyncRun(outcome, store', events) == RunSync(store, backend, transformed)
  {
    events := [CountCall];
    if backend.countFault.Some? {
      var e := backend.countFault.value;
      outcome, store', events := Failed(e), store, events + [SyncLog(SyncFailed(MessageOr(e, SyncFallback)))];
      return;
    }
    if |store.makes| > 0 {
      events := events + [SyncLog(AlreadyPopulated)];
    }
    events := events + [TransformCall];
    assert events == SyncPrefix(store);
    if transformed.Err? {
      var e := transformed.error;
      outcome, store', events := Failed(e), store, events + [SyncLog(SyncFailed(MessageOr(e, SyncFallback)))];
      return;
    }
    var t := transformed.value;
    var aggs := Aggregates(t);
    ghost var prefix := events;
    ghost var full := SaveFrom(store, backend, aggs, 0);
    store' := store;
    var i := 0;
    while i < |t|
      invariant i <= |t|
      invariant SaveFrom(store', backend, aggs, i).outcome == full.outcome
      invariant SaveFrom(store', backend, aggs, i).store == full.store
      invariant events + SaveFrom(store', backend, aggs, i).events == prefix + full.events
      decreases |t| - i
    {
      var make := BuildAggregate(t[i]);
      assert make == aggs[i];
      ghost var here := SaveFrom(store', backend, aggs, i);
      events := events + [SaveCall(make)];
      if backend.saveFault(i).Some? {
        var e := backend.saveFault(i).value;
        assert here == SyncRun(Failed(e), store', [SaveCall(make)]);
        outcome, events := Failed(e), events + [SyncLog(SyncFailed(MessageOr(e, SyncFallback)))];
        return;
      }
      ghost var next := SaveFrom(Save(store', make), backend, aggs, i + 1);
      assert here == SyncRun(next.outcome, next.store, [SaveCall(make)] + next.events);
      store' := Save(store', make);
      i := i + 1;
    }
    assert SaveFrom(store', backend, aggs, i) == SyncRun(Done, store', []);
    outcome := Done;
  }

  /**
   * `getFormattedVehicleData`: `find` fails with `findFault` or yields the
   * stored aggregates, which are projected one record per make, in store order.
   */
  function GetFormattedVehicleData(store: Store, findFault: Option<Thrown>): (r: Result<seq<MakeEntry>, Thrown>)
    ensures findFault.Some? ==> r == Err(findFault.value)
    ensures findFault.None? ==> r == Ok(Project(store.makes))
    ensures findFault.None? ==>
      |r.value| == |store.makes| &&
      forall k :: 0 <= k < |store.makes| ==>
        r.value[k].makeId == store.makes[k].makeId && r.value[k].makeName == store.makes[k].makeName &&
        |r.value[k].vehicleTypes| == |store.makes[k].vehicleTypes|
    ensures findFault.None? && |store.makes| == 0 ==> r == Ok([])
  {
    match findFault
    case Some(e) => Err(e)
    case None => Ok(Project(store.makes))
  }
}
