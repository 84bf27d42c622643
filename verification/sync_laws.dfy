/**
 * What `syncData` and `getFormattedVehicleData` do, stated over the reference
 * definition `RunSync` that `VehicleService.SyncData` is proved to follow:
 * call order, the saves and their order, abort on the first failure with the
 * error re-thrown unchanged, the parent link of every stored child, the round
 * trip through the store, and the count guard that does not guard.
 */
module SyncLaws {
  import opened Wrappers
  import opened Records
  import opened Normalise
  import opened Fetchers
  import opened Transform
  import opened Entities
  import opened VehicleService

  /** No save with index `from <= j < to` fails. */
  predicate SavesSucceed(backend: Backend, from: nat, to: nat)
  {
    forall j :: from <= j < to ==> !SaveFails(backend, j)
  }

  /** How many of `calls` announced saves stored their aggregate: all of them but a failing last one. */
  function Kept(outcome: Outcome, calls: nat): nat
  {
    if outcome.Done? || calls == 0 then calls else calls - 1
  }

  // ---------------------------------------------------------------------
  // The save loop
  // ---------------------------------------------------------------------

  /**
   * The saves from index `i` on: they are `aggs[i..]` in order up to the
   * first failing one, which ends the loop with its own error; without a
   * failure every remaining aggregate is saved.
   */
  lemma {:induction false} SaveLoopCalls(store: Store, backend: Backend, aggs: seq<MakeRow>, i: nat)
    requires i <= |aggs|
    ensures var r := SaveFrom(store, backend, aggs, i);
      i + |r.events| <= |aggs| &&
      (forall j :: 0 <= j < |r.events| ==> r.events[j] == SaveCall(aggs[i + j])) &&
      (r.outcome.Done? <==> SavesSucceed(backend, i, |aggs|)) &&
      (r.outcome.Done? ==> |r.events| == |aggs| - i) &&
      (r.outcome.Failed? ==>
        |r.events| > 0 && SavesSucceed(backend, i, i + |r.events| - 1) &&
        backend.saveFault(i + |r.events| - 1) == Some(r.outcome.error))
    decreases |aggs| - i
  {
    var r := SaveFrom(store, backend, aggs, i);
    if i < |aggs| {
      if backend.saveFault(i).Some? {
        assert SaveFails(backend, i);
      } else {
        var next := Save(store, aggs[i]);
        SaveLoopCalls(next, backend, aggs, i + 1);
        var rest := SaveFrom(next, backend, aggs, i + 1);
        assert r.events == [SaveCall(aggs[i])] + rest.events;
        forall j | 0 <= j < |r.events|
          ensures r.events[j] == SaveCall(aggs[i + j])
        {
          if j > 0 {
            assert r.events[j] == rest.events[j - 1];
          }
        }
        assert SavesSucceed(backend, i, |aggs|) <==> SavesSucceed(backend, i + 1, |aggs|);
        if r.outcome.Failed? {
          assert SavesSucceed(backend, i, i + |r.events| - 1) <==>
                 SavesSucceed(backend, i + 1, i + 1 + |rest.events| - 1);
        }
      }
    }
  }

  /** A loop that failed announced the save that failed. */
  lemma {:induction false} FailedLoopAnnounces(store: Store, backend: Backend, aggs: seq<MakeRow>, i: nat)
    requires i <= |aggs|
    ensures SaveFrom(store, backend, aggs, i).outcome.Failed? ==> |SaveFrom(store, backend, aggs, i).events| > 0
    decreases |aggs| - i
  {
    if i < |aggs| && backend.saveFault(i).None? {
      FailedLoopAnnounces(Save(store, aggs[i]), backend, aggs, i + 1);
    }
  }

  /** The rows that saving `xs` one after the other appends, surrogate ids counted from `next`. */
  function Stored(xs: seq<MakeRow>, next: nat): seq<MakeRow>
    decreases |xs|
  {
    if |xs| == 0 then [] else [WithIds(xs[0], next)] + Stored(xs[1..], next + |xs[0].vehicleTypes|)
  }

  /**
   * What the save loop leaves in the store: the rows that were there,
   * untouched, followed by the aggregates saved before the first failure, in
   * order, with their surrogate ids assigned.
   */
  lemma {:induction false} SaveLoopStore(store: Store, backend: Backend, aggs: seq<MakeRow>, i: nat)
    requires i <= |aggs|
    ensures var r := SaveFrom(store, backend, aggs, i);
      i + Kept(r.outcome, |r.events|) <= |aggs| &&
      r.store.makes == store.makes + Stored(aggs[i..i + Kept(r.outcome, |r.events|)], store.nextId)
    decreases |aggs| - i
  {
    var r := SaveFrom(store, backend, aggs, i);
    if i < |aggs| && backend.saveFault(i).None? {
      var next := Save(store, aggs[i]);
      SaveLoopStore(next, backend, aggs, i + 1);
      FailedLoopAnnounces(next, backend, aggs, i + 1);
      var rest := SaveFrom(next, backend, aggs, i + 1);
      assert r == SyncRun(rest.outcome, rest.store, [SaveCall(aggs[i])] + rest.events);
      var m := Kept(rest.outcome, |rest.events|);
      assert Kept(r.outcome, |r.events|) == m + 1;
      var xs := aggs[i..i + 1 + m];
      assert xs[0] == aggs[i] && xs[1..] == aggs[i + 1..i + 1 + m];
      var head := [WithIds(aggs[i], store.nextId)];
      var tail := Stored(xs[1..], next.nextId);
      assert Stored(xs, store.nextId) == head + tail;
      calc {
        r.store.makes;
        rest.store.makes;
        (store.makes + head) + tail;
        store.makes + (head + tail);
      }
    } else {
      assert Kept(r.outcome, |r.events|) == 0 && r.store == store;
      assert aggs[i..i] == [];
    }
  }

  /** The appended rows carry exactly the saved records. */
  lemma {:induction false} ProjectStored(xs: seq<MakeRow>, next: nat)
    ensures Project(Stored(xs, next)) == Project(xs)
    decreases |xs|
  {
    if |xs| > 0 {
      ProjectStored(xs[1..], next + |xs[0].vehicleTypes|);
      WithIdsKeepsContent(xs[0], next);
      ProjectIffSameContent(xs[0], WithIds(xs[0], next));
      ProjectAppend([WithIds(xs[0], next)], Stored(xs[1..], next + |xs[0].vehicleTypes|));
      ProjectAppend([xs[0]], xs[1..]);
      assert xs == [xs[0]] + xs[1..];
    }
  }

  /** Saving linked aggregates appends linked rows. */
  lemma {:induction false} StoredLinked(xs: seq<MakeRow>, next: nat)
    requires AllLinked(xs)
    ensures AllLinked(Stored(xs, next))
    decreases |xs|
  {
    if |xs| > 0 {
      assert Linked(xs[0]);
      assert AllLinked(xs[1..]) by {
        forall k | 0 <= k < |xs| - 1
          ensures Linked(xs[1..][k])
        {
          assert xs[1..][k] == xs[k + 1];
        }
      }
      StoredLinked(xs[1..], next + |xs[0].vehicleTypes|);
      var rest := Stored(xs[1..], next + |xs[0].vehicleTypes|);
      var all := [WithIds(xs[0], next)] + rest;
      WithIdsKeepsContent(xs[0], next);
      forall k | 0 <= k < |all|
        ensures Linked(all[k])
      {
        if k > 0 {
          assert all[k] == rest[k - 1];
        }
      }
    }
  }

  /**
   * The projection of the store after the save loop: the old projection, then
   * the projection of the aggregates that were saved. Saving keeps every row
   * linked.
   */
  lemma SaveLoopProject(store: Store, backend: Backend, aggs: seq<MakeRow>, i: nat)
    requires i <= |aggs|
    ensures var r := SaveFrom(store, backend, aggs, i);
      i + Kept(r.outcome, |r.events|) <= |aggs| &&
      Project(r.store.makes) == Project(store.makes) + Project(aggs[i..i + Kept(r.outcome, |r.events|)]) &&
      (AllLinked(store.makes) && AllLinked(aggs) ==> AllLinked(r.store.makes))
  {
    SaveLoopStore(store, backend, aggs, i);
    var r := SaveFrom(store, backend, aggs, i);
    var n := Kept(r.outcome, |r.events|);
    var saved := aggs[i..i + n];
    var added := Stored(saved, store.nextId);
    assert r.store.makes == store.makes + added;
    ProjectStored(saved, store.nextId);
    ProjectAppend(store.makes, added);
    if AllLinked(store.makes) && AllLinked(aggs) {
      SliceLinked(aggs, i, i + n);
      StoredLinked(saved, store.nextId);
      AppendLinked(store.makes, added);
    }
  }

  /** A slice of linked makes is linked. */
  lemma SliceLinked(ms: seq<MakeRow>, lo: nat, hi: nat)
    requires lo <= hi <= |ms|
    requires AllLinked(ms)
    ensures AllLinked(ms[lo..hi])
  {
    forall k | 0 <= k < hi - lo
      ensures Linked(ms[lo..hi][k])
    {
      assert ms[lo..hi][k] == ms[lo + k];
    }
  }

  /** Two lists of linked makes concatenate to one. */
  lemma AppendLinked(a: seq<MakeRow>, b: seq<MakeRow>)
    requires AllLinked(a) && AllLinked(b)
    ensures AllLinked(a + b)
  {
    forall k | 0 <= k < |a + b|
      ensures Linked((a + b)[k])
    {
      if k >= |a| {
        assert (a + b)[k] == b[k - |a|];
      } else {
        assert (a + b)[k] == a[k];
      }
    }
  }

  /** The aggregates announced by a trace of save calls are the calls' payloads. */
  lemma {:induction false} SavesOfCalls(events: seq<SyncEvent>, aggs: seq<MakeRow>, i: nat)
    requires i + |events| <= |aggs|
    requires forall j :: 0 <= j < |events| ==> events[j] == SaveCall(aggs[i + j])
    ensures SavesOf(events) == aggs[i..i + |events|]
    decreases |events|
  {
    if |events| > 0 {
      SavesOfCalls(events[1..], aggs, i + 1);
      assert aggs[i..i + |events|] == [aggs[i]] + aggs[i + 1..i + |events|];
    }
  }

  lemma {:induction false} SavesOfAppend(a: seq<SyncEvent>, b: seq<SyncEvent>)
    ensures SavesOf(a + b) == SavesOf(a) + SavesOf(b)
    decreases |a|
  {
    if |a| == 0 {
      assert a + b == b;
    } else {
      var head := if a[0].SaveCall? then [a[0].make] else [];
      assert (a + b)[0] == a[0];
      assert (a + b)[1..] == a[1..] + b;
      SavesOfAppend(a[1..], b);
      calc {
        SavesOf(a + b);
        head + SavesOf(a[1..] + b);
        head + (SavesOf(a[1..]) + SavesOf(b));
        (head + SavesOf(a[1..])) + SavesOf(b);
      }
    }
  }

  lemma SavesOfSingle(e: SyncEvent)
    requires !e.SaveCall?
    ensures SavesOf([e]) == []
  {
    assert [e][1..] == [];
  }

  /** Counting, logging and transforming hand nothing to `save`. */
  lemma SavesOfNonSaves(store: Store, e: Thrown)
    ensures SavesOf(SyncPrefix(store)) == []
    ensures SavesOf(FailLog(e)) == []
  {
    SavesOfSingle(CountCall);
    SavesOfSingle(TransformCall);
    SavesOfSingle(SyncLog(AlreadyPopulated));
    SavesOfSingle(SyncLog(SyncFailed(MessageOr(e, SyncFallback))));
    SavesOfAppend([CountCall], GuardLog(store));
    SavesOfAppend([CountCall] + GuardLog(store), [TransformCall]);
  }

  // ---------------------------------------------------------------------
  // syncData
  // ---------------------------------------------------------------------

  /** The events of a sync whose count and transform were fulfilled. */
  lemma SyncUnfold(store: Store, backend: Backend, t: seq<MakeEntry>)
    requires backend.countFault.None?
    ensures var r := RunSync(store, backend, Ok(t));
      var saved := SaveFrom(store, backend, Aggregates(t), 0);
      r.outcome == saved.outcome && r.store == saved.store &&
      r.events == SyncPrefix(store) + saved.events +
        (if saved.outcome.Done? then [] else FailLog(saved.outcome.error))
  {
  }

  /** The saves of a sync are the saves of its loop. */
  lemma SyncSavesAre(store: Store, backend: Backend, t: seq<MakeEntry>)
    requires backend.countFault.None?
    ensures var saved := SaveFrom(store, backend, Aggregates(t), 0);
      SavesOf(RunSync(store, backend, Ok(t)).events) == SavesOf(saved.events)
  {
    var saved := SaveFrom(store, backend, Aggregates(t), 0);
    SyncUnfold(store, backend, t);
    var tail := if saved.outcome.Done? then [] else FailLog(saved.outcome.error);
    SavesOfNonSaves(store, if saved.outcome.Failed? then saved.outcome.error else NonErrorValue);
    assert SavesOf(tail) == [] by {
      if saved.outcome.Done? {
        assert tail == [];
      }
    }
    SavesOfAppend(SyncPrefix(store), saved.events);
    SavesOfAppend(SyncPrefix(store) + saved.events, tail);
  }

  /**
   * `count()` is called once, first. When it fails nothing else is called and
   * its error is re-thrown; otherwise `transformData` is called once, right
   * after it (and the guard's log when the store is populated), whatever the
   * count.
   */
  lemma SyncCallOrder(store: Store, backend: Backend, transformed: Result<seq<MakeEntry>, Thrown>)
    ensures var r := RunSync(store, backend, transformed);
      |r.events| > 0 && r.events[0] == CountCall &&
      (forall j :: 0 < j < |r.events| ==> r.events[j] != CountCall)
    ensures var r := RunSync(store, backend, transformed);
      backend.countFault.Some? ==>
        r.outcome == Failed(backend.countFault.value) && r.store == store &&
        r.events == [CountCall] + FailLog(backend.countFault.value)
    ensures var r := RunSync(store, backend, transformed);
      var p := |SyncPrefix(store)|;
      backend.countFault.None? ==>
        p <= |r.events| && r.events[..p] == SyncPrefix(store) &&
        forall j :: 0 <= j < |r.events| && j != p - 1 ==> r.events[j] != TransformCall
  {
    var r := RunSync(store, backend, transformed);
    var prefix := SyncPrefix(store);
    if backend.countFault.None? {
      SyncTail(store, backend, transformed);
      var after := r.events[|prefix|..];
      assert r.events == prefix + after;
      forall j | 0 <= j < |r.events|
        ensures j > 0 ==> r.events[j] != CountCall
        ensures j != |prefix| - 1 ==> r.events[j] != TransformCall
      {
        if j >= |prefix| {
          assert r.events[j] == after[j - |prefix|];
        }
      }
    }
  }

  /** After the prefix, a sync only saves and logs. */
  lemma SyncTail(store: Store, backend: Backend, transformed: Result<seq<MakeEntry>, Thrown>)
    requires backend.countFault.None?
    ensures var r := RunSync(store, backend, transformed);
      |SyncPrefix(store)| <= |r.events| && r.events[..|SyncPrefix(store)|] == SyncPrefix(store) &&
      forall k :: |SyncPrefix(store)| <= k < |r.events| ==> r.events[k].SaveCall? || r.events[k].SyncLog?
  {
    var r := RunSync(store, backend, transformed);
    var prefix := SyncPrefix(store);
    var after: seq<SyncEvent>;
    if transformed.Ok? {
      var saved := SaveFrom(store, backend, Aggregates(transformed.value), 0);
      SyncUnfold(store, backend, transformed.value);
      SaveLoopCalls(store, backend, Aggregates(transformed.value), 0);
      after := saved.events + (if saved.outcome.Done? then [] else FailLog(saved.outcome.error));
      forall k | 0 <= k < |after|
        ensures after[k].SaveCall? || after[k].SyncLog?
      {
        if k < |saved.events| {
          assert after[k] == saved.events[k];
        }
      }
    } else {
      after := FailLog(transformed.error);
    }
    assert r.events == prefix + after;
    forall k | |prefix| <= k < |r.events|
      ensures r.events[k].SaveCall? || r.events[k].SyncLog?
    {
      assert r.events[k] == after[k - |prefix|];
    }
  }

  /**
   * With the count and the transform fulfilled: save `j` is handed the
   * aggregate built from record `j`, in record order, until the first failing
   * save; every record is saved exactly when no save fails; a failing save
   * ends the run with its own error, after the catch block's log.
   */
  lemma SyncSavesInOrder(store: Store, backend: Backend, t: seq<MakeEntry>)
    requires backend.countFault.None?
    ensures var r := RunSync(store, backend, Ok(t));
      var saves := SavesOf(r.events);
      |saves| <= |t| && saves == Aggregates(t)[..|saves|] &&
      (r.outcome.Done? <==> SavesSucceed(backend, 0, |t|)) &&
      (r.outcome.Done? ==> |saves| == |t|) &&
      (r.outcome.Failed? ==>
         |saves| > 0 && SavesSucceed(backend, 0, |saves| - 1) &&
         backend.saveFault(|saves| - 1) == Some(r.outcome.error) &&
         r.events[|r.events| - 1] == SyncLog(SyncFailed(MessageOr(r.outcome.error, SyncFallback))))
  {
    var aggs := Aggregates(t);
    var saved := SaveFrom(store, backend, aggs, 0);
    SyncUnfold(store, backend, t);
    SaveLoopCalls(store, backend, aggs, 0);
    SavesOfCalls(saved.events, aggs, 0);
    SyncSavesAre(store, backend, t);
  }

  /** Save `j` carries record `j`: its make id and name, and types that project back to the record's. */
  lemma SavesCarryRecords(store: Store, backend: Backend, t: seq<MakeEntry>)
    requires backend.countFault.None?
    ensures var saves := SavesOf(RunSync(store, backend, Ok(t)).events);
      |saves| <= |t| &&
      forall j :: 0 <= j < |saves| ==>
        saves[j].makeId == t[j].makeId && saves[j].makeName == t[j].makeName &&
        |saves[j].vehicleTypes| == |t[j].vehicleTypes| && Linked(saves[j]) &&
        ProjectMake(saves[j]) == t[j]
  {
    SyncSavesInOrder(store, backend, t);
    var saves := SavesOf(RunSync(store, backend, Ok(t)).events);
    forall j | 0 <= j < |saves|
      ensures ProjectMake(saves[j]) == t[j]
    {
      assert saves[j] == Aggregates(t)[j];
      BuildThenProject(t[j]);
    }
  }

  /** An empty transform result saves nothing and succeeds. */
  lemma EmptyTransformSavesNothing(store: Store, backend: Backend)
    requires backend.countFault.None?
    ensures RunSync(store, backend, Ok([])).outcome == Done
    ensures RunSync(store, backend, Ok([])).store == store
    ensures SavesOf(RunSync(store, backend, Ok([])).events) == []
  {
    SyncSavesInOrder(store, backend, []);
  }

  /** A failing transform is re-thrown unchanged after one log; nothing is saved. */
  lemma TransformFailureRethrown(store: Store, backend: Backend, e: Thrown)
    requires backend.countFault.None?
    ensures var r := RunSync(store, backend, Err(e));
      r.outcome == Failed(e) && r.store == store && SavesOf(r.events) == [] &&
      r.events[|r.events| - 1] == SyncLog(SyncFailed(MessageOr(e, SyncFallback)))
  {
    SavesOfNonSaves(store, e);
    SavesOfAppend(SyncPrefix(store), FailLog(e));
  }

  /** The number of aggregates a sync stored is the number its save loop kept. */
  lemma StoredByLoop(store: Store, backend: Backend, t: seq<MakeEntry>)
    requires backend.countFault.None?
    ensures var saved := SaveFrom(store, backend, Aggregates(t), 0);
      var r := RunSync(store, backend, Ok(t));
      Kept(r.outcome, |SavesOf(r.events)|) == Kept(saved.outcome, |saved.events|) &&
      r.outcome == saved.outcome && r.store == saved.store
  {
    var aggs := Aggregates(t);
    var saved := SaveFrom(store, backend, aggs, 0);
    SyncUnfold(store, backend, t);
    SaveLoopCalls(store, backend, aggs, 0);
    SavesOfCalls(saved.events, aggs, 0);
    SyncSavesAre(store, backend, t);
  }

  /**
   * The store after a sync: earlier rows untouched, then the aggregates that
   * were saved, which project back to the transformed records; every stored
   * child is linked to its parent. After a fully successful sync the
   * projection is the old projection followed by all the records.
   */
  lemma SyncStore(store: Store, backend: Backend, t: seq<MakeEntry>)
    requires backend.countFault.None?
    ensures var r := RunSync(store, backend, Ok(t));
      var n := Kept(r.outcome, |SavesOf(r.events)|);
      n <= |t| && |r.store.makes| == |store.makes| + n &&
      r.store.makes[..|store.makes|] == store.makes &&
      Project(r.store.makes) == Project(store.makes) + t[..n] &&
      (AllLinked(store.makes) ==> AllLinked(r.store.makes)) &&
      (r.outcome.Done? ==> n == |t|)
  {
    var aggs := Aggregates(t);
    var saved := SaveFrom(store, backend, aggs, 0);
    StoredByLoop(store, backend, t);
    SaveLoopCalls(store, backend, aggs, 0);
    SaveLoopStore(store, backend, aggs, 0);
    SaveLoopProject(store, backend, aggs, 0);
    var n := Kept(saved.outcome, |saved.events|);
    assert |Stored(aggs[..n], store.nextId)| == n by {
      StoredLength(aggs[..n], store.nextId);
    }
    assert aggs[0..n] == Aggregates(t[..n]);
    ProjectAggregates(t[..n]);
  }

  lemma {:induction false} StoredLength(xs: seq<MakeRow>, next: nat)
    ensures |Stored(xs, next)| == |xs|
    decreases |xs|
  {
    if |xs| > 0 {
      StoredLength(xs[1..], next + |xs[0].vehicleTypes|);
    }
  }

  /**
   * Round trip: a successful sync into an empty store, then
   * `getFormattedVehicleData`, returns exactly the transformed records.
   */
  lemma SyncThenFormat(backend: Backend, t: seq<MakeEntry>, nextId: nat)
    requires backend.countFault.None? && SavesSucceed(backend, 0, |t|)
    ensures var r := RunSync(Store([], nextId), backend, Ok(t));
      r.outcome == Done && GetFormattedVehicleData(r.store, None) == Ok(t)
  {
    var r := RunSync(Store([], nextId), backend, Ok(t));
    SyncStore(Store([], nextId), backend, t);
    SyncSavesInOrder(Store([], nextId), backend, t);
    assert r.outcome == Done;
    assert Kept(r.outcome, |SavesOf(r.events)|) == |t|;
    assert t[..|t|] == t;
    assert Project([]) == [];
    assert Project(r.store.makes) == t;
  }

  /**
   * End to end: with no repository failure, syncing into an empty store and
   * formatting returns what `transformData` resolved with, or fails with what
   * it rejected with.
   */
  lemma IngestThenFormat(makesResponse: Response<RawMake>, source: TypesSource, backend: Backend, nextId: nat)
    requires backend.countFault.None?
    requires forall j :: !SaveFails(backend, j)
    ensures var t := TransformResult(makesResponse, source);
      var r := RunSync(Store([], nextId), backend, t);
      (t.Ok? ==> r.outcome == Done && GetFormattedVehicleData(r.store, None) == t) &&
      (t.Err? ==> r.outcome == Failed(t.error) && r.store.makes == [])
  {
    var t := TransformResult(makesResponse, source);
    if t.Ok? {
      SyncThenFormat(backend, t.value, nextId);
    }
  }

  // ---------------------------------------------------------------------
  // The count guard
  // ---------------------------------------------------------------------

  /**
   * As written, a populated store does not stop the sync: the guard's log is
   * followed by the transform, and every record is handed to `save` again.
   */
  lemma GuardDoesNotGate(store: Store, backend: Backend, t: seq<MakeEntry>)
    requires backend.countFault.None? && SavesSucceed(backend, 0, |t|)
    requires |store.makes| > 0
    ensures var r := RunSync(store, backend, Ok(t));
      r.outcome == Done &&
      r.events[1] == SyncLog(AlreadyPopulated) && r.events[2] == TransformCall &&
      SavesOf(r.events) == Aggregates(t)
  {
    SyncSavesInOrder(store, backend, t);
    assert t[..|t|] == t;
  }

  /**
   * Concretely: after a sync that stored one record, a second sync of the same
   * record logs that data already exists and then transforms and calls `save`
   * for that record again.
   */
  lemma SecondSyncSavesAgain(backend: Backend)
    requires backend.countFault.None? && forall j :: !SaveFails(backend, j)
    ensures var t := [MakeEntry("440", "ASTON MARTIN", [TypeEntry(Some("2"), Some("Passenger Car"))])];
      var first := RunSync(Store([], 1), backend, Ok(t));
      var second := RunSync(first.store, backend, Ok(t));
      first.outcome == Done && |first.store.makes| == 1 &&
      second.events[1] == SyncLog(AlreadyPopulated) && second.events[2] == TransformCall &&
      SavesOf(second.events) == [BuildAggregate(t[0])]
  {
    var t := [MakeEntry("440", "ASTON MARTIN", [TypeEntry(Some("2"), Some("Passenger Car"))])];
    SyncStore(Store([], 1), backend, t);
    SyncSavesInOrder(Store([], 1), backend, t);
    var first := RunSync(Store([], 1), backend, Ok(t));
    assert |first.store.makes| == 1;
    GuardDoesNotGate(first.store, backend, t);
  }

  /** On an empty store the guarded sync is the sync as written. */
  lemma GuardedAgreesOnEmptyStore(store: Store, backend: Backend, transformed: Result<seq<MakeEntry>, Thrown>)
    requires |store.makes| == 0
    ensures RunSyncGuarded(store, backend, transformed) == RunSync(store, backend, transformed)
  {
  }

  /**
   * With the guard in force, a sync after a successful one that stored
   * something neither transforms nor saves and leaves the store as it was:
   * syncing is idempotent.
   */
  lemma GuardedSyncIdempotent(store: Store, backend: Backend, t: seq<MakeEntry>,
                              backend2: Backend, transformed2: Result<seq<MakeEntry>, Thrown>)
    requires backend.countFault.None? && SavesSucceed(backend, 0, |t|) && |t| > 0
    requires backend2.countFault.None?
    ensures var first := RunSyncGuarded(store, backend, Ok(t));
      var second := RunSyncGuarded(first.store, backend2, transformed2);
      first.outcome == Done && |first.store.makes| > 0 &&
      second.outcome == Done && second.store == first.store &&
      second.events == [CountCall, SyncLog(AlreadyPopulated)] &&
      SavesOf(second.events) == []
  {
    SyncStore(store, backend, t);
    SyncSavesInOrder(store, backend, t);
    var second := RunSyncGuarded(RunSyncGuarded(store, backend, Ok(t)).store, backend2, transformed2);
    assert second.events[1..][1..] == [];
  }

  // ---------------------------------------------------------------------
  // getFormattedVehicleData
  // ---------------------------------------------------------------------

  /**
   * The projection keeps length and order and drops exactly the surrogate ids
   * and the children's `makeId`: stores with the same record content format
   * identically, and only those.
   */
  lemma FormatSeesOnlyContent(a: Store, b: Store)
    ensures GetFormattedVehicleData(a, None) == GetFormattedVehicleData(b, None) <==>
      |a.makes| == |b.makes| && forall k :: 0 <= k < |a.makes| ==> SameContent(a.makes[k], b.makes[k])
  {
    if GetFormattedVehicleData(a, None) == GetFormattedVehicleData(b, None) {
      forall k | 0 <= k < |a.makes|
        ensures SameContent(a.makes[k], b.makes[k])
      {
        assert Project(a.makes)[k] == Project(b.makes)[k];
        ProjectIffSameContent(a.makes[k], b.makes[k]);
      }
    }
    if |a.makes| == |b.makes| && forall k :: 0 <= k < |a.makes| ==> SameContent(a.makes[k], b.makes[k]) {
      forall k | 0 <= k < |a.makes|
        ensures Project(a.makes)[k] == Project(b.makes)[k]
      {
        ProjectIffSameContent(a.makes[k], b.makes[k]);
      }
      assert Project(a.makes) == Project(b.makes);
    }
  }
}
