/**
 * `transformData` of the XML parser service: fetch the make list, walk it in
 * batches of ten, fetch every make's type list within a batch, turn a failed
 * type fetch into an empty list, pause between batches, and map every make to
 * a `VehicleMakeType` in input order.
 *
 * `Promise.all` keeps positional order, so a batch is modelled as: every
 * request of the batch issued in order (the synchronous `batchMakes.map`),
 * then every make settled in order (one of the completion orders the runtime
 * allows), then the pause if another batch follows.
 */
module Transform {
  import opened Wrappers
  import opened Records
  import opened Normalise
  import opened Fetchers
  import opened Batching

  const BatchSize: nat := 10
  const DelayBetweenBatchesMs: nat := 3000
  const SkipFallback := "Unknown error"
  const TransformFallback := "Unknown error during data transformation"

  /**
   * The `TypeError` raised by `make.Make_ID.toString()` when the make is the
   * empty string `""` of a make element with no content, which `??` keeps.
   */
  const ReadIdFailure := "Cannot read properties of undefined (reading 'toString')"

  /** What the GET and parse of one make's type list settle to, keyed by the URL token. */
  type TypesSource = string -> Response<RawType>

  /** `{ make, types }`: one settled promise of a batch. */
  datatype Fetched = Fetched(make: RawMake, types: seq<Node<RawType>>)

  /** The type fetch of one make. */
  function FetchFor(source: TypesSource, m: RawMake): Run<seq<Node<RawType>>>
  {
    GetVehicleTypesForMake(source(Token(m.makeId)))
  }

  predicate FetchFails(source: TypesSource, m: RawMake)
  {
    FetchFor(source, m).value.Err?
  }

  /** `.then((types) => ({ make, types })).catch(() => ({ make, types: [] }))` */
  function Settle(source: TypesSource, m: RawMake): (f: Fetched)
    ensures f.make == m
    ensures FetchFails(source, m) ==> f.types == []
    ensures !FetchFails(source, m) ==> f.types == FetchFor(source, m).value.value
  {
    match FetchFor(source, m).value
    case Ok(types) => Fetched(m, types)
    case Err(_) => Fetched(m, [])
  }

  /** The logs written while one make settles: the fetcher's own, then the batch's. */
  function SettleEvents(source: TypesSource, m: RawMake): seq<Event>
  {
    var run := FetchFor(source, m);
    match run.value
    case Ok(_) => run.events
    case Err(e) => run.events + [ErrorLog(MakeSkipped, MessageOr(e, SkipFallback))]
  }

  /**
   * The synchronous phase of `batchMakes.map`: one request per make, in order,
   * until a make whose `Make_ID` cannot be read.
   */
  function Requests(batch: seq<Node<RawMake>>): (r: seq<Event>)
    ensures |r| <= |batch|
    ensures forall j :: 0 <= j < |r| ==> batch[j].Element? && r[j] == TypesRequest(Token(batch[j].value.makeId))
    ensures AllElements(batch) ==> |r| == |batch|
    ensures !AllElements(batch) ==> |r| < |batch| && batch[|r|].EmptyElement?
  {
    if |batch| == 0 || batch[0].EmptyElement? then []
    else
      var rest := Requests(batch[1..]);
      assert forall j :: 0 <= j < |rest| ==> batch[1..][j] == batch[j + 1];
      [TypesRequest(Token(batch[0].value.makeId))] + rest
  }

  /** Number of makes of a list whose type fetch fails. */
  function Failures(source: TypesSource, ns: seq<Node<RawMake>>): nat
  {
    if |ns| == 0 then 0
    else (if ns[0].Element? && FetchFails(source, ns[0].value) then 1 else 0) + Failures(source, ns[1..])
  }

  /** The URL tokens of the makes of a list, in order. */
  function Tokens(ns: seq<Node<RawMake>>): (r: seq<string>)
    ensures AllElements(ns) ==> |r| == |ns|
    ensures AllElements(ns) ==> forall k :: 0 <= k < |ns| ==> r[k] == Token(ns[k].value.makeId)
  {
    if |ns| == 0 then []
    else if ns[0].Element? then [Token(ns[0].value.makeId)] + Tokens(ns[1..])
    else Tokens(ns[1..])
  }

  /** The tokens of the type requests of a trace, in order. */
  function RequestTokens(events: seq<Event>): seq<string>
  {
    if |events| == 0 then []
    else if events[0].TypesRequest? then [events[0].token] + RequestTokens(events[1..])
    else RequestTokens(events[1..])
  }

  /** `await Promise.all(batchPromises)`: every make of the batch settled, in position order. */
  function SettleAll(source: TypesSource, batch: seq<Node<RawMake>>): (r: seq<Fetched>)
    requires AllElements(batch)
    ensures |r| == |batch|
    ensures forall j :: 0 <= j < |batch| ==> r[j] == Settle(source, batch[j].value)
  {
    seq(|batch|, j requires 0 <= j < |batch| => Settle(source, batch[j].value))
  }

  /**
   * The logs of a whole batch, in position order: for every make whose fetch
   * failed, the fetcher's log and the batch's log; nothing else.
   */
  function SettleAllEvents(source: TypesSource, batch: seq<Node<RawMake>>): (r: seq<Event>)
    requires AllElements(batch)
    ensures forall i :: 0 <= i < |r| ==> r[i].ErrorLog?
    ensures Count(r, IsSkipLog) == Failures(source, batch)
    ensures Count(r, IsTypesFetchLog) == Failures(source, batch)
    ensures Count(r, IsErrorLog) == 2 * Failures(source, batch)
  {
    if |batch| == 0 then []
    else
      var head := SettleEvents(source, batch[0].value);
      var rest := SettleAllEvents(source, batch[1..]);
      CountAppend(head, rest, IsSkipLog);
      CountAppend(head, rest, IsTypesFetchLog);
      CountAppend(head, rest, IsErrorLog);
      SettleEventsCounts(source, batch[0].value);
      head + rest
  }

  /** A make's settle logs: none when its fetch succeeds, one of each kind when it fails. */
  lemma SettleEventsCounts(source: TypesSource, m: RawMake)
    ensures forall i :: 0 <= i < |SettleEvents(source, m)| ==> SettleEvents(source, m)[i].ErrorLog?
    ensures Count(SettleEvents(source, m), IsSkipLog) == (if FetchFails(source, m) then 1 else 0)
    ensures Count(SettleEvents(source, m), IsTypesFetchLog) == (if FetchFails(source, m) then 1 else 0)
    ensures Count(SettleEvents(source, m), IsErrorLog) == (if FetchFails(source, m) then 2 else 0)
  {
    var events := SettleEvents(source, m);
    if FetchFails(source, m) {
      assert events == [events[0]] + [events[1]];
      assert IsTypesFetchLog(events[0]) && !IsSkipLog(events[0]);
      assert IsSkipLog(events[1]) && !IsTypesFetchLog(events[1]);
      CountPair(events[0], events[1], IsSkipLog);
      CountPair(events[0], events[1], IsTypesFetchLog);
      CountPair(events[0], events[1], IsErrorLog);
    }
  }

  /**
   * One batch: its requests and its settle logs; or, when a make of the batch
   * is the empty string, the requests before it and the log of the catch block
   * that the resulting `TypeError` lands in.
   */
  function BatchEvents(source: TypesSource, batch: seq<Node<RawMake>>): seq<Event>
  {
    if AllElements(batch) then Requests(batch) + SettleAllEvents(source, batch)
    else Requests(batch) + [ErrorLog(TransformFailed, ReadIdFailure)]
  }

  /** The batches in order, a pause between two consecutive ones, none after the last. */
  function PipelineEvents(source: TypesSource, batches: seq<seq<Node<RawMake>>>): seq<Event>
  {
    if |batches| == 0 then []
    else if !AllElements(batches[0]) then BatchEvents(source, batches[0])
    else
      BatchEvents(source, batches[0])
      + (if |batches| > 1 then [Delay(DelayBetweenBatchesMs)] else [])
      + PipelineEvents(source, batches[1..])
  }

  /** The requests of a trace distribute over concatenation. */
  lemma {:induction false} RequestTokensAppend(a: seq<Event>, b: seq<Event>)
    ensures RequestTokens(a + b) == RequestTokens(a) + RequestTokens(b)
    decreases |a|
  {
    if |a| == 0 {
      assert a + b == b;
    } else {
      assert (a + b)[1..] == a[1..] + b;
      RequestTokensAppend(a[1..], b);
    }
  }

  /** A trace of error logs holds no request. */
  lemma {:induction false} NoRequestTokens(events: seq<Event>)
    requires forall i :: 0 <= i < |events| ==> events[i].ErrorLog?
    ensures RequestTokens(events) == []
    decreases |events|
  {
    if |events| > 0 {
      NoRequestTokens(events[1..]);
    }
  }

  /** The requests of a batch of records name exactly the batch's tokens. */
  lemma {:induction false} RequestsTokens(batch: seq<Node<RawMake>>)
    requires AllElements(batch)
    ensures RequestTokens(Requests(batch)) == Tokens(batch)
    decreases |batch|
  {
    if |batch| > 0 {
      var rest := Requests(batch[1..]);
      RequestsTokens(batch[1..]);
      var r := Requests(batch);
      assert r == [TypesRequest(Token(batch[0].value.makeId))] + rest;
      assert r[1..] == rest;
    }
  }

  /** A batch of records pauses nowhere and logs two errors per failed fetch. */
  lemma BatchCounts(source: TypesSource, batch: seq<Node<RawMake>>)
    requires AllElements(batch)
    ensures Count(BatchEvents(source, batch), IsDelay) == 0
    ensures Count(BatchEvents(source, batch), IsSkipLog) == Failures(source, batch)
    ensures Count(BatchEvents(source, batch), IsTypesFetchLog) == Failures(source, batch)
    ensures Count(BatchEvents(source, batch), IsErrorLog) == 2 * Failures(source, batch)
  {
    var requests := Requests(batch);
    var logs := SettleAllEvents(source, batch);
    CountNone(requests, IsDelay);
    CountNone(requests, IsSkipLog);
    CountNone(requests, IsTypesFetchLog);
    CountNone(requests, IsErrorLog);
    CountNone(logs, IsDelay);
    CountAppend(requests, logs, IsDelay);
    CountAppend(requests, logs, IsSkipLog);
    CountAppend(requests, logs, IsTypesFetchLog);
    CountAppend(requests, logs, IsErrorLog);
  }

  /** The requests of a batch of records name the batch's tokens; its logs name none. */
  lemma BatchRequests(source: TypesSource, batch: seq<Node<RawMake>>)
    requires AllElements(batch)
    ensures RequestTokens(BatchEvents(source, batch)) == Tokens(batch)
  {
    var logs := SettleAllEvents(source, batch);
    RequestsTokens(batch);
    NoRequestTokens(logs);
    RequestTokensAppend(Requests(batch), logs);
  }

  /**
   * What a batch of records with its pause holds: a request for every make of
   * the batch, in order; the pause, if any; two error logs per failed fetch.
   */
  lemma BatchWithPause(source: TypesSource, batch: seq<Node<RawMake>>, pause: seq<Event>)
    requires AllElements(batch)
    requires pause == [] || pause == [Delay(DelayBetweenBatchesMs)]
    ensures RequestTokens(BatchEvents(source, batch) + pause) == Tokens(batch)
    ensures Count(BatchEvents(source, batch) + pause, IsDelay) == |pause|
    ensures ErrorLogs(BatchEvents(source, batch) + pause) == 2 * Failures(source, batch)
  {
    var events := BatchEvents(source, batch);
    BatchCounts(source, batch);
    BatchRequests(source, batch);
    RequestTokensAppend(events, pause);
    CountAppend(events, pause, IsDelay);
    CountAppend(events, pause, IsErrorLog);
    if pause != [] {
      assert pause[1..] == [];
    }
  }

  /** A batch holding a `""`: the requests before it, then the catch block's log; no pause. */
  lemma BlankBatch(source: TypesSource, batch: seq<Node<RawMake>>)
    requires !AllElements(batch)
    ensures var events := BatchEvents(source, batch);
      |events| > 0 && events[|events| - 1] == ErrorLog(TransformFailed, ReadIdFailure) &&
      Count(events, IsDelay) == 0
  {
    var requests := Requests(batch);
    var log := [ErrorLog(TransformFailed, ReadIdFailure)];
    CountNone(requests, IsDelay);
    CountNone(log, IsDelay);
    CountAppend(requests, log, IsDelay);
  }

  /**
   * `{ typeId: vType.VehicleTypeId, typeName: vType.VehicleTypeName }`: both
   * fields read from a record, or both `undefined` when `vType` is `""`.
   */
  function TypeEntryOf(n: Node<RawType>): TypeEntry
  {
    match n
    case Element(t) => TypeEntry(Some(t.vehicleTypeId), Some(t.vehicleTypeName))
    case EmptyElement => TypeEntry(None, None)
  }

  /**
   * `result.types.map(...)`: one entry per fetched type, in order, carrying
   * that type's id and name; an entry has a defined id exactly when its type
   * is a record.
   */
  function TypeEntries(types: seq<Node<RawType>>): (r: seq<TypeEntry>)
    ensures |r| == |types|
    ensures forall j :: 0 <= j < |types| ==> (r[j].typeId.Some? <==> types[j].Element?)
    ensures forall j :: 0 <= j < |types| && types[j].Element? ==>
              r[j].typeId == Some(types[j].value.vehicleTypeId) &&
              r[j].typeName == Some(types[j].value.vehicleTypeName)
    ensures forall j :: 0 <= j < |types| && types[j].EmptyElement? ==> r[j] == TypeEntry(None, None)
  {
    seq(|types|, j requires 0 <= j < |types| => TypeEntryOf(types[j]))
  }

  /** The final mapping of one settled make to a `VehicleMakeType`. */
  function ToEntry(f: Fetched): MakeEntry
  {
    MakeEntry(f.make.makeId, f.make.makeName, TypeEntries(f.types))
  }

  /** The make list `getAllMakes` yields for a fulfilled response. */
  function Makes(makesResponse: Response<RawMake>): seq<Node<RawMake>>
    requires makesResponse.Ok?
  {
    NormaliseNullish(makesResponse.value)
  }

  /**
   * Reference definition of what `transformData` resolves or rejects with: a
   * failed make list rejects; a fetched one that holds `""` rejects with the
   * `Make_ID` read failure; otherwise one entry per make.
   */
  function TransformResult(makesResponse: Response<RawMake>, source: TypesSource): (r: Result<seq<MakeEntry>, Thrown>)
    ensures makesResponse.Err? ==> r.Err?
    ensures makesResponse.Ok? && r.Err? ==> r.error == ErrorValue(ReadIdFailure)
    ensures r.Ok? ==> makesResponse.Ok? && |r.value| == |Makes(makesResponse)|
  {
    var run := GetAllMakes(makesResponse);
    match run.value
    case Err(e) => Err(e)
    case Ok(makes) =>
      if !AllElements(makes) then Err(ErrorValue(ReadIdFailure))
      else Ok(Entries(source, makes))
  }

  /** Every make settled and mapped, in input order. */
  function Entries(source: TypesSource, makes: seq<Node<RawMake>>): seq<MakeEntry>
    requires AllElements(makes)
  {
    seq(|makes|, k requires 0 <= k < |makes| => ToEntry(Settle(source, makes[k].value)))
  }

  /**
   * Reference definition of the events of one `transformData` call, batches
   * taken from `Chunks`: the make-list request comes first, and a failed make
   * list ends in the transform's own error log.
   */
  function TransformEvents(makesResponse: Response<RawMake>, source: TypesSource): (r: seq<Event>)
    ensures |r| > 0 && r[0] == MakesRequest
    ensures makesResponse.Err? ==> r[|r| - 1].ErrorLog? && r[|r| - 1].site == TransformFailed
  {
    var run := GetAllMakes(makesResponse);
    match run.value
    case Err(e) => run.events + [ErrorLog(TransformFailed, MessageOr(e, TransformFallback))]
    case Ok(makes) => run.events + PipelineEvents(source, Chunks(makes, BatchSize))
  }

  /**
   * `transformData`, following the source's loop. It agrees with the
   * reference definitions, so the make list failing propagates its error and
   * issues no type request; otherwise entry k carries make k's id and name and
   * the types of make k's own fetch, or none when that fetch failed.
   */
  method TransformData(makesResponse: Response<RawMake>, source: TypesSource)
    returns (r: Result<seq<MakeEntry>, Thrown>, trace: seq<Event>)
    ensures r == TransformResult(makesResponse, source)
    ensures trace == TransformEvents(makesResponse, source)
  {
    var run := GetAllMakes(makesResponse);
    if run.value.Err? {
      trace := run.events + [ErrorLog(TransformFailed, MessageOr(run.value.error, TransformFallback))];
      r := Err(run.value.error);
      return;
    }
    var events;
    r, events := ProcessMakes(source, run.value.value);
    trace := run.events + events;
  }

  /**
   * The batch loop of `transformData` over a fetched make list. The source
   * steps `i += BATCH_SIZE`; stepping to the end of the batch instead differs
   * only on the last batch, after which the loop stops either way.
   */
  method ProcessMakes(source: TypesSource, makes: seq<Node<RawMake>>)
    returns (r: Result<seq<MakeEntry>, Thrown>, trace: seq<Event>)
    ensures AllElements(makes) ==> r == Ok(Entries(source, makes))
    ensures !AllElements(makes) ==> r == Err(ErrorValue(ReadIdFailure))
    ensures trace == PipelineEvents(source, Chunks(makes, BatchSize))
  {
    trace := [];
    ghost var pipeline := PipelineEvents(source, Chunks(makes, BatchSize));
    var all: seq<Fetched> := [];
    var i: nat := 0;
    while i < |makes|
      invariant i <= |makes|
      invariant AllElements(makes[..i])
      invariant all == SettleAll(source, makes[..i])
      invariant trace + PipelineEvents(source, Chunks(makes[i..], BatchSize)) == pipeline
      decreases |makes| - i
    {
      var end := Min(i + BatchSize, |makes|);
      ghost var before := trace;
      var events, settled := RunBatch(source, makes, i);
      trace := trace + events;
      if settled.Err? {
        PipelineStep(source, makes, i);
        BlankSpreads(makes, i, end);
        r := Err(settled.error);
        return;
      }
      TraceStep(source, makes, i, before, events);
      assert trace + PipelineEvents(source, Chunks(makes[end..], BatchSize)) == pipeline;
      SettleAllSplit(source, makes[..i], makes[i..end]);
      PrefixExtend(makes, i, end);
      all := all + settled.value;
      i := end;
    }
    assert makes[..i] == makes;
    r := Ok(seq(|all|, k requires 0 <= k < |all| => ToEntry(all[k])));
    EntriesOfSettled(source, makes, all);
  }

  /** Mapping the settled batches of the whole list gives `Entries`. */
  lemma EntriesOfSettled(source: TypesSource, makes: seq<Node<RawMake>>, all: seq<Fetched>)
    requires AllElements(makes)
    requires all == SettleAll(source, makes)
    ensures seq(|all|, k requires 0 <= k < |all| => ToEntry(all[k])) == Entries(source, makes)
  {
  }

  /**
   * One iteration of the loop: `makes.slice(i, i + BATCH_SIZE)`, one request
   * per make, `Promise.all` over the settled fetches, then the pause when
   * another batch follows. A `""` in the batch makes the synchronous `map`
   * throw, which ends the batch before anything settles.
   */
  method RunBatch(source: TypesSource, makes: seq<Node<RawMake>>, i: nat)
    returns (events: seq<Event>, settled: Result<seq<Fetched>, Thrown>)
    requires i < |makes|
    ensures var batch := makes[i..Min(i + BatchSize, |makes|)];
      && (settled.Ok? <==> AllElements(batch))
      && (settled.Ok? ==> settled.value == SettleAll(source, batch)
                          && events == BatchEvents(source, batch) + Pause(i, |makes|))
      && (settled.Err? ==> settled.error == ErrorValue(ReadIdFailure) && events == BatchEvents(source, batch))
    ensures var batch := makes[i..Min(i + BatchSize, |makes|)];
      settled.Ok? ==>
        RequestTokens(events) == Tokens(batch) &&
        Count(events, IsDelay) == (if i + BatchSize < |makes| then 1 else 0) &&
        ErrorLogs(events) == 2 * Failures(source, batch)
    ensures settled.Err? ==>
      |events| > 0 && events[|events| - 1] == ErrorLog(TransformFailed, ReadIdFailure) &&
      Count(events, IsDelay) == 0
  {
    var batch := makes[i..Min(i + BatchSize, |makes|)];
    events := Requests(batch);
    if !AllElements(batch) {
      events := events + [ErrorLog(TransformFailed, ReadIdFailure)];
      BlankBatch(source, batch);
      settled := Err(ErrorValue(ReadIdFailure));
      return;
    }
    events := events + SettleAllEvents(source, batch);
    settled := Ok(SettleAll(source, batch));
    if i + BatchSize < |makes| {
      events := events + [Delay(DelayBetweenBatchesMs)];
    }
    BatchWithPause(source, batch, Pause(i, |makes|));
  }

  /** A make list that holds a `""` somewhere in a slice holds one. */
  lemma BlankSpreads(makes: seq<Node<RawMake>>, i: nat, end: nat)
    requires i <= end <= |makes|
    requires !AllElements(makes[i..end])
    ensures !AllElements(makes)
  {
    var j :| 0 <= j < end - i && !makes[i..end][j].Element?;
    assert makes[i + j] == makes[i..end][j];
  }

  /** Settling two consecutive runs of makes settles their concatenation. */
  lemma SettleAllSplit(source: TypesSource, a: seq<Node<RawMake>>, b: seq<Node<RawMake>>)
    requires AllElements(a) && AllElements(b)
    ensures AllElements(a + b)
    ensures SettleAll(source, a + b) == SettleAll(source, a) + SettleAll(source, b)
  {
  }

  /** The pause `transformData` takes after the batch that starts at `i`, if any. */
  function Pause(i: nat, n: nat): seq<Event>
  {
    if i + BatchSize < n then [Delay(DelayBetweenBatchesMs)] else []
  }

  /** One iteration of the batch loop, in terms of the reference trace. */
  lemma PipelineStep(source: TypesSource, makes: seq<Node<RawMake>>, i: nat)
    requires i < |makes|
    ensures var batch := makes[i..Min(i + BatchSize, |makes|)];
      PipelineEvents(source, Chunks(makes[i..], BatchSize)) ==
        if !AllElements(batch) then BatchEvents(source, batch)
        else (BatchEvents(source, batch) + Pause(i, |makes|)
          + PipelineEvents(source, Chunks(makes[Min(i + BatchSize, |makes|)..], BatchSize)))
  {
    var batch := makes[i..Min(i + BatchSize, |makes|)];
    ChunksStep(makes, i, BatchSize);
    var rest := Chunks(makes[Min(i + BatchSize, |makes|)..], BatchSize);
    assert ([batch] + rest)[0] == batch && ([batch] + rest)[1..] == rest;
    assert |rest| > 0 <==> i + BatchSize < |makes|;
  }

  /** The loop invariant on the trace survives one batch without a `""`. */
  lemma TraceStep(source: TypesSource, makes: seq<Node<RawMake>>, i: nat, before: seq<Event>, events: seq<Event>)
    requires i < |makes|
    requires AllElements(makes[i..Min(i + BatchSize, |makes|)])
    requires events == BatchEvents(source, makes[i..Min(i + BatchSize, |makes|)]) + Pause(i, |makes|)
    ensures before + events + PipelineEvents(source, Chunks(makes[Min(i + BatchSize, |makes|)..], BatchSize))
      == before + PipelineEvents(source, Chunks(makes[i..], BatchSize))
  {
    PipelineStep(source, makes, i);
  }
}
