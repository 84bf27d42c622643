/**
 * What `transformData` promises, stated over the reference definitions that
 * `Transform.TransformData` is proved to follow: when it succeeds, how each
 * entry relates to the make list and the type fetches, how a failed fetch is
 * isolated, how many pauses and requests the trace holds, and what happens
 * when the make list fails, is empty, or holds the empty string.
 */
module TransformLaws {
  import opened Wrappers
  import opened Records
  import opened Normalise
  import opened Fetchers
  import opened Batching
  import opened Transform

  /** The make list was fetched and every element of it is a record. */
  predicate RecordsOnly(makesResponse: Response<RawMake>)
  {
    makesResponse.Ok? && AllElements(Makes(makesResponse))
  }

  /** The make records of such a response, in document order. */
  function Children(makesResponse: Response<RawMake>): seq<RawMake>
    requires RecordsOnly(makesResponse)
  {
    Values(Makes(makesResponse))
  }

  /** ceil(n / 10) - 1 pauses for n > 0 makes, none for an empty list. */
  function DelaysFor(n: nat): nat
  {
    if n == 0 then 0 else BatchCount(n, BatchSize) - 1
  }

  /**
   * Every pause lasts the fixed three seconds and is immediately followed by
   * the first request of the next batch; in particular no pause ends a trace.
   */
  predicate PausesBetweenBatches(events: seq<Event>)
  {
    forall i :: 0 <= i < |events| && events[i].Delay? ==>
      events[i].ms == DelayBetweenBatchesMs && i + 1 < |events| && events[i + 1].TypesRequest?
  }

  /**
   * The rate limit the batching enforces: when the n-th pause starts, exactly
   * n batches of ten type requests have been issued.
   */
  predicate PacedPauses(events: seq<Event>)
  {
    forall p :: 0 <= p < |events| && events[p].Delay? ==>
      |RequestTokens(events[..p])| == BatchSize * Count(events[..p + 1], IsDelay)
  }

  /** Paced pauses, and at most one more batch of requests after the last pause. */
  predicate RateLimited(events: seq<Event>)
  {
    PacedPauses(events) && |RequestTokens(events)| <= BatchSize * (Count(events, IsDelay) + 1)
  }

  // ---------------------------------------------------------------------
  // Outcome
  // ---------------------------------------------------------------------

  /**
   * `transformData` resolves exactly when the make list was fetched and holds
   * no `""`: the container was neither a lone empty element nor an array with
   * an empty element in it.
   */
  lemma TransformSucceedsIff(makesResponse: Response<RawMake>, source: TypesSource)
    ensures TransformResult(makesResponse, source).Ok? <==> RecordsOnly(makesResponse)
    ensures TransformResult(makesResponse, source).Ok? <==>
              makesResponse.Ok? && !makesResponse.value.EmptyText? &&
              (makesResponse.value.Many? ==> AllElements(makesResponse.value.items))
  {
    if makesResponse.Ok? {
      BlankSources(makesResponse.value);
    }
  }

  /**
   * On success there is one entry per make, in make-list order: entry k has
   * make k's id and name, and the types of make k's own fetch mapped to
   * `{typeId, typeName}`, or no types when that fetch failed.
   */
  lemma EntriesFollowMakes(makesResponse: Response<RawMake>, source: TypesSource)
    requires RecordsOnly(makesResponse)
    ensures var makes := Children(makesResponse);
      var r := TransformResult(makesResponse, source);
      r.Ok? && |r.value| == |makes| &&
      forall k :: 0 <= k < |makes| ==>
        r.value[k].makeId == makes[k].makeId &&
        r.value[k].makeName == makes[k].makeName &&
        r.value[k].vehicleTypes ==
          (if FetchFails(source, makes[k]) then [] else TypeEntries(FetchFor(source, makes[k]).value.value))
  {
  }

  /**
   * Failure isolation: entry k depends on nothing but make k and the response
   * to make k's own type request, so a failing fetch of one make leaves the
   * entry of every make with a different id as it was.
   */
  lemma EntryDependsOnOwnFetch(makesResponse: Response<RawMake>, s1: TypesSource, s2: TypesSource, k: nat)
    requires RecordsOnly(makesResponse)
    requires k < |Children(makesResponse)|
    requires var token := Token(Children(makesResponse)[k].makeId); s1(token) == s2(token)
    ensures TransformResult(makesResponse, s1).value[k] == TransformResult(makesResponse, s2).value[k]
  {
    EntriesFollowMakes(makesResponse, s1);
    EntriesFollowMakes(makesResponse, s2);
  }

  /**
   * A failed make list is re-thrown as it came out of `getAllMakes`, after the
   * fetcher's log and the transform's log with the same message; no type
   * request is issued.
   */
  lemma MakesFailurePropagates(makesResponse: Response<RawMake>, source: TypesSource)
    requires makesResponse.Err?
    ensures var e := Rethrown(makesResponse.error, MakesFallback);
      TransformResult(makesResponse, source) == Err(e) &&
      TransformEvents(makesResponse, source) ==
        [MakesRequest, ErrorLog(MakesFetchFailed, e.message), ErrorLog(TransformFailed, e.message)]
    ensures RequestTokens(TransformEvents(makesResponse, source)) == []
    ensures ErrorLogs(TransformEvents(makesResponse, source)) == 2
  {
    var e := Rethrown(makesResponse.error, MakesFallback);
    var trace := TransformEvents(makesResponse, source);
    assert trace == [MakesRequest] + [ErrorLog(MakesFetchFailed, e.message), ErrorLog(TransformFailed, e.message)];
    assert trace[1..][1..][1..] == [];
    assert RequestTokens(trace[1..][1..]) == [];
    assert RequestTokens(trace[1..]) == [];
    CountPair(ErrorLog(MakesFetchFailed, e.message), ErrorLog(TransformFailed, e.message), IsErrorLog);
  }

  /** An empty make list resolves to no entries after the single make-list request. */
  lemma NoMakesNoFetches(makesResponse: Response<RawMake>, source: TypesSource)
    requires makesResponse.Ok? && Makes(makesResponse) == []
    ensures TransformResult(makesResponse, source) == Ok([])
    ensures TransformEvents(makesResponse, source) == [MakesRequest]
  {
    assert Entries(source, []) == [];
  }

  /**
   * A make-list container holding only text becomes `[""]` under `??`; reading
   * `Make_ID` of that string fails inside the first batch, before any type
   * request, and the transform's catch block logs and re-throws that failure.
   */
  lemma EmptyMakeListBlocks(source: TypesSource)
    ensures TransformResult(Ok(EmptyText), source) == Err(ErrorValue(ReadIdFailure))
    ensures TransformEvents(Ok(EmptyText), source) == [MakesRequest, ErrorLog(TransformFailed, ReadIdFailure)]
  {
    var makes: seq<Node<RawMake>> := [EmptyElement];
    assert makes[1..] == [];
    assert Chunks(makes, BatchSize) == [makes];
    assert !makes[0].Element?;
  }

  /**
   * A `""` anywhere in the make list rejects the transform with the `Make_ID`
   * read failure, whatever the type fetches do; the trace ends with the catch
   * block's log of it.
   */
  lemma BlankMakeRejects(makesResponse: Response<RawMake>, source: TypesSource)
    requires makesResponse.Ok? && !AllElements(Makes(makesResponse))
    ensures TransformResult(makesResponse, source) == Err(ErrorValue(ReadIdFailure))
    ensures var trace := TransformEvents(makesResponse, source);
      |trace| > 0 && trace[|trace| - 1] == ErrorLog(TransformFailed, ReadIdFailure)
  {
    var makes := Makes(makesResponse);
    ChunksPartition(makes, BatchSize);
    PipelineEndsInFailure(source, Chunks(makes, BatchSize));
  }

  /** A batch list holding a `""` ends in the catch block's log. */
  lemma {:induction false} PipelineEndsInFailure(source: TypesSource, batches: seq<seq<Node<RawMake>>>)
    requires !AllElements(Flatten(batches))
    ensures var events := PipelineEvents(source, batches);
      |events| > 0 && events[|events| - 1] == ErrorLog(TransformFailed, ReadIdFailure)
    decreases |batches|
  {
    assert |batches| > 0;
    if !AllElements(batches[0]) {
      BlankBatch(source, batches[0]);
    } else {
      var tail := Flatten(batches[1..]);
      AllElementsAppend(batches[0], tail);
      PipelineEndsInFailure(source, batches[1..]);
      var head := BatchEvents(source, batches[0]);
      var pause: seq<Event> := if |batches| > 1 then [Delay(DelayBetweenBatchesMs)] else [];
      var rest := PipelineEvents(source, batches[1..]);
      assert PipelineEvents(source, batches) == (head + pause) + rest;
      LastOfAppend(head + pause, rest);
    }
  }

  /** Appending a non-empty trace keeps its last event last. */
  lemma LastOfAppend(a: seq<Event>, b: seq<Event>)
    requires |b| > 0
    ensures (a + b)[|a + b| - 1] == b[|b| - 1]
  {
  }

  // ---------------------------------------------------------------------
  // Trace
  // ---------------------------------------------------------------------

  /**
   * For n makes the trace holds ceil(n / 10) - 1 pauses, each between two
   * batches: the n-th pause comes after exactly 10 * n type requests, and no
   * more than ten requests follow the last one.
   */
  lemma TransformDelays(makesResponse: Response<RawMake>, source: TypesSource)
    requires RecordsOnly(makesResponse)
    ensures Count(TransformEvents(makesResponse, source), IsDelay) == DelaysFor(|Children(makesResponse)|)
    ensures PausesBetweenBatches(TransformEvents(makesResponse, source))
    ensures RateLimited(TransformEvents(makesResponse, source))
  {
    var makes := Makes(makesResponse);
    var batches := Chunks(makes, BatchSize);
    ChunksKeepElements(makes, BatchSize);
    ChunksPartition(makes, BatchSize);
    ChunkCount(makes, BatchSize);
    PipelineDelays(source, batches);
    PipelinePauses(source, batches);
    var trace := TransformEvents(makesResponse, source);
    assert trace == [MakesRequest] + PipelineEvents(source, batches);
    CountAppend([MakesRequest], PipelineEvents(source, batches), IsDelay);
    PausesPrepend(MakesRequest, PipelineEvents(source, batches));
    PipelinePaced(source, batches);
    RequestFreePaced([MakesRequest]);
    PacedAppend([MakesRequest], PipelineEvents(source, batches));
  }

  /** One type request per make, in make-list order, each for that make's id. */
  lemma TransformRequests(makesResponse: Response<RawMake>, source: TypesSource)
    requires RecordsOnly(makesResponse)
    ensures var makes := Children(makesResponse);
      var tokens := RequestTokens(TransformEvents(makesResponse, source));
      |tokens| == |makes| && forall k :: 0 <= k < |makes| ==> tokens[k] == Token(makes[k].makeId)
  {
    var makes := Makes(makesResponse);
    var batches := Chunks(makes, BatchSize);
    ChunksKeepElements(makes, BatchSize);
    ChunksPartition(makes, BatchSize);
    PipelineRequests(source, batches);
    var trace := TransformEvents(makesResponse, source);
    assert trace == [MakesRequest] + PipelineEvents(source, batches);
    assert trace[1..] == PipelineEvents(source, batches);
  }

  /**
   * Every failed type fetch is logged twice (by the fetcher, then by the
   * batch) and nothing else is logged, so a fully successful run logs no error.
   */
  lemma TransformErrorLogs(makesResponse: Response<RawMake>, source: TypesSource)
    requires RecordsOnly(makesResponse)
    ensures var failures := Failures(source, Makes(makesResponse));
      Count(TransformEvents(makesResponse, source), IsSkipLog) == failures &&
      Count(TransformEvents(makesResponse, source), IsTypesFetchLog) == failures &&
      ErrorLogs(TransformEvents(makesResponse, source)) == 2 * failures
  {
    var makes := Makes(makesResponse);
    var batches := Chunks(makes, BatchSize);
    ChunksKeepElements(makes, BatchSize);
    ChunksPartition(makes, BatchSize);
    PipelineLogs(source, batches);
    var trace := TransformEvents(makesResponse, source);
    assert trace == [MakesRequest] + PipelineEvents(source, batches);
    CountAppend([MakesRequest], PipelineEvents(source, batches), IsSkipLog);
    CountAppend([MakesRequest], PipelineEvents(source, batches), IsTypesFetchLog);
    CountAppend([MakesRequest], PipelineEvents(source, batches), IsErrorLog);
  }

  // ---------------------------------------------------------------------
  // Batch and pipeline helpers
  // ---------------------------------------------------------------------

  /** Slicing a list of records yields slices of records. */
  lemma {:induction false} ChunksKeepElements(s: seq<Node<RawMake>>, k: nat)
    requires k > 0 && AllElements(s)
    ensures forall b :: 0 <= b < |Chunks(s, k)| ==> AllElements(Chunks(s, k)[b])
    decreases |s|
  {
    if |s| > k {
      ChunksKeepElements(s[k..], k);
      var rest := Chunks(s[k..], k);
      assert Chunks(s, k) == [s[..k]] + rest;
      forall b | 0 <= b < |Chunks(s, k)|
        ensures AllElements(Chunks(s, k)[b])
      {
        if b > 0 {
          assert Chunks(s, k)[b] == rest[b - 1];
        }
      }
    }
  }

  lemma {:induction false} FailuresAppend(source: TypesSource, a: seq<Node<RawMake>>, b: seq<Node<RawMake>>)
    ensures Failures(source, a + b) == Failures(source, a) + Failures(source, b)
    decreases |a|
  {
    if |a| == 0 {
      assert a + b == b;
    } else {
      assert (a + b)[1..] == a[1..] + b;
      FailuresAppend(source, a[1..], b);
    }
  }

  lemma {:induction false} TokensAppend(a: seq<Node<RawMake>>, b: seq<Node<RawMake>>)
    ensures Tokens(a + b) == Tokens(a) + Tokens(b)
    decreases |a|
  {
    if |a| == 0 {
      assert a + b == b;
    } else {
      assert (a + b)[1..] == a[1..] + b;
      TokensAppend(a[1..], b);
    }
  }

  /** Pauses of a batch list: one between two consecutive batches. */
  lemma {:induction false} PipelineDelays(source: TypesSource, batches: seq<seq<Node<RawMake>>>)
    requires forall b :: 0 <= b < |batches| ==> AllElements(batches[b])
    ensures Count(PipelineEvents(source, batches), IsDelay) == if |batches| == 0 then 0 else |batches| - 1
    decreases |batches|
  {
    if |batches| > 0 {
      var head := BatchEvents(source, batches[0]);
      var pause: seq<Event> := if |batches| > 1 then [Delay(DelayBetweenBatchesMs)] else [];
      var rest := PipelineEvents(source, batches[1..]);
      PipelineDelays(source, batches[1..]);
      BatchCounts(source, batches[0]);
      assert PipelineEvents(source, batches) == head + pause + rest;
      CountAppend(head, pause, IsDelay);
      CountAppend(head + pause, rest, IsDelay);
      assert Count(pause, IsDelay) == |pause| by {
        if |pause| > 0 {
          assert pause[1..] == [];
        }
      }
    }
  }

  /** Logs of a batch list: two per failed fetch over the concatenated batches. */
  lemma {:induction false} PipelineLogs(source: TypesSource, batches: seq<seq<Node<RawMake>>>)
    requires forall b :: 0 <= b < |batches| ==> AllElements(batches[b])
    ensures Count(PipelineEvents(source, batches), IsSkipLog) == Failures(source, Flatten(batches))
    ensures Count(PipelineEvents(source, batches), IsTypesFetchLog) == Failures(source, Flatten(batches))
    ensures Count(PipelineEvents(source, batches), IsErrorLog) == 2 * Failures(source, Flatten(batches))
    decreases |batches|
  {
    if |batches| > 0 {
      var head := BatchEvents(source, batches[0]);
      var pause: seq<Event> := if |batches| > 1 then [Delay(DelayBetweenBatchesMs)] else [];
      var rest := PipelineEvents(source, batches[1..]);
      PipelineLogs(source, batches[1..]);
      BatchCounts(source, batches[0]);
      FailuresAppend(source, batches[0], Flatten(batches[1..]));
      assert PipelineEvents(source, batches) == head + (pause + rest);
      CountNone(pause, IsSkipLog);
      CountNone(pause, IsTypesFetchLog);
      CountNone(pause, IsErrorLog);
      CountAppend(pause, rest, IsSkipLog);
      CountAppend(pause, rest, IsTypesFetchLog);
      CountAppend(pause, rest, IsErrorLog);
      CountAppend(head, pause + rest, IsSkipLog);
      CountAppend(head, pause + rest, IsTypesFetchLog);
      CountAppend(head, pause + rest, IsErrorLog);
    }
  }

  /** Requests of a batch list: the tokens of the concatenated batches, in order. */
  lemma {:induction false} PipelineRequests(source: TypesSource, batches: seq<seq<Node<RawMake>>>)
    requires forall b :: 0 <= b < |batches| ==> AllElements(batches[b])
    ensures RequestTokens(PipelineEvents(source, batches)) == Tokens(Flatten(batches))
    decreases |batches|
  {
    if |batches| > 0 {
      var head := BatchEvents(source, batches[0]);
      var pause: seq<Event> := if |batches| > 1 then [Delay(DelayBetweenBatchesMs)] else [];
      var rest := PipelineEvents(source, batches[1..]);
      PipelineRequests(source, batches[1..]);
      BatchRequests(source, batches[0]);
      TokensAppend(batches[0], Flatten(batches[1..]));
      assert PipelineEvents(source, batches) == head + (pause + rest);
      assert RequestTokens(pause + rest) == RequestTokens(rest) by {
        if |pause| > 0 {
          assert (pause + rest)[1..] == rest;
        }
      }
      RequestTokensAppend(head, pause + rest);
    }
  }

  /** A batch of records, when not empty, starts with a request and holds no pause. */
  lemma BatchShape(source: TypesSource, batch: seq<Node<RawMake>>)
    requires AllElements(batch) && |batch| > 0
    ensures |BatchEvents(source, batch)| > 0 && BatchEvents(source, batch)[0].TypesRequest?
    ensures forall i :: 0 <= i < |BatchEvents(source, batch)| ==> !BatchEvents(source, batch)[i].Delay?
  {
    var requests := Requests(batch);
    var logs := SettleAllEvents(source, batch);
    assert BatchEvents(source, batch) == requests + logs;
  }

  /** Pauses of a batch list sit between two batches, never at the end. */
  lemma {:induction false} PipelinePauses(source: TypesSource, batches: seq<seq<Node<RawMake>>>)
    requires forall b :: 0 <= b < |batches| ==> AllElements(batches[b]) && |batches[b]| > 0
    ensures PausesBetweenBatches(PipelineEvents(source, batches))
    ensures |batches| > 0 ==>
      |PipelineEvents(source, batches)| > 0 && PipelineEvents(source, batches)[0].TypesRequest?
    decreases |batches|
  {
    if |batches| > 0 {
      var head := BatchEvents(source, batches[0]);
      var rest := PipelineEvents(source, batches[1..]);
      BatchShape(source, batches[0]);
      PipelinePauses(source, batches[1..]);
      if |batches| > 1 {
        var pause := [Delay(DelayBetweenBatchesMs)];
        assert PipelineEvents(source, batches) == head + pause + rest;
        PausesJoin(head, rest);
      } else {
        assert PipelineEvents(source, batches) == head + [] + [];
        assert PipelineEvents(source, batches) == head;
      }
    }
  }

  /**
   * Slices of records, all of ten makes but the last, run at ten requests per
   * pause.
   */
  lemma {:induction false} PipelinePaced(source: TypesSource, batches: seq<seq<Node<RawMake>>>)
    requires forall b :: 0 <= b < |batches| ==> AllElements(batches[b]) && |batches[b]| <= BatchSize
    requires forall b :: 0 <= b < |batches| - 1 ==> |batches[b]| == BatchSize
    ensures RateLimited(PipelineEvents(source, batches))
    decreases |batches|
  {
    if |batches| > 0 {
      var head := BatchEvents(source, batches[0]);
      BatchCounts(source, batches[0]);
      BatchRequests(source, batches[0]);
      CountZero(head, IsDelay);
      if |batches| > 1 {
        var rest := PipelineEvents(source, batches[1..]);
        PipelinePaced(source, batches[1..]);
        assert PipelineEvents(source, batches) == (head + [Delay(DelayBetweenBatchesMs)]) + rest;
        BatchPaced(head);
        PacedAppend(head + [Delay(DelayBetweenBatchesMs)], rest);
      } else {
        assert PipelineEvents(source, batches) == head + [] + [];
        assert PipelineEvents(source, batches) == head;
      }
    }
  }

  /** A trace that counts zero of a kind holds no event of that kind. */
  lemma {:induction false} CountZero(events: seq<Event>, p: Event -> bool)
    requires Count(events, p) == 0
    ensures forall i :: 0 <= i < |events| ==> !p(events[i])
    decreases |events|
  {
    if |events| > 0 {
      CountZero(events[1..], p);
      forall i | 0 < i < |events| ensures !p(events[i]) {
        assert events[i] == events[1..][i - 1];
      }
    }
  }

  /** A pause-free trace without type requests is trivially paced. */
  lemma RequestFreePaced(events: seq<Event>)
    requires forall i :: 0 <= i < |events| ==> !events[i].Delay? && !events[i].TypesRequest?
    ensures PacedPauses(events)
    ensures |RequestTokens(events)| == BatchSize * Count(events, IsDelay)
  {
    CountNone(events, IsDelay);
    if |events| > 0 {
      RequestFreePaced(events[1..]);
    }
  }

  /** A pause-free batch of exactly ten requests, then its pause. */
  lemma BatchPaced(head: seq<Event>)
    requires forall i :: 0 <= i < |head| ==> !head[i].Delay?
    requires |RequestTokens(head)| == BatchSize
    ensures PacedPauses(head + [Delay(DelayBetweenBatchesMs)])
    ensures |RequestTokens(head + [Delay(DelayBetweenBatchesMs)])| == BatchSize * Count(head + [Delay(DelayBetweenBatchesMs)], IsDelay)
  {
    var pause := [Delay(DelayBetweenBatchesMs)];
    var all := head + pause;
    CountNone(head, IsDelay);
    CountAppend(head, pause, IsDelay);
    RequestTokensAppend(head, pause);
    assert RequestTokens(pause) == [] by {
      assert pause[1..] == [];
    }
    forall p | 0 <= p < |all| && all[p].Delay?
      ensures |RequestTokens(all[..p])| == BatchSize * Count(all[..p + 1], IsDelay)
    {
      if p < |head| {
        assert false;
      }
      assert all[..p] == head;
      assert all[..p + 1] == all;
    }
  }

  /**
   * A paced prefix that ends on a whole number of batches, followed by a
   * rate-limited trace, is rate-limited.
   */
  lemma PacedAppend(a: seq<Event>, b: seq<Event>)
    requires PacedPauses(a)
    requires |RequestTokens(a)| == BatchSize * Count(a, IsDelay)
    requires RateLimited(b)
    ensures RateLimited(a + b)
  {
    var all := a + b;
    forall p | 0 <= p < |all| && all[p].Delay?
      ensures |RequestTokens(all[..p])| == BatchSize * Count(all[..p + 1], IsDelay)
    {
      if p < |a| {
        assert all[..p] == a[..p];
        assert all[..p + 1] == a[..p + 1];
        assert a[p].Delay?;
      } else {
        var q := p - |a|;
        assert all[..p] == a + b[..q];
        assert all[..p + 1] == a + b[..q + 1];
        assert b[q].Delay?;
        RequestTokensAppend(a, b[..q]);
        CountAppend(a, b[..q + 1], IsDelay);
      }
    }
    RequestTokensAppend(a, b);
    CountAppend(a, b, IsDelay);
  }

  /** A pause-free run, a pause, then a trace that starts with a request. */
  lemma PausesJoin(head: seq<Event>, rest: seq<Event>)
    requires forall i :: 0 <= i < |head| ==> !head[i].Delay?
    requires PausesBetweenBatches(rest)
    requires |rest| > 0 && rest[0].TypesRequest?
    ensures PausesBetweenBatches(head + [Delay(DelayBetweenBatchesMs)] + rest)
  {
    var all := head + [Delay(DelayBetweenBatchesMs)] + rest;
    forall i | 0 <= i < |all| && all[i].Delay?
      ensures all[i].ms == DelayBetweenBatchesMs && i + 1 < |all| && all[i + 1].TypesRequest?
    {
      if i > |head| {
        assert all[i] == rest[i - |head| - 1];
        assert all[i + 1] == rest[i - |head|];
      }
    }
  }

  lemma PausesPrepend(e: Event, rest: seq<Event>)
    requires !e.Delay?
    requires PausesBetweenBatches(rest)
    ensures PausesBetweenBatches([e] + rest)
  {
    var all := [e] + rest;
    forall i | 0 <= i < |all| && all[i].Delay?
      ensures all[i].ms == DelayBetweenBatchesMs && i + 1 < |all| && all[i + 1].TypesRequest?
    {
      assert all[i] == rest[i - 1];
      assert all[i + 1] == rest[i];
    }
  }
}
