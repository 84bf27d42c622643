/**
 * `getAllMakes` and `getVehicleTypesForMake` of the XML parser service: one GET,
 * one parse, the shape normaliser, and a catch block that logs once and throws a
 * fresh `Error` carrying the same message.
 *
 * The GET and the parse are collaborators: a `Response` is what the pair
 * settles to, either the container shape the parser produced or the value that
 * the HTTP client or the parser threw. Both failures land in the same catch
 * block, so one value covers both.
 */
module Fetchers {
  import opened Wrappers
  import opened Records
  import opened Normalise

  const MakesFallback := "Unknown error during Makes XML parsing"
  const TypesFallback := "Unknown error during Vehicle Types XML parsing"

  /** Where an error log is written. */
  datatype Site =
    | MakesFetchFailed   // catch block of getAllMakes
    | TypesFetchFailed   // catch block of getVehicleTypesForMake
    | MakeSkipped        // per-make `.catch` inside a batch of transformData
    | TransformFailed    // catch block of transformData

  /** The observable steps of the ingestion pipeline. */
  datatype Event =
    | MakesRequest                         // GET of the make list
    | TypesRequest(token: string)          // GET of one make's type list
    | Delay(ms: nat)                       // the pause between two batches
    | ErrorLog(site: Site, message: string)

  /** A call's settled value together with the events it produced. */
  datatype Run<T> = Run(value: Result<T, Thrown>, events: seq<Event>)

  /** What a GET followed by a parse settles to. */
  type Response<T> = Result<Shape<T>, Thrown>

  /** `throw new Error(errorMessage)` after extracting the message of whatever was caught. */
  function Rethrown(t: Thrown, fallback: string): (e: Thrown)
    ensures e.ErrorValue?
    ensures t.ErrorValue? ==> e == t
    ensures t.NonErrorValue? ==> e.message == fallback
  {
    ErrorValue(MessageOr(t, fallback))
  }

  /** Number of events of a trace that satisfy `p`. */
  function Count(events: seq<Event>, p: Event -> bool): nat
  {
    if |events| == 0 then 0
    else (if p(events[0]) then 1 else 0) + Count(events[1..], p)
  }

  /** Counting distributes over concatenation of traces. */
  lemma {:induction false} CountAppend(a: seq<Event>, b: seq<Event>, p: Event -> bool)
    ensures Count(a + b, p) == Count(a, p) + Count(b, p)
    decreases |a|
  {
    if |a| == 0 {
      assert a + b == b;
    } else {
      assert (a + b)[1..] == a[1..] + b;
      CountAppend(a[1..], b, p);
    }
  }

  /** A trace none of whose events satisfies `p` counts zero of them. */
  lemma {:induction false} CountNone(events: seq<Event>, p: Event -> bool)
    requires forall i :: 0 <= i < |events| ==> !p(events[i])
    ensures Count(events, p) == 0
    decreases |events|
  {
    if |events| > 0 {
      CountNone(events[1..], p);
    }
  }

  /** Counting a two-event trace. */
  lemma CountPair(a: Event, b: Event, p: Event -> bool)
    ensures Count([a, b], p) == (if p(a) then 1 else 0) + (if p(b) then 1 else 0)
  {
    assert [a, b][1..] == [b];
    assert [b][1..] == [];
    assert Count([b], p) == (if p(b) then 1 else 0) + Count([], p);
    assert Count([a, b], p) == (if p(a) then 1 else 0) + Count([b], p);
  }

  predicate IsErrorLog(e: Event) { e.ErrorLog? }
  predicate IsDelay(e: Event) { e.Delay? }
  predicate IsSkipLog(e: Event) { e.ErrorLog? && e.site == MakeSkipped }
  predicate IsTypesFetchLog(e: Event) { e.ErrorLog? && e.site == TypesFetchFailed }

  /** Number of error logs in a trace. */
  function ErrorLogs(events: seq<Event>): nat
  {
    Count(events, IsErrorLog)
  }

  /**
   * `getAllMakes`: the request is issued first; a fulfilled response is
   * normalised with `??`; a failure of the request or of the parse is logged
   * once and surfaces as an `Error` with the same message, or with the fixed
   * makes message when what was thrown is not an `Error`.
   */
  function GetAllMakes(response: Response<RawMake>): (r: Run<seq<Node<RawMake>>>)
    ensures |r.events| > 0 && r.events[0] == MakesRequest
    ensures r.value.Ok? <==> response.Ok?
    ensures response.Ok? ==> r.value.value == NormaliseNullish(response.value)
    ensures response.Ok? ==> ErrorLogs(r.events) == 0
    ensures response.Err? && response.error.ErrorValue? ==> r.value.error == response.error
    ensures response.Err? && response.error.NonErrorValue? ==> r.value.error == ErrorValue(MakesFallback)
    ensures response.Err? ==> r.events[1..] == [ErrorLog(MakesFetchFailed, r.value.error.message)]
    ensures response.Err? ==> ErrorLogs(r.events) == 1
  {
    match response
    case Ok(shape) => Run(Ok(NormaliseNullish(shape)), [MakesRequest])
    case Err(t) =>
      var e := Rethrown(t, MakesFallback);
      var events := [MakesRequest, ErrorLog(MakesFetchFailed, e.message)];
      assert events[1..][1..] == [];
      assert Count(events[1..], IsErrorLog) == 1;
      Run(Err(e), events)
  }

  /**
   * `getVehicleTypesForMake` after its request has been issued (the request is
   * issued synchronously by the caller's batch, so it belongs to the caller's
   * trace): a fulfilled response is normalised with `||`; a failure is logged
   * once and surfaces as an `Error` with the same message, or with the fixed
   * types message.
   */
  function GetVehicleTypesForMake(response: Response<RawType>): (r: Run<seq<Node<RawType>>>)
    ensures r.value.Ok? <==> response.Ok?
    ensures response.Ok? ==> r.value.value == NormaliseFalsy(response.value) && r.events == []
    ensures response.Err? && response.error.ErrorValue? ==> r.value.error == response.error
    ensures response.Err? && response.error.NonErrorValue? ==> r.value.error == ErrorValue(TypesFallback)
    ensures response.Err? ==> r.events == [ErrorLog(TypesFetchFailed, r.value.error.message)]
  {
    match response
    case Ok(shape) => Run(Ok(NormaliseFalsy(shape)), [])
    case Err(t) =>
      var e := Rethrown(t, TypesFallback);
      Run(Err(e), [ErrorLog(TypesFetchFailed, e.message)])
  }
}
