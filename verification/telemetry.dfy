/** TelemetryMiddleware: the dispatch activity and the restoration of the
    caller's trace context from the TraceContext request field.

    The field holds the binary form of a W3C traceparent (section 3.2.2 of
    the W3C Trace Context recommendation: one version byte, a 16-byte trace
    id, an 8-byte parent (span) id and one flags byte), followed by the
    trace state and the baggage encoded with the Ice 2.0 encoding. The Ice
    2.0 decoder is a parameter; so are the outcome of the next dispatcher
    and whether an activity gets created. */
module Telemetry {
  import opened Errors
  import opened Segments

  const TraceIdSize := 16
  const SpanIdSize := 8
  /** Offset of the trace state: version, trace id, span id, flags. */
  const TraceStateOffset := 1 + TraceIdSize + SpanIdSize + 1

  /** The request field keys; only TraceContext matters here. */
  datatype FieldKey = TraceContext | OtherField(key: int)

  datatype IncomingRequest = IncomingRequest(
    protocol: Protocol,
    path: string,
    operation: string,
    fields: map<FieldKey, seq<byte>>)

  datatype OutgoingResponse = OutgoingResponse(id: nat)

  datatype ActivityKind = Internal | Server

  datatype ParentContext = ParentContext(traceId: seq<byte>, spanId: seq<byte>, flags: byte)

  /** A System.Diagnostics.Activity. AddBaggage puts the new entry in front
      of the others, so baggage lists the entries most recent first, the
      order Activity.Baggage enumerates them. */
  datatype Activity = Activity(
    name: string,
    kind: ActivityKind,
    tags: seq<(string, string)>,
    parent: Option<ParentContext>,
    traceState: string,
    baggage: seq<(string, string)>,
    started: bool,
    stopped: bool,
    disposed: bool)

  function NewActivity(name: string, kind: ActivityKind): (a: Activity) {
    Activity(name, kind, [], None, "", [], false, false, false)
  }

  function AddBaggage(a: Activity, entry: (string, string)): (r: Activity) {
    a.(baggage := [entry] + a.baggage)
  }

  /** Adds each entry in turn, so the last one added comes first. */
  function AddAllBaggage(a: Activity, entries: seq<(string, string)>): (r: Activity)
    ensures r == a.(baggage := Reverse(entries) + a.baggage)
    decreases |entries|
  {
    if |entries| == 0 then a
    else
      var r := AddAllBaggage(AddBaggage(a, entries[0]), entries[1..]);
      assert Reverse(entries[1..]) + ([entries[0]] + a.baggage) == Reverse(entries) + a.baggage;
      r
  }

  function Reverse<T>(s: seq<T>): (r: seq<T>)
    ensures |r| == |s|
    ensures forall i :: 0 <= i < |s| ==> r[i] == s[|s| - 1 - i]
    decreases |s|
  {
    if |s| == 0 then [] else Reverse(s[1..]) + [s[0]]
  }

  /** Decodes the trace state string and then the baggage sequence of
      (key, value) pairs; it may fail on malformed input. */
  type TailDecoder = seq<byte> -> Result<(string, seq<(string, string)>)>

  /** RestoreActivityContext: when the TraceContext field is present, sets
      the parent from bytes 1..25, the trace state and the baggage from what
      follows byte 25, adding the baggage in reverse. A field shorter than
      26 bytes makes the span accesses throw. */
  function RestoreActivityContext(fields: map<FieldKey, seq<byte>>, a: Activity, decodeTail: TailDecoder)
    : (r: Result<Activity>)
    ensures TraceContext !in fields ==> r == Ok(a)
    ensures TraceContext in fields && |fields[TraceContext]| < TraceStateOffset ==> r == Err(OutOfRange)
    ensures r.Ok? ==> r.value.name == a.name && r.value.tags == a.tags && r.value.kind == a.kind &&
                      r.value.started == a.started && r.value.stopped == a.stopped
  {
    if TraceContext !in fields then Ok(a)
    else
      var buffer := fields[TraceContext];
      if |buffer| < TraceStateOffset then Err(OutOfRange)
      else
        var traceId := buffer[1..1 + TraceIdSize];
        var spanId := buffer[1 + TraceIdSize..1 + TraceIdSize + SpanIdSize];
        var flags := buffer[1 + TraceIdSize + SpanIdSize];
        var withParent := a.(parent := Some(ParentContext(traceId, spanId, flags)));
        match decodeTail(buffer[TraceStateOffset..])
        case Err(e) => Err(e)
        case Ok((traceState, baggage)) =>
          Ok(AddAllBaggage(withParent.(traceState := traceState), Reverse(baggage)))
  }

  /** The binary traceparent followed by an encoded tail. */
  function EncodeTraceContext(version: byte, traceId: seq<byte>, spanId: seq<byte>, flags: byte, tail: seq<byte>)
    : (bytes: seq<byte>)
    requires |traceId| == TraceIdSize && |spanId| == SpanIdSize
  {
    [version] + traceId + spanId + [flags] + tail
  }

  // ---------------------------------------------------------------------
  // Dispatch
  // ---------------------------------------------------------------------

  /** What a dispatch did: the activity it created (in its final state),
      whether the next dispatcher was called, and the result. */
  datatype Dispatched = Dispatched(activity: Option<Activity>, nextCalled: bool, result: Result<OutgoingResponse>)

  /** The activity DispatchAsync creates, before its context is restored:
      named after the path and the operation, with the three rpc tags. */
  function Tagged(request: IncomingRequest, kind: ActivityKind): (r: Activity) {
    var activity := NewActivity(request.path + "/" + request.operation, kind);
    activity.(tags := activity.tags + [("rpc.system", "icerpc")] +
                      [("rpc.service", request.path)] + [("rpc.method", request.operation)])
  }

  /** DispatchAsync. sourceCreates says whether the ActivitySource created
      an activity; fallback whether logging is enabled or there is a current
      activity; next is the outcome of the next dispatcher. */
  function DispatchAsync(request: IncomingRequest, sourceCreates: bool, fallback: bool,
                         next: Result<OutgoingResponse>, decodeTail: TailDecoder): (d: Dispatched)
    ensures request.protocol == Ice1 ==> d == Dispatched(None, true, next)
    // an activity exists exactly for non-Ice1 requests that someone observes;
    // it is a server activity when the source created it
    ensures d.activity.Some? <==> request.protocol != Ice1 && (sourceCreates || fallback)
    ensures d.activity.Some? ==> d.activity.value.kind == (if sourceCreates then Server else Internal)
    ensures d.activity.Some? ==>
              && d.activity.value.name == request.path + "/" + request.operation
              && d.activity.value.tags ==
                   [("rpc.system", "icerpc"), ("rpc.service", request.path), ("rpc.method", request.operation)]
    ensures d.nextCalled ==> d.result == next
    // the next dispatcher runs unless restoring the caller's context fails
    ensures !d.nextCalled <==>
              d.activity.Some? && RestoreActivityContext(request.fields, Tagged(request, d.activity.value.kind), decodeTail).Err?
    ensures !d.nextCalled ==> d.result.Err? && d.activity.Some? && !d.activity.value.started
    // when it runs, the activity carries the restored parent, trace state and
    // baggage, and was started, stopped and disposed around the call
    ensures d.nextCalled && d.activity.Some? ==>
              var restored := RestoreActivityContext(request.fields, Tagged(request, d.activity.value.kind), decodeTail);
              && restored.Ok?
              && d.activity.value.parent == restored.value.parent
              && d.activity.value.traceState == restored.value.traceState
              && d.activity.value.baggage == restored.value.baggage
              && d.activity.value.started && d.activity.value.stopped && d.activity.value.disposed
  {
    if request.protocol != Ice1 then
      var created: Option<ActivityKind> :=
        if sourceCreates then Some(Server)
        else if fallback then Some(Internal)
        else None;
      match created
      case None => Dispatched(None, true, next)
      case Some(kind) =>
        var tagged := Tagged(request, kind);
        match RestoreActivityContext(request.fields, tagged, decodeTail)
        case Err(e) => Dispatched(Some(tagged), false, Err(e))
        case Ok(restored) =>
          var started := restored.(started := true);
          Dispatched(Some(started.(stopped := true, disposed := true)), true, next)
    else
      Dispatched(None, true, next)
  }

  // ---------------------------------------------------------------------
  // Properties
  // ---------------------------------------------------------------------

  lemma ReverseReverse<T>(s: seq<T>)
    ensures Reverse(Reverse(s)) == s
  {
  }

  /** Adding the decoded baggage in reverse leaves the activity's baggage
      in the order the peer added it, ahead of any earlier entries. */
  lemma RestoredBaggageKeepsPeerOrder(a: Activity, decoded: seq<(string, string)>)
    ensures AddAllBaggage(a, Reverse(decoded)).baggage == decoded + a.baggage
  {
    ReverseReverse(decoded);
  }

  /** The round trip of the traceparent layout: whatever the version byte,
      the parent context restored is the trace id, span id and flags that
      were encoded, and the trace state and baggage are those the tail
      decodes to, the baggage in the peer's order. */
  lemma TraceContextRoundTrip(fields: map<FieldKey, seq<byte>>, a: Activity, decodeTail: TailDecoder,
                              version: byte, traceId: seq<byte>, spanId: seq<byte>, flags: byte, tail: seq<byte>,
                              traceState: string, baggage: seq<(string, string)>)
    requires |traceId| == TraceIdSize && |spanId| == SpanIdSize
    requires fields[TraceContext := EncodeTraceContext(version, traceId, spanId, flags, tail)] == fields
    requires decodeTail(tail) == Ok((traceState, baggage))
    ensures var r := RestoreActivityContext(fields, a, decodeTail);
            && r.Ok?
            && r.value.parent == Some(ParentContext(traceId, spanId, flags))
            && r.value.traceState == traceState
            && r.value.baggage == baggage + a.baggage
  {
    var buffer := EncodeTraceContext(version, traceId, spanId, flags, tail);
    assert TraceContext in fields && fields[TraceContext] == buffer;
    assert buffer[1..1 + TraceIdSize] == traceId;
    assert buffer[1 + TraceIdSize..1 + TraceIdSize + SpanIdSize] == spanId;
    assert buffer[1 + TraceIdSize + SpanIdSize] == flags;
    assert buffer[TraceStateOffset..] == tail;
    var withParent := a.(parent := Some(ParentContext(traceId, spanId, flags)), traceState := traceState);
    RestoredBaggageKeepsPeerOrder(withParent, baggage);
  }

  /** A malformed tail fails the dispatch before the activity starts and
      before the next dispatcher is called. */
  lemma DecodeFailureSkipsDispatch(request: IncomingRequest, sourceCreates: bool, next: Result<OutgoingResponse>,
                                   decodeTail: TailDecoder, e: Error)
    requires request.protocol != Ice1 && TraceContext in request.fields
    requires |request.fields[TraceContext]| >= TraceStateOffset
    requires decodeTail(request.fields[TraceContext][TraceStateOffset..]) == Err(e)
    ensures var d := DispatchAsync(request, sourceCreates, true, next, decodeTail);
            !d.nextCalled && d.result == Err(e) && !d.activity.value.started
  {
  }

  /** The dispatch and the traceparent layout together: a server activity
      created for a request that carries an encoded trace context runs the
      next dispatcher as a child of the caller's span, with the caller's
      trace state and baggage in the caller's order. */
  lemma DispatchContinuesCallerTrace(request: IncomingRequest, next: Result<OutgoingResponse>,
                                     decodeTail: TailDecoder, version: byte, traceId: seq<byte>,
                                     spanId: seq<byte>, flags: byte, tail: seq<byte>,
                                     traceState: string, baggage: seq<(string, string)>)
    requires request.protocol != Ice1
    requires |traceId| == TraceIdSize && |spanId| == SpanIdSize
    requires TraceContext in request.fields
    requires request.fields[TraceContext] == EncodeTraceContext(version, traceId, spanId, flags, tail)
    requires decodeTail(tail) == Ok((traceState, baggage))
    ensures var d := DispatchAsync(request, true, false, next, decodeTail);
            && d.nextCalled && d.result == next
            && d.activity.Some? && d.activity.value.kind == Server
            && d.activity.value.parent == Some(ParentContext(traceId, spanId, flags))
            && d.activity.value.traceState == traceState
            && d.activity.value.baggage == baggage
  {
    var fields := request.fields;
    assert fields[TraceContext := EncodeTraceContext(version, traceId, spanId, flags, tail)] == fields;
    TraceContextRoundTrip(fields, Tagged(request, Server), decodeTail, version, traceId, spanId, flags, tail,
                          traceState, baggage);
    assert Tagged(request, Server).baggage == [];
    assert baggage + [] == baggage;
  }
}
