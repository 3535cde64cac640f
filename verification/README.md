# IceRPC connection core in Dafny

This project models the decision logic at the centre of IceRPC for C#. It covers seven parts:

- **ProtocolConnection.** The lifecycle of a protocol connection: connect, invoke, shutdown, idle shutdown, abort and dispose. It also covers the single-assignment "shutdown complete" cell.
- **ColocConnection.** The colocated duplex connection: its flag word, its first-remembered exception, and reads that copy a prefix of a segmented relay into a bounded buffer. Writes, shutdown and dispose are also modelled.
- **type_ref_ext.rs.** The Slice-to-C# type-name mapping of the slicec-cs code generator.
- **InteropProxyExtensions.ToString.** The Ice1 string form of a proxy.
- **TelemetryMiddleware.** The dispatch activity, and the restoration of the caller's trace context from the binary traceparent. That layout is section 3.2.2 of the W3C Trace Context recommendation.
- **ColocEndpoint.** The rules of the colocated endpoint.
- **UdpListener.** The listener that hands out its single server connection.

Everything is immutable data and pure functions.

- Each operation of a stateful class is a transition from one state record to the next. It also produces the operation's outcome: a value, or the exception it throws, as an `Error`.
- Asynchronous bodies are split at their await points. The outcome of what they await is a parameter of the transition that observes it. Examples are the result of `ConnectAsyncCore`, whether the shutdown source was canceled, and whether a read failed.
- Each state machine has an `Action` type, an `Enabled`/`Step` pair and a `Run` over a sequence of actions. Properties of whole runs are proved by induction over that sequence: at most one connect, the first completion wins, the dispose body runs once, and read bytes equal written bytes.

Files:

| file | module | models |
|---|---|---|
| errors.dfy | Errors | exception kinds, `Result`, `Option`, `Protocol` |
| protocol_connection.dfy | ProtocolConnection | src/IceRpc/Internal/ProtocolConnection.cs |
| protocol_connection_lemmas.dfy | ProtocolConnectionLemmas | properties of whole runs of a protocol connection |
| segments.dfy | Segments | the segmented relay buffer and the copy loop of `ColocConnection.ReadAsync` |
| coloc_connection.dfy | ColocConnection | src/IceRpc.Coloc/Transports/Internal/ColocConnection.cs |
| coloc_connection_lemmas.dfy | ColocConnectionLemmas | properties of whole runs of a colocated connection |
| type_ref.dfy | TypeRefExt | tools/slicec-cs/src/slicec_ext/type_ref_ext.rs |
| interop_proxy.dfy | InteropProxy | src/IceRpc/InteropProxyExtensions.cs |
| telemetry.dfy | Telemetry | src/IceRpc/TelemetryMiddleware.cs |
| coloc_endpoint.dfy | ColocEndpoints | csharp/src/IceRpc/ColocEndpoint.cs |
| udp_listener.dfy | UdpListener | src/IceRpc/Transports/Internal/UdpListener.cs |

Two behaviours of ProtocolConnection.cs are easy to miss; the model keeps both as written:

- **Dispose does not cancel an in-flight shutdown.** Dispose never cancels `_shutdownCts`; it only cancels dispatches and invocations (ProtocolConnection.cs:138-142). So a shutdown body that was already running can still finish gracefully after dispose began.
- **A late graceful `SetResult` faults the shutdown task.** If the cell was already set by an abort, `SetResult` (ProtocolConnection.cs:355) throws `InvalidOperationException`. The catch-all at :375-378 then rethrows it, so the shutdown task faults. The model records this as `Faulted(SetResultOnCompleted)`, and the first outcome stays in the cell.

## Model

| member | source | states |
|---|---|---|
| ProtocolConnection.New | src/IceRpc/Internal/ProtocolConnection.cs:274-288 | A new connection has no connect task, no shutdown task, no dispose task, an empty completion cell and the idle check off. |
| ProtocolConnection.TrySet | src/IceRpc/Internal/ProtocolConnection.cs:325-326 | TrySetResult/TrySetException: a set cell keeps its value; an empty cell takes the new one. |
| ProtocolConnection.SetResult | src/IceRpc/Internal/ProtocolConnection.cs:355 | SetResult succeeds exactly when the cell is empty and then records the graceful message; otherwise it throws InvalidOperation. |
| ProtocolConnection.ClosedError | src/IceRpc/Internal/ProtocolConnection.cs:40-44 | ConnectionClosed with "connection is shutdown" exactly when the shutdown task completed, "connection is shutting down" exactly when it has not. |
| ProtocolConnection.ConnectAsync | src/IceRpc/Internal/ProtocolConnection.cs:32-57 | Guards in order: disposed, then ObjectDisposed; shutdown started, then ConnectionClosed; connect started, then InvalidOperation. A connect task is published if and only if none of them applies, and nothing else changes. |
| ProtocolConnection.ConnectOutcome | src/IceRpc/Internal/ProtocolConnection.cs:64-87 | Connect succeeds exactly when the core does. On cancellation the result is plain cancellation if the caller's token fired, else ConnectionAborted("connection disposed") if dispose started, else a connect timeout. Other exceptions pass through. |
| ProtocolConnection.ConnectCompletes | src/IceRpc/Internal/ProtocolConnection.cs:59-88 | Completing connect records the outcome above and enables the idle check exactly on success; nothing else changes. |
| ProtocolConnection.InvokeAsync | src/IceRpc/Internal/ProtocolConnection.cs:167-204 | Protocol mismatch is checked before any state. Then, in order: disposed, shutdown started, connect never called. Core is invoked iff connect succeeded. Awaiting connect happens iff connecting on a server. Every other case (not started, failed, connecting client) is InvalidOperation. |
| ProtocolConnection.ResumeInvokeAfterConnect | src/IceRpc/Internal/ProtocolConnection.cs:206-212 | A server invocation that waited on connect proceeds iff connect succeeded, and otherwise fails with connect's exception. |
| ProtocolConnection.PublishShutdown | src/IceRpc/Internal/ProtocolConnection.cs:241-248 | `_shutdownTask ??= t`: an existing shutdown task is kept, else t is published. |
| ProtocolConnection.ShutdownAsync | src/IceRpc/Internal/ProtocolConnection.cs:215-252 | Disposed: ObjectDisposed, no change. Connect never started: a completed task with the message, and the cell gets the message. Connect failed: the cell gets and the caller gets ConnectionAborted("connection establishment failed"). A pre-canceled token publishes a task faulted with ConnectionAborted("connection shutdown canceled"), records it in the cell, cancels the shared source and throws cancellation. Otherwise a shutdown body is published. An existing task is never replaced, and each branch changes nothing else. |
| ProtocolConnection.ShutdownWaitCanceled | src/IceRpc/Internal/ProtocolConnection.cs:254-271 | A caller whose wait is canceled cancels the shared shutdown source (a no-op once it is disposed) and rethrows cancellation; nothing else changes. |
| ProtocolConnection.InitiateShutdown | src/IceRpc/Internal/ProtocolConnection.cs:307-319 | A no-op once dispose or shutdown has started; otherwise it publishes a shutdown body with the message. |
| ProtocolConnection.IdleTimerFires | src/IceRpc/Internal/ProtocolConnection.cs:281-287 | The idle timer initiates shutdown with "idle connection" only when the connection reports itself idle. |
| ProtocolConnection.InvokeOnAbort | src/IceRpc/Internal/ProtocolConnection.cs:325-326 | An abort records its exception only if the cell is still empty; nothing else changes. |
| ProtocolConnection.ShutdownCancellationError | src/IceRpc/Internal/ProtocolConnection.cs:357-374 | A cancellation of the shared source becomes ConnectionAborted: "connection disposed" if dispose started, "connection shutdown canceled" otherwise. Any other cancellation is the shutdown timeout. |
| ProtocolConnection.ShutdownBodyThrew | src/IceRpc/Internal/ProtocolConnection.cs:340-353 | The body fails iff cancellation fired, connect failed or the core threw. Cancellation comes first, then connect's exception. |
| ProtocolConnection.ShutdownBodyCompletes | src/IceRpc/Internal/ProtocolConnection.cs:330-380 | The body always completes the task and leaves the cell set. It runs to completion iff connect succeeded, no cancellation fired, the core returned and the cell was empty. Otherwise it faults with the classified error, and an earlier cell value wins. Dispatches are canceled iff requested and connect succeeded before cancellation. |
| ProtocolConnection.DisposeAsync | src/IceRpc/Internal/ProtocolConnection.cs:91-101 | `_disposeTask ??=`: the first call starts teardown; later calls change nothing. |
| ProtocolConnection.DisposeTeardown | src/IceRpc/Internal/ProtocolConnection.cs:103-156 | Never connected: the cell gets "". Connect failed: the cell gets ConnectionAborted("connection disposed"). Connected with no shutdown: a "server/client connection going away" shutdown that cancels dispatches. Connected with a shutdown that has not faulted: dispatches are canceled with "connection disposed". When connected, nothing but the shutdown task, the canceled dispatches and the dispose phase changes; the shared shutdown source is never canceled. |
| ProtocolConnection.DisposeCleanup | src/IceRpc/Internal/ProtocolConnection.cs:158-164 | After the shutdown task completes and `DisposeAsyncCore` returns, cleanup disarms the idle timer and ends the dispose; nothing else changes. |
| ProtocolConnectionLemmas.NewIsValid | src/IceRpc/Internal/ProtocolConnection.cs:274-288 | A new connection satisfies the lifecycle invariant. |
| ProtocolConnectionLemmas.StepPreservesValid | src/IceRpc/Internal/ProtocolConnection.cs:32-380 | Every enabled operation or completion preserves the invariant. The clauses are: a completed shutdown or a finished dispose has set the cell; running shutdown tasks are bodies that need a connect task; the idle check is armed only after a successful connect; the shared source is canceled only with a shutdown task. |
| ProtocolConnectionLemmas.ReachableIsValid | src/IceRpc/Internal/ProtocolConnection.cs:32-380 | Every state reachable from a new connection satisfies the invariant. |
| ProtocolConnectionLemmas.RunKeepsCompletion | src/IceRpc/Internal/ProtocolConnection.cs:355-378 | First write wins: once the completion cell is set, no sequence of operations changes it. |
| ProtocolConnectionLemmas.DisposedOutcomeIsFinal | src/IceRpc/Internal/ProtocolConnection.cs:103-164 | Once dispose has finished, the cell is set and stays as it is. |
| ProtocolConnectionLemmas.AtMostOneConnect | src/IceRpc/Internal/ProtocolConnection.cs:36-54 | Over any run, at most one connect task is ever published. |
| ProtocolConnectionLemmas.NoPublicationOnceStarted | src/IceRpc/Internal/ProtocolConnection.cs:45-48 | Once connect has started, no later call publishes another connect task. |
| ProtocolConnectionLemmas.SecondConnectFails | src/IceRpc/Internal/ProtocolConnection.cs:45-48 | A second ConnectAsync throws "unexpected second call to ConnectAsync". |
| ProtocolConnectionLemmas.StepKeepsConnectStarted | src/IceRpc/Internal/ProtocolConnection.cs:45-88 | Once started, connect never goes back to not-started, and a completed connect keeps its outcome. |
| ProtocolConnectionLemmas.RunKeepsShutdownTask | src/IceRpc/Internal/ProtocolConnection.cs:225-248 | At most one shutdown: once a shutdown task exists, every later state has the same task. |
| ProtocolConnectionLemmas.InvokeAfterShutdownRejected | src/IceRpc/Internal/ProtocolConnection.cs:177-185 | After ShutdownAsync, whatever happens next, InvokeAsync is rejected with ObjectDisposed or ConnectionClosed. |
| ProtocolConnectionLemmas.DisposeIsIdempotent | src/IceRpc/Internal/ProtocolConnection.cs:97-100 | Calling DisposeAsync twice is the same as calling it once. |
| ProtocolConnectionLemmas.StepKeepsDisposing | src/IceRpc/Internal/ProtocolConnection.cs:97-100 | Once dispose has started it stays started, and a finished dispose stays finished. |
| ProtocolConnectionLemmas.DisposedRejectsEverything | src/IceRpc/Internal/ProtocolConnection.cs:32-39 | Once disposing: connect, invoke and shutdown throw ObjectDisposed, and InitiateShutdown does nothing. |
| ProtocolConnectionLemmas.DisposeBeforeConnect | src/IceRpc/Internal/ProtocolConnection.cs:110-113 | Disposing a never-connected connection finishes with the graceful empty message. |
| ProtocolConnectionLemmas.DisposeStartsGoingAwayShutdown | src/IceRpc/Internal/ProtocolConnection.cs:129-137 | Disposing a connected connection without shutdown starts a "connection going away" shutdown. That shutdown cancels dispatches with that message, and it completes gracefully with it if the core shutdown succeeds. |
| ProtocolConnectionLemmas.DisposeLeavesRunningShutdown | src/IceRpc/Internal/ProtocolConnection.cs:129-142 | Disposing a connection whose shutdown is running keeps that task and the shared source as they were, cancels dispatches with "connection disposed", and the body can still complete gracefully afterwards. |
| ProtocolConnectionLemmas.InvokeBeforeConnectFails | src/IceRpc/Internal/ProtocolConnection.cs:186-189 | InvokeAsync before ConnectAsync throws "cannot call InvokeAsync before calling ConnectAsync". |
| ProtocolConnectionLemmas.ClientServerAsymmetry | src/IceRpc/Internal/ProtocolConnection.cs:200-204 | While connecting, a server invocation awaits connect and a client invocation throws InvalidOperation. |
| ProtocolConnectionLemmas.ProtocolMismatchFirst | src/IceRpc/Internal/ProtocolConnection.cs:169-173 | A protocol mismatch is reported whatever the lifecycle state. |
| ProtocolConnectionLemmas.CanceledShutdownAborts | src/IceRpc/Internal/ProtocolConnection.cs:238-245 | ShutdownAsync with an already-canceled token throws cancellation. It records ConnectionAborted("connection shutdown canceled") both as the shutdown task and in the cell, and cancels the shared shutdown source. |
| ProtocolConnectionLemmas.SharedCancelClassification | src/IceRpc/Internal/ProtocolConnection.cs:357-374 | After a caller's wait is canceled, a canceled body records "connection shutdown canceled", or "connection disposed" if dispose started. Without the shared source canceled, the same cancellation is a timeout. |
| ColocConnection.BitsRoundTrip | src/IceRpc.Coloc/Transports/Internal/ColocConnection.cs:212-218 | The flag set and the int holding Disposed=1, Reading=2, ShuttingDown=4, Writing=8 encode each other exactly. |
| ColocConnection.TrySetFlag | src/IceRpc.Coloc/Transports/Internal/ColocConnection.cs:68-71 | Claim-if-absent: succeeds iff the flag was not set, and the flag is set afterwards. |
| ColocConnection.TrySetFlagOnBits | src/IceRpc.Coloc/Transports/Internal/ColocConnection.cs:212-218 | Claiming a flag on the set agrees with testing and or-ing its bit in the int. |
| ColocConnection.Complete | src/IceRpc.Coloc/Transports/Internal/ColocConnection.cs:124 | Completing a pipe end that is already complete does nothing; the first completion wins. |
| ColocConnection.Remember | src/IceRpc.Coloc/Transports/Internal/ColocConnection.cs:117 | `_exception ??= e`: the first remembered exception is kept. |
| ColocConnection.New | src/IceRpc.Coloc/Transports/Internal/ColocConnection.cs:206-210 | A new connection is unconnected with no flags and no exception. |
| ColocConnection.Connect | src/IceRpc.Coloc/Transports/Internal/ColocConnection.cs:23-28 | ConnectAsync binds the pipe ends and changes nothing else. |
| ColocConnection.Dispose | src/IceRpc.Coloc/Transports/Internal/ColocConnection.cs:30-62 | Remembers ObjectDisposed unless an exception is already remembered, and sets Disposed. Only the first call acts. For each side, an operation in progress has its read or flush canceled; otherwise that side is completed with ConnectionLost. |
| ColocConnection.EndRead | src/IceRpc.Coloc/Transports/Internal/ColocConnection.cs:120-127 | Every exit of ReadAsync clears Reading, and completes the reader with ConnectionLost when disposed. |
| ColocConnection.ReadStart | src/IceRpc.Coloc/Transports/Internal/ColocConnection.cs:64-78 | A second concurrent read fails with "ReadAsync is not thread safe" and changes nothing. A read on a disposed connection throws the remembered exception and clears Reading. Otherwise Reading is claimed. |
| ColocConnection.ReadFinish | src/IceRpc.Coloc/Transports/Internal/ColocConnection.cs:80-127 | Succeeds exactly when the pipe did not fail and the connection is not disposed or the stream has ended. Returns 0 only at end of stream (or for an empty buffer). Otherwise it throws the remembered exception when disposed, or copies exactly min(available, buffer length) bytes as a prefix of the relay and advances by that count. Reading is always cleared. Every exit of a disposed connection completes the reader with ConnectionLost, the pending cancellation is consumed, and the write side is untouched. |
| ColocConnection.EndWrite | src/IceRpc.Coloc/Transports/Internal/ColocConnection.cs:192-203 | Every exit of WriteAsync clears Writing. It completes the writer with ConnectionLost when disposed, or normally when shutting down. |
| ColocConnection.WriteStart | src/IceRpc.Coloc/Transports/Internal/ColocConnection.cs:162-171 | A second concurrent write fails with "WriteAsync is not thread safe" and changes nothing; otherwise Writing is claimed. |
| ColocConnection.WriteStep | src/IceRpc.Coloc/Transports/Internal/ColocConnection.cs:173-203 | Before each buffer: Disposed throws the remembered exception, ShuttingDown throws "connection is shutdown". A buffer reaches the peer, and the write continues, exactly when there is one and neither of those nor a pipe failure stops it. Failures are remembered first-write-wins, and a finished write ends through EndWrite. A write never touches the read side: the inbound relay, the reader and its cancellation are unchanged. |
| ColocConnection.Shutdown | src/IceRpc.Coloc/Transports/Internal/ColocConnection.cs:144-160 | Only the first call acts. It completes the writer itself only when it can claim Writing; otherwise it leaves that to the write in progress. |
| ColocConnection.Step | src/IceRpc.Coloc/Transports/Internal/ColocConnection.cs:30-204 | Every operation keeps the connection invariant. The remembered exception is set once disposed. Writing is set exactly while a write is pending. Operations in progress need a connection. Only dispose completes the reader or completes an end with an error. |
| ColocConnectionLemmas.StepKeepsStream | src/IceRpc.Coloc/Transports/Internal/ColocConnection.cs:112 | What one step reads, followed by what stays unread, is what was unread plus what the peer wrote. |
| ColocConnectionLemmas.ReadsDeliverPeerBytes | src/IceRpc.Coloc/Transports/Internal/ColocConnection.cs:95-113 | Over any run, the bytes read followed by the bytes unread are the bytes first unread followed by everything the peer wrote, in order. |
| ColocConnectionLemmas.RunKeepsException | src/IceRpc.Coloc/Transports/Internal/ColocConnection.cs:117 | Once an exception is remembered, no run changes it. |
| ColocConnectionLemmas.DisposedThrowsFirstException | src/IceRpc.Coloc/Transports/Internal/ColocConnection.cs:32-201 | After dispose, a read started later, and the first buffer of a write started later, throw the exception remembered first: the one remembered before dispose, or ObjectDisposed if there was none, whatever happened in between. |
| ColocConnectionLemmas.DisposeIsIdempotent | src/IceRpc.Coloc/Transports/Internal/ColocConnection.cs:34 | A second Dispose changes nothing. |
| ColocConnectionLemmas.DisposeBodyRunsOnce | src/IceRpc.Coloc/Transports/Internal/ColocConnection.cs:34-61 | Over any run, the dispose body (claiming Disposed) runs at most once. |
| ColocConnectionLemmas.SecondReadRejected | src/IceRpc.Coloc/Transports/Internal/ColocConnection.cs:68-71 | A read issued while another is suspended fails and leaves the first read's state untouched. |
| ColocConnectionLemmas.SecondWriteRejected | src/IceRpc.Coloc/Transports/Internal/ColocConnection.cs:166-169 | A write issued while another is in progress fails and leaves the first write's state untouched. |
| ColocConnectionLemmas.DisposeDuringRead | src/IceRpc.Coloc/Transports/Internal/ColocConnection.cs:120-125 | Dispose during a read cancels it. The read then reports end of stream or throws the remembered exception, completes the reader with ConnectionLost and clears Reading. |
| ColocConnectionLemmas.ShutdownDuringWrite | src/IceRpc.Coloc/Transports/Internal/ColocConnection.cs:198-201 | Shutdown during a write leaves the writer open. The write then fails its next buffer with "connection is shutdown" and completes the writer normally. |
| ColocConnectionLemmas.ShutdownIdleWriter | src/IceRpc.Coloc/Transports/Internal/ColocConnection.cs:148-159 | Without a write in progress, shutdown completes the writer at once, and a second shutdown changes nothing. |
| Segments.CopySegmentToMemory | src/IceRpc.Coloc/Transports/Internal/ColocConnection.cs:129-141 | Copies min(source length, room) bytes, a prefix of the source. |
| Segments.CopyToBuffer | src/IceRpc.Coloc/Transports/Internal/ColocConnection.cs:95-111 | The copy loop, with its single-segment case and its break when the buffer is full, copies exactly min(available, buffer length) bytes. They are the first bytes of the segments in order. |
| Segments.Advance | src/IceRpc.Coloc/Transports/Internal/ColocConnection.cs:112 | Advancing by n leaves exactly the bytes after the first n. |
| TypeRefExt.IsValueType | tools/slicec-cs/src/slicec_ext/type_ref_ext.rs:24-32 | A type is a value type exactly when it is not a sequence, dictionary, class, string or AnyClass. |
| TypeRefExt.ToTypeString | tools/slicec-cs/src/slicec_ext/type_ref_ext.rs:34-72 | An optional reference whose optionality is not ignored gets a name ending in "?"; a sequence or dictionary name ends in "?" exactly then. |
| TypeRefExt.SequenceTypeToString | tools/slicec-cs/src/slicec_ext/type_ref_ext.rs:76-117 | A sequence name always ends with its container's '>' or ']'; ']' (the array form) exactly for incoming sequences without cs:generic. |
| TypeRefExt.DictionaryTypeToString | tools/slicec-cs/src/slicec_ext/type_ref_ext.rs:119-165 | A dictionary name always ends with its container's '>'. |
| TypeRefExt.ValueTypesAreNotCollections | tools/slicec-cs/src/slicec_ext/type_ref_ext.rs:24-32 | Value types are never sequences, dictionaries, classes, strings or AnyClass. |
| TypeRefExt.OptionalAppendsQuestionMark | tools/slicec-cs/src/slicec_ext/type_ref_ext.rs:56-71 | The mapping of an optional reference is the non-optional mapping followed by "?". The "?" is omitted when optionality is ignored, by the caller or because the type maps to ReadOnlyMemory. |
| TypeRefExt.CollectionQuestionMarkIff | tools/slicec-cs/src/slicec_ext/type_ref_ext.rs:67-71 | A sequence or dictionary name ends with "?" exactly when the reference is optional and optionality is not ignored. |
| TypeRefExt.ReadOnlyMemoryMapping | tools/slicec-cs/src/slicec_ext/type_ref_ext.rs:58-65 | An outgoing sequence of fixed-size numeric elements without cs:generic maps to ReadOnlyMemory of its element, optional or not. |
| TypeRefExt.OutgoingSequenceMapping | tools/slicec-cs/src/slicec_ext/type_ref_ext.rs:102-114 | Every other outgoing sequence maps to IEnumerable of its element. |
| TypeRefExt.DataMemberIsNested | tools/slicec-cs/src/slicec_ext/type_ref_ext.rs:86-89 | Data members and nested types map identically, for every type. |
| TypeRefExt.ContextOnlyAffectsCollections | tools/slicec-cs/src/slicec_ext/type_ref_ext.rs:40-54 | The mapping of anything but a sequence or a dictionary does not depend on the context. |
| TypeRefExt.SequenceMapping | tools/slicec-cs/src/slicec_ext/type_ref_ext.rs:76-101 | Elements are rendered nested and non-ignored. Data members and nested types get IList. Incoming gets `E[]` without cs:generic, a namespace prefix only for List, LinkedList, Queue and Stack, and any other generic name verbatim. |
| TypeRefExt.DictionaryMapping | tools/slicec-cs/src/slicec_ext/type_ref_ext.rs:119-164 | Keys and values are rendered nested. Data members and nested types get IDictionary. Incoming gets Dictionary without cs:generic, a prefix only for SortedDictionary, and other names verbatim. Outgoing gets IEnumerable of KeyValuePair. |
| InteropProxy.FindFirstOf | src/IceRpc/InteropProxyExtensions.cs:31 | -1 iff no character is one of the given ones; otherwise the index of the first such character. |
| InteropProxy.Quote | src/IceRpc/InteropProxyExtensions.cs:28-40 | A string is enclosed in double quotes iff it contains a space, ':' or '@'. |
| InteropProxy.QuoteRoundTrip | src/IceRpc/InteropProxyExtensions.cs:30-40 | Stripping one pair of quotes undoes quoting, and quoting changes a string iff it has a separator. |
| InteropProxy.ToString | src/IceRpc/InteropProxyExtensions.cs:17-108 | The proxy string; its Ice1 form is tied to the token view by ToStringRendersTokens and to the plain URI form by NonIce1Unchanged. |
| InteropProxy.NonIce1Unchanged | src/IceRpc/InteropProxyExtensions.cs:19-22 | A proxy of another protocol keeps its own string form. |
| InteropProxy.Tokens | src/IceRpc/InteropProxyExtensions.cs:24-106 | The Ice1 form, as tokens in order: the identity, " -f" iff the facet is non-empty, " -d" iff the endpoint is udp (otherwise " -t", also without an endpoint), and " -e" always. Then the adapter of a loc endpoint, or the endpoint and every alt endpoint, or nothing. |
| InteropProxy.ToStringRendersTokens | src/IceRpc/InteropProxyExtensions.cs:17-108 | The string ToString builds is exactly the rendering of those tokens. |
| InteropProxy.EndpointTokens | src/IceRpc/InteropProxyExtensions.cs:98-105 | One endpoint token per endpoint, in order. |
| InteropProxy.AltSuffixRendersEndpoints | src/IceRpc/InteropProxyExtensions.cs:101-105 | The alt-endpoint loop appends ':' and each endpoint, in order. |
| InteropProxy.AltSuffixAppend | src/IceRpc/InteropProxyExtensions.cs:101-105 | The alt endpoints of a concatenation render one list after the other. |
| InteropProxy.LocIgnoresAltEndpoints | src/IceRpc/InteropProxyExtensions.cs:76-95 | With a loc endpoint the alt endpoints do not affect the string. |
| Telemetry.AddAllBaggage | src/IceRpc/TelemetryMiddleware.cs:102-105 | Adding entries one by one puts them, last first, in front of the existing baggage. |
| Telemetry.RestoreActivityContext | src/IceRpc/TelemetryMiddleware.cs:69-107 | Without the TraceContext field the activity is unchanged. A field shorter than 26 bytes throws. Restoring never touches the name, kind, tags or started state. |
| Telemetry.TraceContextRoundTrip | src/IceRpc/TelemetryMiddleware.cs:74-88 | For a field encoded as version, 16-byte trace id, 8-byte span id, flags and tail, the parent restored is that trace id, span id and flags, whatever the version. The trace state and baggage are those the tail decodes to. |
| Telemetry.RestoredBaggageKeepsPeerOrder | src/IceRpc/TelemetryMiddleware.cs:100-105 | Adding the decoded baggage in reverse leaves the activity's baggage in the peer's order. |
| Telemetry.DispatchAsync | src/IceRpc/TelemetryMiddleware.cs:30-67 | Ice1 requests go to the next dispatcher with no activity. An activity exists exactly for other requests when the source creates one (a server activity) or logging or a current activity calls for one (an internal activity). It is named "path/operation" and tagged rpc.system, rpc.service and rpc.method. The next dispatcher runs exactly unless restoring the caller's context fails; when it runs, the activity has the restored parent, trace state and baggage, was started, stopped and disposed, and the result is the next dispatcher's. |
| Telemetry.DispatchContinuesCallerTrace | src/IceRpc/TelemetryMiddleware.cs:38-107 | A request carrying an encoded trace context is dispatched under a server activity whose parent is the caller's trace id, span id and flags, with the caller's trace state and baggage in the caller's order. |
| Telemetry.DecodeFailureSkipsDispatch | src/IceRpc/TelemetryMiddleware.cs:42-55 | A malformed trace context fails the dispatch before the activity starts and before the next dispatcher runs. |
| ColocEndpoints.NewColoc | csharp/src/IceRpc/ColocEndpoint.cs:83-86 | A new colocated endpoint is of the ColocEndpoint class and the coloc transport, has the given host, port and protocol, and has no options. |
| ColocEndpoints.IsAlwaysSecure | csharp/src/IceRpc/ColocEndpoint.cs:18 | Every colocated endpoint is secure, whatever its protocol. |
| ColocEndpoints.HasOptions | csharp/src/IceRpc/ColocEndpoint.cs:20-23 | A colocated endpoint has options exactly when its default port is 0 (the Ice1 endpoints). |
| ColocEndpoints.DefaultPort | csharp/src/IceRpc/ColocEndpoint.cs:22-25 | The default port is 0 exactly for Ice1 and 4062 exactly otherwise. |
| ColocEndpoints.Equals | csharp/src/IceRpc/ColocEndpoint.cs:29-30 | Equal iff the other endpoint is a ColocEndpoint and base-equal. |
| ColocEndpoints.EqualsIsEquivalence | csharp/src/IceRpc/ColocEndpoint.cs:29-30 | Among colocated endpoints, Equals is reflexive, symmetric and transitive whenever the base comparison is. |
| ColocEndpoints.NeverEqualToOtherClass | csharp/src/IceRpc/ColocEndpoint.cs:29-30 | A colocated endpoint never equals an endpoint of another class. |
| ColocEndpoints.ConnectAsync | csharp/src/IceRpc/ColocEndpoint.cs:38-57 | Yields a connection to the registered acceptor iff one is registered for the endpoint; otherwise ConnectionRefused. |
| ColocEndpoints.ConnectFindsRegisteredAcceptor | csharp/src/IceRpc/ColocEndpoint.cs:43-56 | Registering an acceptor for an endpoint makes connecting to it reach that acceptor and leaves other endpoints unaffected. |
| ColocEndpoints.CreateEndpoint | csharp/src/IceRpc/ColocEndpoint.cs:59-61 | Unmarshaling always fails with InvalidData, and the protocol's name sits between the message's fixed prefix and suffix. |
| ColocEndpoints.WriteOptions11 | csharp/src/IceRpc/ColocEndpoint.cs:32-33 | Marshaling always fails with NotSupported. |
| ColocEndpoints.CreateDatagramServerConnection | csharp/src/IceRpc/ColocEndpoint.cs:35-36 | Always fails with InvalidOperation. |
| ColocEndpoints.UnsupportedOperationsIgnoreInput | csharp/src/IceRpc/ColocEndpoint.cs:32-61 | Unmarshaling, marshaling and datagram servers fail whatever they are given. The only thing that varies is the protocol named by the unmarshaling error, which can be read back from the message, so different protocols give different errors. |
| ColocEndpoints.ParseIce1Endpoint | csharp/src/IceRpc/ColocEndpoint.cs:63-71 | Fails exactly when ParseHostAndPort does; otherwise a colocated Ice1 endpoint with the parsed host and port. |
| ColocEndpoints.ParseIce2Endpoint | csharp/src/IceRpc/ColocEndpoint.cs:73-81 | A colocated Ice2 endpoint with the given host and port and no options. |
| ColocEndpoints.ParsedDefaults | csharp/src/IceRpc/ColocEndpoint.cs:18-25 | Parsed Ice1 endpoints have options and default port 0; Ice2 endpoints have none and port 4062. |
| UdpListener.New | src/IceRpc/Transports/Internal/UdpListener.cs:45-49 | A new listener holds its server connection in the slot, and its accept task is pending. |
| UdpListener.AcceptAsync | src/IceRpc/Transports/Internal/UdpListener.cs:15-34 | Takes the connection out of the slot if it is there. Otherwise it waits, or throws the accept task's failure as a transport exception. |
| UdpListener.ResumeAccept | src/IceRpc/Transports/Internal/UdpListener.cs:26-33 | A waiting accept resumes only when the task faults, and then throws its failure as a transport exception. |
| UdpListener.DisposeAsWritten | src/IceRpc/Transports/Internal/UdpListener.cs:38-43 | Disposes the slot's connection if still there. It faults the accept task, and throws iff the task had already faulted. |
| UdpListener.Dispose | src/IceRpc/Transports/Internal/UdpListener.cs:38-43 | As above with TrySetException: only the first call faults the task with ObjectDisposed, and Dispose never throws. |
| UdpListener.FirstAcceptReturnsConnection | src/IceRpc/Transports/Internal/UdpListener.cs:19-23 | The first accept returns the constructor's connection; the second waits. |
| UdpListener.DisposeTwiceThrows | src/IceRpc/Transports/Internal/UdpListener.cs:42 | As written, the second Dispose of a listener throws InvalidOperation. |
| UdpListener.DisposeIsIdempotent | src/IceRpc/Transports/Internal/UdpListener.cs:38-43 | With the correction, a second Dispose changes nothing, disposes nothing and does not throw. |
| UdpListener.AcceptAfterDisposeThrows | src/IceRpc/Transports/Internal/UdpListener.cs:27-33 | After Dispose, new and waiting accepts fail with ObjectDisposed wrapped as a transport exception. |
| UdpListener.HandedOffAtMostOnce | src/IceRpc/Transports/Internal/UdpListener.cs:19-41 | Over any sequence of calls, the connection leaves the slot at most once: returned by an accept or disposed by Dispose, never both. |

## Left out

- Real asynchrony is not modelled: task scheduling, `Task.Yield`, timers firing, `CancelAfter` timing and linked token sources. Each await becomes a transition whose outcome is a parameter, and interleavings are the orders in which transitions are taken.
- The protocol hooks of ProtocolConnection are parameters or outcomes of transitions: `ConnectAsyncCore`, `InvokeAsyncCore`, `ShutdownAsyncCore`, `CheckIfIdle` and `CancelDispatchesAndInvocations`. `DisposeAsyncCore` is taken to return (next line). Canceled dispatches are recorded as the list of exceptions they were canceled with.
- ProtocolConnection.DisposeCleanup: `DisposeAsyncCore` is taken to return. When it throws (ProtocolConnection.cs:158), the source skips the cleanup of :161-163, so the idle timer and both cancellation sources stay undisposed, and the dispose task faults: every later DisposeAsync returns that faulted task. The model has no faulted dispose phase.
- The two timeout messages embed a `TimeSpan` printed as a double. They are the opaque errors `ConnectTimeout` and `ShutdownTimeout`.
- `InvokeAsyncCore`'s own result and the transport information that connect returns are not modelled.
- `PipeReader`/`PipeWriter` internals are not modelled. The relay is a sequence of byte segments, and a read waits until there is data, end of stream, a cancellation or a failure.
- What a write does to the peer's pipe beyond appending the buffer is not modelled, and neither is `System.Threading.Channels`.
- The `TrySetFlag`/`HasFlag`/`ClearFlag` extension methods are not part of this model. They are taken to be atomic operations on the int, which the bit-level lemmas tie to the flag set.
- Helpers whose code lives elsewhere are parameters: `escape_scoped_identifier`, `scoped_proxy_implementation_name`, `cs_keyword`, `Identity.ToString`, `StringUtil.EscapeString`, `IdentityAndFacet.FromPath`, `ParseHostAndPort`, the Ice 2.0 decoder, and the base `Endpoint.Equals`.
- `has_fixed_size_numeric_elements` is a field of the sequence reference.
- TypeRefExt.ToTypeString: type aliases are not modelled. `concrete_type()` and `concrete_typeref()` are the identity, so the `cs:generic` attribute read on the reference itself (type_ref_ext.rs:61) and the one read on the resolved sequence (:90, :104-105) are the same field and cannot disagree.
- TypeRefExt.ToTypeString: `cs:generic` is modelled as its first argument. The panic of `args.first().unwrap()` on an attribute with no arguments is not modelled.
- InteropProxy.FindFirstOf: defined from its documented meaning (the first index of any of the given characters, or -1), not from its code; StringUtil is not part of this model.
- InteropProxy.ToString: `IdentityAndFacet.FromPath` is taken to succeed. Its failures on malformed paths are not modelled.
- Telemetry.RestoreActivityContext: an `IndexOutOfRangeException` on a short field is reported the same way as an `ArgumentOutOfRangeException` from `Slice`, as `OutOfRange`.
- Telemetry.RestoreActivityContext: `ActivityTraceId.CreateFromBytes` and `ActivitySpanId.CreateFromBytes` are taken to keep the bytes as they are.
- Telemetry.DispatchAsync: whether the activity source has listeners, and whether logging is enabled or a current activity exists, are boolean parameters. When the request has no trace context field, `Start` (TelemetryMiddleware.cs:50) takes `Activity.Current` as the parent; neither that parent nor the baggage Start inherits from it is modelled, so the model's activity then has no parent.
- ColocEndpoints.ConnectAsync: the acceptor registry is a map keyed by endpoint value; the dictionary's own equality and hashing are not modelled. What `ColocAcceptor.NewClientConnection` and `ColocSocket` build is reduced to the acceptor's identifier.
- ColocConnection.Connect: a second ConnectAsync on the same connection rebinds fresh pipe ends in the source (ColocConnection.cs:25); the model binds the ends once and keeps them. A protocol connection never connects its transport twice (ProtocolConnectionLemmas.AtMostOneConnect).
- `ColocEndpoint.Acceptor(server)` is not modelled, because it only constructs an object.
- UdpListener.AcceptAsync: `ToTransportException` (ExceptionUtil is not part of this model) is modelled as wrapping the exception. `UdpListener.ToString` is not modelled.
- ServerEventSource (event counters and logging), IceRpcProtocol (constant properties) and the console client template are not modelled. The tests exercise generated code that is not part of this model.

## Findings

| source | as written | input that shows it | evidently intended | confidence | as-written member | corrected member |
|---|---|---|---|---|---|---|
| src/IceRpc/Transports/Internal/UdpListener.cs:42 | Dispose always calls `_acceptTask.SetException`, which throws `InvalidOperationException` when the task has already completed | a listener disposed twice: the first call faults the accept task, the second throws | Dispose can be called more than once and later calls do nothing (the .NET disposal convention), i.e. `TrySetException` | not executed; medium | UdpListener.DisposeAsWritten (UdpListener.DisposeTwiceThrows) | UdpListener.Dispose (UdpListener.DisposeIsIdempotent) |
