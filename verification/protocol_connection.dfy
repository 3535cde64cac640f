/** The lifecycle decision logic of IceRpc's ProtocolConnection base class.

    Every public operation of the class takes the connection mutex, looks at
    a handful of task handles and picks a branch; the asynchronous bodies
    (connect, shutdown, dispose) then run outside the lock. This module
    models the handles as an immutable record and each decision, and each
    completion of an asynchronous body, as a pure transition. What the
    protocol-specific hooks (ConnectAsyncCore, ShutdownAsyncCore, ...) do is
    not modelled: their outcome is a parameter of the transition that
    observes it. */
module ProtocolConnection {
  import opened Errors

  /** The status of _connectTask. */
  datatype ConnectStatus =
    | NotStarted                    // _connectTask is null
    | Connecting                    // published, not yet completed
    | Connected                     // IsCompletedSuccessfully
    | ConnectFailed(error: Error)   // IsCanceled (OperationCanceled) or IsFaulted

  /** How _shutdownTask was created. */
  datatype ShutdownOrigin =
    | FromResult(message: string)                    // Task.FromResult(message)
    | FromException(error: Error)                    // Task.FromException(exception)
    | Body(message: string, cancelDispatches: bool)  // CreateShutdownTask(message, cancel...)

  datatype TaskStatus = Running | RanToCompletion | Faulted(error: Error)

  datatype ShutdownTask = ShutdownTask(origin: ShutdownOrigin, status: TaskStatus)

  /** The value of the single-assignment _shutdownCompleteSource. */
  datatype Completion = Graceful(reason: string) | Aborted(error: Error)

  /** Progress of _disposeTask: not created, created but its body not yet
      run, waiting for the shutdown it started or accelerated, finished. */
  datatype DisposePhase = NotDisposed | TeardownPending | AwaitingShutdown | Cleaned

  /** What an abstract hook (ConnectAsyncCore, ShutdownAsyncCore) did. */
  datatype CoreOutcome = CoreOk | CoreThrew(error: Error)

  datatype Connection = Connection(
    isServer: bool,
    protocol: Protocol,
    connect: ConnectStatus,
    shutdown: Option<ShutdownTask>,
    dispose: DisposePhase,
    shutdownCanceled: bool,          // _shutdownCts.IsCancellationRequested
    completion: Option<Completion>,  // _shutdownCompleteSource
    idleCheckEnabled: bool,          // the idle timer is armed
    dispatchCancels: seq<Error>)     // every CancelDispatchesAndInvocations argument, in order

  const ShutdownMessage := "connection is shutdown"
  const ShuttingDownMessage := "connection is shutting down"
  const EstablishmentFailedMessage := "connection establishment failed"
  const ShutdownCanceledMessage := "connection shutdown canceled"
  const DisposedMessage := "connection disposed"
  const IdleMessage := "idle connection"

  /** The InvalidOperationException TaskCompletionSource.SetResult raises
      when the source already holds a value (the .NET text is not kept). */
  const SetResultOnCompleted := InvalidOperation("task already completed")

  function New(isServer: bool, protocol: Protocol): (c: Connection)
    ensures c.connect == NotStarted && c.shutdown == None && c.dispose == NotDisposed
    ensures c.completion == None && !c.idleCheckEnabled && c.dispatchCancels == []
  {
    Connection(isServer, protocol, NotStarted, None, NotDisposed, false, None, false, [])
  }

  predicate Disposing(c: Connection) {
    !c.dispose.NotDisposed?
  }

  predicate IsCompleted(t: ShutdownTask) {
    !t.status.Running?
  }

  /** TrySetResult / TrySetException: the first assignment wins. */
  function TrySet(cell: Option<Completion>, v: Completion): (r: Option<Completion>)
    ensures cell.Some? ==> r == cell
    ensures cell.None? ==> r == Some(v)
  {
    if cell.None? then Some(v) else cell
  }

  /** SetResult: fails when the cell was already assigned. */
  function SetResult(cell: Option<Completion>, reason: string): (r: Result<Option<Completion>>)
    ensures r.Ok? <==> cell.None?
    ensures r.Ok? ==> r.value == Some(Graceful(reason))
    ensures r.Err? ==> r.error == SetResultOnCompleted
  {
    if cell.None? then Ok(Some(Graceful(reason))) else Err(SetResultOnCompleted)
  }

  /** The ConnectionClosedException thrown once a shutdown task exists. */
  function ClosedError(t: ShutdownTask): (e: Error)
    ensures e.ConnectionClosed?
    ensures e.message == ShutdownMessage <==> IsCompleted(t)
    ensures e.message == ShuttingDownMessage <==> !IsCompleted(t)
  {
    ConnectionClosed(if IsCompleted(t) then ShutdownMessage else ShuttingDownMessage)
  }

  // ---------------------------------------------------------------------
  // ConnectAsync
  // ---------------------------------------------------------------------

  /** The locked part of ConnectAsync: the guards, then publication of the
      connect task. */
  function ConnectAsync(c: Connection): (r: Result<Connection>)
    ensures Disposing(c) ==> r == Err(ObjectDisposed)
    ensures !Disposing(c) && c.shutdown.Some? ==> r == Err(ClosedError(c.shutdown.value))
    ensures !Disposing(c) && c.shutdown.None? && !c.connect.NotStarted? ==>
              r.Err? && r.error.InvalidOperation?
    ensures r.Ok? <==> !Disposing(c) && c.shutdown.None? && c.connect.NotStarted?
    ensures r.Ok? ==> r.value == c.(connect := Connecting)
  {
    if Disposing(c) then Err(ObjectDisposed)
    else if c.shutdown.Some? then Err(ClosedError(c.shutdown.value))
    else if !c.connect.NotStarted? then Err(InvalidOperation("unexpected second call to ConnectAsync"))
    else Ok(c.(connect := Connecting))
  }

  /** The final status of the connect task given what ConnectAsyncCore did
      and whether the caller's own token fired. */
  function ConnectOutcome(core: CoreOutcome, callerCanceled: bool, disposing: bool): (r: ConnectStatus)
    ensures r.Connected? || r.ConnectFailed?
    ensures r.Connected? <==> core.CoreOk?
    ensures core.CoreThrew? && IsCancellation(core.error) ==>
              r.error == (if callerCanceled then OperationCanceled
                          else if disposing then ConnectionAborted(DisposedMessage)
                          else ConnectTimeout)
    ensures core.CoreThrew? && !IsCancellation(core.error) ==> r.error == core.error
  {
    match core
    case CoreOk => Connected
    case CoreThrew(e) =>
      if !IsCancellation(e) then ConnectFailed(e)
      else if callerCanceled then ConnectFailed(OperationCanceled)
      else if disposing then ConnectFailed(ConnectionAborted(DisposedMessage))
      else ConnectFailed(ConnectTimeout)
  }

  /** PerformConnectAsync finishing: success arms the idle timer. */
  function ConnectCompletes(c: Connection, core: CoreOutcome, callerCanceled: bool): (r: Connection)
    requires c.connect.Connecting?
    ensures r.connect == ConnectOutcome(core, callerCanceled, Disposing(c))
    ensures r.idleCheckEnabled <==> core.CoreOk? || c.idleCheckEnabled
    ensures r.(connect := c.connect, idleCheckEnabled := c.idleCheckEnabled) == c
  {
    var status := ConnectOutcome(core, callerCanceled, Disposing(c));
    c.(connect := status, idleCheckEnabled := c.idleCheckEnabled || status.Connected?)
  }

  // ---------------------------------------------------------------------
  // InvokeAsync
  // ---------------------------------------------------------------------

  datatype InvokeDecision =
    | InvokeCore                 // InvokeAsyncCore is called now
    | AwaitConnectThenInvoke     // PerformInvokeAsync: a server waits for connect
    | InvokeRejected(error: Error)

  function MismatchError(request: Protocol, connection: Protocol): (e: Error) {
    InvalidOperation("cannot send " + request.name + " request on " + connection.name + " connection")
  }

  /** InvokeAsync's decision. The protocol check runs before the lock. */
  function InvokeAsync(c: Connection, request: Protocol): (r: InvokeDecision)
    ensures request != c.protocol ==> r == InvokeRejected(MismatchError(request, c.protocol))
    ensures request == c.protocol && Disposing(c) ==> r == InvokeRejected(ObjectDisposed)
    ensures request == c.protocol && !Disposing(c) && c.shutdown.Some? ==>
              r == InvokeRejected(ClosedError(c.shutdown.value))
    ensures r == InvokeCore <==>
              request == c.protocol && !Disposing(c) && c.shutdown.None? && c.connect.Connected?
    ensures r == AwaitConnectThenInvoke <==>
              request == c.protocol && !Disposing(c) && c.shutdown.None? && c.connect.Connecting? && c.isServer
    ensures request == c.protocol && !Disposing(c) && c.shutdown.None? &&
            (c.connect.NotStarted? || c.connect.ConnectFailed? || (c.connect.Connecting? && !c.isServer)) ==>
              r.InvokeRejected? && r.error.InvalidOperation?
  {
    if request != c.protocol then InvokeRejected(MismatchError(request, c.protocol))
    else if Disposing(c) then InvokeRejected(ObjectDisposed)
    else if c.shutdown.Some? then InvokeRejected(ClosedError(c.shutdown.value))
    else
      match c.connect
      case NotStarted => InvokeRejected(InvalidOperation("cannot call InvokeAsync before calling ConnectAsync"))
      case Connected => InvokeCore
      case ConnectFailed(_) => InvokeRejected(InvalidOperation("cannot call InvokeAsync after ConnectAsync failed"))
      case Connecting =>
        if c.isServer then AwaitConnectThenInvoke
        else InvokeRejected(InvalidOperation("cannot call InvokeAsync while connecting a client connection"))
  }

  /** PerformInvokeAsync after its await of the connect task. */
  function ResumeInvokeAfterConnect(connect: ConnectStatus): (r: InvokeDecision)
    requires connect.Connected? || connect.ConnectFailed?
    ensures r == InvokeCore <==> connect.Connected?
    ensures connect.ConnectFailed? ==> r == InvokeRejected(connect.error)
  {
    if connect.Connected? then InvokeCore else InvokeRejected(connect.error)
  }

  // ---------------------------------------------------------------------
  // ShutdownAsync and InitiateShutdown
  // ---------------------------------------------------------------------

  /** What the caller of ShutdownAsync gets back: an exception thrown from
      the call itself, or a task to await (the shutdown task). */
  datatype ShutdownCall = ShutdownThrew(error: Error) | ShutdownAwait

  function PublishShutdown(c: Connection, t: ShutdownTask): (r: Option<ShutdownTask>)
    ensures c.shutdown.Some? ==> r == c.shutdown
    ensures c.shutdown.None? ==> r == Some(t)
  {
    if c.shutdown.None? then Some(t) else c.shutdown
  }

  /** The locked part of ShutdownAsync. */
  function ShutdownAsync(c: Connection, message: string, tokenCanceled: bool): (r: (Connection, ShutdownCall))
    ensures Disposing(c) ==> r == (c, ShutdownThrew(ObjectDisposed))
    ensures !Disposing(c) && c.connect.NotStarted? ==>
              r.1 == ShutdownAwait && r.0.shutdown.Some? && r.0.completion.Some? &&
              (c.shutdown.None? ==> r.0.shutdown.value == ShutdownTask(FromResult(message), RanToCompletion)) &&
              (c.completion.None? ==> r.0.completion == Some(Graceful(message))) &&
              r.0.(shutdown := c.shutdown, completion := c.completion) == c
    ensures !Disposing(c) && c.connect.ConnectFailed? ==>
              r.1 == ShutdownThrew(ConnectionAborted(EstablishmentFailedMessage)) &&
              r.0 == c.(completion := TrySet(c.completion, Aborted(ConnectionAborted(EstablishmentFailedMessage))))
    ensures !Disposing(c) && (c.connect.Connecting? || c.connect.Connected?) && tokenCanceled ==>
              r.1 == ShutdownThrew(OperationCanceled) && r.0.shutdownCanceled && r.0.shutdown.Some? &&
              (c.completion.None? ==> r.0.completion == Some(Aborted(ConnectionAborted(ShutdownCanceledMessage)))) &&
              (c.shutdown.None? ==>
                 var e := ConnectionAborted(ShutdownCanceledMessage);
                 r.0.shutdown == Some(ShutdownTask(FromException(e), Faulted(e)))) &&
              r.0.(shutdown := c.shutdown, completion := c.completion, shutdownCanceled := c.shutdownCanceled) == c
    ensures !Disposing(c) && (c.connect.Connecting? || c.connect.Connected?) && !tokenCanceled ==>
              r == (c.(shutdown := PublishShutdown(c, ShutdownTask(Body(message, false), Running))), ShutdownAwait)
    // an existing shutdown task is reused, never replaced
    ensures c.shutdown.Some? ==> r.0.shutdown == c.shutdown
  {
    if Disposing(c) then (c, ShutdownThrew(ObjectDisposed))
    else if c.connect.NotStarted? then
      var c1 := c.(shutdown := PublishShutdown(c, ShutdownTask(FromResult(message), RanToCompletion)),
                   completion := TrySet(c.completion, Graceful(message)));
      (c1, ShutdownAwait)
    else if c.connect.ConnectFailed? then
      var e := ConnectionAborted(EstablishmentFailedMessage);
      (c.(completion := TrySet(c.completion, Aborted(e))), ShutdownThrew(e))
    else if tokenCanceled then
      var e := ConnectionAborted(ShutdownCanceledMessage);
      var c1 := c.(shutdown := PublishShutdown(c, ShutdownTask(FromException(e), Faulted(e))),
                   completion := TrySet(c.completion, Aborted(e)),
                   shutdownCanceled := true);
      (c1, ShutdownThrew(OperationCanceled))
    else
      (c.(shutdown := PublishShutdown(c, ShutdownTask(Body(message, false), Running))), ShutdownAwait)
  }

  /** PerformWaitForShutdownAsync when the caller's wait is canceled: it
      cancels the shared shutdown source (a no-op once that source was
      disposed by the dispose cleanup) and rethrows. */
  function ShutdownWaitCanceled(c: Connection): (r: (Connection, Error))
    requires c.shutdown.Some? && c.shutdown.value.status.Running?
    ensures r.1 == OperationCanceled
    ensures r.0.shutdownCanceled <==> c.shutdownCanceled || !c.dispose.Cleaned?
    ensures r.0.(shutdownCanceled := c.shutdownCanceled) == c
  {
    (c.(shutdownCanceled := c.shutdownCanceled || !c.dispose.Cleaned?), OperationCanceled)
  }

  /** The Debug.Assert of InitiateShutdown: the connect task exists whenever
      a new shutdown would be created. */
  predicate CanInitiateShutdown(c: Connection) {
    !Disposing(c) && c.shutdown.None? ==> !c.connect.NotStarted?
  }

  /** InitiateShutdown: a no-op once dispose or shutdown started. */
  function InitiateShutdown(c: Connection, message: string): (r: Connection)
    requires CanInitiateShutdown(c)
    ensures Disposing(c) || c.shutdown.Some? ==> r == c
    ensures !Disposing(c) && c.shutdown.None? ==>
              r == c.(shutdown := Some(ShutdownTask(Body(message, false), Running)))
  {
    if Disposing(c) || c.shutdown.Some? then c
    else c.(shutdown := Some(ShutdownTask(Body(message, false), Running)))
  }

  /** The idle timer callback: CheckIfIdle's answer is a parameter. */
  function IdleTimerFires(c: Connection, idle: bool): (r: Connection)
    requires c.idleCheckEnabled && c.connect.Connected?
    ensures !idle ==> r == c
    ensures idle ==> r == InitiateShutdown(c, IdleMessage)
  {
    if idle then InitiateShutdown(c, IdleMessage) else c
  }

  /** InvokeOnAbort: records the exception unless the cell is already set. */
  function InvokeOnAbort(c: Connection, e: Error): (r: Connection)
    ensures r.completion == TrySet(c.completion, Aborted(e))
    ensures r.(completion := c.completion) == c
  {
    c.(completion := TrySet(c.completion, Aborted(e)))
  }

  /** The exception CreateShutdownTask records for a cancellation: the shared
      source canceled means an abort (by dispose or by a canceled shutdown
      call); any other cancellation is the shutdown timeout. */
  function ShutdownCancellationError(shutdownCanceled: bool, disposing: bool): (e: Error)
    ensures shutdownCanceled ==> e.ConnectionAborted?
    ensures shutdownCanceled && disposing ==> e.message == DisposedMessage
    ensures shutdownCanceled && !disposing ==> e.message == ShutdownCanceledMessage
    ensures !shutdownCanceled ==> e == ShutdownTimeout
  {
    if shutdownCanceled then ConnectionAborted(if disposing then DisposedMessage else ShutdownCanceledMessage)
    else ShutdownTimeout
  }

  /** What the try block of CreateShutdownTask threw, if anything. The body
      first waits for connect (a canceled connect task surfaces as a
      cancellation, a faulted one as its exception), and only then runs
      ShutdownAsyncCore. cancelFired means the linked token fired before the
      body got past its waits. */
  function ShutdownBodyThrew(connect: ConnectStatus, cancelFired: bool, core: CoreOutcome): (r: Option<Error>)
    requires cancelFired || connect.Connected? || connect.ConnectFailed?
    ensures r.None? <==> !cancelFired && connect.Connected? && core.CoreOk?
    ensures cancelFired ==> r == Some(OperationCanceled)
    ensures !cancelFired && connect.ConnectFailed? ==> r == Some(connect.error)
  {
    if cancelFired then Some(OperationCanceled)
    else if connect.ConnectFailed? then Some(connect.error)
    else if core.CoreThrew? then Some(core.error)
    else None
  }

  predicate ShutdownBodyMayComplete(c: Connection, cancelFired: bool) {
    && c.shutdown.Some?
    && c.shutdown.value.origin.Body?
    && c.shutdown.value.status.Running?
    && (cancelFired || c.connect.Connected? || c.connect.ConnectFailed?)
  }

  /** CreateShutdownTask running to its end. */
  function ShutdownBodyCompletes(c: Connection, cancelFired: bool, core: CoreOutcome): (r: Connection)
    requires ShutdownBodyMayComplete(c, cancelFired)
    ensures r.shutdown.Some? && r.shutdown.value.origin == c.shutdown.value.origin
    ensures !r.shutdown.value.status.Running?
    ensures r.completion.Some?
    ensures c.completion.Some? ==> r.completion == c.completion
    // graceful only when connect succeeded and ShutdownAsyncCore returned
    ensures r.shutdown.value.status.RanToCompletion? <==>
              c.completion.None? && !cancelFired && c.connect.Connected? && core.CoreOk?
    ensures r.shutdown.value.status.RanToCompletion? ==>
              r.completion == Some(Graceful(c.shutdown.value.origin.message))
    ensures !cancelFired && c.connect.Connected? && core.CoreOk? && c.completion.Some? ==>
              r.shutdown.value.status == Faulted(SetResultOnCompleted)
    ensures cancelFired || (c.connect.ConnectFailed? && IsCancellation(c.connect.error)) ||
            (c.connect.Connected? && core.CoreThrew? && IsCancellation(core.error)) ==>
              r.shutdown.value.status == Faulted(ShutdownCancellationError(c.shutdownCanceled, Disposing(c)))
    ensures !cancelFired && c.connect.Connected? && core.CoreThrew? && !IsCancellation(core.error) ==>
              r.shutdown.value.status == Faulted(core.error)
    // dispatches are canceled only when the body was asked to and got past the connect wait
    ensures r.dispatchCancels ==
              c.dispatchCancels +
              (if c.shutdown.value.origin.cancelDispatches && !cancelFired && c.connect.Connected?
               then [ConnectionAborted(c.shutdown.value.origin.message)] else [])
    ensures r.(shutdown := c.shutdown, completion := c.completion, dispatchCancels := c.dispatchCancels) == c
  {
    var origin := c.shutdown.value.origin;
    var cancels := c.dispatchCancels +
      (if origin.cancelDispatches && !cancelFired && c.connect.Connected?
       then [ConnectionAborted(origin.message)] else []);
    var thrown := ShutdownBodyThrew(c.connect, cancelFired, core);
    var (status, completion) :=
      match thrown
      case None =>
        (match SetResult(c.completion, origin.message)
         case Ok(cell) => (RanToCompletion, cell)
         // the InvalidOperationException lands in the last catch clause
         case Err(e) => (Faulted(e), TrySet(c.completion, Aborted(e))))
      case Some(e) =>
        var recorded := if IsCancellation(e) then ShutdownCancellationError(c.shutdownCanceled, Disposing(c)) else e;
        (Faulted(recorded), TrySet(c.completion, Aborted(recorded)));
    c.(shutdown := Some(ShutdownTask(origin, status)), completion := completion, dispatchCancels := cancels)
  }

  // ---------------------------------------------------------------------
  // DisposeAsync
  // ---------------------------------------------------------------------

  /** DisposeAsync: `_disposeTask ??= PerformDisposeAsync()`. */
  function DisposeAsync(c: Connection): (r: Connection)
    ensures Disposing(r)
    ensures Disposing(c) ==> r == c
    ensures !Disposing(c) ==> r == c.(dispose := TeardownPending)
  {
    if Disposing(c) then c else c.(dispose := TeardownPending)
  }

  function GoingAwayMessage(isServer: bool): (message: string) {
    if isServer then "server connection going away" else "client connection going away"
  }

  /** PerformDisposeAsync up to its await of the shutdown task. It first
      cancels and awaits the connect task (so connect has completed). */
  function DisposeTeardown(c: Connection): (r: Connection)
    requires c.dispose.TeardownPending? && !c.connect.Connecting?
    ensures c.connect.NotStarted? ==>
              r == c.(completion := TrySet(c.completion, Graceful("")), dispose := Cleaned, idleCheckEnabled := false)
    ensures c.connect.ConnectFailed? ==>
              r == c.(completion := TrySet(c.completion, Aborted(ConnectionAborted(DisposedMessage))),
                       dispose := Cleaned, idleCheckEnabled := false)
    ensures c.connect.Connected? ==> r.dispose.AwaitingShutdown? && r.completion == c.completion
    // dispose never cancels the shared shutdown source: besides its own
    // phase it only publishes a shutdown or cancels dispatches
    ensures c.connect.Connected? ==>
              r.(shutdown := c.shutdown, dispatchCancels := c.dispatchCancels, dispose := c.dispose) == c
    ensures c.connect.Connected? && c.shutdown.None? ==>
              r.shutdown == Some(ShutdownTask(Body(GoingAwayMessage(c.isServer), true), Running)) &&
              r.dispatchCancels == c.dispatchCancels
    ensures c.connect.Connected? && c.shutdown.Some? ==> r.shutdown == c.shutdown
    ensures c.connect.Connected? && c.shutdown.Some? && !c.shutdown.value.status.Faulted? ==>
              r.dispatchCancels == c.dispatchCancels + [ConnectionAborted(DisposedMessage)]
    ensures c.connect.Connected? && c.shutdown.Some? && c.shutdown.value.status.Faulted? ==>
              r.dispatchCancels == c.dispatchCancels
  {
    match c.connect
    case NotStarted =>
      c.(completion := TrySet(c.completion, Graceful("")), dispose := Cleaned, idleCheckEnabled := false)
    case ConnectFailed(_) =>
      c.(completion := TrySet(c.completion, Aborted(ConnectionAborted(DisposedMessage))),
         dispose := Cleaned, idleCheckEnabled := false)
    case Connected =>
      if c.shutdown.None? then
        c.(shutdown := Some(ShutdownTask(Body(GoingAwayMessage(c.isServer), true), Running)),
           dispose := AwaitingShutdown)
      else if !c.shutdown.value.status.Faulted? then
        c.(dispatchCancels := c.dispatchCancels + [ConnectionAborted(DisposedMessage)],
           dispose := AwaitingShutdown)
      else
        c.(dispose := AwaitingShutdown)
  }

  /** The rest of PerformDisposeAsync once the awaited shutdown task has
      completed (its exception swallowed): DisposeAsyncCore, taken to
      return, and cleanup of the timer and cancellation sources. */
  function DisposeCleanup(c: Connection): (r: Connection)
    requires c.dispose.AwaitingShutdown? && c.shutdown.Some? && !c.shutdown.value.status.Running?
    ensures r.dispose.Cleaned? && !r.idleCheckEnabled
    ensures r.(dispose := c.dispose, idleCheckEnabled := c.idleCheckEnabled) == c
  {
    c.(dispose := Cleaned, idleCheckEnabled := false)
  }

  // ---------------------------------------------------------------------
  // The state machine as a whole
  // ---------------------------------------------------------------------

  /** Everything that can happen to a connection, one transition each. */
  datatype Action =
    | Connect
    | ConnectDone(core: CoreOutcome, callerCanceled: bool)
    | Shutdown(message: string, tokenCanceled: bool)
    | WaitCanceled
    | Initiate(message: string)
    | IdleTimer(idle: bool)
    | ShutdownBodyDone(cancelFired: bool, core: CoreOutcome)
    | Abort(error: Error)
    | Dispose
    | Teardown
    | Cleanup

  predicate Enabled(c: Connection, a: Action) {
    match a
    case Connect => true
    case ConnectDone(_, _) => c.connect.Connecting?
    case Shutdown(_, _) => true
    case WaitCanceled => c.shutdown.Some? && c.shutdown.value.status.Running?
    case Initiate(_) => CanInitiateShutdown(c)
    case IdleTimer(_) => c.idleCheckEnabled && c.connect.Connected?
    case ShutdownBodyDone(cancelFired, _) => ShutdownBodyMayComplete(c, cancelFired)
    case Abort(_) => true
    case Dispose => true
    case Teardown => c.dispose.TeardownPending? && !c.connect.Connecting?
    case Cleanup => c.dispose.AwaitingShutdown? && c.shutdown.Some? && !c.shutdown.value.status.Running?
  }

  /** The state after an action; an operation that throws from its locked
      part leaves the state as it was (except the completion cell where the
      code records the exception first). */
  function Step(c: Connection, a: Action): Connection
    requires Enabled(c, a)
  {
    match a
    case Connect => (match ConnectAsync(c) case Ok(c1) => c1 case Err(_) => c)
    case ConnectDone(core, callerCanceled) => ConnectCompletes(c, core, callerCanceled)
    case Shutdown(message, tokenCanceled) => ShutdownAsync(c, message, tokenCanceled).0
    case WaitCanceled => ShutdownWaitCanceled(c).0
    case Initiate(message) => InitiateShutdown(c, message)
    case IdleTimer(idle) => IdleTimerFires(c, idle)
    case ShutdownBodyDone(cancelFired, core) => ShutdownBodyCompletes(c, cancelFired, core)
    case Abort(e) => InvokeOnAbort(c, e)
    case Dispose => DisposeAsync(c)
    case Teardown => DisposeTeardown(c)
    case Cleanup => DisposeCleanup(c)
  }

  /** Runs a sequence of actions; None as soon as one is not enabled. */
  function Run(c: Connection, actions: seq<Action>): Option<Connection>
    decreases |actions|
  {
    if |actions| == 0 then Some(c)
    else if !Enabled(c, actions[0]) then None
    else Run(Step(c, actions[0]), actions[1..])
  }

  /** The invariant every reachable connection satisfies. */
  predicate Valid(c: Connection) {
    // a completed shutdown task has always recorded the outcome
    && (c.shutdown.Some? && !c.shutdown.value.status.Running? ==> c.completion.Some?)
    // a finished dispose has always recorded the outcome
    && (c.dispose.Cleaned? ==> c.completion.Some?)
    // only CreateShutdownTask tasks are ever running, and they need a connect task
    && (c.shutdown.Some? && c.shutdown.value.status.Running? ==> c.shutdown.value.origin.Body?)
    && (c.shutdown.Some? && c.shutdown.value.origin.Body? ==> !c.connect.NotStarted?)
    && (c.shutdown.Some? && c.shutdown.value.origin.FromResult? ==> c.shutdown.value.status.RanToCompletion?)
    && (c.shutdown.Some? && c.shutdown.value.origin.FromException? ==>
          c.shutdown.value.status == Faulted(c.shutdown.value.origin.error))
    // the idle timer is armed only by a successful connect
    && (c.idleCheckEnabled ==> c.connect.Connected?)
    && (c.dispose.AwaitingShutdown? ==> c.connect.Connected? && c.shutdown.Some?)
    // the shared shutdown source is canceled only by or for a shutdown
    && (c.shutdownCanceled ==> c.shutdown.Some?)
  }
}
