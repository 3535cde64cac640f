/** Properties of the ProtocolConnection state machine that relate several
    transitions: the invariant, at-most-once publication of the connect and
    shutdown tasks, first-write-wins of the completion cell, and the order
    in which the public operations check their guards. */
module ProtocolConnectionLemmas {
  import opened Errors
  import opened ProtocolConnection

  lemma NewIsValid(isServer: bool, protocol: Protocol)
    ensures Valid(New(isServer, protocol))
  {
  }

  /** Every transition keeps the invariant. */
  lemma StepPreservesValid(c: Connection, a: Action)
    requires Valid(c) && Enabled(c, a)
    ensures Valid(Step(c, a))
  {
    if a.Connect? || a.ConnectDone? {
      ConnectKeepsValid(c, a);
    } else if a.Shutdown? || a.WaitCanceled? || a.Initiate? || a.IdleTimer? {
      ShutdownKeepsValid(c, a);
    } else if a.ShutdownBodyDone? || a.Abort? {
      CompletionKeepsValid(c, a);
    } else {
      DisposeKeepsValid(c, a);
    }
  }

  lemma ConnectKeepsValid(c: Connection, a: Action)
    requires Valid(c) && Enabled(c, a) && (a.Connect? || a.ConnectDone?)
    ensures Valid(Step(c, a))
  {
  }

  lemma ShutdownKeepsValid(c: Connection, a: Action)
    requires Valid(c) && Enabled(c, a) && (a.Shutdown? || a.WaitCanceled? || a.Initiate? || a.IdleTimer?)
    ensures Valid(Step(c, a))
  {
  }

  lemma CompletionKeepsValid(c: Connection, a: Action)
    requires Valid(c) && Enabled(c, a) && (a.ShutdownBodyDone? || a.Abort?)
    ensures Valid(Step(c, a))
  {
    if a.ShutdownBodyDone? {
      assert ShutdownBodyCompletes(c, a.cancelFired, a.core).completion.Some?;
    }
  }

  lemma DisposeKeepsValid(c: Connection, a: Action)
    requires Valid(c) && Enabled(c, a) && (a.Dispose? || a.Teardown? || a.Cleanup?)
    ensures Valid(Step(c, a))
  {
  }

  lemma {:induction false} RunPreservesValid(c: Connection, actions: seq<Action>)
    requires Valid(c) && Run(c, actions).Some?
    ensures Valid(Run(c, actions).value)
    decreases |actions|
  {
    if |actions| > 0 {
      StepPreservesValid(c, actions[0]);
      RunPreservesValid(Step(c, actions[0]), actions[1..]);
    }
  }

  /** Every reachable connection is valid. */
  lemma ReachableIsValid(isServer: bool, protocol: Protocol, actions: seq<Action>)
    requires Run(New(isServer, protocol), actions).Some?
    ensures Valid(Run(New(isServer, protocol), actions).value)
  {
    NewIsValid(isServer, protocol);
    RunPreservesValid(New(isServer, protocol), actions);
  }

  // ---------------------------------------------------------------------
  // The completion cell: first write wins
  // ---------------------------------------------------------------------

  lemma StepKeepsCompletion(c: Connection, a: Action)
    requires Enabled(c, a) && c.completion.Some?
    ensures Step(c, a).completion == c.completion
  {
  }

  lemma {:induction false} RunKeepsCompletion(c: Connection, actions: seq<Action>)
    requires c.completion.Some? && Run(c, actions).Some?
    ensures Run(c, actions).value.completion == c.completion
    decreases |actions|
  {
    if |actions| > 0 {
      StepKeepsCompletion(c, actions[0]);
      RunKeepsCompletion(Step(c, actions[0]), actions[1..]);
    }
  }

  /** Once dispose has finished, the outcome is recorded and never changes. */
  lemma {:induction false} DisposedOutcomeIsFinal(c: Connection, actions: seq<Action>)
    requires Valid(c) && c.dispose.Cleaned? && Run(c, actions).Some?
    ensures c.completion.Some?
    ensures Run(c, actions).value.completion == c.completion
  {
    RunKeepsCompletion(c, actions);
  }

  // ---------------------------------------------------------------------
  // At most one connect task, at most one shutdown task
  // ---------------------------------------------------------------------

  lemma StepKeepsConnectStarted(c: Connection, a: Action)
    requires Enabled(c, a) && !c.connect.NotStarted?
    ensures !Step(c, a).connect.NotStarted?
    ensures (c.connect.Connected? || c.connect.ConnectFailed?) ==> Step(c, a).connect == c.connect
  {
  }

  /** Whether an action publishes a connect task. */
  predicate PublishesConnect(c: Connection, a: Action) {
    a.Connect? && ConnectAsync(c).Ok?
  }

  function ConnectPublications(c: Connection, actions: seq<Action>): nat
    decreases |actions|
  {
    if |actions| == 0 || !Enabled(c, actions[0]) then 0
    else (if PublishesConnect(c, actions[0]) then 1 else 0) +
         ConnectPublications(Step(c, actions[0]), actions[1..])
  }

  lemma {:induction false} NoPublicationOnceStarted(c: Connection, actions: seq<Action>)
    requires !c.connect.NotStarted?
    ensures ConnectPublications(c, actions) == 0
    decreases |actions|
  {
    if |actions| > 0 && Enabled(c, actions[0]) {
      StepKeepsConnectStarted(c, actions[0]);
      NoPublicationOnceStarted(Step(c, actions[0]), actions[1..]);
    }
  }

  /** Whatever the callers do, at most one connect task is ever published. */
  lemma {:induction false} AtMostOneConnect(c: Connection, actions: seq<Action>)
    ensures ConnectPublications(c, actions) <= 1
    decreases |actions|
  {
    if |actions| > 0 && Enabled(c, actions[0]) {
      var c1 := Step(c, actions[0]);
      if PublishesConnect(c, actions[0]) {
        NoPublicationOnceStarted(c1, actions[1..]);
      } else {
        AtMostOneConnect(c1, actions[1..]);
      }
    }
  }

  /** The second ConnectAsync fails with InvalidOperation. */
  lemma SecondConnectFails(c: Connection)
    requires ConnectAsync(c).Ok?
    ensures ConnectAsync(ConnectAsync(c).value) == Err(InvalidOperation("unexpected second call to ConnectAsync"))
  {
  }

  /** A published shutdown task is never replaced: its origin stays, and
      once completed its status stays too. */
  lemma StepKeepsShutdownTask(c: Connection, a: Action)
    requires Enabled(c, a) && c.shutdown.Some?
    ensures Step(c, a).shutdown.Some?
    ensures Step(c, a).shutdown.value.origin == c.shutdown.value.origin
    ensures !c.shutdown.value.status.Running? ==> Step(c, a).shutdown == c.shutdown
  {
  }

  lemma {:induction false} RunKeepsShutdownTask(c: Connection, actions: seq<Action>)
    requires c.shutdown.Some? && Run(c, actions).Some?
    ensures Run(c, actions).value.shutdown.Some?
    ensures Run(c, actions).value.shutdown.value.origin == c.shutdown.value.origin
    decreases |actions|
  {
    if |actions| > 0 {
      StepKeepsShutdownTask(c, actions[0]);
      RunKeepsShutdownTask(Step(c, actions[0]), actions[1..]);
    }
  }

  /** Once a shutdown call has published a task, every later InvokeAsync
      with the right protocol is rejected with ConnectionClosed, or with
      ObjectDisposed once dispose started. */
  lemma {:induction false} InvokeAfterShutdownRejected(c: Connection, message: string, tokenCanceled: bool,
                                                      actions: seq<Action>)
    requires !Disposing(c) && !c.connect.ConnectFailed?
    requires Run(ShutdownAsync(c, message, tokenCanceled).0, actions).Some?
    ensures var c1 := Run(ShutdownAsync(c, message, tokenCanceled).0, actions).value;
            var r := InvokeAsync(c1, c1.protocol);
            r == InvokeRejected(ObjectDisposed) || (r.InvokeRejected? && r.error.ConnectionClosed?)
  {
    var c0 := ShutdownAsync(c, message, tokenCanceled).0;
    assert c0.shutdown.Some?;
    RunKeepsShutdownTask(c0, actions);
  }

  // ---------------------------------------------------------------------
  // Dispose
  // ---------------------------------------------------------------------

  /** Only the first DisposeAsync creates the teardown task. */
  lemma DisposeIsIdempotent(c: Connection)
    ensures DisposeAsync(DisposeAsync(c)) == DisposeAsync(c)
  {
  }

  lemma StepKeepsDisposing(c: Connection, a: Action)
    requires Enabled(c, a) && Disposing(c)
    ensures Disposing(Step(c, a))
    ensures c.dispose.Cleaned? ==> Step(c, a).dispose.Cleaned?
  {
  }

  /** Once dispose started, every public operation fails fast. */
  lemma DisposedRejectsEverything(c: Connection, message: string, tokenCanceled: bool)
    requires Disposing(c)
    ensures ConnectAsync(c) == Err(ObjectDisposed)
    ensures InvokeAsync(c, c.protocol) == InvokeRejected(ObjectDisposed)
    ensures ShutdownAsync(c, message, tokenCanceled) == (c, ShutdownThrew(ObjectDisposed))
    ensures InitiateShutdown(c, message) == c
  {
  }

  /** Dispose before connect finishes with the empty reason when nothing
      was recorded before. */
  lemma DisposeBeforeConnect(isServer: bool, protocol: Protocol)
    ensures var c := DisposeTeardown(DisposeAsync(New(isServer, protocol)));
            c.dispose.Cleaned? && c.completion == Some(Graceful(""))
  {
  }

  /** A connection whose connect succeeded and that was never shut down is
      shut down by dispose with the "going away" message, canceling the
      dispatches; the connection outcome is that shutdown's. */
  lemma DisposeStartsGoingAwayShutdown(c: Connection, core: CoreOutcome)
    requires Valid(c) && c.connect.Connected? && c.shutdown.None? && !Disposing(c)
    ensures var d := DisposeTeardown(DisposeAsync(c));
            var e := ShutdownBodyCompletes(d, false, core);
            d.shutdown == Some(ShutdownTask(Body(GoingAwayMessage(c.isServer), true), Running)) &&
            e.dispatchCancels == c.dispatchCancels + [ConnectionAborted(GoingAwayMessage(c.isServer))] &&
            (c.completion.None? && core.CoreOk? ==> e.completion == Some(Graceful(GoingAwayMessage(c.isServer))))
  {
  }

  /** Dispose does not abort a shutdown already running: the shared source
      stays as it was, the running task is kept, and if nothing had canceled
      it the body can still complete gracefully after dispose began. */
  lemma DisposeLeavesRunningShutdown(c: Connection, core: CoreOutcome)
    requires Valid(c) && c.connect.Connected? && !Disposing(c)
    requires c.shutdown.Some? && c.shutdown.value.status.Running?
    ensures var d := DisposeTeardown(DisposeAsync(c));
            && d.shutdownCanceled == c.shutdownCanceled
            && d.shutdown == c.shutdown
            && d.dispatchCancels == c.dispatchCancels + [ConnectionAborted(DisposedMessage)]
            && (c.completion.None? && core.CoreOk? ==>
                  ShutdownBodyCompletes(d, false, core).shutdown.value.status.RanToCompletion?)
  {
  }

  // ---------------------------------------------------------------------
  // Roles and guard order
  // ---------------------------------------------------------------------

  /** InvokeAsync before ConnectAsync fails the same way for both roles. */
  lemma InvokeBeforeConnectFails(isServer: bool, protocol: Protocol)
    ensures InvokeAsync(New(isServer, protocol), protocol) ==
            InvokeRejected(InvalidOperation("cannot call InvokeAsync before calling ConnectAsync"))
  {
  }

  /** While connect is pending, a server waits for it and a client is
      rejected; the two connections differ only in their role. */
  lemma ClientServerAsymmetry(c: Connection)
    requires c.connect.Connecting? && !Disposing(c) && c.shutdown.None?
    ensures InvokeAsync(c.(isServer := true), c.protocol) == AwaitConnectThenInvoke
    ensures InvokeAsync(c.(isServer := false), c.protocol) ==
            InvokeRejected(InvalidOperation("cannot call InvokeAsync while connecting a client connection"))
  {
  }

  /** The protocol check precedes every state check. */
  lemma ProtocolMismatchFirst(c: Connection, request: Protocol)
    requires request != c.protocol
    ensures InvokeAsync(c, request) == InvokeRejected(MismatchError(request, c.protocol))
    ensures InvokeAsync(c, request) == InvokeAsync(c.(connect := NotStarted, shutdown := None, dispose := NotDisposed), request)
  {
  }

  /** A shutdown call with an already-canceled token aborts without any
      wait: it throws cancellation, records "connection shutdown canceled"
      as both the shutdown task and the outcome, and cancels the shared
      source. */
  lemma CanceledShutdownAborts(c: Connection, message: string)
    requires Valid(c) && c.connect.Connected? && !Disposing(c) && c.completion.None? && c.shutdown.None?
    ensures var (c1, call) := ShutdownAsync(c, message, true);
            call == ShutdownThrew(OperationCanceled) &&
            c1.completion == Some(Aborted(ConnectionAborted(ShutdownCanceledMessage))) &&
            c1.shutdown == Some(ShutdownTask(FromException(ConnectionAborted(ShutdownCanceledMessage)),
                                             Faulted(ConnectionAborted(ShutdownCanceledMessage)))) &&
            c1.shutdownCanceled
  {
  }

  /** A running shutdown body that is then canceled through the shared
      source records an abort; dispose in between changes its message. */
  lemma SharedCancelClassification(c: Connection, message: string)
    requires Valid(c) && c.connect.Connected? && !Disposing(c) && c.completion.None? && c.shutdown.None?
    ensures var c1 := ShutdownAsync(c, message, false).0;
            var c2 := ShutdownWaitCanceled(c1).0;
            ShutdownBodyCompletes(c2, true, CoreOk).completion ==
              Some(Aborted(ConnectionAborted(ShutdownCanceledMessage))) &&
            ShutdownBodyCompletes(DisposeAsync(c2), true, CoreOk).completion ==
              Some(Aborted(ConnectionAborted(DisposedMessage))) &&
            ShutdownBodyCompletes(c1, true, CoreOk).completion == Some(Aborted(ShutdownTimeout))
  {
    var c1 := ShutdownAsync(c, message, false).0;
    assert c1 == c.(shutdown := Some(ShutdownTask(Body(message, false), Running)));
    var c2 := ShutdownWaitCanceled(c1).0;
    assert c2.shutdownCanceled && c2.completion.None?;
    assert ShutdownBodyThrew(c2.connect, true, CoreOk) == Some(OperationCanceled);
    assert A: ShutdownBodyCompletes(c2, true, CoreOk).completion ==
              Some(Aborted(ConnectionAborted(ShutdownCanceledMessage)));
    var d := DisposeAsync(c2);
    assert d.shutdownCanceled && Disposing(d);
    assert B: ShutdownBodyCompletes(d, true, CoreOk).completion ==
              Some(Aborted(ConnectionAborted(DisposedMessage)));
    assert C: ShutdownBodyCompletes(c1, true, CoreOk).completion == Some(Aborted(ShutdownTimeout));
  }
}
