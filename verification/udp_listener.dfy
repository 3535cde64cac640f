/** UdpListener: a UDP "listener" has a single server connection, created
    up front. The first AcceptAsync hands it out; later accepts wait on a
    task that only Dispose completes, with ObjectDisposedException. Dispose
    disposes the connection if no accept took it.

    Connections are identified by a number; what disposing one does is not
    part of this model. */
module UdpListener {
  import opened Errors

  /** The state of _acceptTask. */
  datatype AcceptTask = Pending | Faulted(error: Error)

  datatype Listener = Listener(slot: Option<nat>, acceptTask: AcceptTask)

  /** The constructor: the server connection waits in the slot and the
      accept task is pending. */
  function New(serverConnection: nat): (r: Listener)
    ensures r.slot == Some(serverConnection) && r.acceptTask.Pending?
  {
    Listener(Some(serverConnection), Pending)
  }

  /** What a call to AcceptAsync does at once. */
  datatype Accepted = Returned(connection: nat) | Waiting | Threw(error: Error)

  /** ex.ToTransportException: the failure AcceptAsync rethrows. */
  function ToTransportException(e: Error): (wrapped: Error) {
    TransportWrapped(e)
  }

  /** AcceptAsync: takes the connection out of the slot if it is still
      there, otherwise awaits the accept task. */
  function AcceptAsync(l: Listener): (r: (Listener, Accepted))
    ensures l.slot.Some? ==> r == (l.(slot := None), Returned(l.slot.value))
    ensures l.slot.None? ==> r.0 == l && !r.1.Returned?
    ensures r.1.Threw? <==> l.slot.None? && l.acceptTask.Faulted?
    ensures r.1.Threw? ==> r.1.error == ToTransportException(l.acceptTask.error)
  {
    match l.slot
    case Some(c) => (l.(slot := None), Returned(c))
    case None =>
      match l.acceptTask
      case Pending => (l, Waiting)
      case Faulted(e) => (l, Threw(ToTransportException(e)))
  }

  /** An accept waiting on the task resumes once the task is faulted. */
  function ResumeAccept(l: Listener): (r: Option<Error>)
    ensures r.Some? <==> l.acceptTask.Faulted?
    ensures r.Some? ==> r.value == ToTransportException(l.acceptTask.error)
  {
    match l.acceptTask
    case Pending => None
    case Faulted(e) => Some(ToTransportException(e))
  }

  const DisposedError := ObjectDisposed

  /** TaskCompletionSource.SetException on a task that already completed. */
  const AlreadyCompleted := InvalidOperation("An attempt was made to transition a task to a final state when it had already completed.")

  /** What Dispose did: the connection it disposed, if any, and whether it
      threw. */
  datatype Disposed = Disposed(listener: Listener, disposedConnection: Option<nat>, result: Result<()>)

  /** Dispose as the code is written: _acceptTask.SetException, which
      throws when the task has already completed. */
  function DisposeAsWritten(l: Listener): (d: Disposed)
    ensures d.listener.slot.None? && d.disposedConnection == l.slot
    ensures d.listener.acceptTask.Faulted?
    ensures d.result.Err? <==> l.acceptTask.Faulted?
  {
    match l.acceptTask
    case Pending => Disposed(Listener(None, Faulted(DisposedError)), l.slot, Ok(()))
    case Faulted(_) => Disposed(l.(slot := None), l.slot, Err(AlreadyCompleted))
  }

  /** Dispose with TrySetException: the first Dispose faults the task and
      later ones leave it alone; Dispose never throws. */
  function Dispose(l: Listener): (d: Disposed)
    ensures d.listener.slot.None? && d.disposedConnection == l.slot
    ensures d.listener.acceptTask == (if l.acceptTask.Pending? then Faulted(DisposedError) else l.acceptTask)
    ensures d.result == Ok(())
  {
    Disposed(Listener(None, if l.acceptTask.Pending? then Faulted(DisposedError) else l.acceptTask), l.slot, Ok(()))
  }

  // ---------------------------------------------------------------------
  // Properties
  // ---------------------------------------------------------------------

  /** The first accept returns the connection the listener was built with. */
  lemma FirstAcceptReturnsConnection(c: nat)
    ensures AcceptAsync(New(c)).1 == Returned(c)
    ensures AcceptAsync(AcceptAsync(New(c)).0).1 == Waiting
  {
  }

  /** The finding: calling Dispose twice, as written, throws the second
      time. */
  lemma DisposeTwiceThrows(c: nat)
    ensures var d1 := DisposeAsWritten(New(c));
            d1.result == Ok(()) && DisposeAsWritten(d1.listener).result == Err(AlreadyCompleted)
  {
  }

  /** With TrySetException a second Dispose is a no-op and does not throw. */
  lemma DisposeIsIdempotent(l: Listener)
    ensures var d1 := Dispose(l);
            var d2 := Dispose(d1.listener);
            d2.listener == d1.listener && d2.disposedConnection.None? && d2.result == Ok(())
  {
  }

  /** After Dispose every accept, new or waiting, fails with the disposed
      error wrapped as a transport exception. */
  lemma AcceptAfterDisposeThrows(l: Listener)
    requires l.acceptTask.Pending?
    ensures var l1 := Dispose(l).listener;
            AcceptAsync(l1).1 == Threw(TransportWrapped(ObjectDisposed)) &&
            ResumeAccept(l1) == Some(TransportWrapped(ObjectDisposed))
  {
  }

  /** The calls a listener receives. */
  datatype Action = Accept | DisposeListener

  /** One call, with the connection it takes out of the slot, if any. */
  function Step(l: Listener, a: Action): (Listener, Option<nat>) {
    match a
    case Accept =>
      var (l1, r) := AcceptAsync(l);
      (l1, if r.Returned? then Some(r.connection) else None)
    case DisposeListener =>
      var d := Dispose(l);
      (d.listener, d.disposedConnection)
  }

  /** The connections that leave the slot during a run, in order. */
  function Handoffs(l: Listener, actions: seq<Action>): seq<nat>
    decreases |actions|
  {
    if |actions| == 0 then []
    else
      var (l1, out) := Step(l, actions[0]);
      (if out.Some? then [out.value] else []) + Handoffs(l1, actions[1..])
  }

  lemma {:induction false} EmptySlotHandsOffNothing(l: Listener, actions: seq<Action>)
    requires l.slot.None?
    ensures Handoffs(l, actions) == []
    decreases |actions|
  {
    if |actions| > 0 {
      EmptySlotHandsOffNothing(Step(l, actions[0]).0, actions[1..]);
    }
  }

  /** The connection leaves the slot at most once, through an accept or
      through Dispose but never both, whatever calls are made. */
  lemma {:induction false} HandedOffAtMostOnce(l: Listener, actions: seq<Action>)
    ensures Handoffs(l, actions) == [] || (l.slot.Some? && Handoffs(l, actions) == [l.slot.value])
    decreases |actions|
  {
    if |actions| > 0 {
      var (l1, out) := Step(l, actions[0]);
      if out.Some? {
        EmptySlotHandsOffNothing(l1, actions[1..]);
      } else {
        HandedOffAtMostOnce(l1, actions[1..]);
      }
    }
  }
}
