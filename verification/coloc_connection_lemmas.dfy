/** Properties of ColocConnection over whole runs: the bytes the peer writes
    are read back in order with nothing lost or repeated, the first
    remembered exception never changes, the dispose body runs once, and the
    single-reader / single-writer discipline. */
module ColocConnectionLemmas {
  import opened Errors
  import opened Segments
  import opened ColocConnection

  /** The bytes a step hands to the caller of ReadAsync. */
  function ReadBytes(c: Coloc, a: Action): seq<byte>
    requires Enabled(c, a)
  {
    if a.DoReadFinish? then
      (match ReadFinish(c, a.bufLen, a.failure).1 case Ok(data) => data case Err(_) => [])
    else []
  }

  /** Runs actions; None as soon as one is not enabled. Also returns the
      bytes every successful read returned, in order. */
  function Run(c: Coloc, actions: seq<Action>): Option<(Coloc, seq<byte>)>
    decreases |actions|
  {
    if |actions| == 0 then Some((c, []))
    else if !Enabled(c, actions[0]) then None
    else
      match Run(Step(c, actions[0]), actions[1..])
      case None => None
      case Some((c', rest)) => Some((c', ReadBytes(c, actions[0]) + rest))
  }

  /** The bytes the peer writes during a run. */
  function PeerBytes(actions: seq<Action>): seq<byte>
    decreases |actions|
  {
    if |actions| == 0 then []
    else (if actions[0].DoPeerWrites? then actions[0].segment else []) + PeerBytes(actions[1..])
  }

  /** What one step reads, appended to what stays unread, is what was
      unread plus what the peer wrote in that step. */
  lemma StepKeepsStream(c: Coloc, a: Action)
    requires Enabled(c, a)
    ensures ReadBytes(c, a) + Flatten(Step(c, a).inbound) ==
            Flatten(c.inbound) + (if a.DoPeerWrites? then a.segment else [])
  {
    match a
    case DoReadFinish(bufLen, failure) =>
      var r := ReadFinish(c, bufLen, failure);
      if r.1.Err? {
        assert r.0.inbound == c.inbound;
      }
    case DoPeerWrites(segment) =>
      assert ReadBytes(c, a) == [];
    case _ =>
      assert ReadBytes(c, a) == [] && Step(c, a).inbound == c.inbound;
  }

  /** The round trip of the colocated transport: over any run, the bytes
      read followed by the bytes still unread are exactly the bytes that
      were unread at the start followed by everything the peer wrote, in
      order: nothing is lost, reordered or duplicated. */
  lemma {:induction false} ReadsDeliverPeerBytes(c: Coloc, actions: seq<Action>)
    requires Run(c, actions).Some?
    ensures var (last, read) := Run(c, actions).value;
            read + Flatten(last.inbound) == Flatten(c.inbound) + PeerBytes(actions)
    decreases |actions|
  {
    if |actions| > 0 {
      var a := actions[0];
      var c1 := Step(c, a);
      StepKeepsStream(c, a);
      ReadsDeliverPeerBytes(c1, actions[1..]);
      var seg := if a.DoPeerWrites? then a.segment else [];
      var r := Run(c1, actions[1..]).value;
      assert Run(c, actions).value == (r.0, ReadBytes(c, a) + r.1);
      assert PeerBytes(actions) == seg + PeerBytes(actions[1..]);
      Regroup(ReadBytes(c, a), r.1, Flatten(r.0.inbound), Flatten(c1.inbound), Flatten(c.inbound),
              seg, PeerBytes(actions[1..]));
    }
  }

  /** Only regroups concatenations for ReadsDeliverPeerBytes; it models
      nothing of the connection. */
  lemma Regroup<T>(read: seq<T>, rest: seq<T>, unread: seq<T>, mid: seq<T>, start: seq<T>, seg: seq<T>, later: seq<T>)
    requires rest + unread == mid + later
    requires read + mid == start + seg
    ensures (read + rest) + unread == start + (seg + later)
  {
    calc {
      (read + rest) + unread;
      read + (rest + unread);
      read + (mid + later);
      (read + mid) + later;
    }
  }

  // ---------------------------------------------------------------------
  // The remembered exception
  // ---------------------------------------------------------------------

  lemma StepKeepsException(c: Coloc, a: Action)
    requires Enabled(c, a) && c.exception.Some?
    ensures Step(c, a).exception == c.exception
  {
    if a.DoReadStart? || a.DoReadFinish? {
      ReadKeepsException(c, a);
    } else if a.DoWriteStep? {
      WriteStepKeepsException(c, a);
    } else if a.DoWriteStart? || a.DoShutdown? {
      WriteKeepsException(c, a);
    }
  }

  lemma ReadKeepsException(c: Coloc, a: Action)
    requires Enabled(c, a) && c.exception.Some? && (a.DoReadStart? || a.DoReadFinish?)
    ensures Step(c, a).exception == c.exception
  {
  }

  lemma WriteKeepsException(c: Coloc, a: Action)
    requires Enabled(c, a) && c.exception.Some? && (a.DoWriteStart? || a.DoShutdown?)
    ensures Step(c, a).exception == c.exception
  {
  }

  lemma WriteStepKeepsException(c: Coloc, a: Action)
    requires Enabled(c, a) && c.exception.Some? && a.DoWriteStep?
    ensures Step(c, a).exception == c.exception
  {
    var r := WriteStep(c, a.failure);
    assert Step(c, a) == r.0;
  }

  /** First write wins: once an exception is remembered, it is the one every
      later operation that observes Disposed throws. */
  lemma {:induction false} RunKeepsException(c: Coloc, actions: seq<Action>)
    requires c.exception.Some? && Run(c, actions).Some?
    ensures Run(c, actions).value.0.exception == c.exception
    decreases |actions|
  {
    if |actions| > 0 {
      StepKeepsException(c, actions[0]);
      RunKeepsException(Step(c, actions[0]), actions[1..]);
    }
  }

  /** A read or a write started after dispose fails with the exception that
      was remembered first: the one remembered before Dispose if there was
      one, ObjectDisposed otherwise, whatever happened in between. A write
      fails on its first buffer. */
  lemma {:induction false} DisposedThrowsFirstException(c: Coloc, actions: seq<Action>, buffers: seq<seq<byte>>,
                                                         failure: Option<Error>)
    requires Valid(c)
    requires Run(Dispose(c), actions).Some?
    ensures var first := if c.exception.Some? then c.exception.value else ObjectDisposed;
            var last := Run(Dispose(c), actions).value.0;
            last.connected ==>
              && Valid(last)
              && (Reading !in last.flags ==> ReadStart(last).1 == Done(Err(first)))
              && (Writing !in last.flags && |buffers| > 0 ==>
                    WriteStep(WriteStart(last, buffers).0, failure).1 == Done(Err(first)))
  {
    RunKeepsException(Dispose(c), actions);
    RunKeepsDisposed(Dispose(c), actions);
  }

  lemma {:induction false} RunKeepsDisposed(c: Coloc, actions: seq<Action>)
    requires Valid(c) && Disposed in c.flags && Run(c, actions).Some?
    ensures Disposed in Run(c, actions).value.0.flags
    ensures Run(c, actions).value.0.connected ==> Valid(Run(c, actions).value.0)
    decreases |actions|
  {
    if |actions| > 0 {
      RunKeepsDisposed(Step(c, actions[0]), actions[1..]);
    }
  }

  // ---------------------------------------------------------------------
  // Dispose runs once
  // ---------------------------------------------------------------------

  lemma DisposeIsIdempotent(c: Coloc)
    requires Valid(c)
    ensures Dispose(Dispose(c)) == Dispose(c)
  {
  }

  /** Whether a step runs the dispose body (claims Disposed). */
  predicate RunsDisposeBody(c: Coloc, a: Action) {
    a.DoDispose? && Disposed !in c.flags
  }

  function DisposeBodies(c: Coloc, actions: seq<Action>): nat
    decreases |actions|
  {
    if |actions| == 0 || !Enabled(c, actions[0]) then 0
    else (if RunsDisposeBody(c, actions[0]) then 1 else 0) + DisposeBodies(Step(c, actions[0]), actions[1..])
  }

  lemma {:induction false} NoDisposeBodyOnceDisposed(c: Coloc, actions: seq<Action>)
    requires Disposed in c.flags
    ensures DisposeBodies(c, actions) == 0
    decreases |actions|
  {
    if |actions| > 0 && Enabled(c, actions[0]) {
      NoDisposeBodyOnceDisposed(Step(c, actions[0]), actions[1..]);
    }
  }

  /** However many times Dispose is called, its body runs at most once. */
  lemma {:induction false} DisposeBodyRunsOnce(c: Coloc, actions: seq<Action>)
    ensures DisposeBodies(c, actions) <= 1
    decreases |actions|
  {
    if |actions| > 0 && Enabled(c, actions[0]) {
      if RunsDisposeBody(c, actions[0]) {
        NoDisposeBodyOnceDisposed(Step(c, actions[0]), actions[1..]);
      } else {
        DisposeBodyRunsOnce(Step(c, actions[0]), actions[1..]);
      }
    }
  }

  // ---------------------------------------------------------------------
  // Single reader, single writer
  // ---------------------------------------------------------------------

  /** A second ReadAsync while the first is suspended fails and leaves the
      first read's state untouched; the first read can still finish. */
  lemma SecondReadRejected(c: Coloc)
    requires Valid(c) && c.connected && ReadStart(c).1.InProgress?
    ensures var c1 := ReadStart(c).0;
            ReadStart(c1) == (c1, Done(Err(ReadNotThreadSafe)))
  {
  }

  lemma SecondWriteRejected(c: Coloc, first: seq<seq<byte>>, second: seq<seq<byte>>)
    requires Valid(c) && c.connected && Writing !in c.flags
    ensures var c1 := WriteStart(c, first).0;
            WriteStart(c1, second) == (c1, Done(Err(WriteNotThreadSafe)))
  {
  }

  /** Dispose during a read cancels it: the read then fails with the
      remembered exception (or reports end of stream) and completes the
      reader itself. */
  lemma DisposeDuringRead(c: Coloc, bufLen: nat)
    requires Valid(c) && c.connected && Disposed !in c.flags && ReadStart(c).1.InProgress?
    ensures var c1 := Dispose(ReadStart(c).0);
            var (c2, r) := ReadFinish(c1, bufLen, None);
            c1.readCanceled && c1.reader == c.reader &&
            c2.reader == Complete(c.reader, CompletedWith(ConnectionLost)) &&
            Reading !in c2.flags &&
            (c.inboundCompleted && |Flatten(c.inbound)| == 0 ==> r == Ok([])) &&
            (!(c.inboundCompleted && |Flatten(c.inbound)| == 0) ==> r == Err(c1.exception.value))
  {
  }

  /** Shutdown during a write leaves the writer to the write, which fails
      its next buffer and completes the writer normally. */
  lemma ShutdownDuringWrite(c: Coloc, buffers: seq<seq<byte>>, failure: Option<Error>)
    requires Valid(c) && c.connected && Writing !in c.flags && ShuttingDown !in c.flags && Disposed !in c.flags
    requires |buffers| > 0 && c.writer.Open?
    ensures var c1 := Shutdown(WriteStart(c, buffers).0);
            var (c2, r) := WriteStep(c1, failure);
            c1.writer.Open? &&
            r == Done(Err(ShutdownError)) && c2.writer == CompletedOk && Writing !in c2.flags
  {
  }

  /** Without a write in progress, shutdown completes the writer at once;
      a second shutdown changes nothing. */
  lemma ShutdownIdleWriter(c: Coloc)
    requires Valid(c) && c.connected && Writing !in c.flags && ShuttingDown !in c.flags && c.writer.Open?
    ensures Shutdown(c).writer == CompletedOk && Writing !in Shutdown(c).flags
    ensures Shutdown(Shutdown(c)) == Shutdown(c)
  {
  }
}
