/** ColocConnection: the colocated duplex connection. It reads from a pipe
    reader fed by the peer and writes to a pipe writer read by the peer,
    guarded by a bitset of flags updated with "claim if absent" and "clear"
    operations, and remembers the first exception it saw.

    ReadAsync and WriteAsync suspend on the pipe, so each is modelled as a
    start transition and one or more finishing transitions; Dispose and
    ShutdownAsync may run in between. The peer's side of the inbound pipe
    is modelled by PeerWrites / PeerCompletes. */
module ColocConnection {
  import opened Errors
  import opened Segments

  datatype Flag = Disposed | Reading | ShuttingDown | Writing

  const AllFlags: set<Flag> := {Disposed, Reading, ShuttingDown, Writing}

  /** The values of the State enum. */
  function Bit(f: Flag): (b: bv8) {
    match f
    case Disposed => 1
    case Reading => 2
    case ShuttingDown => 4
    case Writing => 8
  }

  /** The int the flags are stored in. */
  function ToBits(flags: set<Flag>): (b: bv8) {
    (if Disposed in flags then 1 else 0) |
    (if Reading in flags then 2 else 0) |
    (if ShuttingDown in flags then 4 else 0) |
    (if Writing in flags then 8 else 0)
  }

  /** HasFlag on the int, for every flag at once. */
  function FromBits(b: bv8): (flags: set<Flag>) {
    set f | f in AllFlags && b & Bit(f) != 0
  }

  /** The encoding is faithful: decoding the int gives back the flags. */
  lemma BitsRoundTrip(flags: set<Flag>)
    ensures FromBits(ToBits(flags)) == flags
  {
    var b := ToBits(flags);
    forall f | f in AllFlags
      ensures f in FromBits(b) <==> f in flags
    {
      match f
      case Disposed => assert (b & 1 != 0) <==> Disposed in flags;
      case Reading => assert (b & 2 != 0) <==> Reading in flags;
      case ShuttingDown => assert (b & 4 != 0) <==> ShuttingDown in flags;
      case Writing => assert (b & 8 != 0) <==> Writing in flags;
    }
    forall f: Flag
      ensures f in AllFlags
    {
      match f
      case Disposed =>
      case Reading =>
      case ShuttingDown =>
      case Writing =>
    }
  }

  /** TrySetFlag: claims the flag if it is absent, and says whether it did. */
  function TrySetFlag(flags: set<Flag>, f: Flag): (r: (bool, set<Flag>))
    ensures r.0 <==> f !in flags
    ensures r.1 == flags + {f}
  {
    if f in flags then (false, flags) else (true, flags + {f})
  }

  /** The same claim on the int: agrees with the set version. */
  lemma TrySetFlagOnBits(flags: set<Flag>, f: Flag)
    ensures (ToBits(flags) & Bit(f) == 0) <==> TrySetFlag(flags, f).0
    ensures ToBits(flags) | Bit(f) == ToBits(TrySetFlag(flags, f).1)
  {
    match f
    case Disposed =>
    case Reading =>
    case ShuttingDown =>
    case Writing =>
  }

  /** A pipe end: open, completed normally, or completed with an error. */
  datatype End = Open | CompletedOk | CompletedWith(error: Error)

  /** Completing a pipe end that is already completed changes nothing. */
  function Complete(e: End, how: End): (r: End)
    requires !how.Open?
    ensures e.Open? ==> r == how
    ensures !e.Open? ==> r == e
  {
    if e.Open? then how else e
  }

  datatype Coloc = Coloc(
    connected: bool,                        // _reader and _writer are set
    flags: set<Flag>,                       // _state
    exception: Option<Error>,               // _exception
    reader: End,
    readCanceled: bool,                     // CancelPendingRead was called
    inbound: seq<seq<byte>>,                // unread bytes of the reader, by segment
    inboundCompleted: bool,                 // the peer completed its writer
    writer: End,
    flushCanceled: bool,                    // CancelPendingFlush was called
    outbound: seq<seq<byte>>,               // every buffer written, in order
    pendingWrite: Option<seq<seq<byte>>>)   // buffers a WriteAsync has still to write

  function New(): (c: Coloc)
    ensures !c.connected && c.flags == {} && c.exception == None
  {
    Coloc(false, {}, None, Open, false, [], false, Open, false, [], None)
  }

  /** The invariant every reachable connection satisfies. */
  predicate Valid(c: Coloc) {
    && (Disposed in c.flags ==> c.exception.Some?)
    && (c.pendingWrite.Some? <==> Writing in c.flags)
    && (Reading in c.flags || Writing in c.flags ==> c.connected)
    && (c.readCanceled ==> Disposed in c.flags && Reading in c.flags)
    && (c.flushCanceled ==> Disposed in c.flags)
    && (!c.reader.Open? ==> Disposed in c.flags)
    && (c.writer.CompletedWith? ==> Disposed in c.flags)
    && (c.writer.CompletedOk? ==> ShuttingDown in c.flags)
  }

  const ReadNotThreadSafe := InvalidOperation("ReadAsync is not thread safe")
  const WriteNotThreadSafe := InvalidOperation("WriteAsync is not thread safe")
  const ShutdownError := TransportError("connection is shutdown")

  /** How far a suspended operation got. */
  datatype Progress<T> = InProgress | Done(result: Result<T>)

  /** `_exception ??= e`. */
  function Remember(c: Coloc, e: Error): (r: Coloc)
    ensures c.exception.Some? ==> r == c
    ensures c.exception.None? ==> r == c.(exception := Some(e))
  {
    if c.exception.None? then c.(exception := Some(e)) else c
  }

  /** ConnectAsync binds the reader and the writer. */
  function Connect(c: Coloc): (r: Coloc)
    ensures r.connected
    ensures r.(connected := c.connected) == c
  {
    c.(connected := true)
  }

  // ---------------------------------------------------------------------
  // Dispose
  // ---------------------------------------------------------------------

  /** Dispose: remembers ObjectDisposed unless an exception is already
      remembered; the body runs only for the call that claims Disposed. For
      each side, an operation in progress has its pending read or flush
      canceled; otherwise that side is completed with ConnectionLost. */
  function Dispose(c: Coloc): (r: Coloc)
    requires Valid(c)
    ensures Valid(r)
    ensures Disposed in r.flags && r.exception.Some?
    ensures c.exception.Some? ==> r.exception == c.exception
    ensures c.exception.None? ==> r.exception == Some(ObjectDisposed)
    ensures Disposed in c.flags ==> r == c
    ensures Disposed !in c.flags && c.connected && Reading in c.flags ==> r.readCanceled && r.reader == c.reader
    ensures Disposed !in c.flags && c.connected && Reading !in c.flags ==>
              r.reader == Complete(c.reader, CompletedWith(ConnectionLost)) && r.readCanceled == c.readCanceled
    ensures Disposed !in c.flags && c.connected && Writing in c.flags ==> r.flushCanceled && r.writer == c.writer
    ensures Disposed !in c.flags && c.connected && Writing !in c.flags ==>
              r.writer == Complete(c.writer, CompletedWith(ConnectionLost)) && r.flushCanceled == c.flushCanceled
    ensures !c.connected ==> r.reader == c.reader && r.writer == c.writer
    ensures r.flags == c.flags + {Disposed}
    ensures r.inbound == c.inbound && r.outbound == c.outbound && r.pendingWrite == c.pendingWrite
  {
    var c1 := Remember(c, ObjectDisposed);
    var (claimed, flags) := TrySetFlag(c1.flags, Disposed);
    if !claimed then c1
    else
      var c2 := c1.(flags := flags);
      if !c2.connected then c2
      else
        var reading := Reading in c2.flags;
        var writing := Writing in c2.flags;
        c2.(reader := if reading then c2.reader else Complete(c2.reader, CompletedWith(ConnectionLost)),
            readCanceled := c2.readCanceled || reading,
            writer := if writing then c2.writer else Complete(c2.writer, CompletedWith(ConnectionLost)),
            flushCanceled := c2.flushCanceled || writing)
  }

  // ---------------------------------------------------------------------
  // ReadAsync
  // ---------------------------------------------------------------------

  /** The finally block of ReadAsync: a disposed connection completes the
      reader; the Reading flag is always cleared. */
  function EndRead(c: Coloc): (r: Coloc)
    ensures Reading !in r.flags && r.flags == c.flags - {Reading}
    ensures Disposed in c.flags ==> r.reader == Complete(c.reader, CompletedWith(ConnectionLost))
    ensures Disposed !in c.flags ==> r.reader == c.reader
    ensures !r.readCanceled
  {
    c.(reader := if Disposed in c.flags then Complete(c.reader, CompletedWith(ConnectionLost)) else c.reader,
       readCanceled := false,
       flags := c.flags - {Reading})
  }

  /** ReadAsync up to its await of the pipe reader. A concurrent read fails
      without touching anything; a disposed connection throws the
      remembered exception. */
  function ReadStart(c: Coloc): (r: (Coloc, Progress<seq<byte>>))
    requires Valid(c) && c.connected
    ensures Valid(r.0)
    ensures Reading in c.flags ==> r == (c, Done(Err(ReadNotThreadSafe)))
    ensures Reading !in c.flags && Disposed in c.flags ==>
              r.1 == Done(Err(c.exception.value)) && Reading !in r.0.flags &&
              r.0.reader == Complete(c.reader, CompletedWith(ConnectionLost))
    ensures Reading !in c.flags && Disposed !in c.flags ==>
              r == (c.(flags := c.flags + {Reading}), InProgress)
    ensures r.0.exception == c.exception
    ensures r.1.InProgress? <==> Reading in r.0.flags && Reading !in c.flags
  {
    var (claimed, flags) := TrySetFlag(c.flags, Reading);
    if !claimed then (c, Done(Err(ReadNotThreadSafe)))
    else
      var c1 := c.(flags := flags);
      if Disposed in c1.flags then (EndRead(c1), Done(Err(c1.exception.value)))
      else (c1, InProgress)
  }

  /** The pipe read returns: data is available, the peer completed its
      writer, the read was canceled, or the pipe threw. */
  predicate ReadCanReturn(c: Coloc, failure: Option<Error>) {
    failure.Some? || |Flatten(c.inbound)| > 0 || c.inboundCompleted || c.readCanceled
  }

  /** ReadAsync after its await: returns the bytes copied into a buffer of
      bufLen bytes (their count is the int ReadAsync returns). The bytes
      are the first min(available, bufLen) bytes of the relay, which is the
      postcondition of Segments.CopyToBuffer, the copy loop itself. */
  function ReadFinish(c: Coloc, bufLen: nat, failure: Option<Error>): (r: (Coloc, Result<seq<byte>>))
    requires Valid(c) && Reading in c.flags && ReadCanReturn(c, failure)
    ensures Valid(r.0)
    ensures Reading !in r.0.flags && r.0.flags == c.flags - {Reading}
    ensures failure.Some? ==> r.1 == Err(failure.value) && r.0.exception == Remember(c, failure.value).exception
    ensures failure.None? && c.inboundCompleted && |Flatten(c.inbound)| == 0 ==> r.1 == Ok([])
    ensures failure.None? && !(c.inboundCompleted && |Flatten(c.inbound)| == 0) && Disposed in c.flags ==>
              r.1 == Err(c.exception.value)
    ensures r.1.Ok? ==> failure.None? && r.0.exception == c.exception
    // a read succeeds exactly when the pipe did not fail and either the
    // connection is not disposed or the stream has ended
    ensures r.1.Ok? <==> failure.None? && (Disposed !in c.flags || (c.inboundCompleted && |Flatten(c.inbound)| == 0))
    // the bytes read are exactly the first min(available, bufLen) bytes, and
    // the reader advances by that count
    ensures r.1.Ok? ==> |r.1.value| == Min(|Flatten(c.inbound)|, bufLen)
    ensures r.1.Ok? ==> r.1.value + Flatten(r.0.inbound) == Flatten(c.inbound)
    ensures r.1.Err? ==> r.0.inbound == c.inbound
    // an empty read means end of stream (or an empty buffer)
    ensures r.1 == Ok([]) ==> (c.inboundCompleted && |Flatten(c.inbound)| == 0) || bufLen == 0
    // every exit of a disposed connection completes the reader with
    // ConnectionLost; the pending cancellation is consumed; the write side
    // is untouched
    ensures r.0.reader == (if Disposed in c.flags then Complete(c.reader, CompletedWith(ConnectionLost)) else c.reader)
    ensures !r.0.readCanceled
    ensures r.0.(inbound := c.inbound, exception := c.exception, reader := c.reader,
                 readCanceled := c.readCanceled, flags := c.flags) == c
  {
    match failure
    case Some(e) => (EndRead(Remember(c, e)), Err(e))
    case None =>
      var available := |Flatten(c.inbound)|;
      if c.inboundCompleted && available == 0 then (EndRead(c), Ok([]))
      else if Disposed in c.flags then (EndRead(c), Err(c.exception.value))
      else
        var n := Min(available, bufLen);
        var data := Flatten(c.inbound)[..n];
        var rest := Advance(c.inbound, n);
        assert data + Flatten(rest) == Flatten(c.inbound);
        (EndRead(c.(inbound := rest)), Ok(data))
  }

  /** The peer writes a segment into the inbound pipe. */
  function PeerWrites(c: Coloc, segment: seq<byte>): (r: Coloc)
    requires !c.inboundCompleted
    ensures Flatten(r.inbound) == Flatten(c.inbound) + segment
    ensures r.(inbound := c.inbound) == c
  {
    FlattenAppend(c.inbound, [segment]);
    assert [segment][..0] == [];
    c.(inbound := c.inbound + [segment])
  }

  /** The peer completes its writer: the end of the inbound stream. */
  function PeerCompletes(c: Coloc): (r: Coloc)
    ensures r.inboundCompleted
    ensures r.(inboundCompleted := c.inboundCompleted) == c
  {
    c.(inboundCompleted := true)
  }

  // ---------------------------------------------------------------------
  // WriteAsync
  // ---------------------------------------------------------------------

  /** The finally block of WriteAsync: a disposed connection completes the
      writer with ConnectionLost, a shut down one completes it normally;
      the Writing flag is always cleared. */
  function EndWrite(c: Coloc): (r: Coloc)
    ensures Writing !in r.flags && r.flags == c.flags - {Writing} && r.pendingWrite.None?
    ensures Disposed in c.flags ==> r.writer == Complete(c.writer, CompletedWith(ConnectionLost))
    ensures Disposed !in c.flags && ShuttingDown in c.flags ==> r.writer == Complete(c.writer, CompletedOk)
    ensures Disposed !in c.flags && ShuttingDown !in c.flags ==> r.writer == c.writer
  {
    var writer :=
      if Disposed in c.flags then Complete(c.writer, CompletedWith(ConnectionLost))
      else if ShuttingDown in c.flags then Complete(c.writer, CompletedOk)
      else c.writer;
    c.(writer := writer, flags := c.flags - {Writing}, pendingWrite := None)
  }

  /** WriteAsync claiming the writer. A concurrent write fails without
      touching anything. */
  function WriteStart(c: Coloc, buffers: seq<seq<byte>>): (r: (Coloc, Progress<()>))
    requires Valid(c) && c.connected
    ensures Valid(r.0)
    ensures Writing in c.flags ==> r == (c, Done(Err(WriteNotThreadSafe)))
    ensures Writing !in c.flags ==>
              r == (c.(flags := c.flags + {Writing}, pendingWrite := Some(buffers)), InProgress)
  {
    var (claimed, flags) := TrySetFlag(c.flags, Writing);
    if !claimed then (c, Done(Err(WriteNotThreadSafe)))
    else (c.(flags := flags, pendingWrite := Some(buffers)), InProgress)
  }

  /** One iteration of WriteAsync's loop: before each buffer it checks
      Disposed, then ShuttingDown; failure is what the pipe write threw, if
      anything. With no buffer left the write completes. */
  function WriteStep(c: Coloc, failure: Option<Error>): (r: (Coloc, Progress<()>))
    requires Valid(c) && Writing in c.flags
    ensures Valid(r.0)
    ensures r.1.Done? <==> Writing !in r.0.flags
    ensures r.1.Done? ==> r.0 == EndWrite(r.0.(flags := c.flags, pendingWrite := c.pendingWrite, writer := c.writer))
    ensures |c.pendingWrite.value| == 0 ==> r == (EndWrite(c), Done(Ok(())))
    ensures |c.pendingWrite.value| > 0 && Disposed in c.flags ==> r.1 == Done(Err(c.exception.value))
    ensures |c.pendingWrite.value| > 0 && Disposed !in c.flags && ShuttingDown in c.flags ==>
              r.1 == Done(Err(ShutdownError))
    ensures |c.pendingWrite.value| > 0 && Disposed !in c.flags && ShuttingDown !in c.flags && failure.Some? ==>
              r.1 == Done(Err(failure.value))
    ensures r.1.Done? && r.1.result.Err? ==> r.0.exception == Remember(c, r.1.result.error).exception
    // a buffer reaches the peer only when the connection is neither disposed nor shut down
    ensures r.1 == InProgress ==>
              Disposed !in c.flags && ShuttingDown !in c.flags &&
              r.0.outbound == c.outbound + [c.pendingWrite.value[0]] &&
              r.0.pendingWrite == Some(c.pendingWrite.value[1..])
    ensures r.1.Done? ==> r.0.outbound == c.outbound
    // and it does reach the peer whenever nothing stops it
    ensures r.1 == InProgress <==>
              |c.pendingWrite.value| > 0 && Disposed !in c.flags && ShuttingDown !in c.flags && failure.None?
    // a write leaves the read side alone
    ensures r.0.(outbound := c.outbound, pendingWrite := c.pendingWrite, writer := c.writer,
                 flags := c.flags, exception := c.exception) == c
  {
    var buffers := c.pendingWrite.value;
    if |buffers| == 0 then (EndWrite(c), Done(Ok(())))
    else if Disposed in c.flags then (EndWrite(c), Done(Err(c.exception.value)))
    else if ShuttingDown in c.flags then (EndWrite(Remember(c, ShutdownError)), Done(Err(ShutdownError)))
    else if failure.Some? then (EndWrite(Remember(c, failure.value)), Done(Err(failure.value)))
    else (c.(outbound := c.outbound + [buffers[0]], pendingWrite := Some(buffers[1..])), InProgress)
  }

  // ---------------------------------------------------------------------
  // ShutdownAsync
  // ---------------------------------------------------------------------

  /** ShutdownAsync: sets ShuttingDown once; completes the writer only if
      it can claim Writing, otherwise the write in progress completes it. */
  function Shutdown(c: Coloc): (r: Coloc)
    requires Valid(c) && c.connected
    ensures Valid(r)
    ensures ShuttingDown in c.flags ==> r == c
    ensures ShuttingDown !in c.flags && Writing !in c.flags ==>
              r == c.(flags := c.flags + {ShuttingDown}, writer := Complete(c.writer, CompletedOk))
    ensures ShuttingDown !in c.flags && Writing in c.flags ==> r == c.(flags := c.flags + {ShuttingDown})
  {
    var (claimed, flags) := TrySetFlag(c.flags, ShuttingDown);
    if !claimed then c
    else
      var (claimedWriter, flags') := TrySetFlag(flags, Writing);
      if claimedWriter then c.(flags := flags' - {Writing}, writer := Complete(c.writer, CompletedOk))
      else c.(flags := flags)
  }

  // ---------------------------------------------------------------------
  // The connection as a whole
  // ---------------------------------------------------------------------

  datatype Action =
    | DoConnect
    | DoDispose
    | DoReadStart
    | DoReadFinish(bufLen: nat, failure: Option<Error>)
    | DoPeerWrites(segment: seq<byte>)
    | DoPeerCompletes
    | DoWriteStart(buffers: seq<seq<byte>>)
    | DoWriteStep(failure: Option<Error>)
    | DoShutdown

  predicate Enabled(c: Coloc, a: Action) {
    && Valid(c)
    && match a
       case DoConnect => true
       case DoDispose => true
       case DoReadStart => c.connected
       case DoReadFinish(_, failure) => Reading in c.flags && ReadCanReturn(c, failure)
       case DoPeerWrites(_) => !c.inboundCompleted
       case DoPeerCompletes => true
       case DoWriteStart(_) => c.connected
       case DoWriteStep(_) => Writing in c.flags
       case DoShutdown => c.connected
  }

  function Step(c: Coloc, a: Action): (r: Coloc)
    requires Enabled(c, a)
    ensures Valid(r)
  {
    match a
    case DoConnect => Connect(c)
    case DoDispose => Dispose(c)
    case DoReadStart => ReadStart(c).0
    case DoReadFinish(bufLen, failure) => ReadFinish(c, bufLen, failure).0
    case DoPeerWrites(segment) => PeerWrites(c, segment)
    case DoPeerCompletes => PeerCompletes(c)
    case DoWriteStart(buffers) => WriteStart(c, buffers).0
    case DoWriteStep(failure) => WriteStep(c, failure).0
    case DoShutdown => Shutdown(c)
  }
}
