/** The exception kinds raised by the connection engine, the Result type
    every fallible operation of the model returns instead of throwing, and
    the RPC protocol a connection, proxy or endpoint is bound to. */
module Errors {

  /** An RPC protocol, identified by its name. */
  datatype Protocol = Protocol(name: string)

  const Ice1 := Protocol("ice1")
  const Ice2 := Protocol("ice2")

  /** One constructor per .NET exception type the modelled code throws or
      records. Messages are kept where the code writes a constant string;
      the two timeout messages embed a TimeSpan rendered as a double and are
      kept opaque. */
  datatype Error =
    | ObjectDisposed
    | InvalidOperation(message: string)
    | ConnectionClosed(message: string)
    | ConnectionAborted(message: string)
    | ConnectTimeout
    | ShutdownTimeout
    | OperationCanceled
    | ConnectionLost
    | ConnectionRefused
    | TransportError(message: string)
    | TransportWrapped(inner: Error)
    | InvalidData(message: string)
    | NotSupported(message: string)
    | OutOfRange
    | Opaque(id: nat)   // an exception raised by code outside the model

  /** True for the exceptions that derive from OperationCanceledException. */
  predicate IsCancellation(e: Error) {
    e.OperationCanceled?
  }

  datatype Result<+T> = Ok(value: T) | Err(error: Error) {
    predicate IsFailure() {
      Err?
    }

    function PropagateFailure<U>(): Result<U>
      requires Err?
    {
      Err(error)
    }

    function Extract(): T
      requires Ok?
    {
      value
    }
  }

  datatype Option<+T> = None | Some(value: T)
}
