/** Optional values and the exceptions the modelled Java code can raise. */
module Wrappers {

  /** A Java reference that may be null. */
  datatype Option<+T> = None | Some(value: T)

  /** The exception classes the connection and the server raise or let escape. */
  datatype Failure =
    | IOException              // java.io.IOException from the socket
    | IllegalArgument          // a negative position handed to the buffer
    | IndexOutOfBounds         // a copy into a caller's array that does not fit
    | BufferUnderflow          // a get of more bytes than the buffer holds
    | IllegalState(message: string)  // an operation the fallback server rejects

  /** A value, or the exception that was thrown instead. */
  datatype Result<+T> = Ok(value: T) | Fail(error: Failure)

  const NotSupported: string := "Not supported yet"
}
