/** The transport error every backend call can fail with. */
module Errors {

  /** Rust's `IpcError`. */
  datatype IpcError =
    | NotConnected
    | ConnectionFailed(detail: string)
    | RequestFailed(detail: string)
    | InvalidResponse(detail: string)
    | Timeout
}
