/**
 * The errors the client's calls throw (Sources/Errors.swift): `RPCError` for the connection
 * and the socket, `CommandError` for a command call, and the subscribe request's own
 * `RequestError`, which the subscribe wrappers pass on unchanged.
 */
module Errors {
  import opened Constants
  import Subscribe

  /** `CommandError`. `responseMalformed` carries the notification in the source; not kept here. */
  datatype CommandError =
    | Timeout(timeout: int)
    | ResponseMalformed
    | Failed(code: ErrorCode, message: string)
    | InvalidParameters(reason: string)

  /**
   * What a client call can throw: the cases of `RPCError`, a failed socket write, a `CommandError`,
   * or `RequestError.invalidParameters` from building a subscribe request.
   */
  datatype ClientError =
    | AppSandboxed
    | SocketCreation
    | UdsNotFound(path: string)
    | SocketWriteFailed
    | CommandFailed(error: CommandError)
    | RequestFailed(reason: Subscribe.RequestError)
}
