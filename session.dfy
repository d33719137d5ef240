/**
 * The `Session` object (Sources/Session.swift), the newer twin of `DiscordRPC`: the same
 * `connect()` and `disconnect()`, plus configuration with defaults. Its socket creation,
 * close and handshake live in files that are not part of this model; they are oracles here
 * (creation fails or not, the handshake throws or not).
 */
module Sessions {
  import opened Wrappers
  import opened Constants
  import opened Errors
  import opened Discovery

  class Session {
    const clientId: string
    const clientSecret: Option<string>
    /** Time limit in milliseconds of a sync command. */
    var cmdTimeout: int
    var debugCommand: bool
    var debugCommandAsync: bool
    var debugEvent: bool
    var socket: SocketState
    /** Whether a handshake has gone out and started the receive loop. */
    var handshook: bool

    constructor(clientId: string, clientSecret: Option<string>)
      ensures this.clientId == clientId && this.clientSecret == clientSecret
      ensures cmdTimeout == 1000 && !debugCommand && !debugCommandAsync && !debugEvent
      ensures socket == NoSocket && !handshook
    {
      this.clientId := clientId;
      this.clientSecret := clientSecret;
      cmdTimeout := 1000;
      debugCommand := false;
      debugCommandAsync := false;
      debugEvent := false;
      socket := NoSocket;
      handshook := false;
    }

    /**
     * `connect()`: the sandbox check before any socket exists, then a new socket, then the
     * suffixes in increasing order; the first that accepts gets the handshake, and a handshake
     * that throws closes the socket and is rethrown.
     */
    method Connect(sandboxed: bool, createFails: bool, tmp: string, accepts: string -> bool, handshakeFails: bool)
      returns (e: Option<ClientError>)
      modifies this`socket, this`handshook
      ensures var c := ConnectOutcome(sandboxed, createFails, old(socket), tmp, accepts, handshakeFails);
        e == c.error && socket == c.socket && handshook == (old(handshook) || c.handshook)
    {
      if sandboxed {
        return Some(AppSandboxed);
      }
      if createFails {
        return Some(SocketCreation);
      }
      socket := Unconnected;
      var i := 0;
      while i < |UdsSuffixRange|
        invariant 0 <= i <= |UdsSuffixRange|
        invariant socket == Unconnected && handshook == old(handshook)
        invariant Discover(tmp, accepts) == FirstAccepting(tmp, accepts, UdsSuffixRange[i..])
      {
        assert UdsSuffixRange[i..][1..] == UdsSuffixRange[i + 1..];
        var path := IpcPath(tmp, UdsSuffixRange[i]);
        if accepts(path) {
          socket := Connected(path);
          if handshakeFails {
            socket := NoSocket;
            return Some(SocketWriteFailed);
          }
          handshook := true;
          return None;
        }
        i := i + 1;
      }
      return Some(UdsNotFound(tmp));
    }

    /** `disconnect()`: the socket is closed and cleared. */
    method Disconnect()
      modifies this`socket
      ensures socket == NoSocket
    {
      socket := NoSocket;
    }
  }
}
