/**
 * Finding Discord's socket (`connect()` in Sources/DiscordRPC.swift and Sources/Session.swift):
 * unless the app is sandboxed, create a socket, try `<tmp>/discord-ipc-0` to `-9` in order,
 * and on the first path that accepts, send the handshake. This module states the outcome
 * that both clients' `Connect` methods are proved to reach.
 */
module Discovery {
  import opened Wrappers
  import opened Constants
  import opened Errors

  /** The client's socket: none, open but not connected (never, or no longer), or connected to a path. */
  datatype SocketState = NoSocket | Unconnected | Connected(path: string)

  function DigitChar(d: nat): (c: char)
    requires d < 10
    ensures '0' <= c <= '9'
  {
    "0123456789"[d]
  }

  /** Swift's decimal interpolation `\(n)` of a natural number. */
  function Decimal(n: nat): (s: string)
    ensures |s| > 0
    ensures n < 10 <==> |s| == 1
    decreases n
  {
    if n < 10 then [DigitChar(n)] else Decimal(n / 10) + [DigitChar(n % 10)]
  }

  /** `"\(path)/discord-ipc-\(suffix)"`. */
  function IpcPath(tmp: string, n: nat): string
  {
    tmp + "/discord-ipc-" + Decimal(n)
  }

  /** The ten candidate paths differ from one another. */
  lemma IpcPathsDistinct(tmp: string, m: nat, n: nat)
    requires m < 10 && n < 10 && m != n
    ensures IpcPath(tmp, m) != IpcPath(tmp, n)
  {
    var pm, pn := IpcPath(tmp, m), IpcPath(tmp, n);
    assert |pm| == |pn|;
    assert pm[|pm| - 1] == DigitChar(m) && pn[|pn| - 1] == DigitChar(n);
  }

  /** The first suffix of `suffixes` at whose path the socket connects. */
  function FirstAccepting(tmp: string, accepts: string -> bool, suffixes: seq<nat>): (r: Option<nat>)
    ensures r.None? <==> forall i :: 0 <= i < |suffixes| ==> !accepts(IpcPath(tmp, suffixes[i]))
    ensures r.Some? ==> exists i :: (0 <= i < |suffixes| && suffixes[i] == r.value &&
      accepts(IpcPath(tmp, r.value)) && forall j :: 0 <= j < i ==> !accepts(IpcPath(tmp, suffixes[j])))
  {
    if |suffixes| == 0 then None
    else if accepts(IpcPath(tmp, suffixes[0])) then Some(suffixes[0])
    else
      var r := FirstAccepting(tmp, accepts, suffixes[1..]);
      assert r.Some? ==> exists i :: (0 <= i < |suffixes| && suffixes[i] == r.value &&
        accepts(IpcPath(tmp, r.value)) && forall j :: 0 <= j < i ==> !accepts(IpcPath(tmp, suffixes[j]))) by {
        if r.Some? {
          var i :| 0 <= i < |suffixes[1..]| && suffixes[1..][i] == r.value &&
            accepts(IpcPath(tmp, r.value)) && forall j :: 0 <= j < i ==> !accepts(IpcPath(tmp, suffixes[1..][j]));
          assert suffixes[i + 1] == r.value;
          forall j | 0 <= j < i + 1 ensures !accepts(IpcPath(tmp, suffixes[j])) {
            if j > 0 { assert suffixes[j] == suffixes[1..][j - 1]; }
          }
        }
      }
      r
  }

  /** The suffix `connect()` settles on, over `udsSuffixRange`. */
  function Discover(tmp: string, accepts: string -> bool): Option<nat>
  {
    FirstAccepting(tmp, accepts, UdsSuffixRange)
  }

  /** The socket found is the lowest-numbered one that accepts, and none is found only when none of the ten accepts. */
  lemma DiscoverLowest(tmp: string, accepts: string -> bool, n: nat)
    ensures Discover(tmp, accepts) == Some(n) <==>
      n < 10 && accepts(IpcPath(tmp, n)) && forall m :: 0 <= m < n ==> !accepts(IpcPath(tmp, m))
    ensures Discover(tmp, accepts).None? <==> forall m :: 0 <= m < 10 ==> !accepts(IpcPath(tmp, m))
  {
    var r := Discover(tmp, accepts);
    var suffixes := UdsSuffixRange;
    assert forall i :: 0 <= i < 10 ==> suffixes[i] == i;
    if r.None? {
      forall m | 0 <= m < 10 ensures !accepts(IpcPath(tmp, m)) {
        assert suffixes[m] == m;
      }
    } else {
      var i :| 0 <= i < 10 && suffixes[i] == r.value && accepts(IpcPath(tmp, r.value)) &&
        forall j :: 0 <= j < i ==> !accepts(IpcPath(tmp, suffixes[j]));
      assert i == r.value;
      forall m | 0 <= m < r.value ensures !accepts(IpcPath(tmp, m)) {
        assert suffixes[m] == m;
      }
    }
    if r.None? && 0 <= n < 10 {
      assert !accepts(IpcPath(tmp, suffixes[n]));
    }
  }

  /** How `connect()` ends: the error it throws, if any, the socket it leaves, and whether the handshake went out. */
  datatype ConnectResult = ConnectResult(error: Option<ClientError>, socket: SocketState, handshook: bool)

  /**
   * The sandbox check comes first and leaves everything as it was; a failed socket creation
   * leaves the old socket; if no path accepts, the unconnected socket stays and `udsNotFound`
   * names the directory; a failed handshake closes the socket and rethrows.
   */
  function ConnectOutcome(sandboxed: bool, createFails: bool, before: SocketState, tmp: string,
                          accepts: string -> bool, handshakeFails: bool): ConnectResult
  {
    if sandboxed then ConnectResult(Some(AppSandboxed), before, false)
    else if createFails then ConnectResult(Some(SocketCreation), before, false)
    else match Discover(tmp, accepts)
      case None => ConnectResult(Some(UdsNotFound(tmp)), Unconnected, false)
      case Some(n) =>
        if handshakeFails then ConnectResult(Some(SocketWriteFailed), NoSocket, false)
        else ConnectResult(None, Connected(IpcPath(tmp, n)), true)
  }

  /**
   * `connect()` succeeds exactly when the app is not sandboxed, the socket is created, some
   * path accepts and the handshake is sent; the client is then connected to the lowest such path.
   * Whenever it throws, no handshake has gone out and the socket is not connected unless it was before.
   */
  lemma ConnectSucceeds(sandboxed: bool, createFails: bool, before: SocketState, tmp: string,
                        accepts: string -> bool, handshakeFails: bool)
    ensures var c := ConnectOutcome(sandboxed, createFails, before, tmp, accepts, handshakeFails);
      (c.error.None? <==> !sandboxed && !createFails && Discover(tmp, accepts).Some? && !handshakeFails) &&
      (c.error.None? ==> c.handshook && exists n :: (0 <= n < 10 && c.socket == Connected(IpcPath(tmp, n)) &&
         accepts(IpcPath(tmp, n)) && forall m :: 0 <= m < n ==> !accepts(IpcPath(tmp, m)))) &&
      (c.error.Some? ==> !c.handshook && (c.socket.Connected? ==> c.socket == before))
  {
    var c := ConnectOutcome(sandboxed, createFails, before, tmp, accepts, handshakeFails);
    if c.error.None? {
      var n := Discover(tmp, accepts).value;
      DiscoverLowest(tmp, accepts, n);
      assert c.socket == Connected(IpcPath(tmp, n));
    }
  }
}
