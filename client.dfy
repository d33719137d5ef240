/**
 * The `DiscordRPC` object (Sources/DiscordRPC.swift with its extensions in Sources/RPC.swift
 * and Sources/Commands.swift). The socket is an oracle: whether a path accepts, whether a
 * write fails, and what each read returns are parameters. The frames written, the reports
 * of the receive loop and the registered sync observers are fields the methods update.
 */
module Client {
  import opened Wrappers
  import opened Bytes
  import opened Json
  import opened Constants
  import opened Nonce
  import opened FrameCodec
  import opened Routing
  import opened Receive
  import opened Errors
  import opened Commands
  import opened Discovery
  import Subscribe

  /** `RequestHandshake`'s JSON: the API version and the client id. */
  function HandshakeRequest(clientId: string): Value
  {
    Object(map["v" := Number(ApiVersion), "client_id" := Str(clientId)])
  }

  /** A JSON encoder (`jsonString()`, then its UTF-8 bytes) whose every output fits one frame. */
  ghost predicate Framable<T(!new)>(encode: T -> seq<byte>)
  {
    forall x :: |encode(x)| < 0x1_0000_0000
  }

  /**
   * The socket once the receive loop has ended: a trap leaves everything as it was, a `CLOSE`
   * frame closed and cleared it, and otherwise the peer went away.
   */
  function SocketAfterRun(before: SocketState, rs: seq<Report>): SocketState
  {
    if |rs| > 0 && rs[|rs| - 1] == Routed(Trap) then before
    else if |rs| >= 2 && rs[|rs| - 2].Routed? && rs[|rs| - 2].route.Closed? then NoSocket
    else Unconnected
  }

  /** The last report is a closed socket. */
  predicate EndsClosed(rs: seq<Report>)
  {
    |rs| > 0 && rs[|rs| - 1].Routed? && rs[|rs| - 1].route.Closed?
  }

  /** What the receive loop touches: the reports handed on, the frames written and the socket. */
  datatype LoopView = LoopView(reports: seq<Report>, wire: seq<seq<byte>>, socket: SocketState)

  /**
   * The loop's progress since `start`: `done` has been reported and its pongs written; while
   * the socket is connected, `all` is `done` followed by the run of the reads from `i` on;
   * once a `CLOSE` frame cleared it, only the disconnect is left to report.
   */
  ghost predicate Tracking(script: seq<ReadResult>, i: nat, parse: Parser, all: seq<Report>, done: seq<Report>,
                           start: LoopView, now: LoopView)
  {
    && i <= |script|
    && now.reports == start.reports + done && now.wire == start.wire + PongFrames(done)
    && (now.socket.Connected? ==> now.socket == start.socket && all == done + Run(script[i..], parse) && !EndsClosed(done))
    && (!now.socket.Connected? ==> now.socket == NoSocket && all == done + [SocketGone] && EndsClosed(done))
  }

  /** A pass that routes nothing leaves the loop on track at the next header. */
  lemma SkipTracks(script: seq<ReadResult>, i: nat, parse: Parser, all: seq<Report>, done: seq<Report>,
                   start: LoopView, now: LoopView)
    requires i < |script| && now.socket.Connected? && Tracking(script, i, parse, all, done, start, now)
    requires !StepOf(script[i..], parse).Deliver?
    ensures var step := StepOf(script[i..], parse);
      Tracking(script, if step.Skip? then i + step.count else |script|, parse, all, done, start, now)
  {
    RunAdvances(script, i, parse, done, all);
    assert script[|script|..] == [];
  }

  /** Delivering the route of a pass keeps the loop on track, or ends it at a trap with nothing left. */
  lemma DeliverTracks(script: seq<ReadResult>, i: nat, parse: Parser, all: seq<Report>, done: seq<Report>,
                      start: LoopView, before: LoopView, route: Route)
    requires i < |script| && before.socket.Connected? && Tracking(script, i, parse, all, done, start, before)
    requires StepOf(script[i..], parse) == Deliver(route)
    ensures var after := LoopView(before.reports + [Routed(route)],
                                  before.wire + (if route.Echo? then [EncodeFrame(Pong, route.payload)] else []),
                                  if route.Closed? then NoSocket else before.socket);
      var done' := done + [Routed(route)];
      (route.Trap? ==> (all == done' && after.socket == start.socket &&
                        after.reports == start.reports + done' && after.wire == start.wire + PongFrames(done'))) &&
      (!route.Trap? ==> Tracking(script, i + 2, parse, all, done', start, after))
  {
    RunAdvances(script, i, parse, done, all);
    PongFramesSnoc(done, Routed(route));
  }

  class DiscordRpc {
    const clientId: string
    const clientSecret: Option<string>
    /** Time limit in milliseconds of a sync command. */
    var cmdTimeout: int
    var socket: SocketState
    /** The frames written to the socket, oldest first. */
    var wire: seq<seq<byte>>
    /** What the receive loop has handed on, in order. */
    var reports: seq<Report>
    /** The nonces whose sync observer is registered. */
    var observers: multiset<string>
    /** Whether the handshake has started the receive loop. */
    var receiving: bool

    constructor(clientId: string, clientSecret: Option<string>)
      ensures this.clientId == clientId && this.clientSecret == clientSecret
      ensures cmdTimeout == 1000 && socket == NoSocket
      ensures wire == [] && reports == [] && observers == multiset{} && !receiving
    {
      this.clientId := clientId;
      this.clientSecret := clientSecret;
      cmdTimeout := 1000;
      socket := NoSocket;
      wire := [];
      reports := [];
      observers := multiset{};
      receiving := false;
    }

    /** `createSocket()`: a new, unconnected socket, or `socketCreation` with the old one kept. */
    method CreateSocket(fails: bool) returns (e: Option<ClientError>)
      modifies this`socket
      ensures e == (if fails then Some(SocketCreation) else None)
      ensures socket == (if fails then old(socket) else Unconnected)
    {
      if fails {
        return Some(SocketCreation);
      }
      socket := Unconnected;
      return None;
    }

    /** `closeSocket()`: close the socket, if any, and clear it. */
    method CloseSocket()
      modifies this`socket
      ensures socket == NoSocket
    {
      socket := NoSocket;
    }

    /** `send(_:_:)`: one frame written, or a failed write; without a socket, nothing happens and nothing is thrown. */
    method Send(payload: seq<byte>, op: OpCode, writeFails: bool) returns (e: Option<ClientError>)
      requires |payload| < 0x1_0000_0000
      modifies this`wire
      ensures e == (if !socket.NoSocket? && writeFails then Some(SocketWriteFailed) else None)
      ensures wire == if socket.NoSocket? || writeFails then old(wire) else old(wire) + [EncodeFrame(op, payload)]
    {
      var buffer := FillSendBuffer(op, payload);
      if socket.NoSocket? {
        return None;
      }
      if writeFails {
        return Some(SocketWriteFailed);
      }
      wire := wire + [buffer[..]];
      return None;
    }

    /**
     * `receive()`'s loop, run to its end over the outcomes `script` of the socket's reads.
     * Each dispatched frame is reported, each ping answered with a pong, and the loop ends
     * with `socketDisconnected` (at once when the socket is not connected) or with a trap.
     */
    method ReceiveLoop(script: seq<ReadResult>, parse: Parser)
      modifies this`socket, this`wire, this`reports
      ensures !old(socket).Connected? ==>
        reports == old(reports) + [SocketGone] && wire == old(wire) && socket == old(socket)
      ensures old(socket).Connected? ==> (EchoesFit(Run(script, parse)) &&
        reports == old(reports) + Run(script, parse) &&
        wire == old(wire) + PongFrames(Run(script, parse)) &&
        socket == SocketAfterRun(old(socket), Run(script, parse)))
    {
      if !socket.Connected? {
        reports := reports + [SocketGone];
        return;
      }
      RunEnds(script, parse);
      var trapped, done := Pump(script, parse, Run(script, parse));
      if trapped {
        return;
      }
      if socket.Connected? {
        socket := Unconnected;
      }
      reports := reports + [SocketGone];
      PongFramesSnoc(done, SocketGone);
    }

    /**
     * The passes of the loop while the socket stays connected, up to the end of the script,
     * a `CLOSE` frame or a trap. `done` is what they reported.
     */
    method Pump(script: seq<ReadResult>, parse: Parser, ghost all: seq<Report>) returns (trapped: bool, ghost done: seq<Report>)
      requires socket.Connected? && all == Run(script, parse)
      modifies this`socket, this`wire, this`reports
      ensures reports == old(reports) + done && wire == old(wire) + PongFrames(done)
      ensures trapped ==> (all == done && socket == old(socket) &&
        |done| > 0 && done[|done| - 1] == Routed(Trap))
      ensures !trapped && socket.Connected? ==> all == done + [SocketGone] && socket == old(socket) && !EndsClosed(done)
      ensures !trapped && !socket.Connected? ==> all == done + [SocketGone] && socket == NoSocket && EndsClosed(done)
    {
      ghost var start := View();
      done := [];
      var i := 0;
      while i < |script| && socket.Connected?
        invariant Tracking(script, i, parse, all, done, start, View())
        decreases |script| - i
      {
        var next;
        next, trapped, done := Pass(script, i, parse, all, done, start);
        if trapped {
          return;
        }
        i := next;
      }
      if socket.Connected? {
        assert script[i..] == [];
      }
      return false, done;
    }

    ghost function View(): LoopView
      reads this
    {
      LoopView(reports, wire, socket)
    }

    /** One pass of the loop: read a frame and, if one is routed, deliver it. */
    method Pass(script: seq<ReadResult>, i: nat, parse: Parser, ghost all: seq<Report>, ghost done: seq<Report>,
                ghost start: LoopView)
      returns (next: nat, trapped: bool, ghost done': seq<Report>)
      requires i < |script| && socket.Connected?
      requires Tracking(script, i, parse, all, done, start, View())
      modifies this`socket, this`wire, this`reports
      ensures i < next <= |script|
      ensures trapped ==> (reports == start.reports + done' && wire == start.wire + PongFrames(done') &&
        socket == start.socket && all == done' && |done'| > 0 && done'[|done'| - 1] == Routed(Trap))
      ensures !trapped ==> Tracking(script, next, parse, all, done', start, View())
    {
      ghost var before := View();
      var route;
      next, route := NextFrame(script, i, parse);
      if route.None? {
        SkipTracks(script, i, parse, all, done, start, before);
        return next, false, done;
      }
      Deliver(route.value);
      DeliverTracks(script, i, parse, all, done, start, before, route.value);
      done' := done + [Routed(route.value)];
      trapped := route.value.Trap?;
    }

    /**
     * One pass of `receive()`'s loop from read `i` on: read a header, drop it when the read
     * fails or is empty, or when its length is 0 or its opcode unknown; read the payload, drop
     * the pass when that read fails or is empty; otherwise route the frame. Returns where the
     * next pass starts and the route, if a frame was routed.
     */
    method NextFrame(script: seq<ReadResult>, i: nat, parse: Parser) returns (next: nat, route: Option<Route>)
      requires i < |script|
      ensures var step := StepOf(script[i..], parse);
        (step.Skip? ==> next == i + step.count && route.None?) &&
        (step.Hangup? ==> next == |script| && route.None?) &&
        (step.Deliver? ==> next == i + 2 && route == Some(step.route))
    {
      assert script[i..][0] == script[i];
      if script[i].ReadFailed? || |script[i].bytes| == 0 {
        return i + 1, None;
      }
      var header := DecodeHeader(Fit(script[i].bytes, HeaderSize));
      var op := OpCodeFromRaw(header.opValue);
      if header.length == 0 || op.None? {
        return i + 1, None;
      }
      if i + 1 == |script| {
        return |script|, None;
      }
      assert script[i..][1] == script[i + 1];
      if script[i + 1].ReadFailed? || |script[i + 1].bytes| == 0 {
        return i + 2, None;
      }
      var data := Fit(script[i + 1].bytes, header.length);
      return i + 2, Some(HandlePayload(op.value, data, parse));
    }

    /**
     * `handlePayload(_:_:)`'s effect on the client: the route is handed on, a `CLOSE` frame
     * closes the socket, and a ping's payload is written back in a `PONG` frame.
     */
    method Deliver(route: Route)
      requires socket.Connected?
      requires route.Echo? ==> |route.payload| < 0x1_0000_0000
      modifies this`socket, this`wire, this`reports
      ensures reports == old(reports) + [Routed(route)]
      ensures socket == if route.Closed? then NoSocket else old(socket)
      ensures wire == old(wire) + if route.Echo? then [EncodeFrame(Pong, route.payload)] else []
    {
      reports := reports + [Routed(route)];
      if route.Closed? {
        CloseSocket();
      } else if route.Echo? {
        var _ := Send(route.payload, Pong, false);
      }
    }

    /**
     * `syncResponse(requestJSON:nonce:disableTimeout:)`: register an observer for `nonce`,
     * send the request, wait for the first of `posts` named by the nonce (or the deadline),
     * remove the observer and classify what woke it. A failed write leaves the observer in
     * place, and so does a wait without deadline that nothing ends.
     */
    method SyncResponse(request: seq<byte>, nonce: string, posts: seq<Post>, parse: Parser,
                        writeFails: bool, disableTimeout: bool) returns (r: CallResult)
      requires |request| < 0x1_0000_0000
      modifies this`observers, this`wire
      ensures var sent := socket.NoSocket? || !writeFails;
        r == SyncOutcome(sent, posts, nonce, disableTimeout, cmdTimeout, parse) &&
        wire == (if sent && !socket.NoSocket? then old(wire) + [EncodeFrame(OpCode.Frame, request)] else old(wire)) &&
        observers == (if !sent || r.Blocked? then old(observers) + multiset{nonce} else old(observers))
    {
      observers := observers + multiset{nonce};
      var e := Send(request, OpCode.Frame, writeFails);
      if e.Some? {
        return Raised(e.value);
      }
      var i := 0;
      while i < |posts| && posts[i].name != nonce
        invariant 0 <= i <= |posts|
        invariant FirstFor(posts, nonce) == FirstFor(posts[i..], nonce)
      {
        assert posts[i..][1..] == posts[i + 1..];
        i := i + 1;
      }
      if i == |posts| {
        if disableTimeout {
          return Blocked;
        }
        observers := observers - multiset{nonce};
        return Raised(CommandFailed(Timeout(cmdTimeout)));
      }
      observers := observers - multiset{nonce};
      var outcome := Classify(posts[i].note, parse);
      if outcome.Success? {
        return Returned(outcome.value);
      }
      return Raised(CommandFailed(outcome.error));
    }

    /** `handshake()`: send `{v, client_id}` with the handshake opcode, then start the receive loop. */
    method Handshake(serialize: Value -> seq<byte>, writeFails: bool) returns (e: Option<ClientError>)
      requires Framable(serialize)
      modifies this`wire, this`receiving
      ensures e == (if !socket.NoSocket? && writeFails then Some(SocketWriteFailed) else None)
      ensures wire == if socket.NoSocket? || writeFails then old(wire)
                      else old(wire) + [EncodeFrame(OpCode.Handshake, serialize(HandshakeRequest(clientId)))]
      ensures receiving == (old(receiving) || e.None?)
    {
      e := Send(serialize(HandshakeRequest(clientId)), OpCode.Handshake, writeFails);
      if e.None? {
        receiving := true;
      }
    }

    /**
     * `connect()`: the sandbox check, then a new socket, then suffixes 0 to 9 in order until
     * one accepts; there the handshake is sent and the call returns, closing the socket first
     * if the handshake throws.
     */
    method Connect(sandboxed: bool, createFails: bool, tmp: string, accepts: string -> bool,
                   serialize: Value -> seq<byte>, handshakeFails: bool) returns (e: Option<ClientError>)
      requires Framable(serialize)
      modifies this`socket, this`wire, this`receiving
      ensures var c := ConnectOutcome(sandboxed, createFails, old(socket), tmp, accepts, handshakeFails);
        e == c.error && socket == c.socket && receiving == (old(receiving) || c.handshook) &&
        wire == if c.handshook then old(wire) + [EncodeFrame(OpCode.Handshake, serialize(HandshakeRequest(clientId)))]
                else old(wire)
    {
      if sandboxed {
        return Some(AppSandboxed);
      }
      e := CreateSocket(createFails);
      if e.Some? {
        return;
      }
      var i := 0;
      while i < |UdsSuffixRange|
        invariant 0 <= i <= |UdsSuffixRange|
        invariant socket == Unconnected && wire == old(wire) && receiving == old(receiving)
        invariant Discover(tmp, accepts) == FirstAccepting(tmp, accepts, UdsSuffixRange[i..])
      {
        assert UdsSuffixRange[i..][1..] == UdsSuffixRange[i + 1..];
        var path := IpcPath(tmp, UdsSuffixRange[i]);
        if accepts(path) {
          socket := Connected(path);
          e := Handshake(serialize, handshakeFails);
          if e.Some? {
            CloseSocket();
          }
          return;
        }
        i := i + 1;
      }
      return Some(UdsNotFound(tmp));
    }

    /** `disconnect()`. */
    method Disconnect()
      modifies this`socket
      ensures socket == NoSocket
    {
      CloseSocket();
    }

    /**
     * A sync command wrapper (`authorize`, `getGuilds`, ...): a sync nonce, the request for it,
     * and `syncResponse`, without deadline for `authorize` only. Decoding the typed response
     * is not part of this model: the call ends with the reply's bytes.
     */
    method Command(c: CommandType, uuid: string, request: string -> seq<byte>, posts: seq<Post>,
                   parse: Parser, writeFails: bool) returns (r: CallResult)
      requires HasWrappers(c) && Framable(request)
      modifies this`observers, this`wire
      ensures var nonce := GenerateNonce(uuid);
        var sent := socket.NoSocket? || !writeFails;
        r == SyncOutcome(sent, posts, nonce, WaitsWithoutDeadline(c), cmdTimeout, parse) &&
        wire == (if sent && !socket.NoSocket? then old(wire) + [EncodeFrame(OpCode.Frame, request(nonce))] else old(wire)) &&
        observers == (if !sent || r.Blocked? then old(observers) + multiset{nonce} else old(observers))
    {
      var nonce := GenerateNonce(uuid);
      r := SyncResponse(request(nonce), nonce, posts, parse, writeFails, WaitsWithoutDeadline(c));
    }

    /** An `*Async` wrapper: one frame sent, and the nonce embedded in it returned. */
    method CommandAsync(c: CommandType, uuid: string, request: string -> seq<byte>, writeFails: bool)
      returns (r: Result<string, ClientError>)
      requires HasWrappers(c) && Framable(request)
      modifies this`wire
      ensures var nonce := GenerateNonce(uuid, AsyncWrapperNonceKind(c));
        (r.Success? <==> socket.NoSocket? || !writeFails) &&
        (r.Success? ==> r.value == nonce) &&
        (r.Failure? ==> r.error == SocketWriteFailed) &&
        wire == (if r.Success? && !socket.NoSocket? then old(wire) + [EncodeFrame(OpCode.Frame, request(nonce))] else old(wire))
    {
      var nonce := GenerateNonce(uuid, AsyncWrapperNonceKind(c));
      var e := Send(request(nonce), OpCode.Frame, writeFails);
      if e.Some? {
        return Failure(e.value);
      }
      return Success(nonce);
    }

    /**
     * `subscribe(event:id:)`: the request is validated before anything is registered or sent,
     * and an id that does not fit the event throws the request's own `invalidParameters`.
     */
    method SubscribeSync(evt: EventType, id: Option<string>, uuid: string, serialize: Value -> seq<byte>,
                         posts: seq<Post>, parse: Parser, writeFails: bool) returns (r: CallResult)
      requires Framable(serialize)
      modifies this`observers, this`wire
      ensures var nonce := GenerateNonce(uuid);
        match Subscribe.NewRequest(evt, nonce, id)
        case Failure(why) =>
          r == Raised(RequestFailed(why)) && wire == old(wire) && observers == old(observers)
        case Success(req) =>
          var sent := socket.NoSocket? || !writeFails;
          r == SyncOutcome(sent, posts, nonce, false, cmdTimeout, parse) &&
          wire == (if sent && !socket.NoSocket? then old(wire) + [EncodeFrame(OpCode.Frame, serialize(Subscribe.EncodeRequest(req)))]
                   else old(wire)) &&
          observers == (if !sent || r.Blocked? then old(observers) + multiset{nonce} else old(observers))
    {
      var nonce := GenerateNonce(uuid);
      var req := Subscribe.NewRequest(evt, nonce, id);
      if req.Failure? {
        return Raised(RequestFailed(req.error));
      }
      r := SyncResponse(serialize(Subscribe.EncodeRequest(req.value)), nonce, posts, parse, writeFails, false);
    }

    /** `subscribeAsync(event:id:)`: the same validation, then one frame under an async nonce. */
    method SubscribeAsync(evt: EventType, id: Option<string>, uuid: string, serialize: Value -> seq<byte>,
                          writeFails: bool) returns (r: Result<string, ClientError>)
      requires Framable(serialize)
      modifies this`wire
      ensures var nonce := GenerateNonce(uuid, true);
        match Subscribe.NewRequest(evt, nonce, id)
        case Failure(why) => r == Failure(RequestFailed(why)) && wire == old(wire)
        case Success(req) =>
          (r.Success? <==> socket.NoSocket? || !writeFails) &&
          (r.Success? ==> r.value == nonce) &&
          wire == (if r.Success? && !socket.NoSocket? then old(wire) + [EncodeFrame(OpCode.Frame, serialize(Subscribe.EncodeRequest(req)))]
                   else old(wire))
    {
      var nonce := GenerateNonce(uuid, true);
      var req := Subscribe.NewRequest(evt, nonce, id);
      if req.Failure? {
        return Failure(RequestFailed(req.error));
      }
      var e := Send(serialize(Subscribe.EncodeRequest(req.value)), OpCode.Frame, writeFails);
      if e.Some? {
        return Failure(e.value);
      }
      return Success(nonce);
    }
  }
}
