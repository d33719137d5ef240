/**
 * What the receive path does with one complete frame (Sources/RPC.swift `handlePayload`,
 * `handleResponse`, `handleEvent`). The only effect of each is a single handler call, a post
 * to the synchronous-call waiters, an echo or closing the socket, so the decision is a
 * function returning a `Route`. Turning payload bytes into a JSON document is the JSON
 * decoder, a parameter here.
 */
module Routing {
  import opened Wrappers
  import opened Bytes
  import opened Json
  import opened Constants
  import opened Nonce
  import Envelope
  import opened Events

  /** The JSON text decoder: the document a payload holds, or nothing when it is not JSON. */
  type Parser = seq<byte> -> Option<Value>

  datatype Route =
    /** A `CLOSE` frame: the socket is closed; the disconnect handler gets the notice if it decodes. */
    | Closed(notice: Option<CloseNotice>)
    /** A `PING` answered by a `PONG` frame with this payload. */
    | Echo(payload: seq<byte>)
    | ConnectHandler(ready: EventReady)
    | ResponseHandler(nonce: string, payload: seq<byte>)
    | ErrorHandler(nonce: string, error: EventError)
    /** A post on the command notification centre, named by the nonce. */
    | PostToWaiter(nonce: string, isError: bool, payload: seq<byte>)
    /** A block queued for the generic handler; it unwraps `frame.evt!` when it runs. */
    | EventHandler(evt: Option<EventType>, payload: seq<byte>)
    /** Logged and nothing delivered. */
    | Drop
    /** A force-unwrap of nil: the process stops. */
    | Trap

  /** Frames go to the event path when they are dispatched events or errors. */
  predicate IsEventFrame(f: Envelope.Frame)
  {
    f.cmd == Dispatch || f.evt == Some(EventType.Error)
  }

  /** `handleResponse`: a reply to a command, by the kind of its nonce. */
  function HandleResponse(data: seq<byte>, doc: Value): (r: Route)
    ensures r.Drop? || r.Trap? || r.ResponseHandler? || (r.PostToWaiter? && !r.isError)
    ensures r.ResponseHandler? || r.PostToWaiter? ==> r.payload == data
  {
    match Envelope.Decode(doc)
    case Failure(_) => Drop
    case Success(f) =>
      if f.nonce.None? then Trap
      else match IsNonceAsync(f.nonce.value)
        case Failure(_) => Drop
        case Success(async) =>
          if async then ResponseHandler(f.nonce.value, data) else PostToWaiter(f.nonce.value, false, data)
  }

  /** `handleEvent`: `READY`, `ERROR` by nonce kind, and every other event to the generic handler. */
  function HandleEvent(data: seq<byte>, doc: Value): (r: Route)
    ensures !r.Closed? && !r.Echo? && !r.ResponseHandler? && !(r.PostToWaiter? && !r.isError)
    ensures r.EventHandler? || r.PostToWaiter? ==> r.payload == data
  {
    match Envelope.Decode(doc)
    case Failure(_) => Drop
    case Success(f) =>
      if f.evt == Some(Ready) then
        match DecodeEventReady(doc)
        case Success(ready) => ConnectHandler(ready)
        case Failure(_) => Drop
      else if f.evt == Some(EventType.Error) then
        if f.nonce.None? then Trap
        else match IsNonceAsync(f.nonce.value)
          case Failure(_) => Drop
          case Success(async) =>
            if !async then PostToWaiter(f.nonce.value, true, data)
            else match DecodeEventError(doc)
              case Success(err) => ErrorHandler(f.nonce.value, err)
              case Failure(_) => Drop
      else EventHandler(f.evt, data)
  }

  /**
   * Whether the block a route queues on the handler queue stops the process. The handler
   * blocks unwrap no nil except the generic one's `frame.evt!`, which Swift evaluates only
   * when an event handler is registered, since it is an argument of an optional call.
   */
  predicate QueuedBlockTraps(r: Route, eventHandlerSet: bool)
  {
    r.EventHandler? && r.evt.None? && eventHandlerSet
  }

  /** `handlePayload`: the opcode decides; handshake and pong frames from the peer are dropped. */
  function HandlePayload(op: OpCode, data: seq<byte>, parse: Parser): (r: Route)
    ensures r.Closed? <==> op == Close
    ensures r.Echo? ==> op == Ping && r.payload == Utf8Text(data)
    ensures op == Ping ==> (r == Echo(Utf8Text(data)) <==> IsUtf8(data)) && (r == Trap <==> !IsUtf8(data))
    ensures op == Handshake || op == OpCode.Pong ==> r == Drop
    ensures op == OpCode.Frame && parse(data).None? ==> r == Drop
  {
    if op == Close then
      var notice := if parse(data).Some? then DecodeClose(parse(data).value).ToOption() else None;
      Closed(notice)
    else if op == Ping then
      if IsUtf8(data) then Echo(Utf8Text(data)) else Trap
    else if op == OpCode.Frame then
      match parse(data)
      case None => Drop
      case Some(doc) =>
        match Envelope.Decode(doc)
        case Failure(_) => Drop
        case Success(f) => if IsEventFrame(f) then HandleEvent(data, doc) else HandleResponse(data, doc)
    else Drop
  }

  /** A frame with a decodable envelope goes to exactly one of the two paths. */
  lemma FramePath(data: seq<byte>, parse: Parser, doc: Value)
    requires parse(data) == Some(doc) && Envelope.Decode(doc).Success?
    ensures IsEventFrame(Envelope.Decode(doc).value) ==> HandlePayload(OpCode.Frame, data, parse) == HandleEvent(data, doc)
    ensures !IsEventFrame(Envelope.Decode(doc).value) ==> HandlePayload(OpCode.Frame, data, parse) == HandleResponse(data, doc)
  {
  }

  /** A close notice reaches the disconnect handler exactly when the payload decodes as one. */
  lemma CloseRoute(data: seq<byte>, parse: Parser)
    ensures HandlePayload(Close, data, parse).notice.Some? <==>
      parse(data).Some? && DecodeClose(parse(data).value).Success?
    ensures HandlePayload(Close, data, parse).notice.Some? ==>
      HandlePayload(Close, data, parse).notice == Some(DecodeClose(parse(data).value).value)
  {
  }

  /** The routes of a command reply: a frame that is neither a dispatched event nor an error. */
  lemma ResponseRoutes(data: seq<byte>, parse: Parser, doc: Value)
    requires parse(data) == Some(doc) && Envelope.Decode(doc).Success?
    requires !IsEventFrame(Envelope.Decode(doc).value)
    ensures var f := Envelope.Decode(doc).value; var r := HandlePayload(OpCode.Frame, data, parse);
      && (r.ResponseHandler? <==> f.nonce.Some? && IsNonceAsync(f.nonce.value) == Success(true))
      && (r.PostToWaiter? <==> f.nonce.Some? && IsNonceAsync(f.nonce.value) == Success(false))
      && (r.Drop? <==> f.nonce.Some? && IsNonceAsync(f.nonce.value).Failure?)
      && (r.Trap? <==> f.nonce.None?)
      && (r.ResponseHandler? || r.PostToWaiter? ==> r.nonce == f.nonce.value && r.payload == data)
      && (r.PostToWaiter? ==> !r.isError)
  {
    FramePath(data, parse, doc);
    var f := Envelope.Decode(doc).value;
    if f.nonce.Some? {
      var k := IsNonceAsync(f.nonce.value);
      if k.Success? {
        assert HandleResponse(data, doc) == if k.value then ResponseHandler(f.nonce.value, data) else PostToWaiter(f.nonce.value, false, data);
      } else {
        assert HandleResponse(data, doc) == Drop;
      }
    } else {
      assert HandleResponse(data, doc) == Trap;
    }
  }

  /** The routes of an `ERROR` event, whatever its `cmd`: the error handler or a waiter, never both. */
  lemma ErrorRoutes(data: seq<byte>, parse: Parser, doc: Value)
    requires parse(data) == Some(doc) && Envelope.Decode(doc).Success?
    requires Envelope.Decode(doc).value.evt == Some(EventType.Error)
    ensures var f := Envelope.Decode(doc).value; var r := HandlePayload(OpCode.Frame, data, parse);
      && (r.ErrorHandler? <==>
            f.nonce.Some? && IsNonceAsync(f.nonce.value) == Success(true) && DecodeEventError(doc).Success?)
      && (r.PostToWaiter? <==> f.nonce.Some? && IsNonceAsync(f.nonce.value) == Success(false))
      && (r.Trap? <==> f.nonce.None?)
      && (r.ErrorHandler? ==> r.nonce == f.nonce.value && r.error == DecodeEventError(doc).value)
      && (r.PostToWaiter? ==> r.nonce == f.nonce.value && r.isError && r.payload == data)
  {
    FramePath(data, parse, doc);
    var f := Envelope.Decode(doc).value;
    if f.nonce.Some? {
      var k := IsNonceAsync(f.nonce.value);
      if k.Success? {
        if k.value {
          var e := DecodeEventError(doc);
          assert HandleEvent(data, doc) == if e.Success? then ErrorHandler(f.nonce.value, e.value) else Drop;
        } else {
          assert HandleEvent(data, doc) == PostToWaiter(f.nonce.value, true, data);
        }
      } else {
        assert HandleEvent(data, doc) == Drop;
      }
    } else {
      assert HandleEvent(data, doc) == Trap;
    }
  }

  /**
   * The routes of a dispatched event that is not an error. The loop itself never traps here;
   * an event missing or unknown to the client stops the process only from the generic
   * handler's block, and only when an event handler is registered.
   */
  lemma DispatchRoutes(data: seq<byte>, parse: Parser, doc: Value, eventHandlerSet: bool)
    requires parse(data) == Some(doc) && Envelope.Decode(doc).Success?
    requires Envelope.Decode(doc).value.cmd == Dispatch && Envelope.Decode(doc).value.evt != Some(EventType.Error)
    ensures var f := Envelope.Decode(doc).value; var r := HandlePayload(OpCode.Frame, data, parse);
      && (r.ConnectHandler? <==> f.evt == Some(Ready) && DecodeEventReady(doc).Success?)
      && (r.EventHandler? <==> f.evt != Some(Ready))
      && !r.Trap?
      && (r.ConnectHandler? ==> r.ready == DecodeEventReady(doc).value)
      && (r.EventHandler? ==> r.evt == f.evt && r.payload == data)
      && (QueuedBlockTraps(r, eventHandlerSet) <==> eventHandlerSet && f.evt.None?)
  {
    FramePath(data, parse, doc);
  }

  /**
   * A reply that carries the nonce a command generated goes back where that command expects
   * it: to the response handler for an async nonce, to the waiter named by the nonce otherwise.
   */
  lemma ReplyReachesCaller(uuid: string, async: bool, data: seq<byte>, parse: Parser, doc: Value)
    requires IsUuidString(uuid)
    requires parse(data) == Some(doc) && Envelope.Decode(doc).Success?
    requires !IsEventFrame(Envelope.Decode(doc).value)
    requires Envelope.Decode(doc).value.nonce == Some(GenerateNonce(uuid, async))
    ensures HandlePayload(OpCode.Frame, data, parse) ==
      if async then ResponseHandler(GenerateNonce(uuid, async), data)
      else PostToWaiter(GenerateNonce(uuid, async), false, data)
  {
    GeneratedNonceRoundTrip(uuid, async);
    ResponseRoutes(data, parse, doc);
  }

  /** An error event for a generated nonce reaches the error handler or the waiter, by the nonce's kind. */
  lemma ErrorReachesCaller(uuid: string, async: bool, data: seq<byte>, parse: Parser, doc: Value)
    requires IsUuidString(uuid)
    requires parse(data) == Some(doc) && DecodeEventError(doc).Success?
    requires DecodeEventError(doc).value.frame.nonce == Some(GenerateNonce(uuid, async))
    ensures HandlePayload(OpCode.Frame, data, parse) ==
      if async then ErrorHandler(GenerateNonce(uuid, async), DecodeEventError(doc).value)
      else PostToWaiter(GenerateNonce(uuid, async), true, data)
  {
    GeneratedNonceRoundTrip(uuid, async);
    EventErrorEnvelope(doc);
    ErrorRoutes(data, parse, doc);
  }
}
