/**
 * The three payloads the receive path decodes itself: the close notice of a `CLOSE` frame
 * (Sources/Types/Events/EventClose.swift), the `ERROR` event (EventError.swift) and the
 * `READY` event (EventReady.swift). Each typed event first reads its own `data` key, then
 * runs the envelope initialiser with the values fixed for that event.
 */
module Events {
  import opened Wrappers
  import opened Json
  import opened Constants
  import Envelope

  /** An `Int`-backed enumeration field: an integer that must be one of the known raw values. */
  function DecodeErrorCode(fields: Fields, key: string): (r: Result<ErrorCode, DecodeError>)
    ensures r.Success? <==> GetInt(fields, key).Success? && ErrorCodeFromRaw(fields[key].n).Some?
    ensures r.Success? ==> fields[key] == Number(ErrorCodeRaw(r.value))
  {
    var raw :- GetInt(fields, key);
    match ErrorCodeFromRaw(raw)
    case Some(c) => Success(c)
    case None => Failure(DataCorrupted(key))
  }

  function DecodeCloseCode(fields: Fields, key: string): (r: Result<CloseEventCode, DecodeError>)
    ensures r.Success? <==> GetInt(fields, key).Success? && CloseCodeFromRaw(fields[key].n).Some?
    ensures r.Success? ==> fields[key] == Number(CloseCodeRaw(r.value))
  {
    var raw :- GetInt(fields, key);
    match CloseCodeFromRaw(raw)
    case Some(c) => Success(c)
    case None => Failure(DataCorrupted(key))
  }

  lemma ErrorCodeInIntRange(c: ErrorCode)
    ensures IntMin <= ErrorCodeRaw(c) <= IntMax
  {
  }

  lemma CloseCodeInIntRange(c: CloseEventCode)
    ensures IntMin <= CloseCodeRaw(c) <= IntMax
  {
  }

  // ---------------------------------------------------------------------------------------
  // EventClose: the payload of a CLOSE frame

  datatype CloseNotice = CloseNotice(code: CloseEventCode, message: string)

  /** The notice the receive loop reports once the socket is gone. */
  const SocketDisconnectedNotice := CloseNotice(SocketDisconnected, "Socket Disconnected")

  /** The synthesized `init(from:)`: `code`, then `message`, both required. */
  function DecodeClose(doc: Value): (r: Result<CloseNotice, DecodeError>)
    ensures r.Success? <==>
      doc.Object? && DecodeCloseCode(doc.fields, "code").Success? && GetString(doc.fields, "message").Success?
    ensures r.Success? ==>
      doc.fields["code"] == Number(CloseCodeRaw(r.value.code)) && doc.fields["message"] == Str(r.value.message)
  {
    var fields :- Container(doc, "");
    var code :- DecodeCloseCode(fields, "code");
    var message :- GetString(fields, "message");
    Success(CloseNotice(code, message))
  }

  function EncodeClose(c: CloseNotice): Value
  {
    Object(map["code" := Number(CloseCodeRaw(c.code)), "message" := Str(c.message)])
  }

  lemma CloseRoundTrip(c: CloseNotice)
    ensures DecodeClose(EncodeClose(c)) == Success(c)
  {
    CloseCodeInIntRange(c.code);
    CloseCodeRoundTrip(c.code);
  }

  // ---------------------------------------------------------------------------------------
  // EventError

  datatype ErrorData = ErrorData(code: ErrorCode, message: string)
  datatype EventError = EventError(frame: Envelope.Frame, data: ErrorData)

  function DecodeErrorData(v: Value): (r: Result<ErrorData, DecodeError>)
    ensures r.Success? <==>
      v.Object? && DecodeErrorCode(v.fields, "code").Success? && GetString(v.fields, "message").Success?
    ensures r.Success? ==>
      v.fields["code"] == Number(ErrorCodeRaw(r.value.code)) && v.fields["message"] == Str(r.value.message)
  {
    var fields :- Container(v, "data");
    var code :- DecodeErrorCode(fields, "code");
    var message :- GetString(fields, "message");
    Success(ErrorData(code, message))
  }

  function EncodeErrorData(d: ErrorData): Value
  {
    Object(map["code" := Number(ErrorCodeRaw(d.code)), "message" := Str(d.message)])
  }

  /**
   * `EventError.init(from:)`: `data` is decoded first; then the envelope, which must carry
   * `evt: ERROR` and a nonce that is not blank, whatever its `cmd`.
   */
  function DecodeEventError(doc: Value): (r: Result<EventError, DecodeError>)
    ensures r.Success? <==>
      && doc.Object? && GetValue(doc.fields, "data").Success? && DecodeErrorData(doc.fields["data"]).Success?
      && Envelope.DecodeWithEvt(doc, Some(EventType.Error), true).Success?
    ensures r.Success? ==>
      && Envelope.Decode(doc) == Success(r.value.frame)
      && DecodeErrorData(doc.fields["data"]) == Success(r.value.data)
  {
    var fields :- Container(doc, "");
    var raw :- GetValue(fields, "data");
    var data :- DecodeErrorData(raw);
    var frame :- Envelope.DecodeWithEvt(doc, Some(EventType.Error), true);
    Success(EventError(frame, data))
  }

  /** The envelope of an accepted error event names `ERROR` and carries a nonce that is not blank. */
  lemma EventErrorEnvelope(doc: Value)
    requires DecodeEventError(doc).Success?
    ensures DecodeEventError(doc).value.frame.evt == Some(EventType.Error)
    ensures DecodeEventError(doc).value.frame.nonce.Some?
    ensures !Envelope.IsBlank(DecodeEventError(doc).value.frame.nonce.value)
  {
    var f := DecodeEventError(doc).value.frame;
    assert Envelope.ValidateNonce(f, true).Success?;
  }

  /** `encode(to:)`: the subclass's `data`, then the envelope's keys. */
  function EncodeEventError(e: EventError): Value
  {
    Object(Envelope.EncodeFields(e.frame) + map["data" := EncodeErrorData(e.data)])
  }

  /** Any error event the initialiser accepts is written back to one it decodes identically. */
  lemma EventErrorRoundTrip(e: EventError)
    requires e.frame.evt == Some(EventType.Error)
    requires e.frame.nonce.Some? && !Envelope.IsBlank(e.frame.nonce.value)
    ensures DecodeEventError(EncodeEventError(e)) == Success(e)
  {
    var doc := EncodeEventError(e);
    Envelope.RoundTrip(e.frame, map["data" := EncodeErrorData(e.data)]);
    assert Envelope.Decode(doc) == Success(e.frame);
    assert Envelope.ValidateNonce(e.frame, true) == Success(e.frame);
    assert Envelope.DecodeWithEvt(doc, Some(EventType.Error), true) == Success(e.frame);
    ErrorCodeInIntRange(e.data.code);
    ErrorCodeRoundTrip(e.data.code);
    assert DecodeErrorData(EncodeErrorData(e.data)) == Success(e.data);
    assert doc.fields["data"] == EncodeErrorData(e.data);
  }

  // ---------------------------------------------------------------------------------------
  // EventReady

  datatype Config = Config(cdnHost: string, apiEndpoint: string, environment: string)

  /** `user` is a `User` record, outside the model: any object stands for it. */
  datatype ReadyData = ReadyData(v: int, config: Config, user: Fields)
  datatype EventReady = EventReady(frame: Envelope.Frame, data: ReadyData)

  function DecodeConfig(v: Value): (r: Result<Config, DecodeError>)
    ensures r.Success? <==> && v.Object? && GetString(v.fields, "cdn_host").Success?
                            && GetString(v.fields, "api_endpoint").Success? && GetString(v.fields, "environment").Success?
    ensures r.Success? ==> && v.fields["cdn_host"] == Str(r.value.cdnHost)
                           && v.fields["api_endpoint"] == Str(r.value.apiEndpoint)
                           && v.fields["environment"] == Str(r.value.environment)
  {
    var fields :- Container(v, "config");
    var cdnHost :- GetString(fields, "cdn_host");
    var apiEndpoint :- GetString(fields, "api_endpoint");
    var environment :- GetString(fields, "environment");
    Success(Config(cdnHost, apiEndpoint, environment))
  }

  function EncodeConfig(c: Config): Value
  {
    Object(map["cdn_host" := Str(c.cdnHost), "api_endpoint" := Str(c.apiEndpoint), "environment" := Str(c.environment)])
  }

  function DecodeReadyData(v: Value): (r: Result<ReadyData, DecodeError>)
    ensures r.Success? <==> && v.Object? && GetInt(v.fields, "v").Success?
                            && GetValue(v.fields, "config").Success? && DecodeConfig(v.fields["config"]).Success?
                            && GetObject(v.fields, "user").Success?
    ensures r.Success? ==> && v.fields["v"] == Number(r.value.v)
                           && DecodeConfig(v.fields["config"]) == Success(r.value.config)
                           && v.fields["user"] == Object(r.value.user)
  {
    var fields :- Container(v, "data");
    var version :- GetInt(fields, "v");
    var rawConfig :- GetValue(fields, "config");
    var config :- DecodeConfig(rawConfig);
    var user :- GetObject(fields, "user");
    Success(ReadyData(version, config, user))
  }

  function EncodeReadyData(d: ReadyData): Value
  {
    Object(map["v" := Number(d.v), "config" := EncodeConfig(d.config), "user" := Object(d.user)])
  }

  /**
   * `EventReady.init(from:)`: `data` first; then the envelope, which must be
   * `cmd: DISPATCH`, `evt: READY` and carry no nonce at all.
   */
  function DecodeEventReady(doc: Value): (r: Result<EventReady, DecodeError>)
    ensures r.Success? <==>
      && doc.Object? && GetValue(doc.fields, "data").Success? && DecodeReadyData(doc.fields["data"]).Success?
      && Envelope.DecodeWithCmdEvt(doc, Dispatch, Some(Ready), false).Success?
    ensures r.Success? ==>
      && Envelope.Decode(doc) == Success(r.value.frame)
      && DecodeReadyData(doc.fields["data"]) == Success(r.value.data)
  {
    var fields :- Container(doc, "");
    var raw :- GetValue(fields, "data");
    var data :- DecodeReadyData(raw);
    var frame :- Envelope.DecodeWithCmdEvt(doc, Dispatch, Some(Ready), false);
    Success(EventReady(frame, data))
  }

  /** The envelope of an accepted ready event is exactly `{cmd: DISPATCH, evt: READY}`, with no nonce. */
  lemma EventReadyEnvelope(doc: Value)
    requires DecodeEventReady(doc).Success?
    ensures DecodeEventReady(doc).value.frame == Envelope.Frame(Dispatch, Some(Ready), None)
  {
    var f := DecodeEventReady(doc).value.frame;
    assert Envelope.ValidateNonce(f, false).Success?;
  }

  function EncodeEventReady(e: EventReady): Value
  {
    Object(Envelope.EncodeFields(e.frame) + map["data" := EncodeReadyData(e.data)])
  }

  /** A ready event with an in-range version is written back to one that decodes identically. */
  lemma EventReadyRoundTrip(e: EventReady)
    requires e.frame == Envelope.Frame(Dispatch, Some(Ready), None)
    requires IntMin <= e.data.v <= IntMax
    ensures DecodeEventReady(EncodeEventReady(e)) == Success(e)
  {
    Envelope.RoundTrip(e.frame, map["data" := EncodeReadyData(e.data)]);
    assert DecodeConfig(EncodeConfig(e.data.config)) == Success(e.data.config);
    assert DecodeReadyData(EncodeReadyData(e.data)) == Success(e.data);
  }
}
