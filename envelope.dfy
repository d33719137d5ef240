/**
 * The routing envelope `{cmd, evt?, nonce?}` (Sources/Types/Frame.swift): decoded from
 * every command-frame payload before the payload's full type is known, and the base of
 * every typed request, response and event, whose initialisers check fixed field values.
 */
module Envelope {
  import opened Wrappers
  import opened Text
  import opened Json
  import opened Constants

  datatype Frame = Frame(cmd: CommandType, evt: Option<EventType>, nonce: Option<string>)

  /** Decoding a `CommandType` field: a string that must be a known raw value. */
  function DecodeCommand(fields: Fields, key: string): (r: Result<CommandType, DecodeError>)
    ensures r.Success? <==> key in fields && fields[key].Str? && CommandFromRaw(fields[key].s).Some?
    ensures r.Success? ==> fields[key] == Str(CommandRaw(r.value))
  {
    var raw :- GetString(fields, key);
    match CommandFromRaw(raw)
    case Some(c) => Success(c)
    case None => Failure(DataCorrupted(key))
  }

  /** Decoding an `EventType` field, likewise. */
  function DecodeEvent(fields: Fields, key: string): (r: Result<EventType, DecodeError>)
    ensures r.Success? <==> key in fields && fields[key].Str? && EventFromRaw(fields[key].s).Some?
    ensures r.Success? ==> fields[key] == Str(EventRaw(r.value))
  {
    var raw :- GetString(fields, key);
    match EventFromRaw(raw)
    case Some(e) => Success(e)
    case None => Failure(DataCorrupted(key))
  }

  /**
   * `init(from:)`: `cmd` must be a known command; a missing, mistyped or unknown `evt`,
   * and a missing or mistyped `nonce`, decode to nil instead of failing (`try?`).
   */
  function Decode(doc: Value): (r: Result<Frame, DecodeError>)
    ensures r.Success? <==> doc.Object? && DecodeCommand(doc.fields, "cmd").Success?
    ensures r.Success? ==>
      && r.value.cmd == DecodeCommand(doc.fields, "cmd").value
      && (r.value.evt.Some? <==> DecodeEvent(doc.fields, "evt").Success?)
      && (r.value.nonce.Some? <==> "nonce" in doc.fields && doc.fields["nonce"].Str?)
      && (r.value.evt.Some? ==> doc.fields["evt"] == Str(EventRaw(r.value.evt.value)))
      && (r.value.nonce.Some? ==> doc.fields["nonce"] == Str(r.value.nonce.value))
  {
    var fields :- Container(doc, "");
    var cmd :- DecodeCommand(fields, "cmd");
    Success(Frame.Frame(cmd, DecodeEvent(fields, "evt").ToOption(), GetString(fields, "nonce").ToOption()))
  }

  /** `validateCmd(withFixedCmdType:)`. */
  function ValidateCmd(f: Frame, fixed: CommandType): (r: Result<Frame, DecodeError>)
    ensures r.Success? <==> f.cmd == fixed
    ensures r.Success? ==> r.value == f
  {
    if f.cmd != fixed then Failure(DataCorrupted("cmd")) else Success(f)
  }

  /** `validateEvt(withFixedEventType:)`: a required nil means `evt` must be absent. */
  function ValidateEvt(f: Frame, fixed: Option<EventType>): (r: Result<Frame, DecodeError>)
    ensures r.Success? <==> f.evt == fixed
    ensures r.Success? ==> r.value == f
  {
    if f.evt != fixed then Failure(DataCorrupted("evt")) else Success(f)
  }

  /** A nonce that trimming whitespace and newlines leaves empty. */
  predicate IsBlank(nonce: string)
  {
    |Trim(nonce, WhitespacesAndNewlines)| == 0
  }

  /**
   * `validateNonce(withNonce:)`: with `true` the nonce must be present and not blank;
   * with `false` it must be absent, even an empty one is refused.
   */
  function ValidateNonce(f: Frame, withNonce: bool): (r: Result<Frame, DecodeError>)
    ensures r.Success? ==> r.value == f
    ensures withNonce ==> (r.Success? <==> f.nonce.Some? && exists i :: 0 <= i < |f.nonce.value| && f.nonce.value[i] !in WhitespacesAndNewlines)
    ensures !withNonce ==> (r.Success? <==> f.nonce.None?)
  {
    TrimEmptyIffAllIn(if f.nonce.Some? then f.nonce.value else "", WhitespacesAndNewlines);
    if withNonce && (f.nonce.None? || IsBlank(f.nonce.value)) then Failure(DataCorrupted("nonce"))
    else if !withNonce && f.nonce.Some? then Failure(DataCorrupted("nonce"))
    else Success(f)
  }

  /** `init(from:withNonce:)`. */
  function DecodeWithNonce(doc: Value, withNonce: bool): (r: Result<Frame, DecodeError>)
    ensures r.Success? <==> Decode(doc).Success? && ValidateNonce(Decode(doc).value, withNonce).Success?
    ensures r.Success? ==> r == Decode(doc)
  {
    var f :- Decode(doc);
    ValidateNonce(f, withNonce)
  }

  /** `init(from:withFixedCmdType:withNonce:)`: cmd is checked, then the nonce. */
  function DecodeWithCmd(doc: Value, cmd: CommandType, withNonce: bool): (r: Result<Frame, DecodeError>)
    ensures r.Success? <==>
      Decode(doc).Success? && Decode(doc).value.cmd == cmd && ValidateNonce(Decode(doc).value, withNonce).Success?
    ensures r.Success? ==> r == Decode(doc)
  {
    var f :- Decode(doc);
    var _ :- ValidateCmd(f, cmd);
    ValidateNonce(f, withNonce)
  }

  /** `init(from:withFixedEventType:withNonce:)`: evt is checked, then the nonce; cmd is free. */
  function DecodeWithEvt(doc: Value, evt: Option<EventType>, withNonce: bool): (r: Result<Frame, DecodeError>)
    ensures r.Success? <==>
      Decode(doc).Success? && Decode(doc).value.evt == evt && ValidateNonce(Decode(doc).value, withNonce).Success?
    ensures r.Success? ==> r == Decode(doc)
  {
    var f :- Decode(doc);
    var _ :- ValidateEvt(f, evt);
    ValidateNonce(f, withNonce)
  }

  /** `init(from:withFixedCmdType:withFixedEventType:withNonce:)`: cmd, then evt, then nonce. */
  function DecodeWithCmdEvt(doc: Value, cmd: CommandType, evt: Option<EventType>, withNonce: bool): (r: Result<Frame, DecodeError>)
    ensures r.Success? <==>
      && Decode(doc).Success? && Decode(doc).value.cmd == cmd && Decode(doc).value.evt == evt
      && ValidateNonce(Decode(doc).value, withNonce).Success?
    ensures r.Success? ==> r == Decode(doc)
    ensures r.Failure? && Decode(doc).Success? && Decode(doc).value.cmd != cmd ==> r.error == DataCorrupted("cmd")
  {
    var f :- Decode(doc);
    var _ :- ValidateCmd(f, cmd);
    var _ :- ValidateEvt(f, evt);
    ValidateNonce(f, withNonce)
  }

  /** `encode(to:)`: `cmd` always, `evt` and `nonce` only when present. */
  function EncodeFields(f: Frame): (fields: Fields)
    ensures "cmd" in fields && fields.Keys <= {"cmd", "evt", "nonce"}
    ensures ("evt" in fields <==> f.evt.Some?) && ("nonce" in fields <==> f.nonce.Some?)
  {
    var withCmd := map["cmd" := Str(CommandRaw(f.cmd))];
    var withEvt := if f.evt.Some? then withCmd["evt" := Str(EventRaw(f.evt.value))] else withCmd;
    if f.nonce.Some? then withEvt["nonce" := Str(f.nonce.value)] else withEvt
  }

  function Encode(f: Frame): Value
  {
    Object(EncodeFields(f))
  }

  /** Decoding what `encode` wrote gives back the same triple; extra keys (a subclass's own) do not matter. */
  lemma RoundTrip(f: Frame, extra: Fields)
    requires extra.Keys !! {"cmd", "evt", "nonce"}
    ensures Decode(Object(EncodeFields(f) + extra)) == Success(f)
  {
    var fields := EncodeFields(f) + extra;
    CommandRoundTrip(f.cmd);
    assert DecodeCommand(fields, "cmd") == Success(f.cmd);
    if f.evt.Some? {
      EventRoundTrip(f.evt.value);
      assert DecodeEvent(fields, "evt") == Success(f.evt.value);
    }
  }

  lemma EncodeRoundTrip(f: Frame)
    ensures Decode(Encode(f)) == Success(f)
  {
    RoundTrip(f, map[]);
    assert EncodeFields(f) + map[] == EncodeFields(f);
  }
}
