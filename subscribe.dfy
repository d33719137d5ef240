/**
 * The `SUBSCRIBE` request (Sources/Types/Requests/RequestSubscribe.swift): which events take
 * an id, and of which kind, and the request's JSON shape.
 */
module Subscribe {
  import opened Wrappers
  import opened Json
  import opened Constants
  import Envelope

  /** The reasons `RequestError.invalidParameters` gives. */
  datatype RequestError =
    | CannotSubscribe(evt: EventType)
    | GuildIdRequired
    | ChannelIdRequired(evt: EventType)
    | NoIdAllowed(evt: EventType)
    | OneIdRequired

  datatype SubscribeArgs = SubscribeArgs(guildId: Option<string>, channelId: Option<string>)
  datatype RequestSubscribe = RequestSubscribe(evt: EventType, nonce: string, args: Option<SubscribeArgs>)

  /** What kind of id an event's subscription takes, if it can be subscribed to at all. */
  datatype IdKind = NotSubscribable | NoId | GuildIdKind | ChannelIdKind

  /** The events of one channel: voice states, messages and speaking. */
  predicate IsChannelEvent(evt: EventType)
  {
    evt in {VoiceStateCreate, VoiceStateUpdate, VoiceStateDelete, MessageCreate, MessageUpdate,
            MessageDelete, SpeakingStart, SpeakingStop}
  }

  function KindOf(evt: EventType): IdKind
  {
    if evt == Ready || evt == EventType.Error then NotSubscribable
    else if evt == GuildStatus then GuildIdKind
    else if IsChannelEvent(evt) then ChannelIdKind
    else NoId
  }

  /** `RequestSubscribeArgs.init`: exactly one of the two ids. */
  function NewArgs(guildId: Option<string>, channelId: Option<string>): (r: Result<SubscribeArgs, RequestError>)
    ensures r.Success? <==> guildId.Some? != channelId.Some?
    ensures r.Success? ==> r.value == SubscribeArgs(guildId, channelId)
  {
    if (guildId.None? && channelId.None?) || (guildId.Some? && channelId.Some?) then Failure(OneIdRequired)
    else Success(SubscribeArgs(guildId, channelId))
  }

  /** The `try RequestSubscribeArgs(...)` step: its error goes through unchanged. */
  function WithArgs(evt: EventType, nonce: string, args: Result<SubscribeArgs, RequestError>): Result<RequestSubscribe, RequestError>
  {
    match args
    case Success(a) => Success(RequestSubscribe(evt, nonce, Some(a)))
    case Failure(e) => Failure(e)
  }

  /** `RequestSubscribe.init(evt:nonce:id:)`. */
  function NewRequest(evt: EventType, nonce: string, id: Option<string>): (r: Result<RequestSubscribe, RequestError>)
    ensures r.Success? ==> r.value.evt == evt && r.value.nonce == nonce
  {
    if evt == Ready || evt == EventType.Error then Failure(CannotSubscribe(evt))
    else if evt == GuildStatus then
      if id.None? then Failure(GuildIdRequired)
      else WithArgs(evt, nonce, NewArgs(id, None))
    else if IsChannelEvent(evt) then
      if id.None? then Failure(ChannelIdRequired(evt))
      else WithArgs(evt, nonce, NewArgs(None, id))
    else if id.Some? then Failure(NoIdAllowed(evt))
    else Success(RequestSubscribe(evt, nonce, None))
  }

  /**
   * The id rule: a request is built exactly when the id given matches the event's kind, and
   * then the one id goes into the matching field of `args`.
   */
  lemma IdRule(evt: EventType, nonce: string, id: Option<string>)
    ensures var r := NewRequest(evt, nonce, id);
      && (KindOf(evt) == NotSubscribable ==> r == Failure(CannotSubscribe(evt)))
      && (KindOf(evt) == GuildIdKind ==>
            if id.Some? then r == Success(RequestSubscribe(evt, nonce, Some(SubscribeArgs(id, None))))
            else r == Failure(GuildIdRequired))
      && (KindOf(evt) == ChannelIdKind ==>
            if id.Some? then r == Success(RequestSubscribe(evt, nonce, Some(SubscribeArgs(None, id))))
            else r == Failure(ChannelIdRequired(evt)))
      && (KindOf(evt) == NoId ==>
            if id.None? then r == Success(RequestSubscribe(evt, nonce, None)) else r == Failure(NoIdAllowed(evt)))
  {
  }

  /** Whatever the event, a built request's `args`, when present, hold exactly one id. */
  lemma ArgsHoldOneId(evt: EventType, nonce: string, id: Option<string>)
    requires NewRequest(evt, nonce, id).Success?
    ensures var a := NewRequest(evt, nonce, id).value.args;
      a.Some? ==> (a.value.guildId.Some? != a.value.channelId.Some?) && (a.value.guildId == id || a.value.channelId == id)
    ensures NewRequest(evt, nonce, id).value.args.None? <==> id.None?
  {
  }

  /** `RequestSubscribeArgs.encode`: only the id that is set. */
  function EncodeArgs(a: SubscribeArgs): (v: Value)
    ensures v.Object? && ("guild_id" in v.fields <==> a.guildId.Some?) && ("channel_id" in v.fields <==> a.channelId.Some?)
    ensures v.fields.Keys <= {"guild_id", "channel_id"}
    ensures a.guildId.Some? ==> v.fields["guild_id"] == Str(a.guildId.value)
    ensures a.channelId.Some? ==> v.fields["channel_id"] == Str(a.channelId.value)
  {
    var withGuild: Fields := if a.guildId.Some? then map["guild_id" := Str(a.guildId.value)] else map[];
    Object(if a.channelId.Some? then withGuild["channel_id" := Str(a.channelId.value)] else withGuild)
  }

  /** `RequestSubscribe.encode`: `cmd`, `evt` and `nonce` always, `args` only when present. */
  function EncodeRequest(r: RequestSubscribe): (v: Value)
    ensures v.Object? && ("args" in v.fields <==> r.args.Some?)
  {
    var base := map["cmd" := Str(CommandRaw(Subscribe)), "evt" := Str(EventRaw(r.evt)), "nonce" := Str(r.nonce)];
    Object(if r.args.Some? then base["args" := EncodeArgs(r.args.value)] else base)
  }

  /** Read back through the routing envelope, a subscribe request is `{SUBSCRIBE, evt, nonce}`. */
  lemma RequestEnvelope(r: RequestSubscribe)
    ensures Envelope.Decode(EncodeRequest(r)) == Success(Envelope.Frame(Subscribe, Some(r.evt), Some(r.nonce)))
  {
    var f := Envelope.Frame(Subscribe, Some(r.evt), Some(r.nonce));
    var extra: Fields := if r.args.Some? then map["args" := EncodeArgs(r.args.value)] else map[];
    assert extra.Keys !! {"cmd", "evt", "nonce"};
    Envelope.RoundTrip(f, extra);
    assert EncodeRequest(r).fields == Envelope.EncodeFields(f) + extra by {
      EncodeSplit(r);
    }
  }

  lemma EncodeSplit(r: RequestSubscribe)
    ensures EncodeRequest(r).fields ==
      Envelope.EncodeFields(Envelope.Frame(Subscribe, Some(r.evt), Some(r.nonce))) +
      (if r.args.Some? then map["args" := EncodeArgs(r.args.value)] else map[])
  {
  }
}
