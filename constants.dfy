/**
 * The constants of Sources/Constants.swift: the raw-value enumerations of the
 * Discord RPC protocol, the IPC opcodes, the API version and the socket suffixes.
 */
module Constants {
  import opened Wrappers
  import opened Bytes
  import opened Text

  /**
   * `init?(rawValue:)` of a raw-value enum: the first case of `all` whose raw
   * value is `k`, or none.
   */
  function Lookup<K(==), V>(all: seq<V>, raw: V -> K, k: K): (r: Option<V>)
    ensures r.Some? ==> raw(r.value) == k
  {
    if all == [] then None
    else if raw(all[0]) == k then Some(all[0])
    else Lookup(all[1..], raw, k)
  }

  /** The search finds a case for the raw value of every case in the table. */
  lemma {:induction false} LookupFinds<K, V>(all: seq<V>, raw: V -> K, x: V)
    requires x in all
    ensures Lookup(all, raw, raw(x)).Some?
  {
    if all[0] != x {
      assert x in all[1..];
      LookupFinds(all[1..], raw, x);
    }
  }

  /** Protocol version sent in the handshake (`apiVersion`). */
  const ApiVersion: int := 1

  /** `udsSuffixRange`, the closed range 0 ... 9 of IPC socket suffixes, in the order they are tried. */
  const UdsSuffixRange: seq<nat> := [0, 1, 2, 3, 4, 5, 6, 7, 8, 9]

  /** The opcode of an IPC frame header. */
  datatype OpCode = Handshake | Frame | Close | Ping | Pong

  function OpCodeRaw(op: OpCode): uint32
  {
    match op
    case Handshake => 0
    case Frame => 1
    case Close => 2
    case Ping => 3
    case Pong => 4
  }

  /** `OPCode(rawValue:)`: exactly the values 0 to 4 name an opcode. */
  function OpCodeFromRaw(v: uint32): (r: Option<OpCode>)
    ensures r.Some? <==> v <= 4
    ensures r.Some? ==> OpCodeRaw(r.value) == v
  {
    if v == 0 then Some(Handshake)
    else if v == 1 then Some(Frame)
    else if v == 2 then Some(Close)
    else if v == 3 then Some(Ping)
    else if v == 4 then Some(Pong)
    else None
  }

  lemma OpCodeRoundTrip(op: OpCode)
    ensures OpCodeFromRaw(OpCodeRaw(op)) == Some(op)
  {
  }


  /** OAuth2 scopes. */
  datatype OAuth2Scope =
    | ActivitiesRead
    | ActivitiesWrite
    | ApplicationsBuildsRead
    | ApplicationsBuildsUpload
    | ApplicationsCommands
    | ApplicationsCommandsUpdate
    | ApplicationsEntitlements
    | ApplicationsStoreUpdate
    | Bot
    | Connections
    | Email
    | GdmJoin
    | Guilds
    | GuildsJoin
    | Identify
    | MessagesRead
    | RelationshipsRead
    | Rpc
    | RpcActivitiesWrite
    | RpcNotificationsRead
    | RpcVoiceRead
    | RpcVoiceWrite
    | WebhookIncoming

  /** The raw value of each case. */
  function ScopeRaw(x: OAuth2Scope): string
  {
    match x
    case ActivitiesRead => "activities.read"
    case ActivitiesWrite => "activities.write"
    case ApplicationsBuildsRead => "applications.builds.read"
    case ApplicationsBuildsUpload => "applications.builds.upload"
    case ApplicationsCommands => "applications.commands"
    case ApplicationsCommandsUpdate => "applications.commands.update"
    case ApplicationsEntitlements => "applications.entitlements"
    case ApplicationsStoreUpdate => "applications.store.update"
    case Bot => "bot"
    case Connections => "connections"
    case Email => "email"
    case GdmJoin => "gdm.join"
    case Guilds => "guilds"
    case GuildsJoin => "guilds.join"
    case Identify => "identify"
    case MessagesRead => "messages.read"
    case RelationshipsRead => "relationships.read"
    case Rpc => "rpc"
    case RpcActivitiesWrite => "rpc.activities.write"
    case RpcNotificationsRead => "rpc.notifications.read"
    case RpcVoiceRead => "rpc.voice.read"
    case RpcVoiceWrite => "rpc.voice.write"
    case WebhookIncoming => "webhook.incoming"
  }

  /** Every case, in declaration order. */
  const AllScopes: seq<OAuth2Scope> := [
    OAuth2Scope.ActivitiesRead, OAuth2Scope.ActivitiesWrite, OAuth2Scope.ApplicationsBuildsRead, OAuth2Scope.ApplicationsBuildsUpload, OAuth2Scope.ApplicationsCommands, OAuth2Scope.ApplicationsCommandsUpdate, OAuth2Scope.ApplicationsEntitlements, OAuth2Scope.ApplicationsStoreUpdate, OAuth2Scope.Bot, OAuth2Scope.Connections, OAuth2Scope.Email, OAuth2Scope.GdmJoin, OAuth2Scope.Guilds, OAuth2Scope.GuildsJoin, OAuth2Scope.Identify, OAuth2Scope.MessagesRead, OAuth2Scope.RelationshipsRead, OAuth2Scope.Rpc, OAuth2Scope.RpcActivitiesWrite, OAuth2Scope.RpcNotificationsRead, OAuth2Scope.RpcVoiceRead, OAuth2Scope.RpcVoiceWrite, OAuth2Scope.WebhookIncoming]

  lemma AllScopesComplete(x: OAuth2Scope)
    ensures x in AllScopes
  {
  }

  /** `OAuth2Scope(rawValue:)`. */
  function ScopeFromRaw(raw: string): (r: Option<OAuth2Scope>)
    ensures r.Some? ==> ScopeRaw(r.value) == raw
  {
    Lookup(AllScopes, ScopeRaw, raw)
  }

  /** RPC error codes carried by an ERROR event. */
  datatype ErrorCode =
    | UnknownError
    | InvalidPayload
    | InvalidCommand
    | InvalidGuild
    | InvalidEvent
    | InvalidChannel
    | InvalidPermissions
    | InvalidClientId
    | InvalidOrigin
    | InvalidToken
    | InvalidUser
    | OAuth2Error
    | SelectChannelTimedOut
    | GetGuildTimedOut
    | SelectVoiceForceRequired
    | CaptureShortcutAlreadyListening

  /** The raw value of each case. */
  function ErrorCodeRaw(x: ErrorCode): int
  {
    match x
    case UnknownError => 1000
    case InvalidPayload => 4000
    case InvalidCommand => 4002
    case InvalidGuild => 4003
    case InvalidEvent => 4004
    case InvalidChannel => 4005
    case InvalidPermissions => 4006
    case InvalidClientId => 4007
    case InvalidOrigin => 4008
    case InvalidToken => 4009
    case InvalidUser => 4010
    case OAuth2Error => 5000
    case SelectChannelTimedOut => 5001
    case GetGuildTimedOut => 5002
    case SelectVoiceForceRequired => 5003
    case CaptureShortcutAlreadyListening => 5004
  }

  /** Every case, in declaration order. */
  const AllErrorCodes: seq<ErrorCode> := [
    ErrorCode.UnknownError, ErrorCode.InvalidPayload, ErrorCode.InvalidCommand, ErrorCode.InvalidGuild, ErrorCode.InvalidEvent, ErrorCode.InvalidChannel, ErrorCode.InvalidPermissions, ErrorCode.InvalidClientId, ErrorCode.InvalidOrigin, ErrorCode.InvalidToken, ErrorCode.InvalidUser, ErrorCode.OAuth2Error, ErrorCode.SelectChannelTimedOut, ErrorCode.GetGuildTimedOut, ErrorCode.SelectVoiceForceRequired, ErrorCode.CaptureShortcutAlreadyListening]

  lemma AllErrorCodesComplete(x: ErrorCode)
    ensures x in AllErrorCodes
  {
  }

  /** `ErrorCode(rawValue:)`. */
  function ErrorCodeFromRaw(raw: int): (r: Option<ErrorCode>)
    ensures r.Some? ==> ErrorCodeRaw(r.value) == raw
  {
    Lookup(AllErrorCodes, ErrorCodeRaw, raw)
  }

  /** RPC close codes; `SocketDisconnected` (0) is the client's own code for a lost socket. */
  datatype CloseEventCode =
    | InvalidClientId
    | InvalidOrigin
    | RateLimited
    | TokenRevoked
    | InvalidVersion
    | InvalidEncoding
    | SocketDisconnected

  /** The raw value of each case. */
  function CloseCodeRaw(x: CloseEventCode): int
  {
    match x
    case InvalidClientId => 4000
    case InvalidOrigin => 4001
    case RateLimited => 4002
    case TokenRevoked => 4003
    case InvalidVersion => 4004
    case InvalidEncoding => 4005
    case SocketDisconnected => 0
  }

  /** Every case, in declaration order. */
  const AllCloseCodes: seq<CloseEventCode> := [
    CloseEventCode.InvalidClientId, CloseEventCode.InvalidOrigin, CloseEventCode.RateLimited, CloseEventCode.TokenRevoked, CloseEventCode.InvalidVersion, CloseEventCode.InvalidEncoding, CloseEventCode.SocketDisconnected]

  lemma AllCloseCodesComplete(x: CloseEventCode)
    ensures x in AllCloseCodes
  {
  }

  /** `CloseEventCode(rawValue:)`. */
  function CloseCodeFromRaw(raw: int): (r: Option<CloseEventCode>)
    ensures r.Some? ==> CloseCodeRaw(r.value) == raw
  {
    Lookup(AllCloseCodes, CloseCodeRaw, raw)
  }

  /** RPC commands (the `cmd` field). */
  datatype CommandType =
    | Dispatch
    | Authorize
    | Authenticate
    | GetGuild
    | GetGuilds
    | GetChannel
    | GetChannels
    | Subscribe
    | Unsubscribe
    | SetUserVoiceSettings
    | SelectVoiceChannel
    | GetSelectedVoiceChannel
    | SelectTextChannel
    | GetVoiceSettings
    | SetVoiceSettings
    | CaptureShortcut
    | SetCertifiedDevices
    | SetActivity
    | SendActivityJoinInvite
    | CloseActivityRequest

  /** The raw value of each case. */
  function CommandRaw(x: CommandType): string
  {
    match x
    case Dispatch => "DISPATCH"
    case Authorize => "AUTHORIZE"
    case Authenticate => "AUTHENTICATE"
    case GetGuild => "GET_GUILD"
    case GetGuilds => "GET_GUILDS"
    case GetChannel => "GET_CHANNEL"
    case GetChannels => "GET_CHANNELS"
    case Subscribe => "SUBSCRIBE"
    case Unsubscribe => "UNSUBSCRIBE"
    case SetUserVoiceSettings => "SET_USER_VOICE_SETTINGS"
    case SelectVoiceChannel => "SELECT_VOICE_CHANNEL"
    case GetSelectedVoiceChannel => "GET_SELECTED_VOICE_CHANNEL"
    case SelectTextChannel => "SELECT_TEXT_CHANNEL"
    case GetVoiceSettings => "GET_VOICE_SETTINGS"
    case SetVoiceSettings => "SET_VOICE_SETTINGS"
    case CaptureShortcut => "CAPTURE_SHORTCUT"
    case SetCertifiedDevices => "SET_CERTIFIED_DEVICES"
    case SetActivity => "SET_ACTIVITY"
    case SendActivityJoinInvite => "SEND_ACTIVITY_JOIN_INVITE"
    case CloseActivityRequest => "CLOSE_ACTIVITY_REQUEST"
  }

  /** Every case, in declaration order. */
  const AllCommands: seq<CommandType> := [
    CommandType.Dispatch, CommandType.Authorize, CommandType.Authenticate, CommandType.GetGuild, CommandType.GetGuilds, CommandType.GetChannel, CommandType.GetChannels, CommandType.Subscribe, CommandType.Unsubscribe, CommandType.SetUserVoiceSettings, CommandType.SelectVoiceChannel, CommandType.GetSelectedVoiceChannel, CommandType.SelectTextChannel, CommandType.GetVoiceSettings, CommandType.SetVoiceSettings, CommandType.CaptureShortcut, CommandType.SetCertifiedDevices, CommandType.SetActivity, CommandType.SendActivityJoinInvite, CommandType.CloseActivityRequest]

  lemma AllCommandsComplete(x: CommandType)
    ensures x in AllCommands
  {
  }

  /** `CommandType(rawValue:)`. */
  function CommandFromRaw(raw: string): (r: Option<CommandType>)
    ensures r.Some? ==> CommandRaw(r.value) == raw
  {
    Lookup(AllCommands, CommandRaw, raw)
  }

  /** RPC events (the `evt` field). */
  datatype EventType =
    | Ready
    | Error
    | GuildStatus
    | GuildCreate
    | ChannelCreate
    | VoiceChannelSelect
    | VoiceStateCreate
    | VoiceStateUpdate
    | VoiceStateDelete
    | VoiceSettingsUpdate
    | VoiceConnectionStatus
    | SpeakingStart
    | SpeakingStop
    | MessageCreate
    | MessageUpdate
    | MessageDelete
    | NotificationCreate
    | CaptureShortcutChange
    | ActivityJoin
    | ActivitySpectate
    | ActivityJoinRequest

  /** The raw value of each case. */
  function EventRaw(x: EventType): string
  {
    match x
    case Ready => "READY"
    case Error => "ERROR"
    case GuildStatus => "GUILD_STATUS"
    case GuildCreate => "GUILD_CREATE"
    case ChannelCreate => "CHANNEL_CREATE"
    case VoiceChannelSelect => "VOICE_CHANNEL_SELECT"
    case VoiceStateCreate => "VOICE_STATE_CREATE"
    case VoiceStateUpdate => "VOICE_STATE_UPDATE"
    case VoiceStateDelete => "VOICE_STATE_DELETE"
    case VoiceSettingsUpdate => "VOICE_SETTINGS_UPDATE"
    case VoiceConnectionStatus => "VOICE_CONNECTION_STATUS"
    case SpeakingStart => "SPEAKING_START"
    case SpeakingStop => "SPEAKING_STOP"
    case MessageCreate => "MESSAGE_CREATE"
    case MessageUpdate => "MESSAGE_UPDATE"
    case MessageDelete => "MESSAGE_DELETE"
    case NotificationCreate => "NOTIFICATION_CREATE"
    case CaptureShortcutChange => "CAPTURE_SHORTCUT_CHANGE"
    case ActivityJoin => "ACTIVITY_JOIN"
    case ActivitySpectate => "ACTIVITY_SPECTATE"
    case ActivityJoinRequest => "ACTIVITY_JOIN_REQUEST"
  }

  /** Every case, in declaration order. */
  const AllEvents: seq<EventType> := [
    EventType.Ready, EventType.Error, EventType.GuildStatus, EventType.GuildCreate, EventType.ChannelCreate, EventType.VoiceChannelSelect, EventType.VoiceStateCreate, EventType.VoiceStateUpdate, EventType.VoiceStateDelete, EventType.VoiceSettingsUpdate, EventType.VoiceConnectionStatus, EventType.SpeakingStart, EventType.SpeakingStop, EventType.MessageCreate, EventType.MessageUpdate, EventType.MessageDelete, EventType.NotificationCreate, EventType.CaptureShortcutChange, EventType.ActivityJoin, EventType.ActivitySpectate, EventType.ActivityJoinRequest]

  lemma AllEventsComplete(x: EventType)
    ensures x in AllEvents
  {
  }

  /** `EventType(rawValue:)`. */
  function EventFromRaw(raw: string): (r: Option<EventType>)
    ensures r.Some? ==> EventRaw(r.value) == raw
  {
    Lookup(AllEvents, EventRaw, raw)
  }

  /** No two cases share a raw value. */
  lemma ScopeRawInjective(x: OAuth2Scope, y: OAuth2Scope)
    ensures ScopeRaw(x) == ScopeRaw(y) ==> x == y
  {
  }

  /** Decoding the raw value of a case gives that case back. */
  lemma ScopeRoundTrip(x: OAuth2Scope)
    ensures ScopeFromRaw(ScopeRaw(x)) == Some(x)
  {
    AllScopesComplete(x);
    LookupFinds(AllScopes, ScopeRaw, x);
    var r := ScopeFromRaw(ScopeRaw(x));
    ScopeRawInjective(r.value, x);
  }

  /** No two cases share a raw value. */
  lemma ErrorCodeRawInjective(x: ErrorCode, y: ErrorCode)
    ensures ErrorCodeRaw(x) == ErrorCodeRaw(y) ==> x == y
  {
  }

  /** Decoding the raw value of a case gives that case back. */
  lemma ErrorCodeRoundTrip(x: ErrorCode)
    ensures ErrorCodeFromRaw(ErrorCodeRaw(x)) == Some(x)
  {
    AllErrorCodesComplete(x);
    LookupFinds(AllErrorCodes, ErrorCodeRaw, x);
    var r := ErrorCodeFromRaw(ErrorCodeRaw(x));
    ErrorCodeRawInjective(r.value, x);
  }

  /** No two cases share a raw value. */
  lemma CloseCodeRawInjective(x: CloseEventCode, y: CloseEventCode)
    ensures CloseCodeRaw(x) == CloseCodeRaw(y) ==> x == y
  {
  }

  /** Decoding the raw value of a case gives that case back. */
  lemma CloseCodeRoundTrip(x: CloseEventCode)
    ensures CloseCodeFromRaw(CloseCodeRaw(x)) == Some(x)
  {
    AllCloseCodesComplete(x);
    LookupFinds(AllCloseCodes, CloseCodeRaw, x);
    var r := CloseCodeFromRaw(CloseCodeRaw(x));
    CloseCodeRawInjective(r.value, x);
  }

  /** No two cases share a raw value. */
  lemma CommandRawInjective(x: CommandType, y: CommandType)
    ensures CommandRaw(x) == CommandRaw(y) ==> x == y
  {
  }

  /** Decoding the raw value of a case gives that case back. */
  lemma CommandRoundTrip(x: CommandType)
    ensures CommandFromRaw(CommandRaw(x)) == Some(x)
  {
    AllCommandsComplete(x);
    LookupFinds(AllCommands, CommandRaw, x);
    var r := CommandFromRaw(CommandRaw(x));
    CommandRawInjective(r.value, x);
  }

  /** No two cases share a raw value. */
  lemma EventRawInjective(x: EventType, y: EventType)
    ensures EventRaw(x) == EventRaw(y) ==> x == y
  {
  }

  /** Decoding the raw value of a case gives that case back. */
  lemma EventRoundTrip(x: EventType)
    ensures EventFromRaw(EventRaw(x)) == Some(x)
  {
    AllEventsComplete(x);
    LookupFinds(AllEvents, EventRaw, x);
    var r := EventFromRaw(EventRaw(x));
    EventRawInjective(r.value, x);
  }

  /** The characters OAuth2 scope names are made of. */
  predicate ScopeChar(c: char)
  {
    'a' <= c <= 'z' || c == '.'
  }

  predicate ScopeName(s: string)
  {
    forall i :: 0 <= i < |s| ==> ScopeChar(s[i])
  }

  lemma ScopeNames0()
    ensures ScopeName(ScopeRaw(ActivitiesRead)) && ScopeName(ScopeRaw(ActivitiesWrite)) && ScopeName(ScopeRaw(ApplicationsBuildsRead)) && ScopeName(ScopeRaw(ApplicationsBuildsUpload))
  {
  }

  lemma ScopeNames1()
    ensures ScopeName(ScopeRaw(ApplicationsCommands)) && ScopeName(ScopeRaw(ApplicationsCommandsUpdate)) && ScopeName(ScopeRaw(ApplicationsEntitlements)) && ScopeName(ScopeRaw(ApplicationsStoreUpdate))
  {
  }

  lemma ScopeNames2()
    ensures ScopeName(ScopeRaw(Bot)) && ScopeName(ScopeRaw(Connections)) && ScopeName(ScopeRaw(Email)) && ScopeName(ScopeRaw(GdmJoin))
  {
  }

  lemma ScopeNames3()
    ensures ScopeName(ScopeRaw(Guilds)) && ScopeName(ScopeRaw(GuildsJoin)) && ScopeName(ScopeRaw(Identify)) && ScopeName(ScopeRaw(MessagesRead))
  {
  }

  lemma ScopeNames4()
    ensures ScopeName(ScopeRaw(RelationshipsRead)) && ScopeName(ScopeRaw(Rpc)) && ScopeName(ScopeRaw(RpcActivitiesWrite)) && ScopeName(ScopeRaw(RpcNotificationsRead))
  {
  }

  lemma ScopeNames5()
    ensures ScopeName(ScopeRaw(RpcVoiceRead)) && ScopeName(ScopeRaw(RpcVoiceWrite)) && ScopeName(ScopeRaw(WebhookIncoming))
  {
  }

  /** Every scope name is non-empty and free of whitespace, so a space-joined list splits back into its names. */
  lemma ScopeRawPlain(s: OAuth2Scope)
    ensures |ScopeRaw(s)| > 0 && NoneIn(ScopeRaw(s), Whitespaces)
  {
    ScopeNames0(); ScopeNames1(); ScopeNames2(); ScopeNames3(); ScopeNames4(); ScopeNames5();
    ScopeNameIsPlain(ScopeRaw(s));
  }

  lemma ScopeNameIsPlain(s: string)
    requires ScopeName(s)
    ensures NoneIn(s, Whitespaces)
  {
    forall i | 0 <= i < |s|
      ensures s[i] !in Whitespaces
    {
      assert ScopeChar(s[i]);
    }
  }

  /** `socketDisconnected` is 0, below every close code the peer sends (4000 to 4005). */
  lemma SocketDisconnectedIsDistinct(c: CloseEventCode)
    ensures c != SocketDisconnected ==> 4000 <= CloseCodeRaw(c) <= 4005
    ensures CloseCodeRaw(SocketDisconnected) == 0
  {
  }
}
