# DiscordRPC: the IPC session, framing and dispatch layer, in Dafny

This project models the core of a Swift client for Discord's local IPC ("RPC") protocol. The client finds Discord's Unix-domain socket among `<tmp>/discord-ipc-0` … `-9` and sends a handshake. After that it exchanges frames with Discord: an 8-byte header (two little-endian `UInt32` fields, opcode and payload length) followed by a JSON payload.

The receive loop reads frames and routes each one:
- a `CLOSE` frame closes the socket;
- a `PING` is echoed in a `PONG`;
- a `FRAME` is decoded through the `{cmd, evt?, nonce?}` envelope and handed to one of the handlers, or posted to the synchronous call waiting under its nonce.

A nonce is `"sync;"` or `"async;"` followed by a UUID. Its prefix decides who gets the reply. A synchronous command registers an observer for its nonce, sends the request, and waits for the first post under that nonce, or for the deadline. It then classifies what woke it as data, `failed(code, message)` or `responseMalformed`.

The modules follow the program:

| module | file | models |
|---|---|---|
| `Constants` | constants.dfy | the raw-value tables, opcodes, `apiVersion`, `udsSuffixRange` |
| `Nonce` | nonce.dfy | `generateNonce`, `isNonceAsync` |
| `FrameCodec`, `Bytes` | frame_codec.dfy, bytes.dfy | the wire format; `send`'s buffer as an array filled in place |
| `Envelope` | envelope.dfy | `Frame`: lenient decoding, the three validators, the four initialisers, `encode` |
| `Events` | events.dfy | `EventClose`, `EventError`, `EventReady` |
| `Routing` | routing.dfy | `handlePayload`, `handleResponse`, `handleEvent` as a function returning a `Route` |
| `Receive` | receive.dfy | `receive()` as a function `Run` of the outcomes of the socket's reads |
| `Subscribe` | subscribe.dfy | `RequestSubscribe` and `RequestSubscribeArgs` |
| `AccessTokens` | access_token.dfy | `AccessToken`, with its scope-parsing and scope-joining loops as methods |
| `Commands` | commands.dfy | `syncResponse`'s outcome and the command-wrapper table |
| `Discovery` | discovery.dfy | the outcome of `connect()` |
| `Client` | client.dfy | the `DiscordRPC` class: socket, frames written, loop reports and observers as fields |
| `Sessions` | session.dfy | the `Session` class, with its own defaults and `connect()` |
| `Text`, `Json`, `Wrappers`, `Errors` | text.dfy, json.dfy, wrappers.dfy, errors.dfy | Foundation's string splitting, trimming and joining; decoded JSON and keyed-container lookups; `Option`/`Result`; the error enums |

The outside world becomes parameters:
- the JSON text decoder is a `Parser` (`seq<byte> -> Option<Value>`);
- the JSON encoder is a function to bytes;
- "the socket connects to this path" is an `accepts` predicate;
- "the write fails" is a boolean;
- the UUID drawn by `UUID()` is a string argument;
- the socket's reads are a `script` of `ReadResult`s, and the script ending stands for the socket no longer reporting itself connected;
- the posts a waiter could see before its deadline are a sequence of `Post`s.

A Swift force-unwrap of nil on the receive loop's own queue is modelled as the route `Trap`: the process stops. This covers `frame.nonce!` and `String(data:encoding:)!`. The generic event handler's `frame.evt!` is different. It is evaluated inside the block queued on `handlerWorker`, and only when an event handler is registered, because it is an argument of an optional call. So a DISPATCH frame whose `evt` is missing or unknown to the client is queued as `EventHandler(None, …)` and the loop goes on. `Routing.QueuedBlockTraps` says when that block stops the process.

The model follows the code where the code and the documentation comments differ:
- A `CLOSE` frame reaches the disconnect handler twice: once with the notice decoded from the frame, and once with `socketDisconnected`, because the socket is now nil at the loop's next check. The loop issues them in that order. The first call is queued on `handlerWorker` and the second runs directly on `rpcWorker`, so the order the handler sees them in is up to the two queues. `Receive.CloseReportedTwice` states the loop's order.
- `syncResponse` leaves its observer registered in two cases: when the write throws, and when a wait without deadline is never ended.
- `subscribe` and `subscribeAsync` let the `RequestError.invalidParameters(reason:)` thrown by `RequestSubscribe` pass unchanged (`ClientError.RequestFailed`). Their doc comments name `CommandError.invalidParameters`, which no path in the model throws.
- `generateNonce()` without an argument makes a sync nonce. So does every `*Async` wrapper except `authorizeAsync`, `subscribeAsync` and `unsubscribeAsync`.

## Model

| member | source | states |
|---|---|---|
| Constants.OpCodeFromRaw | Sources/Constants.swift:139-145 | an opcode exists exactly for the values 0 to 4, and its raw value is the value given |
| Constants.OpCodeRoundTrip | Sources/Constants.swift:139-145 | every opcode decodes back from its raw value |
| Constants.ScopeFromRaw | Sources/Constants.swift:2-26 | a scope found for a string has that string as its raw value |
| Constants.ScopeRawInjective | Sources/Constants.swift:2-26 | no two OAuth2 scopes share a raw string |
| Constants.ScopeRoundTrip | Sources/Constants.swift:2-26 | every scope decodes back from its raw string |
| Constants.ScopeRawPlain | Sources/Constants.swift:2-26 | every scope name is non-empty and contains no whitespace |
| Constants.ErrorCodeFromRaw | Sources/Constants.swift:29-46 | an error code found for an integer has that raw value |
| Constants.ErrorCodeRawInjective | Sources/Constants.swift:29-46 | the RPC error codes are distinct |
| Constants.ErrorCodeRoundTrip | Sources/Constants.swift:29-46 | every error code decodes back from its integer |
| Constants.CloseCodeFromRaw | Sources/Constants.swift:49-58 | a close code found for an integer has that raw value |
| Constants.CloseCodeRawInjective | Sources/Constants.swift:49-58 | the close event codes are distinct |
| Constants.CloseCodeRoundTrip | Sources/Constants.swift:49-58 | every close code decodes back from its integer |
| Constants.SocketDisconnectedIsDistinct | Sources/Constants.swift:49-57 | `socketDisconnected` is 0 and every other close code lies in 4000–4005 |
| Constants.CommandFromRaw | Sources/Constants.swift:61-82 | a command found for a string has that raw value |
| Constants.CommandRawInjective | Sources/Constants.swift:61-82 | no two commands share a raw string |
| Constants.CommandRoundTrip | Sources/Constants.swift:61-82 | every command decodes back from its raw string |
| Constants.EventFromRaw | Sources/Constants.swift:85-107 | an event found for a string has that raw value |
| Constants.EventRawInjective | Sources/Constants.swift:85-107 | no two events share a raw string |
| Constants.EventRoundTrip | Sources/Constants.swift:85-107 | every event decodes back from its raw string |
| Nonce.GenerateNonce | Sources/Nonce.swift:3-5 | the nonce has the prefix's length plus the UUID's, and ends with `;` then the UUID |
| Nonce.IsNonceAsync | Sources/Nonce.swift:7-13 | every rejection is `invalid` carrying the nonce itself |
| Nonce.UuidHasNoSeparator | Sources/Nonce.swift:4 | the RFC 4122 text form of a UUID contains no `;` |
| Nonce.NonceRoundTrip | Sources/Nonce.swift:3-13 | for any id without `;`, reading a generated nonce gives back the kind it was generated with |
| Nonce.GeneratedNonceRoundTrip | Sources/Nonce.swift:3-13 | the same for every UUID string the generator can draw |
| Nonce.DefaultNonceIsSync | Sources/Nonce.swift:3-5 | the default nonce starts with `sync;` and reads back as not async |
| Nonce.SeparatorCountRejected | Sources/Nonce.swift:8-10 | a string with zero, or two or more, `;` is rejected |
| Nonce.NonceShape | Sources/Nonce.swift:7-13 | accepted as async iff the string is `async;` + an id without `;`; accepted as sync iff it is `sync;` + such an id; every other string is rejected |
| Nonce.EmptyIdAccepted | Sources/Nonce.swift:8-12 | `sync;` and `async;` with an empty id are accepted, as sync and as async |
| Bytes.LittleEndianRoundTrip | Sources/RPC.swift:54-55 | loading the four bytes stored for a `UInt32` gives the value back |
| Bytes.LittleEndianOfRead | Sources/RPC.swift:54-55 | storing a loaded `UInt32` gives the four bytes back |
| Bytes.Utf8Text | Sources/RPC.swift:89-90 | decoding then re-encoding UTF-8 gives the input back, except that a leading byte order mark is dropped, exactly when the input starts with one |
| Bytes.Utf8TextIsUtf8 | Sources/RPC.swift:89-90 | the re-encoded text of well-formed UTF-8 is well-formed UTF-8 |
| FrameCodec.EncodeFrame | Sources/RPC.swift:19-33 | a frame is exactly 8 + n bytes for an n-byte payload; payloads of 4 GiB or more cannot be sent |
| FrameCodec.FillSendBuffer | Sources/RPC.swift:20-30 | the buffer filled in place (copy, overlapping move, header store) holds the opcode, the length, then the payload |
| FrameCodec.FrameRoundTrip | Sources/RPC.swift:54-70 | a sent frame's header reads back as its opcode (a known one) and the payload length, and the bytes after the header are the payload |
| Envelope.DecodeCommand | Sources/Types/Frame.swift:16 | `cmd` decodes iff it is a string that names a known command, and the command's raw value is that string |
| Envelope.DecodeEvent | Sources/Types/Frame.swift:17 | `evt` decodes iff it is a string that names a known event |
| Envelope.Decode | Sources/Types/Frame.swift:14-19 | decoding succeeds iff the document is an object with a known `cmd`; an `evt` or `nonce` that is missing, mistyped or unknown becomes nil |
| Envelope.ValidateCmd | Sources/Types/Frame.swift:21-33 | passes iff the cmd equals the one required |
| Envelope.ValidateEvt | Sources/Types/Frame.swift:35-47 | passes iff the evt equals the one required, so a required nil demands an absent evt |
| Envelope.ValidateNonce | Sources/Types/Frame.swift:49-66 | with `withNonce`, passes iff a nonce is present and has a character outside whitespace and newlines; without it, passes iff no nonce is present |
| Envelope.DecodeWithNonce | Sources/Types/Frame.swift:68-74 | succeeds iff decoding and the nonce check both pass, giving the decoded frame |
| Envelope.DecodeWithCmd | Sources/Types/Frame.swift:76-83 | succeeds iff decoding, the cmd check and the nonce check pass |
| Envelope.DecodeWithEvt | Sources/Types/Frame.swift:85-92 | succeeds iff decoding, the evt check and the nonce check pass, whatever the cmd |
| Envelope.DecodeWithCmdEvt | Sources/Types/Frame.swift:94-102 | succeeds iff all three checks pass; a wrong cmd is the error reported first |
| Envelope.EncodeFields | Sources/Types/Frame.swift:104-109 | `cmd` is always written, and `evt` and `nonce` exactly when present |
| Envelope.RoundTrip | Sources/Types/Frame.swift:104-109 | decoding what `encode` wrote gives back the same triple, whatever extra keys a subclass adds |
| Envelope.EncodeRoundTrip | Sources/Types/Frame.swift:104-109 | decoding an encoded frame gives back the frame |
| Text.TrimEmptyIffAllIn | Sources/Types/Frame.swift:50 | trimming leaves an empty string iff every character is one of those trimmed |
| Events.DecodeErrorCode | Sources/Types/Events/EventError.swift:36 | the `code` field decodes iff it is an in-range integer naming a known error code |
| Events.DecodeCloseCode | Sources/Types/Events/EventClose.swift:4 | the `code` field decodes iff it is an in-range integer naming a known close code |
| Events.DecodeClose | Sources/Types/Events/EventClose.swift:3-14 | a close notice decodes iff it is an object with a known code and a string message |
| Events.CloseRoundTrip | Sources/Types/Events/EventClose.swift:3-14 | an encoded close notice decodes back to itself |
| Events.DecodeErrorData | Sources/Types/Events/EventError.swift:35-38 | error data decodes iff it holds a known code and a string message |
| Events.DecodeEventError | Sources/Types/Events/EventError.swift:10-14 | decodes iff `data` decodes and the envelope has `evt` ERROR and a non-blank nonce, with any cmd |
| Events.EventErrorEnvelope | Sources/Types/Events/EventError.swift:13 | an accepted error event names ERROR and carries a non-blank nonce |
| Events.EventErrorRoundTrip | Sources/Types/Events/EventError.swift:16-20 | any error event the initialiser accepts is written back to one that decodes identically |
| Events.DecodeConfig | Sources/Types/Events/EventReady.swift:39-49 | `config` decodes iff it has the three string fields under their JSON names |
| Events.DecodeReadyData | Sources/Types/Events/EventReady.swift:27-37 | ready data decodes iff `v` is an integer, `config` decodes and `user` is an object |
| Events.DecodeEventReady | Sources/Types/Events/EventReady.swift:10-14 | decodes iff `data` decodes and the envelope is `DISPATCH`/`READY` with no nonce |
| Events.EventReadyEnvelope | Sources/Types/Events/EventReady.swift:13 | an accepted ready event has exactly the envelope `{DISPATCH, READY, no nonce}` |
| Events.EventReadyRoundTrip | Sources/Types/Events/EventReady.swift:16-20 | a ready event with a 64-bit version is written back to one that decodes identically |
| Routing.HandleResponse | Sources/RPC.swift:115-135 | a reply is dropped, traps, or goes to the response handler or the waiters (never as an error), always with the raw payload |
| Routing.HandleEvent | Sources/RPC.swift:137-173 | an event never closes, echoes, reaches the response handler or posts a non-error; handler and post payloads are the raw bytes; an event missing or unknown to the client is queued for the generic handler without an event, not trapped on the loop |
| Routing.HandlePayload | Sources/RPC.swift:79-113 | `Closed` iff the opcode is CLOSE; a PING gives `Echo` of its decoded text (the bytes without a leading byte order mark) iff they are UTF-8, else a trap; HANDSHAKE, PONG and an unparsable FRAME are dropped |
| Routing.FramePath | Sources/RPC.swift:92-98 | a FRAME takes the event path iff `cmd` is DISPATCH or `evt` is ERROR, and the response path otherwise |
| Routing.CloseRoute | Sources/RPC.swift:82-87 | the disconnect handler gets a notice iff the payload decodes as one, and it gets that notice |
| Routing.ResponseRoutes | Sources/RPC.swift:115-135 | a reply with no nonce traps; an invalid nonce is dropped; an async nonce goes to the response handler only; a sync nonce is posted under that nonce as a non-error |
| Routing.ErrorRoutes | Sources/RPC.swift:148-160 | an ERROR event goes to the error handler (async nonce, decodable error) or is posted as an error (sync nonce), never both; otherwise it is dropped or traps |
| Routing.DispatchRoutes | Sources/RPC.swift:141-166 | READY goes to the connect handler when it decodes; any other event, including one missing or unknown to the client, goes to the generic handler with the raw bytes and the decoded evt; the loop never traps here, and the queued block traps iff an event handler is registered and the evt is missing |
| Routing.ReplyReachesCaller | Sources/RPC.swift:115-128 | a reply carrying a generated nonce goes to the response handler if the nonce is async, and to the waiter named by it otherwise |
| Routing.ErrorReachesCaller | Sources/RPC.swift:148-160 | an error event carrying a generated nonce goes to the error handler or to that nonce's waiter, by kind |
| Receive.StepOf | Sources/RPC.swift:43-71 | one pass consumes one read, two reads or the rest of the script; only a pass that reads a payload dispatches, and every echo it dispatches fits a frame |
| Receive.RunEnds | Sources/RPC.swift:37-76 | the loop's reports end exactly once, with `socketDisconnected` or a trap; nothing is dispatched after a close but that notice; every echo fits a frame |
| Receive.SentFrameIsDispatched | Sources/RPC.swift:48-71 | the two reads of a sent frame with a non-empty payload dispatch that frame's route for its opcode and payload; the loop then goes on with the remaining reads, unless the route is a close or a trap |
| Receive.EmptyFrameSkipped | Sources/RPC.swift:56-59 | a frame that announces an empty payload costs one read and dispatches nothing |
| Receive.UnknownOpcodeSkipped | Sources/RPC.swift:56-59 | a header whose opcode is above 4 costs one read and dispatches nothing |
| Receive.CloseReportedTwice | Sources/RPC.swift:38-41 | after a CLOSE frame the loop ends, and the disconnect handler hears the frame's notice, then `socketDisconnected` |
| Receive.PingEchoed | Sources/RPC.swift:89-90 | a PING with a UTF-8 payload adds exactly one PONG frame to what the loop writes, carrying the payload without a leading byte order mark, so the identical payload when it has none; the echo is UTF-8 |
| Subscribe.NewArgs | Sources/Types/Requests/RequestSubscribe.swift:73-80 | args are built iff exactly one of guild id and channel id is given, and they keep both as given |
| Subscribe.NewRequest | Sources/Types/Requests/RequestSubscribe.swift:15-45 | a built request keeps the event and the nonce |
| Subscribe.IdRule | Sources/Types/Requests/RequestSubscribe.swift:19-44 | READY and ERROR always fail; GUILD_STATUS needs an id, which becomes the guild id; the eight channel events need an id, which becomes the channel id; every other event fails with an id and has no args without |
| Subscribe.ArgsHoldOneId | Sources/Types/Requests/RequestSubscribe.swift:15-45 | a built request's args, when present, hold exactly one id, and they are absent iff no id was given |
| Subscribe.EncodeArgs | Sources/Types/Requests/RequestSubscribe.swift:82-86 | only the id that is set is written, under its JSON name |
| Subscribe.EncodeRequest | Sources/Types/Requests/RequestSubscribe.swift:47-53 | `args` is written exactly when present |
| Subscribe.RequestEnvelope | Sources/Types/Requests/RequestSubscribe.swift:47-53 | read back through the envelope, the request is `{SUBSCRIBE, evt, nonce}` |
| Subscribe.EncodeSplit | Sources/Types/Requests/RequestSubscribe.swift:47-53 | the written object is cmd, evt and nonce, plus `args` exactly when present |
| AccessTokens.ScopesOfParts | Sources/Types/Tokens/AccessToken.swift:27-29 | a successful lookup gives one scope per piece |
| AccessTokens.ParsedNamesParts | Sources/Types/Tokens/AccessToken.swift:27-29 | the scopes a successful lookup gives name the pieces, in order |
| AccessTokens.FailedNamesPiece | Sources/Types/Tokens/AccessToken.swift:28 | a failed lookup names a piece that is no scope |
| AccessTokens.ScopeNames | Sources/Types/Tokens/AccessToken.swift:41-43 | the names list the raw value of each scope, in order |
| AccessTokens.DecodeScopes | Sources/Types/Tokens/AccessToken.swift:25-30 | the append loop computes the whitespace-split, piece-by-piece parse |
| AccessTokens.EncodeScopes | Sources/Types/Tokens/AccessToken.swift:40-44 | the append loop and join compute the raw values joined by one space |
| AccessTokens.ScopesRoundTrip | Sources/Types/Tokens/AccessToken.swift:25-44 | every non-empty scope list that is written parses back to itself |
| AccessTokens.EmptyScopesDoNotRoundTrip | Sources/Types/Tokens/AccessToken.swift:27-44 | the empty list is written as `""`, which parses to a failure on the empty piece |
| AccessTokens.DoubledSpaceFails | Sources/Types/Tokens/AccessToken.swift:27-28 | a leading space makes an empty piece, and the parse fails |
| AccessTokens.DecodeFields | Sources/Types/Tokens/AccessToken.swift:19-25 | the keyed fields decode iff the three required ones and `scope` have their types; `refresh_token` is optional |
| AccessTokens.DecodeToken | Sources/Types/Tokens/AccessToken.swift:18-31 | the initialiser computes the specification `TokenOf` |
| AccessTokens.EncodeToken | Sources/Types/Tokens/AccessToken.swift:33-45 | `encode` computes the document `TokenDocument`, with `refresh_token` written only when present |
| AccessTokens.TokenRoundTrip | Sources/Types/Tokens/AccessToken.swift:18-45 | a token with at least one scope and a 64-bit `expires_in` reads back unchanged |
| Commands.FirstFor | Sources/Commands.swift:739-747 | no wake-up iff no post carries the nonce; otherwise the notification of the earliest post that does |
| Commands.Classify | Sources/Commands.swift:761-776 | a non-error returns the payload unchanged; an error raises `failed` with the decoded code and message iff it decodes as an `EventError`, else `responseMalformed` |
| Commands.OtherNamesIgnored | Sources/Commands.swift:740-747 | a post under another name changes nothing for the waiter |
| Commands.LaterPostsIgnored | Sources/Commands.swift:759 | once a call is woken, later posts under its nonce change nothing |
| Commands.TimeoutWhenNoReply | Sources/Commands.swift:751-758 | with no post under the nonce, a timed wait raises `timeout` with the client's limit, and a wait without deadline blocks |
| Commands.ReplyCompletesCall | Sources/Commands.swift:749-776 | a reply frame for a sync command's nonce is posted as a non-error, and the call returns the frame's bytes |
| Commands.ErrorFailsCall | Sources/Commands.swift:761-774 | an error event for a sync command's nonce makes the call raise `failed` with its code and message |
| Commands.AsyncReplyDelivery | Sources/Commands.swift:45-60 | the reply to an `*Async` call reaches the response handler iff the command is AUTHORIZE, SUBSCRIBE or UNSUBSCRIBE; for the others it is posted to the sync waiters |
| Discovery.Decimal | Sources/DiscordRPC.swift:60 | the decimal text of n is non-empty, and one digit long iff n < 10 |
| Discovery.IpcPathsDistinct | Sources/DiscordRPC.swift:59-60 | the ten candidate paths are pairwise distinct |
| Discovery.FirstAccepting | Sources/DiscordRPC.swift:59-71 | no suffix is found iff no candidate path accepts; otherwise the found suffix accepts and no earlier one does |
| Discovery.DiscoverLowest | Sources/DiscordRPC.swift:58-71 | discovery finds n iff n < 10, its path accepts and no lower path does; it finds nothing iff none of the ten accepts |
| Discovery.ConnectSucceeds | Sources/DiscordRPC.swift:52-74 | `connect` succeeds iff not sandboxed, the socket is created, a path accepts and the handshake goes out; it is then connected to the lowest accepting path; on any error no handshake went out and a connected socket is the one from before |
| Client.DiscordRpc.constructor | Sources/DiscordRPC.swift:30-43 | the ids are kept, `cmdTimeout` is 1000 and there is no socket, frame, report or observer yet |
| Client.DiscordRpc.CreateSocket | Sources/RPC.swift:5-12 | a new unconnected socket, or `socketCreation` with the old socket kept |
| Client.DiscordRpc.CloseSocket | Sources/RPC.swift:14-17 | the socket is cleared |
| Client.DiscordRpc.Send | Sources/RPC.swift:19-33 | without a socket nothing is written and nothing is thrown; a failed write throws the socket's own write error (here `SocketWriteFailed`); otherwise exactly the encoded frame is appended to the wire |
| Client.DiscordRpc.ReceiveLoop | Sources/RPC.swift:35-77 | an unconnected client just reports `socketDisconnected`; a connected one reports exactly `Run(script)`, writes one PONG per echo (`PongFrames`), and ends with the socket `SocketAfterRun` says |
| Client.DiscordRpc.NextFrame | Sources/RPC.swift:48-71 | the reads of one pass, and where the next pass starts, are those `StepOf` gives |
| Client.DiscordRpc.Deliver | Sources/RPC.swift:82-90 | the route is reported; a close clears the socket; an echo appends its PONG frame; nothing else changes |
| Client.DiscordRpc.SyncResponse | Sources/Commands.swift:733-777 | the result is `SyncOutcome` of the write, the posts and the deadline mode; the request frame is written when sent; the observer stays registered exactly when the write failed or the call blocks |
| Client.DiscordRpc.Handshake | Sources/Commands.swift:725-731 | the `{v, client_id}` document is sent with the HANDSHAKE opcode, and the receive loop starts iff the write did not fail |
| Client.DiscordRpc.Connect | Sources/DiscordRPC.swift:52-74 | the error, the socket and whether a handshake went out are `ConnectOutcome`'s, and the handshake frame is written iff it went out |
| Client.DiscordRpc.Disconnect | Sources/DiscordRPC.swift:77-79 | the socket is cleared |
| Client.DiscordRpc.Command | Sources/Commands.swift:17-114 | a sync nonce is used, and the call ends as `syncResponse` does, with no deadline exactly for AUTHORIZE; its observer stays registered when the write fails or the wait never ends |
| Client.DiscordRpc.CommandAsync | Sources/Commands.swift:45-96 | one frame is sent under a nonce of the wrapper's kind, and that nonce is returned unless the write fails |
| Client.DiscordRpc.SubscribeSync | Sources/Commands.swift:641-648 | an id that does not fit the event raises `RequestError.invalidParameters` unchanged, with nothing registered or sent; otherwise the request goes through `syncResponse` under a sync nonce, and its observer stays registered when the write fails or the wait never ends |
| Client.DiscordRpc.SubscribeAsync | Sources/Commands.swift:664-671 | the same validation and the same `RequestError`, then one frame under an async nonce, which is returned |
| Sessions.Session.constructor | Sources/Session.swift:12-18 | `cmdTimeout` is 1000, the three debug flags are off, and there is no socket |
| Sessions.Session.Connect | Sources/Session.swift:58-80 | the error, the socket and the handshake flag are `ConnectOutcome`'s |
| Sessions.Session.Disconnect | Sources/Session.swift:84-86 | the socket is cleared |

## Left out

- Socket I/O, the filesystem and `ProcessInfo` are parameters, not code: the `accepts` oracle, the write-failure flags, the read script and the sandbox flag.
- Receive.CloseReportedTwice: states the order the loop issues the two disconnect notices, not the order the handler receives them, which the two queues decide.
- Concurrency is not modelled: the `rpcWorker` and `handlerWorker` queues, `DispatchSemaphore` and `NotificationCenter`. Handler calls are `Route` tags that the loop reports in order. The wait is a sequence of posts seen before the deadline, and the model assumes the first post under the nonce wakes the waiter. In Swift, a later post that races the wake-up could overwrite `notification`.
- Receive.Fit: a short read leaves the unfilled part of the buffer uninitialised in the source; the model fills it with zero bytes.
- JSON text encoding and decoding are parameters. A failed `jsonString()` (an `EncodingError`) is not modelled, and anything the encoder produces is assumed to fit one frame.
- Numbers in JSON documents are integers only; Swift's `Double` fields are outside the model.
- Events.DecodeReadyData: `user` is accepted as any JSON object, because User.swift is not part of this model.
- UTF-8: `IsUtf8` stands for `String(data:encoding: .utf8)` succeeding, and `Utf8Text` for the text it yields. Dropping a leading byte order mark is the only difference modelled between the input and the text; Unicode normalisation and character counting are not modelled.
- Client.DiscordRpc.Deliver: the PONG write never fails in the model. The source swallows that failure with `try?`, so it changes nothing observable beyond the frame not being written.
- Client.DiscordRpc.CreateSocket: `setBlocking(mode:)` failing inside `createSocket` is folded into the single `createFails` flag. When `Socket.create` succeeds and `setBlocking` then throws, the source already holds the new, unconnected socket; the model keeps the old socket instead.
- How the typed responses (`ResponseAuthorize.from` and the others) decode the returned bytes is not modelled. Sync commands end with the raw reply bytes.
- Requests other than `RequestSubscribe` and `RequestHandshake` are not modelled; each sync or async wrapper takes its request as an encoder function of the nonce. RequestUnsubscribe.swift is not part of this model, so the unsubscribe wrappers carry no parameter validation here.
- Sessions.Session.Connect: `Session`'s own `createSocket`, `closeSocket` and `handshake` are not part of this model. Its `Connect` is proved against the same outcome with the handshake's success as a parameter, and it records no frames.
- Handlers are route tags; setting them (Handlers.swift) and their callback arity are not modelled. Whether a handler is registered only matters for the generic event handler's `frame.evt!`, and `Routing.QueuedBlockTraps` takes it as a flag. The loop model goes on after queuing such a block; the stop that follows when the block runs on `handlerWorker` is asynchronous and not reflected in `Receive.Run`.
- FetchUtils.swift (HTTP over URLSession), Logger.swift, Codec.swift and the domain records (Guild, Channel, User, Activity and the others) are not part of this model. Neither are the remaining Request, Response and Event classes, each of which is a literal encoder or one fixed call into the envelope's validators.
- `userInfo` force casts in `syncResponse` (`as! Data`, `as! Bool`) always succeed in the model, because the dispatcher is the only poster.
