/**
 * Synchronous commands (Sources/Commands.swift `syncResponse`): the caller registers an
 * observer named by the nonce, sends the request, then waits on a semaphore the observer
 * signals, with the client's `cmdTimeout` as deadline or, for `authorize`, with none. What
 * wakes the waiter is modelled as the sequence of posts the dispatcher makes while it waits.
 * This module also holds which nonce kind and which wait each command wrapper uses.
 */
module Commands {
  import opened Wrappers
  import opened Bytes
  import opened Json
  import opened Constants
  import opened Nonce
  import opened Events
  import opened Routing
  import opened Errors

  /** The `userInfo` of a post: `data` and `error`. */
  datatype Notification = Notification(isError: bool, payload: seq<byte>)
  datatype Post = Post(name: string, note: Notification)

  /** How a synchronous call ends; a call waiting without deadline for a reply that never comes does not end. */
  datatype CallResult = Returned(data: seq<byte>) | Raised(error: ClientError) | Blocked

  /** The dispatcher's post for a route that posts to the waiters. */
  function PostOf(r: Route): Post
    requires r.PostToWaiter?
  {
    Post(r.nonce, Notification(r.isError, r.payload))
  }

  /** The first notification posted under `nonce`: the one that wakes its waiter. */
  function FirstFor(posts: seq<Post>, nonce: string): (r: Option<Notification>)
    ensures r.None? <==> forall k :: 0 <= k < |posts| ==> posts[k].name != nonce
    ensures r.Some? ==> exists k :: 0 <= k < |posts| && posts[k] == Post(nonce, r.value) &&
                          forall j :: 0 <= j < k ==> posts[j].name != nonce
  {
    if |posts| == 0 then None
    else if posts[0].name == nonce then Some(posts[0].note)
    else
      var r := FirstFor(posts[1..], nonce);
      assert r.Some? ==> exists k :: 1 <= k < |posts| && posts[k] == Post(nonce, r.value) &&
                          forall j :: 0 <= j < k ==> posts[j].name != nonce by {
        if r.Some? {
          var k :| 0 <= k < |posts[1..]| && posts[1..][k] == Post(nonce, r.value) &&
                    forall j :: 0 <= j < k ==> posts[1..][j].name != nonce;
          assert posts[k + 1] == Post(nonce, r.value);
          forall j | 0 <= j < k + 1 ensures posts[j].name != nonce {
            if j > 0 { assert posts[j] == posts[1..][j - 1]; }
          }
        }
      }
      r
  }

  /**
   * After the wake-up: a reply is returned as it came; an error reply is decoded as an
   * `EventError` and raised as `failed` with its code and message, or as `responseMalformed`
   * when it does not decode.
   */
  function Classify(note: Notification, parse: Parser): (r: Result<seq<byte>, CommandError>)
    ensures !note.isError ==> r == Success(note.payload)
    ensures note.isError ==> r.Failure? && (r.error.Failed? || r.error == ResponseMalformed)
    ensures note.isError ==> (r.error.Failed? <==>
      parse(note.payload).Some? && DecodeEventError(parse(note.payload).value).Success?)
    ensures r.Failure? && r.error.Failed? ==>
      var e := DecodeEventError(parse(note.payload).value).value.data;
      r.error == Failed(e.code, e.message)
  {
    if !note.isError then Success(note.payload)
    else match parse(note.payload)
      case None => Failure(ResponseMalformed)
      case Some(doc) =>
        match DecodeEventError(doc)
        case Failure(_) => Failure(ResponseMalformed)
        case Success(e) => Failure(Failed(e.data.code, e.data.message))
  }

  /** The whole call, once the request is sent (`sent`) or its write has failed. */
  function SyncOutcome(sent: bool, posts: seq<Post>, nonce: string, disableTimeout: bool, timeout: int, parse: Parser): CallResult
  {
    if !sent then Raised(SocketWriteFailed)
    else match FirstFor(posts, nonce)
      case None => if disableTimeout then Blocked else Raised(CommandFailed(Timeout(timeout)))
      case Some(note) =>
        match Classify(note, parse)
        case Success(data) => Returned(data)
        case Failure(e) => Raised(CommandFailed(e))
  }

  /** Only a post named exactly by the call's nonce wakes it: any other post changes nothing. */
  lemma {:induction false} OtherNamesIgnored(before: seq<Post>, p: Post, after: seq<Post>, nonce: string)
    requires p.name != nonce
    ensures FirstFor(before + [p] + after, nonce) == FirstFor(before + after, nonce)
    decreases |before|
  {
    if |before| == 0 {
      assert before + [p] + after == [p] + after;
      assert ([p] + after)[1..] == after;
      assert before + after == after;
    } else {
      var xs, ys := before + [p] + after, before + after;
      assert xs[0] == ys[0] == before[0];
      assert xs[1..] == before[1..] + [p] + after;
      assert ys[1..] == before[1..] + after;
      if before[0].name != nonce {
        OtherNamesIgnored(before[1..], p, after, nonce);
      }
    }
  }

  /** Once a call has been woken, later posts under its nonce change nothing. */
  lemma {:induction false} LaterPostsIgnored(posts: seq<Post>, later: seq<Post>, nonce: string)
    requires FirstFor(posts, nonce).Some?
    ensures FirstFor(posts + later, nonce) == FirstFor(posts, nonce)
    decreases |posts|
  {
    if posts[0].name != nonce {
      LaterPostsIgnored(posts[1..], later, nonce);
      assert (posts + later)[1..] == posts[1..] + later;
    }
  }

  /** With a deadline and no post under the nonce, the call raises `timeout` with the client's limit. */
  lemma TimeoutWhenNoReply(posts: seq<Post>, nonce: string, timeout: int, parse: Parser)
    requires forall k :: 0 <= k < |posts| ==> posts[k].name != nonce
    ensures SyncOutcome(true, posts, nonce, false, timeout, parse) == Raised(CommandFailed(Timeout(timeout)))
    ensures SyncOutcome(true, posts, nonce, true, timeout, parse) == Blocked
  {
  }

  /**
   * End to end: a reply frame to a sync command's nonce is posted by the dispatcher as a
   * non-error notification, and that post makes the waiting call return the frame's bytes.
   */
  lemma ReplyCompletesCall(uuid: string, data: seq<byte>, parse: Parser, doc: Value, disableTimeout: bool, timeout: int)
    requires IsUuidString(uuid)
    requires parse(data) == Some(doc) && Envelope.Decode(doc).Success?
    requires !IsEventFrame(Envelope.Decode(doc).value)
    requires Envelope.Decode(doc).value.nonce == Some(GenerateNonce(uuid))
    ensures HandlePayload(OpCode.Frame, data, parse).PostToWaiter?
    ensures SyncOutcome(true, [PostOf(HandlePayload(OpCode.Frame, data, parse))], GenerateNonce(uuid), disableTimeout, timeout, parse)
      == Returned(data)
  {
    ReplyReachesCaller(uuid, false, data, parse, doc);
  }

  /** End to end: an error event for a sync command's nonce makes the call raise `failed` with its code and message. */
  lemma ErrorFailsCall(uuid: string, data: seq<byte>, parse: Parser, doc: Value, disableTimeout: bool, timeout: int)
    requires IsUuidString(uuid)
    requires parse(data) == Some(doc) && DecodeEventError(doc).Success?
    requires DecodeEventError(doc).value.frame.nonce == Some(GenerateNonce(uuid))
    ensures HandlePayload(OpCode.Frame, data, parse).PostToWaiter?
    ensures var e := DecodeEventError(doc).value.data;
      SyncOutcome(true, [PostOf(HandlePayload(OpCode.Frame, data, parse))], GenerateNonce(uuid), disableTimeout, timeout, parse)
      == Raised(CommandFailed(Failed(e.code, e.message)))
  {
    ErrorReachesCaller(uuid, false, data, parse, doc);
  }

  // ---------------------------------------------------------------------------------------
  // The command wrappers

  /** The commands with a pair of wrappers (`cmd()` and `cmdAsync()`): all but `DISPATCH` and `CAPTURE_SHORTCUT`. */
  predicate HasWrappers(c: CommandType)
  {
    c != Dispatch && c != CaptureShortcut
  }

  /** Only `authorize` waits for its reply without a deadline (`disableTimeout: true`). */
  predicate WaitsWithoutDeadline(c: CommandType)
  {
    c == Authorize
  }

  /**
   * The nonce kind the `*Async` wrapper generates: async only for `authorize`, `subscribe` and
   * `unsubscribe`; every other one calls `generateNonce()` and so generates a sync nonce.
   */
  function AsyncWrapperNonceKind(c: CommandType): bool
  {
    c == Authorize || c == Subscribe || c == Unsubscribe
  }

  /**
   * The reply to an `*Async` call reaches the response handler exactly for the three
   * wrappers that generate async nonces; for the others it is posted to the waiters, where no
   * observer is registered for it, since an async call registers none.
   */
  lemma AsyncReplyDelivery(c: CommandType, uuid: string, data: seq<byte>, parse: Parser, doc: Value)
    requires HasWrappers(c) && IsUuidString(uuid)
    requires parse(data) == Some(doc) && Envelope.Decode(doc).Success?
    requires !IsEventFrame(Envelope.Decode(doc).value)
    requires Envelope.Decode(doc).value.nonce == Some(GenerateNonce(uuid, AsyncWrapperNonceKind(c)))
    ensures HandlePayload(OpCode.Frame, data, parse).ResponseHandler? <==> c in {Authorize, Subscribe, Unsubscribe}
    ensures !AsyncWrapperNonceKind(c) ==>
      HandlePayload(OpCode.Frame, data, parse) == PostToWaiter(GenerateNonce(uuid), false, data)
  {
    ReplyReachesCaller(uuid, AsyncWrapperNonceKind(c), data, parse, doc);
  }
}
