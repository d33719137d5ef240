/**
 * The receive loop of Sources/RPC.swift (`receive`) as a function of what the socket's reads
 * return. Each read asks for a fixed number of bytes (8 for a header, the header's length for
 * a payload) and either fails or returns some bytes; the script of read outcomes ends when the
 * socket stops reporting itself connected.
 */
module Receive {
  import opened Wrappers
  import opened Bytes
  import opened Constants
  import opened FrameCodec
  import opened Events
  import opened Routing

  datatype ReadResult =
    | ReadFailed
    /** A read that returned these bytes; an empty one is a read of length 0. */
    | ReadBytes(bytes: seq<byte>)

  /**
   * The buffer a read of `size` bytes leaves behind: the bytes read, cut to the buffer's size;
   * the part a short read did not fill is modelled as zero bytes.
   */
  function Fit(bytes: seq<byte>, size: nat): (b: seq<byte>)
    ensures |b| == size
    ensures |bytes| >= size ==> b == bytes[..size]
    ensures |bytes| <= size ==> b[..|bytes|] == bytes
  {
    if |bytes| >= size then bytes[..size] else bytes + Zeros(size - |bytes|)
  }

  function Zeros(n: nat): (z: seq<byte>)
    ensures |z| == n
  {
    if n == 0 then [] else [0] + Zeros(n - 1)
  }

  /** What the loop reports to the outside: a dispatched frame, or the final `socketDisconnected`. */
  datatype Report = Routed(route: Route) | SocketGone

  /** What one pass of the loop does with the reads at the front of the script. */
  datatype Step = Skip(count: nat) | Hangup | Deliver(route: Route)

  function StepOf(script: seq<ReadResult>, parse: Parser): (s: Step)
    requires |script| > 0
    ensures s.Skip? ==> 0 < s.count <= |script| && (s.count == 2 ==> |script| >= 2)
    ensures s.Deliver? ==> |script| >= 2
    ensures s.Deliver? && s.route.Echo? ==> |s.route.payload| < 0x1_0000_0000
  {
    match script[0]
    case ReadFailed => Skip(1)
    case ReadBytes(b) =>
      if |b| == 0 then Skip(1)
      else
        var header := DecodeHeader(Fit(b, HeaderSize));
        if header.length == 0 || OpCodeFromRaw(header.opValue).None? then Skip(1)
        else if |script| == 1 then Hangup
        else match script[1]
          case ReadFailed => Skip(2)
          case ReadBytes(p) =>
            if |p| == 0 then Skip(2)
            else Deliver(HandlePayload(OpCodeFromRaw(header.opValue).value, Fit(p, header.length), parse))
  }

  /**
   * The loop while the socket is connected. A failed or empty header read, a header with
   * length 0 or an unknown opcode, and a failed or empty payload read all start the next
   * iteration (a rejected header's payload is then read as the next header). A complete frame
   * is dispatched; a `CLOSE` frame closes the socket, so the next check reports
   * `socketDisconnected` and the loop ends; a trap ends everything.
   */
  function Run(script: seq<ReadResult>, parse: Parser): (reports: seq<Report>)
    decreases |script|
  {
    if |script| == 0 then [SocketGone]
    else
      var step := StepOf(script, parse);
      if step.Skip? then Run(script[step.count..], parse)
      else if step.Hangup? then [SocketGone]
      else if step.route.Trap? then [Routed(Trap)]
      else if step.route.Closed? then [Routed(step.route), SocketGone]
      else [Routed(step.route)] + Run(script[2..], parse)
  }

  /**
   * One pass of the loop, for whoever follows the loop with a record `done` of what has been
   * reported: what is still to be reported after the pass.
   */
  lemma RunAdvances(script: seq<ReadResult>, i: nat, parse: Parser, done: seq<Report>, all: seq<Report>)
    requires i < |script| && all == done + Run(script[i..], parse)
    ensures var step := StepOf(script[i..], parse);
      (step.Skip? ==> i + step.count <= |script| && all == done + Run(script[i + step.count..], parse)) &&
      (step.Hangup? ==> all == done + [SocketGone]) &&
      (step.Deliver? && step.route.Trap? ==> i + 2 <= |script| && all == done + [Routed(Trap)]) &&
      (step.Deliver? && step.route.Closed? ==> all == done + [Routed(step.route)] + [SocketGone]) &&
      (step.Deliver? && !step.route.Trap? && !step.route.Closed? ==>
         i + 2 <= |script| && all == done + [Routed(step.route)] + Run(script[i + 2..], parse))
  {
    var rest := script[i..];
    var step := StepOf(rest, parse);
    if step.Skip? {
      assert rest[step.count..] == script[i + step.count..];
    } else if step.Deliver? {
      assert rest[2..] == script[i + 2..];
    }
  }

  /**
   * The notices the loop hands to the disconnect handler, in the order the loop issues them.
   * Routed notices go through the handler queue, so the handler may run them in another order.
   */
  function DisconnectNotices(reports: seq<Report>): seq<CloseNotice>
  {
    if |reports| == 0 then []
    else
      var here := match reports[0]
        case SocketGone => [SocketDisconnectedNotice]
        case Routed(r) => if r.Closed? && r.notice.Some? then [r.notice.value] else [];
      here + DisconnectNotices(reports[1..])
  }

  /** Every echo the loop answers fits a frame. */
  predicate EchoesFit(reports: seq<Report>)
  {
    forall i :: 0 <= i < |reports| && reports[i].Routed? && reports[i].route.Echo? ==>
      |reports[i].route.payload| < 0x1_0000_0000
  }

  /** The `PONG` frame the loop writes for one report: one for an echo, none otherwise. */
  function Echoed(r: Report): seq<seq<byte>>
  {
    if r.Routed? && r.route.Echo? && |r.route.payload| < 0x1_0000_0000 then [EncodeFrame(Pong, r.route.payload)] else []
  }

  /** The `PONG` frames the loop writes, one per echo. */
  function PongFrames(reports: seq<Report>): seq<seq<byte>>
  {
    if |reports| == 0 then [] else Echoed(reports[0]) + PongFrames(reports[1..])
  }

  /** Appending one report appends its pong, if it is an echo, to the frames written. */
  lemma {:induction false} PongFramesSnoc(done: seq<Report>, r: Report)
    ensures PongFrames(done + [r]) == PongFrames(done) + Echoed(r)
    decreases |done|
  {
    var all := done + [r];
    if |done| == 0 {
      assert all == [r];
      assert all[1..] == [];
    } else {
      assert all[0] == done[0] && all[1..] == done[1..] + [r];
      calc {
        PongFrames(all);
        Echoed(done[0]) + PongFrames(done[1..] + [r]);
        { PongFramesSnoc(done[1..], r); }
        Echoed(done[0]) + (PongFrames(done[1..]) + Echoed(r));
        PongFrames(done) + Echoed(r);
      }
    }
  }

  /**
   * Reports of one run: the last report, and only the last, is a disconnect or a trap, and a
   * closed socket can only be the report just before the disconnect.
   */
  predicate EndsOnce(rs: seq<Report>)
  {
    && |rs| > 0
    && (rs[|rs| - 1] == SocketGone || rs[|rs| - 1] == Routed(Trap))
    && (forall i :: 0 <= i < |rs| - 1 ==> rs[i].Routed? && !rs[i].route.Trap?)
    && (forall i :: 0 <= i < |rs| - 2 ==> !rs[i].route.Closed?)
  }

  lemma PrependKeepsEndsOnce(route: Route, rs: seq<Report>)
    requires EndsOnce(rs) && EchoesFit(rs)
    requires !route.Trap? && !route.Closed?
    requires route.Echo? ==> |route.payload| < 0x1_0000_0000
    ensures EndsOnce([Routed(route)] + rs) && EchoesFit([Routed(route)] + rs)
  {
    var all := [Routed(route)] + rs;
    forall i | 1 <= i < |all| ensures all[i] == rs[i - 1] { }
  }

  /** The loop ends exactly once: with `socketDisconnected`, or with a trap; nothing follows a close. */
  lemma {:induction false} RunEnds(script: seq<ReadResult>, parse: Parser)
    ensures EndsOnce(Run(script, parse))
    ensures EchoesFit(Run(script, parse))
    decreases |script|
  {
    if |script| == 0 {
    } else if script[0].ReadFailed? || |script[0].bytes| == 0 {
      assert Run(script, parse) == Run(script[1..], parse);
      RunEnds(script[1..], parse);
    } else {
      var header := DecodeHeader(Fit(script[0].bytes, HeaderSize));
      if header.length == 0 || OpCodeFromRaw(header.opValue).None? {
        assert Run(script, parse) == Run(script[1..], parse);
        RunEnds(script[1..], parse);
      } else if |script| == 1 {
        assert Run(script, parse) == [SocketGone];
      } else if script[1].ReadFailed? || |script[1].bytes| == 0 {
        assert Run(script, parse) == Run(script[2..], parse);
        RunEnds(script[2..], parse);
      } else {
        var op := OpCodeFromRaw(header.opValue).value;
        var payload := Fit(script[1].bytes, header.length);
        var route := HandlePayload(op, payload, parse);
        if route.Trap? {
          assert Run(script, parse) == [Routed(Trap)];
        } else if route.Closed? {
          assert Run(script, parse) == [Routed(route), SocketGone];
        } else {
          assert Run(script, parse) == [Routed(route)] + Run(script[2..], parse);
          RunEnds(script[2..], parse);
          PrependKeepsEndsOnce(route, Run(script[2..], parse));
        }
      }
    }
  }

  /** The two reads of a sent frame give back its opcode and payload, which are dispatched. */
  lemma SentFrameIsDispatched(op: OpCode, payload: seq<byte>, rest: seq<ReadResult>, parse: Parser)
    requires 0 < |payload| < 0x1_0000_0000
    ensures var frame := EncodeFrame(op, payload);
      var route := HandlePayload(op, payload, parse);
      Run([ReadBytes(frame[..HeaderSize]), ReadBytes(frame[HeaderSize..])] + rest, parse) ==
        if route.Trap? then [Routed(Trap)]
        else if route.Closed? then [Routed(route), SocketGone]
        else [Routed(route)] + Run(rest, parse)
  {
    var frame := EncodeFrame(op, payload);
    var script := [ReadBytes(frame[..HeaderSize]), ReadBytes(frame[HeaderSize..])] + rest;
    FrameRoundTrip(op, payload);
    assert Fit(frame[..HeaderSize], HeaderSize) == frame[..HeaderSize];
    assert Fit(payload, |payload|) == payload;
    assert script[2..] == rest;
  }

  /** A frame announcing an empty payload is never dispatched: only its header is consumed. */
  lemma EmptyFrameSkipped(op: OpCode, rest: seq<ReadResult>, parse: Parser)
    ensures Run([ReadBytes(EncodeFrame(op, []))] + rest, parse) == Run(rest, parse)
  {
    var frame := EncodeFrame(op, []);
    FrameRoundTrip(op, []);
    assert Fit(frame, HeaderSize) == frame[..HeaderSize];
    assert ([ReadBytes(frame)] + rest)[1..] == rest;
  }

  /** A header whose opcode is not one of the five is skipped without a dispatch. */
  lemma UnknownOpcodeSkipped(header: seq<byte>, rest: seq<ReadResult>, parse: Parser)
    requires |header| == HeaderSize
    requires ReadLittleEndian32(header[..4]) > 4
    ensures Run([ReadBytes(header)] + rest, parse) == Run(rest, parse)
  {
    assert Fit(header, HeaderSize) == header;
    assert ([ReadBytes(header)] + rest)[1..] == rest;
  }

  /**
   * A `CLOSE` frame is the last frame processed, and the disconnect handler is called twice:
   * the loop issues the frame's notice, then `socketDisconnected` at its next check. The first
   * call is queued on the handler queue while the second runs on the loop's own queue, so the
   * order the handler sees is the two queues' to decide.
   */
  lemma CloseReportedTwice(payload: seq<byte>, rest: seq<ReadResult>, parse: Parser)
    requires 0 < |payload| < 0x1_0000_0000
    requires parse(payload).Some? && DecodeClose(parse(payload).value).Success?
    ensures var frame := EncodeFrame(Close, payload);
      var script := [ReadBytes(frame[..HeaderSize]), ReadBytes(frame[HeaderSize..])] + rest;
      DisconnectNotices(Run(script, parse)) == [DecodeClose(parse(payload).value).value, SocketDisconnectedNotice]
  {
    SentFrameIsDispatched(Close, payload, rest, parse);
    var c := DecodeClose(parse(payload).value).value;
    var reports := [Routed(Closed(Some(c))), SocketGone];
    assert DisconnectNotices(reports[2..]) == [];
    assert DisconnectNotices(reports[1..]) == [SocketDisconnectedNotice];
  }

  /**
   * A `PING` frame with a UTF-8 payload is answered by one pong carrying the decoded text:
   * the identical payload, unless it starts with a byte order mark, which is not echoed.
   */
  lemma PingEchoed(payload: seq<byte>, rest: seq<ReadResult>, parse: Parser)
    requires 0 < |payload| < 0x1_0000_0000 && IsUtf8(payload)
    ensures var frame := EncodeFrame(Ping, payload);
      var script := [ReadBytes(frame[..HeaderSize]), ReadBytes(frame[HeaderSize..])] + rest;
      PongFrames(Run(script, parse)) == [EncodeFrame(Pong, Utf8Text(payload))] + PongFrames(Run(rest, parse))
    ensures !(|payload| >= 3 && payload[..3] == ByteOrderMark) ==> Utf8Text(payload) == payload
    ensures IsUtf8(Utf8Text(payload))
  {
    Utf8TextIsUtf8(payload);
    var frame := EncodeFrame(Ping, payload);
    var script := [ReadBytes(frame[..HeaderSize]), ReadBytes(frame[HeaderSize..])] + rest;
    SentFrameIsDispatched(Ping, payload, rest, parse);
    var rs := Run(script, parse);
    assert rs == [Routed(Echo(Utf8Text(payload)))] + Run(rest, parse);
    assert rs[1..] == Run(rest, parse);
  }
}
