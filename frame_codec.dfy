/**
 * The IPC wire format (Sources/RPC.swift, `send` and the header reads of `receive`):
 * an 8-byte header holding the opcode and the payload length as two UInt32 fields,
 * then the payload's UTF-8 bytes.
 */
module FrameCodec {
  import opened Bytes
  import opened Constants
  import opened Wrappers

  const HeaderSize: nat := 8

  /** The bytes one `send` writes. The source traps (`UInt32(payload.count)`) on a payload of 4 GiB or more. */
  function EncodeFrame(op: OpCode, payload: seq<byte>): (frame: seq<byte>)
    requires |payload| < 0x1_0000_0000
    ensures |frame| == HeaderSize + |payload|
  {
    LittleEndian32(OpCodeRaw(op)) + LittleEndian32(|payload|) + payload
  }

  /** The two UInt32 fields `receive` loads from a header. */
  datatype Header = Header(opValue: uint32, length: uint32)

  function DecodeHeader(header: seq<byte>): Header
    requires |header| == HeaderSize
  {
    Header(ReadLittleEndian32(header[..4]), ReadLittleEndian32(header[4..]))
  }

  /**
   * Reading back a sent frame: the header gives the opcode and the payload length,
   * the opcode is a known one, and the bytes after the header are the payload.
   */
  lemma FrameRoundTrip(op: OpCode, payload: seq<byte>)
    requires |payload| < 0x1_0000_0000
    ensures DecodeHeader(EncodeFrame(op, payload)[..HeaderSize]) == Header(OpCodeRaw(op), |payload|)
    ensures OpCodeFromRaw(DecodeHeader(EncodeFrame(op, payload)[..HeaderSize]).opValue) == Some(op)
    ensures EncodeFrame(op, payload)[HeaderSize..] == payload
  {
    var frame := EncodeFrame(op, payload);
    assert frame[..HeaderSize][..4] == LittleEndian32(OpCodeRaw(op));
    assert frame[..HeaderSize][4..] == LittleEndian32(|payload|);
    LittleEndianRoundTrip(OpCodeRaw(op));
    LittleEndianRoundTrip(|payload|);
    OpCodeRoundTrip(op);
  }

  /**
   * `send`'s buffer: allocate 8 + n bytes, copy the payload to the front, move it up by
   * eight bytes (the overlapping `buffer[8...] = buffer[..<payload.count]`, a memmove, so
   * done from the back), then store the two header fields over the first eight bytes.
   */
  method FillSendBuffer(op: OpCode, payload: seq<byte>) returns (buffer: array<byte>)
    requires |payload| < 0x1_0000_0000
    ensures fresh(buffer)
    ensures buffer[..] == EncodeFrame(op, payload)
  {
    var n := |payload|;
    buffer := new byte[HeaderSize + n];
    var i := 0;
    while i < n
      invariant 0 <= i <= n
      invariant forall k :: 0 <= k < i ==> buffer[k] == payload[k]
    {
      buffer[i] := payload[i];
      i := i + 1;
    }
    var j := n;
    while j > 0
      invariant 0 <= j <= n
      invariant forall k :: 0 <= k < j ==> buffer[k] == payload[k]
      invariant forall k :: j <= k < n ==> buffer[HeaderSize + k] == payload[k]
    {
      j := j - 1;
      buffer[HeaderSize + j] := buffer[j];
    }
    var opField, lengthField := LittleEndian32(OpCodeRaw(op)), LittleEndian32(n);
    var h := 0;
    while h < 4
      invariant 0 <= h <= 4
      invariant forall k :: 0 <= k < h ==> buffer[k] == opField[k] && buffer[4 + k] == lengthField[k]
      invariant forall k :: 0 <= k < n ==> buffer[HeaderSize + k] == payload[k]
    {
      buffer[h] := opField[h];
      buffer[4 + h] := lengthField[h];
      h := h + 1;
    }
    assert buffer[..] == opField + lengthField + payload by {
      forall k | 0 <= k < buffer.Length ensures buffer[k] == (opField + lengthField + payload)[k] {
        if k >= HeaderSize { assert buffer[HeaderSize + (k - HeaderSize)] == payload[k - HeaderSize]; }
      }
    }
  }
}
