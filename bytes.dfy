/** Machine integers of the wire format. */
module Bytes {

  type byte = b: int | 0 <= b < 0x100

  /** Swift's `UInt32`. */
  type uint32 = x: int | 0 <= x < 0x1_0000_0000

  /**
   * The four bytes `storeBytes(of:as: UInt32.self)` writes; the field is in host order,
   * which is little-endian on the macOS targets (x86-64 and arm64).
   */
  function LittleEndian32(v: uint32): (b: seq<byte>)
    ensures |b| == 4
  {
    [v % 0x100, (v / 0x100) % 0x100, (v / 0x1_0000) % 0x100, v / 0x100_0000]
  }

  /** `load(fromByteOffset:as: UInt32.self)` on four little-endian bytes. */
  function ReadLittleEndian32(b: seq<byte>): uint32
    requires |b| == 4
  {
    var b0: int, b1: int, b2: int, b3: int := b[0], b[1], b[2], b[3];
    b0 + 0x100 * b1 + 0x1_0000 * b2 + 0x100_0000 * b3
  }

  lemma LittleEndianRoundTrip(v: uint32)
    ensures ReadLittleEndian32(LittleEndian32(v)) == v
  {
    var q1 := v / 0x100;
    var q2 := q1 / 0x100;
    assert v == v % 0x100 + 0x100 * q1;
    assert q1 == q1 % 0x100 + 0x100 * q2;
    assert q2 == q2 % 0x100 + 0x100 * (q2 / 0x100);
    assert v / 0x1_0000 == q2;
    assert v / 0x100_0000 == q2 / 0x100;
  }

  lemma LittleEndianOfRead(b: seq<byte>)
    requires |b| == 4
    ensures LittleEndian32(ReadLittleEndian32(b)) == b
  {
    var b0: int, b1: int, b2: int, b3: int := b[0], b[1], b[2], b[3];
    var v := ReadLittleEndian32(b);
    assert v == b0 + 0x100 * (b1 + 0x100 * (b2 + 0x100 * b3));
    assert v % 0x100 == b0 && v / 0x100 == b1 + 0x100 * (b2 + 0x100 * b3);
    assert (v / 0x100) % 0x100 == b1;
    assert v / 0x1_0000 == (v / 0x100) / 0x100 == b2 + 0x100 * b3;
    assert (v / 0x1_0000) % 0x100 == b2;
    assert v / 0x100_0000 == (v / 0x1_0000) / 0x100 == b3;
  }

  predicate IsContinuation(b: byte)
  {
    0x80 <= b <= 0xBF
  }

  /**
   * The length of the well-formed UTF-8 sequence at the start of `b` (RFC 3629, section 4),
   * or 0 when `b` does not start with one.
   */
  function ScalarLength(b: seq<byte>): (n: nat)
    requires |b| > 0
    ensures n <= 4 && n <= |b|
  {
    var b0 := b[0];
    if b0 < 0x80 then 1
    else if 0xC2 <= b0 <= 0xDF then
      if |b| >= 2 && IsContinuation(b[1]) then 2 else 0
    else if 0xE0 <= b0 <= 0xEF then
      var lo := if b0 == 0xE0 then 0xA0 else 0x80;
      var hi := if b0 == 0xED then 0x9F else 0xBF;
      if |b| >= 3 && lo <= b[1] <= hi && IsContinuation(b[2]) then 3 else 0
    else if 0xF0 <= b0 <= 0xF4 then
      var lo := if b0 == 0xF0 then 0x90 else 0x80;
      var hi := if b0 == 0xF4 then 0x8F else 0xBF;
      if |b| >= 4 && lo <= b[1] <= hi && IsContinuation(b[2]) && IsContinuation(b[3]) then 4 else 0
    else 0
  }

  /** `String(data:encoding: .utf8)` succeeds exactly on well-formed UTF-8. */
  predicate IsUtf8(b: seq<byte>)
    decreases |b|
  {
    |b| == 0 || (ScalarLength(b) > 0 && IsUtf8(b[ScalarLength(b)..]))
  }

  /** U+FEFF, the byte order mark, in UTF-8. */
  const ByteOrderMark: seq<byte> := [0xEF, 0xBB, 0xBF]

  /**
   * The UTF-8 bytes of the text `String(data:encoding: .utf8)` decodes, as `data(using: .utf8)`
   * writes them back: Foundation drops a leading byte order mark and keeps everything else.
   */
  function Utf8Text(b: seq<byte>): (t: seq<byte>)
    ensures b == t || b == ByteOrderMark + t
    ensures b == ByteOrderMark + t <==> |b| >= 3 && b[..3] == ByteOrderMark
  {
    if |b| >= 3 && b[..3] == ByteOrderMark then b[3..] else b
  }

  /** The decoded text of well-formed UTF-8 is well-formed UTF-8 again. */
  lemma Utf8TextIsUtf8(b: seq<byte>)
    requires IsUtf8(b)
    ensures IsUtf8(Utf8Text(b))
  {
    if |b| >= 3 && b[..3] == ByteOrderMark {
      assert ScalarLength(b) == 3;
      assert b[3..] == Utf8Text(b);
    }
  }
}
