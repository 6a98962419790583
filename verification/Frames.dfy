/**
 The wire format of a frame: magic, version, type, big-endian payload length, payload, and the
 CRC32C of everything before it, big-endian. `Encode` is the format and `Decode` the whole-buffer
 parser, with the source's order of checks and error cases.
 */
module Frames {
  import opened Crc32c

  const MAGIC_1: Byte := 0xF5
  const MAGIC_2: Byte := 0x7D
  const PROTOCOL_VERSION: Byte := 0x01
  const HEADER_SIZE: nat := 8
  const CRC_SIZE: nat := 4
  const MIN_FRAME_SIZE: nat := 12
  const DEFAULT_MAX_MESSAGE_SIZE: nat := 65536
  const UINT32: nat := 0x1_0000_0000

  datatype Result<+T, +E> = Ok(value: T) | Err(error: E)

  datatype Message = Message(version: Byte, kind: Byte, payload: seq<Byte>)

  datatype FrameError = IncompleteFrame | InvalidMagic | UnsupportedVersion | MessageTooLarge | InvalidChecksum

  // ----- Big-endian integers -----

  /** The byte of a given value. */
  function ByteOf(n: nat): (b: Byte)
    requires n < 0x100
    ensures b as int == n
  {
    if n == 0 then 0 else
      var below := ByteOf(n - 1);
      ByteSuccessor(below);
      below + 1
  }

  lemma ByteSuccessor(b: Byte)
    requires b as int != 0xFF
    ensures (b + 1) as int == (b as int) + 1
  {
  }

  lemma ByteOfValue(b: Byte)
    ensures b as int < 0x100 && ByteOf(b as int) == b
  {
    SameValue(b, ByteOf(b as int));
  }

  lemma SameValue(a: Byte, b: Byte)
    requires a as int == b as int
    ensures a == b
  {
    assert (a as int) as Byte == a;
  }

  function Power256(k: nat): nat {
    if k == 0 then 1 else 0x100 * Power256(k - 1)
  }

  function PutDigits(n: nat, k: nat): (b: seq<Byte>)
    ensures |b| == k
  {
    if k == 0 then [] else PutDigits(n / 0x100, k - 1) + [ByteOf(n % 0x100)]
  }

  function GetDigits(b: seq<Byte>): nat {
    if b == [] then 0 else 0x100 * GetDigits(b[..|b| - 1]) + (b[|b| - 1] as int)
  }

  lemma {:induction false} GetPutDigits(n: nat, k: nat)
    requires n < Power256(k)
    ensures GetDigits(PutDigits(n, k)) == n
  {
    if k != 0 {
      GetPutDigits(n / 0x100, k - 1);
      var b := PutDigits(n, k);
      assert b[..k - 1] == PutDigits(n / 0x100, k - 1);
    }
  }

  lemma {:induction false} PutGetDigits(b: seq<Byte>)
    ensures GetDigits(b) < Power256(|b|)
    ensures PutDigits(GetDigits(b), |b|) == b
  {
    if b != [] {
      var last := |b| - 1;
      ByteOfValue(b[last]);
      PutGetDigits(b[..last]);
      LastDigit(GetDigits(b[..last]), b[last] as int);
    }
  }

  lemma LastDigit(q: nat, r: nat)
    requires r < 0x100
    ensures (0x100 * q + r) / 0x100 == q && (0x100 * q + r) % 0x100 == r
  {
  }

  function PutLength(n: nat): (b: seq<Byte>)
    requires n < UINT32
    ensures |b| == 4
  {
    PutDigits(n, 4)
  }

  function GetLength(b: seq<Byte>): nat
    requires |b| == 4
  {
    GetDigits(b)
  }

  /** Most significant byte first. */
  lemma LengthValue(b: seq<Byte>)
    requires |b| == 4
    ensures GetLength(b)
         == (b[0] as int) * 0x100_0000 + (b[1] as int) * 0x1_0000 + (b[2] as int) * 0x100 + (b[3] as int)
  {
    var b3, b2, b1 := b[..3], b[..2], b[..1];
    assert b3[..2] == b2 && b2[..1] == b1 && b1[..0] == [];
    assert GetDigits(b1) == b[0] as int;
    assert GetDigits(b2) == 0x100 * GetDigits(b1) + (b[1] as int);
    assert GetDigits(b3) == 0x100 * GetDigits(b2) + (b[2] as int);
  }

  lemma GetPutLength(n: nat)
    requires n < UINT32
    ensures GetLength(PutLength(n)) == n
  {
    assert Power256(4) == UINT32;
    GetPutDigits(n, 4);
  }

  lemma PutGetLength(b: seq<Byte>)
    requires |b| == 4
    ensures GetLength(b) < UINT32 && PutLength(GetLength(b)) == b
  {
    assert Power256(4) == UINT32;
    PutGetDigits(b);
  }

  function PutWord(c: bv32): (b: seq<Byte>)
    ensures |b| == 4
  {
    [((c >> 24) & 0xFF) as Byte, ((c >> 16) & 0xFF) as Byte, ((c >> 8) & 0xFF) as Byte, (c & 0xFF) as Byte]
  }

  function GetWord(b: seq<Byte>): bv32
    requires |b| == 4
  {
    (b[0] as bv32 << 24) | (b[1] as bv32 << 16) | (b[2] as bv32 << 8) | (b[3] as bv32)
  }

  lemma GetPutWord(c: bv32)
    ensures GetWord(PutWord(c)) == c
  {
  }

  lemma PutGetWord(b: seq<Byte>)
    requires |b| == 4
    ensures PutWord(GetWord(b)) == b
  {
  }

  // ----- The wire format -----

  /** Everything the checksum covers. */
  function Covered(m: Message): (b: seq<Byte>)
    requires |m.payload| < UINT32
    ensures |b| == HEADER_SIZE + |m.payload|
  {
    [MAGIC_1, MAGIC_2, m.version, m.kind] + PutLength(|m.payload|) + m.payload
  }

  function Encode(m: Message): (b: seq<Byte>)
    requires |m.payload| < UINT32
    ensures |b| == HEADER_SIZE + |m.payload| + CRC_SIZE
  {
    Covered(m) + PutWord(Checksum(Covered(m)))
  }

  /** The frames a version-1 peer may exchange when both sides use the default limit. */
  predicate WellFormed(m: Message) {
    m.version == PROTOCOL_VERSION && |m.payload| <= DEFAULT_MAX_MESSAGE_SIZE
  }

  function Decode(data: seq<Byte>): Result<Message, FrameError> {
    if |data| < MIN_FRAME_SIZE then Err(IncompleteFrame)
    else if data[0] != MAGIC_1 || data[1] != MAGIC_2 then Err(InvalidMagic)
    else if data[2] != PROTOCOL_VERSION then Err(UnsupportedVersion)
    else
      var length := GetLength(data[4..8]);
      if length > DEFAULT_MAX_MESSAGE_SIZE then Err(MessageTooLarge)
      else if |data| != HEADER_SIZE + length + CRC_SIZE then Err(IncompleteFrame)
      else
        var start := HEADER_SIZE + length;
        if GetWord(data[start..]) != Checksum(data[..start]) then Err(InvalidChecksum)
        else Ok(Message(data[2], data[3], data[HEADER_SIZE..start]))
  }

  lemma EncodedParts(m: Message)
    requires |m.payload| < UINT32
    ensures var b := Encode(m); var start := HEADER_SIZE + |m.payload|;
            && b[0] == MAGIC_1 && b[1] == MAGIC_2 && b[2] == m.version && b[3] == m.kind
            && GetLength(b[4..8]) == |m.payload|
            && b[HEADER_SIZE..start] == m.payload
            && b[..start] == Covered(m)
            && GetWord(b[start..]) == Checksum(Covered(m))
  {
    var b := Encode(m);
    assert b[4..8] == PutLength(|m.payload|);
    GetPutLength(|m.payload|);
    assert b[HEADER_SIZE + |m.payload|..] == PutWord(Checksum(Covered(m)));
    GetPutWord(Checksum(Covered(m)));
  }

  /** Where each field of a frame stands, the length in numbers. */
  lemma EncodedFields(m: Message)
    requires |m.payload| < UINT32
    ensures var b := Encode(m); var start := HEADER_SIZE + |m.payload|;
            && b[0] == 0xF5 && b[1] == 0x7D && b[2] == m.version && b[3] == m.kind
            && (b[4] as int) * 0x100_0000 + (b[5] as int) * 0x1_0000 + (b[6] as int) * 0x100 + (b[7] as int)
               == GetLength(b[4..8]) == |m.payload|
            && b[HEADER_SIZE..start] == m.payload
            && b[..start] == Covered(m)
            && GetWord(b[start..]) == Checksum(b[..start])
  {
    EncodedParts(m);
    LengthValue(Encode(m)[4..8]);
  }

  lemma FieldsDetermineCovered(data: seq<Byte>, length: nat)
    requires |data| == HEADER_SIZE + length
    requires data[0] == MAGIC_1 && data[1] == MAGIC_2 && GetLength(data[4..8]) == length
    ensures length < UINT32
    ensures data == Covered(Message(data[2], data[3], data[HEADER_SIZE..]))
  {
    PutGetLength(data[4..8]);
    assert data == [data[0], data[1], data[2], data[3]] + data[4..8] + data[HEADER_SIZE..];
  }

  /** A buffer whose fields check out is the encoding of those fields. */
  lemma FieldsDetermineBytes(data: seq<Byte>, length: nat)
    requires |data| == HEADER_SIZE + length + CRC_SIZE
    requires data[0] == MAGIC_1 && data[1] == MAGIC_2 && GetLength(data[4..8]) == length
    requires GetWord(data[HEADER_SIZE + length..]) == Checksum(data[..HEADER_SIZE + length])
    ensures length < UINT32
    ensures data == Encode(Message(data[2], data[3], data[HEADER_SIZE..HEADER_SIZE + length]))
  {
    var start := HEADER_SIZE + length;
    var covered := data[..start];
    assert covered[4..8] == data[4..8] && covered[HEADER_SIZE..] == data[HEADER_SIZE..start];
    FieldsDetermineCovered(covered, length);
    PutGetWord(data[start..]);
    assert data == covered + data[start..];
  }

  /** `Decode` accepts exactly the encodings of well-formed messages, and returns what was encoded. */
  lemma DecodeExactly(data: seq<Byte>, m: Message)
    ensures Decode(data) == Ok(m) <==> WellFormed(m) && data == Encode(m)
  {
    if Decode(data) == Ok(m) {
      FieldsDetermineBytes(data, GetLength(data[4..8]));
    }
    if WellFormed(m) && data == Encode(m) {
      EncodedParts(m);
    }
  }

  // ----- One frame, byte by byte -----

  lemma SampleParts()
    ensures FeedAll(0xFFFF_FFFF, [0xF5, 0x7D, 0x01]) == 0xF4AE_7672
    ensures FeedAll(0xF4AE_7672, [0x03, 0x00, 0x00]) == 0x2B67_1BF9
    ensures FeedAll(0x2B67_1BF9, [0x00, 0x01, 0x2A]) == 0x3B73_8E2C
  {
    assert Feed(0xFFFF_FFFF, 0xF5) == 0x6B1D_D7C7;
    assert Feed(0x6B1D_D7C7, 0x7D) == 0xD99C_4726;
    assert Feed(0xD99C_4726, 0x01) == 0xF4AE_7672;
    assert Feed(0xF4AE_7672, 0x03) == 0x8307_7978;
    assert Feed(0x8307_7978, 0x00) == 0xFBC2_0BBB;
    assert Feed(0xFBC2_0BBB, 0x00) == 0x2B67_1BF9;
    assert Feed(0x2B67_1BF9, 0x00) == 0x8BF7_D3A2;
    assert Feed(0x8BF7_D3A2, 0x01) == 0xB190_B181;
    assert Feed(0xB190_B181, 0x2A) == 0x3B73_8E2C;
  }

  lemma SampleChecksum()
    ensures Checksum([0xF5, 0x7D, 0x01, 0x03, 0x00, 0x00, 0x00, 0x01, 0x2A]) == 0xC48C_71D3
  {
    var a: seq<Byte>, b: seq<Byte>, c: seq<Byte> := [0xF5, 0x7D, 0x01], [0x03, 0x00, 0x00], [0x00, 0x01, 0x2A];
    SampleParts();
    FeedAllConcat(ALL_ONES, a, b);
    FeedAllConcat(ALL_ONES, a + b, c);
    assert a + b + c == [0xF5, 0x7D, 0x01, 0x03, 0x00, 0x00, 0x00, 0x01, 0x2A];
  }

  lemma SampleSum(covered: seq<Byte>)
    requires covered == [0xF5, 0x7D, 0x01, 0x03, 0x00, 0x00, 0x00, 0x01, 0x2A]
    ensures Checksum(covered) == 0xC48C_71D3
  {
    SampleChecksum();
  }

  lemma SampleCovered(m: Message)
    requires m == Message(0x01, 0x03, [0x2A])
    ensures Covered(m) == [0xF5, 0x7D, 0x01, 0x03, 0x00, 0x00, 0x00, 0x01, 0x2A]
  {
    var length: seq<Byte> := [0x00, 0x00, 0x00, 0x01];
    LengthValue(length);
    PutGetLength(length);
  }

  lemma SampleWord(checksum: bv32)
    requires checksum == 0xC48C_71D3
    ensures PutWord(checksum) == [0xC4, 0x8C, 0x71, 0xD3]
  {
  }

  /** A version-1 heartbeat with the one-byte payload 2A: magic, header, length, payload and checksum in order. */
  lemma SampleFrame(m: Message)
    requires m == Message(0x01, 0x03, [0x2A])
    ensures Encode(m)[..9] == [0xF5, 0x7D, 0x01, 0x03, 0x00, 0x00, 0x00, 0x01, 0x2A]
    ensures Encode(m)[9..] == [0xC4, 0x8C, 0x71, 0xD3]
  {
    SampleCovered(m);
    var covered := Covered(m);
    SampleSum(covered);
    var checksum := Checksum(covered);
    SampleWord(checksum);
    assert Encode(m)[..9] == covered && Encode(m)[9..] == PutWord(checksum);
  }
}
