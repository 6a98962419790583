/** Which bytes the two parsers refuse with which error, and what is left of the stream, in plain numbers. */
module FrameErrors {
  import opened Crc32c
  import opened Frames
  import opened FrameStream

  /** The length a header announces, most significant byte first. */
  function Announced(b: seq<Byte>): int
    requires |b| >= 8
  {
    (b[4] as int) * 0x100_0000 + (b[5] as int) * 0x1_0000 + (b[6] as int) * 0x100 + (b[7] as int)
  }

  /** A header whose magic and version bytes are right. */
  predicate Greeted(b: seq<Byte>) {
    |b| >= 8 && b[0] == 0xF5 && b[1] == 0x7D && b[2] == 0x01
  }

  /** The bytes of a whole frame that some message of version 1 encodes to. */
  ghost predicate IsFrame(b: seq<Byte>) {
    exists m: Message :: m.version == 0x01 && |m.payload| < UINT32 && b == Encode(m)
  }

  lemma AnnouncedLength(b: seq<Byte>)
    requires |b| >= 8
    ensures GetLength(b[4..8]) == Announced(b) >= 0
  {
    LengthValue(b[4..8]);
  }

  /** Every refusal of the whole-buffer parser, by the bytes that cause it. */
  lemma DecodeErrors(b: seq<Byte>)
    ensures Decode(b) == Err(InvalidMagic) <==> |b| >= 12 && !(b[0] == 0xF5 && b[1] == 0x7D)
    ensures Decode(b) == Err(UnsupportedVersion) <==> |b| >= 12 && b[0] == 0xF5 && b[1] == 0x7D && b[2] != 0x01
    ensures Decode(b) == Err(MessageTooLarge) <==> |b| >= 12 && Greeted(b) && Announced(b) > 65536
    ensures Decode(b) == Err(IncompleteFrame)
       <==> |b| < 12 || (Greeted(b) && Announced(b) <= 65536 && |b| != 12 + Announced(b))
    ensures Decode(b) == Err(InvalidChecksum)
       <==> |b| >= 12 && Greeted(b) && Announced(b) <= 65536 && |b| == 12 + Announced(b) && !IsFrame(b)
  {
    if |b| >= 8 {
      AnnouncedLength(b);
    }
    if |b| >= 12 && Greeted(b) && Announced(b) <= 65536 && |b| == 12 + Announced(b) {
      AcceptedFrame(b);
    }
  }

  lemma AcceptedFrame(b: seq<Byte>)
    requires |b| >= 12 && Greeted(b) && Announced(b) <= 65536 && |b| == 12 + Announced(b)
    ensures Decode(b).Ok? <==> IsFrame(b)
  {
    if Decode(b).Ok? {
      DecodeExactly(b, Decode(b).value);
    }
    forall m: Message | m.version == 0x01 && |m.payload| < UINT32 && b == Encode(m) ensures Decode(b).Ok? {
      DecodeExactly(b, m);
    }
  }

  /** The header passes every check of the stream reader. */
  predicate Announces(b: seq<Byte>, limit: nat) {
    Greeted(b) && Announced(b) <= limit
  }

  /** The refusals of the stream reader that the first eight bytes decide: all eight are consumed. */
  lemma HeaderErrors(b: seq<Byte>, limit: nat)
    ensures Read(b, limit).0 == Failed(BadMagic) <==> |b| >= 8 && !(b[0] == 0xF5 && b[1] == 0x7D)
    ensures Read(b, limit).0 == Failed(BadVersion) <==> |b| >= 8 && b[0] == 0xF5 && b[1] == 0x7D && b[2] != 0x01
    ensures Read(b, limit).0 == Failed(TooLarge) <==> Greeted(b) && Announced(b) > limit
    ensures |b| >= 8 && !Announces(b, limit) ==> Read(b, limit).1 == b[8..]
  {
    if |b| >= 8 {
      AnnouncedLength(b);
    }
  }

  /** A stream that ends early is a clean end only at a border that the reader was waiting at; nothing is left. */
  lemma EndErrors(b: seq<Byte>, limit: nat)
    requires limit + 4 < UINT32
    ensures Read(b, limit).0 == Failed(EndOfStream) <==> |b| == 0 || (|b| == 8 && Announces(b, limit))
    ensures Read(b, limit).0 == Failed(UnexpectedEnd)
       <==> 0 < |b| < 8 || (Announces(b, limit) && 8 < |b| < 12 + Announced(b))
    ensures |b| < 8 || (Announces(b, limit) && |b| < 12 + Announced(b)) ==> Read(b, limit).1 == []
  {
    if |b| >= 8 {
      AnnouncedLength(b);
    }
  }

  lemma HeaderPasses(b: seq<Byte>, limit: nat)
    requires Announces(b, limit)
    ensures Announced(b) >= 0 && Read(b, limit) == ReadBody(b, Announced(b))
  {
    AnnouncedLength(b);
  }

  /** Once the whole announced frame is there, it is received or refused for its checksum. */
  lemma BodyOutcome(b: seq<Byte>, length: nat)
    requires length + 4 < UINT32 && |b| >= 12 + length
    ensures ReadBody(b, length).0.Received? || ReadBody(b, length).0 == Failed(BadChecksum)
    ensures ReadBody(b, length).1 == b[12 + length..]
  {
    var need := (length + CRC_SIZE) % UINT32;
    assert need == length + CRC_SIZE;
  }

  lemma NoBody(b: seq<Byte>, limit: nat)
    requires limit + 4 < UINT32 && !(Announces(b, limit) && |b| >= 12 + Announced(b))
    ensures Read(b, limit).0 != Failed(BadChecksum)
  {
    if Announces(b, limit) {
      HeaderPasses(b, limit);
    } else if |b| >= 8 {
      AnnouncedLength(b);
    }
  }

  /** Exactly a whole announced frame that no message encodes to is refused for its checksum, and it is consumed. */
  lemma ChecksumErrors(b: seq<Byte>, limit: nat)
    requires limit + 4 < UINT32
    ensures Read(b, limit).0 == Failed(BadChecksum)
       <==> Announces(b, limit) && |b| >= 12 + Announced(b) && !IsFrame(b[..12 + Announced(b)])
    ensures Announces(b, limit) && |b| >= 12 + Announced(b) ==> Read(b, limit).1 == b[12 + Announced(b)..]
  {
    if Announces(b, limit) && |b| >= 12 + Announced(b) {
      HeaderPasses(b, limit);
      BodyOutcome(b, Announced(b));
      ReceivedFrame(b, limit);
    } else {
      NoBody(b, limit);
    }
  }

  lemma FramePrefix(m: Message, rest: seq<Byte>)
    requires |m.payload| < UINT32
    ensures var b := Encode(m) + rest; |b| >= 12 && Announced(b) == |m.payload| && b[..12 + Announced(b)] == Encode(m)
  {
    EncodedFields(m);
  }

  lemma PrefixReceived(b: seq<Byte>, limit: nat, m: Message, n: nat)
    requires n <= |b| && Readable(m, limit) && b[..n] == Encode(m)
    ensures Read(b, limit).0 == Received(m)
  {
    assert b == b[..n] + b[n..];
    ReadExactly(b, limit, m, b[n..]);
  }

  lemma ReceivedPrefix(b: seq<Byte>, limit: nat)
    requires Read(b, limit).0.Received?
    ensures |b| >= 12 && 0 <= Announced(b) <= |b| - 12 && IsFrame(b[..12 + Announced(b)])
  {
    var m, rest := Read(b, limit).0.message, Read(b, limit).1;
    ReadExactly(b, limit, m, rest);
    FramePrefix(m, rest);
  }

  lemma ReceivedFrame(b: seq<Byte>, limit: nat)
    requires limit + 4 < UINT32 && Announces(b, limit) && |b| >= 12 + Announced(b)
    ensures Read(b, limit).0.Received? <==> IsFrame(b[..12 + Announced(b)])
  {
    if Read(b, limit).0.Received? {
      ReceivedPrefix(b, limit);
    }
    forall m: Message | m.version == 0x01 && |m.payload| < UINT32 && b[..12 + Announced(b)] == Encode(m)
      ensures Read(b, limit).0.Received?
    {
      PrefixReceived(b, limit, m, 12 + Announced(b));
    }
  }
}
