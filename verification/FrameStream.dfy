/**
 Reading frames off a byte stream. `Read` is one `ReadFrame` call on the bytes still to come: it
 returns the outcome and what is left of the stream, for failures too. All arithmetic on the
 announced length is 32 bits wide, as in the source, so an announced length of 2^32 - 4 or more
 makes the buffer too small and the following slice expression panics.
 */
module FrameStream {
  import opened Crc32c
  import opened Frames

  datatype ReadError = EndOfStream | UnexpectedEnd | BadMagic | BadVersion | TooLarge | BadChecksum

  datatype Outcome = Received(message: Message) | Failed(error: ReadError) | Panicked

  /** `io.ReadFull` reports a clean end only when not a single byte was there. */
  function ShortRead(available: nat): ReadError {
    if available == 0 then EndOfStream else UnexpectedEnd
  }

  /** The only entry of the version table is version 1, and it is not deprecated. */
  predicate VersionSupported(version: Byte) {
    version == PROTOCOL_VERSION
  }

  function Read(input: seq<Byte>, limit: nat): (Outcome, seq<Byte>) {
    if |input| < HEADER_SIZE then (Failed(ShortRead(|input|)), [])
    else
      var rest := input[HEADER_SIZE..];
      if input[0] != MAGIC_1 || input[1] != MAGIC_2 then (Failed(BadMagic), rest)
      else if !VersionSupported(input[2]) then (Failed(BadVersion), rest)
      else
        var length := GetLength(input[4..8]);
        if length > limit then (Failed(TooLarge), rest)
        else ReadBody(input, length)
  }

  /** The second half: payload and checksum, for a header that passed its checks. */
  function ReadBody(input: seq<Byte>, length: nat): (Outcome, seq<Byte>)
    requires |input| >= HEADER_SIZE
  {
    var need := (length + CRC_SIZE) % UINT32;
    var available := |input| - HEADER_SIZE;
    if available < need then (Failed(ShortRead(available)), [])
    else
      var rest := input[HEADER_SIZE + need..];
      if need < length + CRC_SIZE then (Panicked, rest)
      else
        var start := HEADER_SIZE + length;
        if GetWord(input[start..start + CRC_SIZE]) != Checksum(input[..start]) then (Failed(BadChecksum), rest)
        else (Received(Message(input[2], input[3], input[HEADER_SIZE..start])), rest)
  }

  /** A message the stream reader can return under a limit. */
  predicate Readable(m: Message, limit: nat) {
    m.version == PROTOCOL_VERSION && |m.payload| <= limit && |m.payload| + CRC_SIZE < UINT32
  }

  /** `Read` returns a message exactly when the stream starts with its encoding, and leaves exactly the rest. */
  lemma ReadExactly(input: seq<Byte>, limit: nat, m: Message, rest: seq<Byte>)
    ensures Read(input, limit) == (Received(m), rest)
       <==> Readable(m, limit) && input == Encode(m) + rest
  {
    if Read(input, limit) == (Received(m), rest) {
      ReadImpliesPrefix(input, limit, m, rest);
    }
    if Readable(m, limit) && input == Encode(m) + rest {
      PrefixImpliesRead(limit, m, rest);
    }
  }

  lemma ReadImpliesPrefix(input: seq<Byte>, limit: nat, m: Message, rest: seq<Byte>)
    requires Read(input, limit) == (Received(m), rest)
    ensures Readable(m, limit) && input == Encode(m) + rest
  {
    var length := GetLength(input[4..8]);
    PutGetLength(input[4..8]);
    var end := HEADER_SIZE + length + CRC_SIZE;
    var frame := input[..end];
    assert frame[4..8] == input[4..8];
    assert frame[HEADER_SIZE + length..] == input[HEADER_SIZE + length..end];
    assert frame[..HEADER_SIZE + length] == input[..HEADER_SIZE + length];
    assert frame[HEADER_SIZE..HEADER_SIZE + length] == input[HEADER_SIZE..HEADER_SIZE + length];
    FieldsDetermineBytes(frame, length);
    assert input == frame + input[end..];
  }

  lemma PrefixImpliesRead(limit: nat, m: Message, rest: seq<Byte>)
    requires Readable(m, limit)
    ensures Read(Encode(m) + rest, limit) == (Received(m), rest)
  {
    var frame := Encode(m);
    var input := frame + rest;
    var start := HEADER_SIZE + |m.payload|;
    EncodedParts(m);
    assert input[4..8] == frame[4..8];
    assert input[..start] == frame[..start];
    assert input[HEADER_SIZE..start] == frame[HEADER_SIZE..start];
    assert input[start..start + CRC_SIZE] == frame[start..];
    assert input[start + CRC_SIZE..] == rest;
  }

  /** No encoding is a proper prefix of another: a stream can be cut into frames in one way only. */
  lemma PrefixFree(m: Message, n: Message, restM: seq<Byte>, restN: seq<Byte>)
    requires Readable(m, UINT32) && Readable(n, UINT32)
    requires Encode(m) + restM == Encode(n) + restN
    ensures m == n && restM == restN
  {
    PrefixImpliesRead(UINT32, m, restM);
    PrefixImpliesRead(UINT32, n, restN);
  }

  /**
   The two parsers agree under the default limit: the stream reader returns a message exactly when
   some prefix of the stream is accepted by the buffer parser, with the same message, and then it
   leaves exactly what follows that prefix.
   */
  lemma ParsersAgree(input: seq<Byte>, m: Message)
    ensures Read(input, DEFAULT_MAX_MESSAGE_SIZE).0 == Received(m)
       <==> exists cut :: 0 <= cut <= |input| && Decode(input[..cut]) == Ok(m)
    ensures forall cut :: 0 <= cut <= |input| && Decode(input[..cut]) == Ok(m)
              ==> Read(input, DEFAULT_MAX_MESSAGE_SIZE) == (Received(m), input[cut..])
  {
    if Read(input, DEFAULT_MAX_MESSAGE_SIZE).0 == Received(m) {
      var rest := Read(input, DEFAULT_MAX_MESSAGE_SIZE).1;
      ReadExactly(input, DEFAULT_MAX_MESSAGE_SIZE, m, rest);
      assert input[..|Encode(m)|] == Encode(m);
      DecodeExactly(Encode(m), m);
    }
    forall cut | 0 <= cut <= |input| && Decode(input[..cut]) == Ok(m)
      ensures Read(input, DEFAULT_MAX_MESSAGE_SIZE) == (Received(m), input[cut..])
    {
      DecodeExactly(input[..cut], m);
      assert input == Encode(m) + input[cut..];
      ReadExactly(input, DEFAULT_MAX_MESSAGE_SIZE, m, input[cut..]);
    }
  }

  /** ... and at most one prefix is accepted at all. */
  lemma AcceptedPrefixUnique(input: seq<Byte>, i: nat, j: nat)
    requires i <= |input| && j <= |input|
    requires Decode(input[..i]).Ok? && Decode(input[..j]).Ok?
    ensures i == j
  {
    ParsersAgree(input, Decode(input[..i]).value);
    ParsersAgree(input, Decode(input[..j]).value);
    assert input[i..] == input[j..];
  }

  // ----- Streams of frames -----

  datatype Next<M> = Item(item: M, rest: seq<Byte>) | Nothing

  datatype Cuts<M> = Cut(items: seq<M>, rest: seq<Byte>) | Stuck

  /** `count` successful calls of a parser in a row, each on what the one before left. */
  function CutMany<M>(parse: seq<Byte> -> Next<M>, input: seq<Byte>, count: nat): Cuts<M>
    decreases count
  {
    if count == 0 then Cut([], input)
    else
      match parse(input)
      case Nothing => Stuck
      case Item(m, left) =>
        match CutMany(parse, left, count - 1)
        case Stuck => Stuck
        case Cut(ms, rest) => Cut([m] + ms, rest)
  }

  function Joined<M>(wire: M -> seq<Byte>, ms: seq<M>): seq<Byte> {
    if ms == [] then [] else wire(ms[0]) + Joined(wire, ms[1..])
  }

  /** The parser returns an item exactly when the input starts with its printed form. */
  ghost predicate Exact<M>(parse: seq<Byte> -> Next<M>, wire: M -> seq<Byte>, legal: M -> bool,
                           input: seq<Byte>, m: M, rest: seq<Byte>)
  {
    parse(input) == Item(m, rest) <==> legal(m) && input == wire(m) + rest
  }

  lemma {:induction false} CutImpliesJoined<M(!new)>(parse: seq<Byte> -> Next<M>, wire: M -> seq<Byte>,
                                                     legal: M -> bool,
                                                     input: seq<Byte>, ms: seq<M>, rest: seq<Byte>)
    requires forall i, m, r :: Exact(parse, wire, legal, i, m, r)
    requires CutMany(parse, input, |ms|) == Cut(ms, rest)
    ensures (forall m :: m in ms ==> legal(m)) && input == Joined(wire, ms) + rest
    decreases |ms|
  {
    if ms == [] {
      assert Joined(wire, ms) + rest == rest;
    } else {
      var first, left := parse(input).item, parse(input).rest;
      assert Exact(parse, wire, legal, input, first, left);
      assert ms == [first] + ms[1..];
      CutImpliesJoined(parse, wire, legal, left, ms[1..], rest);
    }
  }

  lemma {:induction false} JoinedImpliesCut<M(!new)>(parse: seq<Byte> -> Next<M>, wire: M -> seq<Byte>,
                                                     legal: M -> bool,
                                                     input: seq<Byte>, ms: seq<M>, rest: seq<Byte>)
    requires forall i, m, r :: Exact(parse, wire, legal, i, m, r)
    requires (forall m :: m in ms ==> legal(m)) && input == Joined(wire, ms) + rest
    ensures CutMany(parse, input, |ms|) == Cut(ms, rest)
    decreases |ms|
  {
    if ms != [] {
      var left := Joined(wire, ms[1..]) + rest;
      assert input == wire(ms[0]) + left;
      assert Exact(parse, wire, legal, input, ms[0], left);
      JoinedImpliesCut(parse, wire, legal, left, ms[1..], rest);
      assert ms == [ms[0]] + ms[1..];
    }
  }

  /** Exactness for one item carries over to streams of any length. */
  lemma CutExactly<M(!new)>(parse: seq<Byte> -> Next<M>, wire: M -> seq<Byte>, legal: M -> bool,
                            input: seq<Byte>, ms: seq<M>, rest: seq<Byte>)
    requires forall i, m, r :: Exact(parse, wire, legal, i, m, r)
    ensures CutMany(parse, input, |ms|) == Cut(ms, rest)
       <==> (forall m :: m in ms ==> legal(m)) && input == Joined(wire, ms) + rest
  {
    if CutMany(parse, input, |ms|) == Cut(ms, rest) {
      CutImpliesJoined(parse, wire, legal, input, ms, rest);
    }
    if (forall m :: m in ms ==> legal(m)) && input == Joined(wire, ms) + rest {
      JoinedImpliesCut(parse, wire, legal, input, ms, rest);
    }
  }

  function NextFrame(limit: nat): seq<Byte> -> Next<Message> {
    input => match Read(input, limit).0
             case Received(m) => Item(m, Read(input, limit).1)
             case _ => Nothing
  }

  /** The bytes of one message on the wire; longer payloads than the length field can say have none. */
  function Wire(m: Message): seq<Byte> {
    if |m.payload| < UINT32 then Encode(m) else []
  }

  function ReadMany(input: seq<Byte>, limit: nat, count: nat): Cuts<Message> {
    CutMany(NextFrame(limit), input, count)
  }

  function EncodeAll(ms: seq<Message>): seq<Byte> {
    Joined(Wire, ms)
  }

  lemma NextFrameExact(limit: nat, input: seq<Byte>, m: Message, rest: seq<Byte>)
    ensures Exact(NextFrame(limit), Wire, (x: Message) => Readable(x, limit), input, m, rest)
  {
    ReadExactly(input, limit, m, rest);
  }

  /** Reading a stream back yields a list of messages exactly when the stream is their encodings in order. */
  lemma StreamExactly(input: seq<Byte>, limit: nat, ms: seq<Message>, rest: seq<Byte>)
    ensures ReadMany(input, limit, |ms|) == Cut(ms, rest)
       <==> (forall m :: m in ms ==> Readable(m, limit)) && input == EncodeAll(ms) + rest
  {
    var legal := (x: Message) => Readable(x, limit);
    forall i, m, r ensures Exact(NextFrame(limit), Wire, legal, i, m, r) {
      NextFrameExact(limit, i, m, r);
    }
    CutExactly(NextFrame(limit), Wire, legal, input, ms, rest);
  }

  // ----- The 32-bit length arithmetic -----

  /** A header announcing a payload of `length` bytes. */
  function HeaderFor(length: nat): (b: seq<Byte>)
    requires length < UINT32
    ensures |b| == HEADER_SIZE
  {
    [MAGIC_1, MAGIC_2, PROTOCOL_VERSION, 0x01] + PutLength(length)
  }

  /** `ReadFrame` can be made to panic exactly when its limit lets the length arithmetic wrap. */
  lemma PanicExactly(limit: nat)
    requires limit < UINT32
    ensures (exists input: seq<Byte> :: Read(input, limit).0.Panicked?) <==> limit + CRC_SIZE >= UINT32
  {
    if limit + CRC_SIZE >= UINT32 {
      var length := UINT32 - CRC_SIZE;
      var input := HeaderFor(length);
      assert input[4..8] == PutLength(length);
      GetPutLength(length);
      assert Read(input, limit).0.Panicked?;
    } else {
      forall input: seq<Byte> ensures !Read(input, limit).0.Panicked? {
      }
    }
  }
}
