/**
 The objects around the wire format: a frame that marshals itself and is overwritten by
 unmarshalling, a reader that consumes a stream, and a writer that appends to one.
 */
module FrameIo {
  import opened Crc32c
  import opened Frames
  import opened FrameStream

  /** The fields a failed `Unmarshal` leaves behind: each is overwritten as soon as it is reached. */
  function Overwritten(before: Message, data: seq<Byte>): Message {
    if |data| < MIN_FRAME_SIZE || data[0] != MAGIC_1 || data[1] != MAGIC_2 then before
    else if data[2] != PROTOCOL_VERSION then before.(version := data[2])
    else
      var fields := before.(version := data[2], kind := data[3]);
      var length := GetLength(data[4..8]);
      if length > DEFAULT_MAX_MESSAGE_SIZE || |data| != HEADER_SIZE + length + CRC_SIZE then fields
      else fields.(payload := data[HEADER_SIZE..HEADER_SIZE + length])
  }

  /**
   After a successful parse nothing of the old frame is left; a failed one changes the payload only if
   all but the checksum was right, the type only if the version was, and the version only if the
   magic was.
   */
  lemma OverwrittenMeaning(before: Message, data: seq<Byte>)
    ensures Decode(data).Ok? ==> Overwritten(before, data) == Decode(data).value
    ensures (Decode(data).Err? && Decode(data).error != InvalidChecksum) ==>
              Overwritten(before, data).payload == before.payload
    ensures |data| < 12 || Decode(data) == Err(InvalidMagic) ==> Overwritten(before, data) == before
    ensures Decode(data) == Err(UnsupportedVersion) ==> Overwritten(before, data) == before.(version := data[2])
    ensures Decode(data) == Err(MessageTooLarge) || (|data| >= 12 && Decode(data) == Err(IncompleteFrame)) ==>
              Overwritten(before, data) == before.(version := 0x01, kind := data[3])
    ensures Decode(data) == Err(InvalidChecksum) ==>
              && WellFormed(Overwritten(before, data)) && Encode(Overwritten(before, data)) != data
              && Encode(Overwritten(before, data))[..|data| - CRC_SIZE] == data[..|data| - CRC_SIZE]
  {
    if Decode(data) == Err(InvalidChecksum) {
      var m := Overwritten(before, data);
      var start := HEADER_SIZE + |m.payload|;
      var covered := data[..start];
      assert covered[4..8] == data[4..8] && covered[HEADER_SIZE..] == data[HEADER_SIZE..start];
      FieldsDetermineCovered(covered, |m.payload|);
      assert covered == Covered(m);
      EncodedParts(m);
    }
  }

  class Frame {
    var version: Byte
    var kind: Byte
    var payload: seq<Byte>

    constructor (version: Byte, kind: Byte, payload: seq<Byte>)
      ensures Value() == Message(version, kind, payload)
    {
      this.version := version;
      this.kind := kind;
      this.payload := payload;
    }

    function Value(): Message
      reads this
    {
      Message(version, kind, payload)
    }

    method Marshal() returns (r: Result<seq<Byte>, FrameError>)
      ensures |payload| > 65536 ==> r == Err(MessageTooLarge)
      ensures |payload| <= 65536 ==> r == Ok(Encode(Value()))
    {
      if |payload| > DEFAULT_MAX_MESSAGE_SIZE {
        return Err(MessageTooLarge);
      }
      var buf := [MAGIC_1];
      buf := buf + [MAGIC_2];
      buf := buf + [version];
      buf := buf + [kind];
      buf := buf + PutLength(|payload|);
      buf := buf + payload;
      assert buf == Covered(Value());
      buf := buf + PutWord(Checksum(buf));
      r := Ok(buf);
    }

    method Unmarshal(data: seq<Byte>) returns (r: Result<(), FrameError>)
      modifies this
      ensures Value() == Overwritten(old(Value()), data)
      ensures r.Ok? <==> Decode(data).Ok?
      ensures r.Err? ==> Decode(data) == Err(r.error)
    {
      if |data| < MIN_FRAME_SIZE {
        return Err(IncompleteFrame);
      }
      if data[0] != MAGIC_1 || data[1] != MAGIC_2 {
        return Err(InvalidMagic);
      }
      version := data[2];
      if version != PROTOCOL_VERSION {
        return Err(UnsupportedVersion);
      }
      kind := data[3];
      var length := GetLength(data[4..8]);
      if length > DEFAULT_MAX_MESSAGE_SIZE {
        return Err(MessageTooLarge);
      }
      if |data| != HEADER_SIZE + length + CRC_SIZE {
        return Err(IncompleteFrame);
      }
      payload := data[HEADER_SIZE..HEADER_SIZE + length];
      var start := HEADER_SIZE + length;
      if GetWord(data[start..]) != Checksum(data[..start]) {
        return Err(InvalidChecksum);
      }
      r := Ok(());
    }
  }

  class FrameReader {
    const maxMessageSize: nat
    var input: seq<Byte>

    constructor (input: seq<Byte>, maxMessageSize: nat)
      ensures this.input == input
      ensures this.maxMessageSize == if maxMessageSize == 0 then 65536 else maxMessageSize
    {
      this.input := input;
      this.maxMessageSize := if maxMessageSize == 0 then DEFAULT_MAX_MESSAGE_SIZE else maxMessageSize;
    }

    /** `io.ReadFull`: all of the bytes asked for, or everything there is and an error. */
    method ReadFull(count: nat) returns (bytes: seq<Byte>, short: bool)
      modifies this`input
      ensures short <==> |old(input)| < count
      ensures !short ==> bytes == old(input)[..count] && input == old(input)[count..]
      ensures short ==> bytes == old(input) && input == []
    {
      short := |input| < count;
      var taken := if short then |input| else count;
      bytes := input[..taken];
      input := input[taken..];
    }

    method ReadFrame() returns (outcome: Outcome)
      modifies this`input
      ensures (outcome, input) == Read(old(input), maxMessageSize)
    {
      var header, short := ReadFull(HEADER_SIZE);
      if short {
        return Failed(ShortRead(|header|));
      }
      if header[0] != MAGIC_1 || header[1] != MAGIC_2 {
        return Failed(BadMagic);
      }
      if !VersionSupported(header[2]) {
        return Failed(BadVersion);
      }
      var length := GetLength(header[4..8]);
      assert header[4..8] == old(input)[4..8];
      if length > maxMessageSize {
        return Failed(TooLarge);
      }
      outcome := ReadRemainder(header, length, old(input));
    }

    method ReadRemainder(header: seq<Byte>, length: nat, ghost whole: seq<Byte>) returns (outcome: Outcome)
      requires |header| == HEADER_SIZE && whole == header + input
      modifies this`input
      ensures (outcome, input) == ReadBody(whole, length)
    {
      var need := (length + CRC_SIZE) % UINT32;
      var remainder, short := ReadFull(need);
      assert !short ==> whole[HEADER_SIZE + need..] == input;
      if short {
        return Failed(ShortRead(|remainder|));
      }
      var full := header + remainder;
      var start := HEADER_SIZE + length;
      if start + CRC_SIZE > |full| {
        return Panicked;
      }
      assert need == length + CRC_SIZE;
      assert full == whole[..start + CRC_SIZE];
      assert full[..start] == whole[..start];
      assert full[start..] == whole[start..start + CRC_SIZE];
      if GetWord(full[start..]) != Checksum(full[..start]) {
        return Failed(BadChecksum);
      }
      assert remainder[..length] == full[HEADER_SIZE..start] == whole[HEADER_SIZE..start];
      outcome := Received(Message(header[2], header[3], remainder[..length]));
    }
  }

  lemma {:induction false} EncodeAllAppend(ms: seq<Message>, m: Message)
    ensures EncodeAll(ms + [m]) == EncodeAll(ms) + Wire(m)
    decreases |ms|
  {
    if ms == [] {
      assert ms + [m] == [m] && [m][1..] == [];
      assert Joined(Wire, [m][1..]) == [];
      assert EncodeAll([m]) == Wire(m) + [];
    } else {
      assert (ms + [m])[1..] == ms[1..] + [m];
      EncodeAllAppend(ms[1..], m);
    }
  }

  lemma Whole(sink: seq<Byte>, written: seq<Message>, m: Message)
    requires sink == EncodeAll(written) + []
    ensures sink + Wire(m) == EncodeAll(written + [m]) + []
  {
    EncodeAllAppend(written, m);
  }

  lemma Behind(sink: seq<Byte>, written: seq<Message>, torn: seq<Byte>, bytes: seq<Byte>)
    requires sink == EncodeAll(written) + torn
    ensures sink + bytes == EncodeAll(written) + (torn + bytes)
  {
  }

  /** The writer's stream: the frames fully written, then what came from the first torn write on. */
  class FrameWriter {
    const maxMessageSize: nat
    var sink: seq<Byte>
    ghost var written: seq<Message>
    ghost var torn: seq<Byte>

    ghost predicate Valid()
      reads this
    {
      && maxMessageSize == DEFAULT_MAX_MESSAGE_SIZE
      && sink == EncodeAll(written) + torn
      && (forall m :: m in written ==> |m.payload| <= DEFAULT_MAX_MESSAGE_SIZE)
    }

    constructor ()
      ensures Valid() && sink == [] && written == [] && torn == []
    {
      maxMessageSize := DEFAULT_MAX_MESSAGE_SIZE;
      sink, written, torn := [], [], [];
      new;
      assert EncodeAll([]) == [];
    }

    /**
     `accepted` is how many bytes the connection took before it stopped; all of them is success.
     A write that follows a torn one goes out all the same, but behind the tear.
     */
    method WriteFrame(frame: Frame, accepted: nat) returns (ok: bool)
      requires Valid()
      modifies this`sink, this`written, this`torn
      ensures Valid()
      ensures ok <==> |frame.payload| <= DEFAULT_MAX_MESSAGE_SIZE && accepted >= |Wire(frame.Value())|
      ensures ok ==> sink == old(sink) + Wire(frame.Value())
      ensures !ok && |frame.payload| <= DEFAULT_MAX_MESSAGE_SIZE ==> sink == old(sink) + Wire(frame.Value())[..accepted]
      ensures |frame.payload| > DEFAULT_MAX_MESSAGE_SIZE ==> sink == old(sink) && torn == old(torn)
      ensures ok && old(torn) == [] ==> written == old(written) + [frame.Value()] && torn == []
      ensures !ok || old(torn) != [] ==> written == old(written) && old(torn) <= torn
    {
      if |frame.payload| > maxMessageSize {
        return false;
      }
      var data := frame.Marshal();
      if data.Err? {
        return false;
      }
      assert data.value == Wire(frame.Value());
      ok := accepted >= |data.value|;
      var bytes := data.value;
      if !ok {
        bytes := data.value[..accepted];
      }
      if ok && torn == [] {
        Whole(sink, written, frame.Value());
        written := written + [frame.Value()];
      } else {
        Behind(sink, written, torn, bytes);
        torn := torn + bytes;
      }
      sink := sink + bytes;
    }
  }

  /** Whatever a writer wrote, a reader gets back: the same messages, in order, and then only the torn tail. */
  lemma WrittenIsRead(writer: FrameWriter)
    requires writer.Valid() && (forall m :: m in writer.written ==> m.version == PROTOCOL_VERSION)
    ensures ReadMany(writer.sink, DEFAULT_MAX_MESSAGE_SIZE, |writer.written|) == Cut(writer.written, writer.torn)
  {
    StreamExactly(writer.sink, DEFAULT_MAX_MESSAGE_SIZE, writer.written, writer.torn);
  }
}
