/**
 The codec under the session: what a client that reads the connection's bytes frame by frame gets to
 see. How a reply becomes a message and back is left open; it only has to be undone by the client.
 */
module EndToEnd {
  import opened Crc32c
  import opened Codec = Frames
  import opened FrameStream
  import QP = WriteQueueProofs
  import S = Session
  import P = SessionProofs
  import opened SessionTheorems

  function Rendered(frames: seq<S.Out>, render: S.Out -> Message): (ms: seq<Message>)
    ensures |ms| == |frames| && forall i :: 0 <= i < |ms| ==> ms[i] == render(frames[i])
  {
    seq(|frames|, i requires 0 <= i < |frames| => render(frames[i]))
  }

  function Parsed(ms: seq<Message>, parse: Message -> S.Out): (frames: seq<S.Out>)
    ensures |frames| == |ms| && forall i :: 0 <= i < |ms| ==> frames[i] == parse(ms[i])
  {
    seq(|ms|, i requires 0 <= i < |ms| => parse(ms[i]))
  }

  /** The bytes of the frames written, then whatever a failed write left of one more. */
  function Bytes(s: S.State, render: S.Out -> Message, torn: seq<Byte>): seq<Byte> {
    EncodeAll(Rendered(P.Frames(s.q.wire), render)) + torn
  }

  /** What a client makes of the first frames in a stream. */
  function Seen(input: seq<Byte>, limit: nat, count: nat, parse: Message -> S.Out): seq<S.Out> {
    match ReadMany(input, limit, count)
    case Cut(ms, _) => Parsed(ms, parse)
    case Stuck => []
  }

  /** Every frame on the wire fits the client's limit and is undone by its parser. */
  ghost predicate Understood(s: S.State, render: S.Out -> Message, parse: Message -> S.Out, limit: nat) {
    forall x :: x in s.q.wire ==> Readable(render(x.frame), limit) && parse(render(x.frame)) == x.frame
  }

  /** The client sees exactly the frames written, in order, and is left with the torn tail. */
  lemma ClientSees(s: S.State, render: S.Out -> Message, parse: Message -> S.Out, limit: nat, torn: seq<Byte>)
    requires Understood(s, render, parse, limit)
    ensures ReadMany(Bytes(s, render, torn), limit, |s.q.wire|) == Cut(Rendered(P.Frames(s.q.wire), render), torn)
    ensures Seen(Bytes(s, render, torn), limit, |s.q.wire|, parse) == P.Frames(s.q.wire)
  {
    var frames := P.Frames(s.q.wire);
    var ms := Rendered(frames, render);
    forall i | 0 <= i < |frames| ensures Readable(ms[i], limit) && parse(ms[i]) == frames[i] {
      assert s.q.wire[i] in s.q.wire;
    }
    StreamExactly(Bytes(s, render, torn), limit, ms, torn);
    assert Parsed(ms, parse) == frames;
  }

  /** In every run the ticks the client reads off the bytes are in generation order, each at most once. */
  lemma ClientTicks(s: S.State, render: S.Out -> Message, parse: Message -> S.Out, limit: nat, torn: seq<Byte>)
    requires P.Reachable(s) && s.subscription.Some? && Understood(s, render, parse, limit)
    ensures QP.Subsequence(P.Sent(Seen(Bytes(s, render, torn), limit, |s.q.wire|, parse)),
                           P.Numbered(s.produced, s.subscription.value))
  {
    ClientSees(s, render, parse, limit, torn);
    WireTicks(s);
  }

  /** No other reply comes before its acknowledgement, unless that missed its deadline. */
  ghost predicate AcknowledgedAt(s: S.State, seen: seq<S.Out>, k: nat) {
    && k < |seen|
    && (!seen[k].ErrorReply? && seen[k] != S.AuthAck ==> S.AuthAck in seen[..k] || MissedDeadline(s.q, S.AuthAck))
    && (seen[k].Batch? ==> S.SubscribeAck in seen[..k] || MissedDeadline(s.q, S.SubscribeAck))
  }

  lemma WireAcknowledged(s: S.State, k: nat)
    requires P.Reachable(s) && k < |s.q.wire|
    ensures AcknowledgedAt(s, P.Frames(s.q.wire), k)
  {
    WireOrder(s, k);
    var frames := P.Frames(s.q.wire);
    forall frame | WrittenBefore(s.q, k, frame) ensures frame in frames[..k] {
      var i :| 0 <= i < k && s.q.wire[i].frame == frame;
      assert frames[..k][i] == frame;
    }
  }

  /** In every run the replies the client reads off the bytes come in that order. */
  lemma ClientOrder(s: S.State, render: S.Out -> Message, parse: Message -> S.Out, limit: nat, torn: seq<Byte>, k: nat)
    requires P.Reachable(s) && k < |s.q.wire| && Understood(s, render, parse, limit)
    ensures AcknowledgedAt(s, Seen(Bytes(s, render, torn), limit, |s.q.wire|, parse), k)
  {
    ClientSees(s, render, parse, limit, torn);
    WireAcknowledged(s, k);
  }
}
