/** The promises of a session, for every run, interleaving and client behaviour. */
module SessionTheorems {
  import opened Options
  import Q = WriteQueue
  import QP = WriteQueueProofs
  import opened Session
  import opened SessionProofs

  // ----- The order of the conversation -----

  lemma {:induction false} HeardPrefix(frames: seq<Out>, n: nat)
    requires n <= |frames| && Heard(frames) != Illegal
    ensures Heard(frames[..n]) != Illegal
    decreases |frames|
  {
    if n == |frames| {
      assert frames[..n] == frames;
    } else {
      var front := frames[..|frames| - 1];
      HeardPrefix(front, n);
      assert front[..n] == frames[..n];
    }
  }

  /** What the state of a legal conversation says about the frames that led to it. */
  lemma {:induction false} HeardMeaning(frames: seq<Out>)
    requires Heard(frames) != Illegal
    ensures Heard(frames).Fresh? <==> frames == []
    ensures Heard(frames).Open? ==> frames != [] && frames[0] == AuthAck
    ensures Heard(frames).Refused? ==> frames == [ErrorReply]
    ensures Heard(frames).Open? ==> (Heard(frames).subscribed <==> SubscribeAck in frames)
    ensures forall i, j :: 0 <= i < j < |frames| ==>
              frames[j] != AuthAck && !(frames[i].SubscribeAck? && frames[j].SubscribeAck?)
    decreases |frames|
  {
    if frames != [] {
      var front, last := frames[..|frames| - 1], frames[|frames| - 1];
      assert frames == front + [last];
      HeardMeaning(front);
      assert SubscribeAck in frames <==> SubscribeAck in front || last == SubscribeAck;
    }
  }

  /**
   No pong, acknowledgement or batch is accepted for sending before the authentication
   acknowledgement, no batch before the subscription acknowledgement, and neither acknowledgement
   twice.
   */
  lemma ReplyOrder(s: State, i: nat)
    requires Reachable(s) && i < |s.q.enqueued|
    ensures var frames := Frames(s.q.enqueued);
            && (!frames[i].ErrorReply? ==> frames[0] == AuthAck)
            && (frames[i].Batch? ==> SubscribeAck in frames[..i])
            && (forall j :: 0 <= j < i ==>
                  frames[i] != AuthAck && !(frames[i].SubscribeAck? && frames[j].SubscribeAck?))
  {
    LegalNow(s);
    var frames := Frames(s.q.enqueued);
    LegalAt(frames, i);
    HeardMeaning(frames);
    HeardMeaning(frames[..i]);
    assert i > 0 ==> frames[..i][0] == frames[0];
  }

  lemma LegalAt(frames: seq<Out>, i: nat)
    requires i < |frames| && Heard(frames) != Illegal
    ensures Heard(frames[..i]) != Illegal && Hear(Heard(frames[..i]), frames[i]) != Illegal
    ensures !frames[i].ErrorReply? ==> (frames[..i] == [] && frames[i] == AuthAck) || Heard(frames[..i]).Open?
    ensures frames[i].Batch? ==> Heard(frames[..i]).Open? && Heard(frames[..i]).subscribed
  {
    HeardPrefix(frames, i);
    HeardPrefix(frames, i + 1);
    assert frames[..i + 1][..i] == frames[..i] && frames[..i + 1][i] == frames[i];
    LegalFrame(frames[..i], frames[i]);
  }

  lemma LegalFrame(frames: seq<Out>, frame: Out)
    requires Heard(frames) != Illegal && Hear(Heard(frames), frame) != Illegal
    ensures !frame.ErrorReply? ==> (frames == [] && frame == AuthAck) || Heard(frames).Open?
    ensures frame.Batch? ==> Heard(frames).Open? && Heard(frames).subscribed
  {
    HeardMeaning(frames);
  }

  lemma LegalNow(s: State)
    requires Reachable(s)
    ensures Heard(Frames(s.q.enqueued)) != Illegal
  {
    ReachableSound(s);
    StandingLegal(Heard(Frames(s.q.enqueued)), s.main, s.main.Sending? && Accepted(s.q, MAIN),
                  !s.delivery.NotStarted?, s.generating, s.subscription.Some?);
  }

  lemma StandingLegal(t: Talk, main: Main, accepted: bool, started: bool, generating: bool, subscribed: bool)
    requires Standing(t, main, accepted, started, generating, subscribed)
    ensures t != Illegal
  {
  }

  // ----- On the wire -----

  /** Whatever was enqueued before a written item was written before it, or had passed its deadline. */
  lemma EarlierFates<F(!new)>(s: Q.State<F>, i: nat, j: nat)
    requires QP.Invariant(s) && i < j < |QP.Decided(s)| && QP.Decided(s)[j].fate == Q.Written
    ensures QP.Decided(s)[i].fate == Q.Written || QP.Decided(s)[i].fate == Q.Expired
  {
  }

  lemma WireIndex<F(!new)>(s: Q.State<F>, k: nat) returns (j: nat)
    requires QP.Invariant(s) && k < |s.wire|
    ensures j < |QP.Decided(s)| && QP.Decided(s)[j] == Q.Handled(s.wire[k], Q.Written)
    ensures QP.Items(QP.Filter(QP.Decided(s)[..j], QP.IsWritten)) == s.wire[..k]
  {
    var decided := QP.Decided(s);
    j := QP.FilterIndex(decided, QP.IsWritten, k);
    QP.FilterMember(decided, QP.IsWritten, decided[j]);
  }

  lemma DecidedFrames(q: Q.State<Out>)
    requires QP.Invariant(q)
    ensures |QP.Decided(q)| <= |q.enqueued|
    ensures forall i :: 0 <= i < |QP.Decided(q)| ==> QP.Decided(q)[i].item.frame == Frames(q.enqueued)[i]
  {
    QP.DecidedPrefix(q);
    forall i | 0 <= i < |QP.Decided(q)| ensures QP.Decided(q)[i].item.frame == Frames(q.enqueued)[i] {
      assert QP.Items(QP.Decided(q))[i] == q.enqueued[i];
    }
  }

  ghost predicate WrittenBefore(q: Q.State<Out>, k: nat, frame: Out)
    requires k <= |q.wire|
  {
    exists i :: 0 <= i < k && q.wire[i].frame == frame
  }

  ghost predicate MissedDeadline(q: Q.State<Out>, frame: Out) {
    exists h :: h in QP.Decided(q) && h.item.frame == frame && h.fate == Q.Expired && h.item.deadline < q.now
  }

  /** A frame decided before one that is on the wire is on the wire before it or missed its deadline. */
  lemma DecidedBefore(q: Q.State<Out>, k: nat, j: nat, i: nat)
    requires QP.Invariant(q) && k < |q.wire| && i < j < |QP.Decided(q)|
    requires QP.Decided(q)[j] == Q.Handled(q.wire[k], Q.Written)
    requires QP.Items(QP.Filter(QP.Decided(q)[..j], QP.IsWritten)) == q.wire[..k]
    ensures WrittenBefore(q, k, QP.Decided(q)[i].item.frame) || MissedDeadline(q, QP.Decided(q)[i].item.frame)
  {
    var decided := QP.Decided(q);
    EarlierFates(q, i, j);
    if decided[i].fate == Q.Written {
      assert decided[..j][i] == decided[i];
      QP.FilterMember(decided[..j], QP.IsWritten, decided[i]);
      var written := QP.Filter(decided[..j], QP.IsWritten);
      var m :| 0 <= m < |written| && written[m] == decided[i];
      assert QP.Items(written)[m] == q.wire[..k][m] == q.wire[m];
    }
  }

  /** Where a frame on the wire stood among the enqueued ones, and what became of those before it. */
  lemma WireFacts(s: State, k: nat) returns (j: nat)
    requires Reachable(s) && k < |s.q.wire|
    ensures j < |QP.Decided(s.q)| && QP.Decided(s.q)[j] == Q.Handled(s.q.wire[k], Q.Written)
    ensures j < |s.q.enqueued| && Frames(s.q.enqueued)[j] == s.q.wire[k].frame
    ensures forall i :: 0 <= i < j ==>
              WrittenBefore(s.q, k, Frames(s.q.enqueued)[i]) || MissedDeadline(s.q, Frames(s.q.enqueued)[i])
  {
    ReachableQueue(s);
    DecidedFrames(s.q);
    j := WireIndex(s.q, k);
    forall i | 0 <= i < j
      ensures WrittenBefore(s.q, k, Frames(s.q.enqueued)[i]) || MissedDeadline(s.q, Frames(s.q.enqueued)[i])
    {
      DecidedBefore(s.q, k, j, i);
    }
  }

  /**
   On the wire, too, no pong, acknowledgement or batch comes before the authentication
   acknowledgement, and no batch before the subscription acknowledgement, unless that
   acknowledgement waited in the queue until its deadline had passed.
   */
  lemma WireOrder(s: State, k: nat)
    requires Reachable(s) && k < |s.q.wire|
    ensures !s.q.wire[k].frame.ErrorReply? && s.q.wire[k].frame != AuthAck ==>
              WrittenBefore(s.q, k, AuthAck) || MissedDeadline(s.q, AuthAck)
    ensures s.q.wire[k].frame.Batch? ==> WrittenBefore(s.q, k, SubscribeAck) || MissedDeadline(s.q, SubscribeAck)
  {
    var j := WireFacts(s, k);
    var frames := Frames(s.q.enqueued);
    ReplyOrder(s, j);
    if frames[j].Batch? {
      var i :| 0 <= i < j && frames[..j][i] == SubscribeAck;
      assert frames[i] == SubscribeAck;
    }
  }

  lemma DecidedIndex(s: State, h: Q.Handled<Out>) returns (i: nat)
    requires Reachable(s) && h in QP.Decided(s.q)
    ensures i < |QP.Decided(s.q)| && QP.Decided(s.q)[i] == h
    ensures i < |s.q.enqueued| && Frames(s.q.enqueued)[i] == h.item.frame
  {
    ReachableQueue(s);
    DecidedFrames(s.q);
    i :| 0 <= i < |QP.Decided(s.q)| && QP.Decided(s.q)[i] == h;
  }

  /** An acknowledgement that is on the wire is the only one of its kind, so none missed its deadline. */
  lemma OnlyOne(s: State, m: nat, h: Q.Handled<Out>)
    requires Reachable(s) && m < |s.q.wire| && h in QP.Decided(s.q) && h.item.frame == s.q.wire[m].frame
    requires h.item.frame == AuthAck || h.item.frame == SubscribeAck
    ensures h.fate == Q.Written
  {
    var i := DecidedIndex(s, h);
    var j := WireFacts(s, m);
    ReplyOrder(s, if i < j then j else i);
  }

  /** The exception is exact: an acknowledgement that missed its deadline is never on the wire. */
  lemma MissedExactly(s: State, k: nat, frame: Out)
    requires Reachable(s) && k <= |s.q.wire| && (frame == AuthAck || frame == SubscribeAck)
    ensures !(WrittenBefore(s.q, k, frame) && MissedDeadline(s.q, frame))
  {
    forall m, h | 0 <= m < k && s.q.wire[m].frame == frame && h in QP.Decided(s.q) && h.item.frame == frame
      ensures h.fate == Q.Written
    {
      OnlyOne(s, m, h);
    }
  }

  lemma ReachableQueue(s: State)
    requires Reachable(s)
    ensures QP.Invariant(s.q)
  {
    ReachableInvariant(s);
  }

  // ----- The ticks -----

  /**
   From the generator to the write queue no tick is lost, repeated or reordered: the batches accepted
   for sending, then the pending batch, then the data channel, are TICK_0, TICK_1, ... without a gap,
   however many ticks were dropped at a full channel and however many sends failed.
   */
  lemma TicksConserved(s: State)
    requires Reachable(s) && s.subscription.Some?
    ensures Sent(Frames(s.q.enqueued)) + Unsent(s) + Flatten(s.channel) == Numbered(s.produced, s.subscription.value)
    ensures Sent(Frames(s.q.enqueued)) + Unsent(s) == Matching(s.taken, s.subscription)
  {
    ReachableSound(s);
    assert forall i :: 0 <= i < |s.taken| ==> s.taken[i] == s.entered[i];
    OfModeAll(s.taken, s.subscription.value);
  }

  lemma {:induction false} SentMember(frames: seq<Out>, i: nat, tick: Tick)
    requires i < |frames| && frames[i].Batch? && tick in frames[i].ticks
    ensures tick in Sent(frames)
    decreases |frames|
  {
    if i < |frames| - 1 {
      SentMember(frames[..|frames| - 1], i, tick);
    }
  }

  /** Every tick of every batch carries the connection's one mode. */
  lemma OneMode(s: State, i: nat, tick: Tick)
    requires Reachable(s) && i < |s.q.enqueued| && s.q.enqueued[i].frame.Batch? && tick in s.q.enqueued[i].frame.ticks
    ensures s.subscription.Some? && tick.mode == s.subscription.value && tick.number < s.produced
  {
    var frames := Frames(s.q.enqueued);
    SentMember(frames, i, tick);
    ReachableSound(s);
    assert s.subscription.Some?;
    TicksConserved(s);
    var k :| 0 <= k < |Sent(frames)| && Sent(frames)[k] == tick;
    assert tick == (Sent(frames) + Unsent(s) + Flatten(s.channel))[k];
  }

  lemma SubscriptionStep(s: State, m: Move)
    requires Enabled(s, m) && s.subscription.Some?
    ensures Step(s, m).subscription == s.subscription
  {
  }

  /** A subscription, once set, never changes. */
  lemma {:induction false} SubscriptionFixed(s: State, moves: seq<Move>)
    requires Valid(s, moves) && s.subscription.Some?
    ensures Run(s, moves).subscription == s.subscription
    decreases |moves|
  {
    if moves != [] {
      SubscriptionStep(s, moves[0]);
      SubscriptionFixed(Step(s, moves[0]), moves[1..]);
    }
  }

  lemma {:induction false} SentSubsequence(a: seq<Out>, b: seq<Out>)
    requires QP.Subsequence(a, b)
    ensures QP.Subsequence(Sent(a), Sent(b))
    decreases |b|
  {
    if a != [] {
      var front, last := b[..|b| - 1], b[|b| - 1];
      var more := if last.Batch? then last.ticks else [];
      if QP.Subsequence(a, front) {
        SentSubsequence(a, front);
        QP.SubsequenceExtend(Sent(a), Sent(front), more);
      } else {
        SentSubsequence(a[..|a| - 1], front);
        SubsequenceBoth(Sent(a[..|a| - 1]), Sent(front), more);
      }
    }
  }

  lemma {:induction false} SubsequenceBoth<T>(a: seq<T>, b: seq<T>, c: seq<T>)
    requires QP.Subsequence(a, b)
    ensures QP.Subsequence(a + c, b + c)
    decreases |c|
  {
    if c == [] {
      assert a + c == a && b + c == b;
    } else {
      var front, last := c[..|c| - 1], c[|c| - 1];
      SubsequenceBoth(a, b, front);
      QP.SubsequenceAppend(a + front, b + front, last);
      assert a + c == (a + front) + [last] && b + c == (b + front) + [last];
    }
  }

  lemma {:induction false} FramesSubsequence(a: seq<Q.Item<Out>>, b: seq<Q.Item<Out>>)
    requires QP.Subsequence(a, b)
    ensures QP.Subsequence(Frames(a), Frames(b))
    decreases |b|
  {
    if a != [] {
      var front := b[..|b| - 1];
      assert Frames(b)[..|b| - 1] == Frames(front);
      if QP.Subsequence(a, front) {
        FramesSubsequence(a, front);
      } else {
        FramesSubsequence(a[..|a| - 1], front);
        assert Frames(a)[..|a| - 1] == Frames(a[..|a| - 1]);
      }
    }
  }

  /** The ticks on the wire appear in generation order, each at most once. */
  lemma WireTicks(s: State)
    requires Reachable(s) && s.subscription.Some?
    ensures QP.Subsequence(Sent(Frames(s.q.wire)), Numbered(s.produced, s.subscription.value))
  {
    ReachableWire(s);
    FramesSubsequence(s.q.wire, s.q.enqueued);
    SentSubsequence(Frames(s.q.wire), Frames(s.q.enqueued));
    TicksConserved(s);
    var sent := Sent(Frames(s.q.enqueued));
    QP.SubsequenceExtend(Sent(Frames(s.q.wire)), sent, Unsent(s) + Flatten(s.channel));
    assert sent + (Unsent(s) + Flatten(s.channel)) == sent + Unsent(s) + Flatten(s.channel);
  }

  lemma ReachableWire(s: State)
    requires Reachable(s)
    ensures QP.Subsequence(s.q.wire, s.q.enqueued)
  {
    ReachableQueue(s);
    QP.WireSubsequence(s.q);
  }

  // ----- Requests and answers -----

  /** The goroutine is on its way out. */
  ghost predicate Ending(main: Main) {
    main.Done? || (main.Sending? && (main.next.ThenDone? || main.next.Explained?))
  }

  lemma {:induction false} EndingRun(s: State, moves: seq<Move>)
    requires Valid(s, moves) && Ending(s.main)
    ensures Ending(Run(s, moves).main) && Run(s, moves).consumed == s.consumed
    decreases |moves|
  {
    if moves != [] {
      EndingRun(Step(s, moves[0]), moves[1..]);
    }
  }

  lemma {:induction false} FailedEnds(s: State, moves: seq<Move>)
    requires Valid(s, moves) && (s.cause != NoCause ==> Ending(s.main))
    ensures Run(s, moves).cause != NoCause ==> Ending(Run(s, moves).main)
    decreases |moves|
  {
    if moves != [] {
      FailedEnds(Step(s, moves[0]), moves[1..]);
    }
  }

  /** After the first frame whose processing fails, or any other end, no further client frame is ever processed. */
  lemma NothingAfterFailure(s: State, moves: seq<Move>)
    requires Reachable(s) && s.cause != NoCause && Valid(s, moves)
    ensures Run(s, moves).consumed == s.consumed
  {
    var capacity: nat, timeout: nat, now: int, earlier: seq<Move> :|
      Valid(Initial(capacity, timeout, now), earlier) && Run(Initial(capacity, timeout, now), earlier) == s;
    FailedEnds(Initial(capacity, timeout, now), earlier);
    EndingRun(s, moves);
  }

  function ReplyTo(frame: ClientFrame): Out {
    match frame
    case Auth(accepted) => if accepted then AuthAck else ErrorReply
    case Heartbeat(valid) => if valid then Pong else ErrorReply
    case Subscribe(mode) => if mode.Some? then SubscribeAck else ErrorReply
    case Other => ErrorReply
    case Unreadable => ErrorReply
  }

  function RepliesTo(frames: seq<ClientFrame>): (r: seq<Out>)
    ensures |r| == |frames|
    ensures forall i :: 0 <= i < |r| ==> r[i] == ReplyTo(frames[i])
  {
    seq(|frames|, i requires 0 <= i < |frames| => ReplyTo(frames[i]))
  }

  predicate IsAnswer(frame: Out) {
    !frame.Batch? && !frame.ErrorReply?
  }

  /** Every frame answered, except possibly the last one received. */
  ghost predicate Answered(answers: seq<Out>, consumed: seq<ClientFrame>) {
    answers == RepliesTo(consumed) || (consumed != [] && answers == RepliesTo(consumed[..|consumed| - 1]))
  }

  ghost predicate Answering(answers: seq<Out>, consumed: seq<ClientFrame>, main: Main, accepted: bool) {
    match main
    case Start => answers == [] && consumed == []
    case Looping => answers == RepliesTo(consumed)
    case Done => Answered(answers, consumed)
    case Sending(frame, next) =>
      if Ending(main) then frame.ErrorReply? && Answered(answers, consumed)
      else
        && IsAnswer(frame) && consumed != [] && ReplyTo(consumed[|consumed| - 1]) == frame
        && (accepted ==> answers == RepliesTo(consumed))
        && (!accepted ==> answers == RepliesTo(consumed[..|consumed| - 1]))
  }

  ghost predicate Responsive(s: State) {
    Answering(QP.Filter(Frames(s.q.enqueued), IsAnswer), s.consumed, s.main, s.main.Sending? && Accepted(s.q, MAIN))
  }

  lemma RepliesLast(consumed: seq<ClientFrame>)
    requires consumed != []
    ensures RepliesTo(consumed) == RepliesTo(consumed[..|consumed| - 1]) + [ReplyTo(consumed[|consumed| - 1])]
  {
  }

  lemma ResponsiveMainSend(s: State)
    requires Calls(s) && Responsive(s) && Enabled(s, Queue(Q.Send(MAIN))) && !s.q.ChannelShut()
    ensures Responsive(Step(s, Queue(Q.Send(MAIN))))
  {
    SendCalls(s, MAIN, s.main.frame);
    QP.FilterAppend(Frames(s.q.enqueued), s.main.frame, IsAnswer);
    if s.consumed != [] {
      RepliesLast(s.consumed);
    }
  }

  lemma ResponsiveDeliverySend(s: State)
    requires Calls(s) && Responsive(s) && Enabled(s, Queue(Q.Send(DELIVERY))) && !s.q.ChannelShut()
    ensures Responsive(Step(s, Queue(Q.Send(DELIVERY))))
  {
    SendCalls(s, DELIVERY, Batch(s.pending));
    QP.FilterAppend(Frames(s.q.enqueued), Batch(s.pending), IsAnswer);
  }

  lemma ResponsiveQueue(s: State, a: Q.Action<Out>)
    requires Calls(s) && Responsive(s) && Enabled(s, Queue(a))
    ensures Responsive(Step(s, Queue(a)))
  {
    if !a.Send? {
      QuietQueueStep(s.q, a, MAIN, MainSends(s.main));
    } else if s.q.ChannelShut() {
      PanicStep(s.q, a.pid);
    } else if a.pid == MAIN {
      ResponsiveMainSend(s);
    } else {
      ResponsiveDeliverySend(s);
    }
  }

  lemma ResponsiveSend(s: State, frame: Out, next: Next)
    requires !s.q.panicked && CanCall(s, MAIN)
    requires Answering(QP.Filter(Frames(s.q.enqueued), IsAnswer), s.consumed, Sending(frame, next), false)
    ensures Responsive(Send(s, frame, next))
  {
    CallStep(s.q, MAIN, frame);
  }

  lemma ResponsiveFirst(s: State, frame: ClientFrame)
    requires Responsive(s) && !s.q.panicked && CanCall(s, MAIN) && s.main.Start?
    ensures Responsive(ProcessFirst(s.(consumed := s.consumed + [frame]), frame))
  {
    var u := s.(consumed := s.consumed + [frame]);
    assert u.consumed[..|u.consumed| - 1] == s.consumed;
    match frame {
      case Unreadable =>
      case Auth(true) => ResponsiveSend(u, AuthAck, AuthAcked);
      case _ => ResponsiveSend(u.(cause := Rejected), ErrorReply, ThenDone);
    }
  }

  /** The next frame is answered by the reply that belongs to it, or by an error reply. */
  lemma AnsweringNext(answers: seq<Out>, consumed: seq<ClientFrame>, frame: ClientFrame, main: Main)
    requires answers == RepliesTo(consumed) && main.Sending?
    requires Ending(main) ==> main.frame.ErrorReply?
    requires !Ending(main) ==> IsAnswer(main.frame) && ReplyTo(frame) == main.frame
    ensures Answering(answers, consumed + [frame], main, false)
  {
    assert (consumed + [frame])[..|consumed|] == consumed;
  }

  lemma ResponsiveReply(s: State, frame: ClientFrame, u: State, reply: Out, next: Next)
    requires Responsive(s) && !s.q.panicked && CanCall(s, MAIN) && s.main.Looping?
    requires u.q == s.q && u.consumed == s.consumed + [frame]
    requires Ending(Sending(reply, next)) ==> reply.ErrorReply?
    requires !Ending(Sending(reply, next)) ==> IsAnswer(reply) && ReplyTo(frame) == reply
    ensures Responsive(Send(u, reply, next))
  {
    AnsweringNext(QP.Filter(Frames(s.q.enqueued), IsAnswer), s.consumed, frame, Sending(reply, next));
    ResponsiveSend(u, reply, next);
  }

  lemma ResponsiveNext(s: State, frame: ClientFrame)
    requires Responsive(s) && !s.q.panicked && CanCall(s, MAIN) && s.main.Looping?
    ensures Responsive(Process(s.(consumed := s.consumed + [frame]), frame))
  {
    var u := s.(consumed := s.consumed + [frame]);
    match frame {
      case Heartbeat(true) => ResponsiveReply(s, frame, u, Pong, Ponged);
      case Subscribe(Some(mode)) =>
        if s.subscription.Some? {
          ResponsiveReply(s, frame, u.(cause := Rejected), ErrorReply, Explained);
        } else {
          ResponsiveReply(s, frame, u.(subscription := Some(mode)), SubscribeAck, Subscribed);
        }
      case Subscribe(None) => ResponsiveReply(s, frame, u.(cause := Rejected), ErrorReply, Explained);
      case _ => ResponsiveReply(s, frame, u.(cause := Rejected), ErrorReply, ThenDone);
    }
  }

  lemma ResponsiveContinue(s: State, next: Next, ok: bool)
    requires Responsive(s) && Enabled(s, Resume) && next == s.main.next && ok == s.q.producers[MAIN].ok
    ensures Responsive(Continue(s, next, ok))
  {
    match next {
      case Explained => ResponsiveSend(s, ErrorReply, ThenDone);
      case Ponged =>
        if !ok {
          ResponsiveSend(s.(cause := NotTaken(Pong)), ErrorReply, ThenDone);
        }
      case Subscribed =>
        if !ok {
          ResponsiveSend(s.(cause := NotTaken(SubscribeAck)), ErrorReply, ThenDone);
        }
      case _ =>
    }
  }

  lemma ResponsiveResume(s: State)
    requires Responsive(s) && Enabled(s, Resume)
    ensures Responsive(Step(s, Resume))
  {
    var ok := s.q.producers[MAIN].ok;
    if ok {
      ResponsiveContinue(s, s.main.next, ok);
    } else {
      ResponsiveContinue(s.(refusals := s.refusals + [s.main.frame]), s.main.next, ok);
    }
  }

  lemma ResponsiveStep(s: State, m: Move)
    requires Calls(s) && Responsive(s) && Enabled(s, m)
    ensures Responsive(Step(s, m))
  {
    match m {
      case Queue(a) => ResponsiveQueue(s, a);
      case FirstFrame(f) => ResponsiveFirst(s, f);
      case NextFrame(f) => ResponsiveNext(s, f);
      case AuthTimeout => ResponsiveSend(s.(cause := TimedOut), ErrorReply, ThenDone);
      case HeartbeatTimeout => ResponsiveSend(s.(cause := TimedOut), ErrorReply, ThenDone);
      case Resume => ResponsiveResume(s);
      case StartFlush => CallStep(s.q, DELIVERY, Batch(s.pending));
      case _ => assert Step(s, m).q == s.q;
    }
  }

  lemma {:induction false} ResponsiveRun(s: State, moves: seq<Move>)
    requires Invariant(s) && Responsive(s) && Valid(s, moves)
    ensures Responsive(Run(s, moves))
    decreases |moves|
  {
    if moves != [] {
      QueueInvariantStep(s, moves[0]);
      SoundStep(s, moves[0]);
      ResponsiveStep(s, moves[0]);
      ResponsiveRun(Step(s, moves[0]), moves[1..]);
    }
  }

  /**
   Requests are answered in order and one for one: the pongs and acknowledgements accepted for sending
   answer the client's frames in the order received, all of them while the loop is waiting for the
   next, all but possibly the last otherwise.
   */
  lemma AnsweredInOrder(s: State)
    requires Reachable(s)
    ensures Answered(QP.Filter(Frames(s.q.enqueued), IsAnswer), s.consumed)
    ensures s.main.Looping? ==> QP.Filter(Frames(s.q.enqueued), IsAnswer) == RepliesTo(s.consumed)
  {
    var capacity: nat, timeout: nat, now: int, moves: seq<Move> :|
      Valid(Initial(capacity, timeout, now), moves) && Run(Initial(capacity, timeout, now), moves) == s;
    InvariantInitial(capacity, timeout, now);
    ResponsiveRun(Initial(capacity, timeout, now), moves);
  }
}
