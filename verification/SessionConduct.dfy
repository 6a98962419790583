/**
 How the server treats each client frame: which frames it serves and with what, what it rejects, which
 mode it subscribes to, why a conversation ends, and how many error replies explain that end.
 */
module SessionConduct {
  import opened Options
  import Q = WriteQueue
  import QP = WriteQueueProofs
  import opened Session
  import opened SessionProofs
  import opened SessionTheorems

  // ----- Frames that are served -----

  predicate AsksForMode(frame: ClientFrame) {
    frame.Subscribe? && frame.mode.Some?
  }

  /** The right credentials first; after that valid heartbeats and the first valid subscription. */
  ghost predicate Served(frames: seq<ClientFrame>, i: nat)
    requires i < |frames|
  {
    if i == 0 then frames[0] == Auth(true)
    else frames[i] == Heartbeat(true) || (AsksForMode(frames[i]) && NoneAsked(frames, i))
  }

  ghost predicate NoneAsked(frames: seq<ClientFrame>, i: nat)
    requires i <= |frames|
  {
    forall j :: 0 < j < i ==> !AsksForMode(frames[j])
  }

  ghost predicate ServedUpTo(frames: seq<ClientFrame>, n: nat)
    requires n <= |frames|
  {
    forall i :: 0 <= i < n ==> Served(frames, i)
  }

  /** The mode asked for by the first valid subscription after the first frame. */
  function FirstMode(frames: seq<ClientFrame>): Option<Mode> {
    if |frames| <= 1 then None else
      var earlier, last := FirstMode(frames[..|frames| - 1]), frames[|frames| - 1];
      if earlier.Some? then earlier else if last.Subscribe? then last.mode else None
  }

  lemma {:induction false} FirstModeNone(frames: seq<ClientFrame>)
    ensures FirstMode(frames).None? <==> NoneAsked(frames, |frames|)
    decreases |frames|
  {
    if |frames| > 1 {
      FirstModeNone(frames[..|frames| - 1]);
      assert frames[..|frames| - 1] + [frames[|frames| - 1]] == frames;
    }
  }

  lemma {:induction false} FirstModeMeaning(frames: seq<ClientFrame>, mode: Mode)
    ensures FirstMode(frames) == Some(mode)
       <==> exists i :: 0 < i < |frames| && frames[i] == Subscribe(Some(mode)) && NoneAsked(frames, i)
    decreases |frames|
  {
    if |frames| > 1 {
      var front, last := frames[..|frames| - 1], frames[|frames| - 1];
      assert frames == front + [last];
      FirstModeMeaning(front, mode);
      FirstModeNone(front);
      if FirstMode(front) == Some(mode) {
        var i :| 0 < i < |front| && front[i] == Subscribe(Some(mode)) && NoneAsked(front, i);
        assert frames[i] == Subscribe(Some(mode)) && NoneAsked(frames, i);
      }
      forall i | 0 < i < |front| && frames[i] == Subscribe(Some(mode)) && NoneAsked(frames, i)
        ensures FirstMode(front) == Some(mode)
      {
        assert front[i] == Subscribe(Some(mode)) && NoneAsked(front, i);
      }
      if FirstMode(front).None? && last == Subscribe(Some(mode)) {
        assert frames[|front|] == last && NoneAsked(frames, |front|);
      }
      if frames[|front|] == Subscribe(Some(mode)) && NoneAsked(frames, |front|) {
        assert NoneAsked(front, |front|);
      }
    }
  }

  /** One more frame does not change how the earlier ones are judged. */
  lemma ServedBefore(frames: seq<ClientFrame>, frame: ClientFrame, i: nat)
    requires i < |frames|
    ensures Served(frames + [frame], i) <==> Served(frames, i)
  {
    var longer := frames + [frame];
    assert forall j :: 0 <= j <= i ==> longer[j] == frames[j];
    assert NoneAsked(longer, i) <==> NoneAsked(frames, i);
  }

  lemma ServedNext(frames: seq<ClientFrame>, frame: ClientFrame)
    requires frames != [] && ServedUpTo(frames, |frames|)
    ensures ServedUpTo(frames + [frame], |frames|)
    ensures Served(frames + [frame], |frames|)
       <==> frame == Heartbeat(true) || (AsksForMode(frame) && FirstMode(frames).None?)
    ensures FirstMode(frames + [frame])
         == if FirstMode(frames).Some? then FirstMode(frames) else if frame.Subscribe? then frame.mode else None
  {
    forall i: nat | i < |frames| ensures Served(frames + [frame], i) {
      ServedBefore(frames, frame, i);
    }
    FirstModeNone(frames);
    assert (frames + [frame])[..|frames|] == frames;
  }

  // ----- What the goroutine has done with them -----

  /** The goroutine is past some frame that ended the conversation, or ended it for another cause. */
  ghost predicate Ended(consumed: seq<ClientFrame>, cause: Cause) {
    && cause != NoCause
    && (|consumed| > 0 ==> ServedUpTo(consumed, |consumed| - 1))
    && (cause == Rejected <==> |consumed| > 0 && !Served(consumed, |consumed| - 1))
    && (cause.NotTaken? ==> |consumed| > 0 && cause.reply == ReplyTo(consumed[|consumed| - 1]))
  }

  ghost predicate Conduct(consumed: seq<ClientFrame>, subscription: Option<Mode>, main: Main, cause: Cause) {
    && subscription == FirstMode(consumed)
    && match main
       case Start => consumed == [] && cause == NoCause
       case Looping => consumed != [] && ServedUpTo(consumed, |consumed|) && cause == NoCause
       case Done => Ended(consumed, cause)
       case Sending(frame, next) =>
         if Ending(main) then
           && frame.ErrorReply? && Ended(consumed, cause)
           && (next.Explained? ==> cause == Rejected && |consumed| > 1 && consumed[|consumed| - 1].Subscribe?)
         else
           && consumed != [] && ServedUpTo(consumed, |consumed|) && cause == NoCause
           && frame == ReplyTo(consumed[|consumed| - 1])
           && frame == (if next.AuthAcked? then AuthAck else if next.Ponged? then Pong else SubscribeAck)
  }

  ghost predicate Conducted(s: State) {
    Conduct(s.consumed, s.subscription, s.main, s.cause)
  }

  /** What the goroutine turns to on its first frame, and on a later one. */
  function FirstTurn(frame: ClientFrame): (Main, Cause) {
    if frame.Unreadable? then (Done, Rejected)
    else if frame == Auth(true) then (Sending(AuthAck, AuthAcked), NoCause)
    else (Sending(ErrorReply, ThenDone), Rejected)
  }

  function NextTurn(frame: ClientFrame, subscription: Option<Mode>): (Main, Cause) {
    if frame == Heartbeat(true) then (Sending(Pong, Ponged), NoCause)
    else if AsksForMode(frame) && subscription.None? then (Sending(SubscribeAck, Subscribed), NoCause)
    else if frame.Subscribe? then (Sending(ErrorReply, Explained), Rejected)
    else (Sending(ErrorReply, ThenDone), Rejected)
  }

  lemma FirstTaken(s: State, frame: ClientFrame)
    requires !s.q.panicked && CanCall(s, MAIN) && s.cause == NoCause
    ensures var t := ProcessFirst(s, frame);
            (t.main, t.cause) == FirstTurn(frame) && t.consumed == s.consumed && t.subscription == s.subscription
  {
  }

  lemma NextTaken(s: State, frame: ClientFrame)
    requires !s.q.panicked && CanCall(s, MAIN) && s.cause == NoCause
    ensures var t := Process(s, frame);
            && (t.main, t.cause) == NextTurn(frame, s.subscription) && t.consumed == s.consumed
            && t.subscription == if AsksForMode(frame) && s.subscription.None? then frame.mode else s.subscription
  {
  }

  lemma ConductFirst(frame: ClientFrame)
    ensures Conduct([frame], None, FirstTurn(frame).0, FirstTurn(frame).1)
  {
  }

  lemma ConductNext(consumed: seq<ClientFrame>, frame: ClientFrame)
    requires consumed != [] && ServedUpTo(consumed, |consumed|)
    ensures var subscription, turn := FirstMode(consumed), NextTurn(frame, FirstMode(consumed));
            Conduct(consumed + [frame],
                    if AsksForMode(frame) && subscription.None? then frame.mode else subscription, turn.0, turn.1)
  {
    ServedNext(consumed, frame);
    assert (consumed + [frame])[|consumed|] == frame;
    if Served(consumed + [frame], |consumed|) {
      assert ServedUpTo(consumed + [frame], |consumed| + 1);
    }
  }

  lemma ConductedFirst(s: State, frame: ClientFrame)
    requires Conducted(s) && !s.q.panicked && CanCall(s, MAIN) && s.main.Start?
    ensures Conducted(ProcessFirst(s.(consumed := s.consumed + [frame]), frame))
  {
    assert s.consumed + [frame] == [frame];
    FirstTaken(s.(consumed := [frame]), frame);
    ConductFirst(frame);
  }

  lemma ConductedNext(s: State, frame: ClientFrame)
    requires Conducted(s) && !s.q.panicked && CanCall(s, MAIN) && s.main.Looping?
    ensures Conducted(Process(s.(consumed := s.consumed + [frame]), frame))
  {
    NextTaken(s.(consumed := s.consumed + [frame]), frame);
    ConductNext(s.consumed, frame);
  }

  lemma ConductedStep(s: State, m: Move)
    requires Conducted(s) && Enabled(s, m)
    ensures Conducted(Step(s, m))
  {
    match m {
      case FirstFrame(f) => ConductedFirst(s, f);
      case NextFrame(f) => ConductedNext(s, f);
      case _ =>
    }
  }

  // ----- Error replies -----

  function Errors(frames: seq<Out>): nat {
    if frames == [] then 0 else Errors(frames[..|frames| - 1]) + (if frames[|frames| - 1].ErrorReply? then 1 else 0)
  }

  lemma ErrorsAppend(frames: seq<Out>, frame: Out)
    ensures Errors(frames + [frame]) == Errors(frames) + (if frame.ErrorReply? then 1 else 0)
  {
    assert (frames + [frame])[..|frames|] == frames;
  }

  /** How many error replies an end calls for: a rejected subscription two, most others one. */
  function Owed(cause: Cause, consumed: seq<ClientFrame>): nat {
    match cause
    case NoCause => 0
    case Stopped => 0
    case TimedOut => 1
    case NotTaken(reply) => if reply.AuthAck? then 0 else 1
    case Rejected =>
      if consumed == [Unreadable] then 0
      else if |consumed| > 1 && consumed[|consumed| - 1].Subscribe? then 2 else 1
  }

  /** How many have been asked for so far. */
  ghost function Due(main: Main, cause: Cause, consumed: seq<ClientFrame>): nat {
    if !Ending(main) then 0 else if main.Sending? && main.next.Explained? then 1 else Owed(cause, consumed)
  }

  /** The error reply the goroutine is waiting for, as long as the queue has not taken it. */
  ghost function Outstanding(s: State): nat {
    if s.main.Sending? && s.main.frame.ErrorReply? && !Accepted(s.q, MAIN) then 1 else 0
  }

  /** Every error reply asked for was taken by the queue, was refused, or is being sent. */
  ghost predicate ErrorsKept(s: State) {
    Errors(Frames(s.q.enqueued)) + Errors(s.refusals) + Outstanding(s) == Due(s.main, s.cause, s.consumed)
  }

  lemma ErrorsQueue(s: State, a: Q.Action<Out>)
    requires Calls(s) && ErrorsKept(s) && Enabled(s, Queue(a))
    ensures ErrorsKept(Step(s, Queue(a)))
  {
    if !a.Send? {
      QuietQueueStep(s.q, a, MAIN, MainSends(s.main));
    } else if s.q.ChannelShut() {
      PanicStep(s.q, a.pid);
    } else {
      var frame := if a.pid == MAIN then s.main.frame else Batch(s.pending);
      SendCalls(s, a.pid, frame);
      ErrorsAppend(Frames(s.q.enqueued), frame);
    }
  }

  /** The goroutine asks for the next reply; none of its replies is outstanding before. */
  lemma ErrorsSend(s: State, frame: Out, next: Next)
    requires !s.q.panicked && CanCall(s, MAIN)
    requires Errors(Frames(s.q.enqueued)) + Errors(s.refusals) + (if frame.ErrorReply? then 1 else 0)
          == Due(Sending(frame, next), s.cause, s.consumed)
    ensures ErrorsKept(Send(s, frame, next))
  {
    CallStep(s.q, MAIN, frame);
  }

  lemma ErrorsFirst(s: State, frame: ClientFrame)
    requires Errors(Frames(s.q.enqueued)) + Errors(s.refusals) == 0 && s.consumed == [frame] && s.cause == NoCause
    requires !s.q.panicked && CanCall(s, MAIN)
    ensures ErrorsKept(ProcessFirst(s, frame))
  {
    match frame {
      case Unreadable =>
      case Auth(true) => ErrorsSend(s, AuthAck, AuthAcked);
      case _ => ErrorsSend(s.(cause := Rejected), ErrorReply, ThenDone);
    }
  }

  lemma ErrorsNext(s: State, frame: ClientFrame)
    requires Errors(Frames(s.q.enqueued)) + Errors(s.refusals) == 0 && s.cause == NoCause
    requires |s.consumed| > 1 && s.consumed[|s.consumed| - 1] == frame
    requires !s.q.panicked && CanCall(s, MAIN)
    ensures ErrorsKept(Process(s, frame))
  {
    match frame {
      case Heartbeat(true) => ErrorsSend(s, Pong, Ponged);
      case Subscribe(Some(mode)) =>
        if s.subscription.Some? {
          ErrorsSend(s.(cause := Rejected), ErrorReply, Explained);
        } else {
          ErrorsSend(s.(subscription := Some(mode)), SubscribeAck, Subscribed);
        }
      case Subscribe(None) => ErrorsSend(s.(cause := Rejected), ErrorReply, Explained);
      case _ => ErrorsSend(s.(cause := Rejected), ErrorReply, ThenDone);
    }
  }

  /** The send is over: taken or refused, its reply is no longer outstanding. */
  lemma ErrorsSettled(s: State) returns (t: State)
    requires ErrorsKept(s) && Enabled(s, Resume)
    ensures var ok := s.q.producers[MAIN].ok;
            t == (if ok then s else s.(refusals := s.refusals + [s.main.frame]))
    ensures Errors(Frames(t.q.enqueued)) + Errors(t.refusals) == Due(s.main, s.cause, s.consumed)
  {
    ErrorsAppend(s.refusals, s.main.frame);
    t := if s.q.producers[MAIN].ok then s else s.(refusals := s.refusals + [s.main.frame]);
  }

  lemma ErrorsContinue(s: State, next: Next, ok: bool)
    requires Conducted(s) && Enabled(s, Resume) && next == s.main.next && ok == s.q.producers[MAIN].ok
    requires Errors(Frames(s.q.enqueued)) + Errors(s.refusals) == Due(s.main, s.cause, s.consumed)
    ensures ErrorsKept(Continue(s, next, ok))
  {
    match next {
      case ThenDone =>
      case Explained => ErrorsSend(s, ErrorReply, ThenDone);
      case AuthAcked =>
      case Ponged =>
        if !ok {
          ErrorsSend(s.(cause := NotTaken(Pong)), ErrorReply, ThenDone);
        }
      case Subscribed =>
        if !ok {
          ErrorsSend(s.(cause := NotTaken(SubscribeAck)), ErrorReply, ThenDone);
        }
    }
  }

  lemma ErrorsStep(s: State, m: Move)
    requires Calls(s) && Conducted(s) && ErrorsKept(s) && Enabled(s, m)
    ensures ErrorsKept(Step(s, m))
  {
    match m {
      case Queue(a) => ErrorsQueue(s, a);
      case FirstFrame(f) =>
        assert s.consumed + [f] == [f];
        ErrorsFirst(s.(consumed := s.consumed + [f]), f);
      case NextFrame(f) => ErrorsNext(s.(consumed := s.consumed + [f]), f);
      case AuthTimeout => ErrorsSend(s.(cause := TimedOut), ErrorReply, ThenDone);
      case HeartbeatTimeout => ErrorsSend(s.(cause := TimedOut), ErrorReply, ThenDone);
      case Resume =>
        var t := ErrorsSettled(s);
        ErrorsContinue(t, s.main.next, s.q.producers[MAIN].ok);
      case StartFlush => CallStep(s.q, DELIVERY, Batch(s.pending));
      case _ =>
    }
  }

  // ----- Every run -----

  lemma {:induction false} ConductRun(s: State, moves: seq<Move>)
    requires Sound(s) && Conducted(s) && ErrorsKept(s) && Valid(s, moves)
    ensures Conducted(Run(s, moves)) && ErrorsKept(Run(s, moves))
    decreases |moves|
  {
    if moves != [] {
      SoundStep(s, moves[0]);
      ConductedStep(s, moves[0]);
      ErrorsStep(s, moves[0]);
      ConductRun(Step(s, moves[0]), moves[1..]);
    }
  }

  lemma ReachableConduct(s: State)
    requires Reachable(s)
    ensures Conducted(s) && ErrorsKept(s)
  {
    var capacity: nat, timeout: nat, now: int, moves: seq<Move> :|
      Valid(Initial(capacity, timeout, now), moves) && Run(Initial(capacity, timeout, now), moves) == s;
    InvariantInitial(capacity, timeout, now);
    assert Frames([]) == [];
    ConductRun(Initial(capacity, timeout, now), moves);
  }

  /**
   Every frame but possibly the last one received was to be served, the last one too while the
   goroutine goes on, and the conversation is ended for a rejected frame exactly if it was not.
   */
  lemma ServedExactly(s: State)
    requires Reachable(s)
    ensures |s.consumed| > 0 ==> ServedUpTo(s.consumed, |s.consumed| - 1)
    ensures s.main.Looping? ==> ServedUpTo(s.consumed, |s.consumed|)
    ensures s.cause == Rejected <==> |s.consumed| > 0 && !Served(s.consumed, |s.consumed| - 1)
    ensures s.main.Done? ==> s.cause != NoCause
  {
    ReachableConduct(s);
  }

  /** The subscription is the one the first valid request after authentication asked for. */
  lemma SubscribedAsAsked(s: State, mode: Mode)
    requires Reachable(s)
    ensures s.subscription == Some(mode)
       <==> exists i :: 0 < i < |s.consumed| && s.consumed[i] == Subscribe(Some(mode)) && NoneAsked(s.consumed, i)
  {
    ReachableConduct(s);
    FirstModeMeaning(s.consumed, mode);
  }

  /** Once the goroutine has ended, the error replies taken and refused are exactly those its end calls for. */
  lemma ErrorsExactly(s: State)
    requires Reachable(s) && s.main.Done?
    ensures Errors(Frames(s.q.enqueued)) + Errors(s.refusals) == Owed(s.cause, s.consumed)
  {
    ReachableConduct(s);
  }

  // ----- Rejected frames are not answered -----

  ghost function Answers(s: State): seq<Out> {
    QP.Filter(Frames(s.q.enqueued), IsAnswer)
  }

  ghost predicate NotAnswered(s: State) {
    s.cause == Rejected ==>
      Ending(s.main) && |s.consumed| > 0 && Answers(s) == RepliesTo(s.consumed[..|s.consumed| - 1])
  }

  lemma AnswersQueue(s: State, a: Q.Action<Out>)
    requires Calls(s) && Conducted(s) && Ending(s.main) && Enabled(s, Queue(a))
    ensures Answers(Step(s, Queue(a))) == Answers(s)
  {
    if !a.Send? {
      QuietQueueStep(s.q, a, MAIN, MainSends(s.main));
    } else if s.q.ChannelShut() {
      PanicStep(s.q, a.pid);
    } else {
      var frame := if a.pid == MAIN then s.main.frame else Batch(s.pending);
      SendCalls(s, a.pid, frame);
      QP.FilterAppend(Frames(s.q.enqueued), frame, IsAnswer);
    }
  }

  lemma SendKeeps(s: State, frame: Out, next: Next)
    requires !s.q.panicked && CanCall(s, MAIN)
    ensures Send(s, frame, next).q.enqueued == s.q.enqueued
  {
    CallStep(s.q, MAIN, frame);
  }

  lemma FirstKeeps(s: State, frame: ClientFrame)
    requires !s.q.panicked && CanCall(s, MAIN)
    ensures ProcessFirst(s, frame).q.enqueued == s.q.enqueued
  {
    SendKeeps(s, AuthAck, AuthAcked);
    SendKeeps(s.(cause := Rejected), ErrorReply, ThenDone);
  }

  lemma NextKeeps(s: State, frame: ClientFrame)
    requires !s.q.panicked && CanCall(s, MAIN)
    ensures Process(s, frame).q.enqueued == s.q.enqueued
  {
    match frame {
      case Heartbeat(true) => SendKeeps(s, Pong, Ponged);
      case Subscribe(Some(mode)) =>
        SendKeeps(s.(cause := Rejected), ErrorReply, Explained);
        SendKeeps(s.(subscription := Some(mode)), SubscribeAck, Subscribed);
      case Subscribe(None) => SendKeeps(s.(cause := Rejected), ErrorReply, Explained);
      case _ => SendKeeps(s.(cause := Rejected), ErrorReply, ThenDone);
    }
  }

  lemma ContinueKeeps(s: State, next: Next, ok: bool)
    requires !s.q.panicked && CanCall(s, MAIN)
    ensures Continue(s, next, ok).q.enqueued == s.q.enqueued
  {
    SendKeeps(s, ErrorReply, ThenDone);
    SendKeeps(s.(cause := NotTaken(Pong)), ErrorReply, ThenDone);
    SendKeeps(s.(cause := NotTaken(SubscribeAck)), ErrorReply, ThenDone);
  }

  /** Every move but a queue step leaves the enqueued frames alone. */
  lemma OnlyQueueEnqueues(s: State, m: Move)
    requires Enabled(s, m) && !m.Queue?
    ensures Step(s, m).q.enqueued == s.q.enqueued
  {
    match m {
      case FirstFrame(f) => FirstKeeps(s.(consumed := s.consumed + [f]), f);
      case NextFrame(f) => NextKeeps(s.(consumed := s.consumed + [f]), f);
      case AuthTimeout => SendKeeps(s.(cause := TimedOut), ErrorReply, ThenDone);
      case HeartbeatTimeout => SendKeeps(s.(cause := TimedOut), ErrorReply, ThenDone);
      case Resume =>
        ContinueKeeps(s, s.main.next, s.q.producers[MAIN].ok);
        ContinueKeeps(s.(refusals := s.refusals + [s.main.frame]), s.main.next, s.q.producers[MAIN].ok);
      case StartFlush => CallStep(s.q, DELIVERY, Batch(s.pending));
      case _ =>
    }
  }

  /** Only a frame is a reason for a rejection, and only frames are consumed. */
  lemma RejectedByFrame(s: State, m: Move)
    requires Conducted(s) && Enabled(s, m) && !m.FirstFrame? && !m.NextFrame?
    ensures Step(s, m).cause == Rejected ==> s.cause == Rejected
    ensures Step(s, m).consumed == s.consumed
  {
  }

  lemma EndedByCause(s: State)
    requires Conducted(s) && s.cause != NoCause
    ensures Ending(s.main)
  {
  }

  /** A frame is consumed only when all those before it have been answered. */
  lemma AnsweredBefore(s: State, m: Move)
    requires Conducted(s) && Responsive(s) && Enabled(s, m) && (m.FirstFrame? || m.NextFrame?)
    ensures Answers(s) == RepliesTo(s.consumed) && Step(s, m).consumed == s.consumed + [m.frame]
  {
    if m.FirstFrame? {
      assert RepliesTo([]) == [];
      FirstTaken(s.(consumed := s.consumed + [m.frame]), m.frame);
    } else {
      NextTaken(s.(consumed := s.consumed + [m.frame]), m.frame);
    }
  }

  lemma NotAnsweredStep(s: State, m: Move)
    requires Calls(s) && Conducted(s) && Responsive(s) && NotAnswered(s) && Enabled(s, m)
    ensures NotAnswered(Step(s, m))
  {
    var t := Step(s, m);
    ConductedStep(s, m);
    if t.cause == Rejected {
      EndedByCause(t);
      if m.Queue? {
        RejectedByFrame(s, m);
        AnswersQueue(s, m.action);
      } else {
        OnlyQueueEnqueues(s, m);
        if m.FirstFrame? || m.NextFrame? {
          AnsweredBefore(s, m);
          assert (s.consumed + [m.frame])[..|s.consumed|] == s.consumed;
        } else {
          RejectedByFrame(s, m);
        }
      }
    }
  }

  lemma {:induction false} NotAnsweredRun(s: State, moves: seq<Move>)
    requires Sound(s) && Conducted(s) && Responsive(s) && NotAnswered(s) && Valid(s, moves)
    ensures Responsive(Run(s, moves)) && NotAnswered(Run(s, moves))
    decreases |moves|
  {
    if moves != [] {
      SoundStep(s, moves[0]);
      ConductedStep(s, moves[0]);
      ResponsiveStep(s, moves[0]);
      NotAnsweredStep(s, moves[0]);
      NotAnsweredRun(Step(s, moves[0]), moves[1..]);
    }
  }

  lemma ReachableAnswers(s: State)
    requires Reachable(s)
    ensures Responsive(s) && NotAnswered(s)
  {
    var capacity: nat, timeout: nat, now: int, moves: seq<Move> :|
      Valid(Initial(capacity, timeout, now), moves) && Run(Initial(capacity, timeout, now), moves) == s;
    InvariantInitial(capacity, timeout, now);
    assert Frames([]) == [];
    NotAnsweredRun(Initial(capacity, timeout, now), moves);
  }

  /** Each pong or acknowledgement answers a frame that was to be served, with the reply that belongs to it. */
  lemma AnsweredServed(s: State, i: nat)
    requires Reachable(s) && i < |Answers(s)|
    ensures i < |s.consumed| && Served(s.consumed, i) && Answers(s)[i] == ReplyTo(s.consumed[i])
  {
    ReachableConduct(s);
    ReachableAnswers(s);
    AnsweredInOrder(s);
    ServedExactly(s);
  }

  /** In particular only the right credentials, as the first frame, are acknowledged. */
  lemma AcknowledgedCredentials(s: State)
    requires Reachable(s) && AuthAck in Frames(s.q.enqueued)
    ensures |s.consumed| > 0 && s.consumed[0] == Auth(true)
  {
    QP.FilterMember(Frames(s.q.enqueued), IsAnswer, AuthAck);
    AnsweredServed(s, 0);
  }

  // ----- Causes -----

  lemma CauseStays(s: State, m: Move)
    requires Conducted(s) && Enabled(s, m)
    ensures s.cause != NoCause ==> Step(s, m).cause == s.cause
    ensures s.cause == NoCause ==>
              && (Step(s, m).cause == TimedOut <==> m.AuthTimeout? || m.HeartbeatTimeout?)
              && (Step(s, m).cause == Stopped <==> m.StopReading?)
    ensures m.AuthTimeout? || m.HeartbeatTimeout? || m.StopReading? ==> s.cause == NoCause
  {
  }

  lemma {:induction false} CauseRun(s: State, moves: seq<Move>)
    requires Conducted(s) && Valid(s, moves)
    ensures Run(s, moves).cause == TimedOut
       <==> s.cause == TimedOut || exists i :: 0 <= i < |moves| && (moves[i].AuthTimeout? || moves[i].HeartbeatTimeout?)
    ensures Run(s, moves).cause == Stopped
       <==> s.cause == Stopped || exists i :: 0 <= i < |moves| && moves[i].StopReading?
    decreases |moves|
  {
    if moves != [] {
      CauseStays(s, moves[0]);
      ConductedStep(s, moves[0]);
      CauseRun(Step(s, moves[0]), moves[1..]);
      assert forall i :: 0 < i < |moves| ==> moves[i] == moves[1..][i - 1];
    }
  }
}
