/**
 What every run of a session keeps: the order of the conversation, the numbering and conservation
 of ticks from the generator to the write queue, and one subscription with one mode.
 */
module SessionProofs {
  import opened Options
  import Q = WriteQueue
  import QP = WriteQueueProofs
  import opened Session

  // ----- The language of replies -----

  /** How far a conversation has got, judged by the frames accepted for sending. */
  datatype Talk = Fresh | Open(subscribed: bool, errors: nat) | Refused | Illegal

  /**
   The conversation as an automaton: an authentication acknowledgement or a single refusal first;
   then pongs; at most one subscription acknowledgement, batches only after it; from the first error
   reply on neither pong nor acknowledgement, and at most one further error reply.
   */
  function Hear(t: Talk, frame: Out): Talk {
    match frame
    case AuthAck => if t.Fresh? then Open(false, 0) else Illegal
    case Pong => if t.Open? && t.errors == 0 then t else Illegal
    case SubscribeAck => if t == Open(false, 0) then Open(true, 0) else Illegal
    case Batch(ticks) => if t.Open? && t.subscribed && ticks != [] then t else Illegal
    case ErrorReply =>
      if t.Fresh? then Refused
      else if t.Open? && t.errors < 2 then Open(t.subscribed, t.errors + 1)
      else Illegal
  }

  function Heard(frames: seq<Out>): Talk {
    if frames == [] then Fresh else Hear(Heard(frames[..|frames| - 1]), frames[|frames| - 1])
  }

  lemma HeardAppend(frames: seq<Out>, frame: Out)
    ensures Heard(frames + [frame]) == Hear(Heard(frames), frame)
  {
    assert (frames + [frame])[..|frames|] == frames;
  }

  function Frames(items: seq<Q.Item<Out>>): (r: seq<Out>)
    ensures |r| == |items|
    ensures forall i :: 0 <= i < |items| ==> r[i] == items[i].frame
  {
    seq(|items|, i requires 0 <= i < |items| => items[i].frame)
  }

  lemma FramesAppend(items: seq<Q.Item<Out>>, item: Q.Item<Out>)
    ensures Frames(items + [item]) == Frames(items) + [item.frame]
  {
  }

  // ----- Calls in progress -----

  /** A goroutine is inside an asynchronous send of `frame`, or that send has just returned. */
  ghost predicate InCall(p: Q.Producer<Out>, frame: Out) {
    match p
    case Called(f, sync) => f == frame && !sync
    case Open(f) => f == frame
    case Ready(f, sync) => f == frame && !sync
    case Stamped(i) => i.frame == frame && !i.done
    case Counted(i) => i.frame == frame && !i.done
    case BackingOut => true
    case Awaiting(_) => false
    case Returned(_) => true
  }

  /** A goroutine waits for its send exactly when its producer slot is busy with that frame. */
  ghost predicate Tied(producers: map<Q.Pid, Q.Producer<Out>>, p: Q.Pid, sending: Option<Out>) {
    if sending.Some? then p in producers && InCall(producers[p], sending.value)
    else p in producers ==> producers[p].Returned?
  }

  function MainSends(main: Main): Option<Out> {
    if main.Sending? then Some(main.frame) else None
  }

  function DeliverySends(delivery: Delivery, pending: seq<Tick>): Option<Out> {
    if delivery.Flushing? then Some(Batch(pending)) else None
  }

  ghost predicate Calls(s: State) {
    && s.q.producers.Keys <= {MAIN, DELIVERY}
    && Tied(s.q.producers, MAIN, MainSends(s.main))
    && Tied(s.q.producers, DELIVERY, DeliverySends(s.delivery, s.pending))
  }

  /** The send of goroutine `p` has succeeded and it has not taken note yet. */
  ghost predicate Accepted(q: Q.State<Out>, p: Q.Pid) {
    p in q.producers && q.producers[p] == Q.Returned(true)
  }

  /** Queue steps that are neither a call nor a send leave the log and every send's result alone. */
  lemma QuietQueueStep(q: Q.State<Out>, a: Q.Action<Out>, p: Q.Pid, sending: Option<Out>)
    requires Q.Enabled(q, a) && !a.Call? && !a.Send? && Tied(q.producers, p, sending)
    ensures var t := Q.Step(q, a);
            && t.producers.Keys == q.producers.Keys && Tied(t.producers, p, sending)
            && (Accepted(t, p) <==> Accepted(q, p)) && t.enqueued == q.enqueued
  {
    QuietLog(q, a);
    if p in q.producers {
      QuietProducer(q, a, p);
    }
  }

  lemma QuietLog(q: Q.State<Out>, a: Q.Action<Out>)
    requires Q.Enabled(q, a) && !a.Call? && !a.Send?
    ensures Q.Step(q, a).producers.Keys == q.producers.Keys && Q.Step(q, a).enqueued == q.enqueued
  {
  }

  lemma QuietProducer(q: Q.State<Out>, a: Q.Action<Out>, p: Q.Pid)
    requires Q.Enabled(q, a) && !a.Call? && !a.Send? && p in q.producers && !q.producers[p].Awaiting?
    ensures var before, after := q.producers[p], Q.Step(q, a).producers;
            && p in after && (forall frame :: InCall(before, frame) ==> InCall(after[p], frame))
            && (before.Returned? ==> after[p] == before) && (after[p] == Q.Returned(true) ==> before == after[p])
  {
  }

  /** A send of goroutine `p` that does not panic appends its frame and returns success. */
  lemma SendStep(q: Q.State<Out>, p: Q.Pid, frame: Out)
    requires Q.Enabled(q, Q.Send(p)) && !q.ChannelShut() && InCall(q.producers[p], frame)
    ensures var t := Q.Step(q, Q.Send(p));
            && t.producers == q.producers[p := Q.Returned(true)] && !Accepted(q, p)
            && t.enqueued == q.enqueued + [q.producers[p].item] && q.producers[p].item.frame == frame
  {
  }

  lemma PanicStep(q: Q.State<Out>, p: Q.Pid)
    requires Q.Enabled(q, Q.Send(p)) && q.ChannelShut()
    ensures Q.Step(q, Q.Send(p)) == q.(panicked := true)
  {
  }

  lemma CallStep(q: Q.State<Out>, p: Q.Pid, frame: Out)
    requires Q.Enabled(q, Q.Call(p, frame, false))
    ensures Q.Step(q, Q.Call(p, frame, false)) == q.(producers := q.producers[p := Q.Called(frame, false)])
  {
  }

  // ----- The conversation -----

  /** Where the conversation stands, for each point of the main goroutine. */
  ghost predicate Standing(t: Talk, main: Main, accepted: bool, started: bool, generating: bool, subscribed: bool) {
    && (generating ==> subscribed) && (subscribed ==> started)
    && match main
       case Start => !started && t.Fresh?
       case Looping => started && t == Open(generating, 0) && (subscribed ==> generating)
       case Done =>
         if started then t.Open? && t.subscribed == generating && t.errors <= 2 else t.Fresh? || t.Refused?
       case Sending(frame, next) =>
         if !started then
           || (frame.AuthAck? && next.AuthAcked? && t == (if accepted then Open(false, 0) else Fresh))
           || (frame.ErrorReply? && next.ThenDone? && t == (if accepted then Refused else Fresh))
         else
           || (frame.Pong? && next.Ponged? && t == Open(generating, 0) && (subscribed ==> generating))
           || (frame.SubscribeAck? && next.Subscribed? && t == Open(accepted, 0) && !generating && subscribed)
           || (frame.ErrorReply? && next.Explained? && t == Open(generating, if accepted then 1 else 0))
           || (frame.ErrorReply? && next.ThenDone? && t.Open? && t.subscribed == generating
               && t.errors <= (if accepted then 2 else 1))
  }

  ghost predicate Conversing(s: State) {
    Standing(Heard(Frames(s.q.enqueued)), s.main, s.main.Sending? && Accepted(s.q, MAIN),
             !s.delivery.NotStarted?, s.generating, s.subscription.Some?)
  }

  // ----- The flow of ticks -----

  function Numbered(n: nat, mode: Mode): (r: seq<Tick>)
    ensures |r| == n
    ensures forall i :: 0 <= i < n ==> r[i] == Tick(i, mode)
  {
    seq(n, i requires 0 <= i < n => Tick(i, mode))
  }

  function Flatten(batches: seq<seq<Tick>>): seq<Tick> {
    if batches == [] then [] else Flatten(batches[..|batches| - 1]) + batches[|batches| - 1]
  }

  lemma FlattenAppend(batches: seq<seq<Tick>>, batch: seq<Tick>)
    ensures Flatten(batches + [batch]) == Flatten(batches) + batch
  {
    assert (batches + [batch])[..|batches|] == batches;
  }

  lemma {:induction false} FlattenFirst(batches: seq<seq<Tick>>)
    requires batches != []
    ensures Flatten(batches) == batches[0] + Flatten(batches[1..])
    decreases |batches|
  {
    var front, last := batches[..|batches| - 1], batches[|batches| - 1];
    if front == [] {
      assert Flatten(front) == [] && batches[1..] == [];
    } else {
      FlattenFirst(front);
      var rest := Flatten(front[1..]);
      FlattenAppend(front[1..], last);
      assert batches[1..] == front[1..] + [last];
      assert (batches[0] + rest) + last == batches[0] + (rest + last);
    }
  }

  /** The ticks of all batches accepted for sending, in order. */
  function Sent(frames: seq<Out>): seq<Tick> {
    if frames == [] then [] else
      var last := frames[|frames| - 1];
      Sent(frames[..|frames| - 1]) + (if last.Batch? then last.ticks else [])
  }

  lemma SentAppend(frames: seq<Out>, frame: Out)
    ensures Sent(frames + [frame]) == Sent(frames) + (if frame.Batch? then frame.ticks else [])
  {
    assert (frames + [frame])[..|frames|] == frames;
  }

  /** Ticks taken off the channel, kept, and not yet accepted for sending. */
  ghost function Unsent(s: State): seq<Tick> {
    if s.delivery.Flushing? && Accepted(s.q, DELIVERY) then [] else s.pending
  }

  ghost predicate Flowing(s: State) {
    && (s.delivery.Flushing? ==> s.pending != [])
    && (!s.generating ==> s.produced == 0 && s.pending == [] && !s.delivery.Flushing?)
    && (s.generating ==> s.subscription.Some?)
    && (s.subscription.Some? ==> s.entered == Numbered(s.produced, s.subscription.value))
    && (s.subscription.None? ==> s.entered == [])
    && s.entered == s.taken + Flatten(s.channel)
  }

  ghost predicate Conserved(s: State) {
    Sent(Frames(s.q.enqueued)) + Unsent(s) == Matching(s.taken, s.subscription)
  }

  lemma {:induction false} OfModeConcat(a: seq<Tick>, b: seq<Tick>, mode: Mode)
    ensures OfMode(a + b, mode) == OfMode(a, mode) + OfMode(b, mode)
    decreases |b|
  {
    if b == [] {
      assert a + b == a;
    } else {
      var last := |b| - 1;
      assert (a + b)[..|a| + last] == a + b[..last];
      OfModeConcat(a, b[..last], mode);
    }
  }

  lemma {:induction false} OfModeAll(ticks: seq<Tick>, mode: Mode)
    requires forall i :: 0 <= i < |ticks| ==> ticks[i].mode == mode
    ensures OfMode(ticks, mode) == ticks
    decreases |ticks|
  {
    if ticks != [] {
      OfModeAll(ticks[..|ticks| - 1], mode);
      assert ticks == ticks[..|ticks| - 1] + [ticks[|ticks| - 1]];
    }
  }

  // ----- The invariant -----

  ghost predicate Sound(s: State) {
    Calls(s) && Conversing(s) && Flowing(s) && Conserved(s)
  }

  lemma QuietStep(s: State, a: Q.Action<Out>)
    requires Sound(s) && Enabled(s, Queue(a)) && !a.Send?
    ensures Sound(Step(s, Queue(a)))
  {
    QuietQueueStep(s.q, a, MAIN, MainSends(s.main));
    QuietQueueStep(s.q, a, DELIVERY, DeliverySends(s.delivery, s.pending));
  }

  /** Accepting the frame the main goroutine waits for moves the conversation on as expected. */
  lemma StandingAccepts(t: Talk, main: Main, started: bool, generating: bool, subscribed: bool)
    requires main.Sending? && Standing(t, main, false, started, generating, subscribed)
    ensures Standing(Hear(t, main.frame), main, true, started, generating, subscribed)
    ensures !main.frame.Batch?
  {
  }

  /** After an accepted send both goroutines are where their slots say, and the sender's has returned. */
  lemma SendCalls(s: State, p: Q.Pid, frame: Out)
    requires Calls(s) && Enabled(s, Queue(Q.Send(p))) && !s.q.ChannelShut() && InCall(s.q.producers[p], frame)
    ensures var t := Step(s, Queue(Q.Send(p)));
            && Calls(t) && Accepted(t.q, p) && !Accepted(s.q, p)
            && Frames(t.q.enqueued) == Frames(s.q.enqueued) + [frame]
            && t == s.(q := t.q)
            && (forall r :: r != p ==> (Accepted(t.q, r) <==> Accepted(s.q, r)))
  {
    SendStep(s.q, p, frame);
    FramesAppend(s.q.enqueued, s.q.producers[p].item);
  }

  lemma MainSendStep(s: State)
    requires Sound(s) && Enabled(s, Queue(Q.Send(MAIN))) && !s.q.ChannelShut()
    ensures Sound(Step(s, Queue(Q.Send(MAIN))))
  {
    var frames := Frames(s.q.enqueued);
    SendCalls(s, MAIN, s.main.frame);
    HeardAppend(frames, s.main.frame);
    SentAppend(frames, s.main.frame);
    StandingAccepts(Heard(frames), s.main, !s.delivery.NotStarted?, s.generating, s.subscription.Some?);
    assert Sent(frames) + [] == Sent(frames);
  }

  lemma StandingBatch(t: Talk, main: Main, accepted: bool, started: bool, generating: bool, subscribed: bool,
                      ticks: seq<Tick>)
    requires Standing(t, main, accepted, started, generating, subscribed) && generating && ticks != []
    ensures Hear(t, Batch(ticks)) == t
  {
  }

  lemma DeliverySendStep(s: State)
    requires Sound(s) && Enabled(s, Queue(Q.Send(DELIVERY))) && !s.q.ChannelShut()
    ensures Sound(Step(s, Queue(Q.Send(DELIVERY))))
  {
    var frames := Frames(s.q.enqueued);
    SendCalls(s, DELIVERY, Batch(s.pending));
    HeardAppend(frames, Batch(s.pending));
    SentAppend(frames, Batch(s.pending));
    StandingBatch(Heard(frames), s.main, s.main.Sending? && Accepted(s.q, MAIN),
                  !s.delivery.NotStarted?, s.generating, s.subscription.Some?, s.pending);
  }

  lemma QueueStep(s: State, a: Q.Action<Out>)
    requires Sound(s) && Enabled(s, Queue(a))
    ensures Sound(Step(s, Queue(a)))
  {
    if !a.Send? {
      QuietStep(s, a);
    } else if s.q.ChannelShut() {
      PanicStep(s.q, a.pid);
    } else if a.pid == MAIN {
      MainSendStep(s);
    } else {
      DeliverySendStep(s);
    }
  }

  /** The main goroutine enters a send; nothing of the queue's log or of the other goroutine changes. */
  lemma EnterSend(s: State, frame: Out, next: Next)
    requires Sound(s) && !s.q.panicked && CanCall(s, MAIN)
    requires Standing(Heard(Frames(s.q.enqueued)), Sending(frame, next), false,
                      !s.delivery.NotStarted?, s.generating, s.subscription.Some?)
    ensures Sound(Send(s, frame, next))
  {
    CallStep(s.q, MAIN, frame);
  }

  /** The main goroutine goes on without sending. */
  lemma GoOn(s: State, t: State)
    requires Sound(s) && CanCall(s, MAIN) && !t.main.Sending?
    requires t == s.(main := t.main, cause := t.cause, generating := t.generating, delivery := t.delivery)
    requires t.delivery == s.delivery || (s.delivery.NotStarted? && t.delivery.Waiting?)
    requires t.generating == s.generating || (s.subscription.Some? && !s.generating && s.produced == 0)
    requires Standing(Heard(Frames(s.q.enqueued)), t.main, false,
                      !t.delivery.NotStarted?, t.generating, t.subscription.Some?)
    ensures Sound(t)
  {
  }

  lemma EnterFail(s: State, cause: Cause)
    requires Sound(s) && !s.q.panicked && CanCall(s, MAIN)
    requires Standing(Heard(Frames(s.q.enqueued)), Sending(ErrorReply, ThenDone), false,
                      !s.delivery.NotStarted?, s.generating, s.subscription.Some?)
    ensures Sound(Fail(s, cause))
  {
    EnterSend(s.(cause := cause), ErrorReply, ThenDone);
  }

  lemma EnterSubscribe(s: State, mode: Mode)
    requires Sound(s) && !s.q.panicked && CanCall(s, MAIN) && s.main.Looping? && s.subscription.None?
    ensures Sound(Send(s.(subscription := Some(mode)), SubscribeAck, Subscribed))
  {
    CallStep(s.q, MAIN, SubscribeAck);
  }

  lemma ProcessFirstStep(s: State, frame: ClientFrame)
    requires Sound(s) && !s.q.panicked && s.main.Start? && CanCall(s, MAIN)
    ensures Sound(ProcessFirst(s, frame))
  {
    match frame {
      case Unreadable => GoOn(s, s.(main := Done, cause := Rejected));
      case Auth(true) => EnterSend(s, AuthAck, AuthAcked);
      case _ => EnterFail(s, Rejected);
    }
  }

  lemma ProcessStep(s: State, frame: ClientFrame)
    requires Sound(s) && !s.q.panicked && s.main.Looping? && CanCall(s, MAIN)
    ensures Sound(Process(s, frame))
  {
    match frame {
      case Heartbeat(true) => EnterSend(s, Pong, Ponged);
      case Subscribe(Some(mode)) =>
        if s.subscription.Some? {
          EnterSend(s.(cause := Rejected), ErrorReply, Explained);
        } else {
          EnterSubscribe(s, mode);
        }
      case Subscribe(None) => EnterSend(s.(cause := Rejected), ErrorReply, Explained);
      case _ => EnterFail(s, Rejected);
    }
  }

  lemma ContinueStep(s: State, next: Next, ok: bool)
    requires Sound(s) && Enabled(s, Resume) && next == s.main.next && ok == s.q.producers[MAIN].ok
    ensures Sound(Continue(s, next, ok))
  {
    match next {
      case ThenDone => GoOn(s, s.(main := Done));
      case Explained => EnterFail(s, s.cause);
      case AuthAcked =>
        if ok {
          GoOn(s, s.(main := Looping, delivery := Waiting));
        } else {
          GoOn(s, s.(main := Done, cause := NotTaken(AuthAck)));
        }
      case Ponged =>
        if ok {
          GoOn(s, s.(main := Looping));
        } else {
          EnterFail(s, NotTaken(Pong));
        }
      case Subscribed =>
        if ok {
          GoOn(s, s.(main := Looping, generating := true));
        } else {
          EnterFail(s, NotTaken(SubscribeAck));
        }
    }
  }

  lemma ResumeStep(s: State)
    requires Sound(s) && Enabled(s, Resume)
    ensures Sound(Step(s, Resume))
  {
    var ok := s.q.producers[MAIN].ok;
    if ok {
      ContinueStep(s, s.main.next, ok);
    } else {
      ContinueStep(s.(refusals := s.refusals + [s.main.frame]), s.main.next, ok);
    }
  }

  lemma NumberedMore(n: nat, mode: Mode)
    ensures Numbered(n, mode) + [Tick(n, mode)] == Numbered(n + 1, mode)
  {
  }

  lemma Regrouped(a: seq<Tick>, b: seq<Tick>, c: seq<Tick>)
    ensures a + (b + c) == a + b + c
  {
  }

  lemma GenerateFlows(s: State)
    requires Flowing(s) && Enabled(s, Generate)
    ensures Flowing(Step(s, Generate))
  {
    if |s.channel| < DATA_CHANNEL {
      var tick := Tick(s.produced, s.subscription.value);
      FlattenAppend(s.channel, [tick]);
      NumberedMore(s.produced, s.subscription.value);
      Regrouped(s.taken, Flatten(s.channel), [tick]);
    }
  }

  lemma GenerateStep(s: State)
    requires Sound(s) && Enabled(s, Generate)
    ensures Sound(Step(s, Generate))
  {
    GenerateFlows(s);
  }

  lemma TakeTicksConserves(s: State)
    requires Conserved(s) && Enabled(s, TakeTicks)
    ensures Conserved(Step(s, TakeTicks))
  {
    var sent, kept := Sent(Frames(s.q.enqueued)), Matching(s.channel[0], s.subscription);
    if s.subscription.Some? {
      OfModeConcat(s.taken, s.channel[0], s.subscription.value);
    }
    assert sent + (s.pending + kept) == (sent + s.pending) + kept;
  }

  lemma TakeTicksFlows(s: State)
    requires Flowing(s) && Enabled(s, TakeTicks)
    ensures Flowing(Step(s, TakeTicks))
  {
    FlattenFirst(s.channel);
    assert s.taken + (s.channel[0] + Flatten(s.channel[1..])) == (s.taken + s.channel[0]) + Flatten(s.channel[1..]);
    if !s.generating {
      assert |s.entered| == 0;
      assert s.channel[0] == [];
    }
  }

  lemma TakeTicksStep(s: State)
    requires Sound(s) && Enabled(s, TakeTicks)
    ensures Sound(Step(s, TakeTicks))
  {
    TakeTicksConserves(s);
    TakeTicksFlows(s);
  }

  lemma StartFlushStep(s: State)
    requires Sound(s) && Enabled(s, StartFlush)
    ensures Sound(Step(s, StartFlush))
  {
    CallStep(s.q, DELIVERY, Batch(s.pending));
  }

  lemma EndFlushStep(s: State)
    requires Sound(s) && Enabled(s, EndFlush)
    ensures Sound(Step(s, EndFlush))
  {
  }

  lemma SoundStep(s: State, m: Move)
    requires Sound(s) && Enabled(s, m)
    ensures Sound(Step(s, m))
  {
    match m {
      case Queue(a) => QueueStep(s, a);
      case AuthTimeout => EnterFail(s, TimedOut);
      case FirstFrame(f) => ProcessFirstStep(s.(consumed := s.consumed + [f]), f);
      case Resume => ResumeStep(s);
      case NextFrame(f) => ProcessStep(s.(consumed := s.consumed + [f]), f);
      case StopReading => GoOn(s, s.(main := Done, cause := Stopped));
      case HeartbeatTimeout => EnterFail(s, TimedOut);
      case Generate => GenerateStep(s);
      case TakeTicks => TakeTicksStep(s);
      case StartFlush => StartFlushStep(s);
      case EndFlush => EndFlushStep(s);
    }
  }

  // ----- Every reachable state -----

  ghost predicate Invariant(s: State) {
    QP.Invariant(s.q) && Sound(s)
  }

  /** Underneath, every move is a step of the write queue or leaves it alone. */
  ghost predicate QueueMoves(q: Q.State<Out>, t: Q.State<Out>) {
    t == q || exists a: Q.Action<Out> :: Q.Enabled(q, a) && t == Q.Step(q, a)
  }

  lemma SendMoves(s: State, frame: Out, next: Next)
    requires !s.q.panicked && CanCall(s, MAIN)
    ensures QueueMoves(s.q, Send(s, frame, next).q)
  {
    assert Q.Enabled(s.q, Q.Call(MAIN, frame, false));
  }

  lemma FirstFrameMoves(s: State, frame: ClientFrame)
    requires !s.q.panicked && CanCall(s, MAIN)
    ensures QueueMoves(s.q, ProcessFirst(s, frame).q)
  {
    match frame {
      case Unreadable =>
      case Auth(true) => SendMoves(s, AuthAck, AuthAcked);
      case _ => SendMoves(s, ErrorReply, ThenDone);
    }
  }

  lemma NextFrameMoves(s: State, frame: ClientFrame)
    requires !s.q.panicked && CanCall(s, MAIN)
    ensures QueueMoves(s.q, Process(s, frame).q)
  {
    match frame {
      case Heartbeat(true) => SendMoves(s, Pong, Ponged);
      case Subscribe(Some(mode)) =>
        if s.subscription.Some? {
          SendMoves(s, ErrorReply, Explained);
        } else {
          SendMoves(s.(subscription := Some(mode)), SubscribeAck, Subscribed);
        }
      case Subscribe(None) => SendMoves(s, ErrorReply, Explained);
      case _ => SendMoves(s, ErrorReply, ThenDone);
    }
  }

  lemma EveryMove(s: State, m: Move)
    requires Enabled(s, m)
    ensures QueueMoves(s.q, Step(s, m).q)
  {
    match m {
      case AuthTimeout => SendMoves(s, ErrorReply, ThenDone);
      case HeartbeatTimeout => SendMoves(s, ErrorReply, ThenDone);
      case Resume => SendMoves(s, ErrorReply, ThenDone);
      case FirstFrame(f) => FirstFrameMoves(s.(consumed := s.consumed + [f]), f);
      case NextFrame(f) => NextFrameMoves(s.(consumed := s.consumed + [f]), f);
      case StartFlush => assert Q.Enabled(s.q, Q.Call(DELIVERY, Batch(s.pending), false));
      case _ =>
    }
  }

  lemma QueueInvariantStep(s: State, m: Move)
    requires QP.Invariant(s.q) && Enabled(s, m)
    ensures QP.Invariant(Step(s, m).q)
  {
    EveryMove(s, m);
    var t := Step(s, m).q;
    if t != s.q {
      var a: Q.Action<Out> :| Q.Enabled(s.q, a) && t == Q.Step(s.q, a);
      QP.InvariantStep(s.q, a);
    }
  }

  lemma {:induction false} InvariantRun(s: State, moves: seq<Move>)
    requires Invariant(s) && Valid(s, moves)
    ensures Invariant(Run(s, moves))
    decreases |moves|
  {
    if moves != [] {
      QueueInvariantStep(s, moves[0]);
      SoundStep(s, moves[0]);
      InvariantRun(Step(s, moves[0]), moves[1..]);
    }
  }

  ghost predicate Reachable(s: State) {
    exists capacity: nat, timeout: nat, now: int, moves: seq<Move> ::
      Valid(Initial(capacity, timeout, now), moves) && Run(Initial(capacity, timeout, now), moves) == s
  }

  lemma InvariantInitial(capacity: nat, timeout: nat, now: int)
    ensures Invariant(Initial(capacity, timeout, now))
  {
    QP.InvariantInitial<Out>(capacity, timeout, now);
    assert Heard([]) == Fresh;
  }

  lemma ReachableInvariant(s: State)
    requires Reachable(s)
    ensures Invariant(s)
  {
    var capacity: nat, timeout: nat, now: int, moves: seq<Move> :|
      Valid(Initial(capacity, timeout, now), moves) && Run(Initial(capacity, timeout, now), moves) == s;
    InvariantInitial(capacity, timeout, now);
    InvariantRun(Initial(capacity, timeout, now), moves);
  }

  lemma ReachableSound(s: State)
    requires Reachable(s)
    ensures Calls(s) && Conversing(s) && Flowing(s) && Conserved(s)
  {
    ReachableInvariant(s);
  }
}
