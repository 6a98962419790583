/**
 What a call to the write queue comes to, in every interleaving: whether it enqueues its frame, with which
 deadline, why it fails, and what becomes of an item whose deadline has passed.
 */
module WriteQueueCalls {
  import opened Counting
  import opened WriteQueue
  import opened WriteQueueProofs

  // ----- One call -----

  /** What the second log has beyond the length of the first. */
  function Added<T>(before: seq<T>, after: seq<T>): seq<T> {
    if |before| <= |after| then after[|before|..] else []
  }

  predicate By<F>(a: Action<F>, p: Pid) {
    match a
    case Call(pid, _, _) => pid == p
    case LoadClosed(pid) => pid == p
    case LoadCounter(pid) => pid == p
    case Stamp(pid) => pid == p
    case Increment(pid) => pid == p
    case Send(pid) => pid == p
    case GiveUp(pid) => pid == p
    case Decrement(pid) => pid == p
    case Collect(pid, _) => pid == p
    case _ => false
  }

  /** The items that the steps of one producer put into the channel. */
  ghost function Sends<F(!new)>(s: State<F>, actions: seq<Action<F>>, p: Pid): seq<Item<F>>
    requires Valid(s, actions)
    decreases |actions|
  {
    if actions == [] then [] else
      var t := Step(s, actions[0]);
      (if By(actions[0], p) then Added(s.enqueued, t.enqueued) else []) + Sends(t, actions[1..], p)
  }

  /** The producer makes no new call. */
  ghost predicate SameCall<F(!new)>(actions: seq<Action<F>>, p: Pid) {
    forall i :: 0 <= i < |actions| ==> !(actions[i].Call? && actions[i].pid == p)
  }

  /** What a call is about: its frame, its kind and when it began. */
  datatype Request<F> = Request(frame: F, sync: bool, at: int)

  /** The item is the call's, stamped between its beginning and now. */
  predicate Stamps<F(==)>(s: State<F>, r: Request<F>, i: Item<F>) {
    i.frame == r.frame && i.done == r.sync && r.at + s.timeout <= i.deadline <= s.now + s.timeout
  }

  /** The writer has announced what became of the item, and it is this. */
  ghost predicate Reported<F(!new)>(s: State<F>, i: Item<F>, ok: bool) {
    exists fate :: Handled(i, fate) in s.signals && ok == (fate == Written)
  }

  ghost predicate NotSent<F(!new)>(s: State<F>, r: Request<F>, c: Producer<F>) {
    match c
    case Called(frame, sync) => frame == r.frame && sync == r.sync
    case Open(frame) => frame == r.frame && !r.sync
    case Ready(frame, sync) => frame == r.frame && sync == r.sync
    case Stamped(i) => Stamps(s, r, i)
    case Counted(i) => Stamps(s, r, i)
    case BackingOut => r.sync ==> s.now >= r.at + s.timeout
    case Returned(ok) => !ok && (r.sync ==> s.Closed() || s.now >= r.at + s.timeout)
    case Awaiting(_) => false
  }

  ghost predicate HasSent<F(!new)>(s: State<F>, r: Request<F>, c: Producer<F>, i: Item<F>) {
    && Stamps(s, r, i)
    && (if r.sync then c == Awaiting(i) || (c.Returned? && Reported(s, i, c.ok)) else c == Returned(true))
  }

  /** How far the call has come when it has sent these items. */
  ghost predicate Along<F(!new)>(s: State<F>, p: Pid, r: Request<F>, sent: seq<Item<F>>) {
    && p in s.producers && r.at <= s.now
    && (sent == [] ==> NotSent(s, r, s.producers[p]))
    && (sent != [] ==> |sent| == 1 && HasSent(s, r, s.producers[p], sent[0]))
  }

  /** What no step takes back. */
  lemma Onward<F(!new)>(s: State<F>, a: Action<F>)
    requires Enabled(s, a)
    ensures Step(s, a).now >= s.now && Step(s, a).timeout == s.timeout && (s.Closed() ==> Step(s, a).Closed())
    ensures forall h :: h in s.signals ==> h in Step(s, a).signals
  {
  }

  lemma OthersLeave<F(!new)>(s: State<F>, a: Action<F>, p: Pid)
    requires Enabled(s, a) && p in s.producers && !By(a, p)
    ensures p in Step(s, a).producers && Step(s, a).producers[p] == s.producers[p]
  {
  }

  lemma AlongOther<F(!new)>(s: State<F>, a: Action<F>, p: Pid, r: Request<F>, sent: seq<Item<F>>)
    requires Enabled(s, a) && !By(a, p) && Along(s, p, r, sent)
    ensures Along(Step(s, a), p, r, sent)
  {
    OthersLeave(s, a, p);
    Onward(s, a);
  }

  lemma AlongSend<F(!new)>(s: State<F>, p: Pid, r: Request<F>, sent: seq<Item<F>>)
    requires Enabled(s, Send(p)) && Along(s, p, r, sent)
    ensures Along(Step(s, Send(p)), p, r, sent + Added(s.enqueued, Step(s, Send(p)).enqueued))
  {
    var t, i := Step(s, Send(p)), s.producers[p].item;
    assert sent == [];
    if s.ChannelShut() {
      assert Added(s.enqueued, t.enqueued) == [];
    } else {
      assert Added(s.enqueued, t.enqueued) == [i];
      assert sent + [i] == [i];
    }
  }

  lemma AlongOwn<F(!new)>(s: State<F>, a: Action<F>, p: Pid, r: Request<F>, sent: seq<Item<F>>)
    requires Enabled(s, a) && By(a, p) && !a.Call? && !a.Send? && Along(s, p, r, sent)
    ensures Along(Step(s, a), p, r, sent) && Step(s, a).enqueued == s.enqueued
  {
    if a.Collect? {
      assert Reported(Step(s, a), s.producers[p].item, a.fate == Written);
    }
  }

  lemma AlongStep<F(!new)>(s: State<F>, a: Action<F>, p: Pid, r: Request<F>, sent: seq<Item<F>>)
    returns (more: seq<Item<F>>)
    requires Enabled(s, a) && !(a.Call? && a.pid == p) && Along(s, p, r, sent)
    ensures more == if By(a, p) then Added(s.enqueued, Step(s, a).enqueued) else []
    ensures Along(Step(s, a), p, r, sent + more)
  {
    more := [];
    assert sent + more == sent;
    if !By(a, p) {
      AlongOther(s, a, p, r, sent);
    } else if a.Send? {
      AlongSend(s, p, r, sent);
      more := Added(s.enqueued, Step(s, a).enqueued);
    } else {
      AlongOwn(s, a, p, r, sent);
    }
  }

  lemma {:induction false} AlongRun<F(!new)>(s: State<F>, actions: seq<Action<F>>, p: Pid, r: Request<F>,
                                             sent: seq<Item<F>>)
    requires Valid(s, actions) && SameCall(actions, p) && Along(s, p, r, sent)
    ensures Along(Run(s, actions), p, r, sent + Sends(s, actions, p))
    decreases |actions|
  {
    if actions == [] {
      assert sent + [] == sent;
    } else {
      var t := Step(s, actions[0]);
      var more := AlongStep(s, actions[0], p, r, sent);
      AlongRun(t, actions[1..], p, r, sent + more);
      assert sent + more + Sends(t, actions[1..], p) == sent + (more + Sends(t, actions[1..], p));
    }
  }

  /** The state, the items sent and the producer of a call after some further actions. */
  lemma CallRun<F(!new)>(s: State<F>, p: Pid, frame: F, sync: bool, actions: seq<Action<F>>)
    returns (t: State<F>, sent: seq<Item<F>>)
    requires Enabled(s, Call(p, frame, sync)) && Valid(Step(s, Call(p, frame, sync)), actions) && SameCall(actions, p)
    ensures t == Run(Step(s, Call(p, frame, sync)), actions)
    ensures sent == Sends(Step(s, Call(p, frame, sync)), actions, p)
    ensures Along(t, p, Request(frame, sync, s.now), sent)
  {
    var called := Step(s, Call(p, frame, sync));
    AlongRun(called, actions, p, Request(frame, sync, s.now), []);
    t, sent := Run(called, actions), Sends(called, actions, p);
    assert [] + sent == sent;
  }

  /**
   Whatever happens meanwhile, an asynchronous call returns success if and only if it has put its frame into the
   channel, once, with a deadline one timeout after a moment of the call.
   */
  lemma AsynchronousCall<F(!new)>(s: State<F>, p: Pid, frame: F, actions: seq<Action<F>>)
    returns (t: State<F>, sent: seq<Item<F>>)
    requires Enabled(s, Call(p, frame, false)) && Valid(Step(s, Call(p, frame, false)), actions) && SameCall(actions, p)
    ensures t == Run(Step(s, Call(p, frame, false)), actions) && p in t.producers
    ensures sent == Sends(Step(s, Call(p, frame, false)), actions, p) && |sent| <= 1
    ensures t.producers[p].Returned? ==> (t.producers[p].ok <==> sent != [])
    ensures forall i :: i in sent ==>
              i.frame == frame && !i.done && s.now + t.timeout <= i.deadline <= t.now + t.timeout
  {
    t, sent := CallRun(s, p, frame, false, actions);
  }

  lemma ReportedOnWire<F(!new)>(s: State<F>, i: Item<F>, ok: bool)
    requires Invariant(s) && Reported(s, i, ok)
    ensures ok <==> i in s.wire
  {
    var fate :| Handled(i, fate) in s.signals && ok == (fate == Written);
    FilterMember(Announced(s), HasChannel, Handled(i, fate));
    DecidedNoRepeats(s);
    WrittenMembers(Decided(s), i, fate);
  }

  lemma CallInvariant<F(!new)>(s: State<F>, p: Pid, frame: F, sync: bool, actions: seq<Action<F>>)
    requires Reachable(s) && Enabled(s, Call(p, frame, sync)) && Valid(Step(s, Call(p, frame, sync)), actions)
    ensures Invariant(Run(Step(s, Call(p, frame, sync)), actions))
  {
    ReachableInvariant(s);
    InvariantStep(s, Call(p, frame, sync));
    InvariantRun(Step(s, Call(p, frame, sync)), actions);
  }

  lemma SynchronousVerdict<F(!new)>(s: State<F>, p: Pid, r: Request<F>, sent: seq<Item<F>>)
    requires Invariant(s) && Along(s, p, r, sent) && r.sync
    ensures p in s.producers && |sent| <= 1 && forall i :: i in sent ==> Stamps(s, r, i)
    ensures s.producers[p].Returned? ==> (s.producers[p].ok <==> sent != [] && sent[0] in s.wire)
    ensures s.producers[p].Returned? && sent == [] ==> s.Closed() || s.now >= r.at + s.timeout
  {
    if s.producers[p].Returned? && sent != [] {
      ReportedOnWire(s, sent[0], s.producers[p].ok);
    }
  }

  /**
   A synchronous call returns success if and only if the frame it put into the channel is on the wire, and it
   fails without having put it there only when the connection is closed or its timeout is over.
   */
  lemma SynchronousCall<F(!new)>(s: State<F>, p: Pid, frame: F, actions: seq<Action<F>>)
    returns (t: State<F>, sent: seq<Item<F>>)
    requires Reachable(s) && Enabled(s, Call(p, frame, true))
    requires Valid(Step(s, Call(p, frame, true)), actions) && SameCall(actions, p)
    ensures t == Run(Step(s, Call(p, frame, true)), actions) && p in t.producers
    ensures sent == Sends(Step(s, Call(p, frame, true)), actions, p) && |sent| <= 1
    ensures t.producers[p].Returned? ==> (t.producers[p].ok <==> sent != [] && sent[0] in t.wire)
    ensures t.producers[p].Returned? && sent == [] ==> t.Closed() || t.now >= s.now + t.timeout
    ensures forall i :: i in sent ==>
              i.frame == frame && i.done && s.now + t.timeout <= i.deadline <= t.now + t.timeout
  {
    t, sent := CallRun(s, p, frame, true, actions);
    CallInvariant(s, p, frame, true, actions);
    SynchronousVerdict(t, p, Request(frame, true, s.now), sent);
  }

  // ----- Deadlines -----

  /** An item that has not passed the deadline test when its deadline is over is never written. */
  lemma {:induction false} LateNeverWritten<F(!new)>(s: State<F>, actions: seq<Action<F>>, x: Item<F>)
    requires Valid(s, actions) && x !in s.wire && s.writer != Writing(x) && s.now > x.deadline
    ensures x !in Run(s, actions).wire
    decreases |actions|
  {
    if actions != [] {
      LateNeverWritten(Step(s, actions[0]), actions[1..], x);
    }
  }

  lemma ExpiredPast<F(!new)>(s: State<F>, x: Item<F>)
    requires Timely(s) && Handled(x, Expired) in s.handled
    ensures s.now > x.deadline
  {
    var i :| 0 <= i < |s.handled| && s.handled[i] == Handled(x, Expired);
    assert Decided(s)[i] == s.handled[i];
  }

  /** A frame is dropped as expired only when more than the timeout has passed since its call. */
  lemma ExpiredLate<F(!new)>(s: State<F>, p: Pid, frame: F, sync: bool, actions: seq<Action<F>>, x: Item<F>)
    returns (t: State<F>)
    requires Reachable(s) && Enabled(s, Call(p, frame, sync))
    requires Valid(Step(s, Call(p, frame, sync)), actions) && SameCall(actions, p)
    requires x in Sends(Step(s, Call(p, frame, sync)), actions, p)
    requires Handled(x, Expired) in Run(Step(s, Call(p, frame, sync)), actions).handled
    ensures t == Run(Step(s, Call(p, frame, sync)), actions) && t.now > s.now + t.timeout
  {
    var sent;
    t, sent := CallRun(s, p, frame, sync, actions);
    CallInvariant(s, p, frame, sync, actions);
    ExpiredPast(t, x);
  }

  // ----- A call by itself -----

  /** Only this call's own steps. */
  ghost predicate OnlyOwn<F(!new)>(actions: seq<Action<F>>, p: Pid) {
    forall i :: 0 <= i < |actions| ==> By(actions[i], p) && !actions[i].Call?
  }

  /** The call has met what it found at the outset: an open connection and a counter below the capacity, or not. */
  ghost predicate Alone<F(!new)>(start: State<F>, s: State<F>, p: Pid) {
    var admitted := !start.Closed() && start.counter < start.capacity;
    && p in s.producers && s.phase == start.phase && s.capacity == start.capacity
    && match s.producers[p]
       case Called(_, sync) => !sync && s.counter == start.counter && s.queue == start.queue
       case Open(_) => !s.Closed() && s.counter == start.counter && s.queue == start.queue
       case Ready(_, sync) => !sync && admitted && s.queue == start.queue
       case Stamped(i) => !i.done && admitted && s.queue == start.queue
       case Counted(i) => !i.done && admitted && s.queue == start.queue
       case Returned(ok) => ok == admitted
       case _ => false
  }

  lemma AloneStep<F(!new)>(start: State<F>, s: State<F>, a: Action<F>, p: Pid)
    requires Accounted(start) && Alone(start, s, p) && Enabled(s, a) && By(a, p) && !a.Call?
    ensures Alone(start, Step(s, a), p)
  {
  }

  lemma {:induction false} AloneRun<F(!new)>(start: State<F>, s: State<F>, actions: seq<Action<F>>, p: Pid)
    requires Accounted(start) && Alone(start, s, p) && Valid(s, actions) && OnlyOwn(actions, p)
    ensures Alone(start, Run(s, actions), p)
    decreases |actions|
  {
    if actions != [] {
      AloneStep(start, s, actions[0], p);
      AloneRun(start, Step(s, actions[0]), actions[1..], p);
    }
  }

  /**
   An asynchronous call that nobody interrupts succeeds if and only if the connection is open and the frames
   waiting, being sent and being written are fewer than the capacity.
   */
  lemma UninterruptedCall<F(!new)>(s: State<F>, p: Pid, frame: F, actions: seq<Action<F>>)
    requires Reachable(s) && Enabled(s, Call(p, frame, false))
    requires Valid(Step(s, Call(p, frame, false)), actions) && OnlyOwn(actions, p)
    ensures var t := Run(Step(s, Call(p, frame, false)), actions);
            p in t.producers && (t.producers[p].Returned? ==>
              (t.producers[p].ok <==>
                !s.Closed() && |s.queue| + Count(s.producers, InFlight) + |Held(s.writer)| < s.capacity))
  {
    CounterMeaning(s);
    AloneRun(s, Step(s, Call(p, frame, false)), actions, p);
  }

  // ----- No call is stuck -----

  /** Steps left in a call. */
  function StepsLeft<F>(c: Producer<F>): nat {
    match c
    case Called(_, _) => 6
    case Open(_) => 5
    case Ready(_, _) => 4
    case Stamped(_) => 3
    case Counted(_) => 2
    case BackingOut => 1
    case Awaiting(_) => 1
    case Returned(_) => 0
  }

  ghost function OwnSteps<F(!new)>(actions: seq<Action<F>>, p: Pid): nat {
    if actions == [] then 0 else (if By(actions[0], p) then 1 else 0) + OwnSteps(actions[1..], p)
  }

  lemma {:induction false} StepsBounded<F(!new)>(s: State<F>, actions: seq<Action<F>>, p: Pid)
    requires Valid(s, actions) && SameCall(actions, p) && p in s.producers
    ensures p in Run(s, actions).producers
    ensures Run(s, actions).panicked || OwnSteps(actions, p) + StepsLeft(Run(s, actions).producers[p])
                                        <= StepsLeft(s.producers[p])
    decreases |actions|
  {
    if actions != [] {
      var t := Step(s, actions[0]);
      if By(actions[0], p) {
        assert t.panicked || StepsLeft(t.producers[p]) < StepsLeft(s.producers[p]);
      } else {
        OthersLeave(s, actions[0], p);
      }
      StepsBounded(t, actions[1..], p);
    }
  }

  /** Waits for room until its deadline, or for the writer. */
  predicate Waits<F>(s: State<F>, c: Producer<F>) {
    c.Awaiting? || (c.Counted? && c.item.done && s.now < c.item.deadline)
  }

  lemma NextStep<F(!new)>(s: State<F>, p: Pid) returns (a: Action<F>)
    requires !s.panicked && p in s.producers && !s.producers[p].Returned? && !Waits(s, s.producers[p])
    ensures By(a, p) && !a.Call? && Enabled(s, a)
  {
    match s.producers[p]
    case Called(_, _) => a := LoadClosed(p);
    case Open(_) => a := LoadCounter(p);
    case Ready(_, _) => a := Stamp(p);
    case Stamped(_) => a := Increment(p);
    case Counted(_) => a := if s.ChannelShut() || s.Room() then Send(p) else GiveUp(p);
    case BackingOut => a := Decrement(p);
  }

  /**
   A call returns after at most six steps of its own, and its next step is possible at once, except that a
   synchronous call may have to wait for room until its deadline, and for the writer once it has sent.
   */
  lemma CallEnds<F(!new)>(s: State<F>, p: Pid, frame: F, sync: bool, actions: seq<Action<F>>) returns (t: State<F>)
    requires Enabled(s, Call(p, frame, sync)) && Valid(Step(s, Call(p, frame, sync)), actions) && SameCall(actions, p)
    ensures t == Run(Step(s, Call(p, frame, sync)), actions) && p in t.producers
    ensures t.panicked || OwnSteps(actions, p) <= 6
    ensures t.panicked || t.producers[p].Returned? || (sync && Waits(t, t.producers[p]))
            || exists a :: By(a, p) && !a.Call? && Enabled(t, a)
  {
    var sent;
    t, sent := CallRun(s, p, frame, sync, actions);
    StepsBounded(Step(s, Call(p, frame, sync)), actions, p);
    if !t.panicked && !t.producers[p].Returned? && !Waits(t, t.producers[p]) {
      var a := NextStep(t, p);
    }
  }
}
