/** From which states of the write queue a send on the closed channel can still happen, exactly. */
module WriteQueuePanic {
  import opened Counting
  import opened WriteQueue
  import opened WriteQueueProofs

  /** Past every check: such a call sends whatever happens to the connection meanwhile. */
  predicate Late<F>(p: Producer<F>) {
    p.Ready? || p.Stamped? || p.Counted?
  }

  ghost predicate SomeLate<F(!new)>(s: State<F>) {
    exists p :: p in s.producers && Late(s.producers[p])
  }

  /** Some call has seen the connection open and is about to look at the counter. */
  ghost predicate SomeOpen<F(!new)>(s: State<F>) {
    exists p :: p in s.producers && s.producers[p].Open?
  }

  /** The counter can still fall below the capacity. */
  ghost predicate CanDrain<F(!new)>(s: State<F>) {
    s.capacity > 0 && (Stopped(s) ==> |s.queue| < s.capacity)
  }

  ghost predicate Exposed<F(!new)>(s: State<F>) {
    !s.Closed() || SomeLate(s) || (SomeOpen(s) && CanDrain(s))
  }

  ghost predicate CanPanic<F(!new)>(s: State<F>) {
    exists actions :: Valid(s, actions) && Run(s, actions).panicked
  }

  // ----- Where no panic can happen -----

  ghost predicate Safe<F(!new)>(s: State<F>) {
    !s.panicked && Accounted(s) && !Exposed(s)
  }

  /** Closed and with nobody past the checks, no call gets past them any more. */
  lemma NoneGetsPast<F(!new)>(s: State<F>, a: Action<F>)
    requires Safe(s) && Enabled(s, a)
    ensures !Step(s, a).panicked && Step(s, a).Closed() && !SomeLate(Step(s, a))
    ensures SomeOpen(Step(s, a)) ==> SomeOpen(s)
  {
    if a.LoadCounter? {
      assert s.producers[a.pid].Open?;
      assert s.counter >= s.capacity;
    }
  }

  lemma StaysFull<F(!new)>(s: State<F>, a: Action<F>)
    requires Safe(s) && Enabled(s, a) && !CanDrain(s)
    ensures !CanDrain(Step(s, a))
  {
    assert forall p :: p in s.producers ==> !Late(s.producers[p]);
  }

  lemma {:induction false} SafeRun<F(!new)>(s: State<F>, actions: seq<Action<F>>)
    requires Safe(s) && Valid(s, actions)
    ensures !Run(s, actions).panicked
    decreases |actions|
  {
    if actions != [] {
      NoneGetsPast(s, actions[0]);
      AccountedStep(s, actions[0]);
      if SomeOpen(s) {
        StaysFull(s, actions[0]);
      }
      SafeRun(Step(s, actions[0]), actions[1..]);
    }
  }

  // ----- Where one can -----

  lemma PanicAfter<F(!new)>(s: State<F>, a: Action<F>)
    requires Enabled(s, a) && CanPanic(Step(s, a))
    ensures CanPanic(s)
  {
    var rest :| Valid(Step(s, a), rest) && Run(Step(s, a), rest).panicked;
    var actions := [a] + rest;
    assert actions[1..] == rest;
    assert Valid(s, actions) && Run(s, actions).panicked;
  }

  lemma PanicNow<F(!new)>(s: State<F>)
    requires s.panicked
    ensures CanPanic(s)
  {
    var none: seq<Action<F>> := [];
    assert Valid(s, none) && Run(s, none).panicked;
  }

  /** A call past its checks can always be the one that sends on the closed channel. */
  lemma {:induction false} LateSenderPanics<F(!new)>(s: State<F>, p: Pid)
    requires !s.panicked && s.Closed() && p in s.producers && Late(s.producers[p])
    ensures CanPanic(s)
    decreases !s.ChannelShut(), if s.producers[p].Ready? then 2 else if s.producers[p].Stamped? then 1 else 0
  {
    if !s.ChannelShut() {
      LateSenderPanics(Step(s, CloseChannel), p);
      PanicAfter(s, CloseChannel);
    } else if s.producers[p].Counted? {
      PanicNow(Step(s, Send(p)));
      PanicAfter(s, Send(p));
    } else {
      var a := if s.producers[p].Ready? then Stamp(p) else Increment(p);
      LateSenderPanics(Step(s, a), p);
      PanicAfter(s, a);
    }
  }

  predicate IsBackingOut<F>(p: Producer<F>) {
    p.BackingOut?
  }

  /** How many steps of the writer the item it holds still needs. */
  function Remaining<F>(w: Writer<F>): nat {
    match w
    case Got(_) => 5
    case Timing(_) => 4
    case Writing(_) => 3
    case Signalling(_, _) => 2
    case Releasing(_, _) => 1
    case _ => 0
  }

  /** What the writer does next when every write succeeds. */
  function WriterNext<F>(w: Writer<F>): Action<F>
    requires Remaining(w) > 0
  {
    match w
    case Got(_) => WriterLoadsClosed
    case Timing(_) => WriterComparesDeadline
    case Writing(_) => Write(true)
    case Signalling(_, _) => Signal
    case Releasing(_, _) => Release
  }

  ghost predicate Draining<F(!new)>(s: State<F>, p: Pid) {
    && !s.panicked && s.Closed() && Accounted(s) && !SomeLate(s) && CanDrain(s)
    && p in s.producers && s.producers[p].Open?
  }

  lemma DecrementDrains<F(!new)>(s: State<F>, p: Pid, q: Pid)
    requires Draining(s, p) && q in s.producers && s.producers[q].BackingOut?
    ensures Draining(Step(s, Decrement(q)), p)
    ensures Count(Step(s, Decrement(q)).producers, IsBackingOut) == Count(s.producers, IsBackingOut) - 1
  {
    AccountedStep(s, Decrement(q));
    CountUpdate(s.producers, q, Returned(false), IsBackingOut);
    forall r | r in Step(s, Decrement(q)).producers ensures !Late(Step(s, Decrement(q)).producers[r]) {
    }
  }

  lemma WriterDrains<F(!new)>(s: State<F>, p: Pid)
    requires Draining(s, p) && Remaining(s.writer) > 0
    ensures var t := Step(s, WriterNext(s.writer));
            && Draining(t, p) && t.producers == s.producers && t.queue == s.queue
            && Remaining(t.writer) < Remaining(s.writer)
  {
    AccountedStep(s, WriterNext(s.writer));
  }

  lemma ReceiveDrains<F(!new)>(s: State<F>, p: Pid)
    requires Draining(s, p) && Enabled(s, Receive)
    ensures var t := Step(s, Receive);
            Draining(t, p) && t.producers == s.producers && |t.queue| == |s.queue| - 1 && Remaining(t.writer) == 5
  {
    AccountedStep(s, Receive);
  }

  /** Nobody backs out and the writer holds nothing, so the counter is the queue. */
  lemma CounterSettled<F(!new)>(s: State<F>, p: Pid)
    requires Draining(s, p) && Count(s.producers, IsBackingOut) == 0 && Remaining(s.writer) == 0
    requires s.writer.Receiving? ==> s.queue == []
    ensures Enabled(s, LoadCounter(p)) && Late(Step(s, LoadCounter(p)).producers[p])
  {
    CountZero(s.producers, IsBackingOut);
    forall q | q in s.producers ensures !InFlight(s.producers[q]) {
      assert !Late(s.producers[q]);
    }
    CountZero(s.producers, InFlight);
  }

  /** The queue drains until the call finds the counter below the capacity. */
  lemma {:induction false} OpenCallPanics<F(!new)>(s: State<F>, p: Pid)
    requires Draining(s, p)
    ensures CanPanic(s)
    decreases Count(s.producers, IsBackingOut) + 6 * |s.queue| + Remaining(s.writer)
  {
    if Count(s.producers, IsBackingOut) > 0 {
      CountZero(s.producers, IsBackingOut);
      var q :| q in s.producers && s.producers[q].BackingOut?;
      DecrementDrains(s, p, q);
      OpenCallPanics(Step(s, Decrement(q)), p);
      PanicAfter(s, Decrement(q));
    } else if Remaining(s.writer) > 0 {
      WriterDrains(s, p);
      OpenCallPanics(Step(s, WriterNext(s.writer)), p);
      PanicAfter(s, WriterNext(s.writer));
    } else if s.writer.Receiving? && s.queue != [] {
      ReceiveDrains(s, p);
      OpenCallPanics(Step(s, Receive), p);
      PanicAfter(s, Receive);
    } else {
      CounterSettled(s, p);
      LateSenderPanics(Step(s, LoadCounter(p)), p);
      PanicAfter(s, LoadCounter(p));
    }
  }

  lemma {:induction false} NewPid(pids: set<Pid>) returns (p: Pid)
    ensures forall q :: q in pids ==> q < p
    decreases pids
  {
    if pids == {} {
      p := 0;
    } else {
      var q :| q in pids;
      var r := NewPid(pids - {q});
      p := if q < r then r else q + 1;
      assert forall x :: x in pids ==> x in pids - {q} || x == q;
    }
  }

  /** While the connection is open a new synchronous call can be overtaken by `Close`. */
  lemma OpenConnectionPanics<F(!new)>(s: State<F>, frame: F)
    requires !s.panicked && !s.Closed()
    ensures CanPanic(s)
  {
    var p := NewPid(s.producers.Keys);
    assert p !in s.producers;
    var called := Step(s, Call(p, frame, true));
    var ready := Step(called, LoadClosed(p));
    LateSenderPanics(Step(ready, SetClosed), p);
    PanicAfter(ready, SetClosed);
    PanicAfter(called, LoadClosed(p));
    PanicAfter(s, Call(p, frame, true));
  }

  // ----- The exact condition -----

  /**
   A send on the closed channel can still happen if and only if the connection is not closed yet, or
   some call is past its checks, or some call is about to look at a counter that can still fall
   below the capacity: with no buffer it cannot, nor behind a full queue whose writer has stopped.
   */
  lemma PanicExactly<F(!new)>(s: State<F>, frame: F)
    requires Reachable(s) && !s.panicked
    ensures CanPanic(s) <==> Exposed(s)
  {
    ReachableInvariant(s);
    if !s.Closed() {
      OpenConnectionPanics(s, frame);
    } else if SomeLate(s) {
      var p :| p in s.producers && Late(s.producers[p]);
      LateSenderPanics(s, p);
    } else if SomeOpen(s) && CanDrain(s) {
      var p :| p in s.producers && s.producers[p].Open?;
      OpenCallPanics(s, p);
    } else {
      forall actions | Valid(s, actions) ensures !Run(s, actions).panicked {
        SafeRun(s, actions);
      }
    }
  }

  /** The panic is real, whatever the capacity. */
  lemma PanicReachable<F(!new)>(capacity: nat, timeout: nat, now: int, frame: F) returns (s: State<F>)
    ensures Reachable(s) && s.panicked
  {
    var start := Initial<F>(capacity, timeout, now);
    OpenConnectionPanics(start, frame);
    var actions :| Valid(start, actions) && Run(start, actions).panicked;
    s := Run(start, actions);
  }
}
