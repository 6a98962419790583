/**
 The exception in `SessionTheorems.WireOrder` is real: a run in which the writer is held up past the
 acknowledgement's deadline, so that a pong is the first frame on the wire.
 */
module ExpiredAcknowledgement {
  import Q = WriteQueue
  import opened Session
  import opened SessionProofs

  // ----- Runs of the queue inside a session -----

  ghost predicate QueueReaches(q: Q.State<Out>, t: Q.State<Out>) {
    exists moves: seq<Move> :: Quiet(moves) && Follows(q, moves, t)
  }

  /** Only queue steps, no calls: whatever the goroutines do, these moves lead from one queue state to another. */
  ghost predicate Quiet(moves: seq<Move>) {
    forall i :: 0 <= i < |moves| ==> moves[i].Queue? && !moves[i].action.Call?
  }

  ghost predicate Follows(q: Q.State<Out>, moves: seq<Move>, t: Q.State<Out>)
    decreases |moves|
  {
    if moves == [] then t == q
    else moves[0].Queue? && Q.Enabled(q, moves[0].action) && Follows(Q.Step(q, moves[0].action), moves[1..], t)
  }

  lemma OneStep(q: Q.State<Out>, a: Q.Action<Out>, t: Q.State<Out>)
    requires Q.Enabled(q, a) && !a.Call? && Q.Step(q, a) == t
    ensures QueueReaches(q, t)
  {
    var moves := [Queue(a)];
    assert moves[1..] == [];
    assert Quiet(moves) && Follows(q, moves, t);
  }

  lemma {:induction false} FollowsConcat(q: Q.State<Out>, first: seq<Move>, t: Q.State<Out>, second: seq<Move>,
                                         u: Q.State<Out>)
    requires Follows(q, first, t) && Follows(t, second, u)
    ensures Follows(q, first + second, u)
    decreases |first|
  {
    if first == [] {
      assert first + second == second;
    } else {
      assert (first + second)[1..] == first[1..] + second;
      FollowsConcat(Q.Step(q, first[0].action), first[1..], t, second, u);
    }
  }

  lemma Then(q: Q.State<Out>, t: Q.State<Out>, u: Q.State<Out>)
    requires QueueReaches(q, t) && QueueReaches(t, u)
    ensures QueueReaches(q, u)
  {
    var first: seq<Move> :| Quiet(first) && Follows(q, first, t);
    var second: seq<Move> :| Quiet(second) && Follows(t, second, u);
    FollowsConcat(q, first, t, second, u);
    assert Quiet(first + second);
  }

  lemma {:induction false} FollowsRun(s: State, moves: seq<Move>, t: Q.State<Out>)
    requires Quiet(moves) && Follows(s.q, moves, t)
    ensures Valid(s, moves) && Run(s, moves) == s.(q := t)
    decreases |moves|
  {
    if moves != [] {
      FollowsRun(Step(s, moves[0]), moves[1..], t);
    }
  }

  lemma {:induction false} RunConcat(s: State, first: seq<Move>, second: seq<Move>)
    requires Valid(s, first) && Valid(Run(s, first), second)
    ensures Valid(s, first + second) && Run(s, first + second) == Run(Run(s, first), second)
    decreases |first|
  {
    if first == [] {
      assert first + second == second;
    } else {
      assert (first + second)[1..] == first[1..] + second;
      RunConcat(Step(s, first[0]), first[1..], second);
    }
  }

  lemma ReachesOn(s: State, moves: seq<Move>)
    requires Reachable(s) && Valid(s, moves)
    ensures Reachable(Run(s, moves))
  {
    var capacity: nat, timeout: nat, now: int, earlier: seq<Move> :|
      Valid(Initial(capacity, timeout, now), earlier) && Run(Initial(capacity, timeout, now), earlier) == s;
    RunConcat(Initial(capacity, timeout, now), earlier, moves);
  }

  lemma ReachesQueue(s: State, t: Q.State<Out>)
    requires Reachable(s) && QueueReaches(s.q, t)
    ensures Reachable(s.(q := t))
  {
    var moves: seq<Move> :| Quiet(moves) && Follows(s.q, moves, t);
    FollowsRun(s, moves, t);
    ReachesOn(s, moves);
  }

  lemma ReachesStep(s: State, m: Move)
    requires Reachable(s) && Enabled(s, m)
    ensures Reachable(Step(s, m))
  {
    assert [m][1..] == [];
    assert Valid(Step(s, m), []);
    assert Valid(s, [m]) && Run(s, [m]) == Step(s, m);
    ReachesOn(s, [m]);
  }

  // ----- One send, one turn of the writer -----

  /** The queue after one uninterrupted send into a queue with room. */
  function AfterSend(q: Q.State<Out>, frame: Out): Q.State<Out> {
    var item := Q.Item(q.nextId, frame, q.now + q.timeout, false);
    q.(producers := q.producers[MAIN := Q.Returned(true)], nextId := q.nextId + 1, counter := q.counter + 1,
       queue := q.queue + [item], enqueued := q.enqueued + [item])
  }

  ghost predicate Clear(q: Q.State<Out>) {
    !q.panicked && q.phase == Q.NotClosed
  }

  lemma SendChecks(q: Q.State<Out>, frame: Out)
    requires Clear(q) && MAIN in q.producers && q.producers[MAIN] == Q.Called(frame, false) && q.counter < q.capacity
    ensures QueueReaches(q, Q.Become(q, MAIN, Q.Ready(frame, false)))
  {
    var q1 := Q.Become(q, MAIN, Q.Open(frame));
    OneStep(q, Q.LoadClosed(MAIN), q1);
    var q2 := Q.Become(q, MAIN, Q.Ready(frame, false));
    assert q1.producers[MAIN := Q.Ready(frame, false)] == q2.producers;
    OneStep(q1, Q.LoadCounter(MAIN), q2);
    Then(q, q1, q2);
  }

  lemma SendCounts(q: Q.State<Out>, frame: Out)
    requires Clear(q) && MAIN in q.producers && q.producers[MAIN] == Q.Ready(frame, false)
    ensures var item := Q.Item(q.nextId, frame, q.now + q.timeout, false);
            QueueReaches(q, Q.Become(q, MAIN, Q.Counted(item)).(nextId := q.nextId + 1, counter := q.counter + 1))
  {
    var item := Q.Item(q.nextId, frame, q.now + q.timeout, false);
    var q1 := Q.Become(q, MAIN, Q.Stamped(item)).(nextId := q.nextId + 1);
    OneStep(q, Q.Stamp(MAIN), q1);
    var q2 := Q.Become(q, MAIN, Q.Counted(item)).(nextId := q.nextId + 1, counter := q.counter + 1);
    assert q1.producers[MAIN := Q.Counted(item)] == q2.producers;
    OneStep(q1, Q.Increment(MAIN), q2);
    Then(q, q1, q2);
  }

  lemma SendEnqueues(q: Q.State<Out>, item: Q.Item<Out>)
    requires Clear(q) && MAIN in q.producers && q.producers[MAIN] == Q.Counted(item) && !item.done
    requires |q.queue| < q.capacity
    ensures QueueReaches(q, Q.Become(q, MAIN, Q.Returned(true))
                              .(queue := q.queue + [item], enqueued := q.enqueued + [item]))
  {
    OneStep(q, Q.Send(MAIN),
            Q.Become(q, MAIN, Q.Returned(true)).(queue := q.queue + [item], enqueued := q.enqueued + [item]));
  }

  /** The queue when the call is at its select. */
  function AtSelect(q: Q.State<Out>, frame: Out): Q.State<Out> {
    var item := Q.Item(q.nextId, frame, q.now + q.timeout, false);
    Q.Become(q, MAIN, Q.Counted(item)).(nextId := q.nextId + 1, counter := q.counter + 1)
  }

  lemma SendPrepares(q: Q.State<Out>, frame: Out)
    requires Clear(q) && MAIN in q.producers && q.producers[MAIN] == Q.Called(frame, false) && q.counter < q.capacity
    ensures QueueReaches(q, AtSelect(q, frame))
  {
    var q1 := Q.Become(q, MAIN, Q.Ready(frame, false));
    SendChecks(q, frame);
    SendCounts(q1, frame);
    assert AtSelect(q1, frame).producers == AtSelect(q, frame).producers;
    Then(q, q1, AtSelect(q1, frame));
  }

  lemma SendReaches(q: Q.State<Out>, frame: Out)
    requires Clear(q) && MAIN in q.producers && q.producers[MAIN] == Q.Called(frame, false)
    requires q.counter < q.capacity && |q.queue| < q.capacity
    ensures QueueReaches(q, AfterSend(q, frame))
  {
    SendPrepares(q, frame);
    var q1 := AtSelect(q, frame);
    SendEnqueues(q1, q1.producers[MAIN].item);
    assert q1.producers[MAIN := Q.Returned(true)] == q.producers[MAIN := Q.Returned(true)];
    Then(q, q1, AfterSend(q, frame));
  }

  /** The queue after one uninterrupted turn of the writer loop over a working connection. */
  function AfterTurn(q: Q.State<Out>): Q.State<Out>
    requires q.queue != []
  {
    var item := q.queue[0];
    var fate := if q.now > item.deadline then Q.Expired else Q.Written;
    q.(queue := q.queue[1..], counter := q.counter - 1, handled := q.handled + [Q.Handled(item, fate)],
       wire := if fate == Q.Written then q.wire + [item] else q.wire)
  }

  lemma TurnDecides(q: Q.State<Out>, item: Q.Item<Out>)
    requires Clear(q) && q.writer == Q.Got(item)
    ensures QueueReaches(q, if q.now > item.deadline then q.(writer := Q.Signalling(item, Q.Expired))
                            else q.(writer := Q.Signalling(item, Q.Written), wire := q.wire + [item]))
  {
    var q1 := q.(writer := Q.Timing(item));
    OneStep(q, Q.WriterLoadsClosed, q1);
    if q.now > item.deadline {
      var q2 := q.(writer := Q.Signalling(item, Q.Expired));
      OneStep(q1, Q.WriterComparesDeadline, q2);
      Then(q, q1, q2);
    } else {
      var q2 := q.(writer := Q.Writing(item));
      OneStep(q1, Q.WriterComparesDeadline, q2);
      Then(q, q1, q2);
      var q3 := q.(writer := Q.Signalling(item, Q.Written), wire := q.wire + [item]);
      OneStep(q2, Q.Write(true), q3);
      Then(q, q2, q3);
    }
  }

  lemma TurnReleases(q: Q.State<Out>, item: Q.Item<Out>, fate: Q.Fate)
    requires Clear(q) && q.writer == Q.Signalling(item, fate) && !item.done && fate != Q.WriteFailed
    ensures QueueReaches(q, q.(writer := Q.Receiving, counter := q.counter - 1,
                               handled := q.handled + [Q.Handled(item, fate)]))
  {
    var q1 := q.(writer := Q.Releasing(item, fate));
    OneStep(q, Q.Signal, q1);
    var q2 := q.(writer := Q.Receiving, counter := q.counter - 1, handled := q.handled + [Q.Handled(item, fate)]);
    OneStep(q1, Q.Release, q2);
    Then(q, q1, q2);
  }

  lemma TurnTakes(q: Q.State<Out>)
    requires Clear(q) && q.writer == Q.Receiving && q.queue != []
    ensures QueueReaches(q, q.(queue := q.queue[1..], writer := Q.Got(q.queue[0])))
  {
    OneStep(q, Q.Receive, q.(queue := q.queue[1..], writer := Q.Got(q.queue[0])));
  }

  lemma TurnReaches(q: Q.State<Out>)
    requires Clear(q) && q.writer == Q.Receiving && q.queue != [] && !q.queue[0].done
    ensures QueueReaches(q, AfterTurn(q))
  {
    var item := q.queue[0];
    var q1 := q.(queue := q.queue[1..], writer := Q.Got(item));
    TurnTakes(q);
    TurnDecides(q1, item);
    var q2 := if q.now > item.deadline then q1.(writer := Q.Signalling(item, Q.Expired))
              else q1.(writer := Q.Signalling(item, Q.Written), wire := q.wire + [item]);
    Then(q, q1, q2);
    TurnReleases(q2, item, q2.writer.fate);
    Then(q, q2, AfterTurn(q));
  }

  // ----- The run -----

  lemma AcknowledgementCanExpire() returns (s: State)
    ensures Reachable(s) && Frames(s.q.enqueued) == [AuthAck, Pong] && Frames(s.q.wire) == [Pong]
  {
    s := Acknowledged();
    s := PongQueued(s);
    s := BothTurns(s);
  }

  /** Past the acknowledgement's deadline a heartbeat arrives ... */
  lemma PongAsked(s: State) returns (t: State)
    requires Reachable(s) && s.main.Looping? && Clear(s.q) && CanCall(s, MAIN)
    ensures Reachable(t)
    ensures t.q == s.q.(now := s.q.now + 6, producers := s.q.producers[MAIN := Q.Called(Pong, false)])
  {
    ReachesStep(s, Queue(Q.Tick(6)));
    var u := s.(q := s.q.(now := s.q.now + 6));
    ReachesStep(u, NextFrame(Heartbeat(true)));
    t := Step(u, NextFrame(Heartbeat(true)));
    CallStep(u.q, MAIN, Pong);
  }

  /** ... and is answered. */
  lemma PongQueued(s: State) returns (t: State)
    requires Reachable(s) && s.main.Looping? && Clear(s.q) && CanCall(s, MAIN)
    requires s.q.counter < s.q.capacity && |s.q.queue| < s.q.capacity
    ensures Reachable(t)
    ensures var item := Q.Item(s.q.nextId, Pong, s.q.now + 6 + s.q.timeout, false);
            && t.q.queue == s.q.queue + [item] && t.q.enqueued == s.q.enqueued + [item] && t.q.wire == s.q.wire
            && Clear(t.q) && t.q.writer == s.q.writer && t.q.now == s.q.now + 6
  {
    var u := PongAsked(s);
    SendReaches(u.q, Pong);
    ReachesQueue(u, AfterSend(u.q, Pong));
    t := u.(q := AfterSend(u.q, Pong));
  }

  /** Authenticated, with the acknowledgement in the queue and its deadline at 5. */
  lemma Acknowledged() returns (s: State)
    ensures Reachable(s) && s.main.Looping? && Clear(s.q) && CanCall(s, MAIN)
    ensures s.q.writer == Q.Receiving && s.q.capacity == 10 && s.q.counter == 1 && s.q.now == 0 && s.q.timeout == 5
    ensures s.q.queue == s.q.enqueued == [Q.Item(0, AuthAck, 5, false)] && s.q.wire == []
  {
    s := Initial(10, 5, 0);
    assert Valid(s, []) && Run(s, []) == s;
    ReachesStep(s, FirstFrame(Auth(true)));
    s := Step(s, FirstFrame(Auth(true)));
    SendReaches(s.q, AuthAck);
    ReachesQueue(s, AfterSend(s.q, AuthAck));
    s := s.(q := AfterSend(s.q, AuthAck));
    ReachesStep(s, Resume);
    s := Step(s, Resume);
  }

  lemma BothTurns(s: State) returns (t: State)
    requires Reachable(s) && Clear(s.q) && s.q.writer == Q.Receiving && |s.q.queue| == 2 && s.q.wire == []
    requires !s.q.queue[0].done && !s.q.queue[1].done && s.q.queue[0].deadline < s.q.now <= s.q.queue[1].deadline
    ensures Reachable(t) && t.q.wire == [s.q.queue[1]] && t.q.enqueued == s.q.enqueued
  {
    TurnReaches(s.q);
    ReachesQueue(s, AfterTurn(s.q));
    t := s.(q := AfterTurn(s.q));
    TurnReaches(t.q);
    ReachesQueue(t, AfterTurn(t.q));
    t := t.(q := AfterTurn(t.q));
  }
}
