/**
 What every run of the write queue keeps: the counter's meaning, first-in first-out order, one fate
 per item, at most one completion signal, and what `Close` guarantees.
 */
module WriteQueueProofs {
  import opened Counting
  import opened WriteQueue

  // ----- Reading a state -----

  /** Producers that have incremented the counter and neither enqueued nor taken it back. */
  predicate InFlight<F>(p: Producer<F>) {
    p.Counted? || p.BackingOut?
  }

  /** The item the writer has taken and not released. */
  function Held<F>(w: Writer<F>): seq<Item<F>> {
    if w.Receiving? || w.Exited? then [] else [w.item]
  }

  /** Every item whose fate is decided, oldest first, including the one the writer is finishing. */
  function Decided<F>(s: State<F>): seq<Handled<F>> {
    s.handled + (if s.writer.Signalling? || s.writer.Releasing? then [Handled(s.writer.item, s.writer.fate)] else [])
  }

  /** Every item whose completion has been announced, or would have been if it had a channel. */
  function Announced<F>(s: State<F>): seq<Handled<F>> {
    s.handled + (if s.writer.Releasing? then [Handled(s.writer.item, s.writer.fate)] else [])
  }

  function Items<F>(hs: seq<Handled<F>>): (r: seq<Item<F>>)
    ensures |r| == |hs|
    ensures forall i :: 0 <= i < |hs| ==> r[i] == hs[i].item
  {
    seq(|hs|, i requires 0 <= i < |hs| => hs[i].item)
  }

  predicate IsWritten<F>(h: Handled<F>) {
    h.fate == Written
  }

  predicate HasChannel<F>(h: Handled<F>) {
    h.item.done
  }

  function Filter<T>(hs: seq<T>, p: T -> bool): seq<T> {
    if hs == [] then [] else
      var rest := Filter(hs[..|hs| - 1], p);
      if p(hs[|hs| - 1]) then rest + [hs[|hs| - 1]] else rest
  }

  lemma FilterAppend<T>(hs: seq<T>, h: T, p: T -> bool)
    ensures Filter(hs + [h], p) == if p(h) then Filter(hs, p) + [h] else Filter(hs, p)
  {
    assert (hs + [h])[..|hs|] == hs;
  }

  lemma ItemsAppend<F>(hs: seq<Handled<F>>, h: Handled<F>)
    ensures Items(hs + [h]) == Items(hs) + [h.item]
  {
  }

  // ----- The counter -----

  ghost predicate Accounted<F(!new)>(s: State<F>) {
    s.counter == |s.queue| + Count(s.producers, InFlight) + |Held(s.writer)|
  }

  lemma AccountedStep<F(!new)>(s: State<F>, a: Action<F>)
    requires Accounted(s) && Enabled(s, a)
    ensures Accounted(Step(s, a))
  {
    var t := Step(s, a);
    if t.producers != s.producers {
      var p := a.pid;
      CountUpdate(s.producers, p, t.producers[p], InFlight);
    }
  }

  // ----- Order and fates -----

  ghost predicate Ordered<F(!new)>(s: State<F>) {
    && s.enqueued == Items(s.handled) + Held(s.writer) + s.queue
    && |s.queue| <= s.capacity
  }

  lemma OrderedSend<F(!new)>(s: State<F>, p: Pid)
    requires Ordered(s) && Enabled(s, Send(p))
    ensures Ordered(Step(s, Send(p)))
  {
    var kept := Items(s.handled) + Held(s.writer);
    if !s.ChannelShut() {
      var i := s.producers[p].item;
      assert kept + (s.queue + [i]) == kept + s.queue + [i];
    }
  }

  lemma OrderedStep<F(!new)>(s: State<F>, a: Action<F>)
    requires Ordered(s) && Enabled(s, a)
    ensures Ordered(Step(s, a))
  {
    if a.Send? {
      OrderedSend(s, a.pid);
    } else if a.Release? {
      ItemsAppend(s.handled, Handled(s.writer.item, s.writer.fate));
    } else if a.Receive? {
      assert s.queue == [s.queue[0]] + s.queue[1..];
    } else {
      assert Held(Step(s, a).writer) == Held(s.writer);
    }
  }

  ghost predicate OnWire<F(!new)>(s: State<F>) {
    s.wire == Items(Filter(Decided(s), IsWritten))
  }

  /** What one step adds to the decided items, and what to the wire. */
  lemma DecidedStep<F(!new)>(s: State<F>, a: Action<F>)
    requires Enabled(s, a)
    ensures var t := Step(s, a);
            || (Decided(t) == Decided(s) && t.wire == s.wire)
            || (&& t.writer.Signalling? && Decided(t) == Decided(s) + [Handled(t.writer.item, t.writer.fate)]
                && t.wire == if t.writer.fate == Written then s.wire + [t.writer.item] else s.wire)
  {
    var t := Step(s, a);
    if t.writer.Signalling? && !s.writer.Signalling? {
      assert Decided(s) == s.handled;
    } else {
      assert Decided(t) == Decided(s);
    }
  }

  lemma OnWireStep<F(!new)>(s: State<F>, a: Action<F>)
    requires OnWire(s) && Enabled(s, a)
    ensures OnWire(Step(s, a))
  {
    var t := Step(s, a);
    DecidedStep(s, a);
    if Decided(t) != Decided(s) {
      var h := Handled(t.writer.item, t.writer.fate);
      FilterAppend(Decided(s), h, IsWritten);
      ItemsAppend(Filter(Decided(s), IsWritten), h);
    }
  }

  ghost predicate Signalled<F(!new)>(s: State<F>) {
    s.signals == Filter(Announced(s), HasChannel)
  }

  lemma SignalledStep<F(!new)>(s: State<F>, a: Action<F>)
    requires Signalled(s) && Enabled(s, a)
    ensures Signalled(Step(s, a))
  {
    var t := Step(s, a);
    if a.Signal? {
      assert Announced(s) == s.handled;
      FilterAppend(s.handled, Handled(t.writer.item, t.writer.fate), HasChannel);
    } else {
      assert Announced(t) == Announced(s);
    }
  }

  /** Items keep their turn: written or expired ones first, then either one failed write or only discards. */
  ghost predicate FatesInOrder<F(!new)>(hs: seq<Handled<F>>) {
    forall i, j :: 0 <= i < j < |hs| ==>
      hs[i].fate == Written || hs[i].fate == Expired || (hs[i].fate == Discarded && hs[j].fate == Discarded)
  }

  ghost predicate NoneOf<F(!new)>(hs: seq<Handled<F>>, fate: Fate) {
    forall i :: 0 <= i < |hs| ==> hs[i].fate != fate
  }

  ghost predicate Settled<F(!new)>(s: State<F>) {
    && FatesInOrder(Decided(s))
    && (!s.writer.Exited? ==> NoneOf(s.handled, WriteFailed))
    && (s.writer.Timing? || s.writer.Writing? ==> NoneOf(s.handled, Discarded))
    && (!s.Closed() ==> NoneOf(Decided(s), Discarded))
    && (s.writer.Exited? ==>
          || (s.handled != [] && s.handled[|s.handled| - 1].fate == WriteFailed)
          || (s.queue == [] && s.ChannelShut()))
  }

  lemma SettledStep<F(!new)>(s: State<F>, a: Action<F>)
    requires Settled(s) && Enabled(s, a)
    ensures Settled(Step(s, a))
  {
    var t := Step(s, a);
    if !s.writer.Signalling? && !s.writer.Releasing? {
      assert Decided(s) == s.handled;
    }
    if !t.writer.Signalling? || s.writer.Signalling? {
      assert Decided(t) == Decided(s);
    }
  }

  /** Only items whose deadline has passed are given up as expired. */
  ghost predicate Timely<F(!new)>(s: State<F>) {
    forall i :: 0 <= i < |Decided(s)| && Decided(s)[i].fate == Expired ==> Decided(s)[i].item.deadline < s.now
  }

  lemma TimelyStep<F(!new)>(s: State<F>, a: Action<F>)
    requires Timely(s) && Enabled(s, a)
    ensures Timely(Step(s, a))
  {
    var t := Step(s, a);
    if t.writer.Signalling? && !s.writer.Signalling? {
      assert Decided(s) == s.handled;
    } else {
      assert Decided(t) == Decided(s);
    }
  }

  // ----- Closing -----

  ghost predicate Bounded<F(!new)>(s: State<F>) {
    s.Closed() ==>
      s.wireAtClose <= |s.wire|
      && |s.wire| + (if s.writer.Timing? || s.writer.Writing? then 1 else 0) <= s.wireAtClose + 1
  }

  lemma BoundedStep<F(!new)>(s: State<F>, a: Action<F>)
    requires Bounded(s) && Enabled(s, a)
    ensures Bounded(Step(s, a))
  {
  }

  // ----- Identity -----

  /** The item of a call that has one and has not given it to the channel. */
  predicate Carries<F>(p: Producer<F>) {
    p.Stamped? || p.Counted?
  }

  /** Two calls never carry the same item, and none carries an item already enqueued. */
  ghost predicate Fresh<F(!new)>(s: State<F>) {
    forall p :: p in s.producers && Carries(s.producers[p]) ==>
      var id := s.producers[p].item.id;
      && id < s.nextId
      && (forall i :: 0 <= i < |s.enqueued| ==> s.enqueued[i].id != id)
      && (forall q :: q in s.producers && q != p && Carries(s.producers[q]) ==> s.producers[q].item.id != id)
  }

  ghost predicate Distinct<F(!new)>(s: State<F>) {
    && (forall i :: 0 <= i < |s.enqueued| ==> s.enqueued[i].id < s.nextId)
    && (forall i, j :: 0 <= i < j < |s.enqueued| ==> s.enqueued[i].id != s.enqueued[j].id)
  }

  lemma FreshKept<F(!new)>(s: State<F>, t: State<F>, p: Pid)
    requires Fresh(s) && t.enqueued == s.enqueued && t.nextId == s.nextId
    requires p in t.producers && t.producers == s.producers[p := t.producers[p]]
    requires Carries(t.producers[p]) ==>
      p in s.producers && Carries(s.producers[p]) && s.producers[p].item == t.producers[p].item
    ensures Fresh(t)
  {
  }

  lemma FreshStamp<F(!new)>(s: State<F>, p: Pid)
    requires Distinct(s) && Fresh(s) && Enabled(s, Stamp(p))
    ensures Fresh(Step(s, Stamp(p)))
  {
  }

  lemma FreshSend<F(!new)>(s: State<F>, p: Pid)
    requires Fresh(s) && Enabled(s, Send(p))
    ensures Fresh(Step(s, Send(p)))
  {
    assert Carries(s.producers[p]);
  }

  lemma FreshStep<F(!new)>(s: State<F>, a: Action<F>)
    requires Distinct(s) && Fresh(s) && Enabled(s, a)
    ensures Fresh(Step(s, a))
  {
    match a {
      case Stamp(p) => FreshStamp(s, p);
      case Send(p) => FreshSend(s, p);
      case Call(_, _, _) => FreshKept(s, Step(s, a), a.pid);
      case LoadClosed(_) => FreshKept(s, Step(s, a), a.pid);
      case LoadCounter(_) => FreshKept(s, Step(s, a), a.pid);
      case Increment(_) => FreshKept(s, Step(s, a), a.pid);
      case GiveUp(_) => FreshKept(s, Step(s, a), a.pid);
      case Decrement(_) => FreshKept(s, Step(s, a), a.pid);
      case Collect(_, _) => FreshKept(s, Step(s, a), a.pid);
      case _ =>
    }
  }

  lemma DistinctStep<F(!new)>(s: State<F>, a: Action<F>)
    requires Distinct(s) && Fresh(s) && Enabled(s, a)
    ensures Distinct(Step(s, a))
  {
    if a.Send? {
      assert Carries(s.producers[a.pid]);
    } else {
      assert Step(s, a).enqueued == s.enqueued && Step(s, a).nextId >= s.nextId;
    }
  }

  // ----- Every reachable state -----

  ghost predicate Invariant<F(!new)>(s: State<F>) {
    && Accounted(s) && Ordered(s) && OnWire(s) && Signalled(s) && Settled(s) && Timely(s)
    && Bounded(s) && Distinct(s) && Fresh(s) && (s.panicked ==> s.ChannelShut())
  }

  lemma InvariantInitial<F(!new)>(capacity: nat, timeout: nat, now: int)
    ensures Invariant(Initial<F>(capacity, timeout, now))
  {
    var s := Initial<F>(capacity, timeout, now);
    CountZero(s.producers, InFlight);
    assert Decided(s) == [] && Announced(s) == [];
  }

  lemma InvariantStep<F(!new)>(s: State<F>, a: Action<F>)
    requires Invariant(s) && Enabled(s, a)
    ensures Invariant(Step(s, a))
  {
    AccountedStep(s, a);
    OrderedStep(s, a);
    OnWireStep(s, a);
    SignalledStep(s, a);
    SettledStep(s, a);
    TimelyStep(s, a);
    BoundedStep(s, a);
    DistinctStep(s, a);
    FreshStep(s, a);
    PanicStep(s, a);
  }

  lemma PanicStep<F(!new)>(s: State<F>, a: Action<F>)
    requires Enabled(s, a)
    ensures Step(s, a).panicked ==> Step(s, a).ChannelShut()
  {
  }

  lemma {:induction false} InvariantRun<F(!new)>(s: State<F>, actions: seq<Action<F>>)
    requires Invariant(s) && Valid(s, actions)
    ensures Invariant(Run(s, actions))
    decreases |actions|
  {
    if actions != [] {
      InvariantStep(s, actions[0]);
      InvariantRun(Step(s, actions[0]), actions[1..]);
    }
  }

  /** A state some run reaches. */
  ghost predicate Reachable<F(!new)>(s: State<F>) {
    exists capacity: nat, timeout: nat, now: int, actions: seq<Action<F>> ::
      Valid(Initial(capacity, timeout, now), actions) && Run(Initial(capacity, timeout, now), actions) == s
  }

  lemma ReachableInvariant<F(!new)>(s: State<F>)
    requires Reachable(s)
    ensures Invariant(s)
  {
    var capacity: nat, timeout: nat, now: int, actions: seq<Action<F>> :|
      Valid(Initial(capacity, timeout, now), actions) && Run(Initial(capacity, timeout, now), actions) == s;
    InvariantInitial<F>(capacity, timeout, now);
    InvariantRun(Initial(capacity, timeout, now), actions);
  }

  // ----- The counter -----

  /** The counter is the queue, plus the calls that have counted themselves and not settled, plus the writer's item. */
  lemma CounterMeaning<F(!new)>(s: State<F>)
    requires Reachable(s)
    ensures s.counter == |s.queue| + Count(s.producers, InFlight) + |Held(s.writer)|
    ensures 0 <= s.counter <= s.capacity + |s.producers| + 1
  {
    ReachableInvariant(s);
    CountBound(s.producers, InFlight);
  }

  // ----- Fates -----

  lemma ReachableOrder<F(!new)>(s: State<F>)
    requires Reachable(s)
    ensures s.enqueued == Items(s.handled) + Held(s.writer) + s.queue
    ensures forall i, j :: 0 <= i < j < |s.enqueued| ==> s.enqueued[i] != s.enqueued[j]
  {
    ReachableInvariant(s);
  }

  /** Parts of a sequence without repetitions have no element in common. */
  lemma OnePart<T>(a: seq<T>, b: seq<T>, c: seq<T>, x: T)
    requires forall i, j :: 0 <= i < j < |a + b + c| ==> (a + b + c)[i] != (a + b + c)[j]
    ensures !(x in a && x in b) && !(x in a && x in c) && !(x in b && x in c)
    ensures forall i, j :: 0 <= i < j < |a| ==> a[i] != a[j]
  {
    var all, n, k := a + b + c, |a|, |b|;
    assert forall i :: 0 <= i < n ==> all[i] == a[i];
    assert forall i :: 0 <= i < k ==> all[n + i] == b[i];
    assert forall i :: 0 <= i < |c| ==> all[n + k + i] == c[i];
  }

  /** Every item ever enqueued is in exactly one of three places: handled, held by the writer, or waiting. */
  lemma OneFate<F(!new)>(s: State<F>, x: Item<F>)
    requires Reachable(s) && x in s.enqueued
    ensures x in Items(s.handled) || x in Held(s.writer) || x in s.queue
    ensures !(x in Items(s.handled) && x in Held(s.writer))
    ensures !(x in Items(s.handled) && x in s.queue)
    ensures !(x in Held(s.writer) && x in s.queue)
    ensures forall i, j :: 0 <= i < j < |s.handled| ==> s.handled[i].item != s.handled[j].item
  {
    ReachableOrder(s);
    OnePart(Items(s.handled), Held(s.writer), s.queue, x);
    forall i, j | 0 <= i < j < |s.handled| ensures s.handled[i].item != s.handled[j].item {
      assert Items(s.handled)[i] != Items(s.handled)[j];
    }
  }

  predicate Subsequence<T(==)>(a: seq<T>, b: seq<T>)
    decreases |b|
  {
    if a == [] then true
    else if b == [] then false
    else
      || (a[|a| - 1] == b[|b| - 1] && Subsequence(a[..|a| - 1], b[..|b| - 1]))
      || Subsequence(a, b[..|b| - 1])
  }

  lemma SubsequenceAppend<T>(a: seq<T>, b: seq<T>, x: T)
    requires Subsequence(a, b)
    ensures Subsequence(a, b + [x]) && Subsequence(a + [x], b + [x])
  {
    assert (b + [x])[..|b|] == b && (a + [x])[..|a|] == a;
  }

  lemma {:induction false} SubsequenceExtend<T>(a: seq<T>, b: seq<T>, c: seq<T>)
    requires Subsequence(a, b)
    ensures Subsequence(a, b + c)
    decreases |c|
  {
    if c == [] {
      assert b + c == b;
    } else {
      SubsequenceExtend(a, b, c[..|c| - 1]);
      assert b + c == (b + c[..|c| - 1]) + [c[|c| - 1]];
      SubsequenceAppend(a, b + c[..|c| - 1], c[|c| - 1]);
    }
  }

  lemma {:induction false} FilterSubsequence<F(!new)>(hs: seq<Handled<F>>, p: Handled<F> -> bool)
    ensures Subsequence(Items(Filter(hs, p)), Items(hs))
    decreases |hs|
  {
    if hs != [] {
      var before, h := hs[..|hs| - 1], hs[|hs| - 1];
      FilterSubsequence(before, p);
      assert hs == before + [h];
      FilterAppend(before, h, p);
      ItemsAppend(before, h);
      ItemsAppend(Filter(before, p), h);
      SubsequenceAppend(Items(Filter(before, p)), Items(before), h.item);
    }
  }

  lemma DecidedPrefix<F(!new)>(s: State<F>)
    requires Ordered(s)
    ensures |Decided(s)| <= |s.enqueued| && Items(Decided(s)) == s.enqueued[..|Decided(s)|]
  {
    if s.writer.Signalling? || s.writer.Releasing? {
      ItemsAppend(s.handled, Handled(s.writer.item, s.writer.fate));
    } else {
      assert Decided(s) == s.handled;
    }
  }

  lemma WireSubsequence<F(!new)>(s: State<F>)
    requires Ordered(s) && OnWire(s)
    ensures Subsequence(s.wire, s.enqueued)
    ensures Items(Decided(s)) <= s.enqueued
  {
    FilterSubsequence(Decided(s), IsWritten);
    DecidedPrefix(s);
    SubsequenceExtend(s.wire, Items(Decided(s)), s.enqueued[|Decided(s)|..]);
    assert s.enqueued == Items(Decided(s)) + s.enqueued[|Decided(s)|..];
  }

  /** The wire carries items in the order they were enqueued. */
  lemma WireOrder<F(!new)>(s: State<F>)
    requires Reachable(s)
    ensures Subsequence(s.wire, s.enqueued)
    ensures s.wire == Items(Filter(Decided(s), IsWritten))
    ensures Items(Decided(s)) <= s.enqueued
  {
    ReachableInvariant(s);
    WireSubsequence(s);
  }

  /** The writer will not write again. */
  ghost predicate Stopped<F(!new)>(s: State<F>) {
    s.writer.Exited? || ((s.writer.Signalling? || s.writer.Releasing?) && s.writer.fate == WriteFailed)
  }

  lemma {:induction false} StoppedRun<F(!new)>(s: State<F>, actions: seq<Action<F>>)
    requires Stopped(s) && Valid(s, actions)
    ensures Stopped(Run(s, actions)) && Run(s, actions).wire == s.wire
    decreases |actions|
  {
    if actions != [] {
      StoppedRun(Step(s, actions[0]), actions[1..]);
    }
  }

  /** Nothing is ever written after a failed write. */
  lemma NothingAfterFailure<F(!new)>(s: State<F>, actions: seq<Action<F>>)
    requires Reachable(s) && Valid(s, actions)
    requires exists i :: 0 <= i < |Decided(s)| && Decided(s)[i].fate == WriteFailed
    ensures Run(s, actions).wire == s.wire
  {
    ReachableInvariant(s);
    StoppedRun(s, actions);
  }

  // ----- Completion signals -----

  lemma {:induction false} FilterMember<T(!new)>(hs: seq<T>, p: T -> bool, h: T)
    ensures h in Filter(hs, p) <==> h in hs && p(h)
    decreases |hs|
  {
    if hs != [] {
      FilterMember(hs[..|hs| - 1], p, h);
      assert hs == hs[..|hs| - 1] + [hs[|hs| - 1]];
    }
  }

  /** Where the `k`-th element that passes a filter stands. */
  lemma {:induction false} FilterIndex<T>(hs: seq<T>, p: T -> bool, k: nat) returns (j: nat)
    requires k < |Filter(hs, p)|
    ensures j < |hs| && hs[j] == Filter(hs, p)[k] && Filter(hs[..j], p) == Filter(hs, p)[..k]
    decreases |hs|
  {
    var front := hs[..|hs| - 1];
    if k < |Filter(front, p)| {
      j := FilterIndex(front, p, k);
      assert hs[..j] == front[..j];
    } else {
      j := |hs| - 1;
    }
  }

  ghost predicate NoRepeats<F(!new)>(hs: seq<Handled<F>>) {
    forall i, j :: 0 <= i < j < |hs| ==> hs[i].item != hs[j].item
  }

  lemma {:induction false} FilterNoRepeats<F(!new)>(hs: seq<Handled<F>>, p: Handled<F> -> bool)
    requires NoRepeats(hs)
    ensures NoRepeats(Filter(hs, p))
    decreases |hs|
  {
    if hs != [] {
      var before, h := hs[..|hs| - 1], hs[|hs| - 1];
      FilterNoRepeats(before, p);
      forall i | 0 <= i < |Filter(before, p)| ensures Filter(before, p)[i].item != h.item {
        FilterMember(before, p, Filter(before, p)[i]);
      }
    }
  }

  lemma DecidedNoRepeats<F(!new)>(s: State<F>)
    requires Ordered(s) && Distinct(s)
    ensures NoRepeats(Decided(s)) && NoRepeats(Announced(s)) && Announced(s) <= Decided(s)
  {
    DecidedPrefix(s);
    forall i, j | 0 <= i < j < |Decided(s)| ensures Decided(s)[i].item != Decided(s)[j].item {
      assert Decided(s)[i].item == s.enqueued[i] && Decided(s)[j].item == s.enqueued[j];
    }
    assert forall i :: 0 <= i < |Announced(s)| ==> Announced(s)[i] == Decided(s)[i];
  }

  /** An item with a completion channel is signalled exactly when it is fully handled, and never twice. */
  lemma SignalledOnce<F(!new)>(s: State<F>, h: Handled<F>)
    requires Reachable(s)
    ensures h in s.signals <==> h in Announced(s) && h.item.done
    ensures NoRepeats(s.signals)
  {
    ReachableInvariant(s);
    FilterMember(Announced(s), HasChannel, h);
    DecidedNoRepeats(s);
    FilterNoRepeats(Announced(s), HasChannel);
  }

  lemma WrittenMembers<F(!new)>(hs: seq<Handled<F>>, x: Item<F>, fate: Fate)
    requires NoRepeats(hs) && Handled(x, fate) in hs
    ensures x in Items(Filter(hs, IsWritten)) <==> fate == Written
  {
    var written := Filter(hs, IsWritten);
    FilterMember(hs, IsWritten, Handled(x, fate));
    if x in Items(written) {
      var i :| 0 <= i < |written| && Items(written)[i] == x;
      FilterMember(hs, IsWritten, written[i]);
    }
    if fate == Written {
      var i :| 0 <= i < |written| && written[i] == Handled(x, fate);
      assert Items(written)[i] == x;
    }
  }

  /** A synchronous write returns success exactly when its frame is on the wire. */
  lemma SynchronousResult<F(!new)>(s: State<F>, p: Pid, fate: Fate)
    requires Reachable(s) && Enabled(s, Collect(p, fate))
    ensures Step(s, Collect(p, fate)).producers[p] == Returned(s.producers[p].item in s.wire)
  {
    var x := s.producers[p].item;
    ReachableInvariant(s);
    SignalledOnce(s, Handled(x, fate));
    DecidedNoRepeats(s);
    WrittenMembers(Decided(s), x, fate);
  }

  /** An item whose call has given it up. */
  ghost predicate Abandoned<F(!new)>(s: State<F>, id: nat) {
    && id < s.nextId
    && (forall i :: 0 <= i < |s.enqueued| ==> s.enqueued[i].id != id)
    && (forall p :: p in s.producers && Carries(s.producers[p]) ==> s.producers[p].item.id != id)
  }

  lemma AbandonedStep<F(!new)>(s: State<F>, a: Action<F>, id: nat)
    requires Abandoned(s, id) && Enabled(s, a)
    ensures Abandoned(Step(s, a), id)
  {
    if a.Send? {
      assert Carries(s.producers[a.pid]);
    } else {
      assert Step(s, a).enqueued == s.enqueued && Step(s, a).nextId >= s.nextId;
    }
  }

  lemma {:induction false} AbandonedRun<F(!new)>(s: State<F>, actions: seq<Action<F>>, id: nat)
    requires Abandoned(s, id) && Valid(s, actions)
    ensures Abandoned(Run(s, actions), id)
    decreases |actions|
  {
    if actions != [] {
      AbandonedStep(s, actions[0], id);
      AbandonedRun(Step(s, actions[0]), actions[1..], id);
    }
  }

  lemma WireEnqueued<F(!new)>(s: State<F>, x: Item<F>)
    requires Invariant(s) && x in s.wire
    ensures x in s.enqueued
  {
    var written := Filter(Decided(s), IsWritten);
    var i :| 0 <= i < |written| && written[i].item == x;
    FilterMember(Decided(s), IsWritten, written[i]);
    var j :| 0 <= j < |Decided(s)| && Decided(s)[j] == written[i];
    DecidedPrefix(s);
    assert Items(Decided(s))[j] == s.enqueued[j];
  }

  /** A call that times out at the queue, or finds it full, never has its frame on the wire, then or later. */
  lemma GivenUpNeverWritten<F(!new)>(s: State<F>, p: Pid, actions: seq<Action<F>>)
    requires Reachable(s) && Enabled(s, GiveUp(p)) && Valid(Step(s, GiveUp(p)), actions)
    ensures s.producers[p].item !in Run(Step(s, GiveUp(p)), actions).enqueued
    ensures s.producers[p].item !in Run(Step(s, GiveUp(p)), actions).wire
  {
    var x, t := s.producers[p].item, Step(s, GiveUp(p));
    var u := Run(t, actions);
    ReachableInvariant(s);
    GiveUpAbandons(s, p);
    AbandonedRun(t, actions, x.id);
    InvariantStep(s, GiveUp(p));
    InvariantRun(t, actions);
    if x in u.wire {
      WireEnqueued(u, x);
    }
  }

  /** A call refused at the closed flag or at the counter leaves no item behind, anywhere. */
  lemma RefusedMakesNoItem<F(!new)>(s: State<F>, a: Action<F>)
    requires Enabled(s, a) && (a.LoadClosed? || a.LoadCounter?) && Step(s, a).producers[a.pid].Returned?
    ensures Step(s, a) == s.(producers := s.producers[a.pid := Returned(false)])
    ensures s.Closed() || s.counter >= s.capacity
  {
  }

  lemma GiveUpAbandons<F(!new)>(s: State<F>, p: Pid)
    requires Fresh(s) && Enabled(s, GiveUp(p))
    ensures Abandoned(Step(s, GiveUp(p)), s.producers[p].item.id)
  {
    assert Carries(s.producers[p]);
  }

  // ----- Close -----

  /** At most one more frame is written after the closed flag is set: the one already past the check. */
  lemma CloseBound<F(!new)>(s: State<F>)
    requires Reachable(s) && s.Closed()
    ensures s.wireAtClose <= |s.wire| <= s.wireAtClose + 1
  {
    ReachableInvariant(s);
  }

  /** The writer has left its loop by the time `Close` returns. */
  lemma {:induction false} DrainedExited<F(!new)>(s: State<F>, actions: seq<Action<F>>)
    requires Valid(s, actions) && (s.phase == Drained ==> s.writer.Exited?)
    ensures Run(s, actions).phase == Drained ==> Run(s, actions).writer.Exited?
    decreases |actions|
  {
    if actions != [] {
      DrainedExited(Step(s, actions[0]), actions[1..]);
    }
  }

  /** Once `Close` has returned the wire is final; unless a write failed, every enqueued item has been handled. */
  lemma AfterClose<F(!new)>(s: State<F>, actions: seq<Action<F>>)
    requires Reachable(s) && s.phase == Drained && Valid(s, actions)
    ensures Run(s, actions).wire == s.wire
    ensures NoneOf(s.handled, WriteFailed) ==> Items(s.handled) == s.enqueued
  {
    ReachableInvariant(s);
    var capacity: nat, timeout: nat, now: int, earlier: seq<Action<F>> :|
      Valid(Initial(capacity, timeout, now), earlier) && Run(Initial(capacity, timeout, now), earlier) == s;
    DrainedExited(Initial(capacity, timeout, now), earlier);
    StoppedRun(s, actions);
  }

  /** A call that has seen the connection open and has not finished with the channel. */
  predicate PastCheck<F>(p: Producer<F>) {
    p.Open? || p.Ready? || p.Stamped? || p.Counted?
  }

  ghost predicate Quiet<F(!new)>(s: State<F>) {
    !s.panicked && s.Closed() && forall p :: p in s.producers ==> !PastCheck(s.producers[p])
  }

  /** A panic needs a call that checked before the flag was set: without one, none can ever happen. */
  lemma {:induction false} QuietNeverPanics<F(!new)>(s: State<F>, actions: seq<Action<F>>)
    requires Quiet(s) && Valid(s, actions)
    ensures !Run(s, actions).panicked
    decreases |actions|
  {
    if actions != [] {
      QuietNeverPanics(Step(s, actions[0]), actions[1..]);
    }
  }
}
