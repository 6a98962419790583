/**
 A connection's asynchronous write queue, one atomic operation per action: the producers inside
 `WriteFrameAsync` and `WriteFrameSync`, the bounded channel, the single writer loop, the atomic
 length counter, and `Close`. A send on the closed channel panics and ends the run.

 The fields from `enqueued` on are history: they record what happened and no action looks at them.
 */
module WriteQueue {

  type Pid = nat

  /** `done` says whether the item carries a completion channel, as the synchronous writes do. */
  datatype Item<F> = Item(id: nat, frame: F, deadline: int, done: bool)

  datatype Fate = Written | WriteFailed | Expired | Discarded

  datatype Handled<F> = Handled(item: Item<F>, fate: Fate)

  /** Where a goroutine is in its call. */
  datatype Producer<F> =
    | Called(frame: F, sync: bool)    // before loading `closed`
    | Open(frame: F)                  // asynchronous: before loading the counter
    | Ready(frame: F, sync: bool)     // before reading the clock for the deadline
    | Stamped(item: Item<F>)          // before incrementing the counter
    | Counted(item: Item<F>)          // at the select
    | BackingOut                      // before decrementing the counter again
    | Awaiting(item: Item<F>)         // synchronous: waiting on the completion channel
    | Returned(ok: bool)

  /** Where the writer loop is. */
  datatype Writer<F> =
    | Receiving
    | Got(item: Item<F>)                     // before loading `closed`
    | Timing(item: Item<F>)                  // before comparing the deadline
    | Writing(item: Item<F>)                 // at the write
    | Signalling(item: Item<F>, fate: Fate)  // before the completion channel
    | Releasing(item: Item<F>, fate: Fate)   // before decrementing the counter
    | Exited

  datatype ClosePhase = NotClosed | FlagSet | ChannelClosed | Drained

  datatype State<F> = State(
    capacity: nat,
    timeout: nat,
    now: int,
    nextId: nat,
    producers: map<Pid, Producer<F>>,
    queue: seq<Item<F>>,
    counter: int,
    writer: Writer<F>,
    phase: ClosePhase,
    panicked: bool,
    enqueued: seq<Item<F>>,
    handled: seq<Handled<F>>,
    wire: seq<Item<F>>,
    signals: seq<Handled<F>>,
    wireAtClose: nat)
  {
    predicate Closed() {
      phase != NotClosed
    }

    predicate ChannelShut() {
      phase == ChannelClosed || phase == Drained
    }

    /** A buffered send needs a free slot; with no buffer the writer must be waiting. */
    predicate Room() {
      |queue| < capacity || (capacity == 0 && writer.Receiving? && queue == [])
    }
  }

  datatype Action<F> =
    | Tick(elapsed: nat)
    | Call(pid: Pid, frame: F, sync: bool)
    | LoadClosed(pid: Pid)
    | LoadCounter(pid: Pid)
    | Stamp(pid: Pid)
    | Increment(pid: Pid)
    | Send(pid: Pid)
    | GiveUp(pid: Pid)
    | Decrement(pid: Pid)
    | Collect(pid: Pid, fate: Fate)
    | Receive
    | ReceiveEnd
    | WriterLoadsClosed
    | WriterComparesDeadline
    | Write(ok: bool)
    | Signal
    | Release
    | SetClosed
    | CloseChannel
    | AwaitWriter

  function Initial<F>(capacity: nat, timeout: nat, now: int): State<F> {
    State(capacity, timeout, now, 0, map[], [], 0, Receiving, NotClosed, false, [], [], [], [], 0)
  }

  // ----- Actions -----

  predicate Enabled<F(==)>(s: State<F>, a: Action<F>) {
    !s.panicked &&
    match a
    case Tick(_) => true
    case Call(p, _, _) => p in s.producers ==> s.producers[p].Returned?
    case LoadClosed(p) => p in s.producers && s.producers[p].Called?
    case LoadCounter(p) => p in s.producers && s.producers[p].Open?
    case Stamp(p) => p in s.producers && s.producers[p].Ready?
    case Increment(p) => p in s.producers && s.producers[p].Stamped?
    case Send(p) => p in s.producers && s.producers[p].Counted? && (s.ChannelShut() || s.Room())
    case GiveUp(p) =>
      && p in s.producers && s.producers[p].Counted?
      && (if s.producers[p].item.done then s.now >= s.producers[p].item.deadline
          else !s.ChannelShut() && !s.Room())
    case Decrement(p) => p in s.producers && s.producers[p].BackingOut?
    case Collect(p, fate) =>
      && p in s.producers && s.producers[p].Awaiting?
      && Handled(s.producers[p].item, fate) in s.signals
    case Receive => s.writer.Receiving? && s.queue != []
    case ReceiveEnd => s.writer.Receiving? && s.queue == [] && s.ChannelShut()
    case WriterLoadsClosed => s.writer.Got?
    case WriterComparesDeadline => s.writer.Timing?
    case Write(_) => s.writer.Writing?
    case Signal => s.writer.Signalling?
    case Release => s.writer.Releasing?
    case SetClosed => !s.Closed()
    case CloseChannel => s.phase == FlagSet
    case AwaitWriter => s.phase == ChannelClosed && s.writer.Exited?
  }

  function Become<F>(s: State<F>, p: Pid, next: Producer<F>): State<F> {
    s.(producers := s.producers[p := next])
  }

  function Step<F(==)>(s: State<F>, a: Action<F>): State<F>
    requires Enabled(s, a)
  {
    match a
    case Tick(d) => s.(now := s.now + d)
    case Call(p, f, sync) => Become(s, p, Called(f, sync))
    case LoadClosed(p) =>
      var c := s.producers[p];
      Become(s, p, if s.Closed() then Returned(false) else if c.sync then Ready(c.frame, true) else Open(c.frame))
    case LoadCounter(p) =>
      Become(s, p, if s.counter >= s.capacity then Returned(false) else Ready(s.producers[p].frame, false))
    case Stamp(p) =>
      var c := s.producers[p];
      Become(s, p, Stamped(Item(s.nextId, c.frame, s.now + s.timeout, c.sync))).(nextId := s.nextId + 1)
    case Increment(p) => Become(s, p, Counted(s.producers[p].item)).(counter := s.counter + 1)
    case Send(p) => if s.ChannelShut() then s.(panicked := true) else Enqueue(s, p)
    case GiveUp(p) => Become(s, p, BackingOut)
    case Decrement(p) => Become(s, p, Returned(false)).(counter := s.counter - 1)
    case Collect(p, fate) => Become(s, p, Returned(fate == Written))
    case Receive => s.(queue := s.queue[1..], writer := Got(s.queue[0]))
    case ReceiveEnd => s.(writer := Exited)
    case WriterLoadsClosed =>
      var i := s.writer.item;
      s.(writer := if s.Closed() then Signalling(i, Discarded) else Timing(i))
    case WriterComparesDeadline =>
      var i := s.writer.item;
      s.(writer := if s.now > i.deadline then Signalling(i, Expired) else Writing(i))
    case Write(ok) =>
      var i := s.writer.item;
      if ok then s.(writer := Signalling(i, Written), wire := s.wire + [i])
      else s.(writer := Signalling(i, WriteFailed))
    case Signal =>
      var w := s.writer;
      s.(writer := Releasing(w.item, w.fate), 
         signals := if w.item.done then s.signals + [Handled(w.item, w.fate)] else s.signals)
    case Release =>
      var w := s.writer;
      s.(writer := if w.fate == WriteFailed then Exited else Receiving, counter := s.counter - 1,
         handled := s.handled + [Handled(w.item, w.fate)])
    case SetClosed => s.(phase := FlagSet, wireAtClose := |s.wire|)
    case CloseChannel => s.(phase := ChannelClosed)
    case AwaitWriter => s.(phase := Drained)
  }

  /** A successful send. Without a buffer the item goes straight to the waiting writer. */
  function Enqueue<F>(s: State<F>, p: Pid): State<F>
    requires p in s.producers && s.producers[p].Counted?
  {
    var i := s.producers[p].item;
    var t := Become(s, p, if i.done then Awaiting(i) else Returned(true)).(enqueued := s.enqueued + [i]);
    if s.capacity == 0 then t.(writer := Got(i)) else t.(queue := s.queue + [i])
  }

  // ----- Runs -----

  predicate Valid<F(==)>(s: State<F>, actions: seq<Action<F>>)
    decreases |actions|
  {
    actions != [] ==> Enabled(s, actions[0]) && Valid(Step(s, actions[0]), actions[1..])
  }

  function Run<F(==)>(s: State<F>, actions: seq<Action<F>>): State<F>
    requires Valid(s, actions)
    decreases |actions|
  {
    if actions == [] then s else Run(Step(s, actions[0]), actions[1..])
  }
}
