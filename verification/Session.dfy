/**
 One connection from its first frame on: the goroutine that authenticates and processes client
 frames, the tick generator, the data channel, the delivery loop with its pending batch, and the
 write queue of module `WriteQueue` underneath, all interleaved. Every reply and every batch goes
 through the queue's own atomic steps, so a goroutine waits in `Sending` while its call proceeds.

 A flush of the pending batch is not interleaved with another flush or with the loop's append; what
 happens when it is, is the subject of module `FlushOverlap`.

 The fields from `entered` on are history.
 */
module Session {
  import opened Options
  import Q = WriteQueue

  datatype Mode = Second | Minute

  /** The generator's symbol TICK_n carries its number. */
  datatype Tick = Tick(number: nat, mode: Mode)

  datatype Out = AuthAck | SubscribeAck | Pong | Batch(ticks: seq<Tick>) | ErrorReply

  /** A client frame with the verdict of the checks it goes through. */
  datatype ClientFrame =
    | Auth(accepted: bool)
    | Heartbeat(valid: bool)
    | Subscribe(mode: Option<Mode>)  // None: does not parse or does not validate
    | Other
    | Unreadable

  /** What the main goroutine does with the result of the send it is waiting for. */
  datatype Next = ThenDone | AuthAcked | Ponged | Subscribed | Explained

  /** Why the main goroutine ends: a timer, an end of reading, a frame it rejects, or a reply the queue refuses. */
  datatype Cause = NoCause | TimedOut | Stopped | Rejected | NotTaken(reply: Out)

  datatype Main = Start | Sending(frame: Out, next: Next) | Looping | Done

  datatype Delivery = NotStarted | Waiting | Flushing

  const MAIN: Q.Pid := 0
  const DELIVERY: Q.Pid := 1
  const DATA_CHANNEL: nat := 100

  datatype State = State(
    q: Q.State<Out>,
    main: Main,
    subscription: Option<Mode>,
    generating: bool,
    produced: nat,
    channel: seq<seq<Tick>>,
    delivery: Delivery,
    pending: seq<Tick>,
    entered: seq<Tick>,
    taken: seq<Tick>,
    consumed: seq<ClientFrame>,
    refusals: seq<Out>,
    cause: Cause)

  datatype Move =
    | Queue(action: Q.Action<Out>)
    | AuthTimeout
    | FirstFrame(frame: ClientFrame)
    | Resume
    | NextFrame(frame: ClientFrame)
    | StopReading
    | HeartbeatTimeout
    | Generate
    | TakeTicks
    | StartFlush
    | EndFlush

  function Initial(capacity: nat, timeout: nat, now: int): State {
    State(Q.Initial(capacity, timeout, now), Start, None, false, 0, [], NotStarted, [], [], [], [], [], NoCause)
  }

  // ----- Delivery -----

  /** `filterTicksBySubscription`. */
  function Matching(ticks: seq<Tick>, subscription: Option<Mode>): seq<Tick> {
    if subscription.None? then [] else OfMode(ticks, subscription.value)
  }

  function OfMode(ticks: seq<Tick>, mode: Mode): seq<Tick> {
    if ticks == [] then [] else
      var rest := OfMode(ticks[..|ticks| - 1], mode);
      if ticks[|ticks| - 1].mode == mode then rest + [ticks[|ticks| - 1]] else rest
  }

  /** The loop of the source, which appends the ticks it keeps to a fresh slice. */
  method FilterTicks(ticks: seq<Tick>, subscription: Option<Mode>) returns (filtered: seq<Tick>)
    ensures filtered == Matching(ticks, subscription)
  {
    filtered := [];
    if subscription.None? {
      return;
    }
    for i := 0 to |ticks|
      invariant filtered == OfMode(ticks[..i], subscription.value)
    {
      assert ticks[..i + 1][..i] == ticks[..i];
      if ticks[i].mode == subscription.value {
        filtered := filtered + [ticks[i]];
      }
    }
    assert ticks[..|ticks|] == ticks;
  }

  // ----- Moves -----

  predicate CanCall(s: State, p: Q.Pid) {
    p in s.q.producers ==> s.q.producers[p].Returned?
  }

  predicate HasResult(s: State, p: Q.Pid) {
    p in s.q.producers && s.q.producers[p].Returned?
  }

  predicate Enabled(s: State, m: Move) {
    !s.q.panicked &&
    match m
    case Queue(a) => !a.Call? && Q.Enabled(s.q, a)
    case AuthTimeout => s.main.Start? && CanCall(s, MAIN)
    case FirstFrame(_) => s.main.Start? && CanCall(s, MAIN)
    case Resume => s.main.Sending? && HasResult(s, MAIN)
    case NextFrame(_) => s.main.Looping? && CanCall(s, MAIN)
    case StopReading => s.main.Looping?
    case HeartbeatTimeout => s.main.Looping? && CanCall(s, MAIN)
    case Generate => s.generating && s.subscription.Some?
    case TakeTicks => s.delivery.Waiting? && s.channel != []
    case StartFlush => s.delivery.Waiting? && s.pending != [] && CanCall(s, DELIVERY)
    case EndFlush => s.delivery.Flushing? && HasResult(s, DELIVERY)
  }

  function Send(s: State, frame: Out, next: Next): State
    requires !s.q.panicked && CanCall(s, MAIN)
  {
    s.(q := Q.Step(s.q, Q.Call(MAIN, frame, false)), main := Sending(frame, next))
  }

  /** The error reply after which the goroutine ends. */
  function Fail(s: State, cause: Cause): State
    requires !s.q.panicked && CanCall(s, MAIN)
  {
    Send(s.(cause := cause), ErrorReply, ThenDone)
  }

  /** A rejected subscription is explained by an error reply of its own first. */
  function Explain(s: State): State
    requires !s.q.panicked && CanCall(s, MAIN)
  {
    Send(s.(cause := Rejected), ErrorReply, Explained)
  }

  function Process(s: State, frame: ClientFrame): State
    requires !s.q.panicked && CanCall(s, MAIN)
  {
    match frame
    case Heartbeat(true) => Send(s, Pong, Ponged)
    case Subscribe(Some(mode)) =>
      if s.subscription.Some? then Explain(s)
      else Send(s.(subscription := Some(mode)), SubscribeAck, Subscribed)
    case Subscribe(None) => Explain(s)
    case _ => Fail(s, Rejected)
  }

  function ProcessFirst(s: State, frame: ClientFrame): State
    requires !s.q.panicked && CanCall(s, MAIN)
  {
    match frame
    case Unreadable => s.(main := Done, cause := Rejected)
    case Auth(true) => Send(s, AuthAck, AuthAcked)
    case _ => Fail(s, Rejected)
  }

  /** The send is over; a failed pong or acknowledgement fails the frame that asked for it. */
  function Continue(s: State, next: Next, ok: bool): State
    requires !s.q.panicked && CanCall(s, MAIN)
  {
    match next
    case ThenDone => s.(main := Done)
    case Explained => Fail(s, s.cause)
    case AuthAcked =>
      if ok then s.(main := Looping, delivery := Waiting) else s.(main := Done, cause := NotTaken(AuthAck))
    case Ponged => if ok then s.(main := Looping) else Fail(s, NotTaken(Pong))
    case Subscribed => if ok then s.(main := Looping, generating := true) else Fail(s, NotTaken(SubscribeAck))
  }

  function Step(s: State, m: Move): State
    requires Enabled(s, m)
  {
    match m
    case Queue(a) => s.(q := Q.Step(s.q, a))
    case AuthTimeout => Fail(s, TimedOut)
    case FirstFrame(f) => ProcessFirst(s.(consumed := s.consumed + [f]), f)
    case Resume =>
      var ok := s.q.producers[MAIN].ok;
      Continue(if ok then s else s.(refusals := s.refusals + [s.main.frame]), s.main.next, ok)
    case NextFrame(f) => Process(s.(consumed := s.consumed + [f]), f)
    case StopReading => s.(main := Done, cause := Stopped)
    case HeartbeatTimeout => Fail(s, TimedOut)
    case Generate =>
      if |s.channel| >= DATA_CHANNEL then s
      else
        var tick := Tick(s.produced, s.subscription.value);
        s.(channel := s.channel + [[tick]], produced := s.produced + 1, entered := s.entered + [tick])
    case TakeTicks =>
      s.(channel := s.channel[1..], taken := s.taken + s.channel[0],
         pending := s.pending + Matching(s.channel[0], s.subscription))
    case StartFlush =>
      s.(q := Q.Step(s.q, Q.Call(DELIVERY, Batch(s.pending), false)), delivery := Flushing)
    case EndFlush =>
      s.(delivery := Waiting, pending := if s.q.producers[DELIVERY].ok then [] else s.pending)
  }

  predicate Valid(s: State, moves: seq<Move>)
    decreases |moves|
  {
    moves != [] ==> Enabled(s, moves[0]) && Valid(Step(s, moves[0]), moves[1..])
  }

  function Run(s: State, moves: seq<Move>): State
    requires Valid(s, moves)
    decreases |moves|
  {
    if moves == [] then s else Run(Step(s, moves[0]), moves[1..])
  }
}
