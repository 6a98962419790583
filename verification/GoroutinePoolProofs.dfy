/** What the pool's counters mean in every interleaving, and by how much its limits can be overrun. */
module GoroutinePoolProofs {
  import opened Counting
  import opened GoroutinePool

  // ----- Who is where -----

  predicate IsSent(c: Caller) { c.Sent? }

  /** Has enqueued a task and not yet added it to the queue counter. */
  predicate Uncounted(c: Caller) { c.Sent? || c.Totalled? }

  /** Is past the check of `startWorker` and has not added its worker. */
  predicate IsPassed(c: Caller) { c.Passed? }

  /** Has added its worker to the counter and not started it. */
  predicate IsCounted(c: Caller) { c.Counted? }

  predicate Present(w: Worker) { true }

  predicate IsTook(w: Worker) { w.Took? }

  predicate Busy(w: Worker) { w.Took? || w.Running? }

  predicate IsExiting(w: Worker) { w.Exiting? }

  // ----- The counters -----

  ghost predicate Numbered(s: State) {
    forall w :: w in s.crew ==> w < s.hired
  }

  ghost predicate Staffed(s: State) {
    s.shared.workers == Count(s.crew, Present) + Count(s.callers, IsCounted)
  }

  ghost predicate Active(s: State) {
    s.shared.active == Count(s.crew, Present) - Count(s.crew, IsExiting)
  }

  ghost predicate InOrder(s: State) {
    s.shared.accepted == s.shared.taken + s.shared.queue
  }

  ghost predicate Totalling(s: State) {
    s.shared.total + Count(s.callers, IsSent) == |s.shared.accepted|
  }

  ghost predicate Completing(s: State) {
    |s.shared.taken| == Count(s.crew, Busy) + s.shared.completed
  }

  ghost predicate Queued(s: State) {
    && s.shared.queued + Count(s.callers, Uncounted) == |s.shared.queue| + Count(s.crew, IsTook)
    && |s.shared.queue| <= s.shared.maxWorkers * 2
  }

  /** The caller or worker of an action, before and after it. */
  function CallerAfter(s: State, a: Action): Caller
    requires Enabled(s, a) && (a.Submit? || a.Survey? || a.Act?)
  {
    match a
    case Submit(_, task) => Sending(task)
    case Survey(_) => Surveying
    case Act(id) => CallerNext(s.shared, s.callers[id])
  }

  function WorkerAfter(s: State, a: Action): Worker
    requires Enabled(s, a) && (a.Receive? || a.TimeOut? || a.Quit? || a.Work?)
  {
    match a
    case Receive(_) => Took(s.shared.queue[0])
    case TimeOut(_) => TimedOut
    case Quit(_) => Leaving
    case Work(w) => WorkerNext(s.shared, s.crew[w])
  }

  function One(b: bool): int {
    if b then 1 else 0
  }

  /** How one action changes the number of callers of some kind. */
  lemma CallersChange(s: State, a: Action, p: Caller -> bool)
    requires Enabled(s, a)
    ensures Count(Step(s, a).callers, p) == Count(s.callers, p)
            + if a.Submit? || a.Survey? || a.Act?
              then One(p(CallerAfter(s, a))) - One(a.id in s.callers && p(s.callers[a.id])) else 0
  {
    if a.Submit? || a.Survey? || a.Act? {
      CountUpdate(s.callers, a.id, CallerAfter(s, a), p);
    }
  }

  /** How one action changes the number of workers of some kind. */
  lemma WorkersChange(s: State, a: Action, q: Worker -> bool)
    requires Enabled(s, a) && Numbered(s)
    ensures Count(Step(s, a).crew, q) == Count(s.crew, q)
            + if a.Act? then One(s.callers[a.id].Counted? && q(Waiting))
              else if a.Work? && s.crew[a.w].Exiting? then -One(q(Exiting))
              else if a.Receive? || a.TimeOut? || a.Quit? || a.Work?
              then One(q(WorkerAfter(s, a))) - One(q(s.crew[a.w])) else 0
  {
    if a.Act? {
      CountUpdate(s.crew, s.hired, Waiting, q);
    } else if a.Work? && s.crew[a.w].Exiting? {
      CountRemove(s.crew, a.w, q);
    } else if a.Receive? || a.TimeOut? || a.Quit? || a.Work? {
      CountUpdate(s.crew, a.w, WorkerAfter(s, a), q);
    }
  }

  lemma NumberedStep(s: State, a: Action)
    requires Numbered(s) && Enabled(s, a)
    ensures Numbered(Step(s, a))
  {
  }

  lemma StaffedStep(s: State, a: Action)
    requires Numbered(s) && Staffed(s) && Enabled(s, a)
    ensures Staffed(Step(s, a))
  {
    CallersChange(s, a, IsCounted);
    WorkersChange(s, a, Present);
  }

  lemma ActiveStep(s: State, a: Action)
    requires Numbered(s) && Active(s) && Enabled(s, a)
    ensures Active(Step(s, a))
  {
    WorkersChange(s, a, Present);
    WorkersChange(s, a, IsExiting);
  }

  lemma InOrderStep(s: State, a: Action)
    requires InOrder(s) && Enabled(s, a)
    ensures InOrder(Step(s, a))
  {
  }

  lemma TotallingStep(s: State, a: Action)
    requires Totalling(s) && Enabled(s, a)
    ensures Totalling(Step(s, a))
  {
    CallersChange(s, a, IsSent);
  }

  lemma CompletingStep(s: State, a: Action)
    requires Numbered(s) && Completing(s) && Enabled(s, a)
    ensures Completing(Step(s, a))
  {
    WorkersChange(s, a, Busy);
  }

  lemma QueuedStep(s: State, a: Action)
    requires Numbered(s) && Queued(s) && Enabled(s, a)
    ensures Queued(Step(s, a))
  {
    CallersChange(s, a, Uncounted);
    WorkersChange(s, a, IsTook);
  }

  ghost predicate Invariant(s: State) {
    Numbered(s) && Staffed(s) && Active(s) && InOrder(s) && Totalling(s) && Completing(s) && Queued(s)
  }

  lemma InvariantStep(s: State, a: Action)
    requires Invariant(s) && Enabled(s, a)
    ensures Invariant(Step(s, a))
  {
    NumberedStep(s, a);
    StaffedStep(s, a);
    ActiveStep(s, a);
    InOrderStep(s, a);
    TotallingStep(s, a);
    CompletingStep(s, a);
    QueuedStep(s, a);
  }

  lemma {:induction false} InvariantRun(s: State, actions: seq<Action>)
    requires Invariant(s) && Valid(s, actions)
    ensures Invariant(Run(s, actions))
    decreases |actions|
  {
    if actions != [] {
      InvariantStep(s, actions[0]);
      InvariantRun(Step(s, actions[0]), actions[1..]);
    }
  }

  lemma {:induction false} WaitersCounted(n: nat, q: Worker -> bool)
    ensures Count(Waiters(n), q) == if q(Waiting) then n else 0
  {
    if n == 0 {
      assert Waiters(0) == map[];
      CountZero(Waiters(0), q);
    } else {
      WaitersCounted(n - 1, q);
      var k: Id := n - 1;
      assert k !in Waiters(k);
      CountUpdate(Waiters(k), k, Waiting, q);
    }
  }

  lemma NoCallers(p: Caller -> bool)
    ensures Count<Id, Caller>(map[], p) == 0
  {
    CountZero<Id, Caller>(map[], p);
  }

  lemma InvariantInitial(minWorkers: nat, maxWorkers: nat)
    ensures Invariant(Initial(minWorkers, maxWorkers))
  {
    WaitersCounted(minWorkers, Present);
    WaitersCounted(minWorkers, IsExiting);
    WaitersCounted(minWorkers, IsTook);
    WaitersCounted(minWorkers, Busy);
    NoCallers(IsSent);
    NoCallers(Uncounted);
    NoCallers(IsCounted);
  }

  ghost predicate Reaches(minWorkers: nat, maxWorkers: nat, actions: seq<Action>, s: State) {
    Valid(Initial(minWorkers, maxWorkers), actions) && s == Run(Initial(minWorkers, maxWorkers), actions)
  }

  /** The meaning of the pool's counters in every reachable state. */
  lemma CounterMeaning(minWorkers: nat, maxWorkers: nat, actions: seq<Action>, s: State)
    requires Reaches(minWorkers, maxWorkers, actions, s)
    ensures s.shared.total + Count(s.callers, IsSent) == |s.shared.queue| + Count(s.crew, Busy) + s.shared.completed
    ensures s.shared.queued == |s.shared.queue| + Count(s.crew, IsTook) - Count(s.callers, Uncounted)
    ensures s.shared.workers == |s.crew| + Count(s.callers, IsCounted)
    ensures s.shared.active == |s.crew| - Count(s.crew, IsExiting)
    ensures s.shared.accepted == s.shared.taken + s.shared.queue
  {
    InvariantInitial(minWorkers, maxWorkers);
    InvariantRun(Initial(minWorkers, maxWorkers), actions);
    assert Where(s.crew, Present) == s.crew.Keys;
  }

  // ----- The limits -----

  /** Never more than `k` callers at once are past the check of `startWorker` without having added their worker. */
  ghost predicate Crowd(s: State, actions: seq<Action>, k: nat)
    requires Valid(s, actions)
    decreases |actions|
  {
    Count(s.callers, IsPassed) <= k && (actions != [] ==> Crowd(Step(s, actions[0]), actions[1..], k))
  }

  lemma {:induction false} OvershootRun(s: State, actions: seq<Action>, k: nat)
    requires k >= 1 && Valid(s, actions) && Crowd(s, actions, k)
    requires s.shared.workers + Count(s.callers, IsPassed) <= s.shared.maxWorkers + k - 1
    ensures var t := Run(s, actions);
            t.shared.workers + Count(t.callers, IsPassed) <= s.shared.maxWorkers + k - 1
    decreases |actions|
  {
    if actions != [] {
      CallersChange(s, actions[0], IsPassed);
      OvershootRun(Step(s, actions[0]), actions[1..], k);
    }
  }

  /** The worker count exceeds its maximum by less than the number of callers that race in `startWorker`. */
  lemma Overshoot(minWorkers: nat, maxWorkers: nat, actions: seq<Action>, s: State, k: nat)
    requires minWorkers <= maxWorkers && k >= 1 && Reaches(minWorkers, maxWorkers, actions, s)
    requires Crowd(Initial(minWorkers, maxWorkers), actions, k)
    ensures s.shared.workers <= maxWorkers + k - 1
  {
    NoCallers(IsPassed);
    OvershootRun(Initial(minWorkers, maxWorkers), actions, k);
  }

  /** Has found more workers than the minimum and may be about to leave. */
  function Departing(minWorkers: int): Worker -> bool {
    (w: Worker) => w.Leaving? || w.Exiting? || (w.Judging? && w.workers > minWorkers)
  }

  /** Never more than `k` workers at once are between that finding and their departure. */
  ghost predicate Exodus(s: State, actions: seq<Action>, k: nat)
    requires Valid(s, actions)
    decreases |actions|
  {
    && Count(s.crew, Departing(s.shared.minWorkers)) <= k
    && (actions != [] ==> Exodus(Step(s, actions[0]), actions[1..], k))
  }

  ghost predicate Floor(s: State, k: nat) {
    || s.shared.cancelled
    || s.shared.workers - Count(s.crew, Departing(s.shared.minWorkers)) >= s.shared.minWorkers + 1 - k
  }

  lemma FloorStep(s: State, a: Action, k: nat)
    requires k >= 1 && Numbered(s) && Enabled(s, a) && Floor(s, k)
    requires Count(Step(s, a).crew, Departing(s.shared.minWorkers)) <= k
    ensures Floor(Step(s, a), k) && Step(s, a).shared.minWorkers == s.shared.minWorkers
  {
    WorkersChange(s, a, Departing(s.shared.minWorkers));
  }

  lemma {:induction false} FloorRun(s: State, actions: seq<Action>, k: nat)
    requires k >= 1 && Valid(s, actions) && Exodus(s, actions, k) && Numbered(s) && Floor(s, k)
    ensures Floor(Run(s, actions), k) && Run(s, actions).shared.minWorkers == s.shared.minWorkers
    decreases |actions|
  {
    if actions != [] {
      FloorStep(s, actions[0], k);
      NumberedStep(s, actions[0]);
      FloorRun(Step(s, actions[0]), actions[1..], k);
    }
  }

  /**
   Until the pool is stopped, the worker count falls below its minimum by less than the number of
   workers that race to leave.
   */
  lemma Undershoot(minWorkers: nat, maxWorkers: nat, actions: seq<Action>, s: State, k: nat)
    requires k >= 1 && Reaches(minWorkers, maxWorkers, actions, s) && !s.shared.cancelled
    requires Exodus(Initial(minWorkers, maxWorkers), actions, k)
    ensures s.shared.workers >= minWorkers + 1 - k
  {
    WaitersCounted(minWorkers, Departing(minWorkers));
    WaitersCounted(minWorkers, Present);
    FloorRun(Initial(minWorkers, maxWorkers), actions, k);
  }

  // ----- A pool that cannot grow -----

  /** Nobody is past the check of `startWorker`, and no worker has found more than the minimum. */
  ghost predicate Fixed(s: State) {
    s.shared.cancelled ||
    (&& s.shared.workers == s.shared.maxWorkers == s.shared.minWorkers
     && (forall id :: id in s.callers ==> !s.callers[id].Passed?)
     && (forall w :: w in s.crew ==> !Departing(s.shared.minWorkers)(s.crew[w])))
  }

  lemma FixedStep(s: State, a: Action)
    requires Fixed(s) && Enabled(s, a)
    ensures Fixed(Step(s, a))
    ensures Step(s, a).shared.maxWorkers == s.shared.maxWorkers
  {
  }

  lemma {:induction false} FixedRun(s: State, actions: seq<Action>)
    requires Fixed(s) && Valid(s, actions)
    ensures Fixed(Run(s, actions)) && Run(s, actions).shared.maxWorkers == s.shared.maxWorkers
    decreases |actions|
  {
    if actions != [] {
      FixedStep(s, actions[0]);
      FixedRun(Step(s, actions[0]), actions[1..]);
    }
  }

  /** With equal limits the number of workers never changes until the pool is stopped, whoever races. */
  lemma FixedPool(size: nat, actions: seq<Action>, s: State)
    requires Reaches(size, size, actions, s) && !s.shared.cancelled
    ensures s.shared.workers == size
  {
    WaitersCounted(size, Departing(size));
    CountZero(Waiters(size), Departing(size));
    FixedRun(Initial(size, size), actions);
  }
}
