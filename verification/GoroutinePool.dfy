/**
 The goroutine pool as atomic steps of concurrent callers (`Submit` and the manager's `optimize`) and
 workers. Every load and every add of a counter is a step of its own, so all interleavings are runs.
 Timers may fire at any moment; a task's panic is recovered, so running a task always completes it.

 The fields from `accepted` on are history.
 */
module GoroutinePool {

  type Id = nat
  type Task = nat

  /** What a caller does once it is through `startWorker`. */
  datatype Origin = AfterSend | QueueFull(task: Task) | Manager

  datatype Caller =
    | Sending(task: Task)
    | Sent(first: bool)
    | Totalled(first: bool)
    | Weighing
    | Weighed(workers: int)
    | Scaling(origin: Origin)
    | Starting(origin: Origin)
    | Passed(origin: Origin)
    | Counted(origin: Origin)
    | Retrying(task: Task)
    | Surveying
    | Surveyed(workers: int)
    | Rested
    | Returned(accepted: bool)
  {
    /** Is between two calls. */
    predicate Idle() {
      Rested? || Returned?
    }
  }

  datatype Worker =
    | Waiting
    | Took(task: Task)
    | Running(task: Task)
    | TimedOut
    | Judging(workers: int)
    | Leaving
    | Exiting

  /** The pool's counters and its task channel. */
  datatype Shared = Shared(
    minWorkers: int,
    maxWorkers: int,
    workers: int,
    active: int,
    total: int,
    completed: int,
    queued: int,
    queue: seq<Task>,
    cancelled: bool,
    accepted: seq<Task>,
    taken: seq<Task>)
  {
    predicate Room() {
      |queue| < maxWorkers * 2
    }

    function Accept(task: Task): Shared {
      this.(queue := queue + [task], accepted := accepted + [task])
    }
  }

  datatype State = State(shared: Shared, callers: map<Id, Caller>, crew: map<Id, Worker>, hired: nat)

  datatype Action =
    | Submit(id: Id, task: Task)
    | Survey(id: Id)
    | Act(id: Id)
    | Receive(w: Id)
    | TimeOut(w: Id)
    | Quit(w: Id)
    | Work(w: Id)
    | Cancel

  /** A new pool: the limits are already normalised and the least number of workers wait for tasks. */
  function Initial(minWorkers: nat, maxWorkers: nat): State {
    State(Shared(minWorkers, maxWorkers, minWorkers, minWorkers, 0, 0, 0, [], false, [], []),
          map[], Waiters(minWorkers), minWorkers)
  }

  function Waiters(n: nat): (crew: map<Id, Worker>)
    ensures forall w: Id :: w in crew <==> w < n
  {
    if n == 0 then map[] else Waiters(n - 1)[n - 1 := Waiting]
  }

  // ----- One step of a caller -----

  /** After `startWorker`, whether or not it started one. */
  function Resume(origin: Origin): Caller {
    match origin
    case AfterSend => Returned(true)
    case QueueFull(task) => Retrying(task)
    case Manager => Rested
  }

  function CallerNext(g: Shared, c: Caller): Caller {
    match c
    case Sending(task) => if g.Room() then Sent(true) else Scaling(QueueFull(task))
    case Sent(first) => Totalled(first)
    case Totalled(first) => if first then Weighing else Returned(true)
    case Weighing => Weighed(g.workers)
    case Weighed(n) => if n < g.maxWorkers && g.queued > n * 2 then Scaling(AfterSend) else Returned(true)
    case Scaling(origin) =>
      if g.workers < g.maxWorkers then Starting(origin)
      else if origin.QueueFull? then Returned(false) else Resume(origin)
    case Starting(origin) => if g.workers >= g.maxWorkers then Resume(origin) else Passed(origin)
    case Passed(origin) => Counted(origin)
    case Counted(origin) => Resume(origin)
    case Retrying(task) => if g.Room() then Sent(false) else Returned(false)
    case Surveying => Surveyed(g.workers)
    case Surveyed(n) => if g.queued > n * 3 && n < g.maxWorkers then Starting(Manager) else Rested
    case Rested => c
    case Returned(_) => c
  }

  function CallerEffect(g: Shared, c: Caller): Shared {
    match c
    case Sending(task) => if g.Room() then g.Accept(task) else g
    case Retrying(task) => if g.Room() then g.Accept(task) else g
    case Sent(_) => g.(total := g.total + 1)
    case Totalled(_) => g.(queued := g.queued + 1)
    case Passed(_) => g.(workers := g.workers + 1)
    case Counted(_) => g.(active := g.active + 1)
    case _ => g
  }

  // ----- One step of a worker -----

  function WorkerNext(g: Shared, w: Worker): Worker {
    match w
    case Took(task) => Running(task)
    case Running(_) => Waiting
    case TimedOut => Judging(g.workers)
    case Judging(n) => if n > g.minWorkers && g.queued < n / 4 then Leaving else Waiting
    case Leaving => Exiting
    case _ => w
  }

  function WorkerEffect(g: Shared, w: Worker): Shared {
    match w
    case Took(_) => g.(queued := g.queued - 1)
    case Running(_) => g.(completed := g.completed + 1)
    case Leaving => g.(active := g.active - 1)
    case Exiting => g.(workers := g.workers - 1)
    case _ => g
  }

  // ----- Actions -----

  predicate Enabled(s: State, a: Action) {
    match a
    case Submit(id, _) => id in s.callers ==> s.callers[id].Idle()
    case Survey(id) => id in s.callers ==> s.callers[id].Idle()
    case Act(id) => id in s.callers && !s.callers[id].Idle()
    case Receive(w) => w in s.crew && s.crew[w].Waiting? && s.shared.queue != []
    case TimeOut(w) => w in s.crew && s.crew[w].Waiting?
    case Quit(w) => w in s.crew && s.crew[w].Waiting? && s.shared.cancelled
    case Work(w) => w in s.crew && !s.crew[w].Waiting?
    case Cancel => true
  }

  function Step(s: State, a: Action): State
    requires Enabled(s, a)
  {
    var g := s.shared;
    match a
    case Submit(id, task) => s.(callers := s.callers[id := Sending(task)])
    case Survey(id) => s.(callers := s.callers[id := Surveying])
    case Act(id) =>
      var c := s.callers[id];
      var t := s.(callers := s.callers[id := CallerNext(g, c)], shared := CallerEffect(g, c));
      if c.Counted? then t.(crew := s.crew[s.hired := Waiting], hired := s.hired + 1) else t
    case Receive(w) =>
      s.(crew := s.crew[w := Took(g.queue[0])], shared := g.(queue := g.queue[1..], taken := g.taken + [g.queue[0]]))
    case TimeOut(w) => s.(crew := s.crew[w := TimedOut])
    case Quit(w) => s.(crew := s.crew[w := Leaving])
    case Work(w) =>
      var x := s.crew[w];
      s.(crew := if x.Exiting? then s.crew - {w} else s.crew[w := WorkerNext(g, x)], shared := WorkerEffect(g, x))
    case Cancel => s.(shared := g.(cancelled := true))
  }

  // ----- Runs -----

  predicate Valid(s: State, actions: seq<Action>)
    decreases |actions|
  {
    actions != [] ==> Enabled(s, actions[0]) && Valid(Step(s, actions[0]), actions[1..])
  }

  function Run(s: State, actions: seq<Action>): State
    requires Valid(s, actions)
    decreases |actions|
  {
    if actions == [] then s else Run(Step(s, actions[0]), actions[1..])
  }
}
