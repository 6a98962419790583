/**
 What a call to the pool comes to, in every interleaving: which calls have their task accepted, and from
 which loads of the counters callers add workers and workers leave.
 */
module GoroutinePoolCalls {
  import opened Counting
  import opened GoroutinePool
  import opened GoroutinePoolProofs

  // ----- One call of Submit -----

  /** What the second log has beyond the length of the first. */
  function Added(before: seq<Task>, after: seq<Task>): seq<Task> {
    if |before| <= |after| then after[|before|..] else []
  }

  /** The tasks that the steps of one caller put into the queue. */
  ghost function Sends(s: State, actions: seq<Action>, id: Id): seq<Task>
    requires Valid(s, actions)
    decreases |actions|
  {
    if actions == [] then [] else
      var t := Step(s, actions[0]);
      (if actions[0] == Act(id) then Added(s.shared.accepted, t.shared.accepted) else [])
      + Sends(t, actions[1..], id)
  }

  predicate Calls(a: Action, id: Id) {
    (a.Submit? || a.Survey?) && a.id == id
  }

  /** The caller makes no new call. */
  ghost predicate SameCall(actions: seq<Action>, id: Id) {
    forall i :: 0 <= i < |actions| ==> !Calls(actions[i], id)
  }

  /** Has not sent its task. */
  predicate Carrying(c: Caller) {
    match c
    case Sending(_) => true
    case Retrying(_) => true
    case Scaling(origin) => origin.QueueFull?
    case Starting(origin) => origin.QueueFull?
    case Passed(origin) => origin.QueueFull?
    case Counted(origin) => origin.QueueFull?
    case _ => false
  }

  function Carried(c: Caller): Task
    requires Carrying(c)
  {
    match c
    case Sending(task) => task
    case Retrying(task) => task
    case Scaling(origin) => origin.task
    case Starting(origin) => origin.task
    case Passed(origin) => origin.task
    case Counted(origin) => origin.task
  }

  /** Has sent its task and not returned. */
  predicate Committed(c: Caller) {
    match c
    case Sent(_) => true
    case Totalled(_) => true
    case Weighing => true
    case Weighed(_) => true
    case Scaling(origin) => origin.AfterSend?
    case Starting(origin) => origin.AfterSend?
    case Passed(origin) => origin.AfterSend?
    case Counted(origin) => origin.AfterSend?
    case _ => false
  }

  /** How far the call with this task has come when it has sent these tasks. */
  predicate Along(c: Caller, task: Task, sent: seq<Task>) {
    || (Carrying(c) && Carried(c) == task && sent == [])
    || (Committed(c) && sent == [task])
    || (c == Returned(true) && sent == [task])
    || (c == Returned(false) && sent == [])
  }

  lemma AlongStep(g: Shared, c: Caller, task: Task, sent: seq<Task>)
    requires Along(c, task, sent)
    ensures Along(CallerNext(g, c), task, sent + Added(g.accepted, CallerEffect(g, c).accepted))
  {
    if Carrying(c) && (c.Sending? || c.Retrying?) && g.Room() {
      assert Added(g.accepted, CallerEffect(g, c).accepted) == [task];
    } else {
      assert Added(g.accepted, CallerEffect(g, c).accepted) == [];
      assert sent + [] == sent;
    }
  }

  lemma OthersLeave(s: State, a: Action, id: Id)
    requires Enabled(s, a) && id in s.callers && !Calls(a, id) && a != Act(id)
    ensures id in Step(s, a).callers && Step(s, a).callers[id] == s.callers[id]
  {
  }

  lemma {:induction false} AlongRun(s: State, actions: seq<Action>, id: Id, task: Task, sent: seq<Task>)
    requires Valid(s, actions) && SameCall(actions, id) && id in s.callers && Along(s.callers[id], task, sent)
    ensures id in Run(s, actions).callers
    ensures Along(Run(s, actions).callers[id], task, sent + Sends(s, actions, id))
    decreases |actions|
  {
    if actions == [] {
      assert sent + [] == sent;
    } else {
      var a, t := actions[0], Step(s, actions[0]);
      if a == Act(id) {
        AlongStep(s.shared, s.callers[id], task, sent);
        var added := Added(s.shared.accepted, t.shared.accepted);
        AlongRun(t, actions[1..], id, task, sent + added);
        assert sent + added + Sends(t, actions[1..], id) == sent + (added + Sends(t, actions[1..], id));
      } else {
        assert !Calls(a, id);
        OthersLeave(s, a, id);
        AlongRun(t, actions[1..], id, task, sent);
        assert [] + Sends(t, actions[1..], id) == Sends(t, actions[1..], id);
      }
    }
  }

  /**
   Whatever the others do meanwhile, a call that returns true has put its task into the queue, once; a call
   that returns false has put nothing there.
   */
  lemma SubmitExactly(s: State, id: Id, task: Task, actions: seq<Action>) returns (c: Caller, sent: seq<Task>)
    requires Enabled(s, Submit(id, task)) && Valid(Step(s, Submit(id, task)), actions) && SameCall(actions, id)
    ensures id in Run(Step(s, Submit(id, task)), actions).callers
    ensures c == Run(Step(s, Submit(id, task)), actions).callers[id]
    ensures sent == Sends(Step(s, Submit(id, task)), actions, id)
    ensures sent == [] || sent == [task]
    ensures c.Idle() ==> c.Returned? && (c.accepted <==> sent == [task])
  {
    var t := Step(s, Submit(id, task));
    AlongRun(t, actions, id, task, []);
    c, sent := Run(t, actions).callers[id], Sends(t, actions, id);
    assert [] + sent == sent;
  }

  // ----- All calls together -----

  /** Calls that return this answer. */
  ghost function Answers(s: State, actions: seq<Action>, answer: bool): nat
    requires Valid(s, actions)
    decreases |actions|
  {
    if actions == [] then 0 else
      Answers(Step(s, actions[0]), actions[1..], answer)
      + if actions[0].Act? && CallerNext(s.shared, s.callers[actions[0].id]) == Returned(answer) then 1 else 0
  }

  ghost function Submits(actions: seq<Action>): nat {
    if actions == [] then 0 else Submits(actions[1..]) + if actions[0].Submit? then 1 else 0
  }

  lemma AcceptedStep(s: State, a: Action)
    requires Enabled(s, a)
    ensures |Step(s, a).shared.accepted| - Count(Step(s, a).callers, Committed)
         == |s.shared.accepted| - Count(s.callers, Committed)
            + if a.Act? && CallerNext(s.shared, s.callers[a.id]) == Returned(true) then 1 else 0
  {
    CallersChange(s, a, Committed);
  }

  lemma CarryingStep(s: State, a: Action)
    requires Enabled(s, a)
    ensures Count(Step(s, a).callers, Carrying) + |Step(s, a).shared.accepted|
         == Count(s.callers, Carrying) + |s.shared.accepted| + (if a.Submit? then 1 else 0)
            - if a.Act? && CallerNext(s.shared, s.callers[a.id]) == Returned(false) then 1 else 0
  {
    CallersChange(s, a, Carrying);
  }

  lemma {:induction false} CallsRun(s: State, actions: seq<Action>)
    requires Valid(s, actions)
    ensures |Run(s, actions).shared.accepted| - Count(Run(s, actions).callers, Committed)
         == |s.shared.accepted| - Count(s.callers, Committed) + Answers(s, actions, true)
    ensures Count(Run(s, actions).callers, Carrying) + |Run(s, actions).shared.accepted|
         == Count(s.callers, Carrying) + |s.shared.accepted| + Submits(actions) - Answers(s, actions, false)
    decreases |actions|
  {
    if actions != [] {
      AcceptedStep(s, actions[0]);
      CarryingStep(s, actions[0]);
      CallsRun(Step(s, actions[0]), actions[1..]);
    }
  }

  /**
   The accepted tasks are those of the calls that returned true and of those about to; every call is answered
   once, except those still under way.
   */
  lemma CallsAnswered(minWorkers: nat, maxWorkers: nat, actions: seq<Action>, s: State)
    requires Reaches(minWorkers, maxWorkers, actions, s)
    ensures |s.shared.accepted|
         == Answers(Initial(minWorkers, maxWorkers), actions, true) + Count(s.callers, Committed)
    ensures Submits(actions)
         == |s.shared.accepted|
            + Answers(Initial(minWorkers, maxWorkers), actions, false) + Count(s.callers, Carrying)
  {
    NoCallers(Committed);
    NoCallers(Carrying);
    CallsRun(Initial(minWorkers, maxWorkers), actions);
  }

  // ----- One worker a call -----

  /** The workers that the steps of one caller start. */
  ghost function Hires(s: State, actions: seq<Action>, id: Id): int
    requires Valid(s, actions)
    decreases |actions|
  {
    if actions == [] then 0 else
      var t := Step(s, actions[0]);
      (if actions[0] == Act(id) then t.hired - s.hired else 0) + Hires(t, actions[1..], id)
  }

  /** How many workers the rest of a call can start. */
  function Allowance(c: Caller): nat {
    match c
    case Sent(first) => if first then 1 else 0
    case Totalled(first) => if first then 1 else 0
    case Retrying(_) => 0
    case Rested => 0
    case Returned(_) => 0
    case _ => 1
  }

  lemma AllowanceStep(s: State, id: Id)
    requires Enabled(s, Act(id))
    ensures Step(s, Act(id)).hired - s.hired + Allowance(CallerNext(s.shared, s.callers[id]))
         <= Allowance(s.callers[id])
  {
  }

  lemma {:induction false} AllowanceRun(s: State, actions: seq<Action>, id: Id)
    requires Valid(s, actions) && SameCall(actions, id) && id in s.callers
    ensures Hires(s, actions, id) <= Allowance(s.callers[id])
    decreases |actions|
  {
    if actions != [] {
      if actions[0] == Act(id) {
        AllowanceStep(s, id);
      } else {
        assert !Calls(actions[0], id);
        OthersLeave(s, actions[0], id);
      }
      AllowanceRun(Step(s, actions[0]), actions[1..], id);
    }
  }

  /** A call of `Submit` or of the manager starts at most one worker, whatever the others do meanwhile. */
  lemma OneWorkerPerCall(s: State, call: Action, actions: seq<Action>)
    requires (call.Submit? || call.Survey?) && Enabled(s, call)
    requires Valid(Step(s, call), actions) && SameCall(actions, call.id)
    ensures Hires(Step(s, call), actions, call.id) <= 1
  {
    AllowanceRun(Step(s, call), actions, call.id);
  }

  // ----- When the pool grows, refuses and shrinks -----

  /** The caller takes no step. */
  ghost predicate Apart(actions: seq<Action>, id: Id) {
    forall i :: 0 <= i < |actions| ==> !Calls(actions[i], id) && actions[i] != Act(id)
  }

  lemma {:induction false} StaysPut(s: State, actions: seq<Action>, id: Id)
    requires Valid(s, actions) && Apart(actions, id) && id in s.callers
    ensures id in Run(s, actions).callers && Run(s, actions).callers[id] == s.callers[id]
    decreases |actions|
  {
    if actions != [] {
      OthersLeave(s, actions[0], id);
      StaysPut(Step(s, actions[0]), actions[1..], id);
    }
  }

  lemma {:induction false} SameLimits(s: State, actions: seq<Action>)
    requires Valid(s, actions)
    ensures Run(s, actions).shared.minWorkers == s.shared.minWorkers
    ensures Run(s, actions).shared.maxWorkers == s.shared.maxWorkers
    decreases |actions|
  {
    if actions != [] {
      SameLimits(Step(s, actions[0]), actions[1..]);
    }
  }

  /** A caller's step, then steps of the others. */
  lemma Meanwhile(s: State, id: Id, actions: seq<Action>) returns (t: State)
    requires Enabled(s, Act(id)) && Valid(Step(s, Act(id)), actions) && Apart(actions, id)
    ensures t == Run(Step(s, Act(id)), actions) && id in t.callers
    ensures t.callers[id] == CallerNext(s.shared, s.callers[id])
    ensures t.shared.maxWorkers == s.shared.maxWorkers
  {
    t := Run(Step(s, Act(id)), actions);
    StaysPut(Step(s, Act(id)), actions, id);
    SameLimits(Step(s, Act(id)), actions);
  }

  /**
   After its send a caller adds a worker if and only if the workers it counted at `s` are below the maximum and
   the queue counter it reads later, at `t`, is more than twice their number.
   */
  lemma GrowsAfterSend(s: State, id: Id, actions: seq<Action>) returns (t: State)
    requires id in s.callers && s.callers[id] == Weighing
    requires Valid(Step(s, Act(id)), actions) && Apart(actions, id)
    ensures t == Run(Step(s, Act(id)), actions) && Enabled(t, Act(id))
    ensures Step(t, Act(id)).callers[id]
         == if s.shared.workers < s.shared.maxWorkers && t.shared.queued > 2 * s.shared.workers
            then Scaling(AfterSend) else Returned(true)
  {
    t := Meanwhile(s, id, actions);
  }

  /** The manager asks for more than three queued tasks for each worker. */
  lemma GrowsOnSurvey(s: State, id: Id, actions: seq<Action>) returns (t: State)
    requires id in s.callers && s.callers[id] == Surveying
    requires Valid(Step(s, Act(id)), actions) && Apart(actions, id)
    ensures t == Run(Step(s, Act(id)), actions) && Enabled(t, Act(id))
    ensures Step(t, Act(id)).callers[id]
         == if s.shared.workers < s.shared.maxWorkers && t.shared.queued > 3 * s.shared.workers
            then Starting(Manager) else Rested
  {
    t := Meanwhile(s, id, actions);
  }

  /** A call that finds two tasks queued for each possible worker is refused if and only if no worker may be added. */
  lemma RefusedWhenFull(s: State, id: Id, task: Task, actions: seq<Action>) returns (t: State)
    requires id in s.callers && s.callers[id] == Sending(task) && |s.shared.queue| >= 2 * s.shared.maxWorkers
    requires Valid(Step(s, Act(id)), actions) && Apart(actions, id)
    ensures t == Run(Step(s, Act(id)), actions) && Enabled(t, Act(id))
    ensures Step(t, Act(id)).callers[id] == Returned(false) <==> t.shared.workers >= s.shared.maxWorkers
  {
    t := Meanwhile(s, id, actions);
  }

  predicate Moves(a: Action, w: Id) {
    (a.Receive? || a.TimeOut? || a.Quit? || a.Work?) && a.w == w
  }

  /** The worker takes no step. */
  ghost predicate Rests(actions: seq<Action>, w: Id) {
    forall i :: 0 <= i < |actions| ==> !Moves(actions[i], w)
  }

  lemma {:induction false} WorkerStays(s: State, actions: seq<Action>, w: Id)
    requires Valid(s, actions) && Rests(actions, w) && Numbered(s) && w in s.crew
    ensures w in Run(s, actions).crew && Run(s, actions).crew[w] == s.crew[w]
    decreases |actions|
  {
    if actions != [] {
      assert !Moves(actions[0], w);
      NumberedStep(s, actions[0]);
      WorkerStays(Step(s, actions[0]), actions[1..], w);
    }
  }

  /**
   A worker whose idle time is over leaves if and only if the workers it counted at `s` are more than the
   minimum and the queue counter it reads later, at `t`, leaves a fourth of them without a task.
   */
  lemma ShrinksWhenIdle(s: State, w: Id, actions: seq<Action>) returns (t: State)
    requires Numbered(s) && w in s.crew && s.crew[w] == TimedOut
    requires Valid(Step(s, Work(w)), actions) && Rests(actions, w)
    ensures t == Run(Step(s, Work(w)), actions) && Enabled(t, Work(w))
    ensures w in Step(t, Work(w)).crew
    ensures Step(t, Work(w)).crew[w]
         == if s.shared.workers > s.shared.minWorkers && 4 * (t.shared.queued + 1) <= s.shared.workers
            then Leaving else Waiting
  {
    t := Run(Step(s, Work(w)), actions);
    NumberedStep(s, Work(w));
    WorkerStays(Step(s, Work(w)), actions, w);
    SameLimits(Step(s, Work(w)), actions);
  }
}
