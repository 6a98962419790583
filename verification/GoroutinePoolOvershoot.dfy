/** The bound on the pool's overshoot is reached, for every pool that can grow and every number of racing callers. */
module GoroutinePoolOvershoot {
  import opened Counting
  import opened GoroutinePool
  import opened GoroutinePoolProofs

  /** The actions lead from one state to the other with at most `k` callers racing on the way. */
  ghost predicate Path(s: State, actions: seq<Action>, k: nat, t: State) {
    Valid(s, actions) && Crowd(s, actions, k) && Run(s, actions) == t
  }

  lemma PathOne(s: State, a: Action, k: nat)
    requires Enabled(s, a) && Count(s.callers, IsPassed) <= k && Count(Step(s, a).callers, IsPassed) <= k
    ensures Path(s, [a], k, Step(s, a))
  {
    assert [a][1..] == [];
  }

  lemma {:induction false} PathJoin(s: State, first: seq<Action>, t: State, second: seq<Action>, u: State, k: nat)
    requires Path(s, first, k, t) && Path(t, second, k, u)
    ensures Path(s, first + second, k, u)
    decreases |first|
  {
    if first == [] {
      assert first + second == second;
    } else {
      PathJoin(Step(s, first[0]), first[1..], t, second, u, k);
      assert (first + second)[1..] == first[1..] + second;
    }
  }

  lemma PathMore(s: State, actions: seq<Action>, t: State, a: Action, k: nat)
    requires Path(s, actions, k, t) && Enabled(t, a)
    requires Count(t.callers, IsPassed) <= k && Count(Step(t, a).callers, IsPassed) <= k
    ensures Path(s, actions + [a], k, Step(t, a))
  {
    PathOne(t, a, k);
    PathJoin(s, actions, t, [a], Step(t, a), k);
  }

  /** A state with `n` callers so far, the last `j` of them past the check, and a queue that nobody empties. */
  ghost predicate Stage(s: State, n: nat, j: nat) {
    && (forall id: Id :: id in s.callers <==> id < n)
    && j <= n && (forall id: Id :: n - j <= id < n ==> s.callers[id].Passed?)
    && Count(s.callers, IsPassed) == j
  }

  const PASSED := Passed(QueueFull(0))

  /** A new caller moves to some place. */
  lemma Placed(s: State, n: nat, j: nat, c: Caller)
    requires Stage(s, n, j)
    ensures Count(s.callers[n := c], IsPassed) == j + (if c.Passed? then 1 else 0)
    ensures c.Passed? ==> Stage(s.(callers := s.callers[n := c]), n + 1, j + 1)
    ensures !c.Passed? && j == 0 ==> Stage(s.(callers := s.callers[n := c]), n + 1, 0)
  {
    CountUpdate(s.callers, n, c, IsPassed);
  }

  /** Only callers act. */
  ghost predicate OfCallers(actions: seq<Action>) {
    forall i :: 0 <= i < |actions| ==> actions[i].Submit? || actions[i].Act?
  }

  /** The new caller takes one more step. */
  lemma Nudge(s: State, actions: seq<Action>, n: nat, j: nat, k: nat, c: Caller)
    requires Stage(s, n, j) && j + (if c.Passed? then 1 else 0) <= k && !c.Idle() && !c.Counted?
    requires j + (if CallerNext(s.shared, c).Passed? then 1 else 0) <= k
    requires Path(s, actions, k, s.(callers := s.callers[n := c]))
    ensures Path(s, actions + [Act(n)], k,
                 s.(callers := s.callers[n := CallerNext(s.shared, c)], shared := CallerEffect(s.shared, c)))
  {
    var t := s.(callers := s.callers[n := c]);
    Placed(s, n, j, c);
    Placed(s, n, j, CallerNext(s.shared, c));
    assert t.callers[n := CallerNext(s.shared, c)] == s.callers[n := CallerNext(s.shared, c)];
    PathMore(s, actions, t, Act(n), k);
  }

  lemma Entered(s: State, n: nat, j: nat, k: nat)
    requires j <= k && Stage(s, n, j)
    ensures Path(s, [Submit(n, 0)], k, s.(callers := s.callers[n := Sending(0)]))
  {
    Placed(s, n, j, Sending(0));
    PathOne(s, Submit(n, 0), k);
  }

  /** A caller finds room in the queue. */
  lemma Fill(s: State, n: nat, k: nat) returns (actions: seq<Action>)
    requires k >= 1 && Stage(s, n, 0) && s.shared.Room()
    ensures var t := s.(callers := s.callers[n := Sent(true)], shared := s.shared.Accept(0));
            Path(s, actions, k, t) && Stage(t, n + 1, 0)
    ensures OfCallers(actions)
  {
    Entered(s, n, 0, k);
    Nudge(s, [Submit(n, 0)], n, 0, k, Sending(0));
    Placed(s, n, 0, Sent(true));
    actions := [Submit(n, 0)] + [Act(n)];
  }

  /** A caller that finds the queue full comes past the check when a worker is still missing. */
  lemma Pass(s: State, n: nat, j: nat, k: nat) returns (actions: seq<Action>)
    requires j < k && Stage(s, n, j) && !s.shared.Room() && s.shared.workers < s.shared.maxWorkers
    ensures var t := s.(callers := s.callers[n := PASSED]);
            Path(s, actions, k, t) && Stage(t, n + 1, j + 1)
    ensures OfCallers(actions)
  {
    Entered(s, n, j, k);
    actions := [Submit(n, 0)];
    Nudge(s, actions, n, j, k, Sending(0));
    actions := actions + [Act(n)];
    Nudge(s, actions, n, j, k, Scaling(QueueFull(0)));
    actions := actions + [Act(n)];
    Nudge(s, actions, n, j, k, Starting(QueueFull(0)));
    actions := actions + [Act(n)];
    Placed(s, n, j, PASSED);
  }

  /** The earliest of the callers past the check adds its worker. */
  lemma Add(s: State, n: nat, j: nat, k: nat) returns (t: State)
    requires 1 <= j <= k && Stage(s, n, j)
    ensures Path(s, [Act(n - j)], k, t) && Stage(t, n, j - 1)
    ensures t.shared == s.shared.(workers := s.shared.workers + 1)
  {
    var id: Id := n - j;
    assert s.callers[id].Passed?;
    t := Step(s, Act(id));
    CountUpdate(s.callers, id, CallerNext(s.shared, s.callers[id]), IsPassed);
    PathOne(s, Act(id), k);
  }

  // ----- The run -----

  /** The queue is filled. */
  lemma {:induction false} FillAll(s: State, n: nat, k: nat) returns (actions: seq<Action>, t: State, m: nat)
    requires k >= 1 && Stage(s, n, 0) && |s.shared.queue| <= s.shared.maxWorkers * 2
    ensures Path(s, actions, k, t) && Stage(t, m, 0) && !t.shared.Room()
    ensures t.shared == s.shared.(queue := t.shared.queue, accepted := t.shared.accepted)
    ensures t.crew == s.crew && t.hired == s.hired && OfCallers(actions)
    decreases s.shared.maxWorkers * 2 - |s.shared.queue|
  {
    if s.shared.Room() {
      var first := Fill(s, n, k);
      var next := s.(callers := s.callers[n := Sent(true)], shared := s.shared.Accept(0));
      actions, t, m := FillAll(next, n + 1, k);
      PathJoin(s, first, next, actions, t, k);
      actions := first + actions;
    } else {
      actions, t, m := [], s, n;
    }
  }

  /** Callers come past the check one after the other, and none adds its worker yet. */
  lemma {:induction false} PassAll(s: State, n: nat, j: nat, k: nat) returns (actions: seq<Action>, t: State)
    requires j <= k && Stage(s, n, j) && !s.shared.Room() && s.shared.workers < s.shared.maxWorkers
    ensures Path(s, actions, k, t) && Stage(t, n + k - j, k) && t.shared == s.shared
    decreases k - j
  {
    if j < k {
      var first := Pass(s, n, j, k);
      var next := s.(callers := s.callers[n := PASSED]);
      actions, t := PassAll(next, n + 1, j + 1, k);
      PathJoin(s, first, next, actions, t, k);
      actions := first + actions;
    } else {
      actions, t := [], s;
    }
  }

  /** All of them add their workers. */
  lemma {:induction false} AddAll(s: State, n: nat, j: nat, k: nat) returns (actions: seq<Action>, t: State)
    requires j <= k && Stage(s, n, j)
    ensures Path(s, actions, k, t) && Stage(t, n, 0) && t.shared == s.shared.(workers := s.shared.workers + j)
    decreases j
  {
    if j > 0 {
      var next := Add(s, n, j, k);
      actions, t := AddAll(next, n, j - 1, k);
      PathJoin(s, [Act(n - j)], next, actions, t, k);
      actions := [Act(n - j)] + actions;
    } else {
      actions, t := [], s;
    }
  }

  /** `j` callers race once: the pool grows by `j`, whatever its maximum, if it was below it. */
  lemma Race(s: State, n: nat, j: nat, k: nat) returns (actions: seq<Action>, t: State)
    requires j <= k && Stage(s, n, 0) && !s.shared.Room() && s.shared.workers < s.shared.maxWorkers
    ensures Path(s, actions, k, t) && Stage(t, n + j, 0) && t.shared == s.shared.(workers := s.shared.workers + j)
  {
    var passing, passed := PassAll(s, n, 0, j);
    var adding;
    adding, t := AddAll(passed, n + j, j, j);
    PathJoin(s, passing, passed, adding, t, j);
    actions := passing + adding;
    Widen(s, actions, j, k, t);
  }

  lemma {:induction false} Widen(s: State, actions: seq<Action>, j: nat, k: nat, t: State)
    requires j <= k && Path(s, actions, j, t)
    ensures Path(s, actions, k, t)
    decreases |actions|
  {
    if actions != [] {
      Widen(Step(s, actions[0]), actions[1..], j, k, t);
    }
  }

  /** Single callers bring the pool to one below its maximum. */
  lemma {:induction false} Grow(s: State, n: nat, k: nat) returns (actions: seq<Action>, t: State, m: nat)
    requires k >= 1 && Stage(s, n, 0) && !s.shared.Room() && s.shared.workers < s.shared.maxWorkers
    ensures Path(s, actions, k, t) && Stage(t, m, 0)
    ensures t.shared == s.shared.(workers := s.shared.maxWorkers - 1)
    decreases s.shared.maxWorkers - s.shared.workers
  {
    if s.shared.workers < s.shared.maxWorkers - 1 {
      var first, next := Race(s, n, 1, k);
      actions, t, m := Grow(next, n + 1, k);
      PathJoin(s, first, next, actions, t, k);
      actions := first + actions;
    } else {
      actions, t, m := [], s, n;
    }
  }

  /** With `k` racing callers the pool reaches its maximum plus `k - 1`. */
  lemma OvershootReached(minWorkers: nat, maxWorkers: nat, k: nat) returns (actions: seq<Action>, s: State)
    requires minWorkers < maxWorkers && k >= 1
    ensures Reaches(minWorkers, maxWorkers, actions, s) && Crowd(Initial(minWorkers, maxWorkers), actions, k)
    ensures s.shared.workers == maxWorkers + k - 1
  {
    var start := Initial(minWorkers, maxWorkers);
    NoCallers(IsPassed);
    var filling, full, n := FillAll(start, 0, k);
    var growing, grown, m := Grow(full, n, k);
    PathJoin(start, filling, full, growing, grown, k);
    var racing;
    racing, s := Race(grown, m, k, k);
    PathJoin(start, filling + growing, grown, racing, s, k);
    actions := filling + growing + racing;
  }
}
