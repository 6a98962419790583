/**
 The bound on how far the pool falls below its minimum is reached, for every pool that can grow and
 every number of leaving workers up to all of them. The test of the queue counter does not stand in the way
 even of small pools: a task that was taken before its caller counted it makes the counter negative.
 */
module GoroutinePoolUndershoot {
  import opened Counting
  import opened GoroutinePool
  import opened GoroutinePoolProofs
  import opened GoroutinePoolOvershoot

  /** The actions lead from one state to the other with at most `k` workers leaving on the way. */
  ghost predicate Trip(s: State, actions: seq<Action>, k: nat, t: State) {
    Valid(s, actions) && Exodus(s, actions, k) && Run(s, actions) == t
  }

  lemma TripOne(s: State, a: Action, k: nat)
    requires Enabled(s, a) && Few(s, k) && Few(Step(s, a), k)
    ensures Trip(s, [a], k, Step(s, a))
  {
    assert [a][1..] == [];
    FewDepart(s, k);
    FewDepart(Step(s, a), k);
  }

  lemma {:induction false} TripJoin(s: State, first: seq<Action>, t: State, second: seq<Action>, u: State, k: nat)
    requires Trip(s, first, k, t) && Trip(t, second, k, u)
    ensures Trip(s, first + second, k, u)
    decreases |first|
  {
    if first == [] {
      assert first + second == second;
    } else {
      TripJoin(Step(s, first[0]), first[1..], t, second, u, k);
      assert (first + second)[1..] == first[1..] + second;
    }
  }

  lemma TripMore(s: State, actions: seq<Action>, t: State, a: Action, k: nat)
    requires Trip(s, actions, k, t) && Enabled(t, a) && Few(t, k) && Few(Step(t, a), k)
    ensures Trip(s, actions + [a], k, Step(t, a))
  {
    TripOne(t, a, k);
    TripJoin(s, actions, t, [a], Step(t, a), k);
  }

  /** Only the first `k` workers can be leaving. */
  ghost predicate Few(s: State, k: nat) {
    forall w :: w in s.crew && Departing(s.shared.minWorkers)(s.crew[w]) ==> w < k
  }

  function Below(k: nat): (ids: set<Id>)
    ensures |ids| == k && forall w: Id :: w in ids <==> w < k
  {
    if k == 0 then {} else Below(k - 1) + {k - 1}
  }

  lemma FewDepart(s: State, k: nat)
    requires Few(s, k)
    ensures Count(s.crew, Departing(s.shared.minWorkers)) <= k
  {
    SubsetSize(Where(s.crew, Departing(s.shared.minWorkers)), Below(k));
  }

  // ----- The pool has grown by one worker -----

  /** Callers make no worker leave. */
  lemma {:induction false} CallersStay(s: State, actions: seq<Action>, k: nat)
    requires Valid(s, actions) && OfCallers(actions) && Numbered(s)
    requires Count(s.crew, Departing(s.shared.minWorkers)) <= k
    ensures Exodus(s, actions, k)
    decreases |actions|
  {
    if actions != [] {
      WorkersChange(s, actions[0], Departing(s.shared.minWorkers));
      NumberedStep(s, actions[0]);
      CallersStay(Step(s, actions[0]), actions[1..], k);
    }
  }

  /** `m` workers wait for tasks, one more than the minimum. */
  ghost predicate Waiting(s: State, m: nat) {
    && s.shared.workers == m == s.shared.minWorkers + 1 && s.hired == m && !s.shared.cancelled
    && (forall w: Id :: w in s.crew <==> w < m)
    && (forall w: Id :: w < m ==> s.crew[w] == Worker.Waiting)
  }

  /** A caller past the check adds its worker and starts it. */
  lemma Hired(s: State, n: nat) returns (actions: seq<Action>, t: State)
    requires n in s.callers && s.callers[n] == PASSED && Numbered(s)
    ensures Valid(s, actions) && OfCallers(actions) && Run(s, actions) == t
    ensures t.crew == s.crew[s.hired := Worker.Waiting] && t.hired == s.hired + 1
    ensures t.shared == s.shared.(workers := s.shared.workers + 1, active := s.shared.active + 1)
  {
    var counted := Step(s, Act(n));
    t := Step(counted, Act(n));
    actions := [Act(n), Act(n)];
    assert actions[1..] == [Act(n)] && [Act(n)][1..] == [];
    assert Valid(t, []) && Run(t, []) == t;
    assert Valid(counted, [Act(n)]) && Run(counted, [Act(n)]) == t;
    assert s.crew == counted.crew && s.hired == counted.hired;
  }

  lemma {:induction false} WaitersWait(n: nat, w: Id)
    requires w < n
    ensures Waiters(n)[w] == Worker.Waiting
  {
    if w < n - 1 {
      WaitersWait(n - 1, w);
    }
  }

  lemma CallersTrip(s: State, actions: seq<Action>, t: State, k: nat)
    requires Valid(s, actions) && OfCallers(actions) && Run(s, actions) == t && Numbered(s) && Few(s, k)
    ensures Trip(s, actions, k, t)
  {
    FewDepart(s, k);
    CallersStay(s, actions, k);
  }

  /** The queue is full and nobody has looked at it. */
  lemma Filled(minWorkers: nat, maxWorkers: nat, k: nat) returns (actions: seq<Action>, s: State, n: nat)
    requires minWorkers < maxWorkers
    ensures Trip(Initial(minWorkers, maxWorkers), actions, k, s) && Stage(s, n, 0) && !s.shared.Room()
    ensures s.crew == Waiters(minWorkers) && s.hired == minWorkers && s.shared.queue != []
    ensures s.shared.workers == s.shared.minWorkers == minWorkers && s.shared.maxWorkers == maxWorkers
    ensures s.shared.queued == 0 && !s.shared.cancelled
  {
    var start := Initial(minWorkers, maxWorkers);
    NoCallers(IsPassed);
    actions, s, n := FillAll(start, 0, 1);
    AllWait(minWorkers);
    CallersTrip(start, actions, s, k);
  }

  lemma AllWait(n: nat)
    ensures forall w: Id :: w < n ==> Waiters(n)[w] == Worker.Waiting
  {
    forall w: Id | w < n ensures Waiters(n)[w] == Worker.Waiting {
      WaitersWait(n, w);
    }
  }

  lemma Grown(minWorkers: nat, maxWorkers: nat, k: nat) returns (actions: seq<Action>, s: State)
    requires minWorkers < maxWorkers
    ensures Trip(Initial(minWorkers, maxWorkers), actions, k, s) && Waiting(s, minWorkers + 1)
    ensures s.shared.queued == 0 && s.shared.queue != []
  {
    var start := Initial(minWorkers, maxWorkers);
    var filling, full, n := Filled(minWorkers, maxWorkers, k);
    AllWait(minWorkers);
    var passing := Pass(full, n, 0, 1);
    var passed := full.(callers := full.callers[n := PASSED]);
    var hiring;
    hiring, s := Hired(passed, n);
    CallersTrip(full, passing, passed, k);
    CallersTrip(passed, hiring, s, k);
    TripJoin(start, filling, full, passing, passed, k);
    TripJoin(start, filling + passing, passed, hiring, s, k);
    actions := filling + passing + hiring;
  }

  // ----- The queue counter lags behind -----

  /** One worker takes and finishes a task whose caller has not counted it yet. */
  lemma Lagging(s: State, m: nat, k: nat) returns (actions: seq<Action>, t: State)
    requires m >= 1 && Waiting(s, m) && s.shared.queue != [] && s.shared.queued == 0
    ensures Trip(s, actions, k, t) && Waiting(t, m) && t.shared.queued == -1
  {
    var taken := Step(s, Receive(0));
    var running := Step(taken, Work(0));
    t := Step(running, Work(0));
    TripOne(s, Receive(0), k);
    TripMore(s, [Receive(0)], taken, Work(0), k);
    TripMore(s, [Receive(0)] + [Work(0)], running, Work(0), k);
    actions := [Receive(0)] + [Work(0)] + [Work(0)];
  }

  // ----- Workers decide to leave, then leave -----

  /** Of `m` workers the first `j` have found more than the minimum; those from `j` up to `k` are gone. */
  ghost predicate Deciding(s: State, m: nat, j: nat, k: nat) {
    && s.shared.minWorkers == m - 1 && s.shared.queued == -1 && !s.shared.cancelled && j <= k <= m
    && (forall w: Id :: w in s.crew <==> w < j || k <= w < m)
    && (forall w: Id :: w in s.crew ==> s.crew[w] == if w < j then Judging(m) else Worker.Waiting)
  }

  /** Worker `j` wakes up and looks at the number of workers. */
  lemma {:induction false} Judge(s: State, m: nat, j: nat, k: nat) returns (actions: seq<Action>, t: State)
    requires Deciding(s, m, j, j) && j <= k <= m && s.shared.workers == m
    ensures Trip(s, actions, k, t) && Deciding(t, m, k, k) && t.shared.workers == m
    decreases k - j
  {
    if j == k {
      actions, t := [], s;
      FewDepart(s, k);
    } else {
      var woken := Step(s, TimeOut(j));
      var judging := Step(woken, Work(j));
      TripOne(s, TimeOut(j), k);
      TripMore(s, [TimeOut(j)], woken, Work(j), k);
      actions, t := Judge(judging, m, j + 1, k);
      TripJoin(s, [TimeOut(j)] + [Work(j)], judging, actions, t, k);
      actions := [TimeOut(j)] + [Work(j)] + actions;
    }
  }

  /** The last worker that has decided leaves. */
  lemma Depart(s: State, m: nat, j: nat, k: nat) returns (actions: seq<Action>, t: State)
    requires Deciding(s, m, j, k) && j > 0
    ensures Trip(s, actions, k, t) && Deciding(t, m, j - 1, k) && t.shared.workers == s.shared.workers - 1
  {
    var w: Id := j - 1;
    assert s.crew[w] == Judging(m);
    var leaving := Step(s, Work(w));
    var exiting := Step(leaving, Work(w));
    t := Step(exiting, Work(w));
    TripOne(s, Work(w), k);
    TripMore(s, [Work(w)], leaving, Work(w), k);
    TripMore(s, [Work(w)] + [Work(w)], exiting, Work(w), k);
    actions := [Work(w)] + [Work(w)] + [Work(w)];
  }

  lemma {:induction false} DepartAll(s: State, m: nat, j: nat, k: nat) returns (actions: seq<Action>, t: State)
    requires Deciding(s, m, j, k)
    ensures Trip(s, actions, k, t) && t.shared.workers == s.shared.workers - j && !t.shared.cancelled
    decreases j
  {
    if j == 0 {
      actions, t := [], s;
      FewDepart(s, k);
    } else {
      var first, next := Depart(s, m, j, k);
      actions, t := DepartAll(next, m, j - 1, k);
      TripJoin(s, first, next, actions, t, k);
      actions := first + actions;
    }
  }

  /** With `k` workers leaving at once the pool falls to its minimum plus one minus `k`, down to no worker at all. */
  lemma UndershootReached(minWorkers: nat, maxWorkers: nat, k: nat) returns (actions: seq<Action>, s: State)
    requires minWorkers < maxWorkers && 1 <= k <= minWorkers + 1
    ensures Reaches(minWorkers, maxWorkers, actions, s) && Exodus(Initial(minWorkers, maxWorkers), actions, k)
    ensures !s.shared.cancelled && s.shared.workers == minWorkers + 1 - k
  {
    var start, m := Initial(minWorkers, maxWorkers), minWorkers + 1;
    var growing, grown := Grown(minWorkers, maxWorkers, k);
    var lagging, behind := Lagging(grown, m, k);
    var judging, decided := Judge(behind, m, 0, k);
    var departing;
    departing, s := DepartAll(decided, m, k, k);
    TripJoin(start, growing, grown, lagging, behind, k);
    TripJoin(start, growing + lagging, behind, judging, decided, k);
    TripJoin(start, growing + lagging + judging, decided, departing, s, k);
    actions := growing + lagging + judging + departing;
  }
}
