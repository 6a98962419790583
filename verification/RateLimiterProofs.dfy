/** How many attempts the limiter can grant in any stretch of one window, and what its blocks guarantee. */
module RateLimiterProofs {
  import opened Bounds
  import opened Options
  import opened RateLimiter

  predicate Sensible(c: Config) {
    c.maxAttempts >= 1 && c.window > 0
  }

  // ----- Records a run can leave -----

  /** The times in a record are ordered, and a block always outlasts the window it was earned in. */
  ghost predicate WellTimed(c: Config, r: Option<Record>, now: Time) {
    r.Some? ==>
      var record := r.value;
      && record.count >= 1
      && record.firstTime <= record.lastTime <= record.firstTime + c.window
      && record.lastTime <= now
      && (record.blocked ==> record.blockUntil >= record.lastTime + c.window * 2)
  }

  lemma WellTimedStep(c: Config, r: Option<Record>, now: Time, e: Event, client: string)
    requires Sensible(c) && WellTimed(c, r, now) && now <= e.at
    ensures WellTimed(c, Own(c, r, e, client), e.at)
  {
  }

  // ----- The sliding bound -----

  /**
   What is known of the number `n` of grants so far inside [a, a + window]: of the current window only
   grants after its first can be inside if it began before `a`, and of the window before it all but
   the first; a third window cannot reach in.
   */
  ghost predicate Counted(c: Config, r: Option<Record>, now: Time, a: Time, n: int, carried: int, most: int) {
    && 0 <= n <= most
    && (n > 0 ==> a <= now)
    && match r
       case None => n == 0 || now > a + c.window
       case Some(record) =>
         && (n > 0 ==> a <= record.lastTime)
         && (record.firstTime <= a + c.window ==>
              n <= Min(record.count, c.maxAttempts) + (if record.firstTime < a then -1 else carried))
  }

  lemma CountedStep(c: Config, r: Option<Record>, now: Time, e: Event, client: string, a: Time, n: int)
    requires Sensible(c) && WellTimed(c, r, now) && now <= e.at && e.kind != Reset(client)
    requires Counted(c, r, now, a, n, c.maxAttempts - 1, 2 * c.maxAttempts - 1)
    ensures var granted := e.kind == Allow(client) && Attempt(c, r, e.at).0;
            Counted(c, Own(c, r, e, client), e.at, a, n + (if granted && a <= e.at <= a + c.window then 1 else 0),
                    c.maxAttempts - 1, 2 * c.maxAttempts - 1)
  {
  }

  function Latest(events: seq<Event>, start: Time): Time {
    if events == [] then start else events[|events| - 1].at
  }

  lemma FrontInOrder(events: seq<Event>, client: string, start: Time)
    requires InOrder(events) && NoReset(events, client) && events != []
    requires forall i :: 0 <= i < |events| ==> start <= events[i].at
    ensures var front := events[..|events| - 1];
            InOrder(front) && NoReset(front, client) && forall i :: 0 <= i < |front| ==> start <= front[i].at
    ensures Latest(events[..|events| - 1], start) <= events[|events| - 1].at
  {
  }

  lemma {:induction false} CountedRun(c: Config, attempts: map<string, Record>, events: seq<Event>, client: string,
                                      a: Time, start: Time)
    requires Sensible(c) && InOrder(events) && NoReset(events, client) && client !in attempts
    requires forall i :: 0 <= i < |events| ==> start <= events[i].at
    ensures WellTimed(c, Lookup(After(c, attempts, events), client), Latest(events, start))
    ensures Counted(c, Lookup(After(c, attempts, events), client), Latest(events, start), a,
                    GrantsIn(c, attempts, events, client, a, a + c.window), c.maxAttempts - 1, 2 * c.maxAttempts - 1)
    decreases |events|
  {
    if events != [] {
      var front, last := events[..|events| - 1], events[|events| - 1];
      FrontInOrder(events, client, start);
      CountedRun(c, attempts, front, client, a, start);
      var before := After(c, attempts, front);
      Independent(c, before, last, client);
      WellTimedStep(c, Lookup(before, client), Latest(front, start), last, client);
      CountedStep(c, Lookup(before, client), Latest(front, start), last, client, a,
                  GrantsIn(c, attempts, front, client, a, a + c.window));
    }
  }

  lemma Earliest(events: seq<Event>) returns (start: Time)
    requires InOrder(events)
    ensures forall i :: 0 <= i < |events| ==> start <= events[i].at
  {
    start := if events == [] then 0 else events[0].at;
  }

  /**
   Starting without a record, and with no reset of this client, any closed interval of one window
   holds at most 2 * maxAttempts - 1 grants, whatever the other clients, failures and cleanups do.
   */
  lemma SlidingBound(c: Config, attempts: map<string, Record>, events: seq<Event>, client: string, a: Time)
    requires Sensible(c) && InOrder(events) && NoReset(events, client) && client !in attempts
    ensures GrantsIn(c, attempts, events, client, a, a + c.window) <= 2 * c.maxAttempts - 1
  {
    var start := Earliest(events);
    CountedRun(c, attempts, events, client, a, start);
  }

  // ----- The bound is reached -----

  ghost predicate NotAfter(events: seq<Event>, now: Time) {
    forall i :: 0 <= i < |events| ==> events[i].at <= now
  }

  /** A run up to time `now` that leaves an unblocked record and `n` grants between the two times. */
  ghost predicate Leaves(c: Config, events: seq<Event>, client: string, now: Time, first: Time, count: int,
                         a: Time, n: int)
  {
    && InOrder(events) && NoReset(events, client)
    && NotAfter(events, now)
    && Lookup(After(c, map[], events), client) == Some(Record(count, first, now, false, 0))
    && GrantsIn(c, map[], events, client, a, a + c.window) == n
  }

  lemma Extended(c: Config, events: seq<Event>, e: Event, client: string, a: Time)
    requires InOrder(events) && NoReset(events, client) && e.kind == Allow(client)
    requires forall i :: 0 <= i < |events| ==> events[i].at <= e.at
    ensures InOrder(events + [e]) && NoReset(events + [e], client)
    ensures Lookup(After(c, map[], events + [e]), client) == Own(c, Lookup(After(c, map[], events), client), e, client)
    ensures GrantsIn(c, map[], events + [e], client, a, a + c.window)
         == GrantsIn(c, map[], events, client, a, a + c.window)
            + (if a <= e.at <= a + c.window && Attempt(c, Lookup(After(c, map[], events), client), e.at).0
               then 1 else 0)
  {
    assert (events + [e])[..|events|] == events;
    Independent(c, After(c, map[], events), e, client);
  }

  /** As long as the window and the limit allow it, every attempt of a burst is granted. */
  lemma {:induction false} Burst(c: Config, events: seq<Event>, client: string, now: Time, t: Time, first: Time,
                                 count: int, k: nat, a: Time, n: int)
    returns (longer: seq<Event>)
    requires Leaves(c, events, client, now, first, count, a, n)
    requires now <= t <= first + c.window && count + k <= c.maxAttempts && a <= t <= a + c.window
    ensures Leaves(c, longer, client, if k == 0 then now else t, first, count + k, a, n + k)
    decreases k
  {
    longer := events;
    if k > 0 {
      Extended(c, events, Event(t, Allow(client)), client, a);
      longer := Burst(c, events + [Event(t, Allow(client))], client, t, t, first, count + 1, k - 1, a, n + 1);
    }
  }

  /** An attempt after the window starts a window of its own. */
  lemma Reopened(c: Config, events: seq<Event>, client: string, now: Time, t: Time, first: Time, count: int,
                 a: Time, n: int)
    requires Leaves(c, events, client, now, first, count, a, n)
    requires now <= t && t > first + c.window && a <= t <= a + c.window
    ensures Leaves(c, events + [Event(t, Allow(client))], client, t, t, 1, a, n + 1)
  {
    Extended(c, events, Event(t, Allow(client)), client, a);
  }

  /** A client's very first attempt. */
  lemma FirstAttempt(c: Config, client: string, a: Time) returns (events: seq<Event>)
    requires Sensible(c)
    ensures Leaves(c, events, client, 0, 0, 1, a, if a <= 0 <= a + c.window then 1 else 0)
  {
    var none: seq<Event> := [];
    Extended(c, none, Event(0, Allow(client)), client, a);
    events := none + [Event(0, Allow(client))];
  }

  /**
   The sliding bound is the best possible, for every limit and every window: one attempt, the rest of
   the allowance at the very end of its window, then a whole new allowance.
   */
  lemma SlidingBoundReached(c: Config, client: string) returns (events: seq<Event>)
    requires Sensible(c)
    ensures InOrder(events) && NoReset(events, client)
    ensures GrantsIn(c, map[], events, client, c.window, c.window + c.window) == 2 * c.maxAttempts - 1
  {
    var w, k := c.window, c.maxAttempts - 1;
    events := FirstAttempt(c, client, w);
    events := Burst(c, events, client, 0, w, 0, 1, k, w, 0);
    var now := if k == 0 then 0 else w;
    Reopened(c, events, client, now, w + 1, 0, k + 1, w, k);
    events := events + [Event(w + 1, Allow(client))];
    events := Burst(c, events, client, w + 1, w + 1, w + 1, 1, k, w, k + 1);
  }

  // ----- When every attempt fails -----

  /** The client's latest grant has not been followed by a recorded failure. */
  function Unpunished(c: Config, attempts: map<string, Record>, events: seq<Event>, client: string): bool {
    if events == [] then false else
      var front, last := events[..|events| - 1], events[|events| - 1];
      if last.kind == RecordFailure(client) then false
      else Grants(c, After(c, attempts, front), last, client) || Unpunished(c, attempts, front, client)
  }

  /** Every grant is followed by a recorded failure before the client tries again. */
  ghost predicate AlwaysFails(c: Config, attempts: map<string, Record>, events: seq<Event>, client: string) {
    forall n :: 0 <= n < |events| && events[n].kind == Allow(client) ==> !Unpunished(c, attempts, events[..n], client)
  }

  /** A record at the limit is blocked for three windows as soon as the failure is recorded. */
  ghost predicate Punished(c: Config, r: Option<Record>, unpunished: bool) {
    r.Some? ==>
      && r.value.count <= c.maxAttempts
      && (r.value.count == c.maxAttempts && !unpunished ==>
            r.value.blocked && r.value.blockUntil >= r.value.lastTime + c.window * 3)
  }

  lemma FailingStep(c: Config, r: Option<Record>, now: Time, e: Event, client: string, unpunished: bool,
                    a: Time, n: int)
    requires Sensible(c) && WellTimed(c, r, now) && now <= e.at && e.kind != Reset(client)
    requires Punished(c, r, unpunished) && (e.kind == Allow(client) ==> !unpunished)
    requires Counted(c, r, now, a, n, Max(0, c.maxAttempts - 2), Max(c.maxAttempts, 2 * c.maxAttempts - 2))
    ensures var granted := e.kind == Allow(client) && Attempt(c, r, e.at).0;
            && Punished(c, Own(c, r, e, client), e.kind != RecordFailure(client) && (granted || unpunished))
            && Counted(c, Own(c, r, e, client), e.at, a, n + (if granted && a <= e.at <= a + c.window then 1 else 0),
                       Max(0, c.maxAttempts - 2), Max(c.maxAttempts, 2 * c.maxAttempts - 2))
  {
  }

  lemma {:induction false} FailingRun(c: Config, attempts: map<string, Record>, events: seq<Event>, client: string,
                                      a: Time, start: Time)
    requires Sensible(c) && InOrder(events) && NoReset(events, client) && client !in attempts
    requires AlwaysFails(c, attempts, events, client)
    requires forall i :: 0 <= i < |events| ==> start <= events[i].at
    ensures WellTimed(c, Lookup(After(c, attempts, events), client), Latest(events, start))
    ensures Punished(c, Lookup(After(c, attempts, events), client), Unpunished(c, attempts, events, client))
    ensures Counted(c, Lookup(After(c, attempts, events), client), Latest(events, start), a,
                    GrantsIn(c, attempts, events, client, a, a + c.window),
                    Max(0, c.maxAttempts - 2), Max(c.maxAttempts, 2 * c.maxAttempts - 2))
    decreases |events|
  {
    if events != [] {
      var front, last := events[..|events| - 1], events[|events| - 1];
      FrontInOrder(events, client, start);
      forall n | 0 <= n < |front| && front[n].kind == Allow(client)
        ensures !Unpunished(c, attempts, front[..n], client)
      {
        assert front[..n] == events[..n];
      }
      FailingRun(c, attempts, front, client, a, start);
      var before := After(c, attempts, front);
      Independent(c, before, last, client);
      WellTimedStep(c, Lookup(before, client), Latest(front, start), last, client);
      FailingStep(c, Lookup(before, client), Latest(front, start), last, client, Unpunished(c, attempts, front, client),
                  a, GrantsIn(c, attempts, front, client, a, a + c.window));
    }
  }

  /** A client whose attempts all fail gets at most max(maxAttempts, 2 * maxAttempts - 2) of them per window. */
  lemma FailingBound(c: Config, attempts: map<string, Record>, events: seq<Event>, client: string, a: Time)
    requires Sensible(c) && InOrder(events) && NoReset(events, client) && client !in attempts
    requires AlwaysFails(c, attempts, events, client)
    ensures GrantsIn(c, attempts, events, client, a, a + c.window) <= Max(c.maxAttempts, 2 * c.maxAttempts - 2)
  {
    var start := Earliest(events);
    FailingRun(c, attempts, events, client, a, start);
  }

  /** A run of failing attempts that leaves an unblocked record. */
  ghost predicate LeavesFailing(c: Config, events: seq<Event>, client: string, now: Time, first: Time, count: int,
                                a: Time, n: int)
  {
    && Leaves(c, events, client, now, first, count, a, n)
    && AlwaysFails(c, map[], events, client) && !Unpunished(c, map[], events, client)
  }

  lemma StillFails(c: Config, events: seq<Event>, e: Event, client: string)
    requires AlwaysFails(c, map[], events, client)
    requires e.kind == Allow(client) ==> !Unpunished(c, map[], events, client)
    ensures AlwaysFails(c, map[], events + [e], client)
    ensures e.kind == RecordFailure(client) ==> !Unpunished(c, map[], events + [e], client)
  {
    var longer := events + [e];
    forall i | 0 <= i < |longer| && longer[i].kind == Allow(client) ensures !Unpunished(c, map[], longer[..i], client) {
      assert longer[..i] == events[..i];
      assert i == |events| ==> longer[..i] == events;
    }
  }

  /** A failure below the limit changes nothing but the client's standing. */
  lemma FailedBelow(c: Config, events: seq<Event>, client: string, now: Time, first: Time, count: int, a: Time, n: int)
    requires Leaves(c, events, client, now, first, count, a, n) && count < c.maxAttempts
    requires AlwaysFails(c, map[], events, client)
    ensures LeavesFailing(c, events + [Event(now, RecordFailure(client))], client, now, first, count, a, n)
  {
    var e := Event(now, RecordFailure(client));
    assert (events + [e])[..|events|] == events;
    Independent(c, After(c, map[], events), e, client);
    StillFails(c, events, e, client);
  }

  lemma {:induction false} FailingBurst(c: Config, events: seq<Event>, client: string, now: Time, t: Time, first: Time,
                                        count: int, k: nat, a: Time, n: int)
    returns (longer: seq<Event>)
    requires LeavesFailing(c, events, client, now, first, count, a, n)
    requires now <= t <= first + c.window && count + k < c.maxAttempts && a <= t <= a + c.window
    ensures LeavesFailing(c, longer, client, if k == 0 then now else t, first, count + k, a, n + k)
    decreases k
  {
    longer := events;
    if k > 0 {
      var e := Event(t, Allow(client));
      Extended(c, events, e, client, a);
      StillFails(c, events, e, client);
      FailedBelow(c, events + [e], client, t, first, count + 1, a, n + 1);
      longer := FailingBurst(c, events + [e] + [Event(t, RecordFailure(client))], client, t, t, first,
                             count + 1, k - 1, a, n + 1);
    }
  }

  lemma FailingStart(c: Config, client: string, a: Time) returns (events: seq<Event>)
    requires Sensible(c) && c.maxAttempts >= 2 && a > 0
    ensures LeavesFailing(c, events, client, 0, 0, 1, a, 0)
  {
    var e, none := Event(0, Allow(client)), [];
    Extended(c, none, e, client, a);
    StillFails(c, none, e, client);
    FailedBelow(c, none + [e], client, 0, 0, 1, a, 0);
    events := none + [e] + [Event(0, RecordFailure(client))];
  }

  lemma FailingReopened(c: Config, events: seq<Event>, client: string, now: Time, t: Time, first: Time, count: int,
                        a: Time, n: int) returns (longer: seq<Event>)
    requires LeavesFailing(c, events, client, now, first, count, a, n) && c.maxAttempts >= 2
    requires now <= t && t > first + c.window && a <= t <= a + c.window
    ensures LeavesFailing(c, longer, client, t, t, 1, a, n + 1)
  {
    var e := Event(t, Allow(client));
    Reopened(c, events, client, now, t, first, count, a, n);
    StillFails(c, events, e, client);
    FailedBelow(c, events + [e], client, t, t, 1, a, n + 1);
    longer := events + [e] + [Event(t, RecordFailure(client))];
  }

  lemma FailingLast(c: Config, events: seq<Event>, client: string, t: Time, first: Time, count: int, a: Time, n: int)
    returns (longer: seq<Event>)
    requires LeavesFailing(c, events, client, t, first, count, a, n) && count < c.maxAttempts
    requires t <= first + c.window && a <= t <= a + c.window
    ensures InOrder(longer) && NoReset(longer, client) && AlwaysFails(c, map[], longer, client)
    ensures GrantsIn(c, map[], longer, client, a, a + c.window) == n + 1
  {
    var e := Event(t, Allow(client));
    Extended(c, events, e, client, a);
    StillFails(c, events, e, client);
    longer := events + [e];
  }

  /** For every limit above one and every window this bound is reached as well. */
  lemma FailingBoundReached(c: Config, client: string) returns (events: seq<Event>)
    requires Sensible(c) && c.maxAttempts >= 2
    ensures InOrder(events) && NoReset(events, client) && AlwaysFails(c, map[], events, client)
    ensures GrantsIn(c, map[], events, client, c.window, c.window + c.window) == 2 * c.maxAttempts - 2
  {
    var w, k := c.window, c.maxAttempts - 2;
    events := FailingStart(c, client, w);
    events := FailingBurst(c, events, client, 0, w, 0, 1, k, w, 0);
    events := FailingReopened(c, events, client, if k == 0 then 0 else w, w + 1, 0, k + 1, w, k);
    events := FailingBurst(c, events, client, w + 1, w + 1, w + 1, 1, k, w, k + 1);
    events := FailingLast(c, events, client, w + 1, w + 1, k + 1, w, k + 1 + k);
  }

  // ----- Blocks -----

  /**
   While a block lasts every attempt is refused and the record stays, through any failures, cleanups
   and other clients' events, as long as the block does not outlive the eviction age of its record.
   */
  lemma {:induction false} BlockHolds(c: Config, attempts: map<string, Record>, events: seq<Event>, client: string,
                                      since: Time, until: Time)
    requires Sensible(c) && NoReset(events, client)
    requires client in attempts && attempts[client].blocked && attempts[client].blockUntil >= until
    requires until <= since + c.window * 3 && until <= attempts[client].lastTime + c.window * 10 + 1
    requires forall i :: 0 <= i < |events| ==> since <= events[i].at < until
    ensures var r := Lookup(After(c, attempts, events), client);
            r.Some? && r.value.blocked && r.value.blockUntil >= until
            && r.value.(blockUntil := 0) == attempts[client].(blockUntil := 0)
    ensures forall from, to :: GrantsIn(c, attempts, events, client, from, to) == 0
    decreases |events|
  {
    if events != [] {
      var front, last := events[..|events| - 1], events[|events| - 1];
      assert forall i :: 0 <= i < |front| ==> front[i] == events[i];
      BlockHolds(c, attempts, front, client, since, until);
      Independent(c, After(c, attempts, front), last, client);
    }
  }

  /** The first attempt once a block is over is granted and opens a fresh window. */
  lemma BlockEnds(c: Config, attempts: map<string, Record>, events: seq<Event>, client: string, now: Time)
    requires Sensible(c) && InOrder(events) && NoReset(events, client) && client !in attempts
    requires forall i :: 0 <= i < |events| ==> events[i].at <= now
    requires var r := Lookup(After(c, attempts, events), client);
             r.Some? && r.value.blocked && r.value.blockUntil <= now
    ensures var (granted, record) := Attempt(c, Lookup(After(c, attempts, events), client), now);
            granted && record.count == 1 && record.firstTime == record.lastTime == now && !record.blocked
  {
    var start := Earliest(events);
    CountedRun(c, attempts, events, client, now, start);
  }

  /**
   A cleanup can erase a block that is still active exactly when the failure came too long after the
   last counted attempt.
   */
  lemma ErasedExactly(c: Config, record: Record, failedAt: Time)
    requires Sensible(c) && record.count >= c.maxAttempts && record.lastTime <= failedAt
    ensures var blocked := Penalize(c, Some(record), failedAt).value;
            (exists now: Time :: failedAt <= now < blocked.blockUntil && Stale(c, blocked, now))
            <==> failedAt - record.lastTime > 7 * c.window + 1
  {
    var blocked := Penalize(c, Some(record), failedAt).value;
    if failedAt - record.lastTime > 7 * c.window + 1 {
      var now := if failedAt > record.lastTime + c.window * 10 then failedAt else record.lastTime + c.window * 10 + 1;
      assert failedAt <= now < blocked.blockUntil && Stale(c, blocked, now);
    }
  }

  /** Some continuation before the end of a block started at `failedAt`, without a reset, gets the client a grant. */
  ghost predicate GrantedWhileBlocked(c: Config, blocked: map<string, Record>, client: string, failedAt: Time) {
    exists more: seq<Event> ::
      && InOrder(more) && NoReset(more, client)
      && (forall i :: 0 <= i < |more| ==> failedAt <= more[i].at < failedAt + c.window * 3)
      && GrantsIn(c, blocked, more, client, failedAt, failedAt + c.window * 3) > 0
  }

  lemma ErasedThenGranted(c: Config, blocked: map<string, Record>, client: string, failedAt: Time, now: Time)
    requires Sensible(c) && client in blocked && Stale(c, blocked[client], now)
    requires failedAt <= now < failedAt + c.window * 3
    ensures GrantedWhileBlocked(c, blocked, client, failedAt)
  {
    var erase, allow := Event(now, Cleanup), Event(now, Allow(client));
    var one, more := [erase], [erase, allow];
    assert one[..0] == [] && more[..1] == one;
    assert After(c, blocked, one) == Kept(c, blocked, now);
    assert Grants(c, After(c, blocked, one), allow, client);
    assert GrantsIn(c, blocked, more, client, failedAt, failedAt + c.window * 3) > 0;
  }

  /**
   After any run, a failure at the limit keeps the client out for its three windows, through every
   continuation without a reset, if and only if it came at most seven windows and one time unit
   after the last counted attempt. The unit is there because eviction needs strictly more than ten.
   */
  lemma BlockErasedExactly(c: Config, attempts: map<string, Record>, client: string, failedAt: Time)
    requires Sensible(c) && client in attempts
    requires attempts[client].count >= c.maxAttempts && attempts[client].lastTime <= failedAt
    ensures GrantedWhileBlocked(c, Next(c, attempts, Event(failedAt, RecordFailure(client))), client, failedAt)
       <==> failedAt - attempts[client].lastTime > 7 * c.window + 1
  {
    var blocked := Next(c, attempts, Event(failedAt, RecordFailure(client)));
    ErasedExactly(c, attempts[client], failedAt);
    if failedAt - attempts[client].lastTime > 7 * c.window + 1 {
      var now: Time :| failedAt <= now < blocked[client].blockUntil && Stale(c, blocked[client], now);
      ErasedThenGranted(c, blocked, client, failedAt, now);
    } else {
      forall more: seq<Event> |
        && InOrder(more) && NoReset(more, client)
        && (forall i :: 0 <= i < |more| ==> failedAt <= more[i].at < failedAt + c.window * 3)
        ensures GrantsIn(c, blocked, more, client, failedAt, failedAt + c.window * 3) == 0
      {
        BlockHolds(c, blocked, more, client, failedAt, failedAt + c.window * 3);
      }
    }
  }

  // ----- How long a block lasts -----

  /** No reset, no recorded failure, and no attempt from `until` on. */
  ghost predicate Quiet(events: seq<Event>, client: string, until: Time) {
    forall i :: 0 <= i < |events| ==>
      && events[i].kind != Reset(client) && events[i].kind != RecordFailure(client)
      && (events[i].kind == Allow(client) ==> events[i].at < until)
  }

  /** The blocked record stays until it is evicted, which is not before the block is over. */
  lemma {:induction false} BlockStays(c: Config, attempts: map<string, Record>, events: seq<Event>, client: string,
                                      until: Time, now: Time)
    requires client in attempts && attempts[client].blocked && attempts[client].blockUntil == until
    requires until <= attempts[client].lastTime + c.window * 10 + 1
    requires InOrder(events) && Quiet(events, client, until) && NotAfter(events, now)
    ensures var r := Lookup(After(c, attempts, events), client);
            r == Some(attempts[client]) || (r == None && now >= until)
    ensures forall from, to :: GrantsIn(c, attempts, events, client, from, to) == 0
    decreases |events|
  {
    if events != [] {
      var front, last := events[..|events| - 1], events[|events| - 1];
      assert forall i :: 0 <= i < |front| ==> front[i] == events[i];
      BlockStays(c, attempts, front, client, until, last.at);
      Independent(c, After(c, attempts, front), last, client);
    }
  }

  /**
   An attempt over the limit is refused and blocks the client for exactly two windows: with no failure
   recorded meanwhile, the next attempt that can be granted is the first one two windows later.
   */
  lemma OverLimitExactly(c: Config, attempts: map<string, Record>, client: string, at: Time, more: seq<Event>,
                         now: Time)
    requires Sensible(c) && client in attempts && WellTimed(c, Some(attempts[client]), at)
    requires attempts[client].count >= c.maxAttempts && at - attempts[client].firstTime <= c.window
    requires InOrder(more) && Quiet(more, client, at + 2 * c.window) && NotAfter(more, now) && at <= now
    ensures var blocked := Next(c, attempts, Event(at, Allow(client)));
            && !Grants(c, attempts, Event(at, Allow(client)), client)
            && (!attempts[client].blocked ==>
                  (Grants(c, After(c, blocked, more), Event(now, Allow(client)), client) <==> now >= at + 2 * c.window))
  {
    var blocked := Next(c, attempts, Event(at, Allow(client)));
    if !attempts[client].blocked {
      BlockStays(c, blocked, more, client, at + 2 * c.window, now);
    }
  }

  /**
   A failure at the limit blocks for exactly three windows, if it came early enough for the record to last
   so long.
   */
  lemma FailureBlocksExactly(c: Config, attempts: map<string, Record>, client: string, at: Time, more: seq<Event>,
                             now: Time)
    requires Sensible(c) && client in attempts && WellTimed(c, Some(attempts[client]), at)
    requires attempts[client].count >= c.maxAttempts && at - attempts[client].lastTime <= 7 * c.window + 1
    requires InOrder(more) && Quiet(more, client, at + 3 * c.window) && NotAfter(more, now)
    ensures var blocked := Next(c, attempts, Event(at, RecordFailure(client)));
            Grants(c, After(c, blocked, more), Event(now, Allow(client)), client) <==> now >= at + 3 * c.window
  {
    var blocked := Next(c, attempts, Event(at, RecordFailure(client)));
    BlockStays(c, blocked, more, client, at + 3 * c.window, now);
  }

  lemma UsedUp(c: Config, client: string) returns (events: seq<Event>)
    requires Sensible(c)
    ensures Leaves(c, events, client, 0, 0, c.maxAttempts, 0, c.maxAttempts)
  {
    events := FirstAttempt(c, client, 0);
    events := Burst(c, events, client, 0, 0, 0, 1, c.maxAttempts - 1, 0, 1);
  }

  /**
   From an empty table, for every limit and window, a run after which a failure's block does not keep
   the client out.
   */
  lemma GrantedInsideBlock(c: Config, client: string) returns (events: seq<Event>, failedAt: Time)
    requires Sensible(c)
    ensures InOrder(events) && NoReset(events, client) && NotAfter(events, failedAt)
    ensures var blocked := Next(c, After(c, map[], events), Event(failedAt, RecordFailure(client)));
            GrantedWhileBlocked(c, blocked, client, failedAt)
  {
    events := UsedUp(c, client);
    failedAt := 7 * c.window + 2;
    var attempts := After(c, map[], events);
    assert attempts[client] == Record(c.maxAttempts, 0, 0, false, 0);
    BlockErasedExactly(c, attempts, client, failedAt);
  }
}
