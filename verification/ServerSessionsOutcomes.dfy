/**
 What becomes of each connection, told from the actions of a whole run alone: whose credentials store a
 session, which connections are registered, and how often each counter was raised.
 */
module ServerSessionsOutcomes {
  import opened Counting
  import opened ServerSessions
  import opened ServerSessionsProofs

  // ----- One connection's past -----

  /** What the frame read first and the limiter's answer say about a connection in a phase. */
  ghost predicate Asked(actions: seq<Action>, id: Id, p: Phase) {
    && (forall f, g :: ReadFirst(id, f) in actions && ReadFirst(id, g) in actions ==> f == g)
    && (p.Connected? || p.Registered? ==> forall f :: ReadFirst(id, f) !in actions)
    && (p.Limiting? || p.Looking? || p.Judging? ==> ReadFirst(id, Auth(p.request)) in actions)
    && !(Allow(id, true) in actions && Allow(id, false) in actions)
    && (Allow(id, true) in actions || Allow(id, false) in actions ==> exists q :: ReadFirst(id, Auth(q)) in actions)
    && (p.Connected? || p.Registered? || p.NotAuth? || p.Limiting? ==>
          Allow(id, true) !in actions && Allow(id, false) !in actions)
    && (p.Looking? || p.Judging? ==> Allow(id, true) in actions)
  }

  /** The right credentials that were judged, and no others, are stored or about to be. */
  ghost predicate Decided(actions: seq<Action>, id: Id, p: Phase) {
    && (Judge(id) in actions ==> Allow(id, true) in actions)
    && (p.Connected? || p.Registered? || p.NotAuth? || p.Limiting? || p.Looking? || p.Judging? ==>
          Judge(id) !in actions)
    && (Store(id) in actions || p.Storing? <==> Judge(id) in actions && ReadFirst(id, Auth(Right)) in actions)
    && (Stored(p) <==> Store(id) in actions && RemoveSession(id) !in actions)
    && (RemoveSession(id) in actions ==> p.Unregistered? || p.Gone?)
  }

  /** Registered from `Register` to `Unregister`, active until `Finish`. */
  ghost predicate Listed(actions: seq<Action>, id: Id, p: Phase) {
    && (InMap(p) <==> Register(id) in actions && Unregister(id) !in actions)
    && (p.Connected? ==> Register(id) !in actions)
    && (Unregister(id) in actions ==> p.Removing? || p.Unregistered? || p.Gone?)
    && (p.Gone? <==> Finish(id) in actions)
  }

  ghost predicate Account(actions: seq<Action>, id: Id, p: Peer) {
    && Accept(id, p.addr) in actions
    && Asked(actions, id, p.phase)
    && Decided(actions, id, p.phase)
    && Listed(actions, id, p.phase)
  }

  /** Actions of other connections say nothing about this one. */
  lemma AccountOther(actions: seq<Action>, a: Action, id: Id, p: Peer)
    requires Account(actions, id, p) && a.id != id
    ensures Account(actions + [a], id, p)
  {
    assert forall b: Action :: b.id == id ==> (b in actions + [a] <==> b in actions);
  }

  lemma AskedStep(actions: seq<Action>, s: State, a: Action)
    requires Enabled(s, a) && a.id in s.peers && Asked(actions, a.id, s.peers[a.id].phase)
    ensures Asked(actions + [a], a.id, NextPhase(s, a))
  {
    assert forall b: Action :: b in actions + [a] <==> b in actions || b == a;
  }

  lemma DecidedStep(actions: seq<Action>, s: State, a: Action)
    requires Enabled(s, a) && a.id in s.peers && Asked(actions, a.id, s.peers[a.id].phase)
    requires Decided(actions, a.id, s.peers[a.id].phase)
    ensures Decided(actions + [a], a.id, NextPhase(s, a))
  {
    assert forall b: Action :: b in actions + [a] <==> b in actions || b == a;
  }

  lemma ListedStep(actions: seq<Action>, s: State, a: Action)
    requires Enabled(s, a) && a.id in s.peers && Listed(actions, a.id, s.peers[a.id].phase)
    ensures Listed(actions + [a], a.id, NextPhase(s, a))
  {
    assert forall b: Action :: b in actions + [a] <==> b in actions || b == a;
  }

  lemma AccountStep(actions: seq<Action>, s: State, a: Action)
    requires Enabled(s, a) && a.id in s.peers && Account(actions, a.id, s.peers[a.id])
    ensures Account(actions + [a], a.id, Step(s, a).peers[a.id])
  {
    AskedStep(actions, s, a);
    DecidedStep(actions, s, a);
    ListedStep(actions, s, a);
  }

  lemma AccountFirst(actions: seq<Action>, s: State, a: Action)
    requires Enabled(s, a) && a.Accept? && forall b: Action :: b in actions ==> b.id != a.id
    ensures Account(actions + [a], a.id, Step(s, a).peers[a.id])
  {
    assert forall b: Action :: b in actions + [a] && b.id == a.id <==> b == a;
  }

  /** Every connection of a run is accounted for by the run's actions. */
  lemma {:induction false} Accounts(actions: seq<Action>, id: Id)
    requires Valid(START, actions) && id in Run(START, actions).peers
    ensures Account(actions, id, Run(START, actions).peers[id])
    decreases |actions|
  {
    if actions != [] {
      var front, a := actions[..|actions| - 1], actions[|actions| - 1];
      RunLast(START, actions);
      var s := Run(START, front);
      assert front + [a] == actions;
      if a.id != id {
        Accounts(front, id);
        AccountOther(front, a, id, s.peers[id]);
      } else if a.Accept? {
        KnownPeers(front);
        AccountFirst(front, s, a);
      } else {
        Accounts(front, id);
        AccountStep(front, s, a);
      }
    }
  }

  // ----- Credentials and sessions -----

  /**
   A connection's session is stored if and only if the limiter let it through and the frame it was judged by
   was an AUTH with the right credentials; only the step between the judgement and the store is open.
   The frame read first and the limiter's answer are settled once.
   */
  lemma CredentialsDecide(actions: seq<Action>, s: State, id: Id)
    requires Valid(START, actions) && s == Run(START, actions) && id in s.peers
    ensures Store(id) in actions || s.peers[id].phase == Storing
       <==> Judge(id) in actions && Allow(id, true) in actions && ReadFirst(id, Auth(Right)) in actions
    ensures forall f, g :: ReadFirst(id, f) in actions && ReadFirst(id, g) in actions ==> f == g
    ensures !(Allow(id, true) in actions && Allow(id, false) in actions)
  {
    Accounts(actions, id);
  }

  /** A connection holds a session exactly between storing and removing it, and only for the right credentials. */
  lemma StoredExactly(actions: seq<Action>, s: State, id: Id)
    requires Valid(START, actions) && s == Run(START, actions) && id in s.peers
    ensures Stored(s.peers[id].phase) <==> Store(id) in actions && RemoveSession(id) !in actions
    ensures Stored(s.peers[id].phase) ==>
              ReadFirst(id, Auth(Right)) in actions && Allow(id, true) in actions && Judge(id) in actions
  {
    Accounts(actions, id);
  }

  /** Right credentials that pass the lookup are stored by the connection's next two steps. */
  lemma RightAreStored(s: State, id: Id)
    requires Enabled(s, Judge(id)) && s.peers[id].phase.request == Right
    ensures var t := Step(s, Judge(id));
            Enabled(t, Store(id)) && s.peers[id].addr in Step(t, Store(id)).sessions
  {
  }

  ghost predicate HoldsSession(actions: seq<Action>, id: Id, addr: string) {
    && Accept(id, addr) in actions && ReadFirst(id, Auth(Right)) in actions && Allow(id, true) in actions
    && Store(id) in actions && RemoveSession(id) !in actions
  }

  /** An address has a session only because of a connection from it that showed the right credentials. */
  lemma SessionsEarned(actions: seq<Action>, addr: string)
    requires Valid(START, actions) && addr in Run(START, actions).sessions
    ensures exists id :: HoldsSession(actions, id, addr)
  {
    var s := Run(START, actions);
    ReachableInvariant(s);
    var id :| id in s.peers && s.peers[id].addr == addr && Stored(s.peers[id].phase);
    Accounts(actions, id);
    StoredExactly(actions, s, id);
    assert HoldsSession(actions, id, addr);
  }

  /** With distinct addresses that is also sufficient. */
  lemma SessionsEarnedExactly(actions: seq<Action>, addr: string)
    requires Valid(START, actions) && AlwaysDistinct(START, actions)
    ensures addr in Run(START, actions).sessions <==> exists id :: HoldsSession(actions, id, addr)
  {
    var s := Run(START, actions);
    if addr in s.sessions {
      SessionsEarned(actions, addr);
    }
    forall id | HoldsSession(actions, id, addr)
      ensures addr in s.sessions
    {
      AcceptedOnce(actions, id, addr);
      StoredExactly(actions, s, id);
      SessionsExactly(actions, s, addr);
    }
  }

  lemma {:induction false} AcceptedOnce(actions: seq<Action>, id: Id, addr: string)
    requires Valid(START, actions) && Accept(id, addr) in actions
    ensures id in Run(START, actions).peers && Run(START, actions).peers[id].addr == addr
    decreases |actions|
  {
    var front, a := actions[..|actions| - 1], actions[|actions| - 1];
    RunLast(START, actions);
    assert front + [a] == actions;
    if Accept(id, addr) in front {
      AcceptedOnce(front, id, addr);
    }
  }

  /** The connections in the server's map are exactly those registered and not yet unregistered. */
  lemma RegisteredExactly(actions: seq<Action>, s: State, id: Id)
    requires Valid(START, actions) && s == Run(START, actions)
    ensures id in s.registered <==> Register(id) in actions && Unregister(id) !in actions
  {
    ReachableInvariant(s);
    if id in s.peers {
      Accounts(actions, id);
    } else {
      KnownPeers(actions);
    }
  }

  // ----- Each counter -----

  ghost function NumberOf(actions: seq<Action>, p: Action -> bool): nat {
    if actions == [] then 0
    else NumberOf(actions[..|actions| - 1], p) + if p(actions[|actions| - 1]) then 1 else 0
  }

  predicate IsSuccess(a: Action) {
    a.Store?
  }

  predicate IsLimited(a: Action) {
    a.Allow? && !a.granted
  }

  predicate IsFirst(a: Action) {
    a.ReadFirst?
  }

  predicate IsRepeat(a: Action) {
    a.Repeat?
  }

  predicate IsAccept(a: Action) {
    a.Accept?
  }

  predicate IsFinish(a: Action) {
    a.Finish?
  }

  /** Its session is stored, the success not yet counted. */
  predicate Succeeding(p: Peer) {
    p.phase.Resetting? || p.phase.Approved?
  }

  predicate Limited(p: Peer) {
    p.phase == Refused(true)
  }

  predicate Failing(p: Peer) {
    p.phase.NotAuth? || p.phase == Refused(false) || p.phase.Repeated?
  }

  predicate Undecided(p: Peer) {
    p.phase.Limiting? || p.phase.Looking? || p.phase.Judging? || p.phase.Storing?
  }

  ghost predicate CountedSuccess(s: State, actions: seq<Action>) {
    s.authSuccess + Count(s.peers, Succeeding) == NumberOf(actions, IsSuccess)
  }

  ghost predicate CountedLimited(s: State, actions: seq<Action>) {
    s.authRateLimited + Count(s.peers, Limited) == NumberOf(actions, IsLimited)
  }

  ghost predicate CountedFailing(s: State, actions: seq<Action>) {
    s.authFailures + Count(s.peers, Failing) + Count(s.peers, Undecided)
    + NumberOf(actions, IsSuccess) + NumberOf(actions, IsLimited)
    == NumberOf(actions, IsFirst) + NumberOf(actions, IsRepeat)
  }

  ghost predicate CountedActive(s: State, actions: seq<Action>) {
    s.activeConns + NumberOf(actions, IsFinish) == NumberOf(actions, IsAccept)
  }

  lemma NumberMore(actions: seq<Action>, a: Action, p: Action -> bool)
    ensures NumberOf(actions + [a], p) == NumberOf(actions, p) + if p(a) then 1 else 0
  {
    assert (actions + [a])[..|actions|] == actions;
  }

  lemma CountedStep(s: State, actions: seq<Action>, a: Action)
    requires Enabled(s, a) && CountedSuccess(s, actions) && CountedLimited(s, actions) && CountedActive(s, actions)
    ensures CountedSuccess(Step(s, a), actions + [a]) && CountedLimited(Step(s, a), actions + [a])
    ensures CountedActive(Step(s, a), actions + [a])
  {
    var p := Peer(Address(s, a), NextPhase(s, a));
    CountUpdate(s.peers, a.id, p, Succeeding);
    CountUpdate(s.peers, a.id, p, Limited);
    NumberMore(actions, a, IsSuccess);
    NumberMore(actions, a, IsLimited);
    NumberMore(actions, a, IsAccept);
    NumberMore(actions, a, IsFinish);
  }

  function One(b: bool): int {
    if b then 1 else 0
  }

  /** An action that settles a failure, or opens or settles any request, changes both sides alike. */
  lemma FailingChange(s: State, a: Action, p: Peer)
    requires Enabled(s, a) && p == Peer(Address(s, a), NextPhase(s, a))
    ensures Step(s, a).authFailures - s.authFailures + One(Failing(p)) + One(Undecided(p))
            + One(IsSuccess(a)) + One(IsLimited(a))
         == One(a.id in s.peers && Failing(s.peers[a.id])) + One(a.id in s.peers && Undecided(s.peers[a.id]))
            + One(IsFirst(a)) + One(IsRepeat(a))
  {
  }

  lemma FailingStep(s: State, actions: seq<Action>, a: Action)
    requires Enabled(s, a) && CountedFailing(s, actions)
    ensures CountedFailing(Step(s, a), actions + [a])
  {
    var p := Peer(Address(s, a), NextPhase(s, a));
    FailingChange(s, a, p);
    CountUpdate(s.peers, a.id, p, Failing);
    CountUpdate(s.peers, a.id, p, Undecided);
    NumberMore(actions, a, IsSuccess);
    NumberMore(actions, a, IsLimited);
    NumberMore(actions, a, IsFirst);
    NumberMore(actions, a, IsRepeat);
  }

  lemma {:induction false} CountedRun(actions: seq<Action>)
    requires Valid(START, actions)
    ensures var s := Run(START, actions);
            && CountedSuccess(s, actions) && CountedLimited(s, actions)
            && CountedFailing(s, actions) && CountedActive(s, actions)
    decreases |actions|
  {
    if actions == [] {
      CountZero(START.peers, Succeeding);
      CountZero(START.peers, Limited);
      CountZero(START.peers, Failing);
      CountZero(START.peers, Undecided);
    } else {
      var front, a := actions[..|actions| - 1], actions[|actions| - 1];
      RunLast(START, actions);
      assert front + [a] == actions;
      CountedRun(front);
      CountedStep(Run(START, front), front, a);
      FailingStep(Run(START, front), front, a);
    }
  }

  /**
   Each counter by itself. Successes are the stored sessions, rate limited attempts the limiter's refusals,
   failures the first frames and repetitions that are neither; in each case all but those whose handler has
   not come to counting yet.
   */
  lemma CountersExactly(actions: seq<Action>, s: State)
    requires Valid(START, actions) && s == Run(START, actions)
    ensures s.authSuccess + Count(s.peers, Succeeding) == NumberOf(actions, IsSuccess)
    ensures s.authRateLimited + Count(s.peers, Limited) == NumberOf(actions, IsLimited)
    ensures s.authFailures + Count(s.peers, Failing) + Count(s.peers, Undecided)
         == NumberOf(actions, IsFirst) + NumberOf(actions, IsRepeat)
            - NumberOf(actions, IsSuccess) - NumberOf(actions, IsLimited)
    ensures s.activeConns == NumberOf(actions, IsAccept) - NumberOf(actions, IsFinish)
  {
    CountedRun(actions);
  }
}
