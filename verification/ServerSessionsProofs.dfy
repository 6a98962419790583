/**
 Which connections sessions belong to, when a client counts as already authenticated, and what the
 counters add up to.
 */
module ServerSessionsProofs {
  import opened Counting
  import opened Options
  import opened ServerSessions

  // ----- The counters -----

  predicate IsActive(p: Peer) {
    !p.phase.Gone?
  }

  /** Its first frame or its second AUTH still has to be counted. */
  predicate Uncounted(p: Peer) {
    match p.phase
    case NotAuth => true
    case Limiting(_) => true
    case Looking(_) => true
    case Judging(_) => true
    case Storing => true
    case Resetting => true
    case Refused(_) => true
    case Approved => true
    case Repeated => true
    case _ => false
  }

  ghost predicate Balanced(s: State) {
    s.authSuccess + s.authFailures + s.authRateLimited + Count(s.peers, Uncounted) == s.firstFrames + s.duplicates
  }

  lemma BalancedStep(s: State, a: Action)
    requires Balanced(s) && Enabled(s, a)
    ensures Balanced(Step(s, a))
  {
    CountUpdate(s.peers, a.id, Peer(Address(s, a), NextPhase(s, a)), Uncounted);
  }

  ghost predicate Active(s: State) {
    s.activeConns == Count(s.peers, IsActive)
  }

  lemma ActiveStep(s: State, a: Action)
    requires Active(s) && Enabled(s, a)
    ensures Active(Step(s, a))
  {
    CountUpdate(s.peers, a.id, Peer(Address(s, a), NextPhase(s, a)), IsActive);
  }

  // ----- Registration and the lock -----

  predicate InMap(p: Phase) {
    !p.Connected? && !p.Removing? && !p.Unregistered? && !p.Gone?
  }

  ghost predicate Mapped(s: State) {
    forall id :: id in s.registered <==> id in s.peers && InMap(s.peers[id].phase)
  }

  /** An action changes the map only by registering or unregistering its own connection. */
  lemma MapChange(s: State, a: Action)
    requires Enabled(s, a)
    ensures Step(s, a).registered
         == if a.Register? then s.registered + {a.id} else if a.Unregister? then s.registered - {a.id} else s.registered
    ensures InMap(NextPhase(s, a))
         == (a.Register? || (!a.Unregister? && a.id in s.peers && InMap(s.peers[a.id].phase)))
  {
  }

  lemma MappedStep(s: State, a: Action)
    requires Mapped(s) && Enabled(s, a)
    ensures Mapped(Step(s, a))
  {
    MapChange(s, a);
  }

  ghost predicate Locked(s: State) {
    forall id :: id in s.peers && s.peers[id].phase.Removing? <==> s.lock == Some(id)
  }

  lemma LockedStep(s: State, a: Action)
    requires Locked(s) && Enabled(s, a)
    ensures Locked(Step(s, a))
  {
  }

  // ----- Sessions -----

  /** Has stored its session and not yet removed it. */
  predicate Stored(p: Phase) {
    match p
    case Resetting => true
    case Approved => true
    case Greeting => true
    case Established => true
    case Repeated => true
    case Ending(stored) => stored
    case Removing(stored) => stored
    case _ => false
  }

  ghost predicate Owned(s: State) {
    forall addr :: addr in s.sessions ==>
      exists id :: id in s.peers && s.peers[id].addr == addr && Stored(s.peers[id].phase)
  }

  lemma OwnedStep(s: State, a: Action)
    requires Owned(s) && Enabled(s, a)
    ensures Owned(Step(s, a))
  {
    var t := Step(s, a);
    forall addr | addr in t.sessions
      ensures exists id :: id in t.peers && t.peers[id].addr == addr && Stored(t.peers[id].phase)
    {
      if a.Store? && addr == s.peers[a.id].addr {
        assert Stored(t.peers[a.id].phase);
      } else {
        assert addr in s.sessions;
        var id :| id in s.peers && s.peers[id].addr == addr && Stored(s.peers[id].phase);
        assert id in t.peers && t.peers[id].addr == addr && Stored(t.peers[id].phase);
      }
    }
  }

  ghost predicate Invariant(s: State) {
    Balanced(s) && Active(s) && Mapped(s) && Locked(s) && Owned(s)
  }

  lemma {:induction false} InvariantRun(s: State, actions: seq<Action>)
    requires Invariant(s) && Valid(s, actions)
    ensures Invariant(Run(s, actions))
    decreases |actions|
  {
    if actions != [] {
      BalancedStep(s, actions[0]);
      ActiveStep(s, actions[0]);
      MappedStep(s, actions[0]);
      LockedStep(s, actions[0]);
      OwnedStep(s, actions[0]);
      InvariantRun(Step(s, actions[0]), actions[1..]);
    }
  }

  ghost predicate Reachable(s: State) {
    exists actions :: Valid(START, actions) && Run(START, actions) == s
  }

  lemma ReachableInvariant(s: State)
    requires Reachable(s)
    ensures Invariant(s)
  {
    var actions :| Valid(START, actions) && Run(START, actions) == s;
    CountZero(START.peers, Uncounted);
    CountZero(START.peers, IsActive);
    InvariantRun(START, actions);
  }

  /**
   The three counters together with the requests still being decided make up all first frames and
   answered repetitions.
   */
  lemma CountersAddUp(s: State)
    requires Reachable(s)
    ensures s.authSuccess + s.authFailures + s.authRateLimited + Count(s.peers, Uncounted)
         == s.firstFrames + s.duplicates
    ensures s.activeConns == Count(s.peers, IsActive)
  {
    ReachableInvariant(s);
  }

  /** Whenever the server's lock is free, every session is that of a registered connection. */
  lemma SessionsRegistered(s: State, addr: string)
    requires Reachable(s) && s.lock.None? && addr in s.sessions
    ensures exists id :: id in s.registered && id in s.peers && s.peers[id].addr == addr
  {
    ReachableInvariant(s);
    var id :| id in s.peers && s.peers[id].addr == addr && Stored(s.peers[id].phase);
    assert id in s.registered;
  }

  /** A client is told it is already authenticated only while another connection from its address holds a session. */
  lemma AlreadyAuthenticated(s: State, id: Id)
    requires Reachable(s) && Enabled(s, Look(id)) && Step(s, Look(id)).peers[id].phase == Refused(false)
    ensures exists other :: other in s.peers && other != id && s.peers[other].addr == s.peers[id].addr
                         && Stored(s.peers[other].phase) && (other in s.registered || s.lock == Some(other))
  {
    ReachableInvariant(s);
    var other :| other in s.peers && s.peers[other].addr == s.peers[id].addr && Stored(s.peers[other].phase);
    assert other in s.registered || s.lock == Some(other);
  }

  // ----- Distinct addresses -----

  /** From its registration until its session is removed. */
  predicate Live(p: Phase) {
    !p.Connected? && !p.Unregistered? && !p.Gone?
  }

  ghost predicate Distinct(s: State) {
    forall i, j :: i in s.peers && j in s.peers && i != j && Live(s.peers[i].phase) && Live(s.peers[j].phase) ==>
                     s.peers[i].addr != s.peers[j].addr
  }

  ghost predicate AlwaysDistinct(s: State, actions: seq<Action>)
    requires Valid(s, actions)
    decreases |actions|
  {
    Distinct(s) && (actions != [] ==> AlwaysDistinct(Step(s, actions[0]), actions[1..]))
  }

  ghost predicate Exact(s: State) {
    forall id :: id in s.peers && Stored(s.peers[id].phase) ==> s.peers[id].addr in s.sessions
  }

  lemma ExactStep(s: State, a: Action)
    requires Exact(s) && Distinct(s) && Enabled(s, a)
    ensures Exact(Step(s, a))
  {
  }

  lemma {:induction false} ExactRun(s: State, actions: seq<Action>)
    requires Exact(s) && Valid(s, actions) && AlwaysDistinct(s, actions)
    ensures Exact(Run(s, actions)) && Distinct(Run(s, actions))
    decreases |actions|
  {
    if actions != [] {
      ExactStep(s, actions[0]);
      ExactRun(Step(s, actions[0]), actions[1..]);
    }
  }

  /** With distinct addresses the sessions are exactly those of connections that authenticated and have not ended. */
  lemma SessionsExactly(actions: seq<Action>, s: State, addr: string)
    requires Valid(START, actions) && AlwaysDistinct(START, actions) && s == Run(START, actions)
    ensures addr in s.sessions <==> exists id :: id in s.peers && s.peers[id].addr == addr && Stored(s.peers[id].phase)
  {
    ReachableInvariant(s);
    ExactRun(START, actions);
  }

  /** With distinct addresses nobody is told they are already authenticated. */
  lemma NeverAlreadyAuthenticated(actions: seq<Action>, s: State, id: Id)
    requires Valid(START, actions) && AlwaysDistinct(START, actions) && s == Run(START, actions)
    requires Enabled(s, Look(id))
    ensures Step(s, Look(id)).peers[id].phase.Judging?
  {
    ReachableInvariant(s);
    ExactRun(START, actions);
    if s.peers[id].addr in s.sessions {
      AlreadyAuthenticated(s, id);
    }
  }

  // ----- A shared address -----

  lemma {:induction false} RunMore(s: State, actions: seq<Action>, a: Action)
    requires Valid(s, actions) && Enabled(Run(s, actions), a)
    ensures Valid(s, actions + [a]) && Run(s, actions + [a]) == Step(Run(s, actions), a)
    decreases |actions|
  {
    if actions == [] {
      assert [a][1..] == [];
      assert actions + [a] == [a];
    } else {
      RunMore(Step(s, actions[0]), actions[1..], a);
      assert (actions + [a])[1..] == actions[1..] + [a];
    }
  }

  lemma ReachableStep(s: State, a: Action)
    requires Reachable(s) && Enabled(s, a)
    ensures Reachable(Step(s, a))
  {
    var actions :| Valid(START, actions) && Run(START, actions) == s;
    RunMore(START, actions, a);
  }

  /** One step of a connection, the others being as they were at the outset. */
  lemma Advance(others: map<Id, Peer>, s: State, a: Action) returns (t: State)
    requires Reachable(s) && Enabled(s, a) && !a.Unregister? && !a.RemoveSession?
    requires s.peers == others || (a.id in s.peers && s.peers == others[a.id := s.peers[a.id]])
    ensures Reachable(t) && t.peers == others[a.id := Peer(Address(s, a), NextPhase(s, a))] && t.lock == s.lock
    ensures t.sessions == if a.Store? then s.sessions + {Address(s, a)} else s.sessions
  {
    ReachableStep(s, a);
    t := Step(s, a);
  }

  /** A new connection comes as far as looking up its session. */
  lemma ToLook(s: State, id: Id, addr: string) returns (t: State)
    requires Reachable(s) && id !in s.peers && s.lock.None?
    ensures Reachable(t) && t.peers == s.peers[id := Peer(addr, Looking(Right))]
    ensures t.sessions == s.sessions && t.lock == s.lock
  {
    t := Advance(s.peers, s, Accept(id, addr));
    t := Advance(s.peers, t, Register(id));
    t := Advance(s.peers, t, ReadFirst(id, Auth(Right)));
    t := Advance(s.peers, t, Allow(id, true));
  }

  lemma OneStored(addr: string) returns (s: State)
    ensures Reachable(s) && s.lock.None? && s.sessions == {addr} && s.peers == map[0 := Peer(addr, Resetting)]
  {
    assert Valid(START, []) && Run(START, []) == START;
    s := ToLook(START, 0, addr);
    s := Advance(map[], s, Look(0));
    s := Advance(map[], s, Judge(0));
    s := Advance(map[], s, Store(0));
  }

  /**
   Two connections that share an address: the second, with the right credentials, is refused as
   already authenticated.
   */
  lemma SharedAddressRefused(addr: string) returns (s: State)
    ensures Reachable(s) && Enabled(s, Look(1)) && s.peers[1] == Peer(addr, Looking(Right))
    ensures Step(s, Look(1)).peers[1].phase == Refused(false)
  {
    s := OneStored(addr);
    s := ToLook(s, 1, addr);
  }

  /** A connection at its end is unregistered and takes the session under its address with it. */
  lemma Departed(s: State, id: Id) returns (t: State)
    requires Reachable(s) && s.lock.None? && id in s.peers && s.peers[id].phase.Ending?
    ensures Reachable(t) && t.lock.None? && t.peers == s.peers[id := Peer(s.peers[id].addr, Unregistered)]
    ensures t.sessions == s.sessions - {s.peers[id].addr}
  {
    ReachableStep(s, Unregister(id));
    var leaving := Step(s, Unregister(id));
    ReachableStep(leaving, RemoveSession(id));
    t := Step(leaving, RemoveSession(id));
  }

  /** The refused second connection ends, and the first, still authenticated, has lost its session. */
  lemma SharedSessionLost(addr: string) returns (s: State)
    ensures Reachable(s) && s.lock.None? && addr !in s.sessions && 2 !in s.peers
    ensures 0 in s.peers && s.peers[0].addr == addr && Stored(s.peers[0].phase)
  {
    s := OneStored(addr);
    var first := s.peers;
    s := ToLook(s, 1, addr);
    s := Advance(first, s, Look(1));
    s := Advance(first, s, Tally(1));
    s := Departed(s, 1);
  }

  /** A third connection from the address then passes the lookup while the first is still there. */
  lemma ThirdPasses(addr: string) returns (s: State)
    ensures Reachable(s) && Enabled(s, Look(2)) && s.peers[2].addr == addr
    ensures 0 in s.peers && s.peers[0].addr == addr && Stored(s.peers[0].phase)
    ensures Step(s, Look(2)).peers[2].phase.Judging?
  {
    s := SharedSessionLost(addr);
    s := ToLook(s, 2, addr);
  }

  // ----- Which lookup is refused -----

  ghost predicate StoresAt(s: State, a: Action, addr: string) {
    a.Store? && a.id in s.peers && s.peers[a.id].addr == addr
  }

  ghost predicate RemovesAt(s: State, a: Action, addr: string) {
    a.RemoveSession? && a.id in s.peers && s.peers[a.id].addr == addr
  }

  /** The latest of the stores and removals at the address is the store at `n`. */
  ghost predicate LatestStore(s: State, actions: seq<Action>, n: nat, addr: string) {
    n < |actions| && StoresAt(s, actions[n], addr) && forall m :: n < m < |actions| ==> !RemovesAt(s, actions[m], addr)
  }

  lemma {:induction false} RunLast(s: State, actions: seq<Action>)
    requires Valid(s, actions) && actions != []
    ensures Valid(s, actions[..|actions| - 1])
    ensures var t := Run(s, actions[..|actions| - 1]);
            Enabled(t, actions[|actions| - 1]) && Run(s, actions) == Step(t, actions[|actions| - 1])
    decreases |actions|
  {
    var front := actions[..|actions| - 1];
    if |actions| == 1 {
      assert front == [] && actions[1..] == [];
    } else {
      RunLast(Step(s, actions[0]), actions[1..]);
      assert front[1..] == actions[1..][..|actions| - 2];
    }
  }

  /** Every action of a run belongs to a connection that keeps its address. */
  lemma {:induction false} KnownPeers(actions: seq<Action>)
    requires Valid(START, actions)
    ensures forall n :: 0 <= n < |actions| ==> actions[n].id in Run(START, actions).peers
    decreases |actions|
  {
    if actions != [] {
      RunLast(START, actions);
      KnownPeers(actions[..|actions| - 1]);
    }
  }

  lemma SameAddress(s: State, a: Action, b: Action, addr: string)
    requires Enabled(s, a) && b.id in s.peers
    ensures StoresAt(Step(s, a), b, addr) <==> StoresAt(s, b, addr)
    ensures RemovesAt(Step(s, a), b, addr) <==> RemovesAt(s, b, addr)
  {
  }

  lemma SessionsChange(s: State, a: Action, addr: string)
    requires Enabled(s, a)
    ensures addr in Step(s, a).sessions
       <==> StoresAt(Step(s, a), a, addr) || (addr in s.sessions && !RemovesAt(Step(s, a), a, addr))
  {
  }

  /** In every run an address has a session if and only if the latest store or removal at it is a store. */
  lemma {:induction false} SessionsLatest(actions: seq<Action>, addr: string)
    requires Valid(START, actions)
    ensures addr in Run(START, actions).sessions <==> exists n :: LatestStore(Run(START, actions), actions, n, addr)
    decreases |actions|
  {
    if actions != [] {
      var front, last := actions[..|actions| - 1], actions[|actions| - 1];
      RunLast(START, actions);
      KnownPeers(front);
      SessionsLatest(front, addr);
      var s := Run(START, front);
      SessionsChange(s, last, addr);
      LatestMore(s, front, last, addr);
      assert front + [last] == actions;
    }
  }

  lemma LatestMore(s: State, front: seq<Action>, last: Action, addr: string)
    requires Enabled(s, last) && forall n :: 0 <= n < |front| ==> front[n].id in s.peers
    ensures (exists n :: LatestStore(Step(s, last), front + [last], n, addr))
       <==> (|| StoresAt(Step(s, last), last, addr)
             || ((exists n :: LatestStore(s, front, n, addr)) && !RemovesAt(Step(s, last), last, addr)))
  {
    var t, actions := Step(s, last), front + [last];
    forall n | 0 <= n < |front|
      ensures StoresAt(t, actions[n], addr) <==> StoresAt(s, front[n], addr)
      ensures RemovesAt(t, actions[n], addr) <==> RemovesAt(s, front[n], addr)
    {
      SameAddress(s, last, front[n], addr);
    }
    if StoresAt(t, last, addr) {
      assert LatestStore(t, actions, |front|, addr);
    }
    forall n: nat | LatestStore(s, front, n, addr) && !RemovesAt(t, last, addr)
      ensures LatestStore(t, actions, n, addr)
    {
    }
    forall n: nat | LatestStore(t, actions, n, addr) && n < |front|
      ensures LatestStore(s, front, n, addr) && !RemovesAt(t, last, addr)
    {
      assert actions[|front|] == last;
      assert forall m :: n < m < |front| ==> actions[m] == front[m];
    }
  }

  /** Exactly then a client that gets as far as the lookup is refused as already authenticated. */
  lemma RefusedExactly(actions: seq<Action>, s: State, id: Id)
    requires Valid(START, actions) && s == Run(START, actions) && Enabled(s, Look(id))
    ensures Step(s, Look(id)).peers[id].phase == Refused(false)
       <==> exists n :: LatestStore(s, actions, n, s.peers[id].addr)
  {
    SessionsLatest(actions, s.peers[id].addr);
  }
}
