/**
 The server's connections, sessions and authentication counters as atomic steps of concurrent
 connection handlers. Connection ids are unique. The rate limiter's answer, failing reads and sends
 and the frames that arrive are free choices. Registering and unregistering hold the server's lock;
 unregistering removes the session, which has its own lock, before it lets the server's lock go.

 `firstFrames` and `duplicates` are history.
 */
module ServerSessions {
  import opened Options

  type Id = nat

  datatype Request = Right | Wrong | Malformed

  datatype FirstFrame = Auth(request: Request) | OtherType

  datatype Phase =
    | Connected
    | Registered
    | NotAuth                  // the error reply is sent, the failure not yet counted
    | Limiting(request: Request)
    | Looking(request: Request)
    | Judging(request: Request)
    | Storing
    | Resetting
    | Refused(limited: bool)
    | Approved
    | Greeting
    | Established
    | Repeated                 // the reply to a second AUTH is queued, the failure not yet counted
    | Ending(stored: bool)
    | Removing(stored: bool)   // holds the server's lock
    | Unregistered
    | Gone

  datatype Peer = Peer(addr: string, phase: Phase)

  datatype State = State(
    peers: map<Id, Peer>,
    registered: set<Id>,
    lock: Option<Id>,
    sessions: set<string>,
    activeConns: int,
    authSuccess: nat,
    authFailures: nat,
    authRateLimited: nat,
    firstFrames: nat,
    duplicates: nat)

  datatype Action =
    | Accept(id: Id, addr: string)
    | Register(id: Id)
    | ReadFirst(id: Id, frame: FirstFrame)
    | Abandon(id: Id)
    | Allow(id: Id, granted: bool)
    | Look(id: Id)
    | Judge(id: Id)
    | Store(id: Id)
    | Reset(id: Id)
    | Tally(id: Id)
    | Greet(id: Id)
    | Repeat(id: Id)
    | Unregister(id: Id)
    | RemoveSession(id: Id)
    | Finish(id: Id)

  const START := State(map[], {}, None, {}, 0, 0, 0, 0, 0, 0)

  predicate EnabledIn(s: State, a: Action, phase: Phase) {
    match a
    case Accept(_, _) => false
    case Register(_) => phase.Connected? && s.lock.None?
    case ReadFirst(_, _) => phase.Registered?
    case Abandon(_) => phase.Registered? || phase.Greeting? || phase.Established?
    case Allow(_, _) => phase.Limiting?
    case Look(_) => phase.Looking?
    case Judge(_) => phase.Judging?
    case Store(_) => phase.Storing?
    case Reset(_) => phase.Resetting?
    case Tally(_) => phase.NotAuth? || phase.Refused? || phase.Approved? || phase.Repeated?
    case Greet(_) => phase.Greeting?
    case Repeat(_) => phase.Established?
    case Unregister(_) => phase.Ending? && s.lock.None?
    case RemoveSession(_) => phase.Removing?
    case Finish(_) => phase.Unregistered?
  }

  predicate Enabled(s: State, a: Action) {
    if a.Accept? then a.id !in s.peers else a.id in s.peers && EnabledIn(s, a, s.peers[a.id].phase)
  }

  /** Where an action takes its connection. A session found under the address means `ErrAlreadyAuthenticated`. */
  function NextPhase(s: State, a: Action): Phase
    requires Enabled(s, a)
  {
    match a
    case Accept(_, _) => Connected
    case Register(_) => Registered
    case ReadFirst(_, frame) => if frame.Auth? then Limiting(frame.request) else NotAuth
    case Abandon(id) => Ending(!s.peers[id].phase.Registered?)
    case Allow(id, granted) => if granted then Looking(s.peers[id].phase.request) else Refused(true)
    case Look(id) =>
      if s.peers[id].addr in s.sessions then Refused(false) else Judging(s.peers[id].phase.request)
    case Judge(id) => if s.peers[id].phase.request.Right? then Storing else Refused(false)
    case Store(_) => Resetting
    case Reset(_) => Approved
    case Tally(id) => if s.peers[id].phase.Approved? then Greeting else Ending(s.peers[id].phase.Repeated?)
    case Greet(_) => Established
    case Repeat(_) => Repeated
    case Unregister(id) => Removing(s.peers[id].phase.stored)
    case RemoveSession(_) => Unregistered
    case Finish(_) => Gone
  }

  function Effect(s: State, a: Action): State
    requires Enabled(s, a)
  {
    match a
    case Accept(_, _) => s.(activeConns := s.activeConns + 1)
    case Register(id) => s.(registered := s.registered + {id})
    case ReadFirst(_, _) => s.(firstFrames := s.firstFrames + 1)
    case Store(id) => s.(sessions := s.sessions + {s.peers[id].addr})
    case Tally(id) =>
      if s.peers[id].phase.Approved? then s.(authSuccess := s.authSuccess + 1)
      else if s.peers[id].phase == Refused(true) then s.(authRateLimited := s.authRateLimited + 1)
      else s.(authFailures := s.authFailures + 1)
    case Repeat(_) => s.(duplicates := s.duplicates + 1)
    case Unregister(id) => s.(registered := s.registered - {id}, lock := Some(id))
    case RemoveSession(id) => s.(sessions := s.sessions - {s.peers[id].addr}, lock := None)
    case Finish(_) => s.(activeConns := s.activeConns - 1)
    case _ => s
  }

  function Address(s: State, a: Action): string
    requires Enabled(s, a)
  {
    if a.Accept? then a.addr else s.peers[a.id].addr
  }

  function Step(s: State, a: Action): State
    requires Enabled(s, a)
  {
    Effect(s, a).(peers := s.peers[a.id := Peer(Address(s, a), NextPhase(s, a))])
  }

  // ----- Runs -----

  predicate Valid(s: State, actions: seq<Action>)
    decreases |actions|
  {
    actions != [] ==> Enabled(s, actions[0]) && Valid(Step(s, actions[0]), actions[1..])
  }

  function Run(s: State, actions: seq<Action>): State
    requires Valid(s, actions)
    decreases |actions|
  {
    if actions == [] then s else Run(Step(s, actions[0]), actions[1..])
  }
}
