// Who owns a state folder (agent/internal/admin/admin.go and os_unix.go).
//
// Any number of agents call Listen on one folder, serve, close, fail on the
// way and die at any point. Every system call is a step of its own.
module Ownership {
  import opened Common
  import Runs

  type Agent = nat
  type LockFile = nat
  type Socket = nat

  /** The longest path, in bytes, that the address of a socket can hold everywhere. */
  const MAX_SOCKET_PATH := 103

  /**
   * How far one call of Listen, and later Close, has come. left says that
   * something went wrong that leaves the socket it made at the path; failing
   * says that Listen is going to return an error.
   */
  datatype Phase =
    | Idle
    | Opened(file: LockFile)
    | Locked(file: LockFile)
    | Cleared(file: LockFile)
    | Bound(file: LockFile, socket: Socket)
    | Serving(file: LockFile, socket: Socket)
    | Closing(file: LockFile, socket: Socket, failing: bool)
    | Unlinked(file: LockFile, failing: bool, left: bool)
    | Releasing(file: LockFile, failing: bool, left: bool)
    | Failed(busy: bool, left: bool)
    | Closed(left: bool)
    | Dead
  {
    predicate HasFile() {
      !Idle? && !Failed? && !Closed? && !Dead?
    }

    predicate HasLock() {
      HasFile() && !Opened?
    }

    /** The socket at the path must be this agent's own. */
    predicate HasSocket() {
      Bound? || Serving? || Closing?
    }

    /** This agent has left nothing at the path. */
    predicate LeftNothing() {
      match this
      case Idle => true
      case Opened(_) => true
      case Locked(_) => true
      case Cleared(_) => true
      case Unlinked(_, _, left) => !left
      case Releasing(_, _, left) => !left
      case Failed(_, left) => !left
      case Closed(left) => !left
      case _ => false
    }
  }

  /**
   * lockFile is the file at the lock's path, which nobody ever removes; holders
   * are the agents that hold the lock on a file; socket is what is at the
   * socket's path, and makers are those who made the sockets that ever were.
   */
  datatype World = World(
    phases: map<Agent, Phase>, lockFile: Option<LockFile>, holders: map<LockFile, Agent>,
    socket: Option<Socket>, makers: map<Socket, Agent>)

  const START := World(map[], None, map[], None, map[])

  datatype Step =
    | OpenLock(file: LockFile)
    | OpenFails
    | TakeLock
    | LockBusy
    | LockFails
    | RemoveStale
    | RemoveFails
    | Bind(socket: Socket)
    | BindFails
    | ListenFails(socket: Socket)
    | Chmod
    | ChmodFails
    | BeginClose
    | Unlink(works: bool)
    | CloseSocket
    | ReleaseLock

  datatype Event = Act(agent: Agent, step: Step) | Die(agents: set<Agent>)

  function PhaseOf(w: World, a: Agent): Phase {
    if a in w.phases then w.phases[a] else Idle
  }

  function To(w: World, a: Agent, p: Phase): World {
    w.(phases := w.phases[a := p])
  }

  predicate Enabled(w: World, a: Agent, s: Step) {
    var p := PhaseOf(w, a);
    match s
    case OpenLock(file) => p.Idle? && (w.lockFile == Some(file) || (w.lockFile == None && file !in w.holders))
    case OpenFails => p.Idle?
    case TakeLock => p.Opened? && p.file !in w.holders
    case LockBusy => p.Opened? && p.file in w.holders
    case LockFails => p.Opened?
    case RemoveStale => p.Locked?
    case RemoveFails => p.Locked?
    case Bind(socket) => p.Cleared? && w.socket == None && socket !in w.makers
    case BindFails => p.Cleared?
    case ListenFails(socket) => p.Cleared? && w.socket == None && socket !in w.makers
    case Chmod => p.Bound?
    case ChmodFails => p.Bound?
    case BeginClose => p.Serving?
    case Unlink(_) => p.Closing?
    case CloseSocket => p.Unlinked?
    case ReleaseLock => p.Releasing?
  }

  /** One system call. Closing a socket removes whatever is at its path. */
  function Do(w: World, a: Agent, s: Step): World
    requires Enabled(w, a, s)
  {
    var p := PhaseOf(w, a);
    match s
    case OpenLock(file) => To(w, a, Opened(file)).(lockFile := Some(file))
    case OpenFails => To(w, a, Failed(false, false))
    case TakeLock => To(w, a, Locked(p.file)).(holders := w.holders[p.file := a])
    case LockBusy => To(w, a, Failed(true, false))
    case LockFails => To(w, a, Failed(false, false))
    case RemoveStale => To(w, a, Cleared(p.file)).(socket := None)
    case RemoveFails => To(w, a, Releasing(p.file, true, false))
    case Bind(socket) => To(w, a, Bound(p.file, socket)).(socket := Some(socket), makers := w.makers[socket := a])
    case BindFails => To(w, a, Releasing(p.file, true, false))
    case ListenFails(socket) =>
      To(w, a, Releasing(p.file, true, true)).(socket := Some(socket), makers := w.makers[socket := a])
    case Chmod => To(w, a, Serving(p.file, p.socket))
    case ChmodFails => To(w, a, Closing(p.file, p.socket, true))
    case BeginClose => To(w, a, Closing(p.file, p.socket, false))
    case Unlink(works) =>
      To(w, a, Unlinked(p.file, p.failing, !works)).(socket := if works then None else w.socket)
    case CloseSocket => To(w, a, Releasing(p.file, p.failing, p.left))
    case ReleaseLock =>
      To(w, a, if p.failing then Failed(false, p.left) else Closed(p.left)).(holders := w.holders - {p.file})
  }

  /** The kernel takes back the locks of a process that ends; what is at the path stays. */
  function Killed(w: World, agents: set<Agent>): World {
    w.(phases := map a | a in w.phases :: if a in agents then Dead else w.phases[a],
       holders := map f | f in w.holders && w.holders[f] !in agents :: w.holders[f])
  }

  ghost predicate Next(w: World, e: Event, v: World) {
    match e
    case Act(a, s) => Enabled(w, a, s) && v == Do(w, a, s)
    case Die(agents) => agents <= w.phases.Keys && v == Killed(w, agents)
  }

  /** What is at the socket's path was put there by a. */
  predicate MadeBy(w: World, a: Agent) {
    w.socket.Some? && w.socket.value in w.makers && w.makers[w.socket.value] == a
  }

  ghost predicate LockOk(w: World, a: Agent) {
    var p := PhaseOf(w, a);
    && (p.HasFile() ==> w.lockFile == Some(p.file))
    && (forall f :: f in w.holders && w.holders[f] == a ==> p.HasLock())
    && (p.HasLock() ==> p.file in w.holders && w.holders[p.file] == a)
  }

  ghost predicate PathOk(w: World, a: Agent) {
    var p := PhaseOf(w, a);
    && (p.HasSocket() ==> w.socket == Some(p.socket) && MadeBy(w, a))
    && (p.LeftNothing() ==> !MadeBy(w, a))
  }

  /** What holds for one agent. */
  ghost predicate AgentOk(w: World, a: Agent) {
    LockOk(w, a) && PathOk(w, a)
  }

  ghost predicate Inv(w: World) {
    && (forall a :: AgentOk(w, a))
    && (forall f :: f in w.holders ==> w.lockFile == Some(f))
    && (w.socket.Some? ==> w.socket.value in w.makers)
  }

  lemma OnlyHolder(w: World, a: Agent, b: Agent)
    requires Inv(w) && PhaseOf(w, a).HasLock() && PhaseOf(w, b).HasLock()
    ensures a == b
  {
    assert AgentOk(w, a) && AgentOk(w, b);
  }

  /** What a step does to the locks. */
  lemma LockEffect(w: World, a: Agent, s: Step)
    requires Enabled(w, a, s)
    ensures var p, v := PhaseOf(w, a), Do(w, a, s);
            var q := PhaseOf(v, a);
            && (s.TakeLock? ==> v.holders == w.holders[p.file := a] && q == Locked(p.file) && p.Opened?)
            && (s.ReleaseLock? ==> v.holders == w.holders - {p.file} && !q.HasFile() && p.HasLock())
            && (!s.TakeLock? && !s.ReleaseLock? ==> v.holders == w.holders && (q.HasLock() <==> p.HasLock()))
            && (q.HasFile() ==> (p.HasFile() && q.file == p.file && v.lockFile == w.lockFile) || v.lockFile == Some(q.file))
  {
  }

  lemma ActKeepsLock(w: World, a: Agent, s: Step)
    requires Inv(w) && Enabled(w, a, s)
    ensures LockOk(Do(w, a, s), a)
  {
    assert LockOk(w, a) by {
      assert AgentOk(w, a);
    }
    LockEffect(w, a, s);
    OneLockFile(w);
    hide AgentOk;
    hide Inv;
    hide Do;
    hide Enabled;
    var p, v := PhaseOf(w, a), Do(w, a, s);
    if s.TakeLock? {
      assert v.holders[p.file] == a;
    }
    if s.ReleaseLock? {
      assert forall f :: f in w.holders ==> f == p.file;
    }
  }

  lemma OneLockFile(w: World)
    requires Inv(w)
    ensures forall f :: f in w.holders ==> w.lockFile == Some(f)
  {
  }

  lemma ActKeepsPath(w: World, a: Agent, s: Step)
    requires AgentOk(w, a) && Enabled(w, a, s)
    ensures PathOk(Do(w, a, s), a)
  {
    hide LockOk;
  }

  lemma ActKeepsOwn(w: World, a: Agent, s: Step)
    requires Inv(w) && Enabled(w, a, s)
    ensures AgentOk(Do(w, a, s), a)
  {
    assert AgentOk(w, a);
    ActKeepsLock(w, a, s);
    ActKeepsPath(w, a, s);
    hide LockOk;
    hide PathOk;
    hide Do;
  }

  lemma ActKeepsOthers(w: World, a: Agent, s: Step, b: Agent)
    requires Inv(w) && Enabled(w, a, s) && a != b
    ensures AgentOk(Do(w, a, s), b)
  {
    assert AgentOk(w, a) && AgentOk(w, b);
    var v := Do(w, a, s);
    assert PhaseOf(v, b) == PhaseOf(w, b);
    if PhaseOf(w, a).HasLock() {
      assert !PhaseOf(w, b).HasLock() by {
        if PhaseOf(w, b).HasLock() {
          OnlyHolder(w, a, b);
        }
      }
    }
  }

  lemma DieStep(w: World, agents: set<Agent>, b: Agent)
    requires Inv(w) && agents <= w.phases.Keys
    ensures AgentOk(Killed(w, agents), b)
  {
    assert AgentOk(w, b);
    var v := Killed(w, agents);
    if b !in agents && PhaseOf(w, b).HasLock() {
      assert PhaseOf(w, b).file in v.holders;
    }
  }

  lemma Preserved(w: World, e: Event, v: World)
    requires Inv(w) && Next(w, e, v)
    ensures Inv(v)
  {
    match e
    case Act(a, s) =>
      assert AgentOk(w, a);
      ActKeepsOwn(w, a, s);
      forall b ensures AgentOk(v, b) {
        if b != a {
          ActKeepsOthers(w, a, s, b);
        }
      }
    case Die(agents) =>
      forall b ensures AgentOk(v, b) {
        DieStep(w, agents, b);
      }
  }

  ghost predicate Reachable(w: World) {
    Runs.Reachable(START, Next, w)
  }

  lemma ReachableOk(w: World)
    requires Reachable(w)
    ensures Inv(w)
  {
    forall w, e, v | Inv(w) && Next(w, e, v) ensures Inv(v) {
      Preserved(w, e, v);
    }
    Runs.InvariantHolds(START, Next, Inv, w);
  }

  lemma AtMostOneHolder(w: World, a: Agent, b: Agent)
    requires Reachable(w) && PhaseOf(w, a).HasLock() && PhaseOf(w, b).HasLock()
    ensures a == b
  {
    ReachableOk(w);
    OnlyHolder(w, a, b);
  }

  /** From the bind until Close removes it, what is at the path is the agent's own socket. */
  lemma ServingOwnsThePath(w: World, a: Agent)
    requires Reachable(w) && PhaseOf(w, a).HasSocket()
    ensures w.socket == Some(PhaseOf(w, a).socket) && MadeBy(w, a)
  {
    ReachableOk(w);
    assert AgentOk(w, a);
  }

  /** Whatever others do meanwhile, the agent's socket stays where it is, and so does its lock. */
  lemma OthersLeaveItAlone(w: World, a: Agent, b: Agent, s: Step, v: World)
    requires Reachable(w) && PhaseOf(w, a).HasLock() && a != b && Next(w, Act(b, s), v)
    ensures v.socket == w.socket && v.holders == w.holders && PhaseOf(v, a) == PhaseOf(w, a)
    ensures s.OpenLock? || s.OpenFails? || s.LockBusy? || s.LockFails?
  {
    ReachableOk(w);
    assert AgentOk(w, a) && AgentOk(w, b);
    if PhaseOf(w, b).HasLock() {
      OnlyHolder(w, a, b);
    }
  }

  /** Listen says that another agent is running only if one is. */
  lemma BusyMeansAlive(w: World, a: Agent)
    requires Reachable(w) && Enabled(w, a, LockBusy)
    ensures exists b :: b != a && PhaseOf(w, b).HasLock()
  {
    ReachableOk(w);
    assert AgentOk(w, a);
    var b := w.holders[PhaseOf(w, a).file];
    assert AgentOk(w, b);
  }

  /**
   * A Listen that failed and a Close that is done hold no lock, and nothing at
   * the path is theirs unless the operating system refused to remove it.
   */
  lemma NothingIsKept(w: World, a: Agent)
    requires Reachable(w) && (PhaseOf(w, a).Failed? || PhaseOf(w, a).Closed?)
    ensures forall f :: f in w.holders ==> w.holders[f] != a
    ensures !PhaseOf(w, a).left ==> !MadeBy(w, a)
  {
    ReachableOk(w);
    assert AgentOk(w, a);
  }

  // Listen and Close, by one agent, while no other acts.

  /** What goes wrong in one call of Listen. */
  datatype Luck = Luck(
    openFails: bool, lockFails: bool, removeFails: bool, bindFails: bool, listenFails: bool, chmodFails: bool,
    unlinkFails: bool)
  {
    predicate AnyFailure() {
      openFails || lockFails || removeFails || bindFails || listenFails || chmodFails
    }
  }

  /** Nothing has changed for the other agents. */
  ghost predicate OthersAsBefore(w: World, a: Agent, v: World) {
    v.phases - {a} == w.phases - {a}
  }

  lemma Took(w: World, a: Agent, s: Step)
    requires Enabled(w, a, s)
    ensures Reachable(w) ==> Reachable(Do(w, a, s))
    ensures OthersAsBefore(w, a, Do(w, a, s))
  {
    if Reachable(w) {
      Runs.StepReachable(START, Next, w, Act(a, s), Do(w, a, s));
    }
  }

  class Folder {
    var w: World

    constructor ()
      ensures w == START && Reachable(w)
    {
      w := START;
      Runs.InitReachable(START, Next);
    }

    method Call(a: Agent, s: Step)
      requires Enabled(w, a, s)
      modifies this
      ensures w == Do(old(w), a, s) && OthersAsBefore(old(w), a, w)
      ensures Reachable(old(w)) ==> Reachable(w)
    {
      Took(w, a, s);
      w := Do(w, a, s);
    }

    method LockFile(me: Agent, file: LockFile, luck: Luck) returns (ok: bool)
      requires Enabled(w, me, OpenLock(file))
      modifies this
      ensures ok <==> !luck.openFails && !luck.lockFails && file !in old(w).holders
      ensures ok ==> w == To(old(w), me, Locked(file)).(lockFile := Some(file), holders := old(w).holders[file := me])
      ensures !ok ==> PhaseOf(w, me).Failed? && !PhaseOf(w, me).left && (PhaseOf(w, me).busy ==> file in old(w).holders)
      ensures !ok ==> w.holders == old(w).holders && w.socket == old(w).socket && w.makers == old(w).makers
      ensures OthersAsBefore(old(w), me, w)
      ensures Reachable(old(w)) ==> Reachable(w)
    {
      if luck.openFails {
        Call(me, OpenFails);
        return false;
      }
      Call(me, OpenLock(file));
      if w.phases[me].file in w.holders {
        Call(me, LockBusy);
        return false;
      }
      if luck.lockFails {
        Call(me, LockFails);
        return false;
      }
      Call(me, TakeLock);
      return true;
    }

    /** listenLocked, once the socket is bound. */
    method Protect(me: Agent, luck: Luck) returns (ok: bool)
      requires PhaseOf(w, me).Bound?
      modifies this
      ensures ok <==> !luck.chmodFails
      ensures var p, q := PhaseOf(old(w), me), PhaseOf(w, me);
              && (ok ==> q == Serving(p.file, p.socket) && w.socket == old(w).socket)
              && (!ok ==> q.Releasing? && q.failing && q.file == p.file)
      ensures w.holders == old(w).holders && w.makers == old(w).makers
      ensures OthersAsBefore(old(w), me, w)
      ensures Reachable(old(w)) ==> Reachable(w)
    {
      hide Reachable;
      if luck.chmodFails {
        Call(me, ChmodFails);
        Call(me, Unlink(!luck.unlinkFails));
        Call(me, CloseSocket);
        return false;
      }
      Call(me, Chmod);
      return true;
    }

    /** listenLocked; socket is the number the new socket gets. */
    method ListenLocked(me: Agent, socket: Socket, luck: Luck) returns (ok: bool)
      requires PhaseOf(w, me).Locked? && socket !in w.makers
      modifies this
      ensures ok <==> !luck.removeFails && !luck.bindFails && !luck.listenFails && !luck.chmodFails
      ensures ok ==> PhaseOf(w, me) == Serving(PhaseOf(old(w), me).file, socket) && w.socket == Some(socket) && MadeBy(w, me)
      ensures !ok ==> PhaseOf(w, me).Releasing? && PhaseOf(w, me).failing && PhaseOf(w, me).file == PhaseOf(old(w), me).file
      ensures w.holders == old(w).holders
      ensures OthersAsBefore(old(w), me, w)
      ensures Reachable(old(w)) ==> Reachable(w)
    {
      hide Reachable;
      if luck.removeFails {
        Call(me, RemoveFails);
        return false;
      }
      Call(me, RemoveStale);
      if luck.bindFails {
        Call(me, BindFails);
        return false;
      }
      if luck.listenFails {
        Call(me, ListenFails(socket));
        return false;
      }
      Call(me, Bind(socket));
      ok := Protect(me, luck);
    }

    /** path is that of the socket, in bytes. */
    method Listen(me: Agent, file: LockFile, socket: Socket, path: nat, luck: Luck) returns (ok: bool)
      requires Reachable(w) && Enabled(w, me, OpenLock(file)) && socket !in w.makers
      modifies this
      ensures ok <==> path <= MAX_SOCKET_PATH && !luck.AnyFailure() && file !in old(w).holders
      ensures path > MAX_SOCKET_PATH ==> w == old(w)
      ensures ok ==> PhaseOf(w, me) == Serving(file, socket) && w.holders == old(w).holders[file := me]
      ensures ok ==> w.socket == Some(socket) && MadeBy(w, me)
      ensures !ok && path <= MAX_SOCKET_PATH ==> PhaseOf(w, me).Failed? && w.holders == old(w).holders
      ensures !ok && path <= MAX_SOCKET_PATH ==>
                (PhaseOf(w, me).busy ==> file in old(w).holders) && (MadeBy(w, me) ==> PhaseOf(w, me).left)
      ensures OthersAsBefore(old(w), me, w) && Reachable(w)
    {
      if path > MAX_SOCKET_PATH {
        return false;
      }
      var locked := LockFile(me, file, luck);
      if locked {
        ok := ListenLocked(me, socket, luck);
        if !ok {
          Call(me, ReleaseLock);
        }
      } else {
        ok := false;
      }
      if !ok {
        NothingIsKept(w, me);
      }
    }

    method Close(me: Agent, unlinkFails: bool)
      requires Reachable(w) && PhaseOf(w, me).Serving?
      modifies this
      ensures PhaseOf(w, me) == Closed(unlinkFails)
      ensures w.holders == old(w).holders - {PhaseOf(old(w), me).file}
      ensures w.socket == if unlinkFails then old(w).socket else None
      ensures OthersAsBefore(old(w), me, w) && Reachable(w)
    {
      Call(me, BeginClose);
      Call(me, Unlink(!unlinkFails));
      Call(me, CloseSocket);
      Call(me, ReleaseLock);
    }
  }
}
