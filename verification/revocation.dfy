// How a request and the removal of its device meet
// (agent/internal/auth/authenticator.go, agent/internal/conns/conns.go and
// handleRevoke in agent/internal/admin/admin.go).
//
// Any number of requests, revokers and shutdowns run at once. A section of code
// under a mutex is one step, and so is every look at a context and every cancel
// made outside the mutex. What the registry does in a step is what Conns says.
module Revocation {
  import opened Common
  import opened Conns
  import Runs

  datatype Credential = SharedToken | DeviceToken(token: Token)

  type ReqId = nat
  type CloserId = nat

  datatype Stage =
    | Arrived
    | Accepted                                // Require: the credential was found good
    | TrackRefused                            // Track: the registry is closed, cancel() comes next
    | Tracked                                 // Track has returned
    | LookedAtContext(trackedEnded: bool)     // tracked.Err() was read
    | LookedAtParent(endedByRegistry: bool)   // parent.Err() was read after it
    | Running                                 // in next.ServeHTTP
    | ToldShuttingDown                        // answered 503
    | NotPaired                               // serve reports false
    | Finished                                // next.ServeHTTP returned
    | Releasing                               // release: the locked section is over, cancel() comes next
    | Over

  /** n is the request's number in the registry; 0 when Track refused it. */
  datatype Request = Request(
    credential: Credential, stage: Stage, n: nat, clientGone: bool, cancelled: bool, detached: bool, told503: bool)
  {
    predicate Ended() {
      clientGone || cancelled
    }

    function Device(): DeviceId {
      match credential
      case SharedToken => LEGACY_DEVICE_ID
      case DeviceToken(t) => t.id
    }

    /** Between Track and the locked section of release. */
    predicate Held() {
      stage.Tracked? || stage.LookedAtContext? || stage.LookedAtParent? || stage.Running?
      || stage.ToldShuttingDown? || stage.NotPaired? || stage.Finished?
    }
  }

  datatype Goal = Revoke(token: Token) | ShutDown

  datatype CloserStage =
    | Removed     // handleRevoke: Devices.Remove has succeeded
    | Closing     // the locked section of CloseDevice or CloseAll is over
    | Returned

  /** A call of handleRevoke whose removal succeeded, or of CloseAll. */
  datatype Closer = Closer(goal: Goal, stage: CloserStage, todo: set<ReqId>)

  datatype Sys = Sys(
    devices: map<DeviceId, Digest>,
    issued: set<Token>,
    reg: Reg<ReqId>,
    reqs: map<ReqId, Request>,
    closers: map<CloserId, Closer>)

  const INITIAL := Sys(map[], {}, EmptyReg(), map[], map[])

  /** Devices.Authenticate, as far as the answer goes. */
  predicate Paired(s: Sys, t: Token) {
    t.id in s.devices && s.devices[t.id] == Sha256Hex(t)
  }

  predicate Good(s: Sys, c: Credential) {
    c.DeviceToken? ==> Paired(s, c.token)
  }

  /** What a request's own goroutine, or its client, does next. */
  datatype Action =
    | ClientLeaves
    | FirstLookup
    | Track
    | CancelRefused
    | LookAtContext
    | LookAtParent
    | SecondLookup
    | HandlerReturns
    | Release
    | ReleaseCancel

  datatype Event =
    | Pair(token: Token)
    | Arrive(r: ReqId, credential: Credential)
    | Act(r: ReqId, action: Action)
    | Remove(c: CloserId, id: DeviceId)
    | DetachOne(c: CloserId)
    | DetachEverything(c: CloserId)
    | CancelNext(c: CloserId, r: ReqId)
    | Return(c: CloserId)

  predicate CanAct(q: Request, a: Action) {
    match a
    case ClientLeaves => true
    case FirstLookup => q.stage.Arrived?
    case Track => q.stage.Accepted?
    case CancelRefused => q.stage.TrackRefused?
    case LookAtContext => q.stage.Tracked?
    case LookAtParent => q.stage.LookedAtContext?
    case SecondLookup => q.stage.LookedAtParent?
    case HandlerReturns => q.stage.Running?
    case Release => q.stage.ToldShuttingDown? || q.stage.NotPaired? || q.stage.Finished?
    case ReleaseCancel => q.stage.Releasing?
  }

  predicate Enabled(s: Sys, e: Event) {
    match e
    // Add takes an id that is free and draws a new secret; an id is 8 hex digits.
    case Pair(t) => t.id !in s.devices && t !in s.issued && |t.id| == 8
    case Arrive(r, _) => r !in s.reqs
    case Act(r, a) => r in s.reqs && CanAct(s.reqs[r], a)
    case Remove(c, id) => c !in s.closers && id in s.devices
    case DetachOne(c) => c in s.closers && s.closers[c].stage.Removed? && s.closers[c].goal.Revoke?
    case DetachEverything(c) => c !in s.closers
    case CancelNext(c, r) => c in s.closers && r in s.closers[c].todo && r in s.reqs
    case Return(c) => c in s.closers && s.closers[c].stage.Closing? && s.closers[c].todo == {}
  }

  /** The request after its action; good says whether its credential is good at that moment. */
  function Advance(q: Request, a: Action, closed: bool, next: nat, good: bool): Request
    requires CanAct(q, a)
  {
    match a
    case ClientLeaves => q.(clientGone := true)
    case FirstLookup => q.(stage := if good then Accepted else Over)
    case Track => if closed then q.(stage := TrackRefused) else q.(stage := Tracked, n := next + 1)
    case CancelRefused => q.(stage := Tracked, cancelled := true)
    case LookAtContext => q.(stage := LookedAtContext(q.Ended()))
    case LookAtParent => q.(stage := LookedAtParent(q.stage.trackedEnded && !q.clientGone))
    case SecondLookup =>
      if !good then q.(stage := NotPaired)
      else if q.stage.endedByRegistry then q.(stage := ToldShuttingDown, told503 := true)
      else q.(stage := Running)
    case HandlerReturns => q.(stage := Finished)
    case Release => q.(stage := if q.n == 0 then Over else Releasing)
    case ReleaseCancel => q.(stage := Over, cancelled := true)
  }

  function RegAfter(reg: Reg<ReqId>, r: ReqId, q: Request, a: Action): Reg<ReqId> {
    if a.Track? && !reg.closed then TrackIn(reg, q.Device(), r)
    else if a.Release? && q.n > 0 then ReleaseIn(reg, q.Device(), q.n)
    else reg
  }

  function ActStep(s: Sys, r: ReqId, a: Action): Sys
    requires r in s.reqs && CanAct(s.reqs[r], a)
  {
    var q := s.reqs[r];
    s.(reqs := s.reqs[r := Advance(q, a, s.reg.closed, s.reg.next, Good(s, q.credential))],
       reg := RegAfter(s.reg, r, q, a))
  }

  /** The requests of a detached set are marked; the mark is for the proofs only. */
  function Mark(reqs: map<ReqId, Request>, taken: set<ReqId>): map<ReqId, Request> {
    map r | r in reqs :: if r in taken then reqs[r].(detached := true) else reqs[r]
  }

  function Everyone(reg: Reg<ReqId>): set<ReqId> {
    set d, n | d in reg.open && n in reg.open[d] :: reg.open[d][n]
  }

  function DetachOneStep(s: Sys, c: CloserId): Sys
    requires c in s.closers && s.closers[c].goal.Revoke?
  {
    var id := s.closers[c].goal.token.id;
    var taken := SetOf(s.reg, id).Values;
    s.(closers := s.closers[c := s.closers[c].(stage := Closing, todo := taken)],
       reg := DetachDevice(s.reg, id), reqs := Mark(s.reqs, taken))
  }

  function DetachEverythingStep(s: Sys, c: CloserId): Sys {
    var taken := Everyone(s.reg);
    s.(closers := s.closers[c := Closer(ShutDown, Closing, taken)],
       reg := DetachAll(s.reg), reqs := Mark(s.reqs, taken))
  }

  function CancelStep(s: Sys, c: CloserId, r: ReqId): Sys
    requires c in s.closers && r in s.reqs
  {
    s.(closers := s.closers[c := s.closers[c].(todo := s.closers[c].todo - {r})],
       reqs := s.reqs[r := s.reqs[r].(cancelled := true)])
  }

  function Step(s: Sys, e: Event): Sys
    requires Enabled(s, e)
  {
    match e
    case Pair(t) => s.(devices := s.devices[t.id := Sha256Hex(t)], issued := s.issued + {t})
    case Arrive(r, c) => s.(reqs := s.reqs[r := Request(c, Arrived, 0, false, false, false, false)])
    case Act(r, a) => ActStep(s, r, a)
    case Remove(c, id) =>
      s.(closers := s.closers[c := Closer(Revoke(s.devices[id].token), Removed, {})], devices := s.devices - {id})
    case DetachOne(c) => DetachOneStep(s, c)
    case DetachEverything(c) => DetachEverythingStep(s, c)
    case CancelNext(c, r) => CancelStep(s, c, r)
    case Return(c) => s.(closers := s.closers[c := s.closers[c].(stage := Returned)])
  }

  ghost predicate Next(s: Sys, e: Event, t: Sys) {
    Enabled(s, e) && t == Step(s, e)
  }

  /** The states an agent can be in after some run from its start. */
  ghost predicate Reachable(s: Sys) {
    Runs.Reachable(INITIAL, Next, s)
  }
}
