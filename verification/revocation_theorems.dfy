// The promises of the revocation protocol, over every run.
module RevocationTheorems {
  import opened Common
  import opened Conns
  import opened Revocation
  import opened RevocationInvariants
  import Runs

  /** Past the second lookup, and neither the client, nor a closer, nor the registry has ended it. */
  predicate Alive(q: Request) {
    q.stage.Running? && !q.Ended()
  }

  /** handleRevoke has removed the device of t and has not reached CloseDevice yet. */
  ghost predicate CloseAhead(s: Sys, t: Token) {
    exists c :: IsRevoker(s, c, t) && s.closers[c].stage.Removed?
  }

  /** A running request of an unpaired device that nobody has taken yet is taken by the revoker, which is still to come. */
  ghost predicate LeftToRevoker(s: Sys) {
    forall r :: r in s.reqs && s.reqs[r].stage.Running? && Registered(s.reqs[r]) && s.reqs[r].credential.DeviceToken?
                && !Paired(s, s.reqs[r].credential.token) ==>
      CloseAhead(s, s.reqs[r].credential.token)
  }

  /** A request that runs was running before the step, or has just passed its second lookup. */
  lemma RunningBefore(s: Sys, e: Event, u: Sys, r: ReqId)
    requires Enabled(s, e) && u == Step(s, e) && r in u.reqs && u.reqs[r].stage.Running?
    ensures r in s.reqs && s.reqs[r].credential == u.reqs[r].credential
    ensures s.reqs[r].n == u.reqs[r].n && (s.reqs[r].detached ==> u.reqs[r].detached)
    ensures s.reqs[r].stage.Running? || (e == Act(r, SecondLookup) && Good(s, s.reqs[r].credential))
  {
    if e.Act? {
      AdvanceFacts(s.reqs[e.r], e.action, s.reg.closed, s.reg.next, Good(s, s.reqs[e.r].credential));
      hide Advance;
    }
  }

  lemma CloseAheadStep(s: Sys, e: Event, t: Token)
    requires CloseAhead(s, t) && RevokersOk(s) && Enabled(s, e)
    ensures CloseAhead(Step(s, e), t) || (e.DetachOne? && IsRevoker(s, e.c, t))
  {
    var c :| IsRevoker(s, c, t) && s.closers[c].stage.Removed?;
    assert IsRevoker(Step(s, e), c, t);
  }

  lemma LeftToRevokerStep(s: Sys, e: Event, u: Sys)
    requires LeftToRevoker(s) && TableComplete(s) && CredentialsIssued(s) && DevicesOk(s) && RevokersOk(s)
    requires Enabled(s, e) && u == Step(s, e)
    ensures LeftToRevoker(u)
  {
    forall r | r in u.reqs && u.reqs[r].stage.Running? && Registered(u.reqs[r]) && u.reqs[r].credential.DeviceToken?
               && !Paired(u, u.reqs[r].credential.token)
      ensures CloseAhead(u, u.reqs[r].credential.token)
    {
      RunningBefore(s, e, u, r);
      var t := u.reqs[r].credential.token;
      if Paired(s, t) {
        assert IsRevoker(u, e.c, t);
      } else {
        CloseAheadStep(s, e, t);
        assert InTable(s.reg, s.reqs[r], r);
      }
    }
  }

  /** The registry is closed, or a device with this id was removed and its set taken. */
  ghost predicate Cause(s: Sys, id: DeviceId) {
    s.reg.closed || exists c, t :: IsRevoker(s, c, t) && !s.closers[c].stage.Removed? && t.id == id
  }

  lemma CauseStays(s: Sys, e: Event, id: DeviceId)
    requires Cause(s, id) && Enabled(s, e)
    ensures Cause(Step(s, e), id)
  {
    if !s.reg.closed {
      var c, t :| IsRevoker(s, c, t) && !s.closers[c].stage.Removed? && t.id == id;
      assert IsRevoker(Step(s, e), c, t);
    }
  }

  ghost predicate ShutDownBegun(s: Sys) {
    exists c :: c in s.closers && s.closers[c].goal.ShutDown?
  }

  ghost predicate ShutDownsClose(s: Sys) {
    && (s.reg.closed <==> ShutDownBegun(s))
    && (s.reg.closed ==> s.reg.open == map[])
    && (!s.reg.closed ==> forall r :: r in s.reqs ==> !s.reqs[r].stage.TrackRefused?)
  }

  /** Until its own release, only the registry's closers cancel a request. */
  ghost predicate CancelsHaveCause(s: Sys) {
    forall r :: r in s.reqs && s.reqs[r].cancelled && !s.reqs[r].stage.Releasing? && !s.reqs[r].stage.Over? ==>
      Cause(s, s.reqs[r].Device())
  }

  lemma ShutDownBegunStep(s: Sys, e: Event, u: Sys)
    requires Enabled(s, e) && u == Step(s, e)
    ensures ShutDownBegun(u) <==> ShutDownBegun(s) || e.DetachEverything?
  {
    hide Advance;
    if ShutDownBegun(s) {
      var c :| c in s.closers && s.closers[c].goal.ShutDown?;
      assert c in u.closers && u.closers[c].goal.ShutDown?;
    }
    if e.DetachEverything? {
      assert e.c in u.closers && u.closers[e.c].goal.ShutDown?;
    } else if ShutDownBegun(u) {
      var c :| c in u.closers && u.closers[c].goal.ShutDown?;
      assert c in s.closers && s.closers[c].goal.ShutDown?;
    }
  }

  lemma ShutDownsCloseStep(s: Sys, e: Event, u: Sys)
    requires ShutDownsClose(s) && Enabled(s, e) && u == Step(s, e)
    ensures ShutDownsClose(u)
  {
    ShutDownBegunStep(s, e, u);
    if e.Act? {
      AdvanceFacts(s.reqs[e.r], e.action, s.reg.closed, s.reg.next, Good(s, s.reqs[e.r].credential));
      hide Advance;
    }
  }

  lemma CancelledBefore(s: Sys, e: Event, u: Sys, r: ReqId)
    requires Enabled(s, e) && u == Step(s, e) && r in u.reqs && u.reqs[r].cancelled
    ensures r in s.reqs && s.reqs[r].Device() == u.reqs[r].Device()
    ensures s.reqs[r].cancelled || e == Act(r, CancelRefused) || e == Act(r, ReleaseCancel)
            || (e.CancelNext? && OnList(s, e.c, r))
  {
    if e.Act? {
      AdvanceFacts(s.reqs[e.r], e.action, s.reg.closed, s.reg.next, Good(s, s.reqs[e.r].credential));
      hide Advance;
    }
  }

  lemma OverBefore(s: Sys, e: Event, u: Sys, r: ReqId)
    requires Enabled(s, e) && u == Step(s, e) && r in s.reqs && (s.reqs[r].stage.Releasing? || s.reqs[r].stage.Over?)
    ensures r in u.reqs && (u.reqs[r].stage.Releasing? || u.reqs[r].stage.Over?)
  {
    if e.Act? {
      AdvanceFacts(s.reqs[e.r], e.action, s.reg.closed, s.reg.next, Good(s, s.reqs[e.r].credential));
      hide Advance;
    }
  }

  lemma CancelsHaveCauseStep(s: Sys, e: Event, u: Sys)
    requires CancelsHaveCause(s) && ShutDownsClose(s) && ListsOk(s) && Enabled(s, e) && u == Step(s, e)
    ensures CancelsHaveCause(u)
  {
    forall r | r in u.reqs && u.reqs[r].cancelled && !u.reqs[r].stage.Releasing? && !u.reqs[r].stage.Over?
      ensures Cause(u, u.reqs[r].Device())
    {
      CancelledBefore(s, e, u, r);
      if s.reqs[r].stage.Releasing? || s.reqs[r].stage.Over? {
        OverBefore(s, e, u, r);
      }
      if !s.reqs[r].cancelled && e.CancelNext? && s.closers[e.c].goal.Revoke? {
        assert IsRevoker(s, e.c, s.closers[e.c].goal.token);
      }
      CauseStays(s, e, s.reqs[r].Device());
    }
  }

  /** Why a request was told that the agent stops. */
  ghost predicate ToldCause(s: Sys, credential: Credential) {
    s.reg.closed
    || (credential.DeviceToken? && credential.token in s.issued
        && exists c, t :: IsRevoker(s, c, t) && t.id == credential.token.id && t != credential.token)
  }

  ghost predicate ToldTruth(s: Sys) {
    forall r :: r in s.reqs && s.reqs[r].told503 ==> ToldCause(s, s.reqs[r].credential)
  }

  lemma ToldCauseStays(s: Sys, e: Event, credential: Credential)
    requires ToldCause(s, credential) && Enabled(s, e)
    ensures ToldCause(Step(s, e), credential)
  {
    if !s.reg.closed {
      var c, t :| IsRevoker(s, c, t) && t.id == credential.token.id && t != credential.token;
      assert IsRevoker(Step(s, e), c, t);
    }
  }

  lemma ToldTruthStep(s: Sys, e: Event, u: Sys)
    requires ToldTruth(s) && CancelsHaveCause(s) && StagesOk(s) && DevicesOk(s) && RevokersOk(s)
    requires Enabled(s, e) && u == Step(s, e)
    ensures ToldTruth(u)
  {
    forall r | r in u.reqs && u.reqs[r].told503
      ensures ToldCause(u, u.reqs[r].credential)
    {
      ToldBefore(s, e, u, r);
      if !s.reqs[r].told503 {
        assert StageOk(s.reqs[r]) && Cause(s, s.reqs[r].Device());
      }
      ToldCauseStays(s, e, s.reqs[r].credential);
    }
  }

  lemma ToldBefore(s: Sys, e: Event, u: Sys, r: ReqId)
    requires Enabled(s, e) && u == Step(s, e) && r in u.reqs && u.reqs[r].told503
    ensures r in s.reqs && s.reqs[r].credential == u.reqs[r].credential
    ensures s.reqs[r].told503
            || (s.reqs[r].stage == LookedAtParent(true) && Good(s, s.reqs[r].credential))
  {
    if e.Act? {
      AdvanceFacts(s.reqs[e.r], e.action, s.reg.closed, s.reg.next, Good(s, s.reqs[e.r].credential));
      hide Advance;
    }
  }

  ghost predicate Inv(s: Sys) {
    && StagesOk(s) && TableIsExact(s) && NumbersDistinct(s) && WellFormed(s.reg)
    && ListsOk(s) && DetachedInHands(s)
    && DevicesOk(s) && CredentialsIssued(s) && RevokersOk(s)
    && LeftToRevoker(s) && ShutDownsClose(s) && CancelsHaveCause(s) && ToldTruth(s)
  }

  lemma RegStep(s: Sys, e: Event)
    requires WellFormed(s.reg) && Enabled(s, e)
    ensures WellFormed(Step(s, e).reg)
  {
    hide Advance;
    match e
    case Act(r, a) =>
      if a.Track? && !s.reg.closed {
        TrackKeepsWellFormed(s.reg, s.reqs[r].Device(), r);
      } else if a.Release? {
        ReleaseKeepsWellFormed(s.reg, s.reqs[r].Device(), s.reqs[r].n);
      }
    case DetachOne(c) => DetachKeepsWellFormed(s.reg, s.closers[c].goal.token.id);
    case _ =>
  }

  lemma InvStep(s: Sys, e: Event, u: Sys)
    requires Inv(s) && Next(s, e, u)
    ensures Inv(u)
  {
    StagesOkStep(s, e);
    TableStep(s, e);
    NumbersDistinctStep(s, e, u);
    RegStep(s, e);
    ListsStep(s, e);
    DetachedInHandsStep(s, e);
    DevicesStep(s, e);
    CredentialsStep(s, e);
    RevokersStep(s, e);
    LeftToRevokerStep(s, e, u);
    ShutDownsCloseStep(s, e, u);
    CancelsHaveCauseStep(s, e, u);
    ToldTruthStep(s, e, u);
  }

  lemma ReachableInv(s: Sys)
    requires Reachable(s)
    ensures Inv(s)
  {
    forall s, e, u | Inv(s) && Next(s, e, u)
      ensures Inv(u)
    {
      InvStep(s, e, u);
    }
    Runs.InvariantHolds(INITIAL, Next, Inv, s);
  }

  // What handleRevoke promises once it has returned.

  /** d is another call, still at work, that took r out of the registry before the revoker of t could. */
  ghost predicate OtherCloserHas(s: Sys, c: CloserId, t: Token, d: CloserId, r: ReqId) {
    && d != c && OnList(s, d, r) && s.closers[d].stage.Closing?
    && (s.closers[d].goal.Revoke? ==> s.closers[d].goal.token.id == t.id && s.closers[d].goal.token != t)
  }

  /**
   * A request of a revoked device that still runs with a live context after
   * handleRevoke has returned is in the hands of a CloseAll, or of the
   * CloseDevice of another device that had got the same id.
   */
  lemma RevokedAliveIsInOtherHands(s: Sys, c: CloserId, t: Token, r: ReqId)
    requires Reachable(s) && IsRevoker(s, c, t) && s.closers[c].stage.Returned?
    requires r in s.reqs && s.reqs[r].credential == DeviceToken(t) && Alive(s.reqs[r])
    ensures exists d :: OtherCloserHas(s, c, t, d, r)
  {
    ReachableInv(s);
    assert StageOk(s.reqs[r]) && !Paired(s, t);
    assert !CloseAhead(s, t);
    assert !Registered(s.reqs[r]);
    var d :| OnList(s, d, r);
    assert !IsRevoker(s, d, t);
    assert OtherCloserHas(s, c, t, d, r);
  }

  /** So nothing of the device is left alive while no CloseAll is under way and the id has not been handed out again. */
  lemma RevokeCompleteWithoutOtherClosers(s: Sys, c: CloserId, t: Token, r: ReqId)
    requires Reachable(s) && IsRevoker(s, c, t) && s.closers[c].stage.Returned?
    requires forall d :: d in s.closers && s.closers[d].stage.Closing? ==> s.closers[d].goal.Revoke?
    requires forall o :: o in s.issued && o.id == t.id ==> o == t
    requires r in s.reqs && s.reqs[r].credential == DeviceToken(t)
    ensures !Alive(s.reqs[r])
  {
    ReachableInv(s);
    if Alive(s.reqs[r]) {
      RevokedAliveIsInOtherHands(s, c, t, r);
      var d :| OtherCloserHas(s, c, t, d, r);
      assert IsRevoker(s, d, s.closers[d].goal.token);
    }
  }

  /** From the removal on, whatever happens, the device is not paired and none of its requests gets past its second lookup. */
  lemma {:induction false} NobodyGetsInAfterwards(states: seq<Sys>, events: seq<Event>, i: nat, j: nat, c: CloserId, t: Token, r: ReqId)
    requires Runs.IsRun(INITIAL, Next, states, events) && i <= j <= |events|
    requires IsRevoker(states[i], c, t)
    ensures t in states[j].issued && !Paired(states[j], t)
    ensures r in states[j].reqs && states[j].reqs[r].credential == DeviceToken(t) && states[j].reqs[r].stage.Running? ==>
              r in states[i].reqs && states[i].reqs[r].stage.Running?
  {
    if i == j {
      assert Reachable(states[i]) by {
        assert Runs.IsRun(INITIAL, Next, states[..i + 1], events[..i]) && states[..i + 1][|events[..i]|] == states[i];
      }
      ReachableInv(states[i]);
    } else {
      NobodyGetsInAfterwards(states, events, i, j - 1, c, t, r);
      var s, e, u := states[j - 1], events[j - 1], states[j];
      assert Next(s, e, u);
      NeverPairedAgain(s, e, t);
      if r in u.reqs && u.reqs[r].stage.Running? {
        RunningBefore(s, e, u, r);
      }
    }
  }

  // What a request that is told about a shutdown can rely on.

  lemma ShuttingDownIsTrue(s: Sys, r: ReqId)
    requires Reachable(s) && r in s.reqs && s.reqs[r].told503
    requires forall a, b :: a in s.issued && b in s.issued && a.id == b.id ==> a == b
    ensures ShutDownBegun(s)
  {
    ReachableInv(s);
    assert ToldCause(s, s.reqs[r].credential);
  }

  /** With ids handed out again, the only other way is a removal of another device that had the same id. */
  lemma ToldForAnotherDevice(s: Sys, r: ReqId)
    requires Reachable(s) && r in s.reqs && s.reqs[r].told503 && !ShutDownBegun(s)
    ensures s.reqs[r].credential.DeviceToken?
    ensures exists c, t :: IsRevoker(s, c, t) && t.id == s.reqs[r].credential.token.id && t != s.reqs[r].credential.token
  {
    ReachableInv(s);
    assert ToldCause(s, s.reqs[r].credential);
  }

  // What the registry promises.

  /** Once CloseAll has begun, every request between Track and its release is cancelled or in the hands of a running closer. */
  lemma AfterShutDown(s: Sys, r: ReqId)
    requires Reachable(s) && ShutDownBegun(s) && r in s.reqs && s.reqs[r].Held()
    ensures s.reqs[r].cancelled || exists d :: OnList(s, d, r) && s.closers[d].stage.Closing?
  {
    ReachableInv(s);
    assert StageOk(s.reqs[r]);
    assert !InTable(s.reg, s.reqs[r], r);
    if !s.reqs[r].cancelled {
      var d :| OnList(s, d, r);
    }
  }

  /** When the goroutine of a tracked request is done, its context has ended and the registry no longer knows it. */
  lemma ReleasedIsEnded(s: Sys, r: ReqId, d: DeviceId, n: nat)
    requires Reachable(s) && r in s.reqs && s.reqs[r].n > 0 && s.reqs[r].stage.Over?
    ensures s.reqs[r].cancelled
    ensures d in s.reg.open && n in s.reg.open[d] ==> s.reg.open[d][n] != r
  {
    ReachableInv(s);
    assert StageOk(s.reqs[r]);
    assert d in s.reg.open && n in s.reg.open[d] ==> EntryOk(s, d, n, s.reg.open[d][n]);
  }

  ghost function RequestsOf(s: Sys, d: DeviceId): set<ReqId> {
    set r | r in s.reqs && Registered(s.reqs[r]) && s.reqs[r].Device() == d
  }

  lemma {:induction false} InjectiveSize(m: map<nat, ReqId>)
    requires forall a, b :: a in m && b in m && m[a] == m[b] ==> a == b
    ensures |m| == |m.Values|
  {
    if m != map[] {
      var n :| n in m;
      var rest := m - {n};
      InjectiveSize(rest);
      assert m.Keys == rest.Keys + {n};
      assert m.Values == rest.Values + {m[n]} by {
        forall v | v in m.Values ensures v in rest.Values + {m[n]} {
          var k :| k in m && m[k] == v;
          assert k != n ==> k in rest && rest[k] == v;
        }
      }
      assert |m| == |m.Keys| && |rest| == |rest.Keys|;
    }
  }

  /** Open reports how many of the device's requests are tracked and neither released nor closed. */
  lemma OpenIsExact(s: Sys, d: DeviceId)
    requires Reachable(s)
    ensures SetOf(s.reg, d).Values == RequestsOf(s, d)
    ensures |SetOf(s.reg, d)| == |RequestsOf(s, d)|
  {
    ReachableInv(s);
    var m := SetOf(s.reg, d);
    forall n | n in m ensures EntryOk(s, d, n, m[n]) {
    }
    forall r | r in RequestsOf(s, d) ensures r in m.Values {
      assert InTable(s.reg, s.reqs[r], r);
    }
    InjectiveSize(m);
  }
}
