// Exactly when a revocation leaves nothing of the device alive.
module RevocationExact {
  import opened Common
  import opened Conns
  import opened Revocation
  import opened RevocationInvariants
  import opened RevocationTheorems
  import Runs

  ghost predicate NoneAlive(s: Sys, t: Token) {
    forall r :: r in s.reqs && s.reqs[r].credential == DeviceToken(t) ==> !Alive(s.reqs[r])
  }

  /** A live request of the device has already been taken out of the registry by someone else. */
  ghost predicate TakenElsewhere(s: Sys, t: Token) {
    exists r :: r in s.reqs && s.reqs[r].credential == DeviceToken(t) && Alive(s.reqs[r]) && !Registered(s.reqs[r])
  }

  /** handleRevoke of t is about to call CloseDevice. */
  ghost predicate AboutToClose(s: Sys, c: CloserId, t: Token) {
    Reachable(s) && IsRevoker(s, c, t) && s.closers[c].stage.Removed?
  }

  /** What is still alive of the device is on c's own list. */
  ghost predicate Rounded(s: Sys, c: CloserId, t: Token) {
    && Inv(s) && IsRevoker(s, c, t) && !s.closers[c].stage.Removed?
    && forall r :: r in s.reqs && s.reqs[r].credential == DeviceToken(t) && Alive(s.reqs[r]) ==> OnList(s, c, r)
  }

  lemma EndedStays(s: Sys, e: Event, u: Sys, r: ReqId)
    requires Enabled(s, e) && u == Step(s, e) && r in s.reqs && s.reqs[r].Ended()
    ensures r in u.reqs && u.reqs[r].Ended()
  {
    if e.Act? {
      AdvanceFacts(s.reqs[e.r], e.action, s.reg.closed, s.reg.next, Good(s, s.reqs[e.r].credential));
      hide Advance;
    }
  }

  lemma RoundedStep(s: Sys, e: Event, u: Sys, c: CloserId, t: Token)
    requires Rounded(s, c, t) && Next(s, e, u)
    ensures Rounded(u, c, t)
  {
    InvStep(s, e, u);
    assert IsRevoker(u, c, t);
    forall r | r in u.reqs && u.reqs[r].credential == DeviceToken(t) && Alive(u.reqs[r])
      ensures OnList(u, c, r)
    {
      RunningBefore(s, e, u, r);
      if s.reqs[r].Ended() {
        EndedStays(s, e, u, r);
      }
      assert OnList(s, c, r);
      ListKept(s, e, u, c, r);
    }
  }

  /** A request leaves a closer's list only by being cancelled. */
  lemma ListKept(s: Sys, e: Event, u: Sys, c: CloserId, r: ReqId)
    requires Next(s, e, u) && OnList(s, c, r) && ListsOk(s)
    ensures OnList(u, c, r) || (r in u.reqs && u.reqs[r].cancelled)
  {
    hide Advance;
  }

  lemma CompleteIfNoneTaken(s: Sys, c: CloserId, t: Token, u: Sys)
    requires AboutToClose(s, c, t) && !TakenElsewhere(s, t)
    requires Runs.Reachable(Step(s, DetachOne(c)), Next, u) && c in u.closers && u.closers[c].stage.Returned?
    ensures NoneAlive(u, t)
  {
    ReachableInv(s);
    var d := Step(s, DetachOne(c));
    InvStep(s, DetachOne(c), d);
    assert Rounded(d, c, t) by {
      assert IsRevoker(d, c, t);
      forall r | r in d.reqs && d.reqs[r].credential == DeviceToken(t) && Alive(d.reqs[r])
        ensures OnList(d, c, r)
      {
        assert InTable(s.reg, s.reqs[r], r);
      }
    }
    var rounded := (v: Sys) => Rounded(v, c, t);
    forall v, e, w | rounded(v) && Next(v, e, w)
      ensures rounded(w)
    {
      RoundedStep(v, e, w, c, t);
    }
    Runs.InvariantHolds(d, Next, rounded, u);
    forall r | r in u.reqs && u.reqs[r].credential == DeviceToken(t)
      ensures !Alive(u.reqs[r])
    {
      assert !OnList(u, c, r);
    }
  }

  lemma TakenIsRegistered(s: Sys, id: DeviceId, r: ReqId)
    requires TableSound(s) && r in SetOf(s.reg, id).Values
    ensures r in s.reqs && Registered(s.reqs[r])
  {
    var n :| n in SetOf(s.reg, id) && SetOf(s.reg, id)[n] == r;
    assert EntryOk(s, id, n, r);
  }

  /** c can work off its list and return while nobody else moves. */
  lemma {:induction false} CanReturn(d: Sys, s: Sys, c: CloserId, t: Token, r: ReqId) returns (u: Sys)
    requires Runs.Reachable(d, Next, s) && ListsOk(s) && IsRevoker(s, c, t) && s.closers[c].stage.Closing?
    requires r in s.reqs && r !in s.closers[c].todo
    ensures Runs.Reachable(d, Next, u) && c in u.closers && u.closers[c].stage.Returned?
    ensures r in u.reqs && u.reqs[r] == s.reqs[r]
    decreases s.closers[c].todo
  {
    if s.closers[c].todo == {} {
      u := Step(s, Return(c));
      Runs.StepReachable(d, Next, s, Return(c), u);
    } else {
      var q :| q in s.closers[c].todo;
      assert OnList(s, c, q);
      var e := CancelNext(c, q);
      var v := Step(s, e);
      Runs.StepReachable(d, Next, s, e, v);
      assert ListsOk(v) by {
        forall k, p | OnList(v, k, p) ensures OnList(s, k, p) {
        }
      }
      u := CanReturn(d, v, c, t, r);
    }
  }

  lemma IncompleteIfTaken(s: Sys, c: CloserId, t: Token) returns (u: Sys)
    requires AboutToClose(s, c, t) && TakenElsewhere(s, t)
    ensures Runs.Reachable(Step(s, DetachOne(c)), Next, u) && c in u.closers && u.closers[c].stage.Returned?
    ensures !NoneAlive(u, t)
  {
    ReachableInv(s);
    var d := Step(s, DetachOne(c));
    InvStep(s, DetachOne(c), d);
    var r :| r in s.reqs && s.reqs[r].credential == DeviceToken(t) && Alive(s.reqs[r]) && !Registered(s.reqs[r]);
    if r in d.closers[c].todo {
      TakenIsRegistered(s, t.id, r);
      assert false;
    }
    Runs.InitReachable(d, Next);
    assert IsRevoker(d, c, t);
    u := CanReturn(d, d, c, t, r);
  }

  /**
   * Whatever happens after CloseDevice took its set, nothing of the device is
   * alive once handleRevoke has returned: this holds if and only if, when
   * CloseDevice is called, every live request of the device is in the registry.
   */
  lemma RevokeCompleteIff(s: Sys, c: CloserId, t: Token)
    requires AboutToClose(s, c, t)
    ensures (forall u :: Runs.Reachable(Step(s, DetachOne(c)), Next, u) && c in u.closers && u.closers[c].stage.Returned? ==>
               NoneAlive(u, t))
            <==> !TakenElsewhere(s, t)
  {
    if TakenElsewhere(s, t) {
      var u := IncompleteIfTaken(s, c, t);
    } else {
      forall u | Runs.Reachable(Step(s, DetachOne(c)), Next, u) && c in u.closers && u.closers[c].stage.Returned?
        ensures NoneAlive(u, t)
      {
        CompleteIfNoneTaken(s, c, t, u);
      }
    }
  }
}
