// Exactly when a device may wrongly be told that the agent stops.
module RevocationTold {
  import opened Common
  import opened Conns
  import opened Revocation
  import opened RevocationInvariants
  import opened RevocationTheorems
  import Runs

  ghost predicate IsOf(s: Sys, r: ReqId, t: Token) {
    r in s.reqs && s.reqs[r].credential == DeviceToken(t)
  }

  /** Whoever of the device of t is told that the agent stops is told the truth. */
  ghost predicate ToldTheTruth(s: Sys, t: Token) {
    forall r :: IsOf(s, r, t) && s.reqs[r].told503 ==> ShutDownBegun(s)
  }

  /** A device with this id was removed, and its CloseDevice is still to come. */
  ghost predicate CloseOfIdAhead(s: Sys, id: DeviceId) {
    exists c, a :: IsRevoker(s, c, a) && s.closers[c].stage.Removed? && a.id == id
  }

  /** t has just been handed out: nobody has used it, and its device has the id of t. */
  ghost predicate JustPaired(s: Sys, t: Token) {
    Reachable(s) && Paired(s, t) && t in s.issued && !ShutDownBegun(s) && forall r :: !IsOf(s, r, t)
  }

  /** Until a shutdown, nobody but itself ends a request of t. */
  ghost predicate NoStranger(s: Sys, t: Token) {
    && !CloseOfIdAhead(s, t.id)
    && (forall c, r :: OnList(s, c, r) ==> !IsOf(s, r, t))
    && (forall r :: IsOf(s, r, t) && s.reqs[r].cancelled ==> s.reqs[r].stage.Releasing? || s.reqs[r].stage.Over?)
  }

  ghost predicate Innocent(s: Sys, t: Token) {
    Inv(s) && t in s.issued && ToldTheTruth(s, t) && (Paired(s, t) && !s.reg.closed ==> NoStranger(s, t))
  }

  lemma OfBefore(s: Sys, e: Event, u: Sys, r: ReqId, t: Token)
    requires Enabled(s, e) && u == Step(s, e) && IsOf(u, r, t)
    ensures IsOf(s, r, t) || (e.Arrive? && !u.reqs[r].cancelled && !u.reqs[r].told503)
  {
    if e.Act? {
      AdvanceFacts(s.reqs[e.r], e.action, s.reg.closed, s.reg.next, Good(s, s.reqs[e.r].credential));
      hide Advance;
    }
  }

  lemma TruthStep(s: Sys, e: Event, u: Sys, t: Token)
    requires Innocent(s, t) && Next(s, e, u)
    ensures ToldTheTruth(u, t)
  {
    ShutDownBegunStep(s, e, u);
    forall r | IsOf(u, r, t) && u.reqs[r].told503 ensures ShutDownBegun(u) {
      ToldBefore(s, e, u, r);
      assert IsOf(s, r, t);
      if !s.reqs[r].told503 {
        assert StageOk(s.reqs[r]);
      }
    }
  }

  lemma ListsStayClear(s: Sys, e: Event, u: Sys, t: Token, c: CloserId, r: ReqId)
    requires Inv(s) && NoStranger(s, t) && Next(s, e, u) && !u.reg.closed && OnList(u, c, r)
    ensures !IsOf(u, r, t)
  {
    if OnList(s, c, r) {
      assert r in s.reqs && !IsOf(s, r, t);
      if IsOf(u, r, t) {
        OfBefore(s, e, u, r, t);
      }
    } else {
      var id := s.closers[c].goal.token.id;
      assert e == DetachOne(c) && r in SetOf(s.reg, id).Values;
      assert IsRevoker(s, c, s.closers[c].goal.token);
      var n :| n in SetOf(s.reg, id) && SetOf(s.reg, id)[n] == r;
      assert EntryOk(s, id, n, r);
    }
  }

  lemma LastActionOf(s: Sys, r: ReqId, a: Action)
    requires Enabled(s, Act(r, a))
    ensures a.ReleaseCancel? ==> Step(s, Act(r, a)).reqs[r].stage.Over?
    ensures a.CancelRefused? ==> s.reqs[r].stage.TrackRefused?
  {
  }

  lemma CancelsStayClear(s: Sys, e: Event, u: Sys, t: Token, r: ReqId)
    requires ShutDownsClose(s) && NoStranger(s, t) && Next(s, e, u) && !s.reg.closed
    requires IsOf(u, r, t) && u.reqs[r].cancelled
    ensures u.reqs[r].stage.Releasing? || u.reqs[r].stage.Over?
  {
    hide Advance;
    CancelledBefore(s, e, u, r);
    OfBefore(s, e, u, r, t);
    if e.Act? && e.r == r {
      LastActionOf(s, r, e.action);
    }
    if s.reqs[r].stage.Releasing? || s.reqs[r].stage.Over? {
      OverBefore(s, e, u, r);
    }
  }

  lemma InnocentStep(s: Sys, e: Event, u: Sys, t: Token)
    requires Innocent(s, t) && Next(s, e, u)
    ensures Innocent(u, t)
  {
    InvStep(s, e, u);
    TruthStep(s, e, u, t);
    if !Paired(s, t) {
      NeverPairedAgain(s, e, t);
    }
    if Paired(u, t) && !u.reg.closed {
      assert Paired(s, t) && !s.reg.closed;
      forall c, r | OnList(u, c, r) ensures !IsOf(u, r, t) {
        ListsStayClear(s, e, u, t, c, r);
      }
      forall r | IsOf(u, r, t) && u.reqs[r].cancelled ensures u.reqs[r].stage.Releasing? || u.reqs[r].stage.Over? {
        CancelsStayClear(s, e, u, t, r);
      }
      if CloseOfIdAhead(u, t.id) {
        CloseWasAhead(s, e, u, t);
        assert false;
      }
    }
  }

  /** No such close begins to be ahead while t is paired: the only device with the id is its own. */
  lemma CloseWasAhead(s: Sys, e: Event, u: Sys, t: Token)
    requires CloseOfIdAhead(u, t.id) && DevicesOk(s) && Next(s, e, u) && Paired(u, t)
    ensures CloseOfIdAhead(s, t.id)
  {
    var c, a :| IsRevoker(u, c, a) && u.closers[c].stage.Removed? && a.id == t.id;
    assert IsRevoker(s, c, a);
  }

  // The other way round: a run in which the device is told so.

  lemma Go(s0: Sys, s: Sys, e: Event) returns (u: Sys)
    requires Runs.Reachable(s0, Next, s) && Enabled(s, e) && !ShutDownBegun(s) && !e.DetachEverything?
    ensures u == Step(s, e) && Runs.Reachable(s0, Next, u) && !ShutDownBegun(u)
  {
    u := Step(s, e);
    Runs.StepReachable(s0, Next, s, e, u);
    ShutDownBegunStep(s, e, u);
  }

  /** A request of t is accepted and tracked. */
  lemma IsTracked(s: Sys, t: Token) returns (u: Sys, r: ReqId)
    requires Paired(s, t) && !s.reg.closed && !ShutDownBegun(s)
    ensures Runs.Reachable(s, Next, u) && !ShutDownBegun(u)
    ensures u.devices == s.devices && u.closers == s.closers && !u.reg.closed
    ensures r in u.reqs && u.reqs[r] == Request(DeviceToken(t), Tracked, s.reg.next + 1, false, false, false, false)
    ensures r in SetOf(u.reg, t.id).Values
  {
    r := SomeNumberIsNew(s.reqs.Keys);
    Runs.InitReachable(s, Next);
    u := Go(s, s, Arrive(r, DeviceToken(t)));
    u := Go(s, u, Act(r, FirstLookup));
    u := Go(s, u, Act(r, Track));
    assert SetOf(u.reg, t.id)[s.reg.next + 1] == r;
  }

  /** The late CloseDevice ends it. */
  lemma IsEnded(s0: Sys, s: Sys, t: Token, c: CloserId, a: Token, r: ReqId) returns (u: Sys)
    requires Runs.Reachable(s0, Next, s) && !ShutDownBegun(s)
    requires IsRevoker(s, c, a) && s.closers[c].stage.Removed? && a.id == t.id
    requires r in s.reqs && s.reqs[r].stage == Tracked && s.reqs[r].credential == DeviceToken(t) && !s.reqs[r].clientGone
    requires r in SetOf(s.reg, t.id).Values
    ensures Runs.Reachable(s0, Next, u) && !ShutDownBegun(u) && u.devices == s.devices
    ensures r in u.reqs && u.reqs[r].stage == Tracked && u.reqs[r].credential == DeviceToken(t)
    ensures u.reqs[r].cancelled && !u.reqs[r].clientGone
  {
    u := Go(s0, s, DetachOne(c));
    u := Go(s0, u, CancelNext(c, r));
  }

  lemma IsTold(s0: Sys, s: Sys, t: Token, r: ReqId) returns (u: Sys)
    requires Runs.Reachable(s0, Next, s) && !ShutDownBegun(s) && Paired(s, t)
    requires r in s.reqs && s.reqs[r].stage == Tracked && s.reqs[r].credential == DeviceToken(t)
    requires s.reqs[r].cancelled && !s.reqs[r].clientGone
    ensures Runs.Reachable(s0, Next, u) && !ToldTheTruth(u, t)
  {
    u := Go(s0, s, Act(r, LookAtContext));
    u := Go(s0, u, Act(r, LookAtParent));
    u := Go(s0, u, Act(r, SecondLookup));
    assert IsOf(u, r, t);
  }

  /**
   * When a device has just been paired, every one of its requests that is ever
   * told that the agent stops is told the truth, in every future: this holds if
   * and only if no CloseDevice of a removed device with the same id is still to
   * come.
   */
  lemma ToldTheTruthIff(s: Sys, t: Token)
    requires JustPaired(s, t)
    ensures (forall u :: Runs.Reachable(s, Next, u) ==> ToldTheTruth(u, t)) <==> !CloseOfIdAhead(s, t.id)
  {
    ReachableInv(s);
    if CloseOfIdAhead(s, t.id) {
      var c, a :| IsRevoker(s, c, a) && s.closers[c].stage.Removed? && a.id == t.id;
      var u, r := IsTracked(s, t);
      u := IsEnded(s, u, t, c, a, r);
      u := IsTold(s, u, t, r);
    } else {
      NothingListed(s, t);
      StaysInnocent(s, t);
    }
  }

  lemma NothingListed(s: Sys, t: Token)
    requires Inv(s) && t in s.issued && !CloseOfIdAhead(s, t.id) && forall r :: !IsOf(s, r, t)
    ensures Innocent(s, t)
  {
  }

  lemma StaysInnocent(s: Sys, t: Token)
    requires Innocent(s, t)
    ensures forall u :: Runs.Reachable(s, Next, u) ==> ToldTheTruth(u, t)
  {
    var innocent := (v: Sys) => Innocent(v, t);
    forall v, e, w | innocent(v) && Next(v, e, w) ensures innocent(w) {
      InnocentStep(v, e, w, t);
    }
    forall u | Runs.Reachable(s, Next, u) ensures ToldTheTruth(u, t) {
      Runs.InvariantHolds(s, Next, innocent, u);
    }
  }
}
