// What every step of the revocation protocol keeps.
module RevocationInvariants {
  import opened Common
  import opened Conns
  import opened Revocation

  /** What a request's own record says about itself. */
  predicate StageOk(q: Request) {
    && (q.stage.Arrived? || q.stage.Accepted? || q.stage.TrackRefused? ==>
          q.n == 0 && !q.cancelled && !q.detached && !q.told503)
    && (q.stage == LookedAtContext(true) ==> q.Ended())
    && (q.stage == LookedAtParent(true) ==> q.cancelled)
    && (q.detached ==> q.n > 0)
    && (q.Held() && q.n == 0 ==> q.cancelled)
    && (q.told503 ==> q.cancelled)
    && (q.Held() && !q.stage.ToldShuttingDown? ==> !q.told503)
    && (q.stage.Over? && q.n > 0 ==> q.cancelled)
  }

  ghost predicate StagesOk(s: Sys) {
    forall r :: r in s.reqs ==> StageOk(s.reqs[r])
  }

  /** In the registry's open table: tracked, and neither released nor taken by a closer. */
  predicate Registered(q: Request) {
    q.Held() && q.n > 0 && !q.detached
  }

  /** The open table is exactly the requests that are registered. */
  ghost predicate TableIsExact(s: Sys) {
    TableSound(s) && TableComplete(s)
  }

  ghost predicate TableSound(s: Sys) {
    forall d, n :: d in s.reg.open && n in s.reg.open[d] ==> EntryOk(s, d, n, s.reg.open[d][n])
  }

  ghost predicate EntryOk(s: Sys, d: DeviceId, n: nat, r: ReqId) {
    r in s.reqs && Registered(s.reqs[r]) && s.reqs[r].Device() == d && s.reqs[r].n == n
  }

  ghost predicate TableComplete(s: Sys) {
    forall r :: r in s.reqs && Registered(s.reqs[r]) ==> InTable(s.reg, s.reqs[r], r)
  }

  ghost predicate InTable(reg: Reg<ReqId>, q: Request, r: ReqId) {
    q.Device() in reg.open && q.n in reg.open[q.Device()] && reg.open[q.Device()][q.n] == r
  }

  ghost predicate NumbersDistinct(s: Sys) {
    && (forall r :: NumberOf(s, r) <= s.reg.next)
    && (forall q, r :: NumberOf(s, q) == NumberOf(s, r) && NumberOf(s, q) > 0 ==> q == r)
  }

  ghost predicate OnList(s: Sys, c: CloserId, r: ReqId) {
    c in s.closers && r in s.closers[c].todo
  }

  /** Some closer that is still running has r in its set. */
  ghost predicate InHands(s: Sys, r: ReqId) {
    exists c :: OnList(s, c, r)
  }

  /** A closer works off requests of its own device that it took out of the table. */
  ghost predicate ListsOk(s: Sys) {
    forall c, r :: OnList(s, c, r) ==>
      && s.closers[c].stage.Closing?
      && r in s.reqs && s.reqs[r].detached
      && (s.closers[c].goal.Revoke? ==> s.closers[c].goal.token.id == s.reqs[r].Device())
  }

  ghost predicate DetachedInHands(s: Sys) {
    forall r :: r in s.reqs && s.reqs[r].detached && !s.reqs[r].cancelled ==> InHands(s, r)
  }

  /** What one action does to a request, as far as the proofs look at it. */
  lemma AdvanceFacts(q: Request, a: Action, closed: bool, next: nat, good: bool)
    requires CanAct(q, a)
    ensures var q' := Advance(q, a, closed, next, good);
      && q'.credential == q.credential && q'.detached == q.detached
      && (q'.cancelled ==> q.cancelled || a.CancelRefused? || a.ReleaseCancel?)
      && (q'.stage.Running? ==> q'.n == q.n && (q.stage.Running? || (a.SecondLookup? && good)))
      && (q'.stage.TrackRefused? ==> q.stage.TrackRefused? || closed)
      && (q'.told503 ==> q.told503 || (q.stage == LookedAtParent(true) && good))
      && (q.stage.Releasing? || q.stage.Over? ==> q'.stage.Releasing? || q'.stage.Over?)
      && (q.Ended() ==> q'.Ended())
  {
  }

  lemma AdvanceQuiet(q: Request, a: Action, closed: bool, next: nat, good: bool)
    requires CanAct(q, a) && StageOk(q) && !a.Track? && !a.Release?
    ensures var q' := Advance(q, a, closed, next, good);
      q'.credential == q.credential && q'.n == q.n && Registered(q') == Registered(q)
  {
  }

  lemma AdvanceStageOk(q: Request, a: Action, closed: bool, next: nat, good: bool)
    requires StageOk(q) && CanAct(q, a)
    ensures StageOk(Advance(q, a, closed, next, good))
  {
  }

  lemma StagesOkStep(s: Sys, e: Event)
    requires StagesOk(s) && TableSound(s) && ListsOk(s) && Enabled(s, e)
    ensures StagesOk(Step(s, e))
  {
    if e.Act? {
      AdvanceStageOk(s.reqs[e.r], e.action, s.reg.closed, s.reg.next, Good(s, s.reqs[e.r].credential));
    }
  }

  function NumberOf(s: Sys, r: ReqId): nat {
    if r in s.reqs then s.reqs[r].n else 0
  }

  /** Only Track gives out a number, the next one. */
  lemma NumberDrawn(q: Request, a: Action, closed: bool, next: nat, good: bool)
    requires CanAct(q, a)
    ensures Advance(q, a, closed, next, good).n == if a.Track? && !closed then next + 1 else q.n
  {
  }

  /** A step leaves every number as it is, except that it may draw the next one for one request. */
  lemma NumberAfter(s: Sys, e: Event, r: ReqId)
    requires Enabled(s, e)
    ensures NumberOf(Step(s, e), r) == NumberOf(s, r)
            || (e.Act? && e.r == r && NumberOf(Step(s, e), r) == Step(s, e).reg.next == s.reg.next + 1)
    ensures s.reg.next <= Step(s, e).reg.next
  {
    if e.Act? {
      NumberDrawn(s.reqs[e.r], e.action, s.reg.closed, s.reg.next, Good(s, s.reqs[e.r].credential));
    }
    hide Advance;
    hide CanAct;
  }

  lemma NumbersDistinctStep(s: Sys, e: Event, t: Sys)
    requires NumbersDistinct(s) && Enabled(s, e) && t == Step(s, e)
    ensures NumbersDistinct(t)
  {
    forall r ensures NumberOf(t, r) <= t.reg.next {
      NumberAfter(s, e, r);
    }
    forall q, r | NumberOf(t, q) == NumberOf(t, r) && NumberOf(t, q) > 0
      ensures q == r
    {
      NumberAfter(s, e, q);
      NumberAfter(s, e, r);
    }
  }

  lemma QuietTableStep(s: Sys, e: Event)
    requires TableIsExact(s) && StagesOk(s) && Enabled(s, e)
    requires e.Pair? || e.Arrive? || e.Remove? || e.CancelNext? || e.Return?
    ensures TableIsExact(Step(s, e))
  {
  }

  /** One request moves on, and its entry in the table does not. */
  lemma SameTable(s: Sys, r: ReqId, q: Request, t: Sys)
    requires TableIsExact(s) && r in s.reqs && t.reqs == s.reqs[r := q] && t.reg == s.reg
    requires q.Device() == s.reqs[r].Device() && q.n == s.reqs[r].n && (Registered(q) <==> Registered(s.reqs[r]))
    ensures TableIsExact(t)
  {
    hide Registered;
    forall d, n | d in t.reg.open && n in t.reg.open[d]
      ensures EntryOk(t, d, n, t.reg.open[d][n])
    {
      assert EntryOk(s, d, n, t.reg.open[d][n]);
    }
    forall o | o in t.reqs && Registered(t.reqs[o])
      ensures InTable(t.reg, t.reqs[o], o)
    {
      assert InTable(s.reg, s.reqs[o], o);
    }
  }

  lemma QuietActTableStep(s: Sys, r: ReqId, a: Action)
    requires TableIsExact(s) && StagesOk(s) && Enabled(s, Act(r, a)) && !a.Track? && !a.Release?
    ensures TableIsExact(ActStep(s, r, a))
  {
    AdvanceQuiet(s.reqs[r], a, s.reg.closed, s.reg.next, Good(s, s.reqs[r].credential));
    hide Advance;
    hide TableIsExact;
    hide Registered;
    var t := ActStep(s, r, a);
    SameTable(s, r, t.reqs[r], t);
  }

  lemma TrackTableSound(s: Sys, r: ReqId)
    requires TableSound(s) && StagesOk(s) && Enabled(s, Act(r, Track))
    ensures TableSound(ActStep(s, r, Track))
  {
    var t := ActStep(s, r, Track);
    assert StageOk(s.reqs[r]);
    forall d, n | d in t.reg.open && n in t.reg.open[d]
      ensures EntryOk(t, d, n, t.reg.open[d][n])
    {
      if s.reg.closed || d != s.reqs[r].Device() || n != t.reg.next {
        assert EntryOk(s, d, n, s.reg.open[d][n]);
      }
    }
  }

  lemma TrackTableComplete(s: Sys, r: ReqId)
    requires TableComplete(s) && NumbersDistinct(s) && StagesOk(s) && Enabled(s, Act(r, Track))
    ensures TableComplete(ActStep(s, r, Track))
  {
    var t := ActStep(s, r, Track);
    assert StageOk(s.reqs[r]);
    forall q | q in t.reqs && Registered(t.reqs[q])
      ensures InTable(t.reg, t.reqs[q], q)
    {
      if q != r {
        assert InTable(s.reg, s.reqs[q], q) && NumberOf(s, q) <= s.reg.next;
      }
    }
  }

  lemma ReleaseOnlyRemoves(reg: Reg<ReqId>, device: DeviceId, n: nat, d: DeviceId, m: nat)
    requires var t := ReleaseIn(reg, device, n); d in t.open && m in t.open[d]
    ensures d in reg.open && m in reg.open[d] && reg.open[d][m] == ReleaseIn(reg, device, n).open[d][m]
    ensures !(d == device && m == n)
  {
  }

  lemma ReleaseTableSound(s: Sys, r: ReqId)
    requires TableSound(s) && StagesOk(s) && Enabled(s, Act(r, Release))
    ensures TableSound(ActStep(s, r, Release))
  {
    var t := ActStep(s, r, Release);
    var q := s.reqs[r];
    assert StageOk(q) && q.Held();
    hide StageOk;
    hide Advance;
    forall d, n | d in t.reg.open && n in t.reg.open[d]
      ensures EntryOk(t, d, n, t.reg.open[d][n])
    {
      if q.n > 0 {
        ReleaseOnlyRemoves(s.reg, q.Device(), q.n, d, n);
      }
      var x := t.reg.open[d][n];
      assert EntryOk(s, d, n, x);
      hide ReleaseIn;
      assert x != r;
    }
  }

  lemma ReleaseTableComplete(s: Sys, r: ReqId)
    requires TableComplete(s) && NumbersDistinct(s) && StagesOk(s) && Enabled(s, Act(r, Release))
    ensures TableComplete(ActStep(s, r, Release))
  {
    var t := ActStep(s, r, Release);
    forall q | q in t.reqs && Registered(t.reqs[q])
      ensures InTable(t.reg, t.reqs[q], q)
    {
      assert q != r && InTable(s.reg, s.reqs[q], q);
      if s.reqs[r].n > 0 {
        assert NumberOf(s, q) != NumberOf(s, r);
        ReleaseKeepsOthers(s.reg, s.reqs[r].Device(), s.reqs[r].n, s.reqs[q].Device(), s.reqs[q].n);
      }
    }
  }

  lemma DetachOneTableStep(s: Sys, c: CloserId)
    requires TableIsExact(s) && Enabled(s, DetachOne(c))
    ensures TableIsExact(DetachOneStep(s, c))
  {
  }

  lemma DetachEverythingTableStep(s: Sys, c: CloserId)
    requires TableIsExact(s)
    ensures TableIsExact(DetachEverythingStep(s, c))
  {
  }

  lemma TableStep(s: Sys, e: Event)
    requires TableIsExact(s) && NumbersDistinct(s) && StagesOk(s) && Enabled(s, e)
    ensures TableIsExact(Step(s, e))
  {
    match e
    case Act(r, a) =>
      if a.Track? {
        TrackTableSound(s, r);
        TrackTableComplete(s, r);
      } else if a.Release? {
        ReleaseTableSound(s, r);
        ReleaseTableComplete(s, r);
      } else {
        QuietActTableStep(s, r, a);
      }
    case DetachOne(c) => DetachOneTableStep(s, c);
    case DetachEverything(c) => DetachEverythingTableStep(s, c);
    case _ => QuietTableStep(s, e);
  }

  lemma ListsStep(s: Sys, e: Event)
    requires ListsOk(s) && StagesOk(s) && TableSound(s) && Enabled(s, e)
    ensures ListsOk(Step(s, e))
  {
    var t := Step(s, e);
    forall c, r | OnList(t, c, r)
      ensures
        && t.closers[c].stage.Closing?
        && r in t.reqs && t.reqs[r].detached
        && (t.closers[c].goal.Revoke? ==> t.closers[c].goal.token.id == t.reqs[r].Device())
    {
      if OnList(s, c, r) {
      } else if e.DetachOne? {
        var id := s.closers[c].goal.token.id;
        var n :| n in SetOf(s.reg, id) && SetOf(s.reg, id)[n] == r;
        assert EntryOk(s, id, n, r);
      } else {
        var d, n :| d in s.reg.open && n in s.reg.open[d] && s.reg.open[d][n] == r;
        assert EntryOk(s, d, n, r);
      }
    }
  }

  lemma DetachedInHandsStep(s: Sys, e: Event)
    requires DetachedInHands(s) && ListsOk(s) && Enabled(s, e)
    ensures DetachedInHands(Step(s, e))
  {
    var t := Step(s, e);
    forall r | r in t.reqs && t.reqs[r].detached && !t.reqs[r].cancelled
      ensures InHands(t, r)
    {
      if r in s.reqs && s.reqs[r].detached && !s.reqs[r].cancelled {
        var c :| OnList(s, c, r);
        assert OnList(t, c, r);
      } else {
        assert OnList(t, e.c, r);
      }
    }
  }

  /** Every device in the list has a token that was handed out, under an id of 8 characters. */
  ghost predicate DevicesOk(s: Sys) {
    forall id :: id in s.devices ==> s.devices[id].token.id == id && s.devices[id].token in s.issued && |id| == 8
  }

  /** A request that got past the first lookup came with a token that was handed out. */
  ghost predicate CredentialsIssued(s: Sys) {
    forall r :: r in s.reqs && s.reqs[r].credential.DeviceToken? && PastFirstLookup(s.reqs[r]) ==>
      s.reqs[r].credential.token in s.issued
  }

  predicate PastFirstLookup(q: Request) {
    !q.stage.Arrived? && (!q.stage.Over? || q.told503)
  }

  lemma AdvancePastFirstLookup(q: Request, a: Action, closed: bool, next: nat, good: bool)
    requires CanAct(q, a) && StageOk(q) && PastFirstLookup(Advance(q, a, closed, next, good))
    ensures PastFirstLookup(q) || good
  {
  }

  ghost predicate IsRevoker(s: Sys, c: CloserId, t: Token) {
    c in s.closers && s.closers[c].goal == Revoke(t)
  }

  /** What was revoked stays revoked, and is revoked once. */
  ghost predicate RevokersOk(s: Sys) {
    && (forall c, t :: IsRevoker(s, c, t) ==> t in s.issued && !Paired(s, t) && |t.id| == 8)
    && (forall c, d, t :: IsRevoker(s, c, t) && IsRevoker(s, d, t) ==> c == d)
  }

  lemma DevicesStep(s: Sys, e: Event)
    requires DevicesOk(s) && Enabled(s, e)
    ensures DevicesOk(Step(s, e)) && s.issued <= Step(s, e).issued
  {
  }

  lemma CredentialsStep(s: Sys, e: Event)
    requires CredentialsIssued(s) && DevicesOk(s) && StagesOk(s) && Enabled(s, e)
    ensures CredentialsIssued(Step(s, e))
  {
    var u := Step(s, e);
    forall r | r in u.reqs && u.reqs[r].credential.DeviceToken? && PastFirstLookup(u.reqs[r])
      ensures u.reqs[r].credential.token in u.issued
    {
      if e.Act? && e.r == r {
        AdvancePastFirstLookup(s.reqs[r], e.action, s.reg.closed, s.reg.next, Good(s, s.reqs[r].credential));
        AdvanceFacts(s.reqs[r], e.action, s.reg.closed, s.reg.next, Good(s, s.reqs[r].credential));
      }
      hide Advance;
    }
  }

  /** A token that is not paired any more is never paired again: Add draws a new one. */
  lemma NeverPairedAgain(s: Sys, e: Event, t: Token)
    requires t in s.issued && !Paired(s, t) && Enabled(s, e)
    ensures t in Step(s, e).issued && !Paired(Step(s, e), t)
  {
  }

  lemma RevokersStep(s: Sys, e: Event)
    requires RevokersOk(s) && DevicesOk(s) && Enabled(s, e)
    ensures RevokersOk(Step(s, e))
  {
    var u := Step(s, e);
    forall c, t | IsRevoker(u, c, t)
      ensures t in u.issued && !Paired(u, t) && |t.id| == 8
      ensures IsRevoker(s, c, t) || (e.Remove? && e.c == c && Paired(s, t))
    {
      if IsRevoker(s, c, t) {
        NeverPairedAgain(s, e, t);
      }
    }
  }
}
