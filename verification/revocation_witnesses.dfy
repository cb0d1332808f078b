// Two short runs that show why the theorems about revocation carry the
// conditions they do.
module RevocationWitnesses {
  import opened Common
  import opened Conns
  import opened Revocation
  import opened RevocationTheorems
  import opened RevocationExact
  import opened RevocationInvariants
  import Runs

  const ID: DeviceId := "00c0ffee"

  lemma Go(s: Sys, e: Event) returns (u: Sys)
    requires Reachable(s) && Enabled(s, e)
    ensures u == Step(s, e) && Reachable(u)
  {
    u := Step(s, e);
    Runs.StepReachable(INITIAL, Next, s, e, u);
  }

  lemma Start() returns (s: Sys)
    ensures s == INITIAL && Reachable(s)
  {
    Runs.InitReachable(INITIAL, Next);
    s := INITIAL;
  }

  /** Request 1 of the device of t, let in and not yet in the table. */
  lemma OneLetIn(t: Token) returns (s: Sys)
    requires t.id == ID
    ensures Reachable(s)
    ensures s == Sys(map[ID := Sha256Hex(t)], {t}, EmptyReg(),
                     map[1 := Request(DeviceToken(t), Accepted, 0, false, false, false, false)], map[])
  {
    s := Start();
    s := Go(s, Pair(t));
    s := Go(s, Arrive(1, DeviceToken(t)));
    s := Go(s, Act(1, FirstLookup));
  }

  /** Request 1 of the device of t, running. */
  lemma OneRunning(t: Token) returns (s: Sys)
    requires t.id == ID
    ensures Reachable(s)
    ensures s == Sys(map[ID := Sha256Hex(t)], {t}, Reg(1, map[ID := map[1 := 1]], false),
                     map[1 := Request(DeviceToken(t), Running, 1, false, false, false, false)], map[])
  {
    s := OneLetIn(t);
    s := Go(s, Act(1, Track));
    s := Go(s, Act(1, LookAtContext));
    s := Go(s, Act(1, LookAtParent));
    s := Go(s, Act(1, SecondLookup));
  }

  /** CloseAll takes the request and has not cancelled it when handleRevoke comes by, finds nothing and returns. */
  lemma ShutDownRace() returns (s: Sys, u: Sys, t: Token)
    ensures AboutToClose(s, 7, t) && TakenElsewhere(s, t)
    ensures Reachable(u) && IsRevoker(u, 7, t) && u.closers[7].stage.Returned? && !NoneAlive(u, t)
  {
    t := Token(ID, 0);
    s := OneRunning(t);
    var before := s;
    s := Go(s, Remove(7, ID));
    s := Go(s, DetachEverything(8));
    assert before.reg.open[ID][1] == 1;
    assert 1 in Everyone(before.reg);
    assert !Registered(s.reqs[1]);
    assert IsRevoker(s, 7, t);
    u := Go(s, DetachOne(7));
    assert SetOf(s.reg, ID) == map[];
    assert u.closers[7].todo == {};
    u := Go(u, Return(7));
    assert Alive(u.reqs[1]);
    assert IsRevoker(u, 7, t);
  }

  /** Device 1 of ID is removed, ID is handed out again, and a request of the new device is tracked. */
  lemma ReusedAndTracked(a: Token, b: Token) returns (s: Sys)
    requires a.id == b.id == ID && a != b
    ensures Reachable(s)
    ensures s == Sys(map[ID := Sha256Hex(b)], {a, b}, Reg(1, map[ID := map[1 := 1]], false),
                     map[1 := Request(DeviceToken(b), Tracked, 1, false, false, false, false)],
                     map[7 := Closer(Revoke(a), Removed, {})])
  {
    s := Start();
    s := Go(s, Pair(a));
    s := Go(s, Remove(7, ID));
    s := Go(s, Pair(b));
    s := Go(s, Arrive(1, DeviceToken(b)));
    s := Go(s, Act(1, FirstLookup));
    s := Go(s, Act(1, Track));
  }

  /** The close of the old device then ends the request of the new one. */
  lemma ReusedAndCancelled(a: Token, b: Token) returns (s: Sys)
    requires a.id == b.id == ID && a != b
    ensures Reachable(s)
    ensures s == Sys(map[ID := Sha256Hex(b)], {a, b}, Reg(1, map[], false),
                     map[1 := Request(DeviceToken(b), Tracked, 1, false, true, true, false)],
                     map[7 := Closer(Revoke(a), Closing, {})])
  {
    s := ReusedAndTracked(a, b);
    assert SetOf(s.reg, ID)[1] == 1;
    s := Go(s, DetachOne(7));
    assert s.closers[7].todo == {1};
    s := Go(s, CancelNext(7, 1));
    assert s.closers[7].todo == {} && s.reg.open == map[];
    assert s.closers == map[7 := Closer(Revoke(a), Closing, {})];
    assert s.reqs == map[1 := Request(DeviceToken(b), Tracked, 1, false, true, true, false)];
  }

  /** An id is handed out again between a removal and its CloseDevice: the new device is told that the agent stops. */
  lemma ReusedId() returns (s: Sys)
    ensures Reachable(s) && 1 in s.reqs && s.reqs[1].told503 && !ShutDownBegun(s)
  {
    s := ReusedAndCancelled(Token(ID, 0), Token(ID, 1));
    s := Go(s, Act(1, LookAtContext));
    s := Go(s, Act(1, LookAtParent));
    s := Go(s, Act(1, SecondLookup));
  }
}
