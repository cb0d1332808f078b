// What the manager keeps over every run of its methods.
module PairingRuns {
  import opened Common
  import opened Pairing
  import Runs

  datatype Event =
    | Start(p: Pairing)
    | Cancel(id: PairingId)
    | Expire(id: PairingId)
    | Redeem(now: Time, a: Attempt, luck: Luck)

  /**
   * One call of create: for which pairing, when, for whose attempt, what name
   * and role it was asked for, and the device it stored if it did.
   */
  datatype Creation = Creation(id: PairingId, at: Time, attempt: Attempt, name: string, role: Role, stored: Option<Device>)

  datatype State = State(
    book: Book, started: map<PairingId, Pairing>, wrong: map<PairingId, nat>, creations: seq<Creation>)

  const INITIAL := State(EMPTY_BOOK, map[], map[], [])

  function Wrong(s: State, id: PairingId): nat {
    if id in s.wrong then s.wrong[id] else 0
  }

  function RedeemStep(s: State, now: Time, a: Attempt, luck: Luck): State {
    var t := Timely(s.book, now);
    var u := RedeemIn(s.book, now, a, luck).0;
    if t.cur.None? then s.(book := u)
    else
      var id := t.cur.value.pairing.id;
      if !Correct(t.cur.value.pairing.code, a) then
        s.(book := u, wrong := s.wrong[id := Wrong(s, id) + 1])
      else if !Creates(s.book, now, a, luck) then s.(book := u)
      else
        var stored := if luck.created.Some? then Some(luck.created.value.0) else None;
        var (name, role) := Wanted(t, a);
        s.(book := u, creations := s.creations + [Creation(id, now, a, name, role, stored)])
  }

  /** Ids are drawn at random, 8 bytes each; they are taken to be distinct. */
  ghost predicate Next(s: State, e: Event, u: State) {
    match e
    case Start(p) => p.id !in s.started && u == s.(book := StartIn(s.book, p), started := s.started[p.id := p])
    case Cancel(id) => u == s.(book := EndIf(s.book, id, CANCELLED))
    case Expire(id) => u == s.(book := EndIf(s.book, id, EXPIRED))
    case Redeem(now, a, luck) => u == RedeemStep(s, now, a, luck)
  }

  ghost predicate Reachable(s: State) {
    Runs.Reachable(INITIAL, Next, s)
  }

  predicate IsPending(s: State, id: PairingId) {
    s.book.cur.Some? && s.book.cur.value.pairing.id == id
  }

  predicate Sent(s: State, id: PairingId, r: Result) {
    |SentTo(s.book, id)| == 1 && SentTo(s.book, id)[0] == r
  }

  /** One pairing: nothing on its channel while it is pending, and one result after that. */
  ghost predicate PairingOk(s: State, id: PairingId) {
    && (id in s.started <==> id in s.book.sent)
    && (IsPending(s, id) ==>
          && id in s.started && s.book.cur.value.pairing == s.started[id]
          && SentTo(s.book, id) == []
          && s.book.cur.value.tries == Wrong(s, id) < MAX_TRIES)
    && (id in s.started && !IsPending(s, id) ==> |SentTo(s.book, id)| == 1)
    && (id !in s.started ==> Wrong(s, id) == 0)
    && (Sent(s, id, VOIDED) <==> Wrong(s, id) == MAX_TRIES)
    && Wrong(s, id) <= MAX_TRIES
  }

  /** One call of create: in time, for a proof made from the pairing's own code, and its outcome is what the starter was sent. */
  ghost predicate CreationOk(s: State, c: Creation) {
    && c.id in s.started && !IsPending(s, c.id)
    && c.at < s.started[c.id].expiresAt && Correct(s.started[c.id].code, c.attempt)
    && c.role == s.started[c.id].role
    && c.name == (if s.started[c.id].name == "" then c.attempt.phoneName else s.started[c.id].name)
    && Sent(s, c.id, if c.stored.Some? then Result(Paired, c.stored) else FAILED)
  }

  ghost predicate IsCreated(s: State, id: PairingId, stored: Option<Device>) {
    exists i :: 0 <= i < |s.creations| && s.creations[i].id == id && s.creations[i].stored == stored
  }

  ghost predicate Inv(s: State) {
    && (forall id :: PairingOk(s, id))
    && (forall i :: 0 <= i < |s.creations| ==> CreationOk(s, s.creations[i]))
    && (forall i, j :: 0 <= i < j < |s.creations| ==> s.creations[i].id != s.creations[j].id)
    && (forall id :: PairedMeansCreated(s, id))
  }

  ghost predicate PairedMeansCreated(s: State, id: PairingId) {
    SentTo(s.book, id) != [] && SentTo(s.book, id)[0].outcome == Paired ==>
      SentTo(s.book, id)[0].device.Some? && IsCreated(s, id, SentTo(s.book, id)[0].device)
  }

  /** All that a call of Redeem can do to the book: end the pending pairing, or count a wrong proof. */
  ghost predicate RedeemEffect(s: State, u: State, r: Option<Result>) {
    match r
    case None =>
      (u.wrong == s.wrong && u.book == s.book)
      || (s.book.cur.Some?
          && var slot := s.book.cur.value;
             slot.tries + 1 < MAX_TRIES && u.wrong == s.wrong[slot.pairing.id := Wrong(s, slot.pairing.id) + 1]
             && u.book == s.book.(cur := Some(slot.(tries := slot.tries + 1))))
    case Some(result) =>
      && s.book.cur.Some? && u.book == Ended(s.book, result)
      && var slot := s.book.cur.value;
         if result == VOIDED then slot.tries + 1 >= MAX_TRIES && u.wrong == s.wrong[slot.pairing.id := Wrong(s, slot.pairing.id) + 1]
         else u.wrong == s.wrong
  }

  /** What Redeem sends, if it sends anything. */
  function Ending(s: State, now: Time, a: Attempt, luck: Luck): Option<Result> {
    if s.book.cur.None? then None
    else
      var slot := s.book.cur.value;
      if now >= slot.pairing.expiresAt then Some(EXPIRED)
      else if !Correct(slot.pairing.code, a) then if slot.tries + 1 >= MAX_TRIES then Some(VOIDED) else None
      else if luck.agentNonce.None? || luck.created.None? then Some(FAILED)
      else Some(Result(Paired, Some(luck.created.value.0)))
  }

  lemma RedeemHasEffect(s: State, now: Time, a: Attempt, luck: Luck)
    ensures RedeemEffect(s, RedeemStep(s, now, a, luck), Ending(s, now, a, luck))
    ensures RedeemStep(s, now, a, luck).started == s.started
  {
    hide Correct;
    hide Wrong;
  }

  /** create is called in time and for a correct proof, and is followed by the end of its pairing. */
  lemma RedeemCreates(s: State, now: Time, a: Attempt, luck: Luck)
    ensures var u := RedeemStep(s, now, a, luck);
            if s.book.cur.Some? && now < s.book.cur.value.pairing.expiresAt && Correct(s.book.cur.value.pairing.code, a) && luck.agentNonce.Some?
            then var p := s.book.cur.value.pairing;
                 u.creations == s.creations + [Creation(p.id, now, a, if p.name == "" then a.phoneName else p.name, p.role,
                                                        if luck.created.Some? then Some(luck.created.value.0) else None)]
            else u.creations == s.creations
  {
    hide Correct;
    hide Wrong;
    hide Mistaken;
  }

  lemma EffectPairing(s: State, u: State, r: Option<Result>, id: PairingId)
    requires PairingOk(s, id) && RedeemEffect(s, u, r) && u.started == s.started
    requires s.book.cur.Some? ==> PairingOk(s, s.book.cur.value.pairing.id)
    ensures PairingOk(u, id)
  {
  }

  lemma RedeemPairingStep(s: State, now: Time, a: Attempt, luck: Luck, id: PairingId)
    requires Inv(s)
    ensures PairingOk(RedeemStep(s, now, a, luck), id)
  {
    assert PairingOk(s, id);
    RedeemHasEffect(s, now, a, luck);
    EffectPairing(s, RedeemStep(s, now, a, luck), Ending(s, now, a, luck), id);
    hide PairingOk;
    hide RedeemStep;
  }

  lemma PairingStep(s: State, e: Event, u: State, id: PairingId)
    requires Inv(s) && Next(s, e, u)
    ensures PairingOk(u, id)
  {
    assert PairingOk(s, id);
    match e
    case Redeem(now, a, luck) =>
      RedeemPairingStep(s, now, a, luck, id);
      hide RedeemStep;
    case _ =>
  }

  /** What was sent to a pairing that is over stays. */
  lemma SentStays(s: State, e: Event, u: State, id: PairingId)
    requires Next(s, e, u) && id in s.started && !IsPending(s, id)
    ensures id in u.started && u.started[id] == s.started[id] && !IsPending(u, id) && SentTo(u.book, id) == SentTo(s.book, id)
  {
    if e.Redeem? {
      RedeemHasEffect(s, e.now, e.a, e.luck);
      hide RedeemStep;
    }
  }

  lemma CreationKept(s: State, e: Event, u: State, c: Creation)
    requires Inv(s) && Next(s, e, u) && CreationOk(s, c)
    ensures CreationOk(u, c)
  {
    SentStays(s, e, u, c.id);
    hide Next;
    hide Inv;
    hide Correct;
  }

  lemma CreationAdded(s: State, e: Event, u: State)
    requires Inv(s) && Next(s, e, u) && u.creations != s.creations
    ensures |u.creations| == |s.creations| + 1 && u.creations[..|s.creations|] == s.creations
    ensures var c := u.creations[|s.creations|]; CreationOk(u, c) && IsPending(s, c.id)
  {
    var id := s.book.cur.value.pairing.id;
    assert PairingOk(s, id);
    RedeemHasEffect(s, e.now, e.a, e.luck);
    RedeemCreates(s, e.now, e.a, e.luck);
    hide RedeemStep;
    hide Inv;
    hide Correct;
  }

  lemma CreationsStep(s: State, e: Event, u: State)
    requires Inv(s) && Next(s, e, u)
    ensures forall i :: 0 <= i < |u.creations| ==> CreationOk(u, u.creations[i])
    ensures forall i, j :: 0 <= i < j < |u.creations| ==> u.creations[i].id != u.creations[j].id
    ensures |s.creations| <= |u.creations| && u.creations[..|s.creations|] == s.creations
  {
    forall i | 0 <= i < |s.creations| ensures CreationOk(u, s.creations[i]) {
      CreationKept(s, e, u, s.creations[i]);
    }
    if u.creations != s.creations {
      CreationAdded(s, e, u);
      var c := u.creations[|s.creations|];
      forall i | 0 <= i < |s.creations| ensures u.creations[i] == s.creations[i] && u.creations[i].id != c.id {
        assert CreationOk(s, s.creations[i]);
      }
    } else {
      assert s.creations[..|s.creations|] == s.creations;
    }
  }

  /** A step that sends a device to a starter is the step that created it. */
  lemma PairedNow(s: State, e: Event, u: State, id: PairingId)
    requires Inv(s) && Next(s, e, u)
    requires SentTo(u.book, id) != [] && SentTo(u.book, id)[0].outcome == Paired
    ensures SentTo(s.book, id) == SentTo(u.book, id)
            || (u.creations != s.creations && |u.creations| > 0
                && u.creations[|u.creations| - 1].id == id
                && SentTo(u.book, id)[0].device.Some?
                && u.creations[|u.creations| - 1].stored == SentTo(u.book, id)[0].device)
  {
    assert PairingOk(s, id);
    if e.Redeem? {
      RedeemHasEffect(s, e.now, e.a, e.luck);
      RedeemCreates(s, e.now, e.a, e.luck);
      hide RedeemStep;
      hide Inv;
    } else {
      hide Inv;
    }
  }

  lemma PairedStep(s: State, e: Event, u: State, id: PairingId)
    requires Inv(s) && Next(s, e, u)
    ensures PairedMeansCreated(u, id)
  {
    if SentTo(u.book, id) != [] && SentTo(u.book, id)[0].outcome == Paired {
      PairedNow(s, e, u, id);
      CreationsStep(s, e, u);
      if SentTo(s.book, id) == SentTo(u.book, id) {
        assert PairedMeansCreated(s, id);
        var i :| 0 <= i < |s.creations| && s.creations[i].id == id && s.creations[i].stored == SentTo(u.book, id)[0].device;
        assert u.creations[..|s.creations|][i] == u.creations[i];
      }
    }
  }

  lemma InvStep(s: State, e: Event, u: State)
    requires Inv(s) && Next(s, e, u)
    ensures Inv(u)
  {
    forall id ensures PairingOk(u, id) && PairedMeansCreated(u, id) {
      PairingStep(s, e, u, id);
      PairedStep(s, e, u, id);
    }
    CreationsStep(s, e, u);
  }

  lemma ReachableInv(s: State)
    requires Reachable(s)
    ensures Inv(s)
  {
    forall s, e, u | Inv(s) && Next(s, e, u)
      ensures Inv(u)
    {
      InvStep(s, e, u);
    }
    Runs.InvariantHolds(INITIAL, Next, Inv, s);
  }

  /** The channel delivers one result, when the pairing ends and not before; the tries run out at MAX_TRIES. */
  lemma OneResultEach(s: State, id: PairingId)
    requires Reachable(s) && id in s.started
    ensures |SentTo(s.book, id)| == if IsPending(s, id) then 0 else 1
    ensures IsPending(s, id) ==> Wrong(s, id) < MAX_TRIES
    ensures Wrong(s, id) == MAX_TRIES <==> SentTo(s.book, id) == [VOIDED]
  {
    ReachableInv(s);
    assert PairingOk(s, id);
    if SentTo(s.book, id) == [VOIDED] {
      assert SentTo(s.book, id)[0] == VOIDED;
    }
  }

  /**
   * create runs at most once for a pairing, only before it expires and for a
   * phone that knew the code, with the role the pairing was started with and
   * its name, or the phone's where it has none; its outcome is the pairing's.
   */
  lemma CreatedOnceInTime(s: State, i: nat, j: nat)
    requires Reachable(s) && i < |s.creations| && j < |s.creations|
    ensures s.creations[i].id == s.creations[j].id ==> i == j
    ensures s.creations[i].id in s.started && s.creations[i].at < s.started[s.creations[i].id].expiresAt
    ensures s.creations[i].attempt.proof ==
              PhoneProof(s.started[s.creations[i].id].code, s.creations[i].attempt.fingerprint, s.creations[i].attempt.phoneNonce)
    ensures s.creations[i].role == s.started[s.creations[i].id].role
    ensures s.creations[i].name ==
              if s.started[s.creations[i].id].name != "" then s.started[s.creations[i].id].name else s.creations[i].attempt.phoneName
    ensures SentTo(s.book, s.creations[i].id) ==
              [if s.creations[i].stored.Some? then Result(Paired, s.creations[i].stored) else FAILED]
  {
    ReachableInv(s);
    assert CreationOk(s, s.creations[i]);
  }

  lemma StoredIsSent(s: State, id: PairingId, device: Device)
    requires Inv(s) && IsCreated(s, id, Some(device))
    ensures SentTo(s.book, id) == [Result(Paired, Some(device))]
  {
    var i :| 0 <= i < |s.creations| && s.creations[i].id == id && s.creations[i].stored == Some(device);
    assert CreationOk(s, s.creations[i]);
  }

  /** A starter is told of a device exactly when create stored that device for its pairing. */
  lemma PairedIffStored(s: State, id: PairingId, device: Device)
    requires Reachable(s) && id in s.started
    ensures SentTo(s.book, id) == [Result(Paired, Some(device))] <==> IsCreated(s, id, Some(device))
  {
    ReachableInv(s);
    if SentTo(s.book, id) == [Result(Paired, Some(device))] {
      assert SentTo(s.book, id)[0] == Result(Paired, Some(device));
      assert PairedMeansCreated(s, id);
    }
    if IsCreated(s, id, Some(device)) {
      StoredIsSent(s, id, device);
    }
  }
}
