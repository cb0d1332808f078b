// The endpoint a phone pairs through (agent/internal/server/pair.go).
module PairHandler {
  import opened Common
  import opened Throttle
  import opened Gates
  import Pairing
  import PairingRuns

  const PROOF_LEN := 32

  /** The body as it arrived: not to be read or decoded, or with its parts, each None when it is not base64. */
  datatype Body =
    | Unreadable
    | Request(v: int, nonce: Option<Pairing.Bytes>, proof: Option<Pairing.Mac>, name: string)

  function ProofLen(proof: Pairing.Mac): nat {
    if proof.Junk? then |proof.bytes| else PROOF_LEN
  }

  /** When the limiter is asked, when Redeem looks at the clock, and when a failure is counted. */
  datatype Times = Times(asked: Time, redeemed: Time, failed: Time)

  datatype Reply =
    | TooManyRequests(retryAfter: nat)
    | BadRequest
    | NotFound
    | Forbidden
    | ServerError
    | Ok(device: Device, token: Token, nonce: Pairing.Bytes, proof: Pairing.Mac)

  function ReplyTo(answer: Pairing.Answer): Reply {
    match answer
    case NonePending => NotFound
    case WrongProof => Forbidden
    case RandomFailed => ServerError
    case StoreFailed => ServerError
    case Redeemed(device, token, nonce, proof) => Ok(device, token, nonce, proof)
  }

  /** What Redeem answers, and what it asks of create, by the pending pairing and the proof. */
  lemma RedeemGives(b: Pairing.Book, now: Time, a: Pairing.Attempt, luck: Pairing.Luck)
    requires |a.phoneNonce| == 32
    ensures var answer := Pairing.RedeemIn(b, now, a, luck).1;
            if b.cur.None? || now >= b.cur.value.pairing.expiresAt then answer.NonePending? && !Pairing.Creates(b, now, a, luck)
            else
              var p := b.cur.value.pairing;
              if a.proof != Pairing.PhoneProof(p.code, a.fingerprint, a.phoneNonce) then
                answer.WrongProof? && !Pairing.Creates(b, now, a, luck)
              else if luck.agentNonce.None? then answer.RandomFailed? && !Pairing.Creates(b, now, a, luck)
              else
                && Pairing.Creates(b, now, a, luck)
                && Pairing.Wanted(b, a) == (if p.name == "" then a.phoneName else p.name, p.role)
                && if luck.created.None? then answer.StoreFailed?
                   else answer == Pairing.Redeemed(luck.created.value.0, luck.created.value.1, luck.agentNonce.value,
                                    Pairing.AgentProof(p.code, a.fingerprint, a.phoneNonce, luck.agentNonce.value))
  {
    hide Pairing.Mistaken;
  }

  method HandlePair(gate: Gate, manager: Pairing.Manager, creator: Pairing.Creator, fingerprint: Pairing.Bytes,
      key: Key, times: Times, body: Body, random: Option<Pairing.Bytes>) returns (reply: Reply, ghost dropped: set<Key>)
    requires gate.Valid() && manager.Valid() && gate.s.clock <= times.asked <= times.failed
    modifies gate, gate.limiter, gate.limiter.records
    modifies manager, manager.cur, if manager.cur == null then {} else {manager.cur.done}, creator
    ensures gate.Valid() && gate.Bounded() && manager.Valid()
    // An address that is blocked gets no further, whatever it sent.
    ensures reply.TooManyRequests? <==> key in old(gate.s.table) && old(gate.s.table)[key].blockedUntil > times.asked
    ensures reply.TooManyRequests? ==> reply.retryAfter == Seconds(old(gate.s.table)[key].blockedUntil - times.asked)
    // Neither does a malformed request: not version 1, or without a nonce or a proof of 32 bytes.
    ensures reply.BadRequest? <==>
              && !(key in old(gate.s.table) && old(gate.s.table)[key].blockedUntil > times.asked)
              && !(body.Request? && body.v == 1 && body.nonce.Some? && |body.nonce.value| == 32
                   && body.proof.Some? && (body.proof.value.Junk? ==> |body.proof.value.bytes| == 32))
    ensures reply.TooManyRequests? || reply.BadRequest? ==>
              gate.s.table == old(gate.s.table) && manager.book == old(manager.book) && creator.asked == old(creator.asked)
    // Any other request uses the pending pairing.
    ensures !reply.TooManyRequests? && !reply.BadRequest? ==>
              && body.Request? && body.nonce.Some? && body.proof.Some?
              && var a := Pairing.Attempt(fingerprint, body.nonce.value, body.proof.value, body.name);
              && manager.book == Pairing.RedeemIn(old(manager.book), times.redeemed, a, Pairing.Luck(random, creator.created)).0
              && (if old(manager.book).cur.None? || times.redeemed >= old(manager.book).cur.value.pairing.expiresAt then
                    reply == NotFound && creator.asked == old(creator.asked)
                  else
                    var p := old(manager.book).cur.value.pairing;
                    if body.proof.value != Pairing.PhoneProof(p.code, fingerprint, body.nonce.value) then
                      reply == Forbidden && creator.asked == old(creator.asked)
                    else if random.None? then reply == ServerError && creator.asked == old(creator.asked)
                    else
                      && creator.asked == old(creator.asked) + [(if p.name == "" then body.name else p.name, p.role)]
                      && reply == if creator.created.None? then ServerError
                                  else Ok(creator.created.value.0, creator.created.value.1, random.value,
                                          Pairing.AgentProof(p.code, fingerprint, body.nonce.value, random.value)))
    // Who did not know the code has failed once, and nobody else has.
    ensures if reply.NotFound? || reply.Forbidden?
            then && MayDrop(old(gate.s.table), key, times.failed, dropped)
                 && gate.s.table == FailIn(old(gate.s.table), key, times.failed, dropped)
                 && key in gate.s.table && gate.s.table[key].failures != []
                 && gate.s.table[key].failures[|gate.s.table[key].failures| - 1] == times.failed
            else gate.s.table == old(gate.s.table)
  {
    hide Pairing.RedeemIn;
    hide Pairing.Creates;
    hide Pairing.Wanted;
    hide FailIn;
    hide MayDrop;
    dropped := {};
    var left, blocked := gate.Blocked(key, times.asked);
    gate.ValidIsBounded();
    if blocked {
      return TooManyRequests(Seconds(left)), dropped;
    }
    if !body.Request? || body.v != 1 {
      return BadRequest, dropped;
    }
    if body.nonce.None? || body.proof.None? || |body.nonce.value| != Pairing.NONCE_LEN || ProofLen(body.proof.value) != PROOF_LEN {
      return BadRequest, dropped;
    }
    var a := Pairing.Attempt(fingerprint, body.nonce.value, body.proof.value, body.name);
    RedeemGives(manager.book, times.redeemed, a, Pairing.Luck(random, creator.created));
    reply, dropped := Answer(gate, manager, creator, key, times, a, random);
    gate.ValidIsBounded();
  }

  /** HandlePair, from Redeem on. */
  method Answer(gate: Gate, manager: Pairing.Manager, creator: Pairing.Creator, key: Key, times: Times,
      a: Pairing.Attempt, random: Option<Pairing.Bytes>) returns (reply: Reply, ghost dropped: set<Key>)
    requires gate.Valid() && manager.Valid() && gate.s.clock <= times.failed && key in gate.s.cleared
    modifies gate, gate.limiter, gate.limiter.records
    modifies manager, manager.cur, if manager.cur == null then {} else {manager.cur.done}, creator
    ensures gate.Valid() && manager.Valid()
    ensures var luck := Pairing.Luck(random, creator.created);
            var (book, answer) := Pairing.RedeemIn(old(manager.book), times.redeemed, a, luck);
            && manager.book == book && reply == ReplyTo(answer)
            && creator.asked == old(creator.asked)
                 + (if Pairing.Creates(old(manager.book), times.redeemed, a, luck) then [Pairing.Wanted(old(manager.book), a)] else [])
    ensures if reply.NotFound? || reply.Forbidden?
            then && MayDrop(old(gate.s.table), key, times.failed, dropped)
                 && gate.s.table == FailIn(old(gate.s.table), key, times.failed, dropped)
                 && key in gate.s.table && gate.s.table[key].failures != []
                 && gate.s.table[key].failures[|gate.s.table[key].failures| - 1] == times.failed
            else gate.s.table == old(gate.s.table)
  {
    hide Pairing.RedeemIn;
    hide Pairing.Creates;
    hide Pairing.Wanted;
    hide FailIn;
    hide MayDrop;
    dropped := {};
    var got := manager.Redeem(times.redeemed, a, random, creator);
    reply := ReplyTo(got);
    if got.NonePending? || got.WrongProof? {
      dropped := gate.Fail(key, times.failed);
    }
  }

  // What a stranger can find out.

  /** The pairing of this id is still good at that time, and the attempt was made with its code. */
  ghost predicate Opens(s: PairingRuns.State, id: Pairing.PairingId, now: Time, a: Pairing.Attempt) {
    && id in s.started && now < s.started[id].expiresAt && |a.phoneNonce| == Pairing.NONCE_LEN
    && a.proof == Pairing.PhoneProof(s.started[id].code, a.fingerprint, a.phoneNonce)
  }

  /**
   * At any moment of any run: a phone gets a device exactly when its proof was
   * made from the code of the pairing that was started last and that has sent
   * nothing yet, in time, and the device was made and stored. The starter of
   * that very pairing is then sent that very device, and is sent it only then.
   */
  lemma OnlyTheCodePairs(s: PairingRuns.State, now: Time, a: Pairing.Attempt, luck: Pairing.Luck)
    requires PairingRuns.Reachable(s)
    ensures var (book, answer) := Pairing.RedeemIn(s.book, now, a, luck);
            && (ReplyTo(answer).Ok? <==>
                  luck.agentNonce.Some? && luck.created.Some?
                  && exists id :: Opens(s, id, now, a) && Pairing.SentTo(s.book, id) == [])
            && (ReplyTo(answer).Ok? ==>
                  forall id :: Opens(s, id, now, a) && Pairing.SentTo(s.book, id) == [] ==>
                    Pairing.SentTo(book, id) == [Pairing.Result(Pairing.Paired, Some(ReplyTo(answer).device))])
  {
    PairingRuns.ReachableInv(s);
    forall id | id in s.started && Pairing.SentTo(s.book, id) == []
      ensures s.book.cur.Some? && s.book.cur.value.pairing.id == id && s.book.cur.value.pairing == s.started[id] {
      assert PairingRuns.PairingOk(s, id);
    }
    if s.book.cur.Some? {
      var p := s.book.cur.value.pairing;
      assert PairingRuns.PairingOk(s, p.id);
      assert Pairing.Correct(p.code, a) && now < p.expiresAt ==> Opens(s, p.id, now, a);
    }
    hide PairingRuns.PairingOk;
  }
}
