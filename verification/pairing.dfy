// The manager of pending pairings (agent/internal/pairing/manager.go).
//
// `Book` is the manager together with everything it ever put on the channels of
// its pairings, as a value; one function for each method. `Manager` is the
// object, its pending pairing and the one-slot channel it sends on.
module Pairing {
  import opened Common

  const LIFETIME: Time := 5 * MINUTE
  const MAX_TRIES := 5
  const NONCE_LEN := 32

  type PairingId = string
  type Bytes = seq<bv8>

  datatype Outcome = Paired | Expired | Replaced | Voided | Cancelled | Failed

  datatype Result = Result(outcome: Outcome, device: Option<Device>)

  const EXPIRED := Result(Expired, None)
  const REPLACED := Result(Replaced, None)
  const VOIDED := Result(Voided, None)
  const CANCELLED := Result(Cancelled, None)
  const FAILED := Result(Failed, None)

  datatype Pairing = Pairing(id: PairingId, code: string, role: Role, name: string, expiresAt: Time)

  /** The proofs are symbolic: a proof can only be made from the code it was made from. */
  datatype Mac =
    | PhoneProof(code: string, fingerprint: Bytes, phoneNonce: Bytes)
    | AgentProof(code: string, fingerprint: Bytes, phoneNonce: Bytes, agentNonce: Bytes)
    | Junk(bytes: Bytes)

  datatype Attempt = Attempt(fingerprint: Bytes, phoneNonce: Bytes, proof: Mac, phoneName: string)

  /** What the random source and CreateDevice come up with, if Redeem gets to ask them. */
  datatype Luck = Luck(agentNonce: Option<Bytes>, created: Option<(Device, Token)>)

  datatype Answer =
    | NonePending
    | WrongProof
    | RandomFailed
    | StoreFailed
    | Redeemed(device: Device, token: Token, agentNonce: Bytes, agentProof: Mac)

  datatype Slot = Slot(pairing: Pairing, tries: nat)

  /** sent holds, for each pairing ever started, what was sent on its channel. */
  datatype Book = Book(cur: Option<Slot>, sent: map<PairingId, seq<Result>>)

  const EMPTY_BOOK := Book(None, map[])

  function SentTo(b: Book, id: PairingId): seq<Result> {
    if id in b.sent then b.sent[id] else []
  }

  function Ended(b: Book, r: Result): Book {
    match b.cur
    case None => b
    case Some(slot) => Book(None, b.sent[slot.pairing.id := SentTo(b, slot.pairing.id) + [r]])
  }

  function StartIn(b: Book, p: Pairing): Book {
    var e := Ended(b, REPLACED);
    Book(Some(Slot(p, 0)), e.sent[p.id := []])
  }

  function EndIf(b: Book, id: PairingId, r: Result): Book {
    if b.cur.Some? && b.cur.value.pairing.id == id then Ended(b, r) else b
  }

  predicate Correct(code: string, a: Attempt) {
    |a.phoneNonce| == NONCE_LEN && a.proof == PhoneProof(code, a.fingerprint, a.phoneNonce)
  }

  /** The first thing Redeem does. */
  function Timely(b: Book, now: Time): Book {
    if b.cur.Some? && now >= b.cur.value.pairing.expiresAt then Ended(b, EXPIRED) else b
  }

  /** Whether Redeem calls create. */
  predicate Creates(b: Book, now: Time, a: Attempt, luck: Luck) {
    var t := Timely(b, now);
    t.cur.Some? && Correct(t.cur.value.pairing.code, a) && luck.agentNonce.Some?
  }

  /** The name and the role create is called with: the name given at the start wins over the phone's. */
  function Wanted(b: Book, a: Attempt): (string, Role)
    requires b.cur.Some?
  {
    var p := b.cur.value.pairing;
    (if p.name != "" then p.name else a.phoneName, p.role)
  }

  function Mistaken(b: Book, slot: Slot): Book {
    var s := slot.(tries := slot.tries + 1);
    var u := b.(cur := Some(s));
    if s.tries >= MAX_TRIES then Ended(u, VOIDED) else u
  }

  function RedeemIn(b: Book, now: Time, a: Attempt, luck: Luck): (Book, Answer) {
    var t := Timely(b, now);
    match t.cur
    case None => (t, NonePending)
    case Some(slot) =>
      if !Correct(slot.pairing.code, a) then (Mistaken(t, slot), WrongProof)
      else if luck.agentNonce.None? then (Ended(t, FAILED), RandomFailed)
      else if luck.created.None? then (Ended(t, FAILED), StoreFailed)
      else
        var (device, token) := luck.created.value;
        (Ended(t, Result(Paired, Some(device))),
         Redeemed(device, token, luck.agentNonce.value,
                  AgentProof(slot.pairing.code, a.fingerprint, a.phoneNonce, luck.agentNonce.value)))
  }

  /** A channel made with one slot: a second send on it before a receive would block for good. */
  class Channel {
    var buffer: seq<Result>
    /** Everything that was ever sent. */
    ghost var sent: seq<Result>

    constructor ()
      ensures buffer == [] && sent == []
    {
      buffer, sent := [], [];
    }

    method Send(r: Result)
      requires |buffer| < 1
      modifies this
      ensures buffer == old(buffer) + [r] && sent == old(sent) + [r]
    {
      buffer, sent := buffer + [r], sent + [r];
    }

    method Receive() returns (r: Result)
      requires buffer != []
      modifies this
      ensures r == old(buffer)[0] && buffer == old(buffer)[1..] && sent == old(sent)
    {
      r, buffer := buffer[0], buffer[1..];
    }
  }

  class Pending {
    const pairing: Pairing
    var tries: nat
    const done: Channel

    constructor (pairing: Pairing, done: Channel)
      ensures this.pairing == pairing && this.done == done && tries == 0
    {
      this.pairing, this.done, tries := pairing, done, 0;
    }
  }

  /** The function that stores a new device: its answer is fixed beforehand, asked is what it was called with. */
  class Creator {
    const created: Option<(Device, Token)>
    var asked: seq<(string, Role)>

    constructor (created: Option<(Device, Token)>)
      ensures this.created == created && asked == []
    {
      this.created, asked := created, [];
    }

    method Create(name: string, role: Role) returns (r: Option<(Device, Token)>)
      modifies this
      ensures r == created && asked == old(asked) + [(name, role)]
    {
      asked := asked + [(name, role)];
      r := created;
    }
  }

  class Manager {
    var cur: Pending?

    /** The manager as a value, with what went over the channels of earlier pairings. */
    ghost var book: Book

    ghost predicate Valid()
      reads this, cur, if cur == null then {} else {cur.done}
    {
      match book.cur
      case None => cur == null
      case Some(slot) =>
        && cur != null
        && slot == Slot(cur.pairing, cur.tries)
        && cur.done.buffer == [] && cur.done.sent == []
        && SentTo(book, cur.pairing.id) == []
    }

    constructor ()
      ensures Valid() && book == EMPTY_BOOK
    {
      cur, book := null, EMPTY_BOOK;
    }

    /** endLocked. That its send cannot block is part of what Valid says. */
    method End(r: Result)
      requires Valid()
      modifies this, if cur == null then {} else {cur.done}
      ensures Valid() && book == Ended(old(book), r)
      ensures old(cur) != null ==> old(cur).done.buffer == [r] && old(cur).done.sent == [r]
    {
      if cur == null {
        return;
      }
      cur.done.Send(r);
      cur := null;
      book := Ended(book, r);
    }

    /**
     * code and id are what the random source gave for them, or None when it
     * failed; name is cleaned already.
     */
    method Start(role: Role, name: string, code: Option<string>, id: Option<PairingId>, now: Time)
      returns (p: Option<Pairing>, done: Channel?)
      requires Valid()
      modifies this, if cur == null then {} else {cur.done}
      ensures Valid()
      ensures p.None? <==> !(role == Full || role == ReadOnly) || code.None? || id.None?
      ensures p.None? ==> book == old(book) && cur == old(cur) && done == null
      ensures p.Some? ==> p.value == Pairing(id.value, code.value, role, name, now + 5 * MINUTE)
      ensures p.Some? ==> book == StartIn(old(book), p.value) && done != null && fresh(done) && cur != null && cur.done == done
      ensures p.Some? ==> cur.pairing == p.value && cur.tries == 0
      ensures p.Some? && old(cur) != null ==> old(cur).done.buffer == [Result(Replaced, None)]
    {
      if !role.Valid() || code.None? || id.None? {
        return None, null;
      }
      p := Some(Pairing(id.value, code.value, role, name, now + LIFETIME));
      done := Replace(p.value);
    }

    /** Start, from the lock on. */
    method Replace(p: Pairing) returns (done: Channel)
      requires Valid()
      modifies this, if cur == null then {} else {cur.done}
      ensures Valid() && book == StartIn(old(book), p)
      ensures fresh(done) && cur != null && cur.done == done && cur.pairing == p && cur.tries == 0
      ensures old(cur) != null ==> old(cur).done.buffer == [Result(Replaced, None)]
    {
      done := new Channel();
      var next := new Pending(p, done);
      End(REPLACED);
      cur := next;
      book := Book(Some(Slot(p, 0)), book.sent[p.id := []]);
    }

    /** What Cancel and Expire share: only the pending pairing of that id is ended. */
    method EndPairing(id: PairingId, r: Result)
      requires Valid()
      modifies this, if cur == null then {} else {cur.done}
      ensures Valid() && book == EndIf(old(book), id, r)
      ensures old(cur) == null || old(cur).pairing.id != id ==> book == old(book) && cur == old(cur)
      ensures old(cur) != null && old(cur).pairing.id == id ==> cur == null && old(cur).done.buffer == [r]
    {
      if cur != null && cur.pairing.id == id {
        End(r);
      }
    }

    method Cancel(id: PairingId)
      requires Valid()
      modifies this, if cur == null then {} else {cur.done}
      ensures Valid() && book == EndIf(old(book), id, CANCELLED)
      ensures old(cur) == null || old(cur).pairing.id != id ==> book == old(book) && cur == old(cur)
      ensures old(cur) != null && old(cur).pairing.id == id ==> cur == null && old(cur).done.buffer == [Result(Cancelled, None)]
    {
      EndPairing(id, CANCELLED);
    }

    method Expire(id: PairingId)
      requires Valid()
      modifies this, if cur == null then {} else {cur.done}
      ensures Valid() && book == EndIf(old(book), id, EXPIRED)
      ensures old(cur) == null || old(cur).pairing.id != id ==> book == old(book) && cur == old(cur)
      ensures old(cur) != null && old(cur).pairing.id == id ==> cur == null && old(cur).done.buffer == [Result(Expired, None)]
    {
      EndPairing(id, EXPIRED);
    }

    method Redeem(now: Time, a: Attempt, random: Option<Bytes>, creator: Creator) returns (answer: Answer)
      requires Valid()
      modifies this, cur, if cur == null then {} else {cur.done}, creator
      ensures Valid()
      ensures (book, answer) == RedeemIn(old(book), now, a, Luck(random, creator.created))
      ensures creator.asked == old(creator.asked)
                + if Creates(old(book), now, a, Luck(random, creator.created)) then [Wanted(old(book), a)] else []
      // No pairing, or one that has expired, which is ended.
      ensures old(cur) == null || now >= old(cur).pairing.expiresAt ==> answer == NonePending && cur == null && creator.asked == old(creator.asked)
      ensures old(cur) != null && now >= old(cur).pairing.expiresAt ==> old(cur).done.buffer == [Result(Expired, None)]
      // A pairing in time: a wrong proof is counted, and the fifth ends it.
      ensures old(cur) != null && now < old(cur).pairing.expiresAt
              && !(|a.phoneNonce| == 32 && a.proof == PhoneProof(old(cur).pairing.code, a.fingerprint, a.phoneNonce)) ==>
                && answer == WrongProof && creator.asked == old(creator.asked) && old(cur).tries == old(cur.tries) + 1
                && if old(cur.tries) + 1 < 5 then cur == old(cur) else cur == null && old(cur).done.buffer == [Result(Voided, None)]
      // The right proof ends it, one way or another; create is called with the pairing's own role, and its own name if it has one.
      ensures old(cur) != null && now < old(cur).pairing.expiresAt
              && (|a.phoneNonce| == 32 && a.proof == PhoneProof(old(cur).pairing.code, a.fingerprint, a.phoneNonce)) ==>
                && cur == null && old(cur).tries == old(cur.tries)
                && (random.None? ==> answer == RandomFailed && creator.asked == old(creator.asked))
                && (random.Some? ==>
                      && |creator.asked| == |old(creator.asked)| + 1
                      && creator.asked[..|old(creator.asked)|] == old(creator.asked)
                      && creator.asked[|old(creator.asked)|].1 == old(cur).pairing.role
                      && creator.asked[|old(creator.asked)|].0 ==
                           if old(cur).pairing.name == "" then a.phoneName else old(cur).pairing.name)
                && (random.Some? && creator.created.None? ==> answer == StoreFailed)
                && (random.None? || creator.created.None? ==> old(cur).done.buffer == [Result(Failed, None)])
                && (random.Some? && creator.created.Some? ==>
                      var (device, token) := creator.created.value;
                      && answer == Redeemed(device, token, random.value,
                                            AgentProof(old(cur).pairing.code, a.fingerprint, a.phoneNonce, random.value))
                      && old(cur).done.buffer == [Result(Paired, Some(device))])
    {
      if cur != null && now >= cur.pairing.expiresAt {
        End(EXPIRED);
      }
      var p := cur;
      if p == null {
        return NonePending;
      }
      if |a.phoneNonce| != NONCE_LEN || a.proof != PhoneProof(p.pairing.code, a.fingerprint, a.phoneNonce) {
        p.tries := p.tries + 1;
        book := book.(cur := Some(Slot(p.pairing, p.tries)));
        if p.tries >= MAX_TRIES {
          End(VOIDED);
        }
        return WrongProof;
      }
      if random.None? {
        End(FAILED);
        return RandomFailed;
      }
      var agentNonce := random.value;
      var name := if p.pairing.name != "" then p.pairing.name else a.phoneName;
      var created := creator.Create(name, p.pairing.role);
      if created.None? {
        End(FAILED);
        return StoreFailed;
      }
      var (device, token) := created.value;
      End(Result(Paired, Some(device)));
      return Redeemed(device, token, agentNonce,
                      AgentProof(p.pairing.code, a.fingerprint, a.phoneNonce, agentNonce));
    }
  }
}
