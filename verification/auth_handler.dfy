// One request through the authenticator (Require and serve in
// agent/internal/auth/authenticator.go), and one revocation (handleRevoke in
// agent/internal/admin/admin.go). How many of them meet is in Revocation.
module AuthHandler {
  import opened Common
  import opened Conns
  import opened DeviceStore
  import Disks
  import opened Gates
  import R = ThrottleRefinement
  import opened Throttle

  /** The Authorization header; a value with the shape of a device token may still be no token. */
  datatype Bearer = NoBearer | DeviceShaped(token: Option<Token>) | Other(text: string)

  /** What the handlers further in learn of the device: everything but the hash. */
  datatype Caller = Caller(id: DeviceId, name: string, role: Role)

  const ENV_CALLER := Caller(LEGACY_DEVICE_ID, "env-token", Full)

  datatype Reply = Handled(caller: Caller) | ShuttingDown | TooManyRequests(retryAfter: nat) | Unauthorized

  datatype RevokeReply = StillPaired | NoSuchDevice | Revoked(device: Device, closed: nat)

  /** The removal, as far as the answer and the list in memory go. */
  method Unpair(devices: Devices, id: DeviceId, io: Disks.IO) returns (removed: Removal)
    requires devices.Valid()
    modifies devices, devices.dir
    ensures devices.Valid()
    ensures removed == if id !in old(devices.byId) then NotFound else if io.fault.NoFault? then Gone(old(devices.byId)[id]) else NotStored
    ensures removed.Gone? ==> devices.InMemory() == Removed(old(devices.InMemory()), id, true) && devices.byId == old(devices.byId) - {id}
    ensures !removed.Gone? ==> devices.InMemory() == old(devices.InMemory())
  {
    hide Removed;
    hide IsListing;
    ghost var list;
    removed, list := devices.Remove(id, io);
  }

  method HandleRevoke(devices: Devices, conns: Registry, id: DeviceId, io: Disks.IO) returns (reply: RevokeReply)
    requires devices.Valid() && conns.Valid()
    modifies devices, devices.dir, conns, SetOf(conns.view, id).Values
    ensures devices.Valid() && conns.Valid()
    ensures reply.NoSuchDevice? <==> id !in old(devices.byId)
    ensures reply.StillPaired? <==> id in old(devices.byId) && !io.fault.NoFault?
    // Without success the device is still in the list, and nothing of it was closed.
    ensures !reply.Revoked? ==>
              && devices.InMemory() == old(devices.InMemory()) && conns.view == old(conns.view)
              && forall n :: n in SetOf(old(conns.view), id) ==> unchanged(SetOf(old(conns.view), id)[n])
    // With it the device is gone, and everything it had open is ended.
    ensures reply.Revoked? ==>
              && devices.InMemory() == Removed(old(devices.InMemory()), id, true) && devices.byId == old(devices.byId) - {id}
              && conns.view == DetachDevice(old(conns.view), id) && conns.view.open == old(conns.view.open) - {id}
              && reply == Revoked(old(devices.byId)[id], |old(SetOf(conns.view, id))|)
              && forall n :: n in SetOf(old(conns.view), id) ==> SetOf(old(conns.view), id)[n].cancelled
  {
    hide Removed;
    hide DetachDevice;
    hide devices.Valid;
    hide conns.Valid;
    var removed := Unpair(devices, id, io);
    match removed
    case NotStored => return StillPaired;
    case NotFound => return NoSuchDevice;
    case Gone(device) =>
      var closed := conns.CloseDevice(id);
      return Revoked(device, closed);
  }

  /** Whether a request that comes in now finds that the registry ended it. */
  ghost predicate EndedByRegistry(conns: Registry?, parent: Context)
    reads parent, conns
  {
    conns != null && conns.closed && !parent.done
  }

  ghost predicate ConnsOk(conns: Registry?)
    reads conns, if conns == null then {} else conns.sets
  {
    conns != null ==> conns.Valid() && WellFormed(conns.view)
  }

  /** The registry after Track, next to what it was; n is 0 when the registry was closed. */
  ghost predicate IsTracked(before: Reg<TrackedContext>, after: Reg<TrackedContext>, device: DeviceId, n: nat, ctx: TrackedContext) {
    && WellFormed(before)
    && if n == 0 then after == before else !before.closed && n == before.next + 1 && after == TrackIn(before, device, ctx)
  }

  /** serve, up to the look at the two contexts. */
  method Enter(conns: Registry, parent: Context, device: DeviceId) returns (ctx: TrackedContext, n: nat, endedByRegistry: bool)
    requires ConnsOk(conns)
    modifies conns, conns.sets
    ensures conns.Valid() && fresh(ctx) && fresh(conns.sets - old(conns.sets))
    ensures IsTracked(old(conns.view), conns.view, device, n, ctx)
    ensures endedByRegistry == (old(conns.closed) && !parent.done)
  {
    ctx, n := conns.Track(parent, device);
    endedByRegistry := ctx.Ended() && !parent.done;
  }

  /** A request that leaves has left no trace but the number it used. */
  lemma LeftIsBefore(before: Reg<TrackedContext>, tracked: Reg<TrackedContext>, device: DeviceId, n: nat, ctx: TrackedContext)
    requires IsTracked(before, tracked, device, n, ctx)
    ensures var left := if n == 0 then tracked else ReleaseIn(tracked, device, n);
            WellFormed(left) && left.open == before.open && left.closed == before.closed
  {
    if n != 0 {
      ReleaseUndoesTrack(before, device, ctx);
    }
    hide ReleaseIn;
    hide TrackIn;
  }

  /** The deferred release. */
  method Leave(conns: Registry, device: DeviceId, n: nat, ctx: TrackedContext, ghost before: Reg<TrackedContext>)
    requires conns.Valid() && IsTracked(before, conns.view, device, n, ctx)
    modifies conns, conns.sets, ctx
    ensures ConnsOk(conns) && conns.view.open == before.open && conns.closed == before.closed && conns.sets == old(conns.sets)
  {
    LeftIsBefore(before, conns.view, device, n, ctx);
    hide ReleaseIn;
    hide IsTracked;
    hide WellFormed;
    conns.Release(device, n, ctx);
  }

  /** The list in memory after a lookup. */
  ghost function Looked(m: Memory, token: Option<Token>, now: Time, io: Disks.IO): Memory
    requires Kept(m)
  {
    if token.Some? && Knows(m.byId, token.value) then Seen(m, token.value, now, io.fault.NoFault?) else m
  }

  /** The second lookup, for a device; None says that it is no longer paired. */
  method LookUp(devices: Devices, accepted: Caller, token: Option<Token>, now: Time, io: Disks.IO) returns (caller: Option<Caller>)
    requires devices.Valid()
    modifies devices, devices.dir
    ensures devices.Valid()
    ensures token.None? ==> caller == Some(accepted)
    ensures token.Some? ==> (caller.Some? <==> Knows(old(devices.byId), token.value))
    ensures token.Some? && caller.Some? ==>
              var d := old(devices.byId)[token.value.id];
              caller == Some(Caller(d.id, d.name, d.role))
    ensures devices.InMemory() == Looked(old(devices.InMemory()), token, now, io)
  {
    if token.None? {
      return Some(accepted);
    }
    ghost var list;
    var paired;
    paired, list := devices.Authenticate(token.value, now, io);
    return if paired.Some? then Some(Caller(paired.value.id, paired.value.name, paired.value.role)) else None;
  }

  /**
   * serve. None says that the device is no longer paired. Otherwise the handler
   * gets the device as the list has it at the second lookup, unless the
   * registry ended the request. The request has been released again when it
   * returns.
   */
  method Serve(devices: Devices, conns: Registry?, parent: Context, accepted: Caller, token: Option<Token>, now: Time, io: Disks.IO)
    returns (reply: Option<Reply>)
    requires devices.Valid() && ConnsOk(conns)
    modifies devices, devices.dir, conns, if conns == null then {} else conns.sets
    ensures devices.Valid() && ConnsOk(conns)
    ensures reply.None? <==>
              token.Some? && !(token.value.id in old(devices.byId)
                               && old(devices.byId)[token.value.id].tokenHash == Sha256Hex(token.value))
    ensures reply.Some? ==> (reply.value == ShuttingDown <==> old(conns != null && conns.closed && !parent.done))
    ensures reply.Some? && reply.value != ShuttingDown ==>
              && reply.value.Handled?
              && if token.None? then reply.value.caller == accepted
                 else
                   var d := old(devices.byId)[token.value.id];
                   reply.value.caller.id == d.id && reply.value.caller.name == d.name && reply.value.caller.role == d.role
    ensures devices.InMemory() == Looked(old(devices.InMemory()), token, now, io)
    ensures conns != null ==> conns.view.open == old(conns.view.open) && conns.closed == old(conns.closed)
    ensures fresh((if conns == null then {} else conns.sets) - old(if conns == null then {} else conns.sets))
  {
    hide Kept;
    var ctx: TrackedContext?, n, endedByRegistry := null, 0, false;
    ghost var before := if conns == null then EmptyReg() else conns.view;
    if conns != null {
      ctx, n, endedByRegistry := Enter(conns, parent, accepted.id);
    }
    var caller := LookUp(devices, accepted, token, now, io);
    reply := if caller.None? then None else if endedByRegistry then Some(ShuttingDown) else Some(Handled(caller.value));
    if conns != null {
      Leave(conns, accepted.id, n, ctx, before);
    }
  }

  /** What the limiter knows, when there is one. */
  datatype Limits = NoLimiter | Limits(table: Table)
  {
    ghost function BlockedFor(key: Key, now: Time): nat {
      if NoLimiter? then 0 else Left(At(table, key), now)
    }
  }

  /** The answer from an address that is not blocked: inside with the shared token, and 401 without, counted when there was a token at all. */
  ghost predicate Judged(before: Limits, after: Limits, bearer: Bearer, legacy: string, ended: bool, key: Key, failed: Time,
      reply: Reply, compared: bool, dropped: set<Key>) {
    && (compared <==> bearer.Other? && legacy != "")
    && if compared && bearer.text == legacy then reply == (if ended then ShuttingDown else Handled(ENV_CALLER)) && after == before
       else
         && reply == Unauthorized
         && if before.NoLimiter? || bearer.NoBearer? then after == before
            else MayDrop(before.table, key, failed, dropped) && after == Limits(FailIn(before.table, key, failed, dropped))
  }

  lemma SharedIsJudged(before: Limits, bearer: Bearer, legacy: string, ended: bool, key: Key, failed: Time)
    requires bearer.Other? && legacy != "" && bearer.text == legacy
    ensures Judged(before, before, bearer, legacy, ended, key, failed, if ended then ShuttingDown else Handled(ENV_CALLER), true, {})
  {
  }

  lemma RefusedIsJudged(before: Limits, after: Limits, bearer: Bearer, legacy: string, ended: bool, key: Key, failed: Time, dropped: set<Key>)
    requires !(bearer.Other? && legacy != "" && bearer.text == legacy) && before.Limits?
    requires if bearer.NoBearer? then after == before
             else MayDrop(before.table, key, failed, dropped) && after == Limits(FailIn(before.table, key, failed, dropped))
    ensures Judged(before, after, bearer, legacy, ended, key, failed, Unauthorized, bearer.Other? && legacy != "", dropped)
  {
  }

  /**
   * The answer to a request that came with no good device token: 429 while its
   * address is blocked, and then the shared token is not compared.
   */
  ghost predicate Strangers(before: Limits, after: Limits, bearer: Bearer, legacy: string, ended: bool, key: Key, course: Course,
      reply: Reply, compared: bool, dropped: set<Key>) {
    var left := before.BlockedFor(key, course.asked);
    if left > 0 then reply == TooManyRequests(Seconds(left)) && after == before && !compared
    else Judged(before, after, bearer, legacy, ended, key, course.failed, reply, compared, dropped)
  }

  /** When and how the two lookups of a device are made, and when the limiter is asked and told. */
  datatype Course = Course(first: Time, firstIO: Disks.IO, second: Time, secondIO: Disks.IO, asked: Time, failed: Time)

  // What a stranger can rely on, and what it cannot find out.

  /** No answer but a refusal changes what the limiter knows. */
  lemma OnlyRefusalsCount(before: Limits, after: Limits, bearer: Bearer, legacy: string, ended: bool, key: Key, course: Course,
      reply: Reply, compared: bool, dropped: set<Key>)
    requires Strangers(before, after, bearer, legacy, ended, key, course, reply, compared, dropped) && !reply.Unauthorized?
    ensures after == before
  {
    hide FailIn;
    hide MayDrop;
  }

  /** Inside is only who presented the shared token itself, from an address that is not blocked, and with the rights of that token. */
  lemma OnlyTheSharedToken(before: Limits, after: Limits, bearer: Bearer, legacy: string, ended: bool, key: Key, course: Course,
      reply: Reply, compared: bool, dropped: set<Key>)
    requires Strangers(before, after, bearer, legacy, ended, key, course, reply, compared, dropped)
    ensures reply.Handled? || reply.ShuttingDown? <==>
              && bearer == Other(legacy) && legacy != ""
              && !(before.Limits? && key in before.table && before.table[key].blockedUntil > course.asked)
    ensures reply.Handled? ==> !ended && reply.caller == Caller("env", "env-token", Full)
    ensures reply.ShuttingDown? ==> ended
  {
    hide FailIn;
    hide MayDrop;
  }

  /** While its address is blocked a guess tells nothing but how long: right or wrong, it gets the same answer and leaves the same state. */
  lemma BlockedLearnsNothing(before: Limits, legacy: string, ended: bool, key: Key, course: Course,
      bearer1: Bearer, after1: Limits, reply1: Reply, compared1: bool, dropped1: set<Key>,
      bearer2: Bearer, after2: Limits, reply2: Reply, compared2: bool, dropped2: set<Key>)
    requires before.Limits? && key in before.table && before.table[key].blockedUntil > course.asked
    requires Strangers(before, after1, bearer1, legacy, ended, key, course, reply1, compared1, dropped1)
    requires Strangers(before, after2, bearer2, legacy, ended, key, course, reply2, compared2, dropped2)
    ensures reply1 == reply2 && after1 == after2 == before && !compared1 && !compared2
    ensures reply1.TooManyRequests?
    ensures course.asked + (reply1.retryAfter - 1) * SECOND < before.table[key].blockedUntil <= course.asked + reply1.retryAfter * SECOND
  {
    hide FailIn;
    hide MayDrop;
  }

  /** Every token that is refused, whether or not it was compared, is the newest failure of its address; no token is none. */
  lemma WrongGuessIsCounted(before: Limits, after: Limits, bearer: Bearer, legacy: string, ended: bool, key: Key, course: Course,
      reply: Reply, compared: bool, dropped: set<Key>)
    requires Strangers(before, after, bearer, legacy, ended, key, course, reply, compared, dropped)
    requires before.Limits? && reply.Unauthorized?
    ensures bearer.NoBearer? ==> after == before
    ensures !bearer.NoBearer? ==>
              && after.Limits? && key in after.table && after.table[key].failures != []
              && after.table[key].failures[|after.table[key].failures| - 1] == course.failed
  {
    hide FailIn;
    hide MayDrop;
    if !bearer.NoBearer? {
      R.FailureIsNewest(before.table, key, course.failed, dropped);
    }
  }

  /** A request adds one failure at most, to its own address only, and only when it is refused with a token. */
  lemma OneFailureAtMost(before: Limits, after: Limits, bearer: Bearer, legacy: string, ended: bool, key: Key, course: Course,
      reply: Reply, compared: bool, dropped: set<Key>, k: Key)
    requires Strangers(before, after, bearer, legacy, ended, key, course, reply, compared, dropped) && before.Limits?
    ensures after.Limits?
    ensures |At(after.table, k).failures| <=
              |At(before.table, k).failures| + if k == key && reply.Unauthorized? && !bearer.NoBearer? then 1 else 0
  {
    R.RoomNeverAdds(before.table, key, course.failed, dropped, k);
    var e := At(Roomy(before.table, key, course.failed, dropped), key);
    FailAddsOne(e, course.failed);
    hide MayDrop;
    hide Roomy;
    hide FailEntry;
  }

  lemma FailAddsOne(e: Entry, now: Time)
    ensures |FailEntry(e, now).failures| <= |e.failures| + 1
  {
    var cut := R.RecentIsSuffix(e.failures, now);
  }

  class Authenticator {
    const devices: Devices
    const legacy: string
    const gate: Gate?
    const conns: Registry?

    constructor (devices: Devices, legacy: string, gate: Gate?, conns: Registry?)
      ensures this.devices == devices && this.legacy == legacy && this.gate == gate && this.conns == conns
    {
      this.devices, this.legacy, this.gate, this.conns := devices, legacy, gate, conns;
    }

    ghost predicate GateOk(clock: Time)
      reads this, gate, if gate == null then {} else {gate.limiter} + gate.limiter.records
    {
      gate != null ==> gate.Valid() && gate.s.clock <= clock
    }

    ghost function State(): Limits
      reads this, gate
    {
      if gate == null then NoLimiter else Limits(gate.s.table)
    }

    /** Whether the shared token is looked at, and was presented. */
    predicate Compares(bearer: Bearer) {
      bearer.Other? && legacy != ""
    }

    predicate IsShared(bearer: Bearer) {
      Compares(bearer) && bearer.text == legacy
    }

    /** WithoutDevice, for an address that was found free. */
    method Judge(g: Gate, parent: Context, bearer: Bearer, key: Key, course: Course)
      returns (reply: Reply, compared: bool, ghost dropped: set<Key>)
      requires devices.Valid() && ConnsOk(conns) && g.Valid() && g.s.clock <= course.failed && key in g.s.cleared
      modifies devices, devices.dir, conns, if conns == null then {} else conns.sets
      modifies g, g.limiter, g.limiter.records
      ensures devices.Valid() && ConnsOk(conns) && g.Valid() && g.s.clock <= course.failed
      ensures devices.InMemory() == old(devices.InMemory())
      ensures Judged(Limits(old(g.s.table)), Limits(g.s.table), bearer, legacy, old(EndedByRegistry(conns, parent)),
                     key, course.failed, reply, compared, dropped)
    {
      hide FailIn;
      hide MayDrop;
      hide Kept;
      hide WellFormed;
      hide Knows;
      hide Judged;
      hide devices.Valid;
      hide g.Valid;
      hide ConnsOk;
      ghost var before, ended := Limits(g.s.table), EndedByRegistry(conns, parent);
      dropped, compared := {}, Compares(bearer);
      if IsShared(bearer) {
        SharedIsJudged(before, bearer, legacy, ended, key, course.failed);
        var served := Serve(devices, conns, parent, ENV_CALLER, None, course.second, course.secondIO);
        return served.value, compared, dropped;
      }
      if !bearer.NoBearer? {
        dropped := g.Fail(key, course.failed);
      }
      reply := Unauthorized;
      RefusedIsJudged(before, Limits(g.s.table), bearer, legacy, ended, key, course.failed, dropped);
    }

    /** WithoutDevice with a limiter. */
    method WithLimiter(g: Gate, parent: Context, bearer: Bearer, key: Key, course: Course)
      returns (reply: Reply, compared: bool, ghost dropped: set<Key>)
      requires devices.Valid() && ConnsOk(conns) && g.Valid() && g.s.clock <= course.asked <= course.failed
      modifies devices, devices.dir, conns, if conns == null then {} else conns.sets
      modifies g, g.limiter, g.limiter.records
      ensures devices.Valid() && ConnsOk(conns) && g.Valid() && g.s.clock <= course.failed
      ensures devices.InMemory() == old(devices.InMemory())
      ensures Strangers(Limits(old(g.s.table)), Limits(g.s.table), bearer, legacy, old(EndedByRegistry(conns, parent)), key, course,
                        reply, compared, dropped)
    {
      hide Judged;
      hide Kept;
      hide WellFormed;
      var left, blocked := g.Blocked(key, course.asked);
      if blocked {
        dropped := {};
        return TooManyRequests(Seconds(left)), false, dropped;
      }
      reply, compared, dropped := Judge(g, parent, bearer, key, course);
    }

    /** Require, once no device token was good: from the limiter on. */
    method WithoutDevice(parent: Context, bearer: Bearer, key: Key, course: Course)
      returns (reply: Reply, compared: bool, ghost dropped: set<Key>)
      requires devices.Valid() && ConnsOk(conns) && GateOk(course.asked) && course.asked <= course.failed
      modifies devices, devices.dir, conns, if conns == null then {} else conns.sets
      modifies gate, if gate == null then {} else {gate.limiter} + gate.limiter.records
      ensures devices.Valid() && ConnsOk(conns) && GateOk(course.failed)
      ensures devices.InMemory() == old(devices.InMemory())
      ensures Strangers(old(State()), State(), bearer, legacy, old(EndedByRegistry(conns, parent)), key, course,
                        reply, compared, dropped)
    {
      if gate != null {
        hide Strangers;
        reply, compared, dropped := WithLimiter(gate, parent, bearer, key, course);
        return;
      }
      dropped, compared := {}, Compares(bearer);
      if IsShared(bearer) {
        var served := Serve(devices, conns, parent, ENV_CALLER, None, course.second, course.secondIO);
        reply := served.value;
      } else {
        reply := Unauthorized;
      }
    }

    /**
     * Require. When revoked is given, the device is removed between the two
     * lookups, or its removal fails, as that write goes.
     */
    method Require(parent: Context, bearer: Bearer, key: Key, course: Course, revoked: Option<Disks.IO>)
      returns (reply: Reply, compared: bool, ghost dropped: set<Key>)
      requires devices.Valid() && ConnsOk(conns) && GateOk(course.asked) && course.asked <= course.failed
      modifies devices, devices.dir, conns, if conns == null then {} else conns.sets
      modifies gate, if gate == null then {} else {gate.limiter} + gate.limiter.records
      ensures devices.Valid() && ConnsOk(conns) && GateOk(course.failed) && (gate != null ==> gate.Bounded())
      // A paired device passes whatever its address has done, as what the list says it is.
      ensures IsPaired(old(devices.byId), bearer) && !(revoked.Some? && revoked.value.fault.NoFault?) ==>
                && State() == old(State()) && !compared
                && if old(conns != null && conns.closed && !parent.done) then reply == ShuttingDown
                   else
                     var d := old(devices.byId)[bearer.token.value.id];
                     reply.Handled? && reply.caller.id == d.id && reply.caller.name == d.name && reply.caller.role == d.role
      // Nobody gets in with a device token that is not in the list, and a read-only device never as anything else.
      ensures reply.Handled? && bearer.DeviceShaped? ==>
                && bearer.token.Some? && bearer.token.value.id in old(devices.byId)
                && var d := old(devices.byId)[bearer.token.value.id];
                   d.tokenHash == Sha256Hex(bearer.token.value) && (d.role == ReadOnly ==> reply.caller.role == ReadOnly)
      // One that was removed by the second lookup, and anybody else, is a stranger.
      ensures !IsPaired(old(devices.byId), bearer) || (revoked.Some? && revoked.value.fault.NoFault?) ==>
                Strangers(old(State()), State(), bearer, legacy, old(EndedByRegistry(conns, parent)), key, course,
                          reply, compared, dropped)
    {
      hide Strangers;
      hide Kept;
      hide WellFormed;
      hide devices.Valid;
      dropped := {};
      if bearer.DeviceShaped? && bearer.token.Some? {
        var served := AsDevice(parent, bearer.token.value, course, revoked);
        if served.Some? {
          reply, compared := served.value, false;
          StaysBounded();
          return;
        }
      }
      ghost var before, ended := State(), EndedByRegistry(conns, parent);
      reply, compared, dropped := WithoutDevice(parent, bearer, key, course);
      OnlyTheSharedToken(before, State(), bearer, legacy, ended, key, course, reply, compared, dropped);
      StaysBounded();
    }

    lemma StaysBounded()
      requires gate != null ==> gate.Valid()
      ensures gate != null ==> gate.Bounded()
    {
      if gate != null {
        gate.ValidIsBounded();
      }
    }

    /** Require, for a device token; None goes on as for anybody else. */
    method AsDevice(parent: Context, t: Token, course: Course, revoked: Option<Disks.IO>) returns (served: Option<Reply>)
      requires devices.Valid() && ConnsOk(conns)
      modifies devices, devices.dir, conns, if conns == null then {} else conns.sets
      ensures devices.Valid() && ConnsOk(conns)
      ensures conns != null ==> conns.closed == old(conns.closed)
      ensures fresh((if conns == null then {} else conns.sets) - old(if conns == null then {} else conns.sets))
      ensures served.Some? <==> Knows(old(devices.byId), t) && !(revoked.Some? && revoked.value.fault.NoFault?)
      ensures served.Some? ==>
                var d := old(devices.byId)[t.id];
                served.value == if old(conns != null && conns.closed && !parent.done) then ShuttingDown
                                else Handled(Caller(d.id, d.name, d.role))
    {
      var accepted := Accept(t, course, revoked);
      if accepted.None? {
        return None;
      }
      served := Serve(devices, conns, parent, accepted.value, Some(t), course.second, course.secondIO);
    }

    /** The first lookup, and what happens to the device before the second. */
    method Accept(t: Token, course: Course, revoked: Option<Disks.IO>) returns (caller: Option<Caller>)
      requires devices.Valid()
      modifies devices, devices.dir
      ensures devices.Valid()
      ensures caller.Some? <==> Knows(old(devices.byId), t)
      ensures Knows(devices.byId, t) <==> Knows(old(devices.byId), t) && !(revoked.Some? && revoked.value.fault.NoFault?)
      ensures Knows(devices.byId, t) ==> devices.byId[t.id] == old(devices.byId)[t.id].(lastSeenAt := devices.byId[t.id].lastSeenAt)
    {
      ghost var list;
      var accepted;
      accepted, list := devices.Authenticate(t, course.first, course.firstIO);
      if accepted.None? {
        return None;
      }
      if revoked.Some? {
        var removed;
        removed, list := devices.Remove(t.id, revoked.value);
      }
      return Some(Caller(accepted.value.id, accepted.value.name, accepted.value.role));
    }
  }

  /** The token is that of a device in the list. */
  predicate IsPaired(m: ById, bearer: Bearer) {
    bearer.DeviceShaped? && bearer.token.Some? && Knows(m, bearer.token.value)
  }
}
