// The registry of open requests (agent/internal/conns/conns.go).
//
// `Reg` is the registry as a value, with one function for each section of code
// that runs under its mutex. `Registry` is the object: it changes its fields,
// and the inner sets it shares with its callers, in place, and every method is
// tied to the functions on values.
module Conns {
  import opened Common

  /** `open` maps a device to the requests it has open, each under its number. */
  datatype Reg<C> = Reg(next: nat, open: map<DeviceId, map<nat, C>>, closed: bool)

  function EmptyReg<C>(): Reg<C> {
    Reg(0, map[], false)
  }

  function SetOf<C>(reg: Reg<C>, device: DeviceId): map<nat, C> {
    if device in reg.open then reg.open[device] else map[]
  }

  function TrackIn<C>(reg: Reg<C>, device: DeviceId, c: C): Reg<C>
    requires !reg.closed
  {
    var n := reg.next + 1;
    Reg(n, reg.open[device := SetOf(reg, device)[n := c]], false)
  }

  function ReleaseIn<C>(reg: Reg<C>, device: DeviceId, n: nat): Reg<C> {
    if device !in reg.open then reg else
      var rest := reg.open[device] - {n};
      reg.(open := if rest == map[] then reg.open - {device} else reg.open[device := rest])
  }

  function DetachDevice<C>(reg: Reg<C>, device: DeviceId): Reg<C> {
    reg.(open := reg.open - {device})
  }

  function DetachAll<C>(reg: Reg<C>): Reg<C> {
    Reg(reg.next, map[], true)
  }

  /** Every request the registry has open, of whatever device. */
  ghost function AllOpen<C>(reg: Reg<C>): set<C> {
    AllIn(reg.open)
  }

  ghost function AllIn<C>(open: map<DeviceId, map<nat, C>>): set<C> {
    set d, n | d in open && n in open[d] :: open[d][n]
  }

  /** No device keeps an empty set, and a number is used for one request only. */
  ghost predicate WellFormed<C>(reg: Reg<C>) {
    && (forall d :: d in reg.open ==> reg.open[d] != map[])
    && (forall d, n :: d in reg.open && n in reg.open[d] ==> 0 < n <= reg.next)
    && (forall d, e, n :: d in reg.open && e in reg.open && n in reg.open[d] && n in reg.open[e] ==> d == e)
  }

  lemma TrackKeepsWellFormed<C>(reg: Reg<C>, device: DeviceId, c: C)
    requires WellFormed(reg) && !reg.closed
    ensures WellFormed(TrackIn(reg, device, c))
  {
    var t := TrackIn(reg, device, c);
    assert t.open[device][t.next] == c;
    assert t.open[device] != map[];
  }

  lemma ReleaseKeepsWellFormed<C>(reg: Reg<C>, device: DeviceId, n: nat)
    requires WellFormed(reg)
    ensures WellFormed(ReleaseIn(reg, device, n))
  {
    var r := ReleaseIn(reg, device, n);
    forall d, m | d in r.open && m in r.open[d]
      ensures d in reg.open && m in reg.open[d]
    {
    }
  }

  lemma DetachKeepsWellFormed<C>(reg: Reg<C>, device: DeviceId)
    requires WellFormed(reg)
    ensures WellFormed(DetachDevice(reg, device)) && WellFormed(DetachAll(reg))
  {
  }

  lemma ForgetsOne<C>(open: map<DeviceId, map<nat, C>>, device: DeviceId, before: map<nat, C>, n: nat, c: C)
    requires n !in before
    ensures before[n := c] - {n} == before
    ensures device in open && open[device] == before ==> open[device := before[n := c]][device := before] == open
    ensures device !in open ==> open[device := before[n := c]] - {device} == open
  {
  }

  /** A release undoes the tracking it belongs to, down to the inner set, and only the number stays used. */
  lemma ReleaseUndoesTrack<C>(reg: Reg<C>, device: DeviceId, c: C)
    requires WellFormed(reg) && !reg.closed
    ensures ReleaseIn(TrackIn(reg, device, c), device, reg.next + 1) == reg.(next := reg.next + 1)
  {
    var n := reg.next + 1;
    var before := SetOf(reg, device);
    assert n !in before && (device in reg.open ==> before != map[]);
    hide WellFormed;
    ForgetsOne(reg.open, device, before, n, c);
  }

  /** Tracking adds one entry, for the next number, to the device's set, and leaves every other set alone. */
  lemma TrackAddsOne<C>(reg: Reg<C>, device: DeviceId, c: C, d: DeviceId)
    requires !reg.closed
    ensures var t := TrackIn(reg, device, c);
            && t.next == reg.next + 1 && !t.closed && device in t.open
            && t.open[device] == (if device in reg.open then reg.open[device] else map[])[reg.next + 1 := c]
            && (d != device ==> (d in t.open <==> d in reg.open) && (d in reg.open ==> t.open[d] == reg.open[d]))
  {
  }

  /** A release takes one entry out of the device's set, and the set away when it was the last; every other set stays. */
  lemma ReleaseTakesOne<C>(reg: Reg<C>, device: DeviceId, n: nat, d: DeviceId)
    ensures var r := ReleaseIn(reg, device, n);
            && r.next == reg.next && r.closed == reg.closed
            && (device in r.open ==> device in reg.open && r.open[device] == reg.open[device] - {n} && r.open[device] != map[])
            && (device in reg.open && device !in r.open ==> reg.open[device].Keys <= {n})
            && (d != device ==> (d in r.open <==> d in reg.open) && (d in reg.open ==> r.open[d] == reg.open[d]))
  {
    if device in reg.open {
      var rest := reg.open[device] - {n};
      assert forall m :: m in reg.open[device] && m != n ==> m in rest;
    }
  }

  /** Releasing twice is releasing once. */
  lemma ReleaseIsIdempotent<C>(reg: Reg<C>, device: DeviceId, n: nat)
    ensures ReleaseIn(ReleaseIn(reg, device, n), device, n) == ReleaseIn(reg, device, n)
  {
    if device in reg.open {
      var rest := reg.open[device] - {n};
      assert rest - {n} == rest;
      if rest != map[] {
        assert reg.open[device := rest][device := rest] == reg.open[device := rest];
      }
    }
  }

  /** No request but the released one loses its entry. */
  lemma ReleaseKeepsOthers<C>(reg: Reg<C>, device: DeviceId, n: nat, d: DeviceId, m: nat)
    requires m in SetOf(reg, d) && m != n
    ensures m in SetOf(ReleaseIn(reg, device, n), d) && SetOf(ReleaseIn(reg, device, n), d)[m] == SetOf(reg, d)[m]
  {
    if d == device {
      assert m in reg.open[device] - {n};
    }
  }

  /** The context a request arrives with; it ends when the client goes away. */
  class Context {
    var done: bool

    constructor ()
      ensures !done
    {
      done := false;
    }
  }

  /** The context Track derives from it, with its cancel function. */
  class TrackedContext {
    const parent: Context
    var cancelled: bool

    constructor (parent: Context)
      ensures this.parent == parent && !cancelled
    {
      this.parent := parent;
      cancelled := false;
    }

    predicate Ended()
      reads this, parent
    {
      cancelled || parent.done
    }
  }

  /** One inner map of the registry: an object, because a closer keeps hold of it after detaching it. */
  class ConnSet {
    /** The device the set was made for. */
    ghost const device: DeviceId
    var m: map<nat, TrackedContext>

    constructor (ghost device: DeviceId, m: map<nat, TrackedContext>)
      ensures this.device == device && this.m == m
    {
      this.device := device;
      this.m := m;
    }
  }

  class Registry {
    var next: nat
    var open: map<DeviceId, ConnSet>
    var closed: bool

    /** The registry as a value; Valid ties it to the fields. */
    ghost var view: Reg<TrackedContext>

    /** The inner sets the registry can still write to. */
    ghost var sets: set<ConnSet>

    ghost predicate Valid()
      reads this, sets
    {
      && view.next == next
      && view.closed == closed
      && (forall d :: d in open <==> d in view.open)
      && (forall d :: d in open ==> open[d] in sets && open[d].device == d && open[d].m == view.open[d])
    }

    constructor ()
      ensures Valid() && view == EmptyReg() && sets == {}
    {
      next, open, closed, view, sets := 0, map[], false, EmptyReg(), {};
    }

    /**
     * Returns the request's context and its number. The number is 0 when the
     * registry is closed: the context is cancelled then, and its release does
     * nothing.
     */
    method Track(parent: Context, device: DeviceId) returns (ctx: TrackedContext, n: nat)
      requires Valid()
      modifies this, sets
      ensures Valid() && fresh(sets - old(sets))
      ensures fresh(ctx) && ctx.parent == parent
      ensures old(closed) ==> n == 0 && ctx.cancelled && view == old(view)
      ensures !old(closed) ==> n == old(next) + 1 && !ctx.cancelled && view == TrackIn(old(view), device, ctx)
    {
      ctx := new TrackedContext(parent);
      if closed {
        ctx.cancelled := true;
        n := 0;
        return;
      }
      n := next + 1;
      Insert(device, n, ctx);
    }

    method Insert(device: DeviceId, n: nat, ctx: TrackedContext)
      requires Valid() && !closed && n == next + 1
      modifies this, sets
      ensures Valid() && fresh(sets - old(sets))
      ensures view == TrackIn(old(view), device, ctx)
    {
      next := n;
      view := TrackIn(view, device, ctx);
      if device in open {
        var s := open[device];
        s.m := s.m[n := ctx];
      } else {
        var s := new ConnSet(device, map[n := ctx]);
        open := open[device := s];
        sets := sets + {s};
      }
    }

    /** The release closure Track returned for the request numbered n. */
    method Release(device: DeviceId, n: nat, ctx: TrackedContext)
      requires Valid()
      modifies this, sets, ctx
      ensures Valid() && sets == old(sets)
      ensures view == if n == 0 then old(view) else ReleaseIn(old(view), device, n)
      ensures ctx.cancelled == (old(ctx.cancelled) || n != 0)
    {
      if n == 0 {
        return;
      }
      view := ReleaseIn(view, device, n);
      if device in open {
        var s := open[device];
        s.m := s.m - {n};
        if s.m == map[] {
          open := open - {device};
        }
      }
      ctx.cancelled := true;
    }

    /** Ends every context of a detached set: the unlocked loop of CloseDevice and CloseAll. */
    static method CancelEach(detached: map<nat, TrackedContext>)
      modifies detached.Values
      ensures forall n :: n in detached ==> detached[n].cancelled
    {
      var todo := detached.Keys;
      while todo != {}
        invariant todo <= detached.Keys
        invariant forall n :: n in detached && n !in todo ==> detached[n].cancelled
        decreases todo
      {
        var n :| n in todo;
        detached[n].cancelled := true;
        todo := todo - {n};
      }
    }

    /** The locked section of CloseDevice: takes a device's set out of the registry. */
    method DetachSet(device: DeviceId) returns (detached: map<nat, TrackedContext>)
      requires Valid()
      modifies this
      ensures Valid() && view == DetachDevice(old(view), device)
      ensures detached == SetOf(old(view), device)
      ensures sets <= old(sets) && (device in old(open) ==> old(open[device]) !in sets)
    {
      detached := map[];
      if device in open {
        detached := open[device].m;
        sets := sets - {open[device]};
      }
      view := DetachDevice(view, device);
      open := open - {device};
    }

    method CloseDevice(device: DeviceId) returns (count: nat)
      requires Valid()
      modifies this, SetOf(view, device).Values
      ensures Valid() && view == DetachDevice(old(view), device)
      ensures view.open == old(view.open) - {device} && closed == old(closed) && next == old(next)
      ensures count == |SetOf(old(view), device)|
      ensures forall n :: n in SetOf(old(view), device) ==> SetOf(old(view), device)[n].cancelled
      ensures sets <= old(sets) && (device in old(open) ==> old(open[device]) !in sets)
    {
      var detached := DetachSet(device);
      hide SetOf;
      CancelEach(detached);
      count := |detached|;
    }

    /** The locked section of CloseAll: takes everything out of the registry, and closes it. */
    method DetachSets() returns (all: map<DeviceId, map<nat, TrackedContext>>)
      requires Valid()
      modifies this
      ensures Valid() && view == DetachAll(old(view)) && sets == {}
      ensures all == old(view.open)
    {
      all := map d | d in open :: open[d].m;
      open, sets, closed, view := map[], {}, true, DetachAll(view);
    }

    /** The unlocked loops of CloseAll. */
    static method CancelAll(all: map<DeviceId, map<nat, TrackedContext>>)
      modifies AllIn(all)
      ensures forall d, n :: d in all && n in all[d] ==> all[d][n].cancelled
    {
      var todo := all.Keys;
      while todo != {}
        invariant todo <= all.Keys
        invariant forall d, n :: d in all && d !in todo && n in all[d] ==> all[d][n].cancelled
        decreases todo
      {
        var d :| d in todo;
        CancelEach(all[d]);
        todo := todo - {d};
      }
    }

    method CloseAll()
      requires Valid()
      modifies this, AllOpen(view)
      ensures Valid() && view == DetachAll(old(view)) && sets == {}
      ensures closed && open == map[] && view.open == map[]
      ensures forall ctx :: ctx in AllOpen(old(view)) ==> ctx.cancelled
    {
      var all := DetachSets();
      CancelAll(all);
    }

    method OpenCount(device: DeviceId) returns (count: nat)
      requires Valid()
      ensures count == |SetOf(view, device)|
    {
      count := if device in open then |open[device].m| else 0;
    }
  }
}
