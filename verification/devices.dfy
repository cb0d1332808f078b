// The list of paired devices (agent/internal/state/devices.go).
//
// `Memory` is what the running agent knows, as a value; `Devices` is the object
// that changes it in place and writes it to the folder.
module DeviceStore {
  import opened Common
  import opened Disks
  import opened StateDir
  import Sorting

  const LAST_SEEN_EVERY: Time := MINUTE

  type ById = map<DeviceId, Device>

  /** persisted is the last-seen time that is on disk already, for each device. */
  datatype Memory = Memory(byId: ById, persisted: map<DeviceId, Time>)

  const NO_DEVICES := Memory(map[], map[])

  predicate Complete(d: Device) {
    d.id != "" && d.role.Valid()
  }

  /** The devices are under their own ids and complete. */
  ghost predicate Sound(m: ById) {
    forall id :: id in m ==> m[id].id == id && Complete(m[id])
  }

  /** The order of strings in Go: byte by byte, a prefix first. */
  predicate Less(a: string, b: string) {
    if b == "" then false
    else if a == "" then true
    else a[0] < b[0] || (a[0] == b[0] && Less(a[1..], b[1..]))
  }

  ghost predicate SortedById(list: seq<Device>) {
    forall i, j :: 0 <= i < j < |list| ==> Less(list[i].id, list[j].id)
  }

  /** The device list that saveLocked encodes: every device once, in the order of the ids. */
  ghost predicate IsListing(list: seq<Device>, m: ById) {
    && SortedById(list)
    && (forall d :: d in list ==> d.id in m && m[d.id] == d)
    && (forall id :: id in m ==> m[id] in list)
  }

  /** The map LoadDevices builds; of two entries with one id the later wins. */
  function Indexed(list: seq<Device>): ById {
    if list == [] then map[] else Indexed(list[..|list| - 1])[list[|list| - 1].id := list[|list| - 1]]
  }

  function LastSeen(m: ById): map<DeviceId, Time> {
    map id | id in m :: m[id].lastSeenAt
  }

  /** LoadDevices on the folder; None is an error, which keeps the agent from starting. */
  function Load(f: Folder): Option<Memory> {
    if DEVICES_FILE !in f then Some(NO_DEVICES)
    else
      match f[DEVICES_FILE].content
      case DeviceList(list) =>
        if forall d :: d in list ==> Complete(d) then Some(Memory(Indexed(list), LastSeen(Indexed(list)))) else None
      case _ => None
  }

  lemma {:induction false} LessIsStrict(a: string, b: string)
    ensures Less(a, b) ==> a != b && !Less(b, a)
  {
    if a != "" && b != "" {
      LessIsStrict(a[1..], b[1..]);
    }
  }

  lemma {:induction false} LessIsTotal(a: string, b: string)
    ensures a == b || Less(a, b) || Less(b, a)
  {
    if a != "" && b != "" && a[0] == b[0] {
      LessIsTotal(a[1..], b[1..]);
      assert a == [a[0]] + a[1..] && b == [b[0]] + b[1..];
    }
  }

  lemma {:induction false} LessIsTransitive(a: string, b: string, c: string)
    requires Less(a, b) && Less(b, c)
    ensures Less(a, c)
  {
    if a != "" && a[0] == b[0] == c[0] {
      LessIsTransitive(a[1..], b[1..], c[1..]);
    }
  }

  /** Texts are ordered by the first byte in which they differ, and a text comes after its own beginnings. */
  lemma {:induction false} LessIsByTheFirstDifference(a: string, b: string, k: nat)
    requires k <= |a| && k <= |b| && a[..k] == b[..k] && (k == |a| || k == |b| || a[k] != b[k])
    ensures Less(a, b) <==> k < |b| && (k == |a| || a[k] < b[k])
  {
    if k > 0 {
      assert a[0] == a[..k][0] == b[..k][0] == b[0];
      assert a[1..][..k - 1] == a[..k][1..] && b[1..][..k - 1] == b[..k][1..];
      LessIsByTheFirstDifference(a[1..], b[1..], k - 1);
    }
  }

  /** Of several entries with one id the last is the one that counts. */
  lemma {:induction false} TheLaterWins(list: seq<Device>, i: nat)
    requires i < |list| && forall j :: i < j < |list| ==> list[j].id != list[i].id
    ensures list[i].id in Indexed(list) && Indexed(list)[list[i].id] == list[i]
  {
    var front := list[..|list| - 1];
    if i < |front| {
      TheLaterWins(front, i);
    }
  }

  lemma {:induction false} IndexedFinds(list: seq<Device>, i: nat)
    requires SortedById(list) && i < |list|
    ensures list[i].id in Indexed(list) && Indexed(list)[list[i].id] == list[i]
  {
    var front := list[..|list| - 1];
    if i < |front| {
      IndexedFinds(front, i);
      LessIsStrict(list[i].id, list[|list| - 1].id);
    }
  }

  lemma {:induction false} IndexedHasOnly(list: seq<Device>, id: DeviceId)
    requires id in Indexed(list)
    ensures Indexed(list)[id] in list && Indexed(list)[id].id == id
  {
    var front := list[..|list| - 1];
    if id != list[|list| - 1].id {
      IndexedHasOnly(front, id);
    }
  }

  /** Loading a saved list gives back the devices it was made from. */
  lemma ListingIsLoaded(list: seq<Device>, m: ById)
    requires IsListing(list, m) && Sound(m)
    ensures Indexed(list) == m
    ensures forall d :: d in list ==> Complete(d)
  {
    forall id | id in m ensures id in Indexed(list) && Indexed(list)[id] == m[id] {
      var i :| 0 <= i < |list| && list[i] == m[id];
      IndexedFinds(list, i);
    }
    forall id | id in Indexed(list) ensures id in m {
      IndexedHasOnly(list, id);
    }
  }

  // What the operations do to the memory, when the write ends with or without an error.

  function Added(m: Memory, d: Device, ok: bool): Memory {
    if ok then var byId := m.byId[d.id := d]; Memory(byId, LastSeen(byId)) else m
  }

  function Removed(m: Memory, id: DeviceId, ok: bool): Memory {
    if ok then var byId := m.byId - {id}; Memory(byId, LastSeen(byId)) else m
  }

  predicate Knows(m: ById, t: Token) {
    t.id in m && m[t.id].tokenHash == Sha256Hex(t)
  }

  function SeenNow(m: ById, id: DeviceId, now: Time): ById
    requires id in m
  {
    m[id := m[id].(lastSeenAt := now)]
  }

  predicate DueForDisk(m: Memory, id: DeviceId, now: Time)
    requires id in m.persisted
  {
    now >= m.persisted[id] + LAST_SEEN_EVERY
  }

  function Seen(m: Memory, t: Token, now: Time, ok: bool): Memory
    requires Knows(m.byId, t) && t.id in m.persisted
  {
    var byId := SeenNow(m.byId, t.id, now);
    Memory(byId, if DueForDisk(m, t.id, now) && ok then LastSeen(byId) else m.persisted)
  }

  /** The bookkeeping of what is on disk covers exactly the devices of the list. */
  ghost predicate Kept(m: Memory) {
    Sound(m.byId) && m.persisted.Keys == m.byId.Keys
  }

  // Sorted lists.

  predicate IdBefore(a: Device, b: Device) {
    Less(a.id, b.id)
  }

  predicate OlderThan(a: Device, b: Device) {
    a.createdAt < b.createdAt || (a.createdAt == b.createdAt && Less(a.id, b.id))
  }

  lemma LessIsWeak()
    ensures forall a, b :: Less(a, b) ==> !Less(b, a)
    ensures forall a, b, c :: !Less(b, a) && !Less(c, b) ==> !Less(c, a)
  {
    forall a, b ensures Less(a, b) ==> !Less(b, a) {
      LessIsStrict(a, b);
    }
    forall a, b, c | !Less(b, a) && !Less(c, b) ensures !Less(c, a) {
      LessIsTotal(a, b);
      LessIsTotal(b, c);
      if a != b && b != c {
        LessIsTransitive(a, b, c);
      }
      LessIsStrict(a, c);
      LessIsStrict(c, a);
    }
  }

  lemma OrdersAreWeak()
    ensures Sorting.WeakOrder(IdBefore) && Sorting.WeakOrder(OlderThan)
  {
    LessIsWeak();
  }

  /** Every device once, in whatever order a map is walked through. */
  ghost predicate IsWalk(list: seq<Device>, m: ById) {
    && Sorting.NoDuplicates(list)
    && (forall d :: d in list ==> d.id in m && m[d.id] == d)
    && (forall id :: id in m ==> m[id] in list)
  }

  lemma SortedWalkIsListing(list: seq<Device>, m: ById)
    requires IsWalk(list, m)
    ensures IsListing(Sorting.Sort(IdBefore, list), m)
  {
    OrdersAreWeak();
    var r := Sorting.Sort(IdBefore, list);
    Sorting.SortPutsInOrder(IdBefore, list);
    Sorting.SortNoDuplicates(IdBefore, list);
    forall i, j | 0 <= i < j < |r| ensures Less(r[i].id, r[j].id) {
      assert r[i] in r && r[j] in r;
      LessIsTotal(r[i].id, r[j].id);
      assert !IdBefore(r[j], r[i]);
    }
  }

  /** The list for people: oldest first, and by id where the times are equal. */
  ghost predicate IsOldestFirst(list: seq<Device>, m: ById) {
    && (forall i, j :: 0 <= i < j < |list| ==> OlderThan(list[i], list[j]))
    && (forall d :: d in list ==> d.id in m && m[d.id] == d)
    && (forall id :: id in m ==> m[id] in list)
  }

  lemma SortedWalkIsOldestFirst(list: seq<Device>, m: ById)
    requires IsWalk(list, m)
    ensures IsOldestFirst(Sorting.Sort(OlderThan, list), m)
  {
    OrdersAreWeak();
    var r := Sorting.Sort(OlderThan, list);
    Sorting.SortPutsInOrder(OlderThan, list);
    Sorting.SortNoDuplicates(OlderThan, list);
    forall i, j | 0 <= i < j < |r| ensures OlderThan(r[i], r[j]) {
      assert r[i] in r && r[j] in r;
      LessIsTotal(r[i].id, r[j].id);
      assert !OlderThan(r[j], r[i]);
    }
  }

  lemma SameFirstAndRest(a: seq<Device>, b: seq<Device>)
    requires a != [] && b != [] && a[0] == b[0] && a[1..] == b[1..]
    ensures a == b
  {
    assert a == [a[0]] + a[1..] && b == [b[0]] + b[1..];
  }

  /** There is one such list only. */
  lemma {:induction false} OldestFirstIsUnique(a: seq<Device>, b: seq<Device>, m: ById)
    requires IsOldestFirst(a, m) && IsOldestFirst(b, m) && Sound(m)
    ensures a == b
  {
    if a == [] || b == [] {
      EmptyListEmptyMap(a, m);
      EmptyListEmptyMap(b, m);
    } else {
      hide IsOldestFirst;
      hide Sound;
      FirstIsOldest(a, b, m);
      DropFirst(a, m);
      DropFirst(b, m);
      OldestFirstIsUnique(a[1..], b[1..], m - {a[0].id});
      SameFirstAndRest(a, b);
    }
  }

  lemma EmptyListEmptyMap(a: seq<Device>, m: ById)
    requires IsOldestFirst(a, m)
    ensures a == [] <==> m == map[]
  {
    if a != [] {
      assert a[0] in a;
    }
  }

  lemma FirstIsOldest(a: seq<Device>, b: seq<Device>, m: ById)
    requires IsOldestFirst(a, m) && IsOldestFirst(b, m) && a != [] && b != []
    ensures a[0] == b[0]
  {
    assert a[0] in a && m[a[0].id] in b;
    assert b[0] in b && m[b[0].id] in a;
    LessIsStrict(a[0].id, b[0].id);
  }

  lemma DropFirst(a: seq<Device>, m: ById)
    requires IsOldestFirst(a, m) && Sound(m) && a != []
    ensures IsOldestFirst(a[1..], m - {a[0].id}) && Sound(m - {a[0].id})
  {
    var rest := a[1..];
    forall d | d in rest ensures d.id in m && m[d.id] == d && d.id != a[0].id {
      var i :| 0 <= i < |rest| && rest[i] == d;
      assert OlderThan(a[0], a[i + 1]);
      LessIsStrict(a[0].id, d.id);
      assert d in a && a[0] in a;
    }
    forall id | id in m - {a[0].id} ensures (m - {a[0].id})[id] in rest {
      assert m[id] in a;
      assert a[0] in a && m[a[0].id] == a[0];
      var i :| 0 <= i < |a| && a[i] == m[id];
      assert i > 0 && rest[i - 1] == m[id];
    }
  }

  lemma IndexedIsSound(list: seq<Device>)
    requires forall d :: d in list ==> Complete(d)
    ensures Sound(Indexed(list))
  {
    forall id | id in Indexed(list) ensures Indexed(list)[id].id == id && Complete(Indexed(list)[id]) {
      IndexedHasOnly(list, id);
    }
  }

  lemma LastSeenOne(m: ById, d: Device)
    ensures LastSeen(m[d.id := d]) == LastSeen(m)[d.id := d.lastSeenAt]
  {
  }

  lemma LastSeenIs(m: ById)
    ensures LastSeen(m).Keys == m.Keys && forall id :: id in m ==> LastSeen(m)[id] == m[id].lastSeenAt
  {
  }

  lemma MarkOne(before: map<DeviceId, Time>, m: ById, d: Device)
    ensures before + LastSeen(m[d.id := d]) == (before + LastSeen(m))[d.id := d.lastSeenAt]
  {
  }

  lemma AddedIsKept(m: Memory, d: Device)
    requires Kept(m) && Complete(d) && d.id !in m.byId
    ensures Sound(m.byId[d.id := d]) && Kept(Added(m, d, true))
    ensures m.byId[d.id := d] - {d.id} == m.byId
    ensures m.persisted + LastSeen(m.byId[d.id := d]) == Added(m, d, true).persisted
  {
  }

  lemma RemovedIsKept(m: Memory, id: DeviceId)
    requires Kept(m) && id in m.byId
    ensures Sound(m.byId - {id}) && Kept(Removed(m, id, true))
    ensures (m.byId - {id})[id := m.byId[id]] == m.byId
    ensures (m.persisted + LastSeen(m.byId - {id})) - {id} == Removed(m, id, true).persisted
  {
  }

  lemma SeenIsKept(m: Memory, t: Token, now: Time, ok: bool)
    requires Kept(m) && Knows(m.byId, t)
    ensures Sound(SeenNow(m.byId, t.id, now)) && Kept(Seen(m, t, now, ok))
    ensures m.persisted + LastSeen(SeenNow(m.byId, t.id, now)) == LastSeen(SeenNow(m.byId, t.id, now))
  {
  }

  /** Seen, as the method goes about it. */
  lemma SeenInSteps(m: Memory, t: Token, now: Time, ok: bool)
    requires Kept(m) && Knows(m.byId, t)
    ensures var byId := m.byId[t.id := m.byId[t.id].(lastSeenAt := now)];
            && Sound(byId) && Kept(Seen(m, t, now, ok))
            && Seen(m, t, now, ok) ==
                 Memory(byId, if now >= m.persisted[t.id] + MINUTE && ok then m.persisted + LastSeen(byId) else m.persisted)
  {
    SeenIsKept(m, t, now, ok);
  }

  datatype Removal = Gone(device: Device) | NotFound | NotStored

  class Devices {
    const dir: Dir
    var byId: ById
    var persisted: map<DeviceId, Time>

    function InMemory(): Memory
      reads this
    {
      Memory(byId, persisted)
    }

    ghost predicate Valid()
      reads this, dir
    {
      dir.Valid() && Kept(InMemory())
    }

    constructor (dir: Dir)
      requires dir.Valid()
      ensures Valid() && this.dir == dir && InMemory() == NO_DEVICES
    {
      this.dir := dir;
      byId, persisted := map[], map[];
    }

    /** The devices in some order, as ranging over the map gives them. */
    method Walk() returns (list: seq<Device>)
      requires Sound(byId)
      ensures IsWalk(list, byId)
    {
      list := [];
      var todo := byId.Keys;
      while todo != {}
        invariant todo <= byId.Keys
        invariant Sorting.NoDuplicates(list)
        invariant forall d :: d in list ==> d.id in byId && d.id !in todo && byId[d.id] == d
        invariant forall id :: id in byId && id !in todo ==> byId[id] in list
        decreases todo
      {
        var id :| id in todo;
        assert byId[id] !in list;
        list := list + [byId[id]];
        todo := todo - {id};
      }
    }

    method List() returns (out: seq<Device>)
      requires Valid()
      ensures IsOldestFirst(out, byId)
      ensures forall d :: d in out <==> d.id in byId && byId[d.id] == d
      ensures forall i, j :: 0 <= i < j < |out| ==>
                out[i].createdAt < out[j].createdAt || (out[i].createdAt == out[j].createdAt && Less(out[i].id, out[j].id))
    {
      var list := Walk();
      SortedWalkIsOldestFirst(list, byId);
      out := Sorting.Sort(OlderThan, list);
    }

    method SaveLocked(io: IO) returns (ok: bool, ghost list: seq<Device>)
      requires dir.Valid() && Sound(byId)
      modifies this`persisted, dir
      ensures dir.Valid() && IsListing(list, byId)
      ensures ok <==> io.fault.NoFault?
      ensures dir.disk == Written(old(dir.disk), DEVICES_FILE, DeviceList(list), io)
      ensures persisted == if ok then old(persisted) + LastSeen(byId) else old(persisted)
      ensures ok ==> forall id :: id in byId ==> id in persisted && persisted[id] == byId[id].lastSeenAt
    {
      var walk := Walk();
      SortedWalkIsListing(walk, byId);
      var sorted := Sorting.Sort(IdBefore, walk);
      list := sorted;
      ok := dir.WriteFile(DEVICES_FILE, DeviceList(sorted), io);
      if !ok {
        return;
      }
      MarkPersisted(sorted);
    }

    /** The last loop of saveLocked. */
    method MarkPersisted(list: seq<Device>)
      requires Sound(byId) && IsListing(list, byId)
      modifies this`persisted
      ensures persisted == old(persisted) + LastSeen(byId)
    {
      ghost var before := persisted;
      assert before + LastSeen(map[]) == before;
      hide LastSeen;
      for i := 0 to |list|
        invariant persisted == before + LastSeen(Indexed(list[..i]))
      {
        assert list[..i + 1][..i] == list[..i];
        MarkOne(before, Indexed(list[..i]), list[i]);
        persisted := persisted[list[i].id := list[i].lastSeenAt];
      }
      assert list[..|list|] == list;
      ListingIsLoaded(list, byId);
    }

    /** LoadDevices; null is an error. */
    static method LoadFrom(dir: Dir, unreadable: bool) returns (s: Devices?)
      requires dir.Valid()
      ensures s == null <==> unreadable || Load(Live(dir.disk)).None?
      ensures s != null ==> fresh(s) && s.Valid() && s.dir == dir && s.InMemory() == Load(Live(dir.disk)).value
      // No file is an empty list; anything but a list of complete devices is an error.
      ensures !unreadable && DEVICES_FILE !in Live(dir.disk) ==> s != null && s.byId == map[] && s.persisted == map[]
      ensures !unreadable && DEVICES_FILE in Live(dir.disk) ==>
                (s != null <==>
                   && Live(dir.disk)[DEVICES_FILE].content.DeviceList?
                   && forall d :: d in Live(dir.disk)[DEVICES_FILE].content.devices ==> d.id != "" && (d.role == Full || d.role == ReadOnly))
      ensures s != null && DEVICES_FILE in Live(dir.disk) ==>
                && Live(dir.disk)[DEVICES_FILE].content.DeviceList?
                && s.byId == Indexed(Live(dir.disk)[DEVICES_FILE].content.devices)
                && s.persisted.Keys == s.byId.Keys && forall id :: id in s.byId ==> s.persisted[id] == s.byId[id].lastSeenAt
    {
      if unreadable {
        return null;
      }
      var file := dir.ReadFile(DEVICES_FILE);
      s := new Devices(dir);
      if file.None? {
        return s;
      }
      if !file.value.content.DeviceList? {
        return null;
      }
      var list := file.value.content.devices;
      assert s.InMemory() == Memory(Indexed(list[..0]), LastSeen(Indexed(list[..0])));
      hide LastSeen;
      for i := 0 to |list|
        invariant fresh(s) && s.dir == dir
        invariant forall d :: d in list[..i] ==> Complete(d)
        invariant s.InMemory() == Memory(Indexed(list[..i]), LastSeen(Indexed(list[..i])))
      {
        assert list[..i + 1][..i] == list[..i];
        var d := list[i];
        if !Complete(d) {
          return null;
        }
        LastSeenOne(s.byId, d);
        s.byId := s.byId[d.id := d];
        s.persisted := s.persisted[d.id := d.lastSeenAt];
      }
      assert list[..|list|] == list;
      IndexedIsSound(list);
      LastSeenIs(s.byId);
    }

    /**
     * Add, with the ids that the random source gives; a source that runs dry
     * before an id is free or before the secret is drawn is an error.
     */
    method Add(name: string, role: Role, ids: seq<DeviceId>, secret: Option<nat>, now: Time, io: IO)
      returns (added: Option<(Device, Token)>, ghost list: seq<Device>)
      requires Valid() && "" !in ids
      modifies this, dir
      ensures Valid()
      ensures added.Some? ==>
                && var (d, t) := added.value;
                && (role == Full || role == ReadOnly) && io.fault.NoFault? && t.id in ids && Some(t.secret) == secret
                && d == Device(t.id, name, role, Sha256Hex(t), now, now)
                && t.id !in old(byId) && IsListing(list, old(byId)[t.id := d])
                && InMemory() == Added(old(InMemory()), d, true) && byId == old(byId)[t.id := d]
                && dir.disk == Written(old(dir.disk), DEVICES_FILE, DeviceList(list), io)
      ensures added.None? ==> InMemory() == old(InMemory())
      ensures added.None? && (!role.Valid() || secret.None? || forall id :: id in ids ==> id in old(byId)) ==> dir.disk == old(dir.disk)
      ensures role.Valid() && secret.Some? && io.fault.NoFault? && (exists id :: id in ids && id !in old(byId)) ==> added.Some?
    {
      list := [];
      if !role.Valid() {
        return None, list;
      }
      var i := 0;
      while i < |ids| && ids[i] in byId
        invariant i <= |ids| && forall j :: 0 <= j < i ==> ids[j] in byId
      {
        i := i + 1;
      }
      if i == |ids| || secret.None? {
        return None, list;
      }
      var t := Token(ids[i], secret.value);
      var d := Device(t.id, name, role, Sha256Hex(t), now, now);
      AddedIsKept(InMemory(), d);
      hide Sound;
      hide LastSeen;
      byId := byId[t.id := d];
      var ok;
      ok, list := SaveLocked(io);
      if !ok {
        byId := byId - {t.id};
        return None, list;
      }
      return Some((d, t)), list;
    }

    method Authenticate(t: Token, now: Time, io: IO) returns (device: Option<Device>, ghost list: seq<Device>)
      requires Valid()
      modifies this, dir
      ensures Valid()
      ensures device.Some? <==> t.id in old(byId) && old(byId)[t.id].tokenHash == Sha256Hex(t)
      ensures device.None? ==> InMemory() == old(InMemory()) && dir.disk == old(dir.disk)
      // The device has its last-seen time set, and nothing else of the list changes.
      ensures device.Some? ==>
                && device.value == old(byId)[t.id].(lastSeenAt := now)
                && byId.Keys == old(byId).Keys && byId[t.id] == device.value
                && (forall id :: id in byId && id != t.id ==> byId[id] == old(byId)[id])
                && InMemory() == Seen(old(InMemory()), t, now, io.fault.NoFault?)
      // The list is saved when the time on disk is a minute old, and only then.
      ensures device.Some? ==>
                && t.id in old(persisted)
                && if now < old(persisted)[t.id] + MINUTE then dir.disk == old(dir.disk) && persisted == old(persisted)
                   else
                     && IsListing(list, byId)
                     && dir.disk == Written(old(dir.disk), DEVICES_FILE, DeviceList(list), io)
                     && t.id in persisted && persisted[t.id] == if io.fault.NoFault? then now else old(persisted)[t.id]
    {
      list := [];
      if t.id !in byId || byId[t.id].tokenHash != Sha256Hex(t) {
        return None, list;
      }
      hide LastSeen;
      hide Sound;
      hide IsListing;
      SeenInSteps(InMemory(), t, now, io.fault.NoFault?);
      hide Seen;
      byId := byId[t.id := byId[t.id].(lastSeenAt := now)];
      if now >= persisted[t.id] + LAST_SEEN_EVERY {
        var stored;
        stored, list := SaveLocked(io);
      }
      return Some(byId[t.id]), list;
    }

    method Remove(id: DeviceId, io: IO) returns (r: Removal, ghost list: seq<Device>)
      requires Valid()
      modifies this, dir
      ensures Valid()
      ensures r.NotFound? <==> id !in old(byId)
      ensures r.NotFound? ==> InMemory() == old(InMemory()) && dir.disk == old(dir.disk)
      ensures id in old(byId) ==> r == if io.fault.NoFault? then Gone(old(byId)[id]) else NotStored
      ensures r.NotStored? ==> InMemory() == old(InMemory())
      ensures id in old(byId) ==>
                && InMemory() == Removed(old(InMemory()), id, io.fault.NoFault?)
                && byId == (if io.fault.NoFault? then old(byId) - {id} else old(byId))
                && IsListing(list, old(byId) - {id})
                && dir.disk == Written(old(dir.disk), DEVICES_FILE, DeviceList(list), io)
    {
      list := [];
      if id !in byId {
        return NotFound, list;
      }
      var d := byId[id];
      RemovedIsKept(InMemory(), id);
      hide Sound;
      hide LastSeen;
      byId := byId - {id};
      var ok;
      ok, list := SaveLocked(io);
      if !ok {
        byId := byId[id := d];
        return NotStored, list;
      }
      persisted := persisted - {id};
      return Gone(d), list;
    }
  }
}
