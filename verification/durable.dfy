// The device list over every run of the agent, with write errors, kills and
// power cuts at any step (agent/internal/state/devices.go and dir.go).
module Durable {
  import opened Common
  import opened Disks
  import opened StateDir
  import opened DeviceStore
  import Runs

  type Listing = seq<Device>

  /**
   * last is the list of the last save that reported no error, None before the
   * first; attempted are the lists of the saves begun after it. issued are the
   * tokens ever drawn, each with the device Add made for it; kept those whose Add succeeded and for whose device
   * Remove was not called since; gone those whose device was removed without
   * an error. writes is when Authenticate last saved, by token.
   */
  datatype World = World(
    disk: Disk, memory: Option<Memory>, clock: Time,
    last: Option<Listing>, attempted: set<Listing>,
    issued: map<Token, Device>, kept: set<Token>, gone: set<Token>, writes: map<Token, Time>)

  const START := World(Disk([map[]]), Some(NO_DEVICES), 0, None, {}, map[], {}, {}, map[])

  /** How a save goes: the list it encodes, the write, and after how many steps the agent is killed, if it is. */
  datatype Save = Save(list: Listing, io: IO, killedAt: Option<nat>)
  {
    predicate Succeeds() {
      killedAt.None? && io.fault.NoFault?
    }
  }

  datatype Event =
    | Add(token: Token, device: Device, save: Save)
    | Remove(id: DeviceId, save: Save)
    | Authenticate(token: Token, now: Time, save: Save)
    | OtherWrite(name: Name, content: Content, io: IO, k: nat)
    | Kill
    | PowerLoss(folder: Folder)
    | Restart

  function SavedDisk(d: Disk, save: Save): (e: Disk)
    requires IsDisk(d)
    ensures IsDisk(e)
  {
    match save.killedAt
    case None => Written(d, DEVICES_FILE, DeviceList(save.list), save.io)
    case Some(k) => WriteUntil(d, DEVICES_FILE, DeviceList(save.list), save.io, k)
  }

  /** A save changes the disk and what may be found on it; a kill takes the memory with it. */
  function AfterSave(w: World, save: Save, memory: Memory): World
    requires IsDisk(w.disk)
  {
    w.(disk := SavedDisk(w.disk, save),
       memory := if save.killedAt.None? then Some(memory) else None,
       last := if save.Succeeds() then Some(save.list) else w.last,
       attempted := if save.Succeeds() then {} else w.attempted + {save.list})
  }

  ghost predicate SaveOk(m: ById, save: Save) {
    IsListing(save.list, m) && TempOk(DEVICES_FILE, save.io)
  }

  /** Add draws an id that is not taken and a secret that was never drawn. */
  ghost predicate NewDevice(w: World, m: Memory, t: Token, d: Device) {
    && t !in w.issued && t.id !in m.byId && t.id != ""
    && d.id == t.id && d.role.Valid() && d.tokenHash == Sha256Hex(t)
    && w.clock <= d.createdAt == d.lastSeenAt
  }

  ghost predicate Next(w: World, e: Event, v: World) {
    && IsDisk(w.disk)
    && match e
       case Add(t, d, save) =>
         && w.memory.Some? && NewDevice(w, w.memory.value, t, d)
         && SaveOk(w.memory.value.byId[d.id := d], save)
         && v == AfterSave(w, save, Added(w.memory.value, d, save.Succeeds())).(
                   clock := d.createdAt, issued := w.issued[t := d],
                   kept := if save.Succeeds() then w.kept + {t} else w.kept)
       case Remove(id, save) =>
         && w.memory.Some? && id in w.memory.value.byId
         && SaveOk(w.memory.value.byId - {id}, save)
         && var t := w.memory.value.byId[id].tokenHash.token;
            v == AfterSave(w, save, Removed(w.memory.value, id, save.Succeeds())).(
                   kept := w.kept - {t}, gone := if save.Succeeds() then w.gone + {t} else w.gone)
       case Authenticate(t, now, save) =>
         && w.memory.Some? && w.clock <= now
         && var m := w.memory.value;
            Knows(m.byId, t) && t.id in m.persisted &&
            if DueForDisk(m, t.id, now) then
              && SaveOk(SeenNow(m.byId, t.id, now), save)
              && v == AfterSave(w, save, Seen(m, t, now, save.Succeeds())).(
                        clock := now, writes := if save.Succeeds() then w.writes[t := now] else w.writes)
            else
              v == w.(memory := Some(Seen(m, t, now, false)), clock := now)
       case OtherWrite(name, content, io, k) =>
         && name in OWN_FILES - {DEVICES_FILE} && TempOk(name, io)
         && v == w.(disk := WriteUntil(w.disk, name, content, io, k))
       case Kill => v == w.(memory := None)
       case PowerLoss(f) => PowerCut(w.disk, f) && v == w.(disk := Disk([f]), memory := None)
       case Restart => w.memory.None? && Load(Live(w.disk)).Some? && v == w.(memory := Load(Live(w.disk)))
  }

  /** What a run records of a call that ends without an error, and for how long a token counts as kept. */
  lemma WhatARunRecords(w: World, e: Event, v: World, t: Token)
    requires Next(w, e, v)
    ensures e.Add? && e.save.Succeeds() ==> e.token in v.kept && e.token in v.issued && v.issued[e.token] == e.device
    ensures e.Remove? && e.save.Succeeds() ==> w.memory.value.byId[e.id].tokenHash.token in v.gone
    ensures t in w.kept && t !in v.kept ==> e.Remove? && w.memory.value.byId[e.id].tokenHash == Sha256Hex(t)
    ensures t in w.gone ==> t in v.gone
    ensures e.Kill? || e.PowerLoss? ==> v.memory.None?
    ensures (e.Add? || e.Remove?) && e.save.killedAt.Some? ==> v.memory.None?
    ensures t in w.issued ==> t in v.issued && v.issued[t] == w.issued[t]
  {
    hide SavedDisk;
    hide WriteUntil;
    hide Load;
    hide IsListing;
    hide Added;
    hide Removed;
    hide Seen;
  }

  ghost predicate Reachable(w: World) {
    Runs.Reachable(START, Next, w)
  }

  /** A list that may be found on the disk, now or after a power cut. */
  ghost predicate MayBeThere(w: World, list: Listing) {
    w.last == Some(list) || list in w.attempted
  }

  ghost predicate FileOk(w: World, file: Option<File>) {
    match file
    case None => w.last == None
    case Some(f) => f.synced && f.content.DeviceList? && MayBeThere(w, f.content.devices)
  }

  /** Whatever the disk may hold under the name of the device list is the last saved list or a later attempt, whole. */
  ghost predicate DiskOk(w: World) {
    IsDisk(w.disk) && forall file :: MayHold(w.disk, DEVICES_FILE, file) ==> FileOk(w, file)
  }

  lemma SaveDiskOk(w: World, save: Save, memory: Memory)
    requires DiskOk(w) && TempOk(DEVICES_FILE, save.io)
    ensures DiskOk(AfterSave(w, save, memory))
  {
    var v := AfterSave(w, save, memory);
    var content, new_ := DeviceList(save.list), File(DeviceList(save.list), true);
    if save.Succeeds() {
      SuccessIsDurable(w.disk, DEVICES_FILE, content, save.io);
      forall file | MayHold(v.disk, DEVICES_FILE, file) ensures FileOk(v, file) {
        OneFolder((Live(w.disk) - {save.io.temp})[DEVICES_FILE := new_], DEVICES_FILE, file);
      }
    } else {
      TempIsNoOwnFile(DEVICES_FILE, save.io);
      WriteUntilWithin(w.disk, DEVICES_FILE, content, save.io, if save.killedAt.Some? then save.killedAt.value else 0);
      forall file | MayHold(v.disk, DEVICES_FILE, file) ensures FileOk(v, file) {
        WithinMayHold(v.disk, w.disk, save.io.temp, DEVICES_FILE, new_, DEVICES_FILE, file);
        assert file == Some(new_) || FileOk(w, file);
      }
      hide Within;
    }
  }

  /** A write of another file leaves what may be found of the list as it was. */
  lemma OtherFileDiskOk(w: World, name: Name, content: Content, io: IO, e: Disk)
    requires DiskOk(w) && IsDisk(e) && name != DEVICES_FILE && io.temp != DEVICES_FILE
    requires Within(e, w.disk, io.temp, name, File(content, true))
    ensures DiskOk(w.(disk := e))
  {
    hide Within;
    var v := w.(disk := e);
    forall file | MayHold(e, DEVICES_FILE, file) ensures FileOk(v, file) {
      WithinMayHold(e, w.disk, io.temp, name, File(content, true), DEVICES_FILE, file);
      assert FileOk(w, file);
    }
  }

  lemma OtherWriteDiskOk(w: World, name: Name, content: Content, io: IO, k: nat, v: World)
    requires DiskOk(w) && Next(w, OtherWrite(name, content, io, k), v)
    ensures DiskOk(v)
  {
    TempIsNoOwnFile(name, io);
    WriteUntilWithin(w.disk, name, content, io, k);
    hide WriteUntil;
    hide DiskOk;
    hide Within;
    OtherFileDiskOk(w, name, content, io, v.disk);
  }

  lemma PowerLossDiskOk(w: World, f: Folder, v: World)
    requires DiskOk(w) && Next(w, PowerLoss(f), v)
    ensures DiskOk(v)
  {
    assert SurvivesAs(w.disk, DEVICES_FILE, Lookup(f, DEVICES_FILE));
    forall file | MayHold(v.disk, DEVICES_FILE, file) ensures FileOk(v, file) {
      OneFolder(f, DEVICES_FILE, file);
    }
  }

  lemma DiskStep(w: World, e: Event, v: World)
    requires DiskOk(w) && Next(w, e, v)
    ensures DiskOk(v)
  {
    match e
    case Add(t, d, save) => SaveDiskOk(w, save, Added(w.memory.value, d, save.Succeeds()));
    case Remove(id, save) => SaveDiskOk(w, save, Removed(w.memory.value, id, save.Succeeds()));
    case Authenticate(t, now, save) =>
      if DueForDisk(w.memory.value, t.id, now) {
        SaveDiskOk(w, save, Seen(w.memory.value, t, now, save.Succeeds()));
      }
    case OtherWrite(name, content, io, k) => OtherWriteDiskOk(w, name, content, io, k, v);
    case PowerLoss(f) => PowerLossDiskOk(w, f, v);
    case _ =>
  }

  // What is in the lists.

  function WrittenAt(w: World, t: Token): Time {
    if t in w.writes then w.writes[t] else 0
  }

  /** Whatever was drawn before is still known, with the same device. */
  ghost predicate Extends(a: map<Token, Device>, b: map<Token, Device>) {
    forall t :: t in a ==> t in b && b[t] == a[t]
  }

  /**
   * The device's token was handed out for its id and not taken back, the
   * device is as Add made it but for the last-seen time, and what Authenticate
   * saved of that is there.
   */
  predicate DeviceOk(w: World, id: DeviceId, d: Device) {
    var t := d.tokenHash.token;
    && d.id == id && Complete(d) && t.id == id && t in w.issued && t !in w.gone && WrittenAt(w, t) <= d.lastSeenAt
    && d == w.issued[t].(lastSeenAt := d.lastSeenAt)
  }

  ghost predicate MapOk(w: World, m: ById) {
    && (forall id :: id in m ==> DeviceOk(w, id, m[id]))
    && (forall t :: t in w.kept ==> Knows(m, t))
  }

  ghost predicate ListOk(w: World, list: Listing) {
    IsListing(list, Indexed(list)) && MapOk(w, Indexed(list))
  }

  ghost predicate ListsOk(w: World) {
    && (forall list :: MayBeThere(w, list) ==> ListOk(w, list))
    && (w.last == None ==> w.kept == {})
  }

  /** What the memory counts as saved is no older than what was saved. */
  ghost predicate MemOk(w: World, m: Memory) {
    && Kept(m) && MapOk(w, m.byId)
    && forall t :: Knows(m.byId, t) && t.id in m.persisted ==> WrittenAt(w, t) <= m.persisted[t.id]
  }

  ghost predicate MemoryOk(w: World) {
    w.memory.Some? ==> MemOk(w, w.memory.value)
  }

  ghost predicate TokensOk(w: World) {
    w.gone <= w.issued.Keys && forall t :: t in w.writes ==> t in w.issued && w.writes[t] <= w.clock
  }

  ghost predicate Inv(w: World) {
    DiskOk(w) && ListsOk(w) && MemoryOk(w) && TokensOk(w)
  }

  /** A list is as good as the devices it was made from. */
  lemma ListingOk(w: World, list: Listing, m: ById)
    requires IsListing(list, m) && MapOk(w, m)
    ensures ListOk(w, list) && Indexed(list) == m
  {
    ListingIsLoaded(list, m);
  }

  /** Nothing about a device gets worse when tokens are drawn, and when kept ones are given up. */
  lemma MapOkKept(w: World, v: World, m: ById)
    requires MapOk(w, m) && Extends(w.issued, v.issued) && v.gone == w.gone && v.kept <= w.kept && v.writes == w.writes
    ensures MapOk(v, m)
  {
  }

  lemma SavedListsOk(w: World, v: World, save: Save, m: ById)
    requires forall list :: list in w.attempted || w.last == Some(list) ==> save.Succeeds() || ListOk(v, list)
    requires v.last == (if save.Succeeds() then Some(save.list) else w.last)
    requires v.attempted == (if save.Succeeds() then {} else w.attempted + {save.list})
    requires v.last == None ==> v.kept == {}
    requires IsListing(save.list, m) && MapOk(v, m)
    ensures ListsOk(v)
  {
    ListingOk(v, save.list, m);
  }

  lemma AddMapOk(w: World, v: World, m: ById, t: Token, d: Device)
    requires MapOk(w, m) && TokensOk(w) && t !in w.issued && t.id !in m
    requires d.id == t.id && Complete(d) && d.tokenHash == Sha256Hex(t)
    requires v.issued == w.issued[t := d] && v.gone == w.gone && v.kept <= w.kept + {t} && v.writes == w.writes
    ensures MapOk(v, m[d.id := d])
  {
    forall o | o in v.kept ensures Knows(m[d.id := d], o) {
      assert o in w.kept ==> Knows(m, o);
    }
  }

  lemma MapOkStays(w: World, v: World, save: Save)
    requires ListsOk(w) && Extends(w.issued, v.issued)
    requires !save.Succeeds() ==> v.gone == w.gone && v.kept <= w.kept && v.writes == w.writes
    ensures forall list :: list in w.attempted || w.last == Some(list) ==> save.Succeeds() || ListOk(v, list)
  {
    forall list | list in w.attempted || w.last == Some(list) ensures save.Succeeds() || ListOk(v, list) {
      if !save.Succeeds() {
        assert MayBeThere(w, list);
        MapOkKept(w, v, Indexed(list));
      }
    }
  }

  lemma SavedMemOk(w: World, m: ById)
    requires MapOk(w, m)
    ensures MemOk(w, Memory(m, LastSeen(m)))
  {
  }

  lemma MemOkKept(w: World, v: World, m: Memory)
    requires MemOk(w, m) && Extends(w.issued, v.issued) && v.gone == w.gone && v.kept <= w.kept && v.writes == w.writes
    ensures MemOk(v, m)
  {
    MapOkKept(w, v, m.byId);
  }

  lemma AddStep(w: World, t: Token, d: Device, save: Save, v: World)
    requires Inv(w) && Next(w, Add(t, d, save), v)
    ensures ListsOk(v) && MemoryOk(v)
  {
    var m := w.memory.value.byId;
    AddMapOk(w, v, m, t, d);
    MapOkStays(w, v, save);
    if save.Succeeds() {
      SavedMemOk(v, m[d.id := d]);
    } else {
      MemOkKept(w, v, w.memory.value);
    }
    hide MapOk;
    hide MemOk;
    hide ListOk;
    SavedListsOk(w, v, save, m[d.id := d]);
  }

  lemma RemoveMapOk(w: World, v: World, m: ById, id: DeviceId)
    requires MapOk(w, m) && id in m
    requires v.issued == w.issued && v.kept == w.kept - {m[id].tokenHash.token} && v.writes == w.writes
    requires w.gone <= v.gone <= w.gone + {m[id].tokenHash.token}
    ensures MapOk(v, m - {id})
  {
    forall o | o in v.kept ensures Knows(m - {id}, o) {
      assert Knows(m, o);
    }
  }

  lemma RemoveStep(w: World, id: DeviceId, save: Save, v: World)
    requires Inv(w) && Next(w, Remove(id, save), v)
    ensures ListsOk(v) && MemoryOk(v)
  {
    var m := w.memory.value.byId;
    RemoveMapOk(w, v, m, id);
    MapOkStays(w, v, save);
    if save.Succeeds() {
      SavedMemOk(v, m - {id});
    } else {
      MemOkKept(w, v, w.memory.value);
    }
    hide MapOk;
    hide MemOk;
    hide ListOk;
    SavedListsOk(w, v, save, m - {id});
  }

  lemma SeenMapOk(w: World, v: World, m: ById, t: Token, now: Time)
    requires MapOk(w, m) && TokensOk(w) && Knows(m, t) && w.clock <= now
    requires v.issued == w.issued && v.gone == w.gone && v.kept == w.kept
    requires v.writes == w.writes || v.writes == w.writes[t := now]
    ensures MapOk(v, SeenNow(m, t.id, now))
  {
    var u := SeenNow(m, t.id, now);
    forall o | o in v.kept ensures Knows(u, o) {
      assert Knows(m, o);
    }
    forall id | id in u ensures DeviceOk(v, id, u[id]) {
      assert DeviceOk(w, id, m[id]);
    }
  }

  lemma SeenKeeps(m: ById, t: Token, now: Time, o: Token)
    requires Knows(m, t)
    ensures Knows(SeenNow(m, t.id, now), o) <==> Knows(m, o)
  {
  }

  lemma SeenIsSound(m: ById, t: Token, now: Time)
    requires Knows(m, t) && Sound(m)
    ensures Sound(SeenNow(m, t.id, now)) && SeenNow(m, t.id, now).Keys == m.Keys
  {
  }

  lemma UnsavedSeenMemOk(w: World, v: World, m: Memory, t: Token, now: Time)
    requires MemOk(w, m) && TokensOk(w) && Knows(m.byId, t) && w.clock <= now
    requires v.issued == w.issued && v.gone == w.gone && v.kept == w.kept && v.writes == w.writes
    ensures MemOk(v, Memory(SeenNow(m.byId, t.id, now), m.persisted))
  {
    SeenMapOk(w, v, m.byId, t, now);
    SeenIsSound(m.byId, t, now);
    hide MapOk;
    hide Sound;
    var u := SeenNow(m.byId, t.id, now);
    forall o | Knows(u, o) && o.id in m.persisted ensures WrittenAt(v, o) <= m.persisted[o.id] {
      SeenKeeps(m.byId, t, now, o);
      hide Knows;
      hide SeenNow;
    }
  }

  lemma SeenMemOk(w: World, v: World, m: Memory, t: Token, now: Time, ok: bool)
    requires MemOk(w, m) && TokensOk(w) && Knows(m.byId, t) && w.clock <= now
    requires v.issued == w.issued && v.gone == w.gone && v.kept == w.kept
    requires v.writes == if DueForDisk(m, t.id, now) && ok then w.writes[t := now] else w.writes
    ensures MemOk(v, Seen(m, t, now, ok)) && MapOk(v, SeenNow(m.byId, t.id, now))
  {
    SeenMapOk(w, v, m.byId, t, now);
    if DueForDisk(m, t.id, now) && ok {
      SavedMemOk(v, SeenNow(m.byId, t.id, now));
    } else {
      UnsavedSeenMemOk(w, v, m, t, now);
    }
  }

  /** Nothing is saved and no token changes hands. */
  ghost predicate Quiet(w: World, v: World) {
    && v.last == w.last && v.attempted == w.attempted && v.issued == w.issued && v.kept == w.kept && v.gone == w.gone
    && v.writes == w.writes && w.clock <= v.clock
  }

  lemma QuietListsOk(w: World, v: World)
    requires ListsOk(w) && TokensOk(w) && Quiet(w, v)
    ensures ListsOk(v) && TokensOk(v)
  {
    forall list | MayBeThere(v, list) ensures ListOk(v, list) {
      assert MayBeThere(w, list);
      MapOkKept(w, v, Indexed(list));
    }
  }

  /** A request that is not saved. */
  lemma UnsavedStep(w: World, m: Memory, t: Token, now: Time, v: World)
    requires Inv(w) && w.memory == Some(m) && Knows(m.byId, t) && t.id in m.persisted && w.clock <= now
    requires v == w.(memory := Some(Seen(m, t, now, false)), clock := now)
    ensures ListsOk(v) && MemoryOk(v)
  {
    SeenMemOk(w, v, m, t, now, false);
    QuietListsOk(w, v);
    hide MapOk;
    hide MemOk;
    hide ListsOk;
    hide DiskOk;
  }

  lemma SavedStep(w: World, m: Memory, t: Token, now: Time, save: Save, v: World)
    requires Inv(w) && w.memory == Some(m) && Knows(m.byId, t) && t.id in m.persisted && w.clock <= now
    requires DueForDisk(m, t.id, now) && SaveOk(SeenNow(m.byId, t.id, now), save)
    requires v == AfterSave(w, save, Seen(m, t, now, save.Succeeds())).(
               clock := now, writes := if save.Succeeds() then w.writes[t := now] else w.writes)
    ensures ListsOk(v) && MemoryOk(v)
  {
    hide MapOk;
    hide MemOk;
    hide ListOk;
    hide DiskOk;
    SeenMemOk(w, v, m, t, now, save.Succeeds());
    MapOkStays(w, v, save);
    SavedListsOk(w, v, save, SeenNow(m.byId, t.id, now));
  }

  lemma AuthenticateStep(w: World, t: Token, now: Time, save: Save, v: World)
    requires Inv(w) && Next(w, Authenticate(t, now, save), v)
    ensures ListsOk(v) && MemoryOk(v)
  {
    var m := w.memory.value;
    hide Inv;
    hide ListsOk;
    hide MemoryOk;
    hide Seen;
    hide AfterSave;
    if DueForDisk(m, t.id, now) {
      SavedStep(w, m, t, now, save, v);
    } else {
      UnsavedStep(w, m, t, now, v);
    }
  }

  lemma RestartStep(w: World, v: World)
    requires Inv(w) && Next(w, Restart, v)
    ensures MemoryOk(v) && ListsOk(v)
  {
    var file := Lookup(Live(w.disk), DEVICES_FILE);
    LiveMayHold(w.disk, DEVICES_FILE);
    assert FileOk(w, file);
    if file.Some? {
      var list := file.value.content.devices;
      assert ListOk(w, list);
      SavedMemOk(w, Indexed(list));
    } else {
      SavedMemOk(w, map[]);
      assert LastSeen(map[]) == map[];
    }
    QuietListsOk(w, v);
  }

  lemma ContentsStep(w: World, e: Event, v: World)
    requires Inv(w) && Next(w, e, v)
    ensures ListsOk(v) && MemoryOk(v)
  {
    match e
    case Add(t, d, save) => AddStep(w, t, d, save, v);
    case Remove(id, save) => RemoveStep(w, id, save, v);
    case Authenticate(t, now, save) => AuthenticateStep(w, t, now, save, v);
    case Restart => RestartStep(w, v);
    case _ =>
      QuietListsOk(w, v);
      if w.memory.Some? {
        MemOkKept(w, v, w.memory.value);
      }
  }

  /** A step that keeps the clock, gives up tokens that were handed out only, and notes saves of such. */
  lemma TokensStay(w: World, v: World)
    requires TokensOk(w) && Extends(w.issued, v.issued) && w.clock <= v.clock && v.gone <= v.issued.Keys
    requires forall t :: t in v.writes ==> (t in w.writes && v.writes[t] == w.writes[t]) || (t in w.issued && v.writes[t] <= v.clock)
    ensures TokensOk(v)
  {
  }

  lemma ListedIsDrawn(w: World, id: DeviceId)
    requires Inv(w)
    ensures TokensOk(w)
    ensures w.memory.Some? && id in w.memory.value.byId ==> w.memory.value.byId[id].tokenHash.token in w.issued
  {
    if w.memory.Some? && id in w.memory.value.byId {
      assert DeviceOk(w, id, w.memory.value.byId[id]);
    }
  }

  lemma TokensStep(w: World, e: Event, v: World)
    requires Inv(w) && Next(w, e, v)
    ensures TokensOk(v)
  {
    hide Inv;
    hide Added;
    hide Removed;
    hide Seen;
    hide SavedDisk;
    hide IsListing;
    hide PowerCut;
    hide Load;
    hide WriteUntil;
    hide SeenNow;
    ListedIsDrawn(w, if e.Remove? then e.id else if e.Authenticate? then e.token.id else "");
    TokensStay(w, v);
  }

  // The names in the folder.

  /** Every name the folder may hold is the agent's own. */
  ghost predicate NamesOk(d: Disk) {
    IsDisk(d) && forall n, file :: MayHold(d, n, Some(file)) ==> IsOwnName(n)
  }

  lemma WriteNamesOk(d: Disk, name: Name, content: Content, io: IO, e: Disk)
    requires NamesOk(d) && name in OWN_FILES && TempOk(name, io) && IsDisk(e)
    requires Within(e, d, io.temp, name, File(content, true))
    ensures NamesOk(e)
  {
    forall n, file | MayHold(e, n, Some(file)) ensures IsOwnName(n) {
      if n != io.temp {
        WithinMayHold(e, d, io.temp, name, File(content, true), n, Some(file));
      }
    }
  }

  lemma SaveNamesOk(d: Disk, save: Save)
    requires NamesOk(d) && TempOk(DEVICES_FILE, save.io)
    ensures NamesOk(SavedDisk(d, save))
  {
    var content := DeviceList(save.list);
    TempIsNoOwnFile(DEVICES_FILE, save.io);
    WriteUntilWithin(d, DEVICES_FILE, content, save.io, if save.killedAt.Some? then save.killedAt.value else 0);
    WriteNamesOk(d, DEVICES_FILE, content, save.io, SavedDisk(d, save));
  }

  lemma NamesStep(w: World, e: Event, v: World)
    requires NamesOk(w.disk) && Next(w, e, v)
    ensures NamesOk(v.disk)
  {
    match e
    case Add(_, _, save) => SaveNamesOk(w.disk, save);
    case Remove(_, save) => SaveNamesOk(w.disk, save);
    case Authenticate(t, now, save) =>
      if DueForDisk(w.memory.value, t.id, now) {
        SaveNamesOk(w.disk, save);
      }
    case OtherWrite(name, content, io, k) =>
      TempIsNoOwnFile(name, io);
      WriteUntilWithin(w.disk, name, content, io, k);
      WriteNamesOk(w.disk, name, content, io, v.disk);
    case PowerLoss(f) => PowerCutNamesOk(w.disk, f);
    case _ =>
  }

  lemma PowerCutNamesOk(d: Disk, f: Folder)
    requires NamesOk(d) && PowerCut(d, f)
    ensures forall n :: n in f ==> IsOwnName(n)
    ensures NamesOk(Disk([f]))
  {
    forall n | n in f ensures IsOwnName(n) {
      assert SurvivesAs(d, n, Lookup(f, n));
    }
    forall n, file | MayHold(Disk([f]), n, Some(file)) ensures IsOwnName(n) {
      OneFolder(f, n, Some(file));
    }
  }
}
