// What a crash leaves of the device list, over every run.
module DurableTheorems {
  import opened Common
  import opened Disks
  import opened StateDir
  import opened DeviceStore
  import opened Durable
  import Runs

  ghost predicate Sane(w: World) {
    Inv(w) && NamesOk(w.disk)
  }

  lemma StartIsSane()
    ensures Sane(START)
  {
    var empty: Folder := map[];
    forall n, file | MayHold(START.disk, n, file) ensures file == None {
      OneFolder(empty, n, file);
    }
  }

  lemma SaneStep(w: World, e: Event, v: World)
    requires Sane(w) && Next(w, e, v)
    ensures Sane(v)
  {
    DiskStep(w, e, v);
    ContentsStep(w, e, v);
    TokensStep(w, e, v);
    NamesStep(w, e, v);
  }

  lemma ReachableSane(w: World)
    requires Reachable(w)
    ensures Sane(w)
  {
    StartIsSane();
    forall w, e, v | Sane(w) && Next(w, e, v)
      ensures Sane(v)
    {
      SaneStep(w, e, v);
    }
    Runs.InvariantHolds(START, Next, Sane, w);
  }

  lemma FoundFileOk(w: World, f: Folder)
    requires DiskOk(w) && MayBeFound(w.disk, f)
    ensures FileOk(w, Lookup(f, DEVICES_FILE))
  {
    if PowerCut(w.disk, f) {
      assert SurvivesAs(w.disk, DEVICES_FILE, Lookup(f, DEVICES_FILE));
    } else {
      LiveMayHold(w.disk, DEVICES_FILE);
    }
  }

  /** A crash at any step leaves a folder of the agent's own files, with the list of the last save or of one begun after it. */
  lemma CrashLeavesAWholeList(w: World, f: Folder)
    requires Reachable(w) && MayBeFound(w.disk, f)
    ensures forall n :: n in f ==> IsOwnName(n)
    ensures Load(f).Some?
    ensures if DEVICES_FILE in f
            then f[DEVICES_FILE].content.DeviceList? && MayBeThere(w, f[DEVICES_FILE].content.devices)
                 && IsListing(f[DEVICES_FILE].content.devices, Load(f).value.byId)
            else w.last == None && Load(f).value == NO_DEVICES
  {
    ReachableSane(w);
    FoundFileOk(w, f);
    if PowerCut(w.disk, f) {
      PowerCutNamesOk(w.disk, f);
    } else {
      forall n | n in f ensures IsOwnName(n) {
        LiveMayHold(w.disk, n);
      }
    }
    if DEVICES_FILE in f {
      assert ListOk(w, f[DEVICES_FILE].content.devices);
    }
  }

  /** So the next start takes the folder, as long as it is still private and nobody else has put anything there. */
  lemma CrashLeavesAFolderToTake(w: World, f: Folder, p: Place, user: nat)
    requires Reachable(w) && MayBeFound(w.disk, f)
    requires p.FolderAt? && p.owner == user && !p.othersCanWrite
    requires forall e :: e in p.entries ==> e.name in f || IsLostAndFound(e)
    ensures MayTake(p, user)
  {
    CrashLeavesAWholeList(w, f);
  }

  /** A device whose Add succeeded is in every list a crash may leave, until Remove is called on it. */
  lemma AddedSurvives(w: World, f: Folder, t: Token)
    requires Reachable(w) && MayBeFound(w.disk, f) && t in w.kept
    ensures Load(f).Some? && Knows(Load(f).value.byId, t)
    ensures w.memory.Some? ==> Knows(w.memory.value.byId, t)
  {
    ReachableSane(w);
    FoundFileOk(w, f);
    if DEVICES_FILE in f {
      assert ListOk(w, f[DEVICES_FILE].content.devices);
    }
  }

  /**
   * Every device in memory, and in every list a crash may leave, has the name,
   * the role, the hash and the time that its Add gave it.
   */
  lemma DevicesAreAsAdded(w: World, f: Folder, id: DeviceId)
    requires Reachable(w) && MayBeFound(w.disk, f)
    ensures Load(f).Some?
    ensures id in Load(f).value.byId ==>
              var d := Load(f).value.byId[id];
              && d.tokenHash.token in w.issued
              && var given := w.issued[d.tokenHash.token];
                 d.id == id == given.id && d.name == given.name && d.role == given.role && d.createdAt == given.createdAt
                 && d.tokenHash == given.tokenHash
    ensures w.memory.Some? && id in w.memory.value.byId ==>
              var d := w.memory.value.byId[id];
              && d.tokenHash.token in w.issued
              && var given := w.issued[d.tokenHash.token];
                 d.id == id == given.id && d.name == given.name && d.role == given.role && d.createdAt == given.createdAt
                 && d.tokenHash == given.tokenHash
  {
    ReachableSane(w);
    FoundFileOk(w, f);
    if DEVICES_FILE in f {
      assert ListOk(w, f[DEVICES_FILE].content.devices);
      assert id in Load(f).value.byId ==> DeviceOk(w, id, Load(f).value.byId[id]);
    }
    assert w.memory.Some? && id in w.memory.value.byId ==> DeviceOk(w, id, w.memory.value.byId[id]);
  }

  /** So a paired device keeps what it was given, under its own token. */
  lemma KeptIsAsAdded(w: World, f: Folder, t: Token)
    requires Reachable(w) && MayBeFound(w.disk, f) && t in w.kept
    ensures t in w.issued && Load(f).Some? && t.id in Load(f).value.byId
    ensures Load(f).value.byId[t.id] == w.issued[t].(lastSeenAt := Load(f).value.byId[t.id].lastSeenAt)
    ensures w.memory.Some? ==>
              t.id in w.memory.value.byId
              && w.memory.value.byId[t.id] == w.issued[t].(lastSeenAt := w.memory.value.byId[t.id].lastSeenAt)
  {
    AddedSurvives(w, f, t);
    DevicesAreAsAdded(w, f, t.id);
    hide Reachable;
    hide Load;
    hide MayBeFound;
  }

  /** A device whose Remove succeeded is in no list a crash may leave, and never in the memory again. */
  lemma RemovedStaysGone(w: World, f: Folder, t: Token)
    requires Reachable(w) && MayBeFound(w.disk, f) && t in w.gone
    ensures Load(f).Some? && !Knows(Load(f).value.byId, t)
    ensures w.memory.Some? ==> !Knows(w.memory.value.byId, t)
  {
    ReachableSane(w);
    CrashLeavesAWholeList(w, f);
    FoundFileOk(w, f);
    if DEVICES_FILE in f {
      assert ListOk(w, f[DEVICES_FILE].content.devices);
    }
  }

  /** What a save without an error leaves: the list is the one of the memory, and the only one that may be found. */
  lemma SavedWell(w: World, e: Event, v: World)
    requires Next(w, e, v) && (e.Add? || e.Remove? || (e.Authenticate? && DueForDisk(w.memory.value, e.token.id, e.now)))
    requires e.save.Succeeds()
    ensures v.memory.Some? && v.memory.value == Memory(v.memory.value.byId, LastSeen(v.memory.value.byId))
    ensures IsListing(e.save.list, v.memory.value.byId) && v.last == Some(e.save.list) && v.attempted == {}
  {
    hide SavedDisk;
    hide IsListing;
    hide LastSeen;
  }

  lemma OnlyListLoads(v: World, list: Listing, f: Folder)
    requires FileOk(v, Lookup(f, DEVICES_FILE)) && v.last == Some(list) && v.attempted == {}
    requires forall d :: d in list ==> Complete(d)
    ensures Load(f) == Some(Memory(Indexed(list), LastSeen(Indexed(list))))
  {
    hide LastSeen;
    hide Indexed;
  }

  /** After a save without an error every folder that may be found holds exactly the list in memory, as it is there. */
  lemma SuccessIsOnDisk(w: World, e: Event, v: World, f: Folder)
    requires Reachable(w) && Next(w, e, v) && MayBeFound(v.disk, f)
    requires (e.Add? || e.Remove? || (e.Authenticate? && DueForDisk(w.memory.value, e.token.id, e.now))) && e.save.Succeeds()
    ensures v.memory.Some? && Load(f) == Some(Memory(v.memory.value.byId, v.memory.value.persisted))
  {
    ReachableSane(w);
    SaneStep(w, e, v);
    SavedWell(w, e, v);
    hide Next;
    hide Reachable;
    hide Load;
    FoundFileOk(v, f);
    ListingIsLoaded(e.save.list, v.memory.value.byId);
    OnlyListLoads(v, e.save.list, f);
  }

  /** The bookkeeping of what is saved covers exactly the devices in memory, through every success and failure. */
  lemma PersistedCovers(w: World)
    requires Reachable(w) && w.memory.Some?
    ensures w.memory.value.persisted.Keys == w.memory.value.byId.Keys
  {
    ReachableSane(w);
  }

  /** Two saves that the requests of one device cause are at least a minute apart, across restarts too. */
  lemma SavesAMinuteApart(w: World, t: Token, now: Time, save: Save, v: World)
    requires Reachable(w) && Next(w, Authenticate(t, now, save), v)
    requires t in w.writes && DueForDisk(w.memory.value, t.id, now)
    ensures now - w.writes[t] >= LAST_SEEN_EVERY
  {
    ReachableSane(w);
    assert MemOk(w, w.memory.value);
  }
}
