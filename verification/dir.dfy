// The state folder (agent/internal/state/dir.go).
module StateDir {
  import opened Common
  import opened Disks

  const DEVICES_FILE: Name := "devices.json"
  const KEY_FILE: Name := "tls.key"
  const CERT_FILE: Name := "tls.crt"
  const SOCKET_NAME: Name := "admin.sock"
  const LOCK_NAME: Name := "agent.lock"
  const PROBE_PREFIX: Name := "probe."

  const OWN_FILES: set<Name> := {DEVICES_FILE, KEY_FILE, CERT_FILE, SOCKET_NAME, LOCK_NAME}

  datatype DirEntry = DirEntry(name: Name, isDir: bool)

  predicate IsLostAndFound(e: DirEntry) {
    e.name == "lost+found" && e.isDir
  }

  predicate Begins(name: Name, prefix: Name) {
    |name| > |prefix| && prefix <= name
  }

  function TempPrefix(name: Name): Name {
    "." + name + "."
  }

  predicate IsOwnName(name: Name) {
    || name in OWN_FILES
    || (exists own :: own in OWN_FILES && Begins(name, TempPrefix(own)))
    || Begins(name, PROBE_PREFIX)
  }

  predicate IsOwn(e: DirEntry) {
    IsLostAndFound(e) || IsOwnName(e.name)
  }

  /** The name that CreateTemp draws. */
  predicate TempOk(name: Name, io: IO) {
    Begins(io.temp, TempPrefix(name))
  }

  /** The names that are the agent's own: its five files, what CreateTemp makes of their names, and probes; nothing else. */
  lemma OwnNamesAre(name: Name)
    ensures IsOwnName(name) <==>
              || name in ["devices.json", "tls.key", "tls.crt", "admin.sock", "agent.lock"]
              || (exists own, rest ::
                    own in ["devices.json", "tls.key", "tls.crt", "admin.sock", "agent.lock"] && rest != "" && name == "." + own + "." + rest)
              || (exists rest :: rest != "" && name == "probe." + rest)
  {
    forall own | own in OWN_FILES && Begins(name, TempPrefix(own))
      ensures exists rest :: rest != "" && name == "." + own + "." + rest
    {
      assert name == "." + own + "." + name[|own| + 2..];
    }
    if Begins(name, PROBE_PREFIX) {
      assert name == "probe." + name[6..];
    }
    forall own, rest | own in OWN_FILES && rest != "" && name == "." + own + "." + rest
      ensures Begins(name, TempPrefix(own))
    {
      assert TempPrefix(own) <= name;
    }
  }

  /** A temporary file never has the name of one of the agent's files. */
  lemma TempIsNoOwnFile(name: Name, io: IO)
    requires TempOk(name, io)
    ensures io.temp !in OWN_FILES
  {
    assert io.temp[0] == TempPrefix(name)[0] == '.';
  }

  // Open.

  /** What is at the path before Open; the entries are in the order in which they are read. */
  datatype Place =
    | Nothing
    | NoFolder
    | FolderAt(owner: nat, othersCanWrite: bool, isPrivate: bool, entries: seq<DirEntry>)

  /**
   * What fails on the way, and what others put into the folder between the two
   * looks: closeFails is the chmod that closes a folder others can write to,
   * chmodFails the one that every folder is given at the end.
   */
  datatype Luck = Luck(
    parentFails: bool, mkdirFails: bool, readFails: bool, closeFails: bool, readAgainFails: bool, chmodFails: bool,
    probeFails: bool, slippedIn: seq<DirEntry>)

  predicate OnlyLostAndFound(entries: seq<DirEntry>) {
    forall e :: e in entries ==> IsLostAndFound(e)
  }

  /** checkExisting and sameUser. */
  predicate MayTake(p: Place, user: nat) {
    && p.FolderAt? && p.owner == user
    && if p.othersCanWrite then OnlyLostAndFound(p.entries) else forall e :: e in p.entries ==> IsOwn(e)
  }

  /** What others put into the folder before it was closed. */
  function SlippedIn(p: Place, luck: Luck): seq<DirEntry>
    requires p.FolderAt?
  {
    if p.othersCanWrite then luck.slippedIn else []
  }

  /** The folder as the agent has it once it is taken: new and empty, or with all that was in it. */
  function Taken(p: Place, user: nat, luck: Luck): Place
    requires !p.NoFolder?
  {
    if p.Nothing? then FolderAt(user, false, true, []) else FolderAt(p.owner, false, true, p.entries + SlippedIn(p, luck))
  }

  /** All that has to go well for what is there to be taken. */
  predicate GoesWell(p: Place, luck: Luck) {
    && !luck.parentFails && !luck.chmodFails && !luck.probeFails
    && (p.Nothing? ==> !luck.mkdirFails)
    && (p.FolderAt? ==> !luck.readFails)
    && (p.FolderAt? && p.othersCanWrite ==> !luck.closeFails && !luck.readAgainFails)
  }

  /** firstEntry: the loop over the entries that looks for one that is in the way. */
  method FirstEntry(entries: seq<DirEntry>) returns (found: Option<DirEntry>)
    ensures found.None? <==> forall e :: e in entries ==> e.name == "lost+found" && e.isDir
    ensures found.Some? ==> found.value in entries && !(found.value.name == "lost+found" && found.value.isDir)
  {
    for i := 0 to |entries|
      invariant OnlyLostAndFound(entries[..i])
    {
      if !IsLostAndFound(entries[i]) {
        return Some(entries[i]);
      }
    }
    assert entries[..|entries|] == entries;
    return None;
  }

  method CheckExisting(p: Place, user: nat, readFails: bool) returns (ok: bool)
    requires !p.Nothing?
    ensures ok <==> MayTake(p, user) && !readFails
    ensures ok ==> p.FolderAt? && p.owner == user
    ensures p.FolderAt? && p.owner == user && !readFails ==>
              (ok <==>
                 forall e :: e in p.entries ==>
                   (e.name == "lost+found" && e.isDir) || (!p.othersCanWrite && IsOwnName(e.name)))
  {
    if !p.FolderAt? || p.owner != user || readFails {
      return false;
    }
    if p.othersCanWrite {
      var first := FirstEntry(p.entries);
      return first.None?;
    }
    for i := 0 to |p.entries|
      invariant forall e :: e in p.entries[..i] ==> IsOwn(e)
    {
      if !IsOwn(p.entries[i]) {
        return false;
      }
    }
    assert p.entries[..|p.entries|] == p.entries;
    return true;
  }

  /**
   * Open: what is at the path afterwards, and whether it was taken. It is taken
   * exactly when nothing goes wrong and there is nothing there, or a folder
   * that may be taken into which nobody put anything before it was closed. What
   * was refused is as it was, but that a folder that could be taken at the
   * first look may have been made private, and one that was missing made.
   */
  method Open(p: Place, user: nat, luck: Luck) returns (after: Place, ok: bool)
    ensures ok <==> GoesWell(p, luck) && (p.Nothing? || (MayTake(p, user) && OnlyLostAndFound(SlippedIn(p, luck))))
    ensures ok ==> after == Taken(p, user, luck) && forall e :: e in after.entries ==> IsOwn(e)
    ensures ok && p.FolderAt? && p.othersCanWrite ==> OnlyLostAndFound(after.entries)
    // The same, place by place.
    ensures p.NoFolder? ==> !ok
    ensures p.Nothing? ==> (ok <==> !luck.parentFails && !luck.mkdirFails && !luck.chmodFails && !luck.probeFails)
    ensures p.FolderAt? && !p.othersCanWrite ==>
              (ok <==>
                 && !luck.parentFails && !luck.readFails && !luck.chmodFails && !luck.probeFails && p.owner == user
                 && forall e :: e in p.entries ==> (e.name == "lost+found" && e.isDir) || IsOwnName(e.name))
    ensures p.FolderAt? && p.othersCanWrite ==>
              (ok <==>
                 && !luck.parentFails && !luck.readFails && !luck.closeFails && !luck.readAgainFails && !luck.chmodFails && !luck.probeFails
                 && p.owner == user && forall e :: e in p.entries || e in luck.slippedIn ==> e.name == "lost+found" && e.isDir)
    ensures ok ==>
              && after.FolderAt? && after.owner == user && after.isPrivate && !after.othersCanWrite
              && after.entries == if p.Nothing? then [] else if p.othersCanWrite then p.entries + luck.slippedIn else p.entries
    ensures !ok ==>
              || after == p
              || (p.Nothing? && after == Taken(p, user, luck))
              || (MayTake(p, user) && after == Taken(p, user, luck))
              || (MayTake(p, user) && after == p.(entries := p.entries + SlippedIn(p, luck)))
  {
    after := p;
    if luck.parentFails {
      return after, false;
    }
    if p.Nothing? {
      if luck.mkdirFails {
        return after, false;
      }
      after := FolderAt(user, false, true, []);
    } else {
      var mine := CheckExisting(p, user, luck.readFails);
      if !mine {
        return after, false;
      }
      after := p.(entries := p.entries + SlippedIn(p, luck));
      if p.othersCanWrite {
        if luck.closeFails {
          return after, false;
        }
        after := after.(othersCanWrite := false, isPrivate := true);
        if luck.readAgainFails {
          return after, false;
        }
        var first := FirstEntry(after.entries);
        if first.Some? {
          return after, false;
        }
      }
    }
    if luck.chmodFails {
      return after, false;
    }
    after := after.(isPrivate := true);
    return after, !luck.probeFails;
  }

  /** The state folder, open; trace is every state the disk went through. */
  class Dir {
    var disk: Disk
    ghost var trace: seq<Disk>

    ghost predicate Valid()
      reads this
    {
      IsDisk(disk)
    }

    constructor (f: Folder)
      ensures Valid() && disk == Disk([f]) && trace == []
    {
      disk, trace := Disk([f]), [];
    }

    function ReadFile(name: Name): Option<File>
      requires Valid()
      reads this
    {
      Lookup(Live(disk), name)
    }

    method Become(d: Disk)
      requires IsDisk(d)
      modifies this
      ensures Valid() && disk == d && trace == old(trace) + [d]
    {
      disk, trace := d, trace + [d];
    }

    /** The fail closure of WriteFile. */
    method Fail(io: IO)
      requires Valid()
      modifies this
      ensures Valid() && trace == old(trace) + Cleanup(old(disk), io)
      ensures disk == if io.removeFails then old(disk) else Unlinked(old(disk), io.temp)
    {
      if !io.removeFails {
        Become(Unlinked(disk, io.temp));
      }
    }

    method WriteFile(name: Name, content: Content, io: IO) returns (ok: bool)
      requires Valid()
      modifies this
      ensures Valid() && (ok <==> io.fault.NoFault?)
      ensures trace == old(trace) + WriteTrace(old(disk), name, content, io)
      ensures disk == Written(old(disk), name, content, io)
    {
      ok := Prepare(content, io);
      if ok {
        ok := Replace(name, io);
      }
    }

    /** WriteFile, up to the close of the temporary file. */
    method Prepare(content: Content, io: IO) returns (ok: bool)
      requires Valid()
      modifies this
      ensures Valid() && (ok <==> io.fault.RenameFails? || io.fault.SyncDirFails? || io.fault.NoFault?)
      ensures trace == old(trace) + PrepareTrace(old(disk), content, io)
      ensures disk == AfterSteps(old(disk), PrepareTrace(old(disk), content, io), |PrepareTrace(old(disk), content, io)|)
    {
      hide Put;
      hide Unlinked;
      if io.fault.CreateFails? {
        return false;
      }
      Become(Put(disk, io.temp, EMPTY_FILE));
      if io.fault.ChmodFails? || io.fault.WriteFails? {
        Fail(io);
        return false;
      }
      Become(Put(disk, io.temp, File(content, false)));
      if io.fault.SyncFails? {
        Fail(io);
        return false;
      }
      Become(Put(disk, io.temp, File(content, true)));
      if io.fault.CloseFails? {
        Fail(io);
        return false;
      }
      return true;
    }

    /** WriteFile, from the rename on. */
    method Replace(name: Name, io: IO) returns (ok: bool)
      requires Valid() && io.temp in Live(disk)
      requires io.fault.RenameFails? || io.fault.SyncDirFails? || io.fault.NoFault?
      modifies this
      ensures Valid() && (ok <==> io.fault.NoFault?)
      ensures trace == old(trace) + ReplaceTrace(old(disk), name, io)
      ensures disk == AfterSteps(old(disk), ReplaceTrace(old(disk), name, io), |ReplaceTrace(old(disk), name, io)|)
    {
      if io.fault.RenameFails? {
        Fail(io);
        return false;
      }
      Become(Renamed(disk, io.temp, name));
      if io.fault.SyncDirFails? {
        return false;
      }
      Become(Synced(disk));
      return true;
    }
  }
}
