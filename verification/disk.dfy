// The state folder on a disk that can lose power
// (WriteFile in agent/internal/state/dir.go).
//
// A change of the folder is seen by every reader at once, but it is certain to
// survive a power cut only after the folder has been synced. Until then each
// name may come back as it was after any of the changes since the last sync,
// whatever becomes of the other names. A file whose content was not synced may
// come back with anything in it.
module Disks {
  import opened Common

  type Name = string

  /** What a file holds. Encoding and decoding are symbolic: what was encoded is what is decoded. */
  datatype Content =
    | DeviceList(devices: seq<Device>)
    | KeyPem(key: nat)
    | CertPem(key: nat, notAfter: Time)
    | Torn

  datatype File = File(content: Content, synced: bool)

  type Folder = map<Name, File>

  /** The folder after each change since its last sync, the newest last. */
  datatype Disk = Disk(past: seq<Folder>)

  ghost predicate IsDisk(d: Disk) {
    |d.past| > 0
  }

  function Live(d: Disk): Folder
    requires IsDisk(d)
  {
    d.past[|d.past| - 1]
  }

  function Changed(d: Disk, f: Folder): (e: Disk)
    ensures IsDisk(e)
  {
    Disk(d.past + [f])
  }

  function Synced(d: Disk): Disk
    requires IsDisk(d)
  {
    Disk([Live(d)])
  }

  function Lookup(f: Folder, n: Name): Option<File> {
    if n in f then Some(f[n]) else None
  }

  /** After a power cut the name may be found like this. */
  ghost predicate MayHold(d: Disk, n: Name, file: Option<File>) {
    exists i :: 0 <= i < |d.past| && Lookup(d.past[i], n) == file
  }

  /** What a power cut makes of a file: content that was not synced is lost. */
  ghost predicate Settles(before: Option<File>, after: Option<File>) {
    match before
    case None => after == None
    case Some(file) => after.Some? && after.value.synced && (file.synced ==> after.value.content == file.content)
  }

  ghost predicate SurvivesAs(d: Disk, n: Name, after: Option<File>) {
    exists before :: MayHold(d, n, before) && Settles(before, after)
  }

  /** A folder that a power cut may leave. */
  ghost predicate PowerCut(d: Disk, f: Folder) {
    forall n :: SurvivesAs(d, n, Lookup(f, n))
  }

  /** A folder that a new start may find: the agent was killed, and perhaps the power went too. */
  ghost predicate MayBeFound(d: Disk, f: Folder) {
    IsDisk(d) && (f == Live(d) || PowerCut(d, f))
  }

  // WriteFile.

  /** The step that fails, if one does. */
  datatype Fault = NoFault | CreateFails | ChmodFails | WriteFails | SyncFails | CloseFails | RenameFails | SyncDirFails

  /** How one call of WriteFile goes: the name CreateTemp draws, and what fails. */
  datatype IO = IO(temp: Name, fault: Fault, removeFails: bool)

  const EMPTY_FILE := File(Torn, false)

  function Put(d: Disk, n: Name, file: File): (e: Disk)
    requires IsDisk(d)
    ensures IsDisk(e)
  {
    Changed(d, Live(d)[n := file])
  }

  function Unlinked(d: Disk, n: Name): (e: Disk)
    requires IsDisk(d)
    ensures IsDisk(e)
  {
    Changed(d, Live(d) - {n})
  }

  function Renamed(d: Disk, from: Name, to: Name): (e: Disk)
    requires IsDisk(d) && from in Live(d)
    ensures IsDisk(e)
  {
    Changed(d, (Live(d) - {from})[to := Live(d)[from]])
  }

  /** The temporary file is removed again, unless that fails too. */
  function Cleanup(d: Disk, io: IO): seq<Disk>
    requires IsDisk(d)
  {
    if io.removeFails then [] else [Unlinked(d, io.temp)]
  }

  /** The temporary file with its content synced. */
  function Prepared(d: Disk, content: Content, temp: Name): (e: Disk)
    requires IsDisk(d)
    ensures IsDisk(e) && temp in Live(e) && Live(e)[temp] == File(content, true)
  {
    Put(Put(Put(d, temp, EMPTY_FILE), temp, File(content, false)), temp, File(content, true))
  }

  /** WriteFile up to the point where the temporary file is closed: the disk after each step that changes it. */
  function PrepareTrace(d: Disk, content: Content, io: IO): (trace: seq<Disk>)
    requires IsDisk(d)
    ensures forall e :: e in trace ==> IsDisk(e)
  {
    var created := Put(d, io.temp, EMPTY_FILE);
    var written := Put(created, io.temp, File(content, false));
    var synced := Put(written, io.temp, File(content, true));
    match io.fault
    case CreateFails => []
    case ChmodFails => [created] + Cleanup(created, io)
    case WriteFails => [created] + Cleanup(created, io)
    case SyncFails => [created, written] + Cleanup(written, io)
    case CloseFails => [created, written, synced] + Cleanup(synced, io)
    case _ => [created, written, synced]
  }

  /** The rename and the sync of the folder. */
  function ReplaceTrace(d: Disk, name: Name, io: IO): (trace: seq<Disk>)
    requires IsDisk(d) && io.temp in Live(d)
    ensures forall e :: e in trace ==> IsDisk(e)
  {
    var renamed := Renamed(d, io.temp, name);
    match io.fault
    case RenameFails => Cleanup(d, io)
    case SyncDirFails => [renamed]
    case NoFault => [renamed, Synced(renamed)]
    case _ => []
  }

  /** The disk after each step of WriteFile that changes it, in order. */
  function WriteTrace(d: Disk, name: Name, content: Content, io: IO): (trace: seq<Disk>)
    requires IsDisk(d)
    ensures forall e :: e in trace ==> IsDisk(e)
  {
    PrepareTrace(d, content, io) + ReplaceTrace(Prepared(d, content, io.temp), name, io)
  }

  function AfterSteps(d: Disk, trace: seq<Disk>, k: nat): Disk
    requires k <= |trace|
  {
    if k == 0 then d else trace[k - 1]
  }

  /** The disk when a call of WriteFile is cut short after k of its steps, or has run to its end. */
  function WriteUntil(d: Disk, name: Name, content: Content, io: IO, k: nat): (e: Disk)
    requires IsDisk(d)
    ensures IsDisk(e)
  {
    var trace := WriteTrace(d, name, content, io);
    AfterSteps(d, trace, if k < |trace| then k else |trace|)
  }

  function Written(d: Disk, name: Name, content: Content, io: IO): (e: Disk)
    requires IsDisk(d)
    ensures IsDisk(e)
  {
    var trace := WriteTrace(d, name, content, io);
    AfterSteps(d, trace, |trace|)
  }

  lemma LiveMayHold(d: Disk, n: Name)
    requires IsDisk(d)
    ensures MayHold(d, n, Lookup(Live(d), n))
  {
  }

  /** But for temp, g is f, except that name may be the new file. */
  ghost predicate Near(g: Folder, f: Folder, temp: Name, name: Name, file: File) {
    forall n :: n != temp ==> Lookup(g, n) == Lookup(f, n) || (n == name && Lookup(g, n) == Some(file))
  }

  /**
   * Next to d, every folder that e may bring back is an old one or is near the
   * live one, which e's own live one is too; and the new file, once it is
   * there, stays.
   */
  ghost predicate Within(e: Disk, d: Disk, temp: Name, name: Name, file: File)
    requires IsDisk(d) && IsDisk(e)
  {
    && (forall g :: g in e.past ==> g in d.past || Near(g, Live(d), temp, name, file))
    && Near(Live(e), Live(d), temp, name, file)
    && (forall g :: g in e.past ==>
          g in d.past || Lookup(g, name) == Lookup(Live(d), name) || Lookup(Live(e), name) == Some(file))
  }

  /** No name but temp may hold anything new in e, except that name may hold the new file. */
  lemma WithinMayHold(e: Disk, d: Disk, temp: Name, name: Name, file: File, n: Name, g: Option<File>)
    requires IsDisk(d) && IsDisk(e) && Within(e, d, temp, name, file) && n != temp && MayHold(e, n, g)
    ensures MayHold(d, n, g) || (n == name && g == Some(file))
  {
    var i :| 0 <= i < |e.past| && Lookup(e.past[i], n) == g;
    assert e.past[i] in e.past;
    LiveMayHold(d, n);
  }

  lemma ChangeWithin(e: Disk, f: Folder, d: Disk, temp: Name, name: Name, file: File)
    requires IsDisk(d) && name != temp && IsDisk(e) && Within(e, d, temp, name, file) && Near(f, Live(e), temp, name, file)
    ensures Within(Changed(e, f), d, temp, name, file)
  {
  }

  lemma CleanupWithin(e: Disk, io: IO, d: Disk, name: Name, file: File)
    requires IsDisk(d) && name != io.temp && IsDisk(e) && Within(e, d, io.temp, name, file)
    ensures forall c :: c in Cleanup(e, io) ==> IsDisk(c) && Within(c, d, io.temp, name, file)
  {
    ChangeWithin(e, Live(e) - {io.temp}, d, io.temp, name, file);
  }

  /** A change of the temporary file, and its removal after that. */
  lemma PutWithin(e: Disk, with: File, io: IO, d: Disk, name: Name, file: File)
    requires IsDisk(d) && name != io.temp && IsDisk(e) && Within(e, d, io.temp, name, file)
    ensures Within(Put(e, io.temp, with), d, io.temp, name, file)
    ensures forall c :: c in Cleanup(Put(e, io.temp, with), io) ==> IsDisk(c) && Within(c, d, io.temp, name, file)
  {
    var put := Put(e, io.temp, with);
    ChangeWithin(e, Live(put), d, io.temp, name, file);
    CleanupWithin(put, io, d, name, file);
    hide Within;
  }

  lemma PrepareWithin(d: Disk, name: Name, content: Content, io: IO, e: Disk)
    requires IsDisk(d) && name != io.temp && (e in PrepareTrace(d, content, io) || e == Prepared(d, content, io.temp))
    ensures Within(e, d, io.temp, name, File(content, true))
  {
    var temp, file := io.temp, File(content, true);
    assert Within(d, d, temp, name, file);
    hide Within;
    PutWithin(d, EMPTY_FILE, io, d, name, file);
    var created := Put(d, temp, EMPTY_FILE);
    PutWithin(created, File(content, false), io, d, name, file);
    var written := Put(created, temp, File(content, false));
    PutWithin(written, file, io, d, name, file);
    hide Put;
    hide Cleanup;
  }

  lemma ReplaceWithin(d: Disk, p: Disk, name: Name, content: Content, io: IO, e: Disk)
    requires IsDisk(d) && IsDisk(p) && name != io.temp && io.temp in Live(p) && Live(p)[io.temp] == File(content, true)
    requires Within(p, d, io.temp, name, File(content, true)) && e in ReplaceTrace(p, name, io)
    ensures Within(e, d, io.temp, name, File(content, true))
  {
    var renamed := Renamed(p, io.temp, name);
    ChangeWithin(p, Live(renamed), d, io.temp, name, File(content, true));
    assert Within(Synced(renamed), d, io.temp, name, File(content, true));
    CleanupWithin(p, io, d, name, File(content, true));
    hide Within;
  }

  /** At every step, and whatever fails, the folder holds the old file or the new one whole, and all else as it was. */
  lemma WriteIsAtomic(d: Disk, name: Name, content: Content, io: IO, e: Disk)
    requires IsDisk(d) && name != io.temp && e in WriteTrace(d, name, content, io)
    ensures Within(e, d, io.temp, name, File(content, true))
  {
    var p := Prepared(d, content, io.temp);
    PrepareWithin(d, name, content, io, p);
    if e in PrepareTrace(d, content, io) {
      PrepareWithin(d, name, content, io, e);
    } else {
      ReplaceWithin(d, p, name, content, io, e);
    }
  }

  /** So a power cut at any step leaves the new file whole, or what a cut before the write could have left. */
  lemma PowerCutIsAtomic(d: Disk, name: Name, content: Content, io: IO, e: Disk, f: Folder, n: Name)
    requires IsDisk(d) && name != io.temp && e in WriteTrace(d, name, content, io) && PowerCut(e, f) && n != io.temp
    ensures SurvivesAs(d, n, Lookup(f, n)) || (n == name && Lookup(f, n) == Some(File(content, true)))
  {
    WriteIsAtomic(d, name, content, io, e);
    hide WriteTrace;
    assert SurvivesAs(e, n, Lookup(f, n));
    var before :| MayHold(e, n, before) && Settles(before, Lookup(f, n));
    WithinMayHold(e, d, io.temp, name, File(content, true), n, before);
    hide Within;
  }

  lemma WriteUntilWithin(d: Disk, name: Name, content: Content, io: IO, k: nat)
    requires IsDisk(d) && name != io.temp
    ensures Within(WriteUntil(d, name, content, io, k), d, io.temp, name, File(content, true))
    ensures Within(Written(d, name, content, io), d, io.temp, name, File(content, true))
  {
    var trace := WriteTrace(d, name, content, io);
    forall e | e in trace ensures Within(e, d, io.temp, name, File(content, true)) {
      WriteIsAtomic(d, name, content, io, e);
    }
    assert Within(d, d, io.temp, name, File(content, true));
    hide Within;
    hide WriteTrace;
  }

  /** A call that reports no error has made the new file, and all else that was in the folder, certain to survive. */
  lemma SuccessIsDurable(d: Disk, name: Name, content: Content, io: IO)
    requires IsDisk(d) && io.fault.NoFault?
    ensures Written(d, name, content, io) == Disk([(Live(d) - {io.temp})[name := File(content, true)]])
  {
    var p := Prepared(d, content, io.temp);
    assert Live(p) - {io.temp} == Live(d) - {io.temp};
  }

  lemma OneFolder(f: Folder, n: Name, file: Option<File>)
    ensures MayHold(Disk([f]), n, file) <==> file == Lookup(f, n)
  {
    if file == Lookup(f, n) {
      assert Lookup(Disk([f]).past[0], n) == file;
    }
  }

  /** But for temp, the live folder of e is that of d. */
  ghost predicate OnlyTemp(e: Disk, d: Disk, temp: Name)
    requires IsDisk(d) && IsDisk(e)
  {
    Live(e) - {temp} == Live(d) - {temp}
  }

  lemma PutOnlyTemp(e: Disk, d: Disk, temp: Name, file: File)
    requires IsDisk(d) && IsDisk(e) && OnlyTemp(e, d, temp)
    ensures OnlyTemp(Put(e, temp, file), d, temp) && OnlyTemp(Unlinked(Put(e, temp, file), temp), d, temp)
    ensures OnlyTemp(Unlinked(e, temp), d, temp)
  {
    assert Live(Put(e, temp, file)) - {temp} == Live(e) - {temp};
    assert (Live(e) - {temp}) - {temp} == Live(e) - {temp};
  }

  lemma PrepareOnlyTemp(d: Disk, content: Content, io: IO, e: Disk)
    requires IsDisk(d) && (e in PrepareTrace(d, content, io) || e == Prepared(d, content, io.temp))
    ensures OnlyTemp(e, d, io.temp)
  {
    var created := Put(d, io.temp, EMPTY_FILE);
    var written := Put(created, io.temp, File(content, false));
    PutOnlyTemp(d, d, io.temp, EMPTY_FILE);
    PutOnlyTemp(created, d, io.temp, File(content, false));
    PutOnlyTemp(written, d, io.temp, File(content, true));
    hide OnlyTemp;
    hide Put;
    hide Unlinked;
  }

  lemma WithoutAbsent(f: Folder, n: Name)
    ensures n !in f ==> f - {n} == f
  {
  }

  /** A folder that could not be synced holds the new file all the same, for every reader. */
  lemma LateFailureIsSeen(d: Disk, name: Name, content: Content, io: IO)
    requires IsDisk(d) && io.fault.SyncDirFails?
    ensures Live(Written(d, name, content, io)) == (Live(d) - {io.temp})[name := File(content, true)]
  {
    var p := Prepared(d, content, io.temp);
    assert Live(p) - {io.temp} == Live(d) - {io.temp};
  }

  /** An error before the rename leaves every file but the temporary one as it was for every reader. */
  lemma EarlyFailureChangesNothing(d: Disk, name: Name, content: Content, io: IO)
    requires IsDisk(d) && !io.fault.NoFault? && !io.fault.SyncDirFails?
    ensures Live(Written(d, name, content, io)) - {io.temp} == Live(d) - {io.temp}
    ensures io.temp !in Live(d) && !io.removeFails ==> Live(Written(d, name, content, io)) == Live(d)
  {
    var p := Prepared(d, content, io.temp);
    PrepareOnlyTemp(d, content, io, p);
    PutOnlyTemp(p, d, io.temp, EMPTY_FILE);
    forall e | e in PrepareTrace(d, content, io) ensures OnlyTemp(e, d, io.temp) {
      PrepareOnlyTemp(d, content, io, e);
    }
    EarlyFailureEnds(d, name, content, io);
    if !io.removeFails {
      EarlyFailureCleansUp(d, name, content, io);
    }
    hide Prepared;
    hide PrepareTrace;
    hide Written;
    assert OnlyTemp(d, d, io.temp);
    if io.temp !in Live(d) {
      WithoutAbsent(Live(d), io.temp);
      WithoutAbsent(Live(Written(d, name, content, io)), io.temp);
    }
  }

  /** The temporary file is gone again when such a write ends, unless that failed too. */
  lemma EarlyFailureCleansUp(d: Disk, name: Name, content: Content, io: IO)
    requires IsDisk(d) && !io.fault.NoFault? && !io.fault.SyncDirFails? && !io.removeFails
    ensures Written(d, name, content, io) == d || io.temp !in Live(Written(d, name, content, io))
  {
    hide Put;
  }

  /** Where a write that fails before the rename ends: unchanged, in its first part, or with the temporary file dealt with. */
  lemma EarlyFailureEnds(d: Disk, name: Name, content: Content, io: IO)
    requires IsDisk(d) && !io.fault.NoFault? && !io.fault.SyncDirFails?
    ensures var e, p := Written(d, name, content, io), Prepared(d, content, io.temp);
            e == d || e in PrepareTrace(d, content, io) || e == p || e == Unlinked(p, io.temp)
  {
    hide Put;
    hide Unlinked;
    var first := PrepareTrace(d, content, io);
    assert first != [] ==> first[|first| - 1] in first;
  }
}
