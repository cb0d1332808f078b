// The agent's TLS identity over every run of LoadOrCreate, with write errors,
// kills and power cuts at any step.
module TlsIdRuns {
  import opened Common
  import opened Disks
  import opened StateDir
  import opened TlsId
  import Runs

  /** drawn are the keys ever drawn; returned the identities that calls have returned, in order. */
  datatype World = World(disk: Disk, drawn: set<nat>, returned: seq<Identity>)

  const START := World(Disk([map[]]), {}, [])

  datatype Event =
    | Load(call: Call)
    | Killed(call: Call, steps: nat)
    | OtherWrite(name: Name, content: Content, io: IO, steps: nat)
    | PowerLoss(folder: Folder)

  ghost predicate CallOk(w: World, c: Call) {
    c.newKey !in w.drawn && TempOk(KEY_FILE, c.keyIO) && TempOk(CERT_FILE, c.certIO)
  }

  function AfterLoad(w: World, c: Call): World
    requires IsDisk(w.disk)
  {
    World(AfterCall(w.disk, c), w.drawn + {c.newKey},
          w.returned + if Returned(w.disk, c).Some? then [Returned(w.disk, c).value] else [])
  }

  ghost predicate Next(w: World, e: Event, v: World) {
    && IsDisk(w.disk)
    && match e
       case Load(c) => CallOk(w, c) && v == AfterLoad(w, c)
       case Killed(c, k) =>
         CallOk(w, c) && v == w.(disk := CallUntil(w.disk, c, k), drawn := w.drawn + {c.newKey})
       case OtherWrite(name, content, io, k) =>
         && name in OWN_FILES - {KEY_FILE, CERT_FILE} && TempOk(name, io)
         && v == w.(disk := WriteUntil(w.disk, name, content, io, k))
       case PowerLoss(f) => PowerCut(w.disk, f) && v == w.(disk := Disk([f]))
  }

  ghost predicate Reachable(w: World) {
    Runs.Reachable(START, Next, w)
  }

  // What the two files may be.

  ghost predicate KeyIs(file: Option<File>, key: nat) {
    file.Some? ==> file.value == File(KeyPem(key), true)
  }

  ghost predicate CertIs(file: Option<File>, key: nat) {
    file.Some? ==> file.value.synced && file.value.content.CertPem? && file.value.content.key == key
  }

  ghost predicate FolderOk(f: Folder, key: nat) {
    KeyIs(Lookup(f, KEY_FILE), key) && CertIs(Lookup(f, CERT_FILE), key)
  }

  ghost predicate KeyFirst(f: Folder) {
    CERT_FILE in f ==> KEY_FILE in f
  }

  /** Once the live folder has a file, no folder that it lost may have it. */
  ghost predicate Stays(d: Disk, name: Name)
    requires IsDisk(d)
  {
    forall f :: f in d.past && name in f ==> name in Live(d)
  }

  /** Only the certificate is there, whatever the power does. */
  ghost predicate Stranded(d: Disk) {
    IsDisk(d) && forall f :: f in d.past ==> KEY_FILE !in f && CERT_FILE in f
  }

  /** The key is there, whatever the power does. */
  ghost predicate KeyDurable(d: Disk) {
    IsDisk(d) && forall f :: f in d.past ==> KEY_FILE in f
  }

  /** All that may be found belongs to one key, which comes before the certificate. */
  ghost predicate DiskOk(d: Disk, key: nat) {
    && IsDisk(d)
    && (forall f :: f in d.past ==> FolderOk(f, key))
    && (Stranded(d) || forall f :: f in d.past ==> KeyFirst(f))
    && Stays(d, KEY_FILE) && Stays(d, CERT_FILE)
  }

  /** What the write puts under its name fits the key. */
  ghost predicate Fits(d: Disk, key: nat, name: Name, content: Content)
    requires IsDisk(d)
  {
    && name in OWN_FILES
    && (name == KEY_FILE ==> content == KeyPem(key) && CERT_FILE !in Live(d))
    && (name == CERT_FILE ==> content.CertPem? && content.key == key && KEY_FILE in Live(d))
  }

  lemma NearFolder(d: Disk, key: nat, name: Name, content: Content, temp: Name, g: Folder)
    requires DiskOk(d, key) && Fits(d, key, name, content) && temp !in OWN_FILES
    requires Near(g, Live(d), temp, name, File(content, true))
    ensures FolderOk(g, key)
    ensures KEY_FILE in Live(d) ==> KEY_FILE in g
    ensures CERT_FILE in Live(d) ==> CERT_FILE in g
    ensures Stranded(d) ==> KEY_FILE !in g && CERT_FILE in g
    ensures !Stranded(d) ==> KeyFirst(g)
  {
    var file := File(content, true);
    assert FolderOk(Live(d), key);
    assert Lookup(g, KEY_FILE) == Lookup(Live(d), KEY_FILE) || (name == KEY_FILE && Lookup(g, KEY_FILE) == Some(file));
    assert Lookup(g, CERT_FILE) == Lookup(Live(d), CERT_FILE) || (name == CERT_FILE && Lookup(g, CERT_FILE) == Some(file));
    assert Live(d) in d.past;
  }

  /** One write of one of the two files, or of another, up to some step. */
  lemma WriteDiskOk(d: Disk, key: nat, name: Name, content: Content, io: IO, e: Disk)
    requires DiskOk(d, key) && IsDisk(e) && Fits(d, key, name, content) && TempOk(name, io)
    requires Within(e, d, io.temp, name, File(content, true))
    ensures DiskOk(e, key)
    ensures KeyDurable(d) ==> KeyDurable(e)
    ensures Stranded(d) ==> Stranded(e)
  {
    TempIsNoOwnFile(name, io);
    forall g | g in e.past && g !in d.past
      ensures FolderOk(g, key) && (Stranded(d) ==> KEY_FILE !in g && CERT_FILE in g) && (!Stranded(d) ==> KeyFirst(g))
      ensures KEY_FILE in Live(d) ==> KEY_FILE in g
      ensures KEY_FILE in g ==> KEY_FILE in Live(e)
      ensures CERT_FILE in g ==> CERT_FILE in Live(e)
    {
      NearFolder(d, key, name, content, io.temp, g);
      NearFolder(d, key, name, content, io.temp, Live(e));
    }
    NearFolder(d, key, name, content, io.temp, Live(e));
    hide Near;
    hide FolderOk;
  }

  /** Where a call may be cut short: before any step, in the write of the key, or in the write of the certificate. */
  ghost predicate CutAt(d: Disk, c: Call, e: Disk)
    requires IsDisk(d)
  {
    var decision := Decide(Live(d), c);
    || e == d
    || (decision.Create? && exists k :: e == WriteUntil(d, KEY_FILE, KeyPem(c.newKey), c.keyIO, k))
    || (decision.Create? && c.keyIO.fault.NoFault?
        && exists k :: e == WriteUntil(KeyWritten(d, c), CERT_FILE, CertPem(c.newKey, NotAfter(c.now)), c.certIO, k))
    || (decision.Issue? && exists k :: e == WriteUntil(d, CERT_FILE, CertPem(decision.key, NotAfter(c.now)), c.certIO, k))
  }

  lemma CallIsCutAt(d: Disk, c: Call, k: nat)
    requires IsDisk(d)
    ensures CutAt(d, c, CallUntil(d, c, k))
  {
    hide WriteTrace;
    var decision, e := Decide(Live(d), c), CallUntil(d, c, k);
    var trace := CallTrace(d, c);
    var m := if k < |trace| then k else |trace|;
    if decision.Create? && !c.noKey {
      var first := WriteTrace(d, KEY_FILE, KeyPem(c.newKey), c.keyIO);
      if m <= |first| {
        assert e == WriteUntil(d, KEY_FILE, KeyPem(c.newKey), c.keyIO, m);
      } else {
        assert e == WriteUntil(KeyWritten(d, c), CERT_FILE, CertPem(c.newKey, NotAfter(c.now)), c.certIO, m - |first|);
      }
    } else if decision.Issue? && !c.noCertificate {
      assert e == WriteUntil(d, CERT_FILE, CertPem(decision.key, NotAfter(c.now)), c.certIO, m);
    }
  }

  /** The key that the files belong to when a call has begun to write. */
  function KeyOf(d: Disk, key: nat, c: Call): nat
    requires IsDisk(d)
  {
    if Decide(Live(d), c).Create? then c.newKey else key
  }

  lemma NothingYet(d: Disk, key: nat, other: nat)
    requires DiskOk(d, key) && KEY_FILE !in Live(d) && CERT_FILE !in Live(d)
    ensures DiskOk(d, other)
  {
    assert Live(d) in d.past;
  }

  lemma WriteUntilDiskOk(d: Disk, key: nat, name: Name, content: Content, io: IO, k: nat)
    requires DiskOk(d, key) && Fits(d, key, name, content) && TempOk(name, io)
    ensures DiskOk(WriteUntil(d, name, content, io, k), key)
    ensures KeyDurable(d) ==> KeyDurable(WriteUntil(d, name, content, io, k))
    ensures Stranded(d) ==> Stranded(WriteUntil(d, name, content, io, k))
    ensures DiskOk(Written(d, name, content, io), key)
  {
    TempIsNoOwnFile(name, io);
    WriteUntilWithin(d, name, content, io, k);
    WriteDiskOk(d, key, name, content, io, WriteUntil(d, name, content, io, k));
    WriteDiskOk(d, key, name, content, io, Written(d, name, content, io));
  }

  lemma CreateDiskOk(d: Disk, key: nat, c: Call, k: nat)
    requires DiskOk(d, key) && TempOk(KEY_FILE, c.keyIO) && TempOk(CERT_FILE, c.certIO) && Decide(Live(d), c).Create?
    ensures DiskOk(WriteUntil(d, KEY_FILE, KeyPem(c.newKey), c.keyIO, k), c.newKey)
    ensures c.keyIO.fault.NoFault? ==>
              DiskOk(WriteUntil(KeyWritten(d, c), CERT_FILE, CertPem(c.newKey, NotAfter(c.now)), c.certIO, k), c.newKey)
  {
    NothingYet(d, key, c.newKey);
    WriteUntilDiskOk(d, c.newKey, KEY_FILE, KeyPem(c.newKey), c.keyIO, k);
    if c.keyIO.fault.NoFault? {
      SuccessIsDurable(d, KEY_FILE, KeyPem(c.newKey), c.keyIO);
      WriteUntilDiskOk(KeyWritten(d, c), c.newKey, CERT_FILE, CertPem(c.newKey, NotAfter(c.now)), c.certIO, k);
    }
  }

  lemma IssueDiskOk(d: Disk, key: nat, c: Call, k: nat)
    requires DiskOk(d, key) && TempOk(CERT_FILE, c.certIO) && Decide(Live(d), c).Issue?
    ensures Decide(Live(d), c).key == key
    ensures DiskOk(WriteUntil(d, CERT_FILE, CertPem(key, NotAfter(c.now)), c.certIO, k), key)
    ensures KeyDurable(d) ==> KeyDurable(WriteUntil(d, CERT_FILE, CertPem(key, NotAfter(c.now)), c.certIO, k))
  {
    assert FolderOk(Live(d), key);
    WriteUntilDiskOk(d, key, CERT_FILE, CertPem(key, NotAfter(c.now)), c.certIO, k);
  }

  lemma CallDiskOk(d: Disk, key: nat, c: Call, k: nat)
    requires DiskOk(d, key) && TempOk(KEY_FILE, c.keyIO) && TempOk(CERT_FILE, c.certIO)
    ensures DiskOk(CallUntil(d, c, k), KeyOf(d, key, c))
    ensures KeyDurable(d) ==> !Decide(Live(d), c).Create? && KeyDurable(CallUntil(d, c, k))
  {
    CallIsCutAt(d, c, k);
    var e := CallUntil(d, c, k);
    if Decide(Live(d), c).Create? {
      NothingYet(d, key, c.newKey);
      forall i ensures DiskOk(WriteUntil(d, KEY_FILE, KeyPem(c.newKey), c.keyIO, i), c.newKey) {
        CreateDiskOk(d, key, c, i);
      }
      forall i | c.keyIO.fault.NoFault?
        ensures DiskOk(WriteUntil(KeyWritten(d, c), CERT_FILE, CertPem(c.newKey, NotAfter(c.now)), c.certIO, i), c.newKey) {
        CreateDiskOk(d, key, c, i);
      }
      assert Live(d) in d.past;
    } else if Decide(Live(d), c).Issue? {
      IssueDiskOk(d, key, c, 0);
      forall i
        ensures DiskOk(WriteUntil(d, CERT_FILE, CertPem(key, NotAfter(c.now)), c.certIO, i), key)
        ensures KeyDurable(d) ==> KeyDurable(WriteUntil(d, CERT_FILE, CertPem(key, NotAfter(c.now)), c.certIO, i)) {
        IssueDiskOk(d, key, c, i);
      }
    }
    hide DiskOk;
    hide WriteUntil;
    hide CallUntil;
  }

  // The invariant.

  ghost predicate KeyDrawn(w: World, key: nat)
    requires IsDisk(w.disk)
  {
    KEY_FILE in Live(w.disk) ==> key in w.drawn
  }

  ghost predicate BelongsTo(w: World, key: nat) {
    DiskOk(w.disk, key) && KeyDrawn(w, key)
  }

  ghost predicate Inv(w: World) {
    exists key :: BelongsTo(w, key)
  }

  /** The key that the files belong to after an event. */
  ghost function KeyAfter(w: World, key: nat, e: Event): nat
    requires IsDisk(w.disk)
  {
    match e
    case Load(c) => KeyOf(w.disk, key, c)
    case Killed(c, _) => KeyOf(w.disk, key, c)
    case _ => key
  }

  /** What a power cut leaves under a name was there in one of the folders it may go back to. */
  lemma WasThere(d: Disk, f: Folder, n: Name) returns (g: Folder)
    requires IsDisk(d) && PowerCut(d, f)
    ensures g in d.past && Settles(Lookup(g, n), Lookup(f, n))
  {
    assert SurvivesAs(d, n, Lookup(f, n));
    var before :| MayHold(d, n, before) && Settles(before, Lookup(f, n));
    var i :| 0 <= i < |d.past| && Lookup(d.past[i], n) == before;
    g := d.past[i];
  }

  lemma CutFolderOk(d: Disk, key: nat, f: Folder)
    requires DiskOk(d, key) && PowerCut(d, f)
    ensures FolderOk(f, key) && (KeyDurable(d) ==> KEY_FILE in f)
    ensures KEY_FILE in f ==> KEY_FILE in Live(d)
  {
    var g := WasThere(d, f, KEY_FILE);
    var h := WasThere(d, f, CERT_FILE);
    hide PowerCut;
    assert FolderOk(g, key) && FolderOk(h, key);
  }

  lemma PowerCutDiskOk(d: Disk, key: nat, f: Folder)
    requires DiskOk(d, key) && PowerCut(d, f)
    ensures DiskOk(Disk([f]), key)
    ensures KeyDurable(d) ==> KeyDurable(Disk([f]))
    ensures KEY_FILE in f ==> KEY_FILE in Live(d)
  {
    CutFolderOk(d, key, f);
    OneFolderOk(f, key);
    hide DiskOk;
    hide PowerCut;
    hide FolderOk;
  }

  lemma OneFolderOk(f: Folder, key: nat)
    requires FolderOk(f, key)
    ensures DiskOk(Disk([f]), key)
  {
    hide FolderOk;
  }

  lemma OtherWriteDiskOk(d: Disk, key: nat, name: Name, content: Content, io: IO, k: nat)
    requires DiskOk(d, key) && name in OWN_FILES - {KEY_FILE, CERT_FILE} && TempOk(name, io)
    ensures var e := WriteUntil(d, name, content, io, k);
            DiskOk(e, key) && (KeyDurable(d) ==> KeyDurable(e)) && (KEY_FILE in Live(e) ==> KEY_FILE in Live(d))
  {
    WriteUntilDiskOk(d, key, name, content, io, k);
    TempIsNoOwnFile(name, io);
    WriteUntilWithin(d, name, content, io, k);
    var e := WriteUntil(d, name, content, io, k);
    assert Lookup(Live(e), KEY_FILE) == Lookup(Live(d), KEY_FILE);
  }

  lemma Step(w: World, key: nat, e: Event, v: World)
    requires BelongsTo(w, key) && Next(w, e, v)
    ensures BelongsTo(v, KeyAfter(w, key, e))
    ensures KeyDurable(w.disk) ==> KeyDurable(v.disk) && KeyAfter(w, key, e) == key
  {
    match e
    case Load(c) =>
      CallDiskOk(w.disk, key, c, |CallTrace(w.disk, c)|);
      CallKeyDrawn(w.disk, key, c, |CallTrace(w.disk, c)|);
    case Killed(c, k) =>
      CallDiskOk(w.disk, key, c, k);
      CallKeyDrawn(w.disk, key, c, k);
    case OtherWrite(name, content, io, k) => OtherWriteDiskOk(w.disk, key, name, content, io, k);
    case PowerLoss(f) => PowerCutDiskOk(w.disk, key, f);
  }

  /** A call that does not create has found the key there. */
  lemma CallKeyDrawn(d: Disk, key: nat, c: Call, k: nat)
    requires DiskOk(d, key) && TempOk(KEY_FILE, c.keyIO) && TempOk(CERT_FILE, c.certIO)
    ensures KEY_FILE in Live(CallUntil(d, c, k)) ==> KEY_FILE in Live(d) || Decide(Live(d), c).Create?
  {
    if KEY_FILE !in Live(d) && !Decide(Live(d), c).Create? {
      assert CallTrace(d, c) == [];
    }
  }

  lemma StartBelongs()
    ensures BelongsTo(START, 0)
  {
  }

  lemma ReachableBelongs(w: World)
    requires Reachable(w)
    ensures Inv(w)
  {
    StartBelongs();
    forall w, e, v | Inv(w) && Next(w, e, v) ensures Inv(v) {
      var key :| BelongsTo(w, key);
      Step(w, key, e, v);
    }
    Runs.InvariantHolds(START, Next, Inv, w);
  }

  /** A certificate for the key that was found. */
  lemma IssueFits(d: Disk, key: nat, c: Call)
    requires DiskOk(d, key) && TempOk(CERT_FILE, c.certIO) && Decide(Live(d), c).Issue? && Returned(d, c).Some?
    ensures FingerprintOf(Returned(d, c).value) == key && KEY_FILE in Live(AfterCall(d, c)) && KeyDurable(AfterCall(d, c))
  {
    assert FolderOk(Live(d), key);
    var k := Decide(Live(d), c).key;
    hide WriteTrace;
    hide FolderOk;
    TempIsNoOwnFile(CERT_FILE, c.certIO);
    SuccessIsDurable(d, CERT_FILE, CertPem(k, NotAfter(c.now)), c.certIO);
  }

  /** A key and its certificate, both new. */
  lemma CreateFits(d: Disk, c: Call)
    requires IsDisk(d) && TempOk(KEY_FILE, c.keyIO) && TempOk(CERT_FILE, c.certIO) && Decide(Live(d), c).Create? && Returned(d, c).Some?
    ensures FingerprintOf(Returned(d, c).value) == c.newKey && KEY_FILE in Live(AfterCall(d, c)) && KeyDurable(AfterCall(d, c))
  {
    hide WriteTrace;
    TempIsNoOwnFile(KEY_FILE, c.keyIO);
    TempIsNoOwnFile(CERT_FILE, c.certIO);
    SuccessIsDurable(d, KEY_FILE, KeyPem(c.newKey), c.keyIO);
    SuccessIsDurable(KeyWritten(d, c), CERT_FILE, CertPem(c.newKey, NotAfter(c.now)), c.certIO);
  }

  /** What a call returns is for the key of the files, which then are both there. */
  lemma ReturnedFits(d: Disk, key: nat, c: Call)
    requires DiskOk(d, key) && TempOk(KEY_FILE, c.keyIO) && TempOk(CERT_FILE, c.certIO)
    requires Returned(d, c).Some?
    ensures FingerprintOf(Returned(d, c).value) == KeyOf(d, key, c)
    ensures DiskOk(AfterCall(d, c), KeyOf(d, key, c)) && KEY_FILE in Live(AfterCall(d, c))
    ensures Decide(Live(d), c).Use? ==> AfterCall(d, c) == d
    ensures !Decide(Live(d), c).Use? ==> KeyDurable(AfterCall(d, c))
  {
    CallDiskOk(d, key, c, |CallTrace(d, c)|);
    assert FolderOk(Live(d), key);
    match Decide(Live(d), c)
    case Issue(_) =>
      IssueFits(d, key, c);
      hide AfterCall;
    case Create =>
      CreateFits(d, c);
      hide AfterCall;
    case Use(_) =>
  }
}
