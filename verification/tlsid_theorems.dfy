// What phones can rely on: the fingerprint over every run.
//
// "Once an identity was returned, it is never another" is not true of every
// run: a call that finds both files returns them as they are, while the rename
// of the key may still be waiting for a sync of the folder. KeptIff says
// exactly when the promise holds; UnsyncedKeyIsReturned is a run that breaks it.
module TlsIdTheorems {
  import opened Common
  import opened Disks
  import opened StateDir
  import opened TlsId
  import opened TlsIdRuns
  import Runs

  // The promise: every later identity has the same fingerprint.

  ghost predicate AllFrom(w: World, n: nat, key: nat) {
    |w.returned| >= n && forall i :: n <= i < |w.returned| ==> FingerprintOf(w.returned[i]) == key
  }

  ghost predicate KeptForever(v: World, key: nat) {
    forall u :: Runs.Reachable(v, Next, u) ==> AllFrom(u, |v.returned|, key)
  }

  ghost predicate Settled(w: World, n: nat, key: nat) {
    BelongsTo(w, key) && KeyDurable(w.disk) && AllFrom(w, n, key)
  }

  lemma SettledStep(w: World, n: nat, key: nat, e: Event, v: World)
    requires Settled(w, n, key) && Next(w, e, v)
    ensures Settled(v, n, key)
  {
    Step(w, key, e, v);
    if e.Load? && Returned(w.disk, e.call).Some? {
      ReturnedFits(w.disk, key, e.call);
    }
    hide DiskOk;
    hide KeyDurable;
  }

  lemma DurableIsKept(v: World, key: nat)
    requires BelongsTo(v, key) && KeyDurable(v.disk)
    ensures KeptForever(v, key)
  {
    var n := |v.returned|;
    var inv := u => Settled(u, n, key);
    forall w, e, u | inv(w) && Next(w, e, u) ensures inv(u) {
      SettledStep(w, n, key, e, u);
    }
    forall u | Runs.Reachable(v, Next, u) ensures AllFrom(u, n, key) {
      Runs.InvariantHolds(v, Next, inv, u);
    }
  }

  // A power cut that takes the key and the certificate.

  function Settle(f: Folder): Folder {
    map n | n in f :: File(f[n].content, true)
  }

  /** What is left when the two files are lost and all else survives. */
  function WithoutBoth(d: Disk): Folder
    requires IsDisk(d)
  {
    Settle(Live(d) - {KEY_FILE, CERT_FILE})
  }

  lemma BothMayBeLost(d: Disk, key: nat)
    requires DiskOk(d, key) && KEY_FILE in Live(d) && !KeyDurable(d)
    ensures PowerCut(d, WithoutBoth(d))
  {
    var f := WithoutBoth(d);
    assert Live(d) in d.past;
    var g :| g in d.past && KEY_FILE !in g;
    var i :| 0 <= i < |d.past| && d.past[i] == g;
    assert KeyFirst(g);
    forall n ensures SurvivesAs(d, n, Lookup(f, n)) {
      LiveMayHold(d, n);
      if n == KEY_FILE || n == CERT_FILE {
        assert MayHold(d, n, None) && Settles(None, Lookup(f, n)) by {
          assert Lookup(d.past[i], n) == None;
        }
      } else {
        assert Settles(Lookup(Live(d), n), Lookup(f, n));
      }
    }
  }

  const NO_FAULT_KEY := IO(".tls.key.1", NoFault, false)
  const NO_FAULT_CERT := IO(".tls.crt.1", NoFault, false)

  /** A call in which nothing goes wrong. */
  function PlainCall(now: Time, newKey: nat): Call {
    Call(now, newKey, false, false, false, false, NO_FAULT_KEY, NO_FAULT_CERT)
  }

  lemma PlainCallOk(w: World, now: Time, newKey: nat)
    requires newKey !in w.drawn
    ensures CallOk(w, PlainCall(now, newKey))
  {
    assert NO_FAULT_KEY.temp[..|TempPrefix(KEY_FILE)|] == TempPrefix(KEY_FILE);
    assert NO_FAULT_CERT.temp[..|TempPrefix(CERT_FILE)|] == TempPrefix(CERT_FILE);
  }

  lemma EmptyFolderMakesIdentity(f: Folder, now: Time, newKey: nat)
    requires KEY_FILE !in f && CERT_FILE !in f
    ensures Returned(Disk([f]), PlainCall(now, newKey)) == Some(NewIdentity(newKey, PlainCall(now, newKey)))
  {
  }

  lemma CutReachable(v: World, w: World, f: Folder)
    requires Runs.Reachable(v, Next, w) && IsDisk(w.disk) && PowerCut(w.disk, f)
    ensures Runs.Reachable(v, Next, w.(disk := Disk([f])))
  {
    Runs.StepReachable(v, Next, w, PowerLoss(f), w.(disk := Disk([f])));
  }

  lemma KilledReachable(v: World, w: World, c: Call, k: nat)
    requires Runs.Reachable(v, Next, w) && IsDisk(w.disk) && CallOk(w, c)
    ensures Runs.Reachable(v, Next, w.(disk := CallUntil(w.disk, c, k), drawn := w.drawn + {c.newKey}))
  {
    Runs.StepReachable(v, Next, w, Killed(c, k), w.(disk := CallUntil(w.disk, c, k), drawn := w.drawn + {c.newKey}));
  }

  lemma LoadReachable(v: World, w: World, c: Call, identity: Identity)
    requires Runs.Reachable(v, Next, w) && IsDisk(w.disk) && CallOk(w, c) && Returned(w.disk, c) == Some(identity)
    ensures Runs.Reachable(v, Next, World(AfterCall(w.disk, c), w.drawn + {c.newKey}, w.returned + [identity]))
  {
    Runs.StepReachable(v, Next, w, Load(c), World(AfterCall(w.disk, c), w.drawn + {c.newKey}, w.returned + [identity]));
  }

  /** The next start after such a power cut makes another identity. */
  lemma LostKeyIsReplaced(v: World, key: nat)
    requires BelongsTo(v, key) && KEY_FILE in Live(v.disk) && !KeyDurable(v.disk)
    ensures !KeptForever(v, key)
  {
    BothMayBeLost(v.disk, key);
    var f := WithoutBoth(v.disk);
    var newKey := SomeNumberIsNew(v.drawn);
    var c := PlainCall(0, newKey);
    EmptyFolderMakesIdentity(f, 0, newKey);
    var identity := NewIdentity(newKey, c);
    Runs.InitReachable(v, Next);
    hide Next;
    CutReachable(v, v, f);
    var cut := v.(disk := Disk([f]));
    hide Returned;
    hide CallOk;
    assert CallOk(cut, c) by {
      PlainCallOk(cut, 0, newKey);
    }
    LoadReachable(v, cut, c, identity);
    var u := World(AfterCall(cut.disk, c), v.drawn + {c.newKey}, v.returned + [identity]);
    assert u.returned[|v.returned|] == identity;
  }

  /**
   * An identity that a call returns is the one for ever if and only if the call
   * wrote a file itself, or the folder was synced since the key got its name.
   */
  lemma KeptIff(w: World, c: Call, identity: Identity)
    requires Reachable(w) && IsDisk(w.disk) && CallOk(w, c) && Returned(w.disk, c) == Some(identity)
    ensures KeptForever(AfterLoad(w, c), FingerprintOf(identity)) <==> !Decide(Live(w.disk), c).Use? || KeyDurable(w.disk)
  {
    ReachableBelongs(w);
    var v := AfterLoad(w, c);
    var key :| BelongsTo(w, key);
    Step(w, key, Load(c), v);
    ReturnedFits(w.disk, key, c);
    var k := KeyOf(w.disk, key, c);
    if KeyDurable(v.disk) {
      DurableIsKept(v, k);
    } else {
      LostKeyIsReplaced(v, k);
    }
  }

  /** Any save in the folder that reports no error settles it. */
  lemma AnySaveSettles(d: Disk, name: Name, content: Content, io: IO)
    requires IsDisk(d) && KEY_FILE in Live(d) && TempOk(name, io) && io.fault.NoFault?
    ensures KeyDurable(Written(d, name, content, io))
  {
    TempIsNoOwnFile(name, io);
    SuccessIsDurable(d, name, content, io);
    hide Written;
  }

  // Without power cuts.

  ghost predicate NextPowered(w: World, e: Event, v: World) {
    Next(w, e, v) && !e.PowerLoss?
  }

  ghost predicate OneKey(w: World, key: nat) {
    && BelongsTo(w, key) && AllFrom(w, 0, key)
    && (w.returned != [] ==> KEY_FILE in Live(w.disk))
  }

  ghost predicate SomeOneKey(w: World) {
    exists key :: OneKey(w, key)
  }

  lemma KeyFileStays(w: World, key: nat, e: Event, v: World)
    requires BelongsTo(w, key) && NextPowered(w, e, v) && KEY_FILE in Live(w.disk)
    ensures KEY_FILE in Live(v.disk)
  {
    match e
    case Load(c) => CallKeepsKey(w.disk, key, c, |CallTrace(w.disk, c)|);
    case Killed(c, k) => CallKeepsKey(w.disk, key, c, k);
    case OtherWrite(name, content, io, k) => WriteKeepsKey(w.disk, key, name, content, io, k);
  }

  lemma WriteKeepsKey(d: Disk, key: nat, name: Name, content: Content, io: IO, k: nat)
    requires DiskOk(d, key) && name in OWN_FILES && TempOk(name, io) && KEY_FILE in Live(d)
    ensures KEY_FILE in Live(WriteUntil(d, name, content, io, k))
  {
    TempIsNoOwnFile(name, io);
    WriteUntilWithin(d, name, content, io, k);
    var e := WriteUntil(d, name, content, io, k);
    assert Lookup(Live(e), KEY_FILE) == Lookup(Live(d), KEY_FILE) || Lookup(Live(e), KEY_FILE).Some?;
  }

  lemma CallKeepsKey(d: Disk, key: nat, c: Call, k: nat)
    requires DiskOk(d, key) && TempOk(CERT_FILE, c.certIO) && KEY_FILE in Live(d)
    ensures KEY_FILE in Live(CallUntil(d, c, k))
  {
    CallIsCutAt(d, c, k);
    if Decide(Live(d), c).Issue? {
      var content := CertPem(Decide(Live(d), c).key, NotAfter(c.now));
      forall i ensures KEY_FILE in Live(WriteUntil(d, CERT_FILE, content, c.certIO, i)) {
        WriteKeepsKey(d, key, CERT_FILE, content, c.certIO, i);
      }
    }
    hide WriteUntil;
    hide CallUntil;
  }

  /** What an event adds to what was returned is for the key of the files, which are then there. */
  lemma AddedFits(w: World, key: nat, e: Event, v: World)
    requires BelongsTo(w, key) && Next(w, e, v)
    ensures v.returned == w.returned
            || (|v.returned| == |w.returned| + 1 && v.returned[..|w.returned|] == w.returned
                && FingerprintOf(v.returned[|w.returned|]) == KeyAfter(w, key, e) && KEY_FILE in Live(v.disk))
  {
    if e.Load? && Returned(w.disk, e.call).Some? {
      ReturnedFits(w.disk, key, e.call);
    }
    hide DiskOk;
    hide Returned;
    hide AfterCall;
    hide CallUntil;
  }

  lemma KeyStaysOnce(w: World, key: nat, e: Event, v: World)
    requires BelongsTo(w, key) && NextPowered(w, e, v) && KEY_FILE in Live(w.disk)
    ensures KeyAfter(w, key, e) == key
  {
    hide DiskOk;
  }

  lemma OneKeyStep(w: World, key: nat, e: Event, v: World)
    requires OneKey(w, key) && NextPowered(w, e, v)
    ensures SomeOneKey(v)
  {
    Step(w, key, e, v);
    AddedFits(w, key, e, v);
    if w.returned != [] {
      KeyFileStays(w, key, e, v);
      KeyStaysOnce(w, key, e, v);
    }
    hide DiskOk;
    hide Next;
    hide KeyAfter;
    assert OneKey(v, KeyAfter(w, key, e));
  }

  /** Kills and write errors alone never change the fingerprint. */
  lemma KillsNeverChangeTheKey(w: World, i: nat, j: nat)
    requires Runs.Reachable(START, NextPowered, w) && i < |w.returned| && j < |w.returned|
    ensures FingerprintOf(w.returned[i]) == FingerprintOf(w.returned[j])
  {
    StartBelongs();
    assert OneKey(START, 0);
    forall w, e, v | SomeOneKey(w) && NextPowered(w, e, v) ensures SomeOneKey(v) {
      var key :| OneKey(w, key);
      OneKeyStep(w, key, e, v);
    }
    Runs.InvariantHolds(START, NextPowered, SomeOneKey, w);
  }

  // What a start may find.

  /** A certificate for another key is never found, nor a damaged file; what stops a start is a certificate without a key. */
  lemma FoundIsAPair(w: World, f: Folder, c: Call)
    requires Reachable(w) && MayBeFound(w.disk, f) && !c.keyUnreadable && !c.certUnreadable
    ensures KEY_FILE in f ==> f[KEY_FILE].content.KeyPem?
    ensures CERT_FILE in f ==> f[CERT_FILE].content.CertPem?
    ensures KEY_FILE in f && CERT_FILE in f ==> f[CERT_FILE].content.key == f[KEY_FILE].content.key
    ensures Decide(f, c).Refuse? <==> CERT_FILE in f && KEY_FILE !in f
  {
    ReachableBelongs(w);
    var key :| BelongsTo(w, key);
    if PowerCut(w.disk, f) {
      PowerCutDiskOk(w.disk, key, f);
      assert f in Disk([f]).past;
    } else {
      assert f in w.disk.past;
    }
    assert FolderOk(f, key);
  }

  /** A power cut can leave the certificate alone exactly when the key waits for a sync and the certificate is there. */
  lemma StrandedIff(w: World)
    requires Reachable(w) && IsDisk(w.disk) && KEY_FILE in Live(w.disk)
    ensures (exists f :: PowerCut(w.disk, f) && CERT_FILE in f && KEY_FILE !in f)
            <==> !KeyDurable(w.disk) && CERT_FILE in Live(w.disk)
  {
    ReachableBelongs(w);
    var key :| BelongsTo(w, key);
    if f :| PowerCut(w.disk, f) && CERT_FILE in f && KEY_FILE !in f {
      PowerCutDiskOk(w.disk, key, f);
      assert f in Disk([f]).past;
      CertWasThere(w.disk, f);
    }
    if !KeyDurable(w.disk) && CERT_FILE in Live(w.disk) {
      KeyAloneMayBeLost(w.disk, key);
    }
  }

  lemma CertWasThere(d: Disk, f: Folder)
    requires IsDisk(d) && Stays(d, CERT_FILE) && PowerCut(d, f) && CERT_FILE in f
    ensures CERT_FILE in Live(d)
  {
    assert SurvivesAs(d, CERT_FILE, Lookup(f, CERT_FILE));
    var file :| MayHold(d, CERT_FILE, file) && Settles(file, Lookup(f, CERT_FILE));
    var i :| 0 <= i < |d.past| && Lookup(d.past[i], CERT_FILE) == file;
    assert d.past[i] in d.past;
  }

  lemma KeyAloneMayBeLost(d: Disk, key: nat)
    requires DiskOk(d, key) && !KeyDurable(d) && CERT_FILE in Live(d)
    ensures var f := Settle(Live(d) - {KEY_FILE}); PowerCut(d, f) && CERT_FILE in f && KEY_FILE !in f
  {
    var f := Settle(Live(d) - {KEY_FILE});
    var g :| g in d.past && KEY_FILE !in g;
    var i :| 0 <= i < |d.past| && d.past[i] == g;
    forall n ensures SurvivesAs(d, n, Lookup(f, n)) {
      LiveMayHold(d, n);
      if n == KEY_FILE {
        assert MayHold(d, n, None) && Settles(None, Lookup(f, n)) by {
          assert Lookup(d.past[i], n) == None;
        }
      } else {
        assert Settles(Lookup(Live(d), n), Lookup(f, n));
      }
    }
  }

  ghost predicate Stuck(w: World, returned: seq<Identity>) {
    Stranded(w.disk) && w.returned == returned && Inv(w)
  }

  lemma StuckStep(w: World, returned: seq<Identity>, e: Event, v: World)
    requires Stuck(w, returned) && Next(w, e, v)
    ensures Stuck(v, returned)
  {
    var key :| BelongsTo(w, key);
    Step(w, key, e, v);
    assert Live(w.disk) in w.disk.past;
    match e
    case OtherWrite(name, content, io, k) => WriteUntilDiskOk(w.disk, key, name, content, io, k);
    case PowerLoss(f) => PowerCutKeepsStranded(w.disk, f);
    case _ =>
  }

  lemma PowerCutKeepsStranded(d: Disk, f: Folder)
    requires Stranded(d) && PowerCut(d, f)
    ensures Stranded(Disk([f]))
  {
    assert SurvivesAs(d, KEY_FILE, Lookup(f, KEY_FILE));
    assert SurvivesAs(d, CERT_FILE, Lookup(f, CERT_FILE));
    forall n, file | MayHold(d, n, file) ensures exists g :: g in d.past && Lookup(g, n) == file {
      var i :| 0 <= i < |d.past| && Lookup(d.past[i], n) == file;
      assert d.past[i] in d.past;
    }
  }

  /** From then on no call ever returns an identity again. */
  lemma StrandedForEver(w: World, u: World)
    requires Reachable(w) && Stranded(w.disk) && Runs.Reachable(w, Next, u)
    ensures u.returned == w.returned
  {
    ReachableBelongs(w);
    var inv := x => Stuck(x, w.returned);
    forall x, e, y | inv(x) && Next(x, e, y) ensures inv(y) {
      StuckStep(x, w.returned, e, y);
    }
    Runs.InvariantHolds(w, Next, inv, u);
  }

  // A run that breaks the promise.

  /** A write that is killed between the rename and the sync. */
  lemma KilledBeforeSync(d: Disk, name: Name, content: Content, io: IO) returns (e: Disk)
    requires IsDisk(d) && io.fault.NoFault?
    ensures e == WriteUntil(d, name, content, io, 4) && |WriteTrace(d, name, content, io)| == 5
    ensures IsDisk(e) && Live(e) == (Live(d) - {io.temp})[name := File(content, true)]
    ensures d.past <= e.past
  {
    e := WriteUntil(d, name, content, io, 4);
    var p := Prepared(d, content, io.temp);
    assert e == Renamed(p, io.temp, name);
    assert Live(p) - {io.temp} == Live(d) - {io.temp};
  }

  /** A call that makes a key begins with the write of the key. */
  lemma BeginsWithKey(d: Disk, c: Call, k: nat)
    requires IsDisk(d) && Decide(Live(d), c).Create? && !c.noKey
    requires k <= |WriteTrace(d, KEY_FILE, KeyPem(c.newKey), c.keyIO)|
    ensures CallUntil(d, c, k) == WriteUntil(d, KEY_FILE, KeyPem(c.newKey), c.keyIO, k)
  {
    hide WriteTrace;
    hide Decide;
  }

  /** The first start, killed when the key has its name. */
  lemma FirstStart() returns (d: Disk)
    ensures d == CallUntil(START.disk, PlainCall(0, 1), 4)
    ensures IsDisk(d) && map[] in d.past && Live(d) == map[KEY_FILE := File(KeyPem(1), true)]
  {
    var d0 := START.disk;
    d := KilledBeforeSync(d0, KEY_FILE, KeyPem(1), NO_FAULT_KEY);
    hide WriteTrace;
    BeginsWithKey(d0, PlainCall(0, 1), 4);
    hide CallUntil;
    hide WriteUntil;
    assert d.past[0] == d0.past[0] == map[];
    assert d.past[0] in d.past;
  }

  /** The second start, killed when the certificate has its name. */
  lemma SecondStart(d1: Disk) returns (d: Disk)
    requires IsDisk(d1) && map[] in d1.past && Live(d1) == map[KEY_FILE := File(KeyPem(1), true)]
    ensures d == CallUntil(d1, PlainCall(0, 2), 4)
    ensures IsDisk(d) && map[] in d.past && KEY_FILE in Live(d) && CERT_FILE in Live(d)
    ensures Live(d)[KEY_FILE].content == KeyPem(1) && Live(d)[CERT_FILE].content == CertPem(1, NotAfter(0))
  {
    d := KilledBeforeSync(d1, CERT_FILE, CertPem(1, NotAfter(0)), NO_FAULT_CERT);
    hide WriteTrace;
    var i :| 0 <= i < |d1.past| && d1.past[i] == map[];
    assert d.past[i] == map[] && d.past[i] in d.past;
    assert CallTrace(d1, PlainCall(0, 2)) == WriteTrace(d1, CERT_FILE, CertPem(1, NotAfter(0)), NO_FAULT_CERT);
  }

  /** Two starts are killed, each between a rename and its sync; the third returns the pair as it is. */
  lemma UnsyncedKeyIsReturned() returns (w: World, c: Call)
    ensures Reachable(w) && CallOk(w, c)
    ensures IsDisk(w.disk) && Decide(Live(w.disk), c).Use? && !KeyDurable(w.disk)
  {
    hide Next;
    hide CallUntil;
    hide CallOk;
    var c1, c2 := PlainCall(0, 1), PlainCall(0, 2);
    var d1 := FirstStart();
    var d2 := SecondStart(d1);
    var w1 := START.(disk := d1, drawn := {1});
    w := w1.(disk := d2, drawn := {1, 2});
    c := PlainCall(0, 3);
    Runs.InitReachable(START, Next);
    PlainCallOk(START, 0, 1);
    KilledReachable(START, START, c1, 4);
    assert START.drawn + {c1.newKey} == {1};
    PlainCallOk(w1, 0, 2);
    KilledReachable(START, w1, c2, 4);
    assert w1.drawn + {c2.newKey} == {1, 2};
    PlainCallOk(w, 0, 3);
  }
}
