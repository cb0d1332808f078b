// The agent's TLS identity (agent/internal/tlsid/tlsid.go).
//
// Keys and certificates are symbolic: a certificate names the key it was made
// for, and its fingerprint is that key.
module TlsId {
  import opened Common
  import opened Disks
  import opened StateDir

  const HOUR: Time := 60 * MINUTE
  const VALIDITY: Time := 10 * 365 * 24 * HOUR
  const RENEW_BEFORE: Time := 30 * 24 * HOUR

  datatype Identity = Identity(key: nat, notAfter: Time)

  function FingerprintOf(i: Identity): nat {
    i.key
  }

  /** A certificate holds whole seconds. */
  function NotAfter(now: Time): Time {
    (now + VALIDITY) / SECOND * SECOND
  }

  /** One call: when it is made, the key it would draw, what it cannot read or make, and how its two writes go. */
  datatype Call = Call(
    now: Time, newKey: nat, keyUnreadable: bool, certUnreadable: bool, noKey: bool, noCertificate: bool,
    keyIO: IO, certIO: IO)

  datatype Decision = Refuse | Use(identity: Identity) | Issue(key: nat) | Create

  /** What the two files lead to. */
  function Decide(f: Folder, c: Call): Decision {
    if KEY_FILE !in f && !c.keyUnreadable && CERT_FILE !in f && !c.certUnreadable then Create
    else if KEY_FILE !in f || c.keyUnreadable || !f[KEY_FILE].content.KeyPem? then Refuse
    else if CERT_FILE !in f && !c.certUnreadable then Issue(f[KEY_FILE].content.key)
    else if c.certUnreadable || !f[CERT_FILE].content.CertPem? || f[CERT_FILE].content.key != f[KEY_FILE].content.key then Refuse
    else if c.now + RENEW_BEFORE > f[CERT_FILE].content.notAfter then Issue(f[KEY_FILE].content.key)
    else Use(Identity(f[KEY_FILE].content.key, f[CERT_FILE].content.notAfter))
  }

  function NewIdentity(key: nat, c: Call): Identity {
    Identity(key, NotAfter(c.now))
  }

  function IssueTrace(d: Disk, key: nat, c: Call): seq<Disk>
    requires IsDisk(d)
  {
    if c.noCertificate then [] else WriteTrace(d, CERT_FILE, CertPem(key, NotAfter(c.now)), c.certIO)
  }

  function KeyWritten(d: Disk, c: Call): (e: Disk)
    requires IsDisk(d)
    ensures IsDisk(e)
  {
    Written(d, KEY_FILE, KeyPem(c.newKey), c.keyIO)
  }

  /** The disk after each step of a call that changes it. */
  function CallTrace(d: Disk, c: Call): (trace: seq<Disk>)
    requires IsDisk(d)
    ensures forall e :: e in trace ==> IsDisk(e)
  {
    match Decide(Live(d), c)
    case Issue(key) => IssueTrace(d, key, c)
    case Create =>
      if c.noKey then []
      else
        WriteTrace(d, KEY_FILE, KeyPem(c.newKey), c.keyIO)
        + if c.keyIO.fault.NoFault? then IssueTrace(KeyWritten(d, c), c.newKey, c) else []
    case _ => []
  }

  predicate Issues(c: Call) {
    !c.noCertificate && c.certIO.fault.NoFault?
  }

  function Returned(d: Disk, c: Call): Option<Identity>
    requires IsDisk(d)
  {
    match Decide(Live(d), c)
    case Refuse => None
    case Use(i) => Some(i)
    case Issue(key) => if Issues(c) then Some(NewIdentity(key, c)) else None
    case Create => if !c.noKey && c.keyIO.fault.NoFault? && Issues(c) then Some(NewIdentity(c.newKey, c)) else None
  }

  /** The disk when a call is cut short after k of its steps, or has run to its end. */
  function CallUntil(d: Disk, c: Call, k: nat): (e: Disk)
    requires IsDisk(d)
    ensures IsDisk(e)
  {
    var trace := CallTrace(d, c);
    AfterSteps(d, trace, if k < |trace| then k else |trace|)
  }

  function AfterCall(d: Disk, c: Call): (e: Disk)
    requires IsDisk(d)
    ensures IsDisk(e)
  {
    CallUntil(d, c, |CallTrace(d, c)|)
  }

  method IssueCertificate(dir: Dir, key: nat, c: Call) returns (identity: Option<Identity>)
    requires dir.Valid()
    modifies dir
    ensures dir.Valid() && dir.trace == old(dir.trace) + IssueTrace(old(dir.disk), key, c)
    ensures dir.disk == AfterSteps(old(dir.disk), IssueTrace(old(dir.disk), key, c), |IssueTrace(old(dir.disk), key, c)|)
    ensures identity == if Issues(c) then Some(NewIdentity(key, c)) else None
  {
    if c.noCertificate {
      return None;
    }
    var ok := dir.WriteFile(CERT_FILE, CertPem(key, NotAfter(c.now)), c.certIO);
    return if ok then Some(NewIdentity(key, c)) else None;
  }

  method LoadOrCreate(dir: Dir, c: Call) returns (identity: Option<Identity>)
    requires dir.Valid()
    modifies dir
    ensures dir.Valid() && dir.trace == old(dir.trace) + CallTrace(old(dir.disk), c)
    ensures dir.disk == AfterCall(old(dir.disk), c)
    ensures identity == Returned(old(dir.disk), c)
  {
    hide WriteTrace;
    var keyFile := dir.ReadFile(KEY_FILE);
    var certFile := dir.ReadFile(CERT_FILE);
    if keyFile.None? && !c.keyUnreadable && certFile.None? && !c.certUnreadable {
      if c.noKey {
        return None;
      }
      var ok := dir.WriteFile(KEY_FILE, KeyPem(c.newKey), c.keyIO);
      if !ok {
        return None;
      }
      identity := IssueCertificate(dir, c.newKey, c);
      return identity;
    }
    if keyFile.None? || c.keyUnreadable {
      return None;
    }
    if !keyFile.value.content.KeyPem? {
      return None;
    }
    var key := keyFile.value.content.key;
    if certFile.None? && !c.certUnreadable {
      identity := IssueCertificate(dir, key, c);
      return identity;
    }
    if c.certUnreadable {
      return None;
    }
    if !certFile.value.content.CertPem? || certFile.value.content.key != key {
      return None;
    }
    var notAfter := certFile.value.content.notAfter;
    if c.now + RENEW_BEFORE > notAfter {
      identity := IssueCertificate(dir, key, c);
      return identity;
    }
    return Some(Identity(key, notAfter));
  }

  /** A new certificate is valid for ten years, in whole seconds rounded down. */
  lemma ValidForTenYears(key: nat, c: Call)
    ensures var i := NewIdentity(key, c);
            && i.key == key && i.notAfter % SECOND == 0
            && c.now + 10 * 365 * 24 * 60 * MINUTE - SECOND < i.notAfter <= c.now + 10 * 365 * 24 * 60 * MINUTE
  {
    var t := c.now + VALIDITY;
    assert t / SECOND * SECOND > t - SECOND;
    assert t / SECOND * SECOND % SECOND == 0 by {
      WholeSeconds(t / SECOND);
    }
  }

  lemma WholeSeconds(n: nat)
    ensures n * SECOND % SECOND == 0
  {
  }

  /** The files are a pair with thirty days left: it is returned as it is, and nothing is written. */
  lemma GoodPairIsUsed(d: Disk, c: Call, key: nat, notAfter: Time)
    requires IsDisk(d) && "tls.key" in Live(d) && "tls.crt" in Live(d) && !c.keyUnreadable && !c.certUnreadable
    requires Live(d)["tls.key"].content == KeyPem(key) && Live(d)["tls.crt"].content == CertPem(key, notAfter)
    requires c.now + 30 * 24 * 60 * MINUTE <= notAfter
    ensures Returned(d, c) == Some(Identity(key, notAfter)) && AfterCall(d, c) == d
  {
  }

  /** The key is there and its certificate is missing or has less left: a certificate for the same key is written, and no key. */
  lemma DueIsIssuedAgain(d: Disk, c: Call, key: nat)
    requires IsDisk(d) && "tls.key" in Live(d) && !c.keyUnreadable && !c.certUnreadable
    requires Live(d)["tls.key"].content == KeyPem(key)
    requires "tls.crt" in Live(d) ==>
               && Live(d)["tls.crt"].content.CertPem? && Live(d)["tls.crt"].content.key == key
               && Live(d)["tls.crt"].content.notAfter < c.now + 30 * 24 * 60 * MINUTE
    ensures Returned(d, c).Some? <==> !c.noCertificate && c.certIO.fault.NoFault?
    ensures Returned(d, c).Some? ==> Returned(d, c).value == NewIdentity(key, c)
    ensures AfterCall(d, c) ==
              if c.noCertificate then d
              else Written(d, "tls.crt", CertPem(key, NewIdentity(key, c).notAfter), c.certIO)
  {
    hide WriteTrace;
  }

  /** Neither file is there: the key is written first, and the certificate only when the key is certain to be there. */
  lemma NothingIsCreated(d: Disk, c: Call)
    requires IsDisk(d) && "tls.key" !in Live(d) && "tls.crt" !in Live(d) && !c.keyUnreadable && !c.certUnreadable
    ensures Returned(d, c).Some? <==>
              !c.noKey && c.keyIO.fault.NoFault? && !c.noCertificate && c.certIO.fault.NoFault?
    ensures Returned(d, c).Some? ==> Returned(d, c).value == NewIdentity(c.newKey, c)
    ensures AfterCall(d, c) ==
              if c.noKey then d
              else
                var e := Written(d, "tls.key", KeyPem(c.newKey), c.keyIO);
                if !c.keyIO.fault.NoFault? || c.noCertificate then e
                else Written(e, "tls.crt", CertPem(c.newKey, NewIdentity(c.newKey, c).notAfter), c.certIO)
  {
    hide WriteTrace;
  }

  /**
   * Anything else is an error, and changes nothing: a file that cannot be read
   * or decoded, no key for a certificate, two that do not belong together.
   */
  lemma AnythingElseIsRefused(d: Disk, c: Call)
    requires IsDisk(d)
    requires || c.keyUnreadable
             || ("tls.key" in Live(d) && !Live(d)["tls.key"].content.KeyPem?)
             || ("tls.key" !in Live(d) && ("tls.crt" in Live(d) || c.certUnreadable))
             || c.certUnreadable
             || ("tls.key" in Live(d) && Live(d)["tls.key"].content.KeyPem? && "tls.crt" in Live(d)
                 && (!Live(d)["tls.crt"].content.CertPem? || Live(d)["tls.crt"].content.key != Live(d)["tls.key"].content.key))
    ensures Returned(d, c) == None && AfterCall(d, c) == d
  {
  }

  /** Every identity that is returned has its thirty days left. */
  lemma ReturnedIsNotDue(d: Disk, c: Call)
    requires IsDisk(d) && Returned(d, c).Some?
    ensures c.now + RENEW_BEFORE <= Returned(d, c).value.notAfter
  {
    var t := c.now + VALIDITY;
    assert t / SECOND * SECOND > t - SECOND;
  }
}
