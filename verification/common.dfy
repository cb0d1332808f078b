// The values that several components share.
module Common {

  /** Nanoseconds since the zero time. */
  type Time = nat

  const SECOND: Time := 1_000_000_000
  const MINUTE: Time := 60 * SECOND

  type DeviceId = string

  datatype Option<+T> = None | Some(value: T)

  /** A device token: the id of its device and 32 random bytes, never handed out twice. */
  datatype Token = Token(id: DeviceId, secret: nat)

  /** The stored hash of a token. Hashing is symbolic here, so it has no collisions. */
  datatype Digest = Sha256Hex(token: Token)

  /** What a device may do; Unknown stands for every other text. */
  datatype Role = Full | ReadOnly | Unknown(text: string)
  {
    predicate Valid() {
      !Unknown?
    }
  }

  /** One paired phone (agent/internal/state/devices.go). */
  datatype Device = Device(
    id: DeviceId, name: string, role: Role, tokenHash: Digest, createdAt: Time, lastSeenAt: Time)

  /** The id of requests that come with the shared token (agent/internal/auth/authenticator.go). */
  const LEGACY_DEVICE_ID: DeviceId := "env"

  lemma {:induction false} SomeNumberIsNew(known: set<nat>) returns (n: nat)
    ensures forall k :: k in known ==> k < n
  {
    n := 0;
    if known != {} {
      var k :| k in known;
      var other := SomeNumberIsNew(known - {k});
      n := if other > k then other else k + 1;
      forall x | x in known ensures x < n {
        assert x == k || x in known - {k};
      }
    }
  }
}
