/** Values shared by every component: optional results, node identities and
    egress addresses. */
module Types {
  datatype Option<+T> = None | Some(value: T)

  type byte = b: int | 0 <= b < 256

  /** A 128-bit node identity: its first byte picks a shard, the rest is never
      looked into. */
  datatype Hash = Hash(lead: byte, tail: nat)

  const ZERO_HASH := Hash(0, 0)

  /** An egress address.  The zero value stands for "not known yet". */
  datatype Addr = NoAddr | Addr(bits: nat) {
    predicate IsValid() {
      Addr?
    }
  }

  /** How urgent a probe is. */
  datatype Priority = Normal | High

  /** An account name.  Only equality and being empty are ever asked of it. */
  datatype Account = NoAccount | Account(id: nat)
}
