/** Values shared by every component of the model. */
module Wrappers {

  /** A byte on the wire. */
  newtype byte = b: int | 0 <= b < 256

  type Bytes = seq<byte>

  /** Identities and addresses, told apart by number. */
  type PublicKey = nat
  type PeerId = nat
  type Multiaddr = nat

  datatype DialOutcome = Success | Failed

  datatype Option<+T> = None | Some(value: T)

  datatype Result<+T, +E> = Ok(value: T) | Err(error: E)

  /** `Poll<Result<(), E>>`: the answer of a socket operation that returns no value. */
  datatype PollUnit = Pending | ReadyOk | ReadyErr

  function Get<K, V>(m: map<K, V>, k: K): Option<V> {
    if k in m then Some(m[k]) else None
  }

  /** The set stored under a key, empty if there is none. */
  function SetAt<K, T>(m: map<K, set<T>>, k: K): set<T> {
    if k in m then m[k] else {}
  }
}
