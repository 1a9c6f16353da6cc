/** Memory as a NIC reaches it: by the key of a region and an address. */
module NicMemory {

  type Bytes = (nat, nat) -> nat

  /** `now` is `was` with n bytes from a place in `from` written to a place in it,
      and nothing else changed. */
  ghost predicate Copied(from: Bytes, fromKey: nat, fromAt: nat, was: Bytes, key: nat, at: nat, n: nat, now: Bytes) {
    && (forall a: nat :: at <= a < at + n ==> now(key, a) == from(fromKey, fromAt + (a - at)))
    && (forall k: nat, a: nat :: k != key || a < at || at + n <= a ==> now(k, a) == was(k, a))
  }

  ghost function Copy(from: Bytes, fromKey: nat, fromAt: nat, was: Bytes, key: nat, at: nat, n: nat): Bytes {
    (k: nat, a: nat) => if k == key && at <= a < at + n then from(fromKey, fromAt + (a - at)) else was(k, a)
  }

  lemma CopyCopies(from: Bytes, fromKey: nat, fromAt: nat, was: Bytes, key: nat, at: nat, n: nat)
    ensures Copied(from, fromKey, fromAt, was, key, at, n, Copy(from, fromKey, fromAt, was, key, at, n))
  {
  }
}
