/** The capability-token design: a coarse lock identified by a key mints
    read proofs (`Proof`) and write proofs (`ProofMut`) carrying that key,
    and a sub-cell opens only for a proof whose key is its owner key.
    The single-threaded cell and the multi-threaded lock have the same code
    for the sub-cell, its `borrow`/`borrow_mut` and the two proof types;
    they differ in the standard guard each acquisition pairs with its proof. */
module Capability {
  import opened Outcome

  /** Identity of one coarse cell or lock. */
  type Key = nat

  /** `Proof`: the coarse lock is held for reading. `ProofMut`: held for writing. */
  datatype Proof = Proof(key: Key) | ProofMut(key: Key)

  type ReadProof = p: Proof | p.Proof? witness Proof(0)

  /** Only a write proof can create a sub-cell or open one for writing. */
  type WriteProof = p: Proof | p.ProofMut? witness ProofMut(0)

  /** The failed `assert_eq!(self.owner_key, proof.0)`: left and right values. */
  datatype Fatal = KeyMismatch(owner: Key, presented: Key)

  /** A read acquisition: the proof and what the guard derefs to. */
  datatype ReadGuard<T> = ReadGuard(proof: ReadProof, value: T)

  /** A write acquisition: the proof and what the guard derefs to when taken. */
  datatype WriteGuard<T> = WriteGuard(proof: WriteProof, value: T)

  /** A nested cell, bound to the coarse lock whose write proof created it. */
  class SubCell<T> {
    var payload: T
    const ownerKey: Key

    /** Created only under a write proof; remembers that proof's key. */
    constructor (proof: WriteProof, value: T)
      ensures ownerKey == proof.key && payload == value
    {
      ownerKey := proof.key;
      payload := value;
    }

    /** Shared access, under a read or a write proof of the owning lock. */
    function Borrow(proof: Proof): (r: Borrowed<T, Fatal>)
      reads this
      ensures r.Granted? <==> proof.key == ownerKey
      ensures r.Granted? ==> r.value == payload
      ensures r.Panicked? ==> r.reason == KeyMismatch(ownerKey, proof.key)
    {
      if ownerKey == proof.key then Granted(payload)
      else Panicked(KeyMismatch(ownerKey, proof.key))
    }

    /** Exclusive access, under a write proof only: stores `v` through the
        mutable borrow. Afterwards every proof of the owning lock, read or
        write, reads `v` back. */
    method BorrowMut(proof: WriteProof, v: T) returns (r: Borrowed<(), Fatal>)
      modifies this
      ensures r.Granted? <==> proof.key == ownerKey
      ensures r.Panicked? ==> r.reason == KeyMismatch(ownerKey, proof.key)
      ensures payload == if r.Granted? then v else old(payload)
      ensures r.Granted? ==> forall p: Proof :: p.key == ownerKey ==> Borrow(p) == Granted(v)
    {
      if ownerKey == proof.key {
        payload := v;
        r := Granted(());
      } else {
        r := Panicked(KeyMismatch(ownerKey, proof.key));
      }
    }
  }
}

