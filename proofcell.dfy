/** The single-threaded capability-token design: a `RefCell` whose
    acquisitions also mint proofs that open the sub-cells stored inside it. */
module ProofCell {
  import opened Outcome
  import opened StdLock
  import opened Capability

  class MainCell<T> {
    /** The `RefCell`'s content. */
    var value: T
    /** The `RefCell`'s borrow flag; a `RefCell` is never poisoned. */
    var state: LockState
    /** Fixed at construction; carried by every proof this cell mints. */
    const ownership: Key

    ghost predicate Valid()
      reads this
    {
      Exclusive(state) && !state.poisoned
    }

    /** `ownership` stands for the address the source derives the key from. */
    constructor (value: T, ownership: Key)
      ensures Valid() && state == Unlocked
      ensures this.value == value && this.ownership == ownership
    {
      this.value := value;
      this.ownership := ownership;
      state := Unlocked;
    }

    /** Succeeds unless the cell is mutably borrowed; then it hands out a read
        proof with the cell's key. A failure is `RefCell`'s own error, with no
        proof and no change. */
    method TryBorrow() returns (r: RefResult<ReadGuard<T>>)
      requires Valid()
      modifies this`state
      ensures Valid()
      ensures r.RefOk? <==> !old(state).writer
      ensures r.RefOk? ==> r.guard == ReadGuard(Proof(ownership), value)
      ensures r.RefOk? ==> Step(old(state), AcquireRead) == Some(state)
      ensures r.RefErr? ==> r.error == AlreadyMutablyBorrowed && state == old(state)
    {
      var proof := Proof(ownership);
      match Step(state, AcquireRead)
      case Some(s) =>
        state := s;
        r := RefOk(ReadGuard(proof, value));
      case None =>
        r := RefErr(AlreadyMutablyBorrowed);
    }

    /** Succeeds only when no other borrow is outstanding; then it hands out a
        write proof with the cell's key. */
    method TryBorrowMut() returns (r: RefResult<WriteGuard<T>>)
      requires Valid()
      modifies this`state
      ensures Valid()
      ensures r.RefOk? <==> !old(state).writer && old(state).readers == 0
      ensures r.RefOk? ==> r.guard == WriteGuard(ProofMut(ownership), value)
      ensures r.RefOk? ==> Step(old(state), AcquireWrite) == Some(state)
      ensures r.RefErr? ==> r.error == AlreadyBorrowed && state == old(state)
    {
      var proof := ProofMut(ownership);
      match Step(state, AcquireWrite)
      case Some(s) =>
        state := s;
        r := RefOk(WriteGuard(proof, value));
      case None =>
        r := RefErr(AlreadyBorrowed);
    }

    /** Drop of a `Ref` (the read guard). */
    method DropRef()
      requires Valid() && state.readers > 0
      modifies this`state
      ensures Valid() && Step(old(state), ReleaseRead) == Some(state)
    {
      state := Step(state, ReleaseRead).value;
    }

    /** Drop of a `RefMut` (the write guard); a `RefCell` has no poisoning. */
    method DropRefMut()
      requires Valid() && state.writer
      modifies this`state
      ensures Valid() && Step(old(state), ReleaseWrite(false)) == Some(state)
    {
      state := Step(state, ReleaseWrite(false)).value;
    }
  }

  /** The documented scenario: insert 42 under a write borrow, read it under a
      later read borrow, overwrite it with 99, and read 99 after that. */
  method DocScenario() returns (empty: nat, first: Borrowed<int, Fatal>, inside: Borrowed<int, Fatal>,
                                 last: Borrowed<int, Fatal>)
    ensures empty == 0 && first == Granted(42) && inside == Granted(99) && last == Granted(99)
  {
    var init: map<nat, SubCell<int>> := map[];
    var data := new MainCell(init, 1);

    var r := data.TryBorrow();
    empty := |r.guard.value|;
    data.DropRef();

    var w := data.TryBorrowMut();
    var cell := new SubCell(w.guard.proof, 42);
    data.value := data.value[0 := cell];
    data.DropRefMut();

    r := data.TryBorrow();
    first := r.guard.value[0].Borrow(r.guard.proof);
    data.DropRef();

    w := data.TryBorrowMut();
    var c := w.guard.value[0];
    var _ := c.BorrowMut(w.guard.proof, 99);
    inside := c.Borrow(w.guard.proof);
    data.DropRefMut();

    r := data.TryBorrow();
    last := r.guard.value[0].Borrow(r.guard.proof);
    data.DropRef();
  }

  /** For any values and any key: a value stored through `borrow_mut` under
      one write borrow is what a later read borrow's proof sees, and it
      replaces the value the sub-cell was created with. */
  method RoundTrip(v0: int, v: int, k: Key) returns (before: Borrowed<int, Fatal>, after: Borrowed<int, Fatal>)
    ensures before == Granted(v0) && after == Granted(v)
  {
    var init: map<nat, SubCell<int>> := map[];
    var data := new MainCell(init, k);

    var w := data.TryBorrowMut();
    var cell := new SubCell(w.guard.proof, v0);
    data.value := data.value[0 := cell];
    data.DropRefMut();

    var r := data.TryBorrow();
    before := r.guard.value[0].Borrow(r.guard.proof);
    data.DropRef();

    w := data.TryBorrowMut();
    var _ := w.guard.value[0].BorrowMut(w.guard.proof, v);
    data.DropRefMut();

    r := data.TryBorrow();
    after := r.guard.value[0].Borrow(r.guard.proof);
    data.DropRef();
  }

  /** A sub-cell created under one cell's write proof opens for a proof of
      another cell exactly when the two keys coincide. */
  method ForeignProofScenario(keyA: Key, keyB: Key) returns (r: Borrowed<int, Fatal>)
    ensures r.Granted? <==> keyA == keyB
    ensures r.Panicked? ==> r.reason == KeyMismatch(keyA, keyB)
  {
    var a := new MainCell(0, keyA);
    var b := new MainCell(0, keyB);
    var w := a.TryBorrowMut();
    var cell := new SubCell(w.guard.proof, 5);
    a.DropRefMut();
    var rb := b.TryBorrow();
    r := cell.Borrow(rb.guard.proof);
  }

  /** For any key and content: a second write borrow, or a read borrow,
      fails while a write borrow is outstanding, and hands out no proof. */
  method ConflictScenario(k: Key, v: int) returns (second: RefResult<WriteGuard<int>>,
                                                   reader: RefResult<ReadGuard<int>>,
                                                   afterRelease: RefResult<ReadGuard<int>>)
    ensures second == RefErr(AlreadyBorrowed) && reader == RefErr(AlreadyMutablyBorrowed)
    ensures afterRelease == RefOk(ReadGuard(Proof(k), v))
  {
    var data := new MainCell(v, k);
    var w := data.TryBorrowMut();
    second := data.TryBorrowMut();
    reader := data.TryBorrow();
    data.DropRefMut();
    afterRelease := data.TryBorrow();
  }
}
