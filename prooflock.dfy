/** The multi-threaded capability-token design: an `RwLock` whose
    acquisitions also mint proofs that open the sub-cells stored inside it.
    Blocking is abstracted to a precondition: a blocking call returns once
    the lock is available, so the modelled step starts there. */
module ProofLock {
  import opened Outcome
  import opened StdLock
  import opened Capability

  class MainLock<T> {
    /** The `RwLock`'s content. */
    var value: T
    /** The `RwLock`'s readers, writer and poison flag. */
    var state: LockState
    /** Fixed at construction; carried by every proof this lock mints. */
    const ownership: Key

    ghost predicate Valid()
      reads this
    {
      Exclusive(state)
    }

    /** `ownership` stands for the address the source derives the key from. */
    constructor (value: T, ownership: Key)
      ensures Valid() && state == Unlocked
      ensures this.value == value && this.ownership == ownership
    {
      this.value := value;
      this.ownership := ownership;
      state := Unlocked;
    }

    /** `read`: a read proof with the lock's key, on the poisoned path too. */
    method Read() returns (r: LockResult<ReadGuard<T>>)
      requires Valid() && !state.writer
      modifies this`state
      ensures Valid() && Step(old(state), AcquireRead) == Some(state)
      ensures r.guard == ReadGuard(Proof(ownership), value)
      ensures r.Poisoned? <==> state.poisoned
    {
      var proof := Proof(ownership);
      state := Step(state, AcquireRead).value;
      if state.poisoned {
        r := Poisoned(ReadGuard(proof, value));
      } else {
        r := Ok(ReadGuard(proof, value));
      }
    }

    /** `try_read`: `WouldBlock` without a proof or a change while a writer
        holds the lock; otherwise as `read`. */
    method TryRead() returns (r: TryLockResult<ReadGuard<T>>)
      requires Valid()
      modifies this`state
      ensures Valid()
      ensures r.WouldBlock? <==> old(state).writer
      ensures r.WouldBlock? ==> state == old(state)
      ensures !r.WouldBlock? ==> Step(old(state), AcquireRead) == Some(state)
      ensures !r.WouldBlock? ==> r.guard == ReadGuard(Proof(ownership), value)
      ensures r.TryPoisoned? <==> !old(state).writer && state.poisoned
    {
      var proof := Proof(ownership);
      match Step(state, AcquireRead)
      case None =>
        r := WouldBlock;
      case Some(s) =>
        state := s;
        if state.poisoned {
          r := TryPoisoned(ReadGuard(proof, value));
        } else {
          r := TryOk(ReadGuard(proof, value));
        }
    }

    /** `write`: a write proof with the lock's key, on the poisoned path too. */
    method Write() returns (r: LockResult<WriteGuard<T>>)
      requires Valid() && !state.writer && state.readers == 0
      modifies this`state
      ensures Valid() && Step(old(state), AcquireWrite) == Some(state)
      ensures r.guard == WriteGuard(ProofMut(ownership), value)
      ensures r.Poisoned? <==> state.poisoned
    {
      var proof := ProofMut(ownership);
      state := Step(state, AcquireWrite).value;
      if state.poisoned {
        r := Poisoned(WriteGuard(proof, value));
      } else {
        r := Ok(WriteGuard(proof, value));
      }
    }

    /** `try_write`: `WouldBlock` without a proof or a change while any guard
        is outstanding; otherwise as `write`. */
    method TryWrite() returns (r: TryLockResult<WriteGuard<T>>)
      requires Valid()
      modifies this`state
      ensures Valid()
      ensures r.WouldBlock? <==> old(state).writer || old(state).readers > 0
      ensures r.WouldBlock? ==> state == old(state)
      ensures !r.WouldBlock? ==> Step(old(state), AcquireWrite) == Some(state)
      ensures !r.WouldBlock? ==> r.guard == WriteGuard(ProofMut(ownership), value)
      ensures r.TryPoisoned? <==> !r.WouldBlock? && state.poisoned
    {
      var proof := ProofMut(ownership);
      match Step(state, AcquireWrite)
      case None =>
        r := WouldBlock;
      case Some(s) =>
        state := s;
        if state.poisoned {
          r := TryPoisoned(WriteGuard(proof, value));
        } else {
          r := TryOk(WriteGuard(proof, value));
        }
    }

    /** Drop of an `RwLockReadGuard`. */
    method DropReadGuard()
      requires Valid() && state.readers > 0
      modifies this`state
      ensures Valid() && Step(old(state), ReleaseRead) == Some(state)
    {
      state := Step(state, ReleaseRead).value;
    }

    /** Drop of an `RwLockWriteGuard`; `panicking` is an unwinding panic,
        which poisons the lock. */
    method DropWriteGuard(panicking: bool)
      requires Valid() && state.writer
      modifies this`state
      ensures Valid() && Step(old(state), ReleaseWrite(panicking)) == Some(state)
    {
      state := Step(state, ReleaseWrite(panicking)).value;
    }
  }

  /** The documented scenario: 42 inserted under a write acquisition is read
      back as 42; after `borrow_mut` sets 99 a later read sees 99. */
  method DocScenario() returns (empty: nat, first: Borrowed<int, Fatal>, inside: Borrowed<int, Fatal>,
                                 last: Borrowed<int, Fatal>)
    ensures empty == 0 && first == Granted(42) && inside == Granted(99) && last == Granted(99)
  {
    var init: map<nat, SubCell<int>> := map[];
    var data := new MainLock(init, 1);

    var r := data.Read();
    empty := |r.guard.value|;
    data.DropReadGuard();

    var w := data.Write();
    var cell := new SubCell(w.guard.proof, 42);
    data.value := data.value[0 := cell];
    data.DropWriteGuard(false);

    r := data.Read();
    first := r.guard.value[0].Borrow(r.guard.proof);
    data.DropReadGuard();

    w := data.Write();
    var c := w.guard.value[0];
    var _ := c.BorrowMut(w.guard.proof, 99);
    inside := c.Borrow(w.guard.proof);
    data.DropWriteGuard(false);

    r := data.Read();
    last := r.guard.value[0].Borrow(r.guard.proof);
    data.DropReadGuard();
  }

  /** For any values and any key: a value stored through `borrow_mut` under
      one `write` is what a later `read`'s proof sees, and it replaces the
      value the sub-cell was created with. */
  method RoundTrip(v0: int, v: int, k: Key) returns (before: Borrowed<int, Fatal>, after: Borrowed<int, Fatal>)
    ensures before == Granted(v0) && after == Granted(v)
  {
    var init: map<nat, SubCell<int>> := map[];
    var data := new MainLock(init, k);

    var w := data.Write();
    var cell := new SubCell(w.guard.proof, v0);
    data.value := data.value[0 := cell];
    data.DropWriteGuard(false);

    var r := data.Read();
    before := r.guard.value[0].Borrow(r.guard.proof);
    data.DropReadGuard();

    w := data.Write();
    var _ := w.guard.value[0].BorrowMut(w.guard.proof, v);
    data.DropWriteGuard(false);

    r := data.Read();
    after := r.guard.value[0].Borrow(r.guard.proof);
    data.DropReadGuard();
  }

  /** For any key and value: a writer panics while holding the lock; later
      `read` and `write` report poisoning, yet still carry the proof and the
      same data, and the proof still opens the sub-cell. */
  method PoisonScenario(k: Key, v: int) returns (reader: LockResult<ReadGuard<map<nat, SubCell<int>>>>,
                                                 seen: Borrowed<int, Fatal>,
                                                 writer: LockResult<WriteGuard<map<nat, SubCell<int>>>>)
    ensures reader.Poisoned? && reader.guard.proof == Proof(k) && seen == Granted(v)
    ensures writer.Poisoned? && writer.guard.proof == ProofMut(k)
    ensures writer.guard.value == reader.guard.value && 0 in writer.guard.value
  {
    var init: map<nat, SubCell<int>> := map[];
    var data := new MainLock(init, k);
    var w := data.Write();
    var cell := new SubCell(w.guard.proof, v);
    data.value := data.value[0 := cell];
    data.DropWriteGuard(true);
    reader := data.Read();
    seen := reader.guard.value[0].Borrow(reader.guard.proof);
    data.DropReadGuard();
    writer := data.Write();
    data.DropWriteGuard(false);
  }

  /** For any key and content: `try_read` and `try_write` report
      `WouldBlock` while a write guard is outstanding, and `try_write`
      succeeds once it is released. */
  method TryScenario(k: Key, v: int) returns (blockedRead: TryLockResult<ReadGuard<int>>,
                                              blockedWrite: TryLockResult<WriteGuard<int>>,
                                              afterRelease: TryLockResult<WriteGuard<int>>)
    ensures blockedRead == WouldBlock && blockedWrite == WouldBlock
    ensures afterRelease == TryOk(WriteGuard(ProofMut(k), v))
  {
    var data := new MainLock(v, k);
    var w := data.TryWrite();
    blockedRead := data.TryRead();
    blockedWrite := data.TryWrite();
    data.DropWriteGuard(false);
    afterRelease := data.TryWrite();
  }
}
