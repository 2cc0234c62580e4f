/** The liveness-flag design: every sub-cell shares the coarse lock's
    liveness record `{is_alive, is_mut}` and re-checks it on each access.
    Write guards raise `is_mut` while they live; dropping the lock clears
    both flags for good. */
module AtomLock {
  import opened Outcome
  import opened StdLock

  /** The value of a liveness record. */
  datatype Flags = Flags(isAlive: bool, isMut: bool)

  /** The record as `MainLock::new` creates it. */
  const Fresh := Flags(true, false)

  /** The stores made to the record: building a write guard, dropping one,
      and dropping the coarse lock. Read acquisitions store nothing. */
  datatype Event = GuardBuilt | GuardDropped | LockDropped

  function Next(f: Flags, e: Event): (g: Flags)
  {
    match e
    case GuardBuilt => f.(isMut := true)
    case GuardDropped => f.(isMut := false)
    case LockDropped => Flags(false, false)
  }

  /** The record after the events `es`, in order. */
  function Replay(f: Flags, es: seq<Event>): (g: Flags)
    decreases |es|
  {
    if es == [] then f else Replay(Next(f, es[0]), es[1..])
  }

  /** The check `SubCell::borrow` makes. */
  predicate MayBorrow(f: Flags)
  {
    f.isAlive
  }

  /** The two checks `SubCell::borrow_mut` makes. */
  predicate MayBorrowMut(f: Flags)
  {
    f.isAlive && f.isMut
  }

  /** The record stays alive exactly until the coarse lock is dropped. */
  lemma {:induction false} AliveUntilLockDropped(f: Flags, es: seq<Event>)
    ensures Replay(f, es).isAlive <==> f.isAlive && LockDropped !in es
    decreases |es|
  {
    if es != [] {
      AliveUntilLockDropped(Next(f, es[0]), es[1..]);
      assert es == [es[0]] + es[1..];
    }
  }

  /** `is_mut` is whatever the most recent event left: raised only by
      building a write guard, lowered by every other store. */
  lemma {:induction false} MutFollowsLastEvent(f: Flags, es: seq<Event>)
    ensures Replay(f, es).isMut <==> if es == [] then f.isMut else es[|es| - 1] == GuardBuilt
    decreases |es|
  {
    if es != [] {
      MutFollowsLastEvent(Next(f, es[0]), es[1..]);
    }
  }

  /** From a fresh record, `borrow_mut` passes its checks exactly when the
      lock was never dropped and the last event built a write guard, that
      is, while that write guard is still outstanding. */
  lemma {:induction false} BorrowMutIffGuardOutstanding(es: seq<Event>)
    ensures MayBorrowMut(Replay(Fresh, es)) <==>
      LockDropped !in es && es != [] && es[|es| - 1] == GuardBuilt
  {
    AliveUntilLockDropped(Fresh, es);
    MutFollowsLastEvent(Fresh, es);
  }

  /** Once the coarse lock is dropped, no later store re-opens any sub-cell,
      for reading or for writing. */
  lemma {:induction false} NoAccessAfterDrop(f: Flags, before: seq<Event>, after: seq<Event>)
    ensures !MayBorrow(Replay(f, before + [LockDropped] + after))
    ensures !MayBorrowMut(Replay(f, before + [LockDropped] + after))
  {
    var es := before + [LockDropped] + after;
    assert es[|before|] == LockDropped;
    AliveUntilLockDropped(f, es);
  }

  /** The shared, reference-counted record (`Arc<Liveness>`). */
  class Liveness {
    var isAlive: bool
    var isMut: bool

    constructor ()
      ensures Record() == Fresh
    {
      isAlive, isMut := true, false;
    }

    function Record(): (f: Flags)
      reads this
    {
      Flags(isAlive, isMut)
    }
  }

  datatype Fatal = BorrowAfterRelease | BorrowMutAfterRelease | BorrowMutWhileShared

  /** A nested cell holding a clone of the coarse lock's liveness record. */
  class SubCell<T> {
    var payload: T
    const liveness: Liveness

    /** Shares the record it is given; no access is checked here. */
    constructor (liveness: Liveness, value: T)
      ensures this.liveness == liveness && payload == value
    {
      this.liveness := liveness;
      payload := value;
    }

    /** Shared access: granted exactly while the coarse lock is alive. */
    function Borrow(): (r: Borrowed<T, Fatal>)
      reads this, liveness
      ensures r.Granted? <==> MayBorrow(liveness.Record())
      ensures r.Granted? ==> r.value == payload
      ensures r.Panicked? ==> r.reason == BorrowAfterRelease
    {
      if liveness.isAlive then Granted(payload) else Panicked(BorrowAfterRelease)
    }

    /** Exclusive access: granted exactly while the coarse lock is alive and
        write-locked; stores `v` through the mutable borrow. Liveness is
        checked first, then mutability. */
    method BorrowMut(v: T) returns (r: Borrowed<(), Fatal>)
      modifies this
      ensures r.Granted? <==> MayBorrowMut(liveness.Record())
      ensures r.Panicked? ==> r.reason == if liveness.isAlive then BorrowMutWhileShared else BorrowMutAfterRelease
      ensures payload == if r.Granted? then v else old(payload)
      ensures r.Granted? ==> Borrow() == Granted(v)
    {
      if !liveness.isAlive {
        r := Panicked(BorrowMutAfterRelease);
      } else if !liveness.isMut {
        r := Panicked(BorrowMutWhileShared);
      } else {
        payload := v;
        r := Granted(());
      }
    }
  }

  class MainLock<T> {
    /** The `RwLock`'s content. */
    var value: T
    /** The `RwLock`'s readers, writer and poison flag. */
    var state: LockState
    const liveness: Liveness
    /** The write guard that holds the write lock, if any: only that guard's
        drop releases it. */
    ghost var holder: WriteGuard?<T>

    /** While the lock exists its record is alive, and `is_mut` is raised
        exactly while the write lock is held, by the one guard `holder`. */
    ghost predicate Valid()
      reads this, liveness
    {
      Exclusive(state) && liveness.isAlive && (liveness.isMut <==> state.writer)
      && (state.writer <==> holder != null)
    }

    /** Creates a fresh record and hands it to `build`, which builds the
        protected value (typically keeping a clone of the record). */
    constructor (build: Liveness -> T)
      ensures Valid() && fresh(liveness) && liveness.Record() == Fresh
      ensures state == Unlocked && value == build(liveness)
    {
      var l := new Liveness();
      liveness := l;
      value := build(l);
      state := Unlocked;
      holder := null;
    }

    /** `read`: the guard, flagged when poisoned; the record is untouched. */
    method Read() returns (r: LockResult<T>)
      requires Valid() && !state.writer
      modifies this`state
      ensures Valid() && Step(old(state), AcquireRead) == Some(state)
      ensures r.guard == value && (r.Poisoned? <==> state.poisoned)
      ensures liveness.Record() == old(liveness.Record())
    {
      state := Step(state, AcquireRead).value;
      r := if state.poisoned then Poisoned(value) else Ok(value);
    }

    /** `try_read`: `WouldBlock` while a writer holds the lock; the record is
        untouched on every path. */
    method TryRead() returns (r: TryLockResult<T>)
      requires Valid()
      modifies this`state
      ensures Valid() && liveness.Record() == old(liveness.Record())
      ensures r.WouldBlock? <==> old(state).writer
      ensures r.WouldBlock? ==> state == old(state)
      ensures !r.WouldBlock? ==> Step(old(state), AcquireRead) == Some(state) && r.guard == value
      ensures r.TryPoisoned? <==> !old(state).writer && state.poisoned
    {
      match Step(state, AcquireRead)
      case None =>
        r := WouldBlock;
      case Some(s) =>
        state := s;
        r := if state.poisoned then TryPoisoned(value) else TryOk(value);
    }

    /** `write`: builds a `WriteGuard`, raising `is_mut`, on the poisoned
        path as well. */
    method Write() returns (r: LockResult<WriteGuard<T>>)
      requires Valid() && !state.writer && state.readers == 0
      modifies this`state, this`holder, liveness
      ensures Valid() && Step(old(state), AcquireWrite) == Some(state)
      ensures liveness.Record() == Next(old(liveness.Record()), GuardBuilt)
      ensures fresh(r.guard) && r.guard.lock == this && r.guard.liveness == liveness && r.guard.live
      ensures holder == r.guard
      ensures r.Poisoned? <==> state.poisoned
    {
      state := Step(state, AcquireWrite).value;
      var guard := new WriteGuard(this, liveness);
      holder := guard;
      r := if state.poisoned then Poisoned(guard) else Ok(guard);
    }

    /** `try_write`: `WouldBlock` leaves the lock and the record untouched;
        otherwise as `write`. */
    method TryWrite() returns (r: TryLockResult<WriteGuard<T>>)
      requires Valid()
      modifies this`state, this`holder, liveness
      ensures Valid()
      ensures r.WouldBlock? <==> old(state).writer || old(state).readers > 0
      ensures r.WouldBlock? ==> state == old(state) && liveness.Record() == old(liveness.Record())
      ensures r.WouldBlock? ==> holder == old(holder)
      ensures !r.WouldBlock? ==> holder == r.guard
      ensures !r.WouldBlock? ==> Step(old(state), AcquireWrite) == Some(state)
      ensures !r.WouldBlock? ==> liveness.Record() == Next(old(liveness.Record()), GuardBuilt)
      ensures !r.WouldBlock? ==> fresh(r.guard) && r.guard.lock == this && r.guard.liveness == liveness && r.guard.live
      ensures r.TryPoisoned? <==> !r.WouldBlock? && state.poisoned
    {
      match Step(state, AcquireWrite)
      case None =>
        r := WouldBlock;
      case Some(s) =>
        state := s;
        var guard := new WriteGuard(this, liveness);
        holder := guard;
        r := if state.poisoned then TryPoisoned(guard) else TryOk(guard);
    }

    /** Drop of an `RwLockReadGuard`; the record is untouched. */
    method DropReadGuard()
      requires Valid() && state.readers > 0
      modifies this`state
      ensures Valid() && Step(old(state), ReleaseRead) == Some(state)
    {
      state := Step(state, ReleaseRead).value;
    }

    /** `Drop for MainLock`: marks the record dead and not mutable. No guard
        can be outstanding, since every guard borrows the lock. */
    method Drop()
      requires Valid() && state.readers == 0 && !state.writer
      modifies liveness
      ensures liveness.Record() == Next(old(liveness.Record()), LockDropped)
    {
      liveness.isAlive := false;
      liveness.isMut := false;
    }
  }

  /** The write guard: the underlying `RwLockWriteGuard` plus a clone of the
      record, whose `is_mut` it raises when built and lowers when dropped. */
  class WriteGuard<T> {
    const lock: MainLock<T>
    const liveness: Liveness
    /** Not yet dropped; ownership runs a guard's drop exactly once. */
    ghost var live: bool

    constructor (lock: MainLock<T>, liveness: Liveness)
      modifies liveness
      ensures this.lock == lock && this.liveness == liveness && live
      ensures liveness.Record() == Next(old(liveness.Record()), GuardBuilt)
    {
      this.lock := lock;
      this.liveness := liveness;
      live := true;
      new;
      liveness.isMut := true;
    }

    /** Lowers `is_mut`, then releases the write lock; `panicking` is an
        unwinding panic, which poisons the lock. */
    method Drop(panicking: bool)
      requires live && lock.liveness == liveness && lock.Valid() && lock.holder == this
      modifies this`live, lock`state, lock`holder, liveness
      ensures !live && lock.Valid() && lock.holder == null
      ensures liveness.Record() == Next(old(liveness.Record()), GuardDropped)
      ensures Step(old(lock.state), ReleaseWrite(panicking)) == Some(lock.state)
    {
      liveness.isMut := false;
      lock.state := Step(lock.state, ReleaseWrite(panicking)).value;
      lock.holder := null;
      live := false;
    }
  }

  /** The protected value of the documented scenario: a clone of the record
      and the sub-cells by key. */
  datatype State = State(live: Liveness, data: map<nat, SubCell<int>>)

  /** The documented scenario: 42 inserted under `write` is read as 42 under
      `read`; after `borrow_mut` sets 99 a later `read` sees 99. Once the
      write guard is gone `borrow` still succeeds and `borrow_mut` fails. */
  method DocScenario() returns (empty: nat, first: Borrowed<int, Fatal>, inside: Borrowed<int, Fatal>,
                                 last: Borrowed<int, Fatal>, afterRelease: Borrowed<(), Fatal>)
    ensures empty == 0 && first == Granted(42) && inside == Granted(99) && last == Granted(99)
    ensures afterRelease == Panicked(BorrowMutWhileShared)
  {
    var lock := new MainLock((l: Liveness) => State(l, map[]));

    var r := lock.Read();
    empty := |r.guard.data|;
    lock.DropReadGuard();

    var w := lock.Write();
    var cell := new SubCell(lock.value.live, 42);
    lock.value := lock.value.(data := lock.value.data[0 := cell]);
    w.guard.Drop(false);

    r := lock.Read();
    first := r.guard.data[0].Borrow();
    lock.DropReadGuard();

    w := lock.Write();
    var c := lock.value.data[0];
    var _ := c.BorrowMut(99);
    inside := c.Borrow();
    w.guard.Drop(false);

    r := lock.Read();
    last := r.guard.data[0].Borrow();
    lock.DropReadGuard();

    afterRelease := c.BorrowMut(7);
  }

  /** For any values: a value stored through `borrow_mut` under one `write`
      is what `borrow` sees under a later `read`, replacing the value the
      sub-cell was created with. */
  method RoundTrip(v0: int, v: int) returns (before: Borrowed<int, Fatal>, after: Borrowed<int, Fatal>)
    ensures before == Granted(v0) && after == Granted(v)
  {
    var lock := new MainLock((l: Liveness) => State(l, map[]));

    var w := lock.Write();
    var cell := new SubCell(lock.value.live, v0);
    lock.value := lock.value.(data := lock.value.data[0 := cell]);
    w.guard.Drop(false);

    var r := lock.Read();
    before := r.guard.data[0].Borrow();
    lock.DropReadGuard();

    w := lock.Write();
    var _ := lock.value.data[0].BorrowMut(v);
    w.guard.Drop(false);

    r := lock.Read();
    after := r.guard.data[0].Borrow();
    lock.DropReadGuard();
  }

  /** Dropping the coarse lock while a sub-cell is still reachable: every
      later access fails its assertion instead of returning stale data. */
  method DropScenario() returns (read: Borrowed<int, Fatal>, write: Borrowed<(), Fatal>)
    ensures read == Panicked(BorrowAfterRelease) && write == Panicked(BorrowMutAfterRelease)
  {
    var lock := new MainLock((l: Liveness) => State(l, map[]));
    var w := lock.Write();
    var cell := new SubCell(lock.liveness, 42);
    w.guard.Drop(false);
    lock.Drop();
    read := cell.Borrow();
    write := cell.BorrowMut(1);
  }
}
