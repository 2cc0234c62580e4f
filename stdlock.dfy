/** The rule of the standard library's `RefCell` and `RwLock` that the coarse
    cell and the coarse locks delegate to: one writer XOR any number of
    readers, plus the poison flag a writer leaves behind when it panics.
    Blocking is abstracted away: an acquisition either is possible now or
    is not (`None`). */
module StdLock {
  import opened Outcome

  datatype LockState = LockState(readers: nat, writer: bool, poisoned: bool)

  /** A freshly built `RefCell` / `RwLock`. */
  const Unlocked := LockState(0, false, false)

  /** One writer XOR many readers. */
  predicate Exclusive(s: LockState)
  {
    !(s.writer && s.readers > 0)
  }

  /** Guard lifecycle events of the underlying lock. `ReleaseWrite(true)` is
      the drop of a write guard during a panic, which poisons the lock. */
  datatype Op = AcquireRead | AcquireWrite | ReleaseRead | ReleaseWrite(panicking: bool)

  /** One event: `None` when an acquisition conflicts with an outstanding
      guard (it would block) or a release has no guard to release. */
  function Step(s: LockState, op: Op): (r: Option<LockState>)
    ensures Exclusive(s) && r.Some? ==> Exclusive(r.value)
    ensures op == AcquireRead ==> (r.Some? <==> !s.writer)
    ensures op == AcquireWrite ==> (r.Some? <==> !s.writer && s.readers == 0)
    ensures r.Some? && op.AcquireWrite? ==> r.value.writer && r.value.readers == 0
    ensures r.Some? && !op.ReleaseWrite? ==> r.value.poisoned == s.poisoned
  {
    match op
    case AcquireRead =>
      if s.writer then None else Some(s.(readers := s.readers + 1))
    case AcquireWrite =>
      if s.writer || s.readers > 0 then None else Some(s.(writer := true))
    case ReleaseRead =>
      if s.readers == 0 then None else Some(s.(readers := s.readers - 1))
    case ReleaseWrite(panicking) =>
      if !s.writer then None else Some(s.(writer := false, poisoned := s.poisoned || panicking))
  }

  /** A sequence of events, in order; `None` as soon as one is not possible. */
  function Run(s: LockState, ops: seq<Op>): (r: Option<LockState>)
    decreases |ops|
  {
    if ops == [] then Some(s)
    else match Step(s, ops[0])
      case None => None
      case Some(t) => Run(t, ops[1..])
  }

  /** Exclusivity holds after every run of guard events. */
  lemma {:induction false} RunKeepsExclusive(s: LockState, ops: seq<Op>)
    requires Exclusive(s)
    ensures Run(s, ops).Some? ==> Exclusive(Run(s, ops).value)
    decreases |ops|
  {
    if ops != [] && Step(s, ops[0]).Some? {
      RunKeepsExclusive(Step(s, ops[0]).value, ops[1..]);
    }
  }

  /** A lock is poisoned exactly when it already was or some write guard was
      dropped while panicking; poisoning is never cleared. */
  lemma {:induction false} PoisonRecordsPanic(s: LockState, ops: seq<Op>)
    ensures Run(s, ops).Some? ==>
      (Run(s, ops).value.poisoned <==> s.poisoned || ReleaseWrite(true) in ops)
    decreases |ops|
  {
    if ops != [] && Step(s, ops[0]).Some? {
      PoisonRecordsPanic(Step(s, ops[0]).value, ops[1..]);
      assert ops == [ops[0]] + ops[1..];
    }
  }

  /** While a write guard is outstanding every other acquisition would
      block and there is no read guard to release; once the write guard is
      released a read succeeds immediately. */
  lemma WriterBlocksUntilReleased(s: LockState, panicking: bool)
    requires Step(s, AcquireWrite).Some?
    ensures var w := Step(s, AcquireWrite).value;
      Step(w, AcquireRead).None? && Step(w, AcquireWrite).None? && Step(w, ReleaseRead).None?
    ensures Run(s, [AcquireWrite, ReleaseWrite(panicking), AcquireRead]).Some?
  {
    var ops := [AcquireWrite, ReleaseWrite(panicking), AcquireRead];
    var w := Step(s, AcquireWrite).value;
    var u := Step(w, ReleaseWrite(panicking)).value;
    var v := Step(u, AcquireRead).value;
    assert Run(v, ops[3..]) == Some(v);
    assert Run(u, ops[2..]) == Run(v, ops[3..]);
    assert Run(w, ops[1..]) == Run(u, ops[2..]);
    assert Run(s, ops) == Run(w, ops[1..]);
  }

  /** What `RwLock::read`/`write` return: the guard, flagged when poisoned. */
  datatype LockResult<G> = Ok(guard: G) | Poisoned(guard: G)

  /** What `RwLock::try_read`/`try_write` return. */
  datatype TryLockResult<G> = TryOk(guard: G) | TryPoisoned(guard: G) | WouldBlock

  /** `RefCell`'s two error types: `BorrowError` and `BorrowMutError`. */
  datatype BorrowError = AlreadyMutablyBorrowed | AlreadyBorrowed

  /** What `RefCell::try_borrow`/`try_borrow_mut` return. */
  datatype RefResult<G> = RefOk(guard: G) | RefErr(error: BorrowError)
}
