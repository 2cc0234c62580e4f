# sublock: nested sub-cells behind one coarse lock

`sublock` gives a coarse lock: a `RefCell` for one thread, or an `RwLock` for
many threads. The value it protects may hold many sub-cells. A sub-cell may be
read only while the coarse lock is held, and written only while it is held
for writing. Opening a sub-cell costs no second lock. The library has two
designs for this, and this project models both as sequential state machines:

- **Capability tokens** (`src/cell/proofcell.rs`, `src/sync/prooflock.rs`).
  Each coarse `MainCell`/`MainLock` has an ownership key that is fixed when
  it is built. Every acquisition mints a `Proof` (read) or a `ProofMut`
  (write) that carries this key. A `SubCell` is created under a `ProofMut`
  and records that proof's key. `borrow` accepts either kind of proof.
  `borrow_mut` accepts only a `ProofMut`. Both `assert_eq!` that the proof's
  key equals the owner key.
  - Module `Capability` holds the tokens and the sub-cell. The `SubCell`, its
    `borrow`/`borrow_mut` impls and the `Proof`/`ProofMut` tokens are the same
    code in both files (`proofcell.rs:18-61`; `prooflock.rs:19-55` and
    `62-68`), so both
    modules below share it. The files differ elsewhere: the guard type
    aliases pair the proof with `Ref`/`RefMut` in one and with
    `RwLockReadGuard`/`RwLockWriteGuard` in the other, and only `prooflock.rs`
    declares `Send`/`Sync` for `SubCell`.
  - Module `ProofCell` is the `RefCell` form.
  - Module `ProofLock` is the `RwLock` form.
- **Liveness flags** (`src/sync/atomlock.rs`, module `AtomLock`). The lock and
  every sub-cell share one record `{is_alive, is_mut}`.
  - `MainLock::new` creates the record as `(true, false)`.
  - Building a `WriteGuard` raises `is_mut`; dropping one lowers it.
  - Dropping the `MainLock` clears both flags.
  - `borrow` asserts `is_alive`. `borrow_mut` asserts `is_alive` and then
    `is_mut`.
  - The pure part is `Flags`, `Next`, `Replay` and the lemmas about them. It
    states which sequences of stores permit which access. The classes
    `Liveness`, `SubCell`, `MainLock` and `WriteGuard` make those stores, and
    their contracts say which store each one makes.

Module `StdLock` gives the rule of the standard `RefCell`/`RwLock` that both
designs delegate to: one writer XOR many readers, plus the poison flag. It is
written as a pure step function (`Step`, `Run`). Every coarse-lock method is
stated against `Step`.

How the source's behaviour is represented:

- A failed `assert!`/`assert_eq!` is the result `Borrowed.Panicked(reason)`.
  The reasons are the owner and presented keys, or one of the three
  `atomlock.rs` messages.
- `borrow_mut` returns `&mut T`. Here it takes the value to store through
  that reference, as the doc tests do (`*cell.borrow_mut(..) = 99`).
- Guard drops are explicit methods:
  - `DropRef`/`DropRefMut` on `MainCell`.
  - `DropReadGuard`/`DropWriteGuard` on the lock classes.
  - `WriteGuard.Drop` in `AtomLock`.

  The `panicking` argument of a write-guard drop is the one way a lock
  becomes poisoned.
- The `liveness()` accessor (`src/sync/atomlock.rs:206-208`) is the constant
  field `AtomLock.MainLock.liveness`.
- The `SubCell::new` of the liveness design takes any record and checks
  nothing. So with that design, only the way a caller reaches a sub-cell ties
  its creation to write access.
- A sub-cell of the liveness design keeps opening for reading after a write
  guard is dropped. It stops only when the lock itself is dropped.
  `AtomLock.DocScenario` shows this, as the doc test at
  `src/sync/atomlock.rs:97-114` implies.

## Model

| member | source | states |
|---|---|---|
| `StdLock.Step` | src/cell/proofcell.rs:130-144 | a read acquisition succeeds iff no writer holds the lock; a write acquisition succeeds iff there is no writer and no reader; a successful write acquisition leaves a writer and no reader; every step keeps one-writer-XOR-many-readers; only a write-guard release changes the poison flag |
| `StdLock.RunKeepsExclusive` | src/sync/prooflock.rs:137-175 | every run of acquisitions and releases from an exclusive state ends in an exclusive state |
| `StdLock.PoisonRecordsPanic` | src/sync/prooflock.rs:140-143 | after any run, the lock is poisoned iff it was poisoned before or some write guard was dropped while panicking (poison is never cleared) |
| `StdLock.WriterBlocksUntilReleased` | src/sync/prooflock.rs:146-175 | while a write guard is held, read and write acquisitions would block and no read guard can be released; after the write guard is released, a read succeeds immediately |
| `Capability.SubCell.constructor` | src/cell/proofcell.rs:26-31 | a sub-cell is created only with a write proof and records exactly that proof's key as its owner key |
| `Capability.SubCell.Borrow` | src/cell/proofcell.rs:34-46 | with a read or a write proof: returns the payload iff the proof's key equals the owner key; otherwise the fatal assertion with both keys |
| `Capability.SubCell.BorrowMut` | src/cell/proofcell.rs:48-53 | accepts only a write proof (by its type); writes iff the key matches, and otherwise panics with both keys and leaves the payload unchanged; after a write, every proof with the owner key reads the new value |
| `ProofCell.MainCell.constructor` | src/cell/proofcell.rs:121-128 | the ownership key is fixed at construction; the cell starts unborrowed |
| `ProofCell.MainCell.TryBorrow` | src/cell/proofcell.rs:130-136 | succeeds iff the cell is not mutably borrowed, and then yields a read proof with the cell's key and the content; on failure, `RefCell`'s error, no proof and no state change |
| `ProofCell.MainCell.TryBorrowMut` | src/cell/proofcell.rs:138-144 | succeeds iff no borrow of any kind is outstanding, and then yields a write proof with the cell's key; on failure, `RefCell`'s error, no proof and no state change |
| `ProofCell.DocScenario` | src/cell/proofcell.rs:69-115 | the doc test: the map starts empty; 42 inserted under `try_borrow_mut` is read as 42 under a later `try_borrow`; after `borrow_mut` stores 99 it reads 99, also under a later `try_borrow` |
| `ProofCell.RoundTrip` | src/cell/proofcell.rs:26-53 | for any two values and any key: a sub-cell created with the first under `try_borrow_mut` reads it back under a later `try_borrow`; after `borrow_mut` stores the second under another `try_borrow_mut`, a later `try_borrow` reads the second |
| `ProofCell.ForeignProofScenario` | src/cell/proofcell.rs:121-136 | a sub-cell created under cell A's write proof opens for cell B's read proof iff the two ownership keys are equal; otherwise the assertion fails with both keys |
| `ProofCell.ConflictScenario` | src/cell/proofcell.rs:130-144 | for any key and content: while a write borrow is outstanding, both a second write borrow and a read borrow fail with `RefCell`'s errors; after release, a read borrow succeeds with the cell's proof |
| `ProofLock.MainLock.constructor` | src/sync/prooflock.rs:128-135 | the ownership key is fixed at construction; the lock starts unlocked and unpoisoned |
| `ProofLock.MainLock.Read` | src/sync/prooflock.rs:137-144 | takes a read lock and returns a read proof with the lock's key and the content, on both the Ok and the Poisoned outcome; Poisoned iff the lock is poisoned |
| `ProofLock.MainLock.TryRead` | src/sync/prooflock.rs:146-155 | WouldBlock, with no proof and no change, iff a writer holds the lock; otherwise as `read`, with the proof carried on the Poisoned outcome too |
| `ProofLock.MainLock.Write` | src/sync/prooflock.rs:157-164 | takes the write lock and returns a write proof with the lock's key, whether or not the lock is poisoned |
| `ProofLock.MainLock.TryWrite` | src/sync/prooflock.rs:166-175 | WouldBlock, with no proof and no change, iff any guard is outstanding; otherwise as `write`, with the proof carried on the Poisoned outcome too |
| `ProofLock.DocScenario` | src/sync/prooflock.rs:76-122 | the doc test: 42 inserted under `write` is read as 42 under `read`; after `borrow_mut` stores 99, a later `read` sees 99 |
| `ProofLock.RoundTrip` | src/sync/prooflock.rs:27-54 | for any two values and any key: a sub-cell created with the first under `write` reads it back under a later `read`; after `borrow_mut` stores the second under another `write`, a later `read` reads the second |
| `ProofLock.PoisonScenario` | src/sync/prooflock.rs:137-164 | for any key and value: after a writer panics, `read` and `write` report Poisoned but still carry the proof with the lock's key and the same data, and that proof still opens the sub-cell and reads the value |
| `ProofLock.TryScenario` | src/sync/prooflock.rs:146-175 | for any key and content: `try_read` and `try_write` return WouldBlock while a write guard is outstanding; `try_write` succeeds once that guard is released |
| `AtomLock.Liveness.constructor` | src/sync/atomlock.rs:167-170 | a fresh record is alive and not mutable |
| `AtomLock.AliveUntilLockDropped` | src/sync/atomlock.rs:121-126 | after any sequence of stores, the record is alive iff it was alive and the lock was never dropped |
| `AtomLock.MutFollowsLastEvent` | src/sync/atomlock.rs:134-161 | after any non-empty sequence of stores, `is_mut` holds iff the last store was a write-guard construction |
| `AtomLock.BorrowMutIffGuardOutstanding` | src/sync/atomlock.rs:36-40 | from a fresh record, `borrow_mut`'s checks pass iff the lock was never dropped and the most recent store built a write guard |
| `AtomLock.NoAccessAfterDrop` | src/sync/atomlock.rs:121-126 | once the lock is dropped, no later store lets any sub-cell be borrowed or mutably borrowed |
| `AtomLock.SubCell.constructor` | src/sync/atomlock.rs:25-30 | the sub-cell shares the record it is given and holds the value |
| `AtomLock.SubCell.Borrow` | src/sync/atomlock.rs:31-34 | returns the payload iff the record is alive; otherwise the "borrow after release" assertion |
| `AtomLock.SubCell.BorrowMut` | src/sync/atomlock.rs:36-40 | writes iff the record is alive and mutable. A dead record gives the "after release" assertion. A live record that is not mutable gives the "acquired immutably" assertion. A failed call leaves the payload unchanged. After a write, `borrow` reads the new value |
| `AtomLock.MainLock.constructor` | src/sync/atomlock.rs:164-176 | creates a fresh record `(true, false)` and builds the protected value from it |
| `AtomLock.MainLock.Read` | src/sync/atomlock.rs:178-180 | takes a read lock; Poisoned iff poisoned; the liveness record is unchanged |
| `AtomLock.MainLock.TryRead` | src/sync/atomlock.rs:182-184 | WouldBlock iff a writer holds the lock; the liveness record is unchanged on every path |
| `AtomLock.MainLock.Write` | src/sync/atomlock.rs:186-193 | takes the write lock and builds a write guard, so raises `is_mut`, on both the Ok and the Poisoned outcome; that guard is recorded as the one holding the lock; keeps "`is_mut` iff write-locked" |
| `AtomLock.MainLock.TryWrite` | src/sync/atomlock.rs:195-204 | WouldBlock iff any guard is outstanding, and then neither the lock nor the record changes; otherwise as `write`, recording the new guard as the holder |
| `AtomLock.MainLock.Drop` | src/sync/atomlock.rs:121-126 | dropping the lock stores `is_alive = false` and `is_mut = false` |
| `AtomLock.WriteGuard.constructor` | src/sync/atomlock.rs:135-141 | building a write guard stores `is_mut = true` and leaves `is_alive` alone |
| `AtomLock.WriteGuard.Drop` | src/sync/atomlock.rs:157-161 | only the guard that `write`/`try_write` handed out, while it still holds the lock, can be dropped; dropping it stores `is_mut = false` and releases the write lock, poisoning it if panicking; keeps "`is_mut` iff write-locked"; afterwards no guard holds the lock and this one is no longer live, so it cannot be dropped a second time |
| `AtomLock.DocScenario` | src/sync/atomlock.rs:55-115 | the doc test: 42 inserted under `write` is read as 42 under `read`; after `borrow_mut` stores 99, a later `read` sees 99; once the write guard is dropped, `borrow_mut` fails with "acquired immutably" |
| `AtomLock.RoundTrip` | src/sync/atomlock.rs:25-40 | for any two values: a sub-cell created with the first under `write` reads it back under a later `read`; after `borrow_mut` stores the second under another `write`, a later `read` reads the second |
| `AtomLock.DropScenario` | src/sync/atomlock.rs:31-40 | after the lock is dropped, a still-reachable sub-cell fails `borrow` and `borrow_mut` with the "after release" assertions instead of returning data |

## Left out

- The ownership key is a constructor parameter. The source takes the address
  of the value passed to `new` (`src/cell/proofcell.rs:123`,
  `src/sync/prooflock.rs:130`). That is the address of a by-value argument,
  so two instances need not get distinct keys. Nothing here assumes they do:
  `ProofCell.ForeignProofScenario` states both cases.
- The lifetimes of `Proof`/`ProofMut` are a compile-time guarantee that no
  proof outlives its guard (`PhantomData`). A proof here is a plain value.
  The model does not reject a proof used after its guard was dropped.
- How proofs are issued is left out. In the source the token fields are
  private, so only the acquisition methods mint a `Proof`/`ProofMut`. Here
  any caller can build one for any key, so the model does not show that
  opening a sub-cell for writing needs the coarse write lock held; it shows
  only that the key must match.
- `Capability.SubCell.BorrowMut`: the `&mut T` that `borrow_mut` returns from
  `&self` is a one-time store of a value. References kept across calls, and
  two live `&mut T` (or a `&mut T` beside a `&T`) handed out under one proof,
  are not modelled, so the model says nothing about aliasing.
- `AtomLock.SubCell.BorrowMut`: the `&mut T` that `borrow_mut` returns from
  `&self` is a one-time store of a value. References kept across calls, and
  two live `&mut T` (or a `&mut T` beside a `&T`) handed out under one write
  guard, are not modelled, so the model says nothing about aliasing.
- `AtomLock.WriteGuard.constructor`: in the source `WriteGuard::new` is
  private (`src/sync/atomlock.rs:135`) and a `Liveness` record, whose fields
  are private, is built only by `MainLock::new`. Here any caller can build a
  guard or a record and store to `isAlive`/`isMut`, so the model does not
  show that only `write`/`try_write`, a guard drop and the lock's drop make
  those stores. A guard built by hand still cannot release the write lock:
  `AtomLock.WriteGuard.Drop` requires the guard the lock records as holder.
- The standard guards (`Ref`, `RefMut`, `RwLockReadGuard`,
  `RwLockWriteGuard`) are released by methods on the cell or lock, which
  track how many are outstanding but not which one is released. Only the
  liveness design's own `WriteGuard` records that it was dropped.
- `ProofLock.MainLock.Read`: blocks until the lock is free. Here the free lock is a precondition, so the modelled step starts when the call returns; waiting and fairness are not modelled.
- `ProofLock.MainLock.Write`: blocks until the lock is free. Here the free lock is a precondition, so the modelled step starts when the call returns; waiting and fairness are not modelled.
- `AtomLock.MainLock.Read`: blocks until the lock is free. Here the free lock is a precondition, so the modelled step starts when the call returns; waiting and fairness are not modelled.
- `AtomLock.MainLock.Write`: blocks until the lock is free. Here the free lock is a precondition, so the modelled step starts when the call returns; waiting and fairness are not modelled.
- Concurrency and the `Ordering::Relaxed` atomics are left out. Every step is
  sequential, and `AtomicBool` is a plain field.
- How a panic poisons a lock is left out. It is the `panicking` input of a
  write-guard drop.
- The `unsafe impl Send/Sync` declarations are left out. They are marker
  claims with no behaviour.
- The `ProofBorrow`/`ProofBorrowMut` traits are left out. Their
  implementations are the member functions above.
- The `Deref`/`DerefMut` plumbing of `WriteGuard` (`src/sync/atomlock.rs:144-155`)
  and of the standard guards is left out. The scenarios read the content from
  the returned guard and write it through the lock's `value` field.
- The commented-out test at `src/sync/atomlock.rs:211-233` does not compile,
  so it is left out.
- `src/lib.rs`, `src/cell/mod.rs` and `src/sync/mod.rs` are left out. They
  only declare modules.
