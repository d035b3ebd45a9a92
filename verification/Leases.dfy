/** Exclusive thread leases over many runners, as a step relation.

    A runner's operations are serialised by its own operation lock; operations of different
    runners interleave at every lock call, so a lease that an operation has acquired but not
    yet adopted is part of the state (`inflight`). */
module Leases {
  import opened Results

  type Thread = nat

  /** The `flock` beside a session database, or the in-process table of a checkpointer. */
  datatype Lock = FileLock(db: nat, thread: Thread) | MemoryLock(domain: nat, thread: Thread)

  datatype Lease = Lease(lock: Lock, owner: nat, released: bool)

  datatype Purpose = Switching | Promoting

  /** An operation between its lock call and its commit; a reload of the own thread needs no
      new lease. */
  datatype Inflight = Inflight(purpose: Purpose, target: Thread, lease: Option<nat>)

  datatype Runtime = Runtime(
    db: Option<nat>, domain: nat, persistLate: bool,
    thread: Option<Thread>, lease: Option<nat>, draft: Option<Thread>,
    pending: Option<Thread>, inflight: Option<Inflight>)

  datatype World = World(
    leases: seq<Lease>,
    table: map<Lock, nat>,
    runners: map<nat, Runtime>,
    catalog: set<(nat, Thread)>,
    nextThread: Thread)

  const EMPTY := World([], map[], map[], {}, 0)

  datatype Verdict = Proceed | CancelledAfter | RowGone

  datatype Step =
    | NewRunner(db: Option<nat>, domain: nat, persistLate: bool)
    | AcquireInitial(thread: Option<Thread>)
    | CreateNew
    | BeginSwitch(target: Thread, detachOnBusy: bool)
    | WaitAcquire(verdict: Verdict)
    | CommitSwitch | AbortSwitch
    | BeginPersist | CommitPersist | AbortPersist
    | Close

  /** Which lock guards `thread` for this runner (`try_acquire`). */
  function LockOf(r: Runtime, thread: Thread): Lock {
    if r.draft == Some(thread) || r.db.None? then MemoryLock(r.domain, thread)
    else FileLock(r.db.value, thread)
  }

  function StoreLockOf(r: Runtime, thread: Thread): Lock {
    if r.db.None? then MemoryLock(r.domain, thread) else FileLock(r.db.value, thread)
  }

  /** A lease on `lock` for runner `id`, unless somebody holds it. */
  function TryLock(w: World, id: nat, lock: Lock): World
    requires lock !in w.table
  {
    w.(leases := w.leases + [Lease(lock, id, false)], table := w.table[lock := |w.leases|])
  }

  /** `release`: idempotent, and it only forgets its own entry. */
  function Unlock(w: World, lease: Option<nat>): World {
    if lease.None? || lease.value >= |w.leases| || w.leases[lease.value].released then w else
      var old_ := w.leases[lease.value];
      w.(leases := w.leases[lease.value := old_.(released := true)],
         table := if old_.lock in w.table && w.table[old_.lock] == lease.value
                  then w.table - {old_.lock} else w.table)
  }

  function Put(w: World, id: nat, r: Runtime): World {
    w.(runners := w.runners[id := r])
  }

  function Bound(r: Runtime, thread: Thread, lease: nat, draft: Option<Thread>): Runtime {
    r.(thread := Some(thread), lease := Some(lease), draft := draft, pending := None, inflight := None)
  }

  /** Bind the target under a new lease and drop the previous lease. */
  function Rebind(w: World, id: nat, thread: Thread, lease: nat, draft: Option<Thread>): World
    requires id in w.runners
  {
    Unlock(Put(w, id, Bound(w.runners[id], thread, lease, draft)), w.runners[id].lease)
  }

  /** `adopt`: a draft survives only as the current thread. */
  function Adopt(w: World, id: nat, thread: Thread, lease: nat): World
    requires id in w.runners
  {
    var draft := w.runners[id].draft;
    Rebind(w, id, thread, lease, if draft == Some(thread) then draft else None)
  }

  /** `adopt` of a blank draft under a fresh identifier. */
  function AdoptDraft(w: World, id: nat): World
    requires id in w.runners && MemoryLock(w.runners[id].domain, w.nextThread) !in w.table
  {
    var t := w.nextThread;
    var locked := TryLock(w.(nextThread := t + 1), id, MemoryLock(w.runners[id].domain, t));
    Rebind(locked, id, t, |w.leases|, Some(t))
  }

  /** Takes over a thread of the catalog under the store's lock. */
  function AdoptRow(w: World, id: nat, thread: Thread): World
    requires id in w.runners && LockOf(w.runners[id], thread) !in w.table
  {
    Adopt(TryLock(w, id, LockOf(w.runners[id], thread)), id, thread, |w.leases|)
  }

  function WithRow(w: World, db: Option<nat>, thread: Thread): World {
    if db.None? then w else w.(catalog := w.catalog + {(db.value, thread)})
  }

  predicate Idle(w: World, id: nat) {
    id in w.runners && w.runners[id].inflight.None?
  }

  predicate Enabled(w: World, id: nat, step: Step) {
    match step
    case NewRunner(_, _, _) => id !in w.runners
    case AcquireInitial(_) => Idle(w, id) && w.runners[id].thread.None?
    case CreateNew => Idle(w, id) && w.runners[id].thread.Some?
    case BeginSwitch(target, _) =>
      && Idle(w, id) && w.runners[id].thread.Some? && w.runners[id].db.Some?
      && (w.runners[id].db.value, target) in w.catalog
    case WaitAcquire(_) =>
      && Idle(w, id) && w.runners[id].pending.Some? && w.runners[id].lease.None?
      && StoreLockOf(w.runners[id], w.runners[id].pending.value) !in w.table
    case CommitSwitch => id in w.runners && HasInflight(w.runners[id], Switching)
    case AbortSwitch => id in w.runners && HasInflight(w.runners[id], Switching)
    case BeginPersist => Idle(w, id) && Attached(w, id) && w.runners[id].db.Some? && w.runners[id].draft.Some?
    case CommitPersist => id in w.runners && HasInflight(w.runners[id], Promoting)
    case AbortPersist => id in w.runners && HasInflight(w.runners[id], Promoting)
    case Close => Idle(w, id)
  }

  predicate HasInflight(r: Runtime, purpose: Purpose) {
    r.inflight.Some? && r.inflight.value.purpose == purpose && (purpose.Promoting? ==> r.inflight.value.lease.Some?)
  }

  /** `_require_active_session` */
  predicate Attached(w: World, id: nat)
    requires id in w.runners
  {
    var r := w.runners[id];
    && r.lease.Some? && r.lease.value < |w.leases|
    && r.thread == Some(w.leases[r.lease.value].lock.thread)
    && r.pending.None?
  }

  function Do(w: World, id: nat, step: Step): World
    requires Enabled(w, id, step)
  {
    match step
    case NewRunner(db, domain, persistLate) =>
      Put(w, id, Runtime(db, domain, persistLate, None, None, None, None, None))
    case AcquireInitial(thread) => DoAcquireInitial(w, id, thread)
    case CreateNew => DoCreate(w, id)
    case BeginSwitch(target, detach) => DoBeginSwitch(w, id, target, detach)
    case WaitAcquire(verdict) => DoWaitAcquire(w, id, verdict)
    case CommitSwitch =>
      var r := w.runners[id];
      var op := r.inflight.value;
      if op.lease.Some? then Adopt(w, id, op.target, op.lease.value)
      else Put(w, id, r.(thread := Some(op.target), pending := None, inflight := None))
    case AbortSwitch =>
      var r := w.runners[id];
      Unlock(Put(w, id, r.(inflight := None)), r.inflight.value.lease)
    case BeginPersist =>
      var r := w.runners[id];
      var lock := StoreLockOf(r, r.draft.value);
      if lock in w.table then w else
        Put(TryLock(w, id, lock), id,
            r.(inflight := Some(Inflight(Promoting, r.draft.value, Some(|w.leases|)))))
    case CommitPersist =>
      var r := w.runners[id];
      var op := r.inflight.value;
      Rebind(WithRow(w, r.db, op.target), id, op.target, op.lease.value, None)
    case AbortPersist =>
      var r := w.runners[id];
      Unlock(Put(w, id, r.(inflight := None)), r.inflight.value.lease)
    case Close =>
      var r := w.runners[id];
      Unlock(Put(w, id, r.(lease := None)), r.lease)
  }

  /** `create_session`: the thread has a catalog row and its identifier is spent. */
  function Listed(w: World, id: nat, t: Thread): World
    requires id in w.runners
  {
    WithRow(w.(nextThread := if w.nextThread <= t then t + 1 else w.nextThread), w.runners[id].db, t)
  }

  /** Fresh identifiers are never in use, so their locks are free. */
  function DoCreate(w: World, id: nat): World
    requires id in w.runners
  {
    var r := w.runners[id];
    var t := w.nextThread;
    var cleared := Put(w, id, r.(pending := None));
    if r.db.Some? && !r.persistLate then
      var listed := Listed(cleared, id, t);
      if LockOf(r, t) in w.table then listed else AdoptRow(listed, id, t)
    else if MemoryLock(r.domain, t) in w.table then cleared
    else AdoptDraft(cleared, id)
  }

  function DoAcquireInitial(w: World, id: nat, thread: Option<Thread>): World
    requires id in w.runners
  {
    var r := w.runners[id];
    if r.db.Some? && thread.None? && r.persistLate then DoCreate(w, id)
    else
      var t := if thread.Some? then thread.value else w.nextThread;
      var listed := Listed(w, id, t);
      if LockOf(r, t) in w.table then listed else AdoptRow(listed, id, t)
  }

  function DoBeginSwitch(w: World, id: nat, target: Thread, detach: bool): World
    requires id in w.runners
  {
    var r := w.runners[id].(pending := None);
    var owned := r.lease.Some? && r.lease.value < |w.leases| && w.leases[r.lease.value].lock.thread == target;
    if owned then Put(w, id, r.(inflight := Some(Inflight(Switching, target, None))))
    else if LockOf(r, target) in w.table then
      if detach then Unlock(Put(w, id, r.(lease := None, pending := Some(target))), r.lease)
      else Put(w, id, r)
    else
      Put(TryLock(w, id, LockOf(r, target)), id,
          r.(inflight := Some(Inflight(Switching, target, Some(|w.leases|)))))
  }

  function DoWaitAcquire(w: World, id: nat, verdict: Verdict): World
    requires Enabled(w, id, WaitAcquire(verdict))
  {
    var r := w.runners[id];
    var target := r.pending.value;
    var locked := TryLock(w, id, StoreLockOf(r, target));
    match verdict
    case Proceed => Put(locked, id, r.(inflight := Some(Inflight(Switching, target, Some(|w.leases|)))))
    case CancelledAfter => Unlock(locked, Some(|w.leases|))
    case RowGone => Unlock(Put(locked, id, r.(pending := None)), Some(|w.leases|))
  }

  predicate Runnable(trace: seq<(nat, Step)>)
    decreases |trace|, 0
  {
    trace == [] ||
      var before := trace[..|trace| - 1];
      Runnable(before) && Enabled(After(before), trace[|trace| - 1].0, trace[|trace| - 1].1)
  }

  function After(trace: seq<(nat, Step)>): World
    requires Runnable(trace)
    decreases |trace|, 1
  {
    if trace == [] then EMPTY else
      Do(After(trace[..|trace| - 1]), trace[|trace| - 1].0, trace[|trace| - 1].1)
  }

  /** The leases a runner holds, adopted or still in an operation. */
  function HeldBy(r: Runtime): set<nat> {
    (if r.lease.Some? then {r.lease.value} else {})
    + if r.inflight.Some? && r.inflight.value.lease.Some? then {r.inflight.value.lease.value} else {}
  }

  function HeldNow(w: World, id: nat): set<nat> {
    if id in w.runners then HeldBy(w.runners[id]) else {}
  }

  /** The lock table lists exactly the unreleased leases, one per lock. */
  ghost predicate TableExact(w: World) {
    && (forall n | 0 <= n < |w.leases| && !w.leases[n].released ::
          w.leases[n].lock in w.table && w.table[w.leases[n].lock] == n)
    && (forall lock | lock in w.table ::
          w.table[lock] < |w.leases| && w.leases[w.table[lock]].lock == lock && !w.leases[w.table[lock]].released)
  }

  ghost predicate Proper(w: World, id: nat, n: nat, loose: set<nat>) {
    n < |w.leases| && !w.leases[n].released && w.leases[n].owner == id && n !in loose
  }

  /** Every unreleased lease outside `loose` is held by its owner, and nobody holds anything
      else.  Between operations nothing is loose. */
  ghost predicate NothingLeaks(w: World, loose: set<nat>) {
    && (forall n | 0 <= n < |w.leases| && !w.leases[n].released && n !in loose ::
          w.leases[n].owner in w.runners && n in HeldBy(w.runners[w.leases[n].owner]))
    && (forall id, n | id in w.runners && n in HeldBy(w.runners[id]) :: Proper(w, id, n, loose))
  }

  /** The lock of a thread is that of its store; a draft may be guarded within the process. */
  predicate Guards(r: Runtime, draft: Option<Thread>, lock: Lock) {
    lock == StoreLockOf(r, lock.thread) || (draft == Some(lock.thread) && lock == MemoryLock(r.domain, lock.thread))
  }

  ghost predicate RunnerSound(w: World, id: nat)
    requires id in w.runners
  {
    var r := w.runners[id];
    && (r.lease.Some? ==>
          && r.lease.value < |w.leases|
          && r.thread == Some(w.leases[r.lease.value].lock.thread)
          && Guards(r, r.draft, w.leases[r.lease.value].lock))
    && (r.pending.Some? ==> r.lease.None? && (r.inflight.Some? ==> r.inflight.value.purpose.Switching?))
    && (r.draft.Some? ==> r.draft == r.thread)
    && (r.inflight.Some? ==>
          var op := r.inflight.value;
          && (op.lease.None? ==> op.purpose.Switching? && r.lease.Some? && r.thread == Some(op.target))
          && (op.lease.Some? ==>
                && op.lease.value < |w.leases| && op.lease != r.lease
                && w.leases[op.lease.value].lock.thread == op.target
                && Guards(r, if op.purpose.Promoting? then None else r.draft, w.leases[op.lease.value].lock))
          && (op.purpose.Promoting? ==> r.draft == Some(op.target) && r.db.Some?))
  }

  ghost predicate AllSound(w: World) {
    forall id | id in w.runners :: RunnerSound(w, id)
  }

  ghost predicate Inv(w: World) {
    TableExact(w) && NothingLeaks(w, {}) && AllSound(w)
  }

  /** How the lock primitives act on the three parts of the invariant. */
  lemma TryLockKeeps(w: World, id: nat, lock: Lock, loose: set<nat>)
    requires TableExact(w) && NothingLeaks(w, loose) && AllSound(w) && lock !in w.table
    ensures var t := TryLock(w, id, lock);
            TableExact(t) && NothingLeaks(t, loose + {|w.leases|}) && AllSound(t)
  {
    var t := TryLock(w, id, lock);
    assert forall n | 0 <= n < |w.leases| :: t.leases[n] == w.leases[n];
    TryLockLeaks(w, id, lock, loose);
    forall other | other in t.runners
      ensures RunnerSound(t, other)
    {
      assert RunnerSound(w, other);
    }
  }

  lemma TryLockLeaks(w: World, id: nat, lock: Lock, loose: set<nat>)
    requires NothingLeaks(w, loose) && lock !in w.table
    ensures NothingLeaks(TryLock(w, id, lock), loose + {|w.leases|})
  {
    var t := TryLock(w, id, lock);
    forall other, n | other in t.runners && n in HeldBy(t.runners[other])
      ensures Proper(t, other, n, loose + {|w.leases|})
    {
      assert Proper(w, other, n, loose);
      assert t.leases[n] == w.leases[n];
    }
  }

  lemma UnlockKeeps(w: World, lease: Option<nat>, loose: set<nat>)
    requires TableExact(w) && NothingLeaks(w, loose) && AllSound(w)
    requires lease.Some? ==> lease.value in loose
    ensures var t := Unlock(w, lease);
            && TableExact(t) && AllSound(t)
            && NothingLeaks(t, if lease.Some? then loose - {lease.value} else loose)
  {
    if lease.Some? && lease.value < |w.leases| && !w.leases[lease.value].released {
      UnlockTable(w, lease.value);
      UnlockLeaks(w, lease.value, loose);
      UnlockSound(w, lease);
    } else if lease.Some? {
      NothingToUnlock(w, lease.value, loose);
    }
  }

  lemma NothingToUnlock(w: World, n: nat, loose: set<nat>)
    requires NothingLeaks(w, loose) && (n >= |w.leases| || w.leases[n].released)
    ensures NothingLeaks(w, loose - {n})
  {
    forall other, m | other in w.runners && m in HeldBy(w.runners[other])
      ensures Proper(w, other, m, loose - {n})
    {
      assert Proper(w, other, m, loose);
    }
  }

  lemma UnlockTable(w: World, n: nat)
    requires TableExact(w) && n < |w.leases| && !w.leases[n].released
    ensures TableExact(Unlock(w, Some(n)))
  {
    var t := Unlock(w, Some(n));
    assert forall m | 0 <= m < |w.leases| && m != n :: t.leases[m] == w.leases[m];
  }

  lemma UnlockLeaks(w: World, n: nat, loose: set<nat>)
    requires NothingLeaks(w, loose) && n < |w.leases| && n in loose
    ensures NothingLeaks(Unlock(w, Some(n)), loose - {n})
  {
    var t := Unlock(w, Some(n));
    assert forall m | 0 <= m < |w.leases| && m != n :: t.leases[m] == w.leases[m];
    forall other, m | other in t.runners && m in HeldBy(t.runners[other])
      ensures Proper(t, other, m, loose - {n})
    {
      assert Proper(w, other, m, loose);
    }
  }

  lemma UnlockSound(w: World, lease: Option<nat>)
    requires AllSound(w)
    ensures AllSound(Unlock(w, lease))
  {
    var t := Unlock(w, lease);
    forall other | other in t.runners
      ensures RunnerSound(t, other)
    {
      assert RunnerSound(w, other);
    }
  }

  /** Rewriting one runner: it may take up loose leases of its own and drop held ones. */
  lemma PutKeeps(w: World, id: nat, r: Runtime, loose: set<nat>)
    requires TableExact(w) && NothingLeaks(w, loose) && AllSound(w)
    requires RunnerSound(Put(w, id, r), id)
    requires HeldBy(r) <= loose + HeldNow(w, id)
    requires forall n | n in HeldBy(r) :: n < |w.leases| && !w.leases[n].released && w.leases[n].owner == id
    ensures var t := Put(w, id, r);
            TableExact(t) && NothingLeaks(t, loose + HeldNow(w, id) - HeldBy(r)) && AllSound(t)
  {
    var t := Put(w, id, r);
    PutSound(w, id, r);
    PutLeaks(w, id, r, loose);
  }

  lemma PutSound(w: World, id: nat, r: Runtime)
    requires AllSound(w) && RunnerSound(Put(w, id, r), id)
    ensures AllSound(Put(w, id, r))
  {
    var t := Put(w, id, r);
    forall other | other in t.runners
      ensures RunnerSound(t, other)
    {
      if other != id {
        assert RunnerSound(w, other);
      }
    }
  }

  lemma PutLeaks(w: World, id: nat, r: Runtime, loose: set<nat>)
    requires NothingLeaks(w, loose)
    requires HeldBy(r) <= loose + HeldNow(w, id)
    requires forall n | n in HeldBy(r) :: n < |w.leases| && !w.leases[n].released && w.leases[n].owner == id
    ensures NothingLeaks(Put(w, id, r), loose + HeldNow(w, id) - HeldBy(r))
  {
    var t, left := Put(w, id, r), loose + HeldNow(w, id) - HeldBy(r);
    forall other, m | other in t.runners && m in HeldBy(t.runners[other])
      ensures Proper(t, other, m, left)
    {
      if other != id {
        assert Proper(w, other, m, loose);
        assert m in HeldNow(w, id) ==> Proper(w, id, m, loose);
      }
    }
  }

  lemma RebindKeeps(w: World, id: nat, thread: Thread, lease: nat, draft: Option<Thread>)
    requires TableExact(w) && AllSound(w) && id in w.runners
    requires NothingLeaks(w, {lease} - HeldNow(w, id))
    requires lease < |w.leases| && !w.leases[lease].released && w.leases[lease].owner == id
    requires var r := w.runners[id];
             && r.lease != Some(lease)
             && HeldBy(r) <= {lease} + LeaseSet(r.lease)
             && w.leases[lease].lock.thread == thread
             && draft in {None, Some(thread)}
             && Guards(r, draft, w.leases[lease].lock)
    ensures Inv(Rebind(w, id, thread, lease, draft))
  {
    var r := w.runners[id];
    var bound := Bound(r, thread, lease, draft);
    PutKeeps(w, id, bound, {lease} - HeldNow(w, id));
    var loose := {lease} - HeldNow(w, id) + HeldNow(w, id) - HeldBy(bound);
    assert loose == LeaseSet(r.lease);
    UnlockKeeps(Put(w, id, bound), r.lease, loose);
    assert loose - LeaseSet(r.lease) == {};
  }

  function LeaseSet(lease: Option<nat>): set<nat> {
    if lease.Some? then {lease.value} else {}
  }

  /** The catalog and the identifier supply play no part in the invariant. */
  lemma CatalogIsFree(w: World, t: World, loose: set<nat>)
    requires TableExact(w) && NothingLeaks(w, loose) && AllSound(w)
    requires t.leases == w.leases && t.table == w.table && t.runners == w.runners
    ensures TableExact(t) && NothingLeaks(t, loose) && AllSound(t)
  {
    forall other | other in t.runners
      ensures RunnerSound(t, other)
    {
      assert RunnerSound(w, other);
    }
  }

  lemma IdleHolds(w: World, id: nat)
    requires Idle(w, id)
    ensures HeldBy(w.runners[id]) == LeaseSet(w.runners[id].lease)
  {
  }

  /** Taking a lock and binding its thread at once. */
  lemma TakeKeeps(w: World, id: nat, lock: Lock, draft: Option<Thread>)
    requires Inv(w) && Idle(w, id) && lock !in w.table
    requires draft in {None, Some(lock.thread)}
    requires Guards(w.runners[id], draft, lock)
    ensures Inv(Rebind(TryLock(w, id, lock), id, lock.thread, |w.leases|, draft))
  {
    var locked := TryLock(w, id, lock);
    TryLockKeeps(w, id, lock, {});
    assert RunnerSound(w, id);
    IdleHolds(w, id);
    assert {} + {|w.leases|} == {|w.leases|} - HeldNow(locked, id);
    RebindKeeps(locked, id, lock.thread, |w.leases|, draft);
  }

  lemma AdoptRowKeeps(w: World, id: nat, thread: Thread)
    requires Inv(w) && Idle(w, id) && LockOf(w.runners[id], thread) !in w.table
    ensures Inv(AdoptRow(w, id, thread))
  {
    var r := w.runners[id];
    TakeKeeps(w, id, LockOf(r, thread), if r.draft == Some(thread) then r.draft else None);
  }

  lemma AdoptDraftKeeps(w: World, id: nat)
    requires Inv(w) && Idle(w, id) && MemoryLock(w.runners[id].domain, w.nextThread) !in w.table
    ensures Inv(AdoptDraft(w, id))
  {
    var t := w.nextThread;
    var named := w.(nextThread := t + 1);
    CatalogIsFree(w, named, {});
    var lock := MemoryLock(w.runners[id].domain, t);
    assert w.runners[id].db.None? ==> lock == StoreLockOf(w.runners[id], t);
    TakeKeeps(named, id, lock, Some(t));
    assert AdoptDraft(w, id) == Rebind(TryLock(named, id, lock), id, t, |w.leases|, Some(t));
  }

  /** Rewriting a runner without touching what it holds. */
  lemma PutSame(w: World, id: nat, r: Runtime)
    requires Inv(w) && id in w.runners && HeldBy(r) == HeldBy(w.runners[id])
    requires RunnerSound(Put(w, id, r), id)
    ensures Inv(Put(w, id, r))
  {
    PutKeeps(w, id, r, {});
    assert {} + HeldNow(w, id) - HeldBy(r) == {};
  }

  /** Rewriting a runner so that it lets go of one lease, which is released. */
  lemma DropKeeps(w: World, id: nat, r: Runtime, lease: Option<nat>)
    requires Inv(w) && id in w.runners
    requires HeldBy(r) == HeldBy(w.runners[id]) - LeaseSet(lease)
    requires lease.Some? ==> lease.value in HeldBy(w.runners[id])
    requires RunnerSound(Put(w, id, r), id)
    ensures Inv(Unlock(Put(w, id, r), lease))
  {
    PutKeeps(w, id, r, {});
    var loose := {} + HeldNow(w, id) - HeldBy(r);
    assert loose == LeaseSet(lease);
    UnlockKeeps(Put(w, id, r), lease, loose);
    assert loose - LeaseSet(lease) == {};
  }

  /** Taking a lock and parking its lease in an operation of the runner. */
  lemma ParkKeeps(w: World, id: nat, r: Runtime, lock: Lock)
    requires Inv(w) && Idle(w, id) && lock !in w.table
    requires r.inflight.Some? && r.inflight.value.lease == Some(|w.leases|)
    requires r.lease == w.runners[id].lease
    requires RunnerSound(Put(TryLock(w, id, lock), id, r), id)
    ensures Inv(Put(TryLock(w, id, lock), id, r))
  {
    var locked := TryLock(w, id, lock);
    var n := |w.leases|;
    TryLockKeeps(w, id, lock, {});
    assert {} + {n} == {n};
    IdleHolds(w, id);
    assert HeldBy(r) == {n} + HeldNow(locked, id);
    PutKeeps(locked, id, r, {n});
    assert {n} + HeldNow(locked, id) - HeldBy(r) == {};
  }

  lemma ListedKeeps(w: World, id: nat, t: Thread)
    requires Inv(w) && Idle(w, id)
    ensures Inv(Listed(w, id, t)) && Idle(Listed(w, id, t), id)
  {
    CatalogIsFree(w, Listed(w, id, t), {});
  }

  lemma CreateKeeps(w: World, id: nat)
    requires Inv(w) && Idle(w, id)
    ensures Inv(DoCreate(w, id))
  {
    var r := w.runners[id];
    var t := w.nextThread;
    var cleared := Put(w, id, r.(pending := None));
    assert RunnerSound(w, id);
    PutSame(w, id, r.(pending := None));
    if r.db.Some? && !r.persistLate {
      ListedKeeps(cleared, id, t);
      if LockOf(r, t) !in w.table {
        AdoptRowKeeps(Listed(cleared, id, t), id, t);
      }
    } else if MemoryLock(r.domain, t) !in w.table {
      AdoptDraftKeeps(cleared, id);
    }
  }

  lemma AcquireInitialKeeps(w: World, id: nat, thread: Option<Thread>)
    requires Inv(w) && Idle(w, id)
    ensures Inv(DoAcquireInitial(w, id, thread))
  {
    var r := w.runners[id];
    if r.db.Some? && thread.None? && r.persistLate {
      CreateKeeps(w, id);
    } else {
      var t := if thread.Some? then thread.value else w.nextThread;
      ListedKeeps(w, id, t);
      if LockOf(r, t) !in w.table {
        AdoptRowKeeps(Listed(w, id, t), id, t);
      }
    }
  }

  lemma BeginSwitchKeeps(w: World, id: nat, target: Thread, detach: bool)
    requires Inv(w) && Idle(w, id)
    ensures Inv(DoBeginSwitch(w, id, target, detach))
  {
    var was := w.runners[id];
    var r := was.(pending := None);
    assert RunnerSound(w, id);
    IdleHolds(w, id);
    if r.lease.Some? && r.lease.value < |w.leases| && w.leases[r.lease.value].lock.thread == target {
      PutSame(w, id, r.(inflight := Some(Inflight(Switching, target, None))));
    } else if LockOf(r, target) in w.table {
      if detach {
        DropKeeps(w, id, r.(lease := None, pending := Some(target)), r.lease);
      } else {
        PutSame(w, id, r);
      }
    } else {
      ParkKeeps(w, id, r.(inflight := Some(Inflight(Switching, target, Some(|w.leases|)))), LockOf(r, target));
    }
  }

  lemma WaitAcquireKeeps(w: World, id: nat, verdict: Verdict)
    requires Inv(w) && Enabled(w, id, WaitAcquire(verdict))
    ensures Inv(DoWaitAcquire(w, id, verdict))
  {
    var r := w.runners[id];
    var target := r.pending.value;
    var lock := StoreLockOf(r, target);
    assert RunnerSound(w, id);
    match verdict
    case Proceed =>
      ParkKeeps(w, id, r.(inflight := Some(Inflight(Switching, target, Some(|w.leases|)))), lock);
    case CancelledAfter =>
      TryLockKeeps(w, id, lock, {});
      UnlockKeeps(TryLock(w, id, lock), Some(|w.leases|), {} + {|w.leases|});
      assert {} + {|w.leases|} - {|w.leases|} == {};
    case RowGone =>
      PutSame(w, id, r.(pending := None));
      var cleared := Put(w, id, r.(pending := None));
      TryLockKeeps(cleared, id, lock, {});
      UnlockKeeps(TryLock(cleared, id, lock), Some(|w.leases|), {} + {|w.leases|});
      assert {} + {|w.leases|} - {|w.leases|} == {};
  }

  lemma CommitKeeps(w: World, id: nat)
    requires Inv(w) && Enabled(w, id, CommitSwitch)
    ensures Inv(Do(w, id, CommitSwitch))
  {
    var r := w.runners[id];
    var op := r.inflight.value;
    assert RunnerSound(w, id);
    if op.lease.Some? {
      assert op.lease.value in HeldBy(r);
      assert {op.lease.value} - HeldNow(w, id) == {};
      RebindKeeps(w, id, op.target, op.lease.value, if r.draft == Some(op.target) then r.draft else None);
    } else {
      PutSame(w, id, r.(thread := Some(op.target), pending := None, inflight := None));
    }
  }

  lemma CommitPersistKeeps(w: World, id: nat)
    requires Inv(w) && Enabled(w, id, CommitPersist)
    ensures Inv(Do(w, id, CommitPersist))
  {
    var r := w.runners[id];
    var op := r.inflight.value;
    assert RunnerSound(w, id);
    var listed := WithRow(w, r.db, op.target);
    CatalogIsFree(w, listed, {});
    assert op.lease.value in HeldBy(r);
    assert {op.lease.value} - HeldNow(listed, id) == {};
    RebindKeeps(listed, id, op.target, op.lease.value, None);
  }

  lemma AbortKeeps(w: World, id: nat, step: Step)
    requires Inv(w) && Enabled(w, id, step) && step in {AbortSwitch, AbortPersist, Close}
    ensures Inv(Do(w, id, step))
  {
    var r := w.runners[id];
    assert RunnerSound(w, id);
    if step.Close? {
      IdleHolds(w, id);
      DropKeeps(w, id, r.(lease := None), r.lease);
    } else {
      DropKeeps(w, id, r.(inflight := None), r.inflight.value.lease);
    }
  }

  lemma BeginPersistKeeps(w: World, id: nat)
    requires Inv(w) && Enabled(w, id, BeginPersist)
    ensures Inv(Do(w, id, BeginPersist))
  {
    var r := w.runners[id];
    assert RunnerSound(w, id);
    var lock := StoreLockOf(r, r.draft.value);
    if lock !in w.table {
      ParkKeeps(w, id, r.(inflight := Some(Inflight(Promoting, r.draft.value, Some(|w.leases|)))), lock);
    }
  }

  lemma NewRunnerKeeps(w: World, id: nat, db: Option<nat>, domain: nat, persistLate: bool)
    requires Inv(w) && id !in w.runners
    ensures Inv(Do(w, id, NewRunner(db, domain, persistLate)))
  {
    var r := Runtime(db, domain, persistLate, None, None, None, None, None);
    PutKeeps(w, id, r, {});
    assert {} + HeldNow(w, id) - HeldBy(r) == {};
  }

  lemma StepKeeps(w: World, id: nat, step: Step)
    requires Inv(w) && Enabled(w, id, step)
    ensures Inv(Do(w, id, step))
  {
    match step
    case NewRunner(db, domain, persistLate) => NewRunnerKeeps(w, id, db, domain, persistLate);
    case AcquireInitial(thread) => AcquireInitialKeeps(w, id, thread);
    case CreateNew => CreateKeeps(w, id);
    case BeginSwitch(target, detach) => BeginSwitchKeeps(w, id, target, detach);
    case WaitAcquire(verdict) => WaitAcquireKeeps(w, id, verdict);
    case CommitSwitch => CommitKeeps(w, id);
    case BeginPersist => BeginPersistKeeps(w, id);
    case CommitPersist => CommitPersistKeeps(w, id);
    case _ => AbortKeeps(w, id, step);
  }

  lemma {:induction false} ReachableIsSound(trace: seq<(nat, Step)>)
    requires Runnable(trace)
    ensures Inv(After(trace))
    decreases |trace|
  {
    if trace != [] {
      var before := trace[..|trace| - 1];
      ReachableIsSound(before);
      StepKeeps(After(before), trace[|trace| - 1].0, trace[|trace| - 1].1);
    }
  }

  /** The thread this runner may write now: its session is attached and, beside a session
      store, its draft has been promoted. */
  predicate MayWrite(w: World, id: nat, thread: Thread) {
    && Idle(w, id) && Attached(w, id) && w.runners[id].thread == Some(thread)
    && (w.runners[id].db.Some? ==> w.runners[id].draft.None?)
  }

  /** Two runners share a thread's storage when they use one database, or one checkpointer
      without a database. */
  predicate ShareStorage(r: Runtime, s: Runtime) {
    r.db == s.db && (r.db.None? ==> r.domain == s.domain)
  }

  /** Write exclusion: in every interleaving at most one runner may write a thread. */
  lemma AtMostOneWriter(trace: seq<(nat, Step)>, a: nat, b: nat, thread: Thread)
    requires Runnable(trace) && MayWrite(After(trace), a, thread) && MayWrite(After(trace), b, thread)
    requires ShareStorage(After(trace).runners[a], After(trace).runners[b])
    ensures a == b
  {
    ReachableIsSound(trace);
    var w := After(trace);
    assert RunnerSound(w, a) && RunnerSound(w, b);
    var m, n := w.runners[a].lease.value, w.runners[b].lease.value;
    assert m in HeldBy(w.runners[a]) && n in HeldBy(w.runners[b]);
    WriterLock(w, a, thread);
    WriterLock(w, b, thread);
  }

  lemma WriterLock(w: World, id: nat, thread: Thread)
    requires Inv(w) && MayWrite(w, id, thread)
    ensures w.leases[w.runners[id].lease.value].lock == StoreLockOf(w.runners[id], thread)
  {
    assert RunnerSound(w, id);
  }

  /** In every interleaving no lock, and so no thread of a database, has two unreleased
      leases, and a lease is unreleased exactly while one runner holds it: whatever an
      operation acquired has been adopted or released by the time it is over. */
  lemma LeasesAreExclusive(trace: seq<(nat, Step)>)
    requires Runnable(trace)
    ensures var w := After(trace);
            && (forall m, n | 0 <= m < n < |w.leases| && w.leases[m].lock == w.leases[n].lock ::
                  w.leases[m].released || w.leases[n].released)
            && (forall n | 0 <= n < |w.leases| ::
                  !w.leases[n].released <==> exists id :: id in w.runners && n in HeldBy(w.runners[id]))
            && (forall id | Idle(w, id) :: HeldBy(w.runners[id]) == LeaseSet(w.runners[id].lease))
  {
    ReachableIsSound(trace);
    var w := After(trace);
    forall n | 0 <= n < |w.leases|
      ensures !w.leases[n].released <==> exists id :: id in w.runners && n in HeldBy(w.runners[id])
    {
      forall id | id in w.runners && n in HeldBy(w.runners[id])
        ensures !w.leases[n].released
      {
        assert Proper(w, id, n, {});
      }
    }
  }

  /** In every interleaving a held lease names the runner's current thread, a pending switch
      means no lease, a draft is the current thread, and a thread of a session store that is
      no draft is held by its file lock. */
  lemma RunnersAreConsistent(trace: seq<(nat, Step)>, id: nat)
    requires Runnable(trace) && id in After(trace).runners
    ensures var w := After(trace);
            var r := w.runners[id];
            && (r.pending.Some? ==> r.lease.None?)
            && (r.draft.Some? ==> r.draft == r.thread)
            && (r.lease.Some? ==>
                  && r.lease.value < |w.leases| && !w.leases[r.lease.value].released
                  && r.thread == Some(w.leases[r.lease.value].lock.thread)
                  && (r.db.Some? && r.draft.None? ==>
                        w.leases[r.lease.value].lock == FileLock(r.db.value, r.thread.value)))
  {
    ReachableIsSound(trace);
    var w := After(trace);
    assert RunnerSound(w, id);
    if w.runners[id].lease.Some? {
      assert Proper(w, id, w.runners[id].lease.value, {});
    }
  }
}
