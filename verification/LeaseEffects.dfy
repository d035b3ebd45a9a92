/** What each operation on thread leases achieves, in every reachable world.

    The effects are stated by comparing the worlds before and after: which leases are unreleased, which
    thread the runner is on, and what waits for a commit. */
module LeaseEffects {
  import opened Results
  import opened Leases

  /** An unreleased lease on `lock`. */
  predicate Live(w: World, lease: Option<nat>, lock: Lock) {
    lease.Some? && lease.value < |w.leases| && w.leases[lease.value].lock == lock && !w.leases[lease.value].released
  }

  /** A lease that is released, or none. */
  predicate Dead(w: World, lease: Option<nat>) {
    lease.Some? ==> lease.value < |w.leases| && w.leases[lease.value].released
  }

  /** Nobody has an unreleased lease on `lock`. */
  ghost predicate Free(w: World, lock: Lock) {
    forall n | 0 <= n < |w.leases| && w.leases[n].lock == lock :: w.leases[n].released
  }

  /** The runner already holds a lease for the thread. */
  predicate Owns(w: World, r: Runtime, thread: Thread) {
    r.lease.Some? && r.lease.value < |w.leases| && w.leases[r.lease.value].lock.thread == thread
  }

  /** The runner is on `thread` under an unreleased lease for it, with nothing pending or in flight. A
      draft may be held by a lock of this process, any other thread by that of its store. */
  predicate On(w: World, id: nat, thread: Thread, draft: Option<Thread>) {
    && id in w.runners
    && var r := w.runners[id];
       && r.thread == Some(thread) && r.draft == draft && r.pending.None? && r.inflight.None?
       && (Live(w, r.lease, StoreLockOf(r, thread)) ||
             (draft == Some(thread) && Live(w, r.lease, MemoryLock(r.domain, thread))))
  }

  /** A lease on `lock` waits for the commit of the runner's operation; its thread and the lease that
      guards it are those of before. */
  predicate Parked(w: World, t: World, id: nat, purpose: Purpose, target: Thread, lock: Lock) {
    && id in w.runners && id in t.runners && t.runners[id].inflight.Some?
    && var lease := t.runners[id].inflight.value.lease;
       && t.runners[id] == w.runners[id].(inflight := Some(Inflight(purpose, target, lease)),
                                          pending := t.runners[id].pending)
       && Live(t, lease, lock)
  }

  /** A commit of a switch binds the target under the lease that the switch acquired, or under the
      runner's own lease, and releases the lease of before. */
  predicate Switched(w: World, t: World, id: nat)
    requires id in w.runners && w.runners[id].inflight.Some?
  {
    var r, op := w.runners[id], w.runners[id].inflight.value;
    && On(t, id, op.target, if r.draft == Some(op.target) then r.draft else None)
    && t.runners[id].lease == (if op.lease.Some? then op.lease else r.lease)
    && (op.lease.Some? ==> Dead(t, r.lease))
  }

  /** A promotion keeps the thread, lists it, and swaps the lease of the draft for the file lock. */
  predicate Promoted(w: World, t: World, id: nat)
    requires id in w.runners && w.runners[id].db.Some? && w.runners[id].inflight.Some?
  {
    var r, op := w.runners[id], w.runners[id].inflight.value;
    && r.thread == Some(op.target) && On(t, id, op.target, None)
    && Live(t, t.runners[id].lease, FileLock(r.db.value, op.target))
    && t.catalog == w.catalog + {(r.db.value, op.target)}
    && Dead(t, r.lease)
  }

  /** A new session is a thread of its own, a row of the catalog or a draft; the old lease is released. */
  predicate Created(w: World, t: World, id: nat)
    requires id in w.runners
  {
    var r, listed := w.runners[id], w.runners[id].db.Some? && !w.runners[id].persistLate;
    && On(t, id, w.nextThread, if listed then None else Some(w.nextThread))
    && t.catalog == (if listed then w.catalog + {(r.db.value, w.nextThread)} else w.catalog)
    && Dead(t, r.lease)
  }

  /** The first part of a switch acquires the target exactly when its lock is free; a busy target is
      waited for without any lease, or refused. */
  ghost predicate SwitchBegun(w: World, t: World, id: nat, target: Thread, detach: bool)
    requires id in w.runners
  {
    var r := w.runners[id];
    if Owns(w, r, target) then
      t.leases == w.leases
      && t.runners == w.runners[id := r.(pending := None, inflight := Some(Inflight(Switching, target, None)))]
    else if Free(w, LockOf(r, target)) then
      Parked(w, t, id, Switching, target, LockOf(r, target)) && t.runners[id].pending.None?
    else if detach then
      && t.runners == w.runners[id := r.(lease := None, pending := Some(target))] && Dead(t, r.lease)
      && |t.leases| == |w.leases|
    else
      t.runners == w.runners[id := r.(pending := None)] && t.leases == w.leases
  }

  /** The wait for a busy target ends with its lease, or leaves its lock free. */
  ghost predicate WaitOver(w: World, t: World, id: nat, verdict: Verdict)
    requires id in w.runners && w.runners[id].pending.Some?
  {
    var r := w.runners[id];
    var lock := StoreLockOf(r, r.pending.value);
    match verdict
    case Proceed => Parked(w, t, id, Switching, r.pending.value, lock) && t.runners[id].pending == r.pending
    case CancelledAfter => t.runners == w.runners && Free(t, lock)
    case RowGone => t.runners == w.runners[id := r.(pending := None)] && Free(t, lock)
  }

  /** An operation that fails leaves the runner where it was and releases what it had acquired. */
  predicate Aborted(w: World, t: World, id: nat)
    requires id in w.runners && w.runners[id].inflight.Some?
  {
    var r := w.runners[id];
    && t.runners == w.runners[id := r.(inflight := None)] && Dead(t, r.inflight.value.lease)
    && (r.lease.Some? ==> r.lease.value < |t.leases| && !t.leases[r.lease.value].released)
  }

  /** The first thread of a runner: a thread that was asked for is taken exactly when its lock is free. */
  ghost predicate Started(w: World, t: World, id: nat, thread: Option<Thread>)
    requires id in w.runners
  {
    var r := w.runners[id];
    if thread.None? then
      On(t, id, w.nextThread, if r.db.Some? && r.persistLate then Some(w.nextThread) else None)
    else if Free(w, StoreLockOf(r, thread.value)) then
      On(t, id, thread.value, None)
      && (r.db.Some? ==> (r.db.value, thread.value) in t.catalog)
    else
      t.runners == w.runners && t.leases == w.leases
  }

  /** What a step achieves. */
  ghost predicate Achieves(w: World, t: World, id: nat, step: Step)
    requires Enabled(w, id, step) && Inv(w)
  {
    match step
    case NewRunner(db, domain, persistLate) =>
      t == w.(runners := w.runners[id := Runtime(db, domain, persistLate, None, None, None, None, None)])
    case AcquireInitial(thread) => Started(w, t, id, thread)
    case CreateNew => Created(w, t, id)
    case BeginSwitch(target, detach) => SwitchBegun(w, t, id, target, detach)
    case WaitAcquire(verdict) => WaitOver(w, t, id, verdict)
    case CommitSwitch => Switched(w, t, id)
    case AbortSwitch => Aborted(w, t, id)
    case BeginPersist =>
      var r := w.runners[id];
      var lock := StoreLockOf(r, r.draft.value);
      if Free(w, lock) then Parked(w, t, id, Promoting, r.draft.value, lock) && t.runners[id].pending == r.pending
      else t == w
    case CommitPersist => PromotionHolds(w, t, id)
    case AbortPersist => Aborted(w, t, id)
    case Close =>
      t.runners == w.runners[id := w.runners[id].(lease := None)] && Dead(t, w.runners[id].lease)
  }

  /** `Promoted`, which needs that only sessions beside a store are promoted. */
  predicate PromotionHolds(w: World, t: World, id: nat)
    requires id in w.runners && w.runners[id].inflight.Some?
  {
    w.runners[id].db.Some? && Promoted(w, t, id)
  }

  /** A step touches no other runner, no lease of another runner, and no row of the catalog. */
  ghost predicate OwnOnly(w: World, t: World, id: nat) {
    && (forall other | other in w.runners && other != id :: other in t.runners && t.runners[other] == w.runners[other])
    && (forall other | other in t.runners && other != id :: other in w.runners)
    && |w.leases| <= |t.leases| && w.catalog <= t.catalog
    && (forall n | 0 <= n < |w.leases| :: t.leases[n] == w.leases[n].(released := t.leases[n].released))
    && (forall n | 0 <= n < |w.leases| && w.leases[n].owner != id :: t.leases[n] == w.leases[n])
    && (forall n | |w.leases| <= n < |t.leases| :: t.leases[n].owner == id)
  }

  /** Every identifier in use has been handed out. */
  ghost predicate Spent(w: World) {
    && (forall n | 0 <= n < |w.leases| :: w.leases[n].lock.thread < w.nextThread)
    && (forall row | row in w.catalog :: row.1 < w.nextThread)
    && (forall id | id in w.runners :: NamesSpent(w.runners[id], w.nextThread))
  }

  predicate NamesSpent(r: Runtime, next: Thread) {
    (r.pending.Some? ==> r.pending.value < next) && (r.draft.Some? ==> r.draft.value < next)
  }

  lemma FreeIsUnlisted(w: World, lock: Lock)
    requires TableExact(w)
    ensures Free(w, lock) <==> lock !in w.table
  {
  }

  lemma FreshIsFree(w: World, lock: Lock)
    requires TableExact(w) && Spent(w) && w.nextThread <= lock.thread
    ensures lock !in w.table
  {
  }

  /** What `Unlock` does to a lease that exists. */
  lemma UnlockReleases(w: World, lease: Option<nat>)
    requires lease.Some? ==> lease.value < |w.leases|
    ensures var t := Unlock(w, lease);
            && t.runners == w.runners && t.catalog == w.catalog && t.nextThread == w.nextThread
            && |t.leases| == |w.leases| && Dead(t, lease)
            && (forall n | 0 <= n < |w.leases| :: t.leases[n] == w.leases[n].(released := t.leases[n].released))
            && forall n | 0 <= n < |w.leases| && lease != Some(n) :: t.leases[n] == w.leases[n]
  {
  }

  /** What `TryLock` adds. */
  lemma TryLockAdds(w: World, id: nat, lock: Lock)
    requires lock !in w.table
    ensures var t := TryLock(w, id, lock);
            && t.runners == w.runners && t.catalog == w.catalog && t.nextThread == w.nextThread
            && t.leases == w.leases + [Lease(lock, id, false)] && Live(t, Some(|w.leases|), lock)
  {
  }

  /** What the invariant says of one runner. */
  lemma RunnerHolds(w: World, id: nat)
    requires Inv(w) && id in w.runners
    ensures var r := w.runners[id];
            && RunnerSound(w, id)
            && (r.lease.Some? ==> Proper(w, id, r.lease.value, {}))
            && (r.inflight.Some? && r.inflight.value.lease.Some? ==> Proper(w, id, r.inflight.value.lease.value, {}))
  {
    var r := w.runners[id];
    assert r.lease.Some? ==> r.lease.value in HeldBy(r);
    assert r.inflight.Some? && r.inflight.value.lease.Some? ==> r.inflight.value.lease.value in HeldBy(r);
  }

  /** Binding a thread under a lease of the runner. */
  lemma RebindBinds(w: World, id: nat, thread: Thread, lease: nat, draft: Option<Thread>)
    requires id in w.runners && lease < |w.leases| && !w.leases[lease].released && w.runners[id].lease != Some(lease)
    requires w.runners[id].lease.Some? ==> Proper(w, id, w.runners[id].lease.value, {})
    requires w.leases[lease].lock.thread == thread && Guards(w.runners[id], draft, w.leases[lease].lock)
    requires w.leases[lease].owner == id
    ensures var t := Rebind(w, id, thread, lease, draft);
            && On(t, id, thread, draft) && t.runners[id].lease == Some(lease)
            && Live(t, Some(lease), w.leases[lease].lock)
            && Dead(t, w.runners[id].lease)
            && t.catalog == w.catalog && t.nextThread == w.nextThread && |t.leases| == |w.leases|
            && t.runners == w.runners[id := Bound(w.runners[id], thread, lease, draft)]
            && (forall n | 0 <= n < |w.leases| :: t.leases[n].lock == w.leases[n].lock)
            && OwnOnly(w, t, id)
  {
    hide Unlock;
    UnlockReleases(Put(w, id, Bound(w.runners[id], thread, lease, draft)), w.runners[id].lease);
  }

  lemma CommitAchieves(w: World, id: nat)
    requires Inv(w) && Enabled(w, id, CommitSwitch)
    ensures Switched(w, Do(w, id, CommitSwitch), id) && OwnOnly(w, Do(w, id, CommitSwitch), id)
  {
    hide Inv, Unlock, Rebind;
    RunnerHolds(w, id);
    var r := w.runners[id];
    var op := r.inflight.value;
    if op.lease.Some? {
      RebindBinds(w, id, op.target, op.lease.value, if r.draft == Some(op.target) then r.draft else None);
    }
  }

  lemma PromotionAchieves(w: World, id: nat)
    requires Inv(w) && Enabled(w, id, CommitPersist)
    ensures PromotionHolds(w, Do(w, id, CommitPersist), id) && OwnOnly(w, Do(w, id, CommitPersist), id)
  {
    hide Inv, Unlock, Rebind;
    RunnerHolds(w, id);
    var r := w.runners[id];
    var op := r.inflight.value;
    RebindBinds(WithRow(w, r.db, op.target), id, op.target, op.lease.value, None);
  }

  /** Taking a free lock and binding its thread at once. */
  lemma TakeBinds(w: World, id: nat, lock: Lock, draft: Option<Thread>)
    requires Inv(w) && Idle(w, id) && lock !in w.table && Guards(w.runners[id], draft, lock)
    ensures id in TryLock(w, id, lock).runners
    ensures var t := Rebind(TryLock(w, id, lock), id, lock.thread, |w.leases|, draft);
            && On(t, id, lock.thread, draft) && Dead(t, w.runners[id].lease) && OwnOnly(w, t, id)
            && t.catalog == w.catalog && t.nextThread == w.nextThread
            && t.runners == w.runners[id := Bound(w.runners[id], lock.thread, |w.leases|, draft)]
            && |t.leases| == |w.leases| + 1 && t.leases[|w.leases|].lock == lock
            && forall n | 0 <= n < |w.leases| :: t.leases[n].lock == w.leases[n].lock
  {
    hide Inv, Unlock, Rebind, TryLock, On;
    RunnerHolds(w, id);
    TryLockAdds(w, id, lock);
    RebindBinds(TryLock(w, id, lock), id, lock.thread, |w.leases|, draft);
  }

  /** A thread of the catalog, or the first one. */
  lemma RowBinds(w: World, id: nat, thread: Thread)
    requires Inv(w) && Idle(w, id) && LockOf(w.runners[id], thread) !in w.table
    ensures var t := AdoptRow(w, id, thread);
            var r := w.runners[id];
            && On(t, id, thread, if r.draft == Some(thread) then r.draft else None)
            && Dead(t, r.lease) && OwnOnly(w, t, id) && t.catalog == w.catalog
  {
    hide Inv, Rebind, TryLock, On, OwnOnly;
    var r := w.runners[id];
    TryLockAdds(w, id, LockOf(r, thread));
    TakeBinds(w, id, LockOf(r, thread), if r.draft == Some(thread) then r.draft else None);
  }

  lemma DraftBinds(w: World, id: nat)
    requires Inv(w) && Idle(w, id) && MemoryLock(w.runners[id].domain, w.nextThread) !in w.table
    ensures var t := AdoptDraft(w, id);
            && On(t, id, w.nextThread, Some(w.nextThread))
            && Dead(t, w.runners[id].lease) && OwnOnly(w, t, id) && t.catalog == w.catalog
  {
    hide Inv, Rebind, TryLock, On, OwnOnly;
    var named := w.(nextThread := w.nextThread + 1);
    CatalogChange(w, named);
    TakeBinds(named, id, MemoryLock(w.runners[id].domain, w.nextThread), Some(w.nextThread));
    OwnOnlyAfter(w, named, AdoptDraft(w, id), id);
  }

  lemma CatalogChange(w: World, t: World)
    requires Inv(w) && t.leases == w.leases && t.table == w.table && t.runners == w.runners
    ensures Inv(t)
  {
    CatalogIsFree(w, t, {});
  }

  lemma OwnOnlyAfter(w: World, named: World, t: World, id: nat)
    requires named.leases == w.leases && OwnOnly(named, t, id) && w.catalog <= named.catalog
    requires forall other | other != id :: (other in w.runners <==> other in named.runners)
               && (other in w.runners ==> w.runners[other] == named.runners[other])
    ensures OwnOnly(w, t, id)
  {
  }

  lemma CreateAchieves(w: World, id: nat)
    requires Inv(w) && Spent(w) && Idle(w, id)
    ensures Created(w, DoCreate(w, id), id) && OwnOnly(w, DoCreate(w, id), id)
  {
    hide Inv, AdoptRow, AdoptDraft, On, OwnOnly, Spent, RunnerSound;
    var r := w.runners[id];
    var cleared := Put(w, id, r.(pending := None));
    ClearedKeeps(w, id);
    RunnerHolds(w, id);
    DraftIsSpent(w, id);
    FreshIsFree(w, LockOf(r, w.nextThread));
    FreshIsFree(w, MemoryLock(r.domain, w.nextThread));
    if r.db.Some? && !r.persistLate {
      var listed := Listed(cleared, id, w.nextThread);
      CatalogChange(cleared, listed);
      RowBinds(listed, id, w.nextThread);
      OwnOnlyAfter(w, listed, AdoptRow(listed, id, w.nextThread), id);
    } else {
      DraftBinds(cleared, id);
      OwnOnlyAfter(w, cleared, AdoptDraft(cleared, id), id);
    }
  }

  lemma ClearedKeeps(w: World, id: nat)
    requires Inv(w) && id in w.runners
    ensures TableExact(w) && Inv(Put(w, id, w.runners[id].(pending := None)))
  {
    assert RunnerSound(w, id);
    PutSame(w, id, w.runners[id].(pending := None));
  }

  lemma DraftIsSpent(w: World, id: nat)
    requires Spent(w) && id in w.runners
    ensures NamesSpent(w.runners[id], w.nextThread)
  {
  }

  lemma StartAchieves(w: World, id: nat, thread: Option<Thread>)
    requires Inv(w) && Spent(w) && Enabled(w, id, AcquireInitial(thread))
    ensures Started(w, DoAcquireInitial(w, id, thread), id, thread) && OwnOnly(w, DoAcquireInitial(w, id, thread), id)
  {
    hide Inv, AdoptRow, DoCreate, On, Spent, Free;
    var r := w.runners[id];
    RunnerHolds(w, id);
    if r.db.Some? && thread.None? && r.persistLate {
      CreateAchieves(w, id);
    } else {
      var n := if thread.Some? then thread.value else w.nextThread;
      var listed := Listed(w, id, n);
      InvIsExact(w);
      CatalogChange(w, listed);
      FreeIsUnlisted(w, LockOf(r, n));
      if thread.None? {
        FreshIsFree(w, LockOf(r, n));
      }
      if LockOf(r, n) !in w.table {
        RowBinds(listed, id, n);
        OwnOnlyAfter(w, listed, AdoptRow(listed, id, n), id);
      }
    }
  }

  lemma InvIsExact(w: World)
    requires Inv(w)
    ensures TableExact(w)
  {
  }

  /** Parking a lease on a free lock. */
  lemma ParkAchieves(w: World, id: nat, purpose: Purpose, target: Thread, lock: Lock, pending: Option<Thread>)
    requires Inv(w) && Idle(w, id) && lock !in w.table
    ensures var r := w.runners[id].(pending := pending, inflight := Some(Inflight(purpose, target, Some(|w.leases|))));
            var t := Put(TryLock(w, id, lock), id, r);
            Parked(w, t, id, purpose, target, lock) && OwnOnly(w, t, id)
  {
    hide Inv, TryLock;
    TryLockAdds(w, id, lock);
  }

  lemma BeginAchieves(w: World, id: nat, target: Thread, detach: bool)
    requires Inv(w) && Idle(w, id)
    ensures var t := DoBeginSwitch(w, id, target, detach);
            SwitchBegun(w, t, id, target, detach) && OwnOnly(w, t, id)
  {
    hide Inv, TryLock, Unlock, Parked, Free;
    InvIsExact(w);
    RunnerHolds(w, id);
    var was := w.runners[id];
    var lock := LockOf(was, target);
    FreeIsUnlisted(w, lock);
    if !Owns(w, was, target) {
      if lock !in w.table {
        ParkAchieves(w, id, Switching, target, lock, None);
      } else if detach {
        UnlockReleases(Put(w, id, was.(lease := None, pending := Some(target))), was.lease);
      }
    }
  }

  lemma WaitAchieves(w: World, id: nat, verdict: Verdict)
    requires Inv(w) && Enabled(w, id, WaitAcquire(verdict))
    ensures var t := DoWaitAcquire(w, id, verdict);
            WaitOver(w, t, id, verdict) && OwnOnly(w, t, id)
  {
    hide Inv, TryLock, Unlock, Parked;
    InvIsExact(w);
    var r := w.runners[id];
    var lock := StoreLockOf(r, r.pending.value);
    FreeIsUnlisted(w, lock);
    TryLockAdds(w, id, lock);
    var locked := TryLock(w, id, lock);
    match verdict
    case Proceed => ParkAchieves(w, id, Switching, r.pending.value, lock, r.pending);
    case CancelledAfter => UnlockReleases(locked, Some(|w.leases|));
    case RowGone => UnlockReleases(Put(locked, id, r.(pending := None)), Some(|w.leases|));
  }

  lemma AbortAchieves(w: World, id: nat, step: Step)
    requires Inv(w) && Enabled(w, id, step) && step in {AbortSwitch, AbortPersist}
    ensures Aborted(w, Do(w, id, step), id) && OwnOnly(w, Do(w, id, step), id)
  {
    hide Inv, Unlock;
    RunnerHolds(w, id);
    var r := w.runners[id];
    UnlockReleases(Put(w, id, r.(inflight := None)), r.inflight.value.lease);
  }

  lemma CloseAchieves(w: World, id: nat)
    requires Inv(w) && Enabled(w, id, Close)
    ensures Achieves(w, Do(w, id, Close), id, Close) && OwnOnly(w, Do(w, id, Close), id)
  {
    hide Inv, Unlock;
    RunnerHolds(w, id);
    UnlockReleases(Put(w, id, w.runners[id].(lease := None)), w.runners[id].lease);
  }

  lemma BeginPersistAchieves(w: World, id: nat)
    requires Inv(w) && Enabled(w, id, BeginPersist)
    ensures Achieves(w, Do(w, id, BeginPersist), id, BeginPersist) && OwnOnly(w, Do(w, id, BeginPersist), id)
  {
    hide Inv, TryLock, Parked, Free;
    InvIsExact(w);
    var r := w.runners[id];
    var lock := StoreLockOf(r, r.draft.value);
    FreeIsUnlisted(w, lock);
    if lock !in w.table {
      ParkAchieves(w, id, Promoting, r.draft.value, lock, r.pending);
    }
  }

  lemma StepAchieves(w: World, id: nat, step: Step)
    requires Inv(w) && Spent(w) && Enabled(w, id, step)
    ensures Achieves(w, Do(w, id, step), id, step) && OwnOnly(w, Do(w, id, step), id)
  {
    hide Inv, Spent, OwnOnly, Created, Started, SwitchBegun, WaitOver, Switched, PromotionHolds, Aborted;
    match step
    case NewRunner(_, _, _) => NewAchieves(w, id, step);
    case AcquireInitial(thread) => StartAchieves(w, id, thread);
    case CreateNew => CreateAchieves(w, id);
    case BeginSwitch(target, detach) => BeginAchieves(w, id, target, detach);
    case WaitAcquire(verdict) => WaitAchieves(w, id, verdict);
    case CommitSwitch => CommitAchieves(w, id);
    case BeginPersist => BeginPersistAchieves(w, id);
    case CommitPersist => PromotionAchieves(w, id);
    case Close => CloseAchieves(w, id);
    case _ => AbortAchieves(w, id, step);
  }

  lemma NewAchieves(w: World, id: nat, step: Step)
    requires Enabled(w, id, step) && step.NewRunner?
    ensures OwnOnly(w, Do(w, id, step), id)
  {
  }

  lemma SpentPut(w: World, id: nat, r: Runtime)
    requires Spent(w) && NamesSpent(r, w.nextThread)
    ensures Spent(Put(w, id, r))
  {
  }

  lemma SpentLock(w: World, id: nat, lock: Lock)
    requires Spent(w) && lock !in w.table && lock.thread < w.nextThread
    ensures Spent(TryLock(w, id, lock))
  {
  }

  lemma SpentUnlock(w: World, lease: Option<nat>)
    requires Spent(w)
    ensures Spent(Unlock(w, lease))
  {
  }

  lemma SpentRow(w: World, t: World)
    requires Spent(w) && t.leases == w.leases && t.runners == w.runners && w.nextThread <= t.nextThread
    requires forall row | row in t.catalog :: row in w.catalog || row.1 < t.nextThread
    ensures Spent(t)
  {
  }

  lemma SpentRebind(w: World, id: nat, thread: Thread, lease: nat, draft: Option<Thread>)
    requires Spent(w) && id in w.runners && (draft.Some? ==> draft.value < w.nextThread)
    ensures Spent(Rebind(w, id, thread, lease, draft))
  {
    hide Spent, Put, Unlock;
    var bound := Bound(w.runners[id], thread, lease, draft);
    SpentPut(w, id, bound);
    SpentUnlock(Put(w, id, bound), w.runners[id].lease);
  }

  lemma SpentAdoptRow(w: World, id: nat, thread: Thread)
    requires Spent(w) && id in w.runners && LockOf(w.runners[id], thread) !in w.table && thread < w.nextThread
    ensures Spent(AdoptRow(w, id, thread))
  {
    hide Spent, TryLock, Rebind;
    var lock := LockOf(w.runners[id], thread);
    TryLockAdds(w, id, lock);
    SpentLock(w, id, lock);
    var draft := w.runners[id].draft;
    SpentRebind(TryLock(w, id, lock), id, thread, |w.leases|, if draft == Some(thread) then draft else None);
  }

  lemma SpentCreate(w: World, id: nat)
    requires Spent(w) && id in w.runners
    ensures Spent(DoCreate(w, id))
  {
    hide Spent, TryLock, Rebind, Put, AdoptRow;
    var r, n := w.runners[id], w.nextThread;
    DraftIsSpent(w, id);
    var cleared := Put(w, id, r.(pending := None));
    SpentPut(w, id, r.(pending := None));
    PutIs(w, id, r.(pending := None));
    if r.db.Some? && !r.persistLate {
      SpentRow(cleared, Listed(cleared, id, n));
      if LockOf(r, n) !in w.table {
        SpentAdoptRow(Listed(cleared, id, n), id, n);
      }
    } else if MemoryLock(r.domain, n) !in w.table {
      var named := cleared.(nextThread := n + 1);
      SpentRow(cleared, named);
      SpentLock(named, id, MemoryLock(r.domain, n));
      TryLockAdds(named, id, MemoryLock(r.domain, n));
      SpentRebind(TryLock(named, id, MemoryLock(r.domain, n)), id, n, |w.leases|, Some(n));
    }
  }

  lemma PutIs(w: World, id: nat, r: Runtime)
    ensures Put(w, id, r) == w.(runners := w.runners[id := r])
  {
  }

  lemma SpentStart(w: World, id: nat, thread: Option<Thread>)
    requires Spent(w) && id in w.runners
    ensures Spent(DoAcquireInitial(w, id, thread))
  {
    hide Spent, AdoptRow, DoCreate;
    var r := w.runners[id];
    if r.db.Some? && thread.None? && r.persistLate {
      SpentCreate(w, id);
    } else {
      var n := if thread.Some? then thread.value else w.nextThread;
      SpentRow(w, Listed(w, id, n));
      if LockOf(r, n) !in w.table {
        SpentAdoptRow(Listed(w, id, n), id, n);
      }
    }
  }

  /** A lock call for a name in use, parked or handed back. */
  lemma SpentPark(w: World, id: nat, lock: Lock, r: Runtime)
    requires Spent(w) && lock !in w.table && lock.thread < w.nextThread && NamesSpent(r, w.nextThread)
    ensures Spent(Put(TryLock(w, id, lock), id, r))
    ensures Spent(Unlock(TryLock(w, id, lock), Some(|w.leases|)))
    ensures Spent(Unlock(Put(TryLock(w, id, lock), id, r), Some(|w.leases|)))
  {
    hide Spent, TryLock, Put, Unlock;
    SpentLock(w, id, lock);
    TryLockAdds(w, id, lock);
    SpentPut(TryLock(w, id, lock), id, r);
    SpentUnlock(TryLock(w, id, lock), Some(|w.leases|));
    SpentUnlock(Put(TryLock(w, id, lock), id, r), Some(|w.leases|));
  }

  lemma SpentBegin(w: World, id: nat, target: Thread, detach: bool)
    requires Spent(w) && id in w.runners && target < w.nextThread
    ensures Spent(DoBeginSwitch(w, id, target, detach))
  {
    hide Spent, TryLock, Put, Unlock;
    DraftIsSpent(w, id);
    var r := w.runners[id].(pending := None);
    var lock := LockOf(r, target);
    SpentPut(w, id, r);
    SpentPut(w, id, r.(inflight := Some(Inflight(Switching, target, None))));
    SpentPut(w, id, r.(lease := None, pending := Some(target)));
    SpentUnlock(Put(w, id, r.(lease := None, pending := Some(target))), r.lease);
    if lock !in w.table {
      SpentPark(w, id, lock, r.(inflight := Some(Inflight(Switching, target, Some(|w.leases|)))));
    }
  }

  lemma SpentWait(w: World, id: nat, verdict: Verdict)
    requires Spent(w) && Enabled(w, id, WaitAcquire(verdict))
    ensures Spent(DoWaitAcquire(w, id, verdict))
  {
    hide Spent, TryLock, Put, Unlock;
    DraftIsSpent(w, id);
    var r := w.runners[id];
    var target := r.pending.value;
    var lock := StoreLockOf(r, target);
    SpentPark(w, id, lock, r.(pending := None));
    SpentPark(w, id, lock, r.(inflight := Some(Inflight(Switching, target, Some(|w.leases|)))));
  }

  /** Every operation keeps to identifiers that have been handed out. */
  lemma SpentStays(w: World, id: nat, step: Step)
    requires Inv(w) && Spent(w) && Enabled(w, id, step)
    ensures Spent(Do(w, id, step))
  {
    hide Spent, Inv, TryLock, Put, Unlock, Rebind;
    if id in w.runners {
      DraftIsSpent(w, id);
      RunnerHolds(w, id);
    }
    match step
    case NewRunner(db, domain, late) => SpentPut(w, id, Runtime(db, domain, late, None, None, None, None, None));
    case AcquireInitial(thread) => SpentStart(w, id, thread);
    case CreateNew => SpentCreate(w, id);
    case BeginSwitch(target, detach) =>
      RowIsSpent(w, (w.runners[id].db.value, target));
      SpentBegin(w, id, target, detach);
    case WaitAcquire(verdict) => SpentWait(w, id, verdict);
    case BeginPersist => SpentPersist(w, id);
    case CommitSwitch => SpentCommit(w, id);
    case CommitPersist => SpentPromotion(w, id);
    case _ => SpentRelease(w, id, step);
  }

  lemma RowIsSpent(w: World, row: (nat, Thread))
    requires Spent(w) && row in w.catalog
    ensures row.1 < w.nextThread
  {
  }

  lemma SpentPersist(w: World, id: nat)
    requires Spent(w) && Enabled(w, id, BeginPersist)
    ensures Spent(Do(w, id, BeginPersist))
  {
    hide Spent, TryLock, Put;
    DraftIsSpent(w, id);
    var r := w.runners[id];
    var lock := StoreLockOf(r, r.draft.value);
    if lock !in w.table {
      SpentPark(w, id, lock, r.(inflight := Some(Inflight(Promoting, r.draft.value, Some(|w.leases|)))));
    }
  }

  lemma SpentCommit(w: World, id: nat)
    requires Spent(w) && Enabled(w, id, CommitSwitch)
    ensures Spent(Do(w, id, CommitSwitch))
  {
    hide Spent, Put, Rebind;
    DraftIsSpent(w, id);
    var r := w.runners[id];
    var op := r.inflight.value;
    SpentPut(w, id, r.(thread := Some(op.target), pending := None, inflight := None));
    if op.lease.Some? {
      SpentRebind(w, id, op.target, op.lease.value, if r.draft == Some(op.target) then r.draft else None);
    }
  }

  lemma SpentPromotion(w: World, id: nat)
    requires Inv(w) && Spent(w) && Enabled(w, id, CommitPersist)
    ensures Spent(Do(w, id, CommitPersist))
  {
    hide Spent, Rebind, Inv;
    RunnerHolds(w, id);
    DraftIsSpent(w, id);
    var r := w.runners[id];
    var op := r.inflight.value;
    SpentRow(w, WithRow(w, r.db, op.target));
    SpentRebind(WithRow(w, r.db, op.target), id, op.target, op.lease.value, None);
  }

  lemma SpentRelease(w: World, id: nat, step: Step)
    requires Spent(w) && Enabled(w, id, step) && step in {AbortSwitch, AbortPersist, Close}
    ensures Spent(Do(w, id, step))
  {
    hide Spent, Put, Unlock;
    DraftIsSpent(w, id);
    var r := w.runners[id];
    SpentPut(w, id, r.(lease := None));
    SpentPut(w, id, r.(inflight := None));
    SpentUnlock(Put(w, id, r.(lease := None)), r.lease);
    if !step.Close? {
      SpentUnlock(Put(w, id, r.(inflight := None)), r.inflight.value.lease);
    }
  }

  lemma {:induction false} ReachableIsSpent(trace: seq<(nat, Step)>)
    requires Runnable(trace)
    ensures Spent(After(trace))
    decreases |trace|
  {
    if trace != [] {
      var before := trace[..|trace| - 1];
      ReachableIsSpent(before);
      ReachableIsSound(before);
      SpentStays(After(before), trace[|trace| - 1].0, trace[|trace| - 1].1);
    }
  }

  /** In every interleaving each step achieves what its operation is for, and touches nothing else. */
  lemma StepsTakeEffect(trace: seq<(nat, Step)>, id: nat, step: Step)
    requires Runnable(trace) && Enabled(After(trace), id, step)
    ensures Inv(After(trace))
    ensures Achieves(After(trace), Do(After(trace), id, step), id, step)
    ensures OwnOnly(After(trace), Do(After(trace), id, step), id)
  {
    hide Inv, Spent, Achieves, OwnOnly, Enabled, Do;
    ReachableIsSound(trace);
    ReachableIsSpent(trace);
    StepAchieves(After(trace), id, step);
  }

  lemma OneMoreStep(trace: seq<(nat, Step)>, id: nat, step: Step)
    requires Runnable(trace) && Enabled(After(trace), id, step)
    ensures Runnable(trace + [(id, step)]) && After(trace + [(id, step)]) == Do(After(trace), id, step)
  {
    assert (trace + [(id, step)])[..|trace|] == trace;
  }

  /** A switch to a free thread of the catalog, or to the own one, succeeds: nothing else can come between
      its acquisition and its commit that would take the target away. */
  lemma SwitchSucceeds(trace: seq<(nat, Step)>, id: nat, target: Thread, detach: bool)
    requires Runnable(trace) && Idle(After(trace), id)
    requires var w, r := After(trace), After(trace).runners[id];
             && r.thread.Some? && r.db.Some? && (r.db.value, target) in w.catalog
             && (Owns(w, r, target) || Free(w, LockOf(r, target)))
    ensures var begun := trace + [(id, BeginSwitch(target, detach))];
            && Runnable(begun) && Enabled(After(begun), id, CommitSwitch)
            && var draft := After(trace).runners[id].draft;
               On(Do(After(begun), id, CommitSwitch), id, target, if draft == Some(target) then draft else None)
  {
    hide Runnable, After, Free, Live, Inv, On, OwnOnly;
    var begun := trace + [(id, BeginSwitch(target, detach))];
    StepsTakeEffect(trace, id, BeginSwitch(target, detach));
    OneMoreStep(trace, id, BeginSwitch(target, detach));
    StepsTakeEffect(begun, id, CommitSwitch);
  }

  /** So does the wait for a thread that has become free. */
  lemma WaitSucceeds(trace: seq<(nat, Step)>, id: nat)
    requires Runnable(trace) && Idle(After(trace), id)
    requires var w, r := After(trace), After(trace).runners[id];
             r.pending.Some? && r.lease.None? && Free(w, StoreLockOf(r, r.pending.value))
    ensures var target := After(trace).runners[id].pending.value;
            var waited := trace + [(id, WaitAcquire(Proceed))];
            && Runnable(waited) && Enabled(After(waited), id, CommitSwitch)
            && var draft := After(trace).runners[id].draft;
               On(Do(After(waited), id, CommitSwitch), id, target, if draft == Some(target) then draft else None)
  {
    hide Runnable, After, Free, Live, Inv, On, OwnOnly;
    ReachableIsSound(trace);
    InvIsExact(After(trace));
    FreeIsUnlisted(After(trace), StoreLockOf(After(trace).runners[id], After(trace).runners[id].pending.value));
    var waited := trace + [(id, WaitAcquire(Proceed))];
    StepsTakeEffect(trace, id, WaitAcquire(Proceed));
    OneMoreStep(trace, id, WaitAcquire(Proceed));
    StepsTakeEffect(waited, id, CommitSwitch);
  }

  /** And the promotion of a draft whose file lock is free: the runner may write its thread then. */
  lemma PromotionSucceeds(trace: seq<(nat, Step)>, id: nat)
    requires Runnable(trace) && Idle(After(trace), id)
    requires var w, r := After(trace), After(trace).runners[id];
             && r.db.Some? && r.draft.Some? && r.lease.Some?
             && Free(w, StoreLockOf(r, r.draft.value))
    ensures var thread := After(trace).runners[id].draft.value;
            var begun := trace + [(id, BeginPersist)];
            && Runnable(begun) && Enabled(After(begun), id, CommitPersist)
            && MayWrite(Do(After(begun), id, CommitPersist), id, thread)
  {
    hide Runnable, After, Free, Inv, OwnOnly;
    ReachableIsSound(trace);
    RunnerHolds(After(trace), id);
    var begun := trace + [(id, BeginPersist)];
    StepsTakeEffect(trace, id, BeginPersist);
    OneMoreStep(trace, id, BeginPersist);
    StepsTakeEffect(begun, id, CommitPersist);
  }

  /** A new session can always be had, and so can a first one for a runner that has none. */
  lemma CreationSucceeds(trace: seq<(nat, Step)>, id: nat)
    requires Runnable(trace) && Idle(After(trace), id)
    ensures var w := After(trace);
            var step := if w.runners[id].thread.Some? then CreateNew else AcquireInitial(None);
            && Runnable(trace + [(id, step)])
            && var t := After(trace + [(id, step)]);
               && id in t.runners && t.runners[id].draft in {None, Some(w.nextThread)}
               && On(t, id, w.nextThread, t.runners[id].draft)
  {
    hide Runnable, After, Free, Live, Inv, OwnOnly;
    var step := if After(trace).runners[id].thread.Some? then CreateNew else AcquireInitial(None);
    StepsTakeEffect(trace, id, step);
    OneMoreStep(trace, id, step);
  }

  /** An operation that waits for its commit can always be given up; the runner is then where it was. */
  lemma AbortSucceeds(trace: seq<(nat, Step)>, id: nat)
    requires Runnable(trace) && id in After(trace).runners && After(trace).runners[id].inflight.Some?
    ensures var w := After(trace);
            var step := if w.runners[id].inflight.value.purpose.Switching? then AbortSwitch else AbortPersist;
            && Runnable(trace + [(id, step)])
            && Aborted(w, After(trace + [(id, step)]), id)
  {
    hide Runnable, After, Inv, OwnOnly, Aborted;
    ReachableIsSound(trace);
    RunnerHolds(After(trace), id);
    var step := if After(trace).runners[id].inflight.value.purpose.Switching? then AbortSwitch else AbortPersist;
    StepsTakeEffect(trace, id, step);
    OneMoreStep(trace, id, step);
  }
}
