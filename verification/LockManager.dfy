// Advisory partition locks: a lease with a time to live, kept as one object per
// partition in a store that offers no compare-and-swap.

module Locks {
  import opened Prelude
  import opened PartitionKeys
  import opened Configuration

  datatype LockRecord = LockRecord(
    partitionId: string, owner: string, acquiredAt: int, expiresAt: int, runId: string)

  predicate IsStale(lock: LockRecord, timeout: int, now: int) {
    now >= lock.expiresAt || now - lock.acquiredAt > timeout
  }

  // What acquire() decides on after reading the lock: nothing there, a stale
  // lock, or its own lock (which it then renews).
  predicate MayGrant(existing: Option<LockRecord>, owner: string, timeout: int, now: int) {
    existing.None? || IsStale(existing.value, timeout, now) || existing.value.owner == owner
  }

  // Another worker's lock that is neither past its expiry nor older than the
  // reader's own timeout: the only kind that keeps a worker out.
  predicate Blocks(existing: Option<LockRecord>, owner: string, timeout: int, now: int) {
    && existing.Some? && existing.value.owner != owner
    && now < existing.value.expiresAt && now - existing.value.acquiredAt <= timeout
  }

  // A lock for the partition that its owner took at the given time.
  predicate TakenAt(lock: LockRecord, partitionId: string, owner: string, time: int, timeout: int) {
    && lock.partitionId == partitionId && lock.owner == owner
    && lock.acquiredAt == time && lock.expiresAt == time + timeout
  }

  function NewLock(partitionId: string, owner: string, now: int, timeout: int, runId: string): LockRecord {
    LockRecord(partitionId, owner, now, now + timeout, runId)
  }

  function Get<K, V>(m: map<K, V>, k: K): Option<V> {
    if k in m then Some(m[k]) else None
  }

  // The keys whose lock belongs to an owner.
  function OwnedBy(locks: map<string, LockRecord>, owner: string): set<string> {
    set k | k in locks && locks[k].owner == owner
  }

  // The store's calls during one acquire() that may raise. A write that raises
  // may still have reached the store.
  datatype AcquireFault =
    | NoFault
    | FirstReadFails(e: Exn)
    | SecondReadFails(e: Exn)
    | WriteFails(e: Exn, stored: bool)

  datatype Acquisition = Granted | Denied | Failed(e: Exn)

  function AcquireOutcome(existing: Option<LockRecord>, owner: string, timeout: int, now: int, fault: AcquireFault)
    : Acquisition
  {
    if fault.FirstReadFails? || fault.SecondReadFails? then Failed(fault.e)
    else if !MayGrant(existing, owner, timeout, now) then Denied
    else if fault.WriteFails? then Failed(fault.e)
    else Granted
  }

  // Which answer acquire() gives.
  lemma AcquireDecides(existing: Option<LockRecord>, owner: string, timeout: int, now: int, fault: AcquireFault)
    ensures AcquireOutcome(existing, owner, timeout, now, fault) ==
      match fault
      case FirstReadFails(e) => Failed(e)
      case SecondReadFails(e) => Failed(e)
      case WriteFails(e, _) => if Blocks(existing, owner, timeout, now) then Denied else Failed(e)
      case NoFault => if Blocks(existing, owner, timeout, now) then Denied else Granted
  {
  }

  class LockStore {
    var locks: map<string, LockRecord>
    // _delete_lock swallows the store's error: a refused delete goes unnoticed.
    var refusesDeletes: bool
    // Every state of the store since it was opened, the present one last.
    ghost var history: seq<map<string, LockRecord>>

    ghost predicate Valid()
      reads this
    {
      history != [] && history[|history| - 1] == locks
    }

    constructor (initial: map<string, LockRecord>, refuses: bool)
      ensures Valid() && locks == initial && refusesDeletes == refuses && history == [initial]
    {
      locks, refusesDeletes, history := initial, refuses, [initial];
    }

    method Put(key: string, lock: LockRecord)
      requires Valid()
      modifies this`locks, this`history
      ensures Valid() && locks == old(locks)[key := lock] && history == old(history) + [locks]
    {
      locks := locks[key := lock];
      history := history + [locks];
    }

    method Delete(key: string)
      requires Valid()
      modifies this`locks, this`history
      ensures Valid() && history == old(history) + [locks]
      ensures locks == if refusesDeletes then old(locks) else old(locks) - {key}
    {
      if !refusesDeletes {
        locks := locks - {key};
      }
      history := history + [locks];
    }
  }

  class LockManager {
    const store: LockStore
    const basePath: string
    const timeout: int
    const owner: string
    const runId: string

    constructor (store: LockStore, basePath: string, timeout: int, owner: string, runId: string)
      ensures this.store == store && this.basePath == basePath && this.timeout == timeout
      ensures this.owner == owner && this.runId == runId
    {
      this.store, this.basePath, this.timeout := store, basePath, timeout;
      this.owner, this.runId := owner, runId;
    }

    function Path(partitionId: string): string {
      LockFilePath(basePath, partitionId)
    }

    function ReadLock(partitionId: string): Option<LockRecord>
      reads store
    {
      Get(store.locks, Path(partitionId))
    }

    function Stamp(partitionId: string, now: int): LockRecord {
      NewLock(partitionId, owner, now, timeout, runId)
    }

    predicate IsHeldBySelf(partitionId: string)
      reads store
    {
      var existing := ReadLock(partitionId);
      existing.Some? && existing.value.owner == owner
    }

    method CleanupStaleLock(partitionId: string, now: int) returns (cleaned: bool)
      requires store.Valid()
      modifies store`locks, store`history
      ensures store.Valid()
      ensures cleaned <==> var existing := old(ReadLock(partitionId));
                existing.Some? && (now >= existing.value.expiresAt || now - existing.value.acquiredAt > timeout)
      ensures store.locks == if cleaned && !store.refusesDeletes then old(store.locks) - {Path(partitionId)}
                             else old(store.locks)
      ensures old(store.history) <= store.history
      ensures forall i :: |old(store.history)| <= i < |store.history| ==> store.history[i] == store.locks
    {
      var existing := ReadLock(partitionId);
      if existing.Some? && IsStale(existing.value, timeout, now) {
        store.Delete(Path(partitionId));
        return true;
      }
      return false;
    }

    // Granted exactly when the stored lock is absent, stale or the caller's own,
    // and then the caller's fresh lock is what the store holds, even when the
    // stale one could not be deleted. A denial changes nothing, and a failure
    // nothing but that the stale lock may be gone already, or the fresh one
    // stored. Other partitions' locks are never touched.
    method Acquire(partitionId: string, now: int, fault: AcquireFault) returns (r: Acquisition)
      requires store.Valid()
      modifies store`locks, store`history
      ensures store.Valid()
      ensures r == AcquireOutcome(old(ReadLock(partitionId)), owner, timeout, now, fault)
      ensures r.Denied? <==> Blocks(old(ReadLock(partitionId)), owner, timeout, now)
                             && !fault.FirstReadFails? && !fault.SecondReadFails?
      ensures r.Granted? <==> !Blocks(old(ReadLock(partitionId)), owner, timeout, now) && fault.NoFault?
      ensures r.Granted? || (r.Failed? && fault.WriteFails? && fault.stored) ==>
                ReadLock(partitionId).Some?
                && TakenAt(ReadLock(partitionId).value, partitionId, owner, now, timeout)
                && ReadLock(partitionId).value.runId == runId
      ensures r.Granted? ==> store.locks == old(store.locks)[Path(partitionId) := Stamp(partitionId, now)]
      ensures r.Denied? ==> store.locks == old(store.locks)
      ensures r.Failed? && !(fault.WriteFails? && fault.stored) ==>
                var stale := old(ReadLock(partitionId)).Some? && IsStale(old(ReadLock(partitionId)).value, timeout, now);
                store.locks == if stale && !fault.FirstReadFails? && !store.refusesDeletes
                               then old(store.locks) - {Path(partitionId)} else old(store.locks)
      ensures r.Failed? && !(fault.WriteFails? && fault.stored) ==> OwnedBy(store.locks, owner) <= OwnedBy(old(store.locks), owner)
      ensures r.Failed? && fault.WriteFails? && fault.stored ==>
                store.locks == old(store.locks)[Path(partitionId) := Stamp(partitionId, now)]
      ensures store.locks - {Path(partitionId)} == old(store.locks) - {Path(partitionId)}
      ensures old(store.history) <= store.history
      ensures forall i :: |old(store.history)| <= i < |store.history| ==>
                OwnedBy(store.history[i], owner) <= OwnedBy(old(store.locks), owner) + {Path(partitionId)}
    {
      if fault.FirstReadFails? {
        return Failed(fault.e);
      }
      var cleaned := CleanupStaleLock(partitionId, now);
      if fault.SecondReadFails? {
        return Failed(fault.e);
      }
      var existing := ReadLock(partitionId);
      if existing.Some? && !IsStale(existing.value, timeout, now) {
        if existing.value.owner != owner {
          return Denied;
        }
      }
      if fault.WriteFails? && !fault.stored {
        return Failed(fault.e);
      }
      store.Put(Path(partitionId), Stamp(partitionId, now));
      if fault.WriteFails? {
        return Failed(fault.e);
      }
      return Granted;
    }

    // Only the owner's lock is removed; another worker's survives.
    method Release(partitionId: string)
      requires store.Valid()
      modifies store`locks, store`history
      ensures store.Valid()
      ensures var existing := old(ReadLock(partitionId));
        store.locks == if existing.Some? && existing.value.owner == owner && !store.refusesDeletes
                       then old(store.locks) - {Path(partitionId)} else old(store.locks)
      ensures old(store.history) <= store.history
      ensures forall i :: |old(store.history)| <= i < |store.history| ==> store.history[i] == store.locks
    {
      var existing := ReadLock(partitionId);
      if existing.Some? && existing.value.owner == owner {
        store.Delete(Path(partitionId));
      }
    }
  }
}
