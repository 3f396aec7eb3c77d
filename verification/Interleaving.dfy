// Any number of compaction workers and a streaming writer, interleaved at the
// granularity of single store calls: a lock's reads, deletes and writes are
// separate steps, and so are reading a slice and committing its rewrite.

module Interleaving {
  import opened Prelude
  import opened PartitionKeys
  import opened Rewrite
  import opened Locks
  import opened DeltaCompactor

  // Where a worker is. The first four phases are inside acquire(), the last two
  // before Crashed inside release().
  datatype Phase =
    | Idle
    | Cleaning                    // about to read, for the stale check
    | Deleting                    // saw a stale lock, about to delete it
    | Checking                    // about to read again
    | Writing                     // may grant itself the lock, about to write it
    | Working                     // granted
    | Releasing                   // about to read before releasing
    | Unlocking                   // saw its own lock, about to delete it
    | Crashed

  datatype Worker = Worker(
    timeout: int,
    phase: Phase,
    partition: PartitionKey,
    reference: int,               // the clock as read when acquire() was entered
    existing: Option<LockRecord>, // the lock as last read
    slice: Option<seq<Row>>,      // the rows read and not yet committed
    grant: Option<int>)           // when the unreleased grant on `partition` was taken

  datatype State = State(
    clock: int,
    locks: map<PartitionKey, LockRecord>,
    table: Snapshot,
    workers: map<string, Worker>)

  datatype Event =
    | Tick(d: nat)
    | Append(p: PartitionKey, files: seq<DataFile>)
    | Begin(w: string, p: PartitionKey)
    | CleanupRead(w: string)
    | CleanupDelete(w: string, done: bool)
    | GrantRead(w: string)
    | GrantWrite(w: string)
    | ReadSlice(w: string, p: PartitionKey)
    | Commit(w: string, p: PartitionKey, files: seq<DataFile>)
    | StartRelease(w: string)
    | ReleaseRead(w: string)
    | ReleaseDelete(w: string, done: bool)
    | Crash(w: string)

  predicate At(s: State, w: string, phase: Phase) {
    w in s.workers && s.workers[w].phase == phase
  }

  predicate Enabled(s: State, e: Event) {
    match e
    case Tick(_) => true
    case Append(_, _) => true
    case Begin(w, _) => At(s, w, Idle)
    case CleanupRead(w) => At(s, w, Cleaning)
    case CleanupDelete(w, _) => At(s, w, Deleting)
    case GrantRead(w) => At(s, w, Checking)
    case GrantWrite(w) => At(s, w, Writing)
    case ReadSlice(w, p) => At(s, w, Working) && s.workers[w].partition == p
    case Commit(w, p, files) =>
      && At(s, w, Working) && s.workers[w].partition == p && s.workers[w].slice.Some?
      // A rewrite (see RedistributePermutes) or an OPTIMIZE regroups what it read.
      && multiset(RowsOf(files)) == multiset(s.workers[w].slice.value)
    case StartRelease(w) => At(s, w, Working)
    case ReleaseRead(w) => At(s, w, Releasing)
    case ReleaseDelete(w, _) => At(s, w, Unlocking)
    case Crash(w) => w in s.workers
  }

  function Update(s: State, w: string, k: Worker): State {
    s.(workers := s.workers[w := k])
  }

  function RemoveLock(s: State, p: PartitionKey, done: bool): State {
    if done then s.(locks := s.locks - {p}) else s
  }

  function LockOf(w: string, k: Worker, acquired: int): LockRecord {
    NewLock(PartitionId(k.partition), w, acquired, k.timeout, w)
  }

  function Next(s: State, e: Event): State
    requires Enabled(s, e)
  {
    match e
    case Tick(d) => s.(clock := s.clock + d)
    case Append(p, files) => s.(table := s.table[p := Slice(s.table, p) + files])
    case Begin(w, p) =>
      Update(s, w, s.workers[w].(phase := Cleaning, partition := p, reference := s.clock, slice := None, grant := None))
    case CleanupRead(w) =>
      var k := s.workers[w];
      var existing := Get(s.locks, k.partition);
      var stale := existing.Some? && IsStale(existing.value, k.timeout, k.reference);
      Update(s, w, k.(existing := existing, phase := if stale then Deleting else Checking))
    case CleanupDelete(w, done) =>
      Update(RemoveLock(s, s.workers[w].partition, done), w, s.workers[w].(phase := Checking))
    case GrantRead(w) =>
      var k := s.workers[w];
      var existing := Get(s.locks, k.partition);
      var may := MayGrant(existing, w, k.timeout, k.reference);
      Update(s, w, k.(existing := existing, phase := if may then Writing else Idle))
    case GrantWrite(w) =>
      var k := s.workers[w];
      Update(s.(locks := s.locks[k.partition := LockOf(w, k, k.reference)]), w,
             k.(phase := Working, grant := Some(k.reference)))
    case ReadSlice(w, p) =>
      Update(s, w, s.workers[w].(slice := Some(LiveRows(s.table, p))))
    case Commit(w, p, files) =>
      Update(s.(table := s.table[p := files]), w, s.workers[w].(slice := None))
    case StartRelease(w) =>
      Update(s, w, s.workers[w].(phase := Releasing))
    case ReleaseRead(w) =>
      var k := s.workers[w];
      var existing := Get(s.locks, k.partition);
      if existing.Some? && existing.value.owner == w then
        Update(s, w, k.(existing := existing, phase := Unlocking))
      else
        Update(s, w, k.(existing := existing, phase := Idle, grant := None))
    case ReleaseDelete(w, done) =>
      Update(RemoveLock(s, s.workers[w].partition, done), w, s.workers[w].(phase := Idle, grant := None))
    case Crash(w) =>
      Update(s, w, s.workers[w].(phase := Crashed))
  }

  // ---------- Runs ----------

  function Run(s: State, tr: seq<Event>): State {
    if tr == [] then s
    else
      var before := Run(s, tr[..|tr| - 1]);
      var e := tr[|tr| - 1];
      if Enabled(before, e) then Next(before, e) else before
  }

  // Every event of the run was possible when it happened.
  predicate IsRun(s: State, tr: seq<Event>) {
    tr == [] || (IsRun(s, tr[..|tr| - 1]) && Enabled(Run(s, tr[..|tr| - 1]), tr[|tr| - 1]))
  }

  // Nobody holds or is asking for anything; locks and table are arbitrary.
  predicate Initial(s: State) {
    forall w :: w in s.workers ==> s.workers[w].phase == Idle && s.workers[w].grant.None? && s.workers[w].slice.None?
  }

  lemma RunExtends(s: State, tr: seq<Event>, e: Event)
    requires IsRun(s, tr) && Enabled(Run(s, tr), e)
    ensures IsRun(s, tr + [e]) && Run(s, tr + [e]) == Next(Run(s, tr), e)
  {
    assert (tr + [e])[..|tr|] == tr;
  }

  // ---------- Exclusion ----------

  // An unreleased grant younger than m. A crash does not release a grant.
  predicate Holds(s: State, w: string, p: PartitionKey, m: int) {
    && w in s.workers && s.workers[w].partition == p
    && s.workers[w].grant.Some? && s.clock - s.workers[w].grant.value < m
  }

  ghost predicate Exclusive(s: State, m: int) {
    forall u, w, p :: Holds(s, u, p, m) && Holds(s, w, p, m) ==> u == w
  }

  // Every young unreleased grant is the lock in the store, so the lock store
  // tells who may work. This is more than exclusion.
  ghost predicate Kept(s: State, m: int) {
    forall w, p :: Holds(s, w, p, m) ==> Recorded(s, w, p)
  }

  // The stored lock of p says whose it is, when it was taken and until when.
  predicate Recorded(s: State, w: string, p: PartitionKey)
    requires w in s.workers && s.workers[w].grant.Some?
  {
    var k := s.workers[w];
    p in s.locks && TakenAt(s.locks[p], PartitionId(p), w, k.grant.value, k.timeout) && s.locks[p].runId == w
  }

  lemma KeptExcludes(s: State, m: int)
    requires Kept(s, m)
    ensures Exclusive(s, m)
  {
    forall u, w, p | Holds(s, u, p, m) && Holds(s, w, p, m) ensures u == w {
      assert Recorded(s, u, p);
    }
  }

  // The write or delete finds the lock just as the worker last read it. The
  // code does not check this: it is what a compare-and-swap would add.
  predicate Undisturbed(s: State, e: Event) {
    var w? := match e
      case CleanupDelete(w, done) => if done then Some(w) else None
      case GrantWrite(w) => Some(w)
      case ReleaseDelete(w, done) => if done then Some(w) else None
      case _ => None;
    w?.Some? && w?.value in s.workers ==>
      Get(s.locks, s.workers[w?.value].partition) == s.workers[w?.value].existing
  }

  predicate AllUndisturbed(s: State, tr: seq<Event>) {
    tr == [] || (AllUndisturbed(s, tr[..|tr| - 1]) && Undisturbed(Run(s, tr[..|tr| - 1]), tr[|tr| - 1]))
  }

  // What one worker knows, relative to its phase.
  predicate WorkerOk(s: State, w: string, m: int)
    requires w in s.workers
  {
    var k := s.workers[w];
    && m <= k.timeout
    && (k.phase.Idle? || k.phase.Crashed? || k.reference <= s.clock)
    && (k.phase.Idle? || k.phase.Cleaning? || k.phase.Deleting? || k.phase.Checking? || k.phase.Writing? ==>
          k.grant.None?)
    && (k.phase.Deleting? ==> k.existing.Some? && IsStale(k.existing.value, k.timeout, k.reference))
    && (k.phase.Writing? ==> MayGrant(k.existing, w, k.timeout, k.reference))
    && (k.phase.Unlocking? ==> k.existing.Some? && k.existing.value.owner == w)
    && (k.grant.Some? ==> k.grant.value <= s.clock)
    // A young grant is the lock in the store.
    && (k.grant.Some? && s.clock - k.grant.value < m ==>
          Get(s.locks, k.partition) == Some(LockOf(w, k, k.grant.value)))
  }

  ghost predicate LeaseInvariant(s: State, m: int) {
    forall w :: w in s.workers ==> WorkerOk(s, w, m)
  }

  // A young grant's lock cannot look stale or be another worker's own.
  lemma YoungLockBlocks(s: State, u: string, w: string, m: int, reference: int, timeout: int)
    requires u in s.workers && WorkerOk(s, u, m) && Holds(s, u, s.workers[u].partition, m)
    requires reference <= s.clock && m <= timeout && u != w
    ensures var lock := LockOf(u, s.workers[u], s.workers[u].grant.value);
            !IsStale(lock, timeout, reference) && !MayGrant(Some(lock), w, timeout, reference)
  {
  }

  // A step that leaves the locks alone, or changes only one that no young grant
  // relies on, disturbs no other worker.
  lemma OtherWorkerOk(s: State, e: Event, u: string, m: int)
    requires Enabled(s, e) && LeaseInvariant(s, m) && Undisturbed(s, e)
    requires u in s.workers
    requires !IsStepOf(e, u)
    ensures u in Next(s, e).workers && WorkerOk(Next(s, e), u, m)
  {
    assert WorkerOk(s, u, m);
    if Holds(s, u, s.workers[u].partition, m) {
      YoungLockStays(s, e, u, m);
    }
    OtherWorkerStays(s, e, u);
    StillOk(s, Next(s, e), u, m);
  }

  lemma YoungLockStays(s: State, e: Event, u: string, m: int)
    requires Enabled(s, e) && LeaseInvariant(s, m) && Undisturbed(s, e)
    requires u in s.workers && Holds(s, u, s.workers[u].partition, m)
    requires !IsStepOf(e, u)
    ensures Get(Next(s, e).locks, s.workers[u].partition) == Get(s.locks, s.workers[u].partition)
  {
    assert WorkerOk(s, u, m);
    match e
    case CleanupDelete(w, done) =>
      assert WorkerOk(s, w, m);
      YoungLockBlocks(s, u, w, m, s.workers[w].reference, s.workers[w].timeout);
    case GrantWrite(w) =>
      assert WorkerOk(s, w, m);
      YoungLockBlocks(s, u, w, m, s.workers[w].reference, s.workers[w].timeout);
    case ReleaseDelete(w, done) => assert WorkerOk(s, w, m);
    case _ =>
  }

  lemma OtherWorkerStays(s: State, e: Event, u: string)
    requires Enabled(s, e) && u in s.workers && !IsStepOf(e, u)
    ensures u in Next(s, e).workers && Next(s, e).workers[u] == s.workers[u] && s.clock <= Next(s, e).clock
  {
  }

  lemma StillOk(s: State, t: State, u: string, m: int)
    requires u in s.workers && WorkerOk(s, u, m)
    requires u in t.workers && t.workers[u] == s.workers[u] && s.clock <= t.clock
    requires Holds(s, u, s.workers[u].partition, m) ==>
               Get(t.locks, s.workers[u].partition) == Get(s.locks, s.workers[u].partition)
    ensures WorkerOk(t, u, m)
  {
  }

  predicate IsStepOf(e: Event, w: string) {
    !e.Tick? && !e.Append? && e.w == w
  }

  // The worker that steps.
  lemma OwnWorkerOk(s: State, e: Event, w: string, m: int)
    requires Enabled(s, e) && Undisturbed(s, e) && IsStepOf(e, w)
    requires w in s.workers && WorkerOk(s, w, m)
    ensures w in Next(s, e).workers && WorkerOk(Next(s, e), w, m)
  {
  }

  lemma StepKeepsLease(s: State, e: Event, m: int)
    requires Enabled(s, e) && LeaseInvariant(s, m) && Undisturbed(s, e)
    ensures LeaseInvariant(Next(s, e), m)
  {
    forall u | u in Next(s, e).workers ensures WorkerOk(Next(s, e), u, m) {
      SameWorkers(s, e);
      if IsStepOf(e, u) {
        OwnWorkerOk(s, e, u, m);
      } else {
        OtherWorkerOk(s, e, u, m);
      }
    }
  }

  lemma SameWorkers(s: State, e: Event)
    requires Enabled(s, e)
    ensures Next(s, e).workers.Keys == s.workers.Keys
  {
  }

  lemma {:induction false} RunKeepsLease(s: State, tr: seq<Event>, m: int)
    requires Initial(s) && forall w :: w in s.workers ==> m <= s.workers[w].timeout
    requires IsRun(s, tr) && AllUndisturbed(s, tr)
    ensures LeaseInvariant(Run(s, tr), m)
  {
    if tr != [] {
      RunKeepsLease(s, tr[..|tr| - 1], m);
      StepKeepsLease(Run(s, tr[..|tr| - 1]), tr[|tr| - 1], m);
    }
  }

  // In every run whose lock writes and deletes are undisturbed, at most one
  // worker has an unreleased grant on a partition younger than the smallest
  // timeout, and that grant is the lock in the store.
  lemma LeaseExcludes(s: State, tr: seq<Event>, m: int)
    requires Initial(s) && forall w :: w in s.workers ==> m <= s.workers[w].timeout
    requires IsRun(s, tr) && AllUndisturbed(s, tr)
    ensures Kept(Run(s, tr), m) && Exclusive(Run(s, tr), m)
  {
    RunKeepsLease(s, tr, m);
    LeaseIsKept(Run(s, tr), m);
    KeptExcludes(Run(s, tr), m);
  }

  lemma LeaseIsKept(s: State, m: int)
    requires LeaseInvariant(s, m)
    ensures Kept(s, m)
  {
    forall w, p | Holds(s, w, p, m)
      ensures Recorded(s, w, p)
    {
      assert WorkerOk(s, w, m);
    }
  }

  // ---------- Where a read and the write it decides are one step ----------

  predicate FollowsItsRead(tr: seq<Event>, k: nat)
    requires k < |tr|
  {
    match tr[k]
    case CleanupDelete(w, _) => k > 0 && tr[k - 1] == CleanupRead(w)
    case GrantWrite(w) => k > 0 && tr[k - 1] == GrantRead(w)
    case ReleaseDelete(w, _) => k > 0 && tr[k - 1] == ReleaseRead(w)
    case _ => true
  }

  // Nothing comes between a read of a lock and the write or delete it leads to;
  // elsewhere workers interleave freely, even in the middle of acquire().
  ghost predicate AtomicUpdates(tr: seq<Event>) {
    forall k :: 0 <= k < |tr| ==> FollowsItsRead(tr, k)
  }

  lemma JustRead(s: State, e: Event, w: string)
    requires e == CleanupRead(w) || e == GrantRead(w) || e == ReleaseRead(w)
    requires Enabled(s, e)
    ensures var t := Next(s, e);
      w in t.workers && t.workers[w].existing == Get(t.locks, t.workers[w].partition)
  {
  }

  lemma {:induction false} AtomicIsUndisturbed(s: State, tr: seq<Event>)
    requires IsRun(s, tr) && AtomicUpdates(tr)
    ensures AllUndisturbed(s, tr)
  {
    if tr != [] {
      var n := |tr| - 1;
      var front := tr[..n];
      forall k | 0 <= k < n ensures FollowsItsRead(front, k) {
        assert FollowsItsRead(tr, k);
      }
      AtomicIsUndisturbed(s, front);
      assert FollowsItsRead(tr, n);
      if tr[n].CleanupDelete? || tr[n].GrantWrite? || tr[n].ReleaseDelete? {
        JustRead(Run(s, front[..n - 1]), front[n - 1], tr[n].w);
      }
    }
  }

  // With atomic updates of the lock store, every run of any number of workers
  // with any timeouts and crashes excludes.
  lemma AtomicUpdatesExclude(s: State, tr: seq<Event>, m: int)
    requires Initial(s) && forall w :: w in s.workers ==> m <= s.workers[w].timeout
    requires IsRun(s, tr) && AtomicUpdates(tr)
    ensures Kept(Run(s, tr), m) && Exclusive(Run(s, tr), m)
  {
    AtomicIsUndisturbed(s, tr);
    LeaseExcludes(s, tr, m);
  }

  // ---------- Without a compare-and-swap: exactly which runs exclude ----------

  // The worker whose step overwrites or removes the lock of its partition.
  function Overwriter(e: Event): Option<string> {
    match e
    case GrantWrite(w) => Some(w)
    case CleanupDelete(w, done) => if done then Some(w) else None
    case ReleaseDelete(w, done) => if done then Some(w) else None
    case _ => None
  }

  // The store holds the young, unreleased lock of a worker other than w.
  predicate HeldByOther(s: State, p: PartitionKey, w: string, m: int) {
    p in s.locks && s.locks[p].owner != w && Holds(s, s.locks[p].owner, p, m)
  }

  // One more look at the store just before the write or delete would tell, with
  // the clock and whether the lock it shows is still in use.
  predicate Harmless(s: State, e: Event, m: int) {
    var w? := Overwriter(e);
    w?.Some? && w?.value in s.workers ==> !HeldByOther(s, s.workers[w?.value].partition, w?.value, m)
  }

  // A worker that has not been granted its partition has no grant.
  ghost predicate GrantsAreTaken(s: State) {
    forall w :: w in s.workers && s.workers[w].grant.Some? ==>
      s.workers[w].phase in {Working, Releasing, Unlocking, Crashed}
  }

  lemma GrantsStayTaken(s: State, e: Event)
    requires Enabled(s, e) && GrantsAreTaken(s)
    ensures GrantsAreTaken(Next(s, e))
  {
  }

  lemma OtherGrantsStay(s: State, e: Event, u: string, p: PartitionKey, m: int)
    requires Enabled(s, e) && Overwriter(e).Some? && Overwriter(e).value != u
    ensures Holds(Next(s, e), u, p, m) <==> Holds(s, u, p, m)
    ensures u in s.workers ==> u in Next(s, e).workers && Next(s, e).workers[u] == s.workers[u]
  {
  }

  // A harmless overwriting step.
  lemma OverwritingKeeps(s: State, e: Event, m: int)
    requires Enabled(s, e) && Overwriter(e).Some?
    requires Kept(s, m) && GrantsAreTaken(s) && Harmless(s, e, m)
    ensures Kept(Next(s, e), m)
  {
    var w, t := Overwriter(e).value, Next(s, e);
    forall u, p | Holds(t, u, p, m)
      ensures Recorded(t, u, p)
    {
      if u != w {
        OtherGrantsStay(s, e, u, p, m);
        assert Recorded(s, u, p);
        assert p != s.workers[w].partition;
      }
    }
  }

  // Any other step leaves the store alone and makes no grant younger.
  lemma OtherStepKeeps(s: State, e: Event, m: int)
    requires Enabled(s, e) && Overwriter(e).None? && Kept(s, m)
    ensures Kept(Next(s, e), m)
  {
    var t := Next(s, e);
    forall u, p | Holds(t, u, p, m)
      ensures Recorded(t, u, p)
    {
      GrantWasThere(s, e, u, p, m);
      assert Recorded(s, u, p);
    }
  }

  lemma GrantWasThere(s: State, e: Event, u: string, p: PartitionKey, m: int)
    requires Enabled(s, e) && Overwriter(e).None? && Holds(Next(s, e), u, p, m)
    ensures Holds(s, u, p, m) && Next(s, e).locks == s.locks
    ensures LockOf(u, Next(s, e).workers[u], Next(s, e).workers[u].grant.value)
         == LockOf(u, s.workers[u], s.workers[u].grant.value)
  {
  }

  // A step breaks the agreement exactly when it is not harmless.
  lemma HarmlessExactly(s: State, e: Event, m: int)
    requires Enabled(s, e) && Kept(s, m) && GrantsAreTaken(s)
    ensures Kept(Next(s, e), m) <==> Harmless(s, e, m)
  {
    if Overwriter(e).None? {
      OtherStepKeeps(s, e, m);
    } else if Harmless(s, e, m) {
      OverwritingKeeps(s, e, m);
    } else {
      HarmIsDone(s, e, m);
    }
  }

  lemma HarmIsDone(s: State, e: Event, m: int)
    requires Enabled(s, e) && Kept(s, m) && !Harmless(s, e, m)
    ensures !Kept(Next(s, e), m)
  {
    var w := Overwriter(e).value;
    var p := s.workers[w].partition;
    var u := s.locks[p].owner;
    OtherGrantsStay(s, e, u, p, m);
    assert Holds(Next(s, e), u, p, m);
  }

  ghost predicate KeptThroughout(s: State, tr: seq<Event>, m: int) {
    Kept(Run(s, tr), m) && (tr == [] || KeptThroughout(s, tr[..|tr| - 1], m))
  }

  predicate AllHarmless(s: State, tr: seq<Event>, m: int) {
    tr == [] || (AllHarmless(s, tr[..|tr| - 1], m) && Harmless(Run(s, tr[..|tr| - 1]), tr[|tr| - 1], m))
  }

  lemma {:induction false} RunKeepsGrantsTaken(s: State, tr: seq<Event>)
    requires Initial(s) && IsRun(s, tr)
    ensures GrantsAreTaken(Run(s, tr))
  {
    if tr != [] {
      RunKeepsGrantsTaken(s, tr[..|tr| - 1]);
      GrantsStayTaken(Run(s, tr[..|tr| - 1]), tr[|tr| - 1]);
    }
  }

  // For every run of any number of workers, with any timeouts, races and
  // crashes: the lock store tells throughout who holds a young grant, if and only
  // if every write and delete that is carried out finds no other worker's young
  // unreleased lock in the store.
  lemma {:induction false} KeptExactly(s: State, tr: seq<Event>, m: int)
    requires Initial(s) && IsRun(s, tr)
    ensures KeptThroughout(s, tr, m) <==> AllHarmless(s, tr, m)
  {
    if tr != [] {
      var front := tr[..|tr| - 1];
      KeptExactly(s, front, m);
      if KeptThroughout(s, front, m) {
        RunKeepsGrantsTaken(s, front);
        KeptNow(s, front, m);
        HarmlessExactly(Run(s, front), tr[|tr| - 1], m);
      }
    }
  }

  lemma KeptNow(s: State, tr: seq<Event>, m: int)
    requires KeptThroughout(s, tr, m)
    ensures Kept(Run(s, tr), m)
  {
  }

  // Of exclusion alone: a step breaks it exactly when it is a write that makes a
  // young grant on a partition where another worker has one.
  lemma WriteBreaksExclusionIff(s: State, e: Event, m: int)
    requires Enabled(s, e) && Exclusive(s, m)
    ensures !Exclusive(Next(s, e), m) <==> DoubleGrant(s, e, m)
  {
    var t := Next(s, e);
    forall u, p ensures Holds(t, u, p, m) ==> Holds(s, u, p, m) || (e == GrantWrite(u) && p == s.workers[u].partition) {
      OnlyWritesGrant(s, e, u, p, m);
    }
    if DoubleGrant(s, e, m) {
      var u :| u != e.w && Holds(s, u, s.workers[e.w].partition, m);
      OtherGrantsStay(s, e, u, s.workers[e.w].partition, m);
      assert Holds(t, e.w, s.workers[e.w].partition, m);
    } else {
      forall u, v, q | Holds(t, u, q, m) && Holds(t, v, q, m) ensures u == v {}
    }
  }

  ghost predicate DoubleGrant(s: State, e: Event, m: int) {
    && e.GrantWrite? && e.w in s.workers && s.clock - s.workers[e.w].reference < m
    && exists u :: u != e.w && Holds(s, u, s.workers[e.w].partition, m)
  }

  lemma OnlyWritesGrant(s: State, e: Event, u: string, p: PartitionKey, m: int)
    requires Enabled(s, e)
    ensures Holds(Next(s, e), u, p, m) ==> Holds(s, u, p, m) || (e == GrantWrite(u) && p == s.workers[u].partition)
  {
  }

  ghost predicate ExclusiveThroughout(s: State, tr: seq<Event>, m: int) {
    Exclusive(Run(s, tr), m) && (tr == [] || ExclusiveThroughout(s, tr[..|tr| - 1], m))
  }

  ghost predicate NoDoubleGrant(s: State, tr: seq<Event>, m: int) {
    tr == [] || (NoDoubleGrant(s, tr[..|tr| - 1], m) && !DoubleGrant(Run(s, tr[..|tr| - 1]), tr[|tr| - 1], m))
  }

  // And over whole runs, again with any timeouts, races and crashes: grants
  // exclude throughout if and only if no write is such a one.
  lemma {:induction false} ExclusionExactly(s: State, tr: seq<Event>, m: int)
    requires Initial(s) && IsRun(s, tr)
    ensures ExclusiveThroughout(s, tr, m) <==> NoDoubleGrant(s, tr, m)
  {
    if tr != [] {
      var front := tr[..|tr| - 1];
      ExclusionExactly(s, front, m);
      if ExclusiveThroughout(s, front, m) {
        ExclusiveNow(s, front, m);
        WriteBreaksExclusionIff(Run(s, front), tr[|tr| - 1], m);
      }
    }
  }

  lemma ExclusiveNow(s: State, tr: seq<Event>, m: int)
    requires ExclusiveThroughout(s, tr, m)
    ensures Exclusive(Run(s, tr), m)
  {
  }

  // As long as the store tells who holds a young grant, the two conditions
  // differ in the deletes only: what a write must find is the same.
  lemma StoreTellsDoubleGrants(s: State, w: string, m: int)
    requires Kept(s, m) && Enabled(s, GrantWrite(w))
    ensures DoubleGrant(s, GrantWrite(w), m)
       <==> s.clock - s.workers[w].reference < m && HeldByOther(s, s.workers[w].partition, w, m)
  {
    var p := s.workers[w].partition;
    if HeldByOther(s, p, w, m) {
      assert Holds(s, s.locks[p].owner, p, m);
    }
    forall u | u != w && Holds(s, u, p, m) ensures HeldByOther(s, p, w, m) {
      assert Recorded(s, u, p);
    }
  }

  // ---------- Two grants at once ----------

  // Worker w, another worker, and the lock stored for p, at time 0.
  function Two(p: PartitionKey, lock: Option<LockRecord>, w: string, k: Worker, v: string, other: Worker): State {
    State(0, if lock.Some? then map[p := lock.value] else map[], map[], map[w := k, v := other])
  }

  function Asking(p: PartitionKey, timeout: int, phase: Phase, existing: Option<LockRecord>): Worker {
    Worker(timeout, phase, p, 0, existing, None, None)
  }

  function Owning(p: PartitionKey, timeout: int): Worker {
    Worker(timeout, Working, p, 0, None, None, Some(0))
  }

  lemma Begins(p: PartitionKey, timeout: int, lock: Option<LockRecord>, w: string, v: string, other: Worker)
    requires w != v
    ensures var s := Two(p, lock, w, Asking(p, timeout, Idle, None), v, other);
      && Enabled(s, Begin(w, p))
      && Next(s, Begin(w, p)) == Two(p, lock, w, Asking(p, timeout, Cleaning, None), v, other)
  {
  }

  lemma Looks(p: PartitionKey, timeout: int, lock: Option<LockRecord>, w: string, v: string, other: Worker)
    requires w != v
    ensures var s := Two(p, lock, w, Asking(p, timeout, Cleaning, None), v, other);
      var stale := lock.Some? && IsStale(lock.value, timeout, 0);
      && Enabled(s, CleanupRead(w))
      && Next(s, CleanupRead(w))
           == Two(p, lock, w, Asking(p, timeout, if stale then Deleting else Checking, lock), v, other)
  {
  }

  lemma Deletes(
    p: PartitionKey, timeout: int, lock: Option<LockRecord>, read: Option<LockRecord>, w: string, v: string, other: Worker)
    requires w != v
    ensures var s := Two(p, lock, w, Asking(p, timeout, Deleting, read), v, other);
      && Enabled(s, CleanupDelete(w, true))
      && Next(s, CleanupDelete(w, true)) == Two(p, None, w, Asking(p, timeout, Checking, read), v, other)
  {
    assert map[p := lock] - {p} == map[];
  }

  lemma SeesNone(p: PartitionKey, timeout: int, read: Option<LockRecord>, w: string, v: string, other: Worker)
    requires w != v
    ensures var s := Two(p, None, w, Asking(p, timeout, Checking, read), v, other);
      && Enabled(s, GrantRead(w))
      && Next(s, GrantRead(w)) == Two(p, None, w, Asking(p, timeout, Writing, None), v, other)
  {
  }

  lemma Writes(p: PartitionKey, timeout: int, lock: Option<LockRecord>, w: string, v: string, other: Worker)
    requires w != v
    ensures var k := Asking(p, timeout, Writing, None);
      var s := Two(p, lock, w, k, v, other);
      && Enabled(s, GrantWrite(w))
      && Next(s, GrantWrite(w)) == Two(p, Some(LockOf(w, k, 0)), w, Owning(p, timeout), v, other)
  {
  }

  lemma Swap(p: PartitionKey, lock: Option<LockRecord>, w: string, k: Worker, v: string, other: Worker)
    requires w != v
    ensures Two(p, lock, w, k, v, other) == Two(p, lock, v, other, w, k)
  {
  }

  lemma TwoHold(p: PartitionKey, timeout: int, lock: Option<LockRecord>, w: string, v: string, m: int)
    requires w != v && 0 < m
    ensures !Exclusive(Two(p, lock, w, Owning(p, timeout), v, Owning(p, timeout)), m)
  {
    var s := Two(p, lock, w, Owning(p, timeout), v, Owning(p, timeout));
    assert Holds(s, w, p, m) && Holds(s, v, p, m);
  }

  ghost predicate Reaches(s: State, tr: seq<Event>, t: State) {
    IsRun(s, tr) && Run(s, tr) == t
  }

  lemma Go(s: State, tr: seq<Event>, t: State, e: Event, u: State) returns (longer: seq<Event>)
    requires Reaches(s, tr, t) && Enabled(t, e) && Next(t, e) == u
    ensures longer == tr + [e] && Reaches(s, longer, u)
  {
    longer := tr + [e];
    RunExtends(s, tr, e);
  }

  // With no lock stored, w gets as far as being about to write one.
  lemma ToWriting(s: State, tr: seq<Event>, p: PartitionKey, timeout: int, w: string, v: string, other: Worker)
    returns (longer: seq<Event>)
    requires w != v && Reaches(s, tr, Two(p, None, w, Asking(p, timeout, Idle, None), v, other))
    ensures Reaches(s, longer, Two(p, None, w, Asking(p, timeout, Writing, None), v, other))
  {
    Begins(p, timeout, None, w, v, other);
    longer := Go(s, tr, Two(p, None, w, Asking(p, timeout, Idle, None), v, other), Begin(w, p),
                 Two(p, None, w, Asking(p, timeout, Cleaning, None), v, other));
    Looks(p, timeout, None, w, v, other);
    longer := Go(s, longer, Two(p, None, w, Asking(p, timeout, Cleaning, None), v, other), CleanupRead(w),
                 Two(p, None, w, Asking(p, timeout, Checking, None), v, other));
    SeesNone(p, timeout, None, w, v, other);
    longer := Go(s, longer, Two(p, None, w, Asking(p, timeout, Checking, None), v, other), GrantRead(w),
                 Two(p, None, w, Asking(p, timeout, Writing, None), v, other));
  }

  // Both workers read "no lock" before either writes: both are granted the
  // partition at the same instant, whatever their timeout.
  lemma TwoGrants(p: PartitionKey, timeout: int, m: int) returns (tr: seq<Event>)
    requires 0 < m <= timeout
    ensures var idle := Asking(p, timeout, Idle, None);
      var s := Two(p, None, "A", idle, "B", idle);
      Initial(s) && IsRun(s, tr) && !Exclusive(Run(s, tr), m)
  {
    var idle, writing := Asking(p, timeout, Idle, None), Asking(p, timeout, Writing, None);
    var s := Two(p, None, "A", idle, "B", idle);
    tr := ToWriting(s, [], p, timeout, "A", "B", idle);
    Swap(p, None, "A", writing, "B", idle);
    tr := ToWriting(s, tr, p, timeout, "B", "A", writing);
    tr := BothWrite(s, tr, p, timeout);
    TwoHold(p, timeout, Some(LockOf("A", writing, 0)), "A", "B", m);
  }

  lemma BothWrite(s: State, tr: seq<Event>, p: PartitionKey, timeout: int) returns (longer: seq<Event>)
    requires var writing := Asking(p, timeout, Writing, None);
      Reaches(s, tr, Two(p, None, "B", writing, "A", writing))
    ensures var writing := Asking(p, timeout, Writing, None);
      Reaches(s, longer, Two(p, Some(LockOf("A", writing, 0)), "A", Owning(p, timeout), "B", Owning(p, timeout)))
  {
    var writing, owning := Asking(p, timeout, Writing, None), Owning(p, timeout);
    var a, b := Some(LockOf("A", writing, 0)), Some(LockOf("B", writing, 0));
    Writes(p, timeout, None, "B", "A", writing);
    longer := Go(s, tr, Two(p, None, "B", writing, "A", writing), GrantWrite("B"), Two(p, b, "B", owning, "A", writing));
    Swap(p, b, "B", owning, "A", writing);
    Writes(p, timeout, b, "A", "B", owning);
    longer := Go(s, longer, Two(p, b, "A", writing, "B", owning), GrantWrite("A"), Two(p, a, "A", owning, "B", owning));
  }

  // The cleanup races too. A sees an expired lock; B deletes it, is granted and
  // writes; A then deletes B's fresh lock. The store is now empty, A's write finds
  // it just as A last read it, and still breaks exclusion.
  lemma RacedDelete(p: PartitionKey, timeout: int, m: int, old_: LockRecord) returns (tr: seq<Event>)
    requires 0 < m <= timeout && old_.expiresAt <= 0
    ensures var idle := Asking(p, timeout, Idle, None);
      var s := Two(p, Some(old_), "A", idle, "B", idle);
      && Initial(s) && IsRun(s, tr)
      && var t := Run(s, tr);
         && Enabled(t, GrantWrite("A")) && Undisturbed(t, GrantWrite("A")) && p !in t.locks
         && Exclusive(t, m) && !Exclusive(Next(t, GrantWrite("A")), m)
  {
    var idle := Asking(p, timeout, Idle, None);
    var deleting := Asking(p, timeout, Deleting, Some(old_));
    var s := Two(p, Some(old_), "A", idle, "B", idle);
    tr := ToDeleting(s, [], p, timeout, old_, "A", "B", idle);
    Swap(p, Some(old_), "A", deleting, "B", idle);
    tr := ToDeleting(s, tr, p, timeout, old_, "B", "A", deleting);
    tr := OvertakenDelete(s, tr, p, timeout, old_);
    LastWrite(p, timeout, m);
  }

  // Both have seen the expired lock; B goes first.
  lemma OvertakenDelete(s: State, tr: seq<Event>, p: PartitionKey, timeout: int, old_: LockRecord)
    returns (longer: seq<Event>)
    requires var deleting := Asking(p, timeout, Deleting, Some(old_));
      Reaches(s, tr, Two(p, Some(old_), "B", deleting, "A", deleting))
    ensures Reaches(s, longer, Two(p, None, "A", Asking(p, timeout, Writing, None), "B", Owning(p, timeout)))
  {
    var deleting := Asking(p, timeout, Deleting, Some(old_));
    var writing, owning := Asking(p, timeout, Writing, None), Owning(p, timeout);
    longer := ToWritingAgain(s, tr, p, timeout, Some(old_), old_, "B", "A", deleting);
    Writes(p, timeout, None, "B", "A", deleting);
    var b := Some(LockOf("B", writing, 0));
    longer := Go(s, longer, Two(p, None, "B", writing, "A", deleting), GrantWrite("B"), Two(p, b, "B", owning, "A", deleting));
    Swap(p, b, "B", owning, "A", deleting);
    longer := ToWritingAgain(s, longer, p, timeout, b, old_, "A", "B", owning);
  }

  lemma LastWrite(p: PartitionKey, timeout: int, m: int)
    requires 0 < m
    ensures var t := Two(p, None, "A", Asking(p, timeout, Writing, None), "B", Owning(p, timeout));
      && Enabled(t, GrantWrite("A")) && Undisturbed(t, GrantWrite("A")) && p !in t.locks
      && Exclusive(t, m) && !Exclusive(Next(t, GrantWrite("A")), m)
  {
    Writes(p, timeout, None, "A", "B", Owning(p, timeout));
    TwoHold(p, timeout, Some(LockOf("A", Asking(p, timeout, Writing, None), 0)), "A", "B", m);
  }

  lemma ToDeleting(
    s: State, tr: seq<Event>, p: PartitionKey, timeout: int, old_: LockRecord, w: string, v: string, other: Worker)
    returns (longer: seq<Event>)
    requires w != v && old_.expiresAt <= 0
    requires Reaches(s, tr, Two(p, Some(old_), w, Asking(p, timeout, Idle, None), v, other))
    ensures Reaches(s, longer, Two(p, Some(old_), w, Asking(p, timeout, Deleting, Some(old_)), v, other))
  {
    var lock := Some(old_);
    Begins(p, timeout, lock, w, v, other);
    longer := Go(s, tr, Two(p, lock, w, Asking(p, timeout, Idle, None), v, other), Begin(w, p),
                 Two(p, lock, w, Asking(p, timeout, Cleaning, None), v, other));
    Looks(p, timeout, lock, w, v, other);
    longer := Go(s, longer, Two(p, lock, w, Asking(p, timeout, Cleaning, None), v, other), CleanupRead(w),
                 Two(p, lock, w, Asking(p, timeout, Deleting, lock), v, other));
  }

  lemma ToWritingAgain(
    s: State, tr: seq<Event>, p: PartitionKey, timeout: int, lock: Option<LockRecord>, old_: LockRecord,
    w: string, v: string, other: Worker)
    returns (longer: seq<Event>)
    requires w != v && Reaches(s, tr, Two(p, lock, w, Asking(p, timeout, Deleting, Some(old_)), v, other))
    ensures Reaches(s, longer, Two(p, None, w, Asking(p, timeout, Writing, None), v, other))
  {
    var read := Some(old_);
    Deletes(p, timeout, lock, read, w, v, other);
    longer := Go(s, tr, Two(p, lock, w, Asking(p, timeout, Deleting, read), v, other), CleanupDelete(w, true),
                 Two(p, None, w, Asking(p, timeout, Checking, read), v, other));
    SeesNone(p, timeout, read, w, v, other);
    longer := Go(s, longer, Two(p, None, w, Asking(p, timeout, Checking, read), v, other), GrantRead(w),
                 Two(p, None, w, Asking(p, timeout, Writing, None), v, other));
  }

  // ---------- acquire() runs without interruption ----------

  predicate IsAcquireStep(e: Event, w: string) {
    (e.Begin? || e.CleanupRead? || e.CleanupDelete? || e.GrantRead? || e.GrantWrite?) && e.w == w
  }

  // Taken in one go, the split steps of acquire() are undisturbed and do what
  // LockManager.Acquire is specified to do: grant unless another worker's lock
  // blocks, and then leave the caller's fresh lock in the store.
  lemma AcquireInOneGo(s: State, w: string, p: PartitionKey) returns (tr: seq<Event>)
    requires At(s, w, Idle)
    ensures IsRun(s, tr) && AllUndisturbed(s, tr)
    ensures forall e :: e in tr ==> IsAcquireStep(e, w)
    ensures var k, t := s.workers[w], Run(s, tr);
      var granted := !Blocks(Get(s.locks, p), w, k.timeout, s.clock);
      && (if granted then At(t, w, Working) && t.workers[w].partition == p else At(t, w, Idle))
      && (granted ==> p in t.locks && TakenAt(t.locks[p], PartitionId(p), w, s.clock, k.timeout))
      && t.locks == (if granted then s.locks[p := NewLock(PartitionId(p), w, s.clock, k.timeout, w)] else s.locks)
      && t.table == s.table
  {
    var first, t := FirstLook(s, w, p);
    var fresh_ := NewLock(PartitionId(p), w, s.clock, s.workers[w].timeout, w);
    SecondLookDecides(s.locks, p, w, s.workers[w].timeout, s.clock, fresh_);
    var u;
    tr, u := SecondLook(s, first, t, w);
  }

  // Deleting a stale lock first does not change what the second read decides.
  lemma SecondLookDecides(
    locks: map<PartitionKey, LockRecord>, p: PartitionKey, w: string, timeout: int, now: int, fresh_: LockRecord)
    ensures p in locks && IsStale(locks[p], timeout, now) ==>
              && MayGrant(Get(locks - {p}, p), w, timeout, now) && MayGrant(Get(locks, p), w, timeout, now)
              && (locks - {p})[p := fresh_] == locks[p := fresh_]
  {
  }

  // So an idle worker can take a partition whose lock is past its expiry, or older
  // than the worker's own timeout, or the worker's own, which it then renews.
  lemma ExpiredLockIsTaken(s: State, w: string, p: PartitionKey) returns (tr: seq<Event>)
    requires At(s, w, Idle) && p in s.locks
    requires || s.clock >= s.locks[p].expiresAt || s.clock - s.locks[p].acquiredAt > s.workers[w].timeout
             || s.locks[p].owner == w
    ensures IsRun(s, tr) && AllUndisturbed(s, tr)
    ensures forall e :: e in tr ==> IsAcquireStep(e, w)
    ensures At(Run(s, tr), w, Working) && p in Run(s, tr).locks
    ensures TakenAt(Run(s, tr).locks[p], PartitionId(p), w, s.clock, s.workers[w].timeout)
  {
    tr := AcquireInOneGo(s, w, p);
  }

  // While a worker has a grant, a lock of its own on the partition is the one it
  // wrote when it was granted.
  ghost predicate GrantsOnRecord(s: State) {
    forall u :: u in s.workers && s.workers[u].grant.Some? ==> OnRecord(s, u)
  }

  predicate OnRecord(s: State, u: string)
    requires u in s.workers && s.workers[u].grant.Some?
  {
    var k := s.workers[u];
    k.partition in s.locks && s.locks[k.partition].owner == u ==>
      TakenAt(s.locks[k.partition], PartitionId(k.partition), u, k.grant.value, k.timeout)
  }

  lemma StepKeepsRecord(s: State, e: Event, u: string)
    requires Enabled(s, e) && u in s.workers && u in Next(s, e).workers && Next(s, e).workers[u].grant.Some?
    requires s.workers[u].grant.Some? ==> OnRecord(s, u)
    ensures OnRecord(Next(s, e), u)
  {
    if !IsStepOf(e, u) {
      OtherWorkerStays(s, e, u);
      LocksOfOthers(s, e, u);
    }
  }

  // Another worker's step leaves u's locks as they are, removes them or puts its
  // own in their place.
  lemma LocksOfOthers(s: State, e: Event, u: string)
    requires Enabled(s, e) && !IsStepOf(e, u)
    ensures forall p :: p in Next(s, e).locks && Next(s, e).locks[p].owner == u ==>
              p in s.locks && s.locks[p] == Next(s, e).locks[p]
  {
  }

  lemma {:induction false} RunKeepsRecord(s: State, tr: seq<Event>)
    requires Initial(s) && IsRun(s, tr)
    ensures GrantsOnRecord(Run(s, tr))
  {
    if tr != [] {
      var before, e := Run(s, tr[..|tr| - 1]), tr[|tr| - 1];
      RunKeepsRecord(s, tr[..|tr| - 1]);
      SameWorkers(before, e);
      forall u | u in Next(before, e).workers && Next(before, e).workers[u].grant.Some? ensures OnRecord(Next(before, e), u) {
        StepKeepsRecord(before, e, u);
      }
    }
  }

  // A grant that is never released, because its holder crashed or hangs, keeps no
  // idle worker from the partition once the holder's timeout has passed since it
  // was taken.
  lemma GrantExpires(s: State, tr: seq<Event>, u: string, w: string) returns (more: seq<Event>)
    requires Initial(s) && IsRun(s, tr)
    requires u in Run(s, tr).workers && Run(s, tr).workers[u].grant.Some?
    requires var k := Run(s, tr).workers[u];
      && Run(s, tr).clock >= k.grant.value + k.timeout
      && k.partition in Run(s, tr).locks && Run(s, tr).locks[k.partition].owner == u
    requires At(Run(s, tr), w, Idle)
    ensures IsRun(Run(s, tr), more) && forall e :: e in more ==> IsAcquireStep(e, w)
    ensures var p, t := Run(s, tr).workers[u].partition, Run(Run(s, tr), more);
      At(t, w, Working) && t.workers[w].partition == p
      && p in t.locks && TakenAt(t.locks[p], PartitionId(p), w, Run(s, tr).clock, Run(s, tr).workers[w].timeout)
  {
    RunKeepsRecord(s, tr);
    assert OnRecord(Run(s, tr), u);
    more := AcquireInOneGo(Run(s, tr), w, Run(s, tr).workers[u].partition);
  }

  predicate IsReleaseStep(e: Event, w: string) {
    (e.StartRelease? || e.ReleaseRead? || e.ReleaseDelete?) && e.w == w
  }

  // Likewise release(): only the caller's own lock goes, and the grant ends.
  lemma ReleaseInOneGo(s: State, w: string) returns (tr: seq<Event>)
    requires At(s, w, Working)
    ensures IsRun(s, tr) && AllUndisturbed(s, tr)
    ensures forall e :: e in tr ==> IsReleaseStep(e, w)
    ensures var p, t := s.workers[w].partition, Run(s, tr);
      && At(t, w, Idle) && t.workers[w].grant.None?
      && t.locks == (if p in s.locks && s.locks[p].owner == w then s.locks - {p} else s.locks)
      && t.table == s.table
  {
    var t;
    tr, t := Extend(s, [], s, StartRelease(w));
    tr, t := LookAndDelete(s, tr, t, w);
  }

  // From t, where w is about to read, to u, where release() has returned.
  predicate Released(t: State, u: State, w: string)
    requires w in t.workers
  {
    var p := t.workers[w].partition;
    && At(u, w, Idle) && u.workers[w].grant.None?
    && u.locks == (if p in t.locks && t.locks[p].owner == w then t.locks - {p} else t.locks)
    && u.table == t.table
  }

  lemma ReadAndDelete(t: State, w: string)
    requires At(t, w, Releasing)
    ensures var u := Next(t, ReleaseRead(w));
      if At(u, w, Unlocking) then
        Undisturbed(u, ReleaseDelete(w, true)) && Released(t, Next(u, ReleaseDelete(w, true)), w)
      else Released(t, u, w)
  {
  }

  lemma LookAndDelete(s: State, tr: seq<Event>, t: State, w: string) returns (longer: seq<Event>, u: State)
    requires Undisturbing(s, tr, t) && At(t, w, Releasing)
    ensures Undisturbing(s, longer, u) && Released(t, u, w)
    ensures forall e :: e in longer ==> e in tr || IsReleaseStep(e, w)
  {
    ReadAndDelete(t, w);
    longer, u := Extend(s, tr, t, ReleaseRead(w));
    if At(u, w, Unlocking) {
      longer, u := Extend(s, longer, u, ReleaseDelete(w, true));
    }
  }

  // A worker that has read a slice may commit any rewrite of it: the guard of
  // Commit asks for no more than what rewriting guarantees.
  lemma RewriteMayCommit(s: State, w: string, n: nat, placement: Placement)
    requires At(s, w, Working) && s.workers[w].slice.Some? && n > 0
    ensures Enabled(s, Commit(w, s.workers[w].partition, Redistribute(s.workers[w].slice.value, n, placement)))
  {
    RedistributePermutes(s.workers[w].slice.value, n, placement);
  }

  lemma FirstLook(s: State, w: string, p: PartitionKey) returns (tr: seq<Event>, t: State)
    requires At(s, w, Idle)
    ensures Undisturbing(s, tr, t) && forall e :: e in tr ==> IsAcquireStep(e, w)
    ensures Looked(s, t, w, p)
  {
    LookAndClean(s, w, p);
    tr, t := Extend(s, [], s, Begin(w, p));
    tr, t := Extend(s, tr, t, CleanupRead(w));
    if At(t, w, Deleting) {
      tr, t := Extend(s, tr, t, CleanupDelete(w, true));
    }
  }

  // From s, where acquire() is entered, to t, where w is about to read again.
  predicate Looked(s: State, t: State, w: string, p: PartitionKey)
    requires w in s.workers
  {
    var k := s.workers[w];
    var stale := p in s.locks && IsStale(s.locks[p], k.timeout, s.clock);
    && At(t, w, Checking) && t.workers[w].partition == p
    && t.workers[w].reference == s.clock && t.workers[w].timeout == k.timeout
    && t.locks == (if stale then s.locks - {p} else s.locks) && t.table == s.table
  }

  lemma LookAndClean(s: State, w: string, p: PartitionKey)
    requires At(s, w, Idle)
    ensures var t := Next(s, Begin(w, p));
      At(t, w, Cleaning)
      && var u := Next(t, CleanupRead(w));
         if At(u, w, Deleting) then
           Undisturbed(u, CleanupDelete(w, true)) && Looked(s, Next(u, CleanupDelete(w, true)), w, p)
         else Looked(s, u, w, p)
  {
  }

  // From t, where w is about to read again, to u, where acquire() has returned.
  predicate Decided(t: State, u: State, w: string)
    requires w in t.workers
  {
    var k := t.workers[w];
    var granted := MayGrant(Get(t.locks, k.partition), w, k.timeout, k.reference);
    && (if granted then At(u, w, Working) && u.workers[w].partition == k.partition else At(u, w, Idle))
    && u.locks == (if granted then t.locks[k.partition := LockOf(w, k, k.reference)] else t.locks)
    && u.table == t.table
  }

  lemma ReadAndWrite(t: State, w: string)
    requires At(t, w, Checking)
    ensures var u := Next(t, GrantRead(w));
      if At(u, w, Writing) then Undisturbed(u, GrantWrite(w)) && Decided(t, Next(u, GrantWrite(w)), w)
      else Decided(t, u, w)
  {
  }

  lemma SecondLook(s: State, tr: seq<Event>, t: State, w: string) returns (longer: seq<Event>, u: State)
    requires Undisturbing(s, tr, t) && At(t, w, Checking)
    ensures Undisturbing(s, longer, u) && Decided(t, u, w)
    ensures forall e :: e in longer ==> e in tr || IsAcquireStep(e, w)
  {
    ReadAndWrite(t, w);
    longer, u := Extend(s, tr, t, GrantRead(w));
    if At(u, w, Writing) {
      longer, u := Extend(s, longer, u, GrantWrite(w));
    }
  }

  ghost predicate Undisturbing(s: State, tr: seq<Event>, t: State) {
    Reaches(s, tr, t) && AllUndisturbed(s, tr)
  }

  lemma Extend(s: State, tr: seq<Event>, t: State, e: Event) returns (longer: seq<Event>, u: State)
    requires Undisturbing(s, tr, t) && Enabled(t, e) && Undisturbed(t, e)
    ensures longer == tr + [e] && u == Next(t, e) && Undisturbing(s, longer, u)
  {
    longer, u := tr + [e], Next(t, e);
    RunExtends(s, tr, e);
    assert longer[..|longer| - 1] == tr;
  }
}
