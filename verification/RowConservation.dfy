// What interleaved compaction does to the rows: locks only coordinate, and the
// table is right whether or not they exclude anyone. No lemma here assumes
// anything about the locks; several workers may hold the same partition, and
// any of them may crash at any point.
//
// The commit rule is the last-commit-wins slice replacement of Next.

module RowConservation {
  import opened PartitionKeys
  import opened Rewrite
  import opened DeltaCompactor
  import opened Interleaving
  import opened Locks

  function Rows(s: State, p: PartitionKey): multiset<Row> {
    multiset(LiveRows(s.table, p))
  }

  function AppendedBy(e: Event, p: PartitionKey): multiset<Row> {
    if e.Append? && e.p == p then multiset(RowsOf(e.files)) else multiset{}
  }

  // The rows that the streaming job appended to p.
  function AppendedRows(tr: seq<Event>, p: PartitionKey): multiset<Row> {
    if tr == [] then multiset{}
    else
      var e := tr[|tr| - 1];
      AppendedRows(tr[..|tr| - 1], p) + AppendedBy(e, p)
  }

  // The position of w's last read of a slice, or -1.
  function LastRead(tr: seq<Event>, w: string): (r: int)
    ensures -1 <= r < |tr|
    ensures 0 <= r ==> tr[r].ReadSlice? && tr[r].w == w
  {
    if tr == [] then -1
    else if tr[|tr| - 1].ReadSlice? && tr[|tr| - 1].w == w then |tr| - 1
    else LastRead(tr[..|tr| - 1], w)
  }

  // The appended rows that outlive the run, told from its events alone: a
  // commit takes the partition back to what its worker last read.
  function Survivors(tr: seq<Event>, p: PartitionKey): multiset<Row> {
    if tr == [] then multiset{}
    else
      var front, e := tr[..|tr| - 1], tr[|tr| - 1];
      if e.Append? && e.p == p then Survivors(front, p) + multiset(RowsOf(e.files))
      else if e.Commit? && e.p == p then
        var r := LastRead(front, e.w);
        if r < 0 then multiset{} else Survivors(tr[..r], p)
      else Survivors(front, p)
  }

  lemma {:induction false} PrefixIsRun(s: State, tr: seq<Event>, n: nat)
    requires IsRun(s, tr) && n <= |tr|
    ensures IsRun(s, tr[..n])
  {
    if n < |tr| {
      PrefixIsRun(s, tr[..|tr| - 1], n);
      assert tr[..|tr| - 1][..n] == tr[..n];
    } else {
      assert tr[..n] == tr;
    }
  }

  lemma BagAssociates(a: multiset<Row>, b: multiset<Row>, c: multiset<Row>)
    ensures (a + b) + c == a + (b + c)
  {
  }

  lemma BagWithNothing(a: multiset<Row>, b: multiset<Row>)
    requires b == multiset{}
    ensures a + b == a
  {
  }

  // A worker's uncommitted slice is what the partition held at its last read.
  predicate SliceFromLastRead(s: State, tr: seq<Event>, w: string) {
    var t := Run(s, tr);
    w in t.workers && t.workers[w].slice.Some? ==>
      var r := LastRead(tr, w);
      && r >= 0 && tr[r].p == t.workers[w].partition
      && multiset(t.workers[w].slice.value) == Rows(Run(s, tr[..r]), t.workers[w].partition)
  }

  lemma {:induction false} SlicesFromLastReads(s: State, tr: seq<Event>, w: string)
    requires Initial(s) && IsRun(s, tr)
    ensures SliceFromLastRead(s, tr, w)
  {
    if tr != [] {
      var front, e := tr[..|tr| - 1], tr[|tr| - 1];
      SlicesFromLastReads(s, front, w);
      var r := LastRead(tr, w);
      if r < |front| && r >= 0 {
        assert tr[..r] == front[..r];
      }
      match e
      case Tick(_) =>
      case Append(_, _) =>
      case _ =>
        if e.w == w {
        } else {
        }
    }
  }

  lemma RowsOfConcat(a: seq<DataFile>, b: seq<DataFile>)
    ensures RowsOf(a + b) == RowsOf(a) + RowsOf(b)
  {
    if b == [] {
      assert a + b == a;
    } else {
      assert (a + b)[..|a + b| - 1] == a + b[..|b| - 1];
      RowsOfConcat(a, b[..|b| - 1]);
    }
  }

  lemma OnlyWritesMoveTheTable(t: State, e: Event)
    requires Enabled(t, e)
    ensures !e.Append? && !e.Commit? ==> Next(t, e).table == t.table
  {
  }

  lemma EventRows(t: State, e: Event, p: PartitionKey)
    requires Enabled(t, e)
    ensures Rows(Next(t, e), p)
         == if e.Append? && e.p == p then Rows(t, p) + multiset(RowsOf(e.files))
            else if e.Commit? && e.p == p then multiset(t.workers[e.w].slice.value)
            else Rows(t, p)
  {
    OnlyWritesMoveTheTable(t, e);
    if e.Append? && e.p == p {
      RowsOfConcat(Slice(t.table, p), e.files);
    }
  }

  // A run that ends in a commit: the partition is as it was at the read.
  lemma CommitReadsBack(s: State, tr: seq<Event>, p: PartitionKey) returns (r: nat)
    requires Initial(s) && IsRun(s, tr) && tr != [] && tr[|tr| - 1].Commit? && tr[|tr| - 1].p == p
    ensures r < |tr| && r == LastRead(tr[..|tr| - 1], tr[|tr| - 1].w)
    ensures IsRun(s, tr[..r]) && Rows(Run(s, tr), p) == Rows(Run(s, tr[..r]), p)
    ensures Survivors(tr, p) == Survivors(tr[..r], p)
  {
    var front, e := tr[..|tr| - 1], tr[|tr| - 1];
    SlicesFromLastReads(s, front, e.w);
    r := LastRead(front, e.w);
    EventRows(Run(s, front), e, p);
    assert front[..r] == tr[..r];
    PrefixIsRun(s, tr, r);
  }

  // Exactly which rows a partition holds after any run: its initial rows and
  // the survivors.
  lemma {:induction false} RowsAreExact(s: State, tr: seq<Event>, p: PartitionKey)
    requires Initial(s) && IsRun(s, tr)
    ensures Rows(Run(s, tr), p) == Rows(s, p) + Survivors(tr, p)
  {
    if tr != [] {
      var front, e := tr[..|tr| - 1], tr[|tr| - 1];
      if e.Commit? && e.p == p {
        var r := CommitReadsBack(s, tr, p);
        RowsAreExact(s, tr[..r], p);
      } else {
        RowsAreExact(s, front, p);
        EventRows(Run(s, front), e, p);
        BagAssociates(Rows(s, p), Survivors(front, p), AppendedBy(e, p));
      }
    }
  }

  // ---------- Nothing is lost outside the window ----------

  // No append to p falls between a committing worker's last read and its commit.
  ghost predicate QuietWindows(tr: seq<Event>, p: PartitionKey) {
    forall k, j :: 0 <= k < |tr| && tr[k].Commit? && tr[k].p == p && LastRead(tr[..k], tr[k].w) < j < k ==>
      !(tr[j].Append? && tr[j].p == p)
  }

  lemma QuietPrefix(tr: seq<Event>, p: PartitionKey, n: nat)
    requires QuietWindows(tr, p) && n <= |tr|
    ensures QuietWindows(tr[..n], p)
  {
    forall k | 0 <= k < n ensures tr[..n][..k] == tr[..k] {}
  }

  lemma AppendedSnoc(tr: seq<Event>, e: Event, p: PartitionKey)
    ensures AppendedRows(tr + [e], p) == AppendedRows(tr, p) + AppendedBy(e, p)
  {
    assert (tr + [e])[..|tr|] == tr;
  }

  lemma {:induction false} AppendedInParts(a: seq<Event>, b: seq<Event>, p: PartitionKey)
    ensures AppendedRows(a + b, p) == AppendedRows(a, p) + AppendedRows(b, p)
  {
    if b == [] {
      assert a + b == a;
    } else {
      var front, e := b[..|b| - 1], b[|b| - 1];
      assert b == front + [e];
      assert a + b == (a + front) + [e];
      AppendedInParts(a, front, p);
      AppendedSnoc(a + front, e, p);
      AppendedSnoc(front, e, p);
      BagAssociates(AppendedRows(a, p), AppendedRows(front, p), AppendedBy(e, p));
    }
  }

  lemma {:induction false} NoAppendsNoRows(tr: seq<Event>, p: PartitionKey)
    requires forall j :: 0 <= j < |tr| ==> !(tr[j].Append? && tr[j].p == p)
    ensures AppendedRows(tr, p) == multiset{}
  {
    if tr != [] {
      NoAppendsNoRows(tr[..|tr| - 1], p);
    }
  }

  lemma WindowIsQuiet(tr: seq<Event>, p: PartitionKey, n: nat, from: nat)
    requires QuietWindows(tr, p) && n < |tr| && tr[n].Commit? && tr[n].p == p
    requires from <= n && (from == LastRead(tr[..n], tr[n].w) || (from == 0 && LastRead(tr[..n], tr[n].w) < 0))
    ensures forall j :: 0 <= j < |tr[from..n]| ==> !(tr[from..n][j].Append? && tr[from..n][j].p == p)
  {
    var window := tr[from..n];
    forall j | 0 <= j < |window| ensures !(window[j].Append? && window[j].p == p) {
      assert window[j] == tr[from + j];
      assert LastRead(tr[..n], tr[n].w) == from ==> tr[from].ReadSlice?;
    }
  }

  lemma QuietCommit(tr: seq<Event>, p: PartitionKey, n: nat, from: nat)
    requires n <= |tr| && from <= n
    requires forall j :: 0 <= j < |tr[from..n]| ==> !(tr[from..n][j].Append? && tr[from..n][j].p == p)
    ensures AppendedRows(tr[..n], p) == AppendedRows(tr[..from], p)
  {
    assert tr[..n] == tr[..from] + tr[from..n];
    AppendedInParts(tr[..from], tr[from..n], p);
    NoAppendsNoRows(tr[from..n], p);
    BagWithNothing(AppendedRows(tr[..from], p), AppendedRows(tr[from..n], p));
  }

  lemma {:induction false} QuietSurvivors(tr: seq<Event>, p: PartitionKey)
    requires QuietWindows(tr, p)
    ensures Survivors(tr, p) == AppendedRows(tr, p)
  {
    if tr != [] {
      var n := |tr| - 1;
      var front, e := tr[..n], tr[n];
      if e.Commit? && e.p == p {
        var r := LastRead(front, e.w);
        CommitIsQuiet(tr, p);
        if r >= 0 {
          QuietPrefix(tr, p, r);
          QuietSurvivors(tr[..r], p);
        }
      } else {
        QuietPrefix(tr, p, n);
        QuietSurvivors(front, p);
      }
    }
  }

  lemma CommitIsQuiet(tr: seq<Event>, p: PartitionKey)
    requires QuietWindows(tr, p) && tr != [] && tr[|tr| - 1].Commit? && tr[|tr| - 1].p == p
    ensures var n := |tr| - 1;
      var r := LastRead(tr[..n], tr[n].w);
      AppendedRows(tr, p) == if r < 0 then multiset{} else AppendedRows(tr[..r], p)
  {
    var n := |tr| - 1;
    var r := LastRead(tr[..n], tr[n].w);
    var from := if r < 0 then 0 else r;
    WindowIsQuiet(tr, p, n, from);
    QuietCommit(tr, p, n, from);
    BagWithNothing(AppendedRows(tr[..n], p), AppendedBy(tr[n], p));
  }

  // In every interleaving, if no append to the partition falls into a committing
  // worker's window, the partition holds its initial rows and all appended ones.
  lemma CompactionConservesRows(s: State, tr: seq<Event>, p: PartitionKey)
    requires Initial(s) && IsRun(s, tr) && QuietWindows(tr, p)
    ensures Rows(Run(s, tr), p) == Rows(s, p) + AppendedRows(tr, p)
  {
    RowsAreExact(s, tr, p);
    QuietSurvivors(tr, p);
  }

  // ---------- Exactly which runs lose nothing ----------

  // The partition holds its initial rows and all appended ones.
  predicate Conserved(s: State, tr: seq<Event>, p: PartitionKey) {
    Rows(Run(s, tr), p) == Rows(s, p) + AppendedRows(tr, p)
  }

  // The rows appended between a worker's last read and the end of the run.
  function WindowRows(tr: seq<Event>, w: string, p: PartitionKey): multiset<Row> {
    var r := LastRead(tr, w);
    AppendedRows(tr[if r < 0 then 0 else r..], p)
  }

  // A commit loses exactly the rows appended since its worker's read, provided
  // nothing was missing at that read; so it leaves nothing missing if and only if
  // none were appended.
  lemma CommitLosesItsWindow(s: State, tr: seq<Event>, p: PartitionKey)
    requires Initial(s) && IsRun(s, tr) && tr != []
    requires tr[|tr| - 1].Commit? && tr[|tr| - 1].p == p
    requires var r := LastRead(tr[..|tr| - 1], tr[|tr| - 1].w); r >= 0 ==> Conserved(s, tr[..r], p)
    ensures LastRead(tr[..|tr| - 1], tr[|tr| - 1].w) >= 0
    ensures var window := WindowRows(tr[..|tr| - 1], tr[|tr| - 1].w, p);
      && Rows(Run(s, tr), p) + window == Rows(s, p) + AppendedRows(tr, p)
      && (Conserved(s, tr, p) <==> window == multiset{})
  {
    var front, e := tr[..|tr| - 1], tr[|tr| - 1];
    assert tr == front + [e];
    var r := CommitReadsBack(s, tr, p);
    assert front[..r] == tr[..r];
    AppendedSnoc(front, e, p);
    TakeDrop(front, r);
    AppendedSplit(front, front[..r], front[r..], p);
    WindowBags(Rows(s, p), AppendedRows(front[..r], p), AppendedRows(front[r..], p), AppendedRows(front, p),
               Rows(Run(s, tr), p), AppendedRows(tr, p));
  }

  // At no moment is a row of p missing or doubled.
  ghost predicate ConservedThroughout(s: State, tr: seq<Event>, p: PartitionKey) {
    Conserved(s, tr, p) && (tr == [] || ConservedThroughout(s, tr[..|tr| - 1], p))
  }

  predicate LosesNothing(tr: seq<Event>, e: Event, p: PartitionKey) {
    e.Commit? && e.p == p ==> WindowRows(tr, e.w, p) == multiset{}
  }

  // Told from the events alone: every commit on p finds that no rows were
  // appended since its worker's last read.
  predicate NothingLost(tr: seq<Event>, p: PartitionKey) {
    tr == [] || (NothingLost(tr[..|tr| - 1], p) && LosesNothing(tr[..|tr| - 1], tr[|tr| - 1], p))
  }

  lemma {:induction false} ConservedPrefix(s: State, tr: seq<Event>, p: PartitionKey, n: nat)
    requires ConservedThroughout(s, tr, p) && n <= |tr|
    ensures Conserved(s, tr[..n], p)
  {
    ConservedBefore(s, tr, p);
    if n < |tr| {
      ConservedPrefix(s, tr[..|tr| - 1], p, n);
      SamePrefix(tr, n);
    } else {
      SamePrefix(tr, n);
    }
  }

  lemma SamePrefix(tr: seq<Event>, n: nat)
    requires n <= |tr|
    ensures if n < |tr| then tr[..|tr| - 1][..n] == tr[..n] else tr[..n] == tr
  {
  }

  lemma ConservedBefore(s: State, tr: seq<Event>, p: PartitionKey)
    requires ConservedThroughout(s, tr, p)
    ensures Conserved(s, tr, p) && (tr != [] ==> ConservedThroughout(s, tr[..|tr| - 1], p))
  {
  }

  // One more event, after a run in which nothing was ever missing.
  lemma StepConservesIff(s: State, tr: seq<Event>, p: PartitionKey)
    requires Initial(s) && IsRun(s, tr) && tr != [] && ConservedThroughout(s, tr[..|tr| - 1], p)
    ensures Conserved(s, tr, p) <==> LosesNothing(tr[..|tr| - 1], tr[|tr| - 1], p)
  {
    var front, e := tr[..|tr| - 1], tr[|tr| - 1];
    if e.Commit? && e.p == p {
      CommitConservesIff(s, tr, p);
    } else {
      ConservedPrefix(s, front, p, |front|);
      assert front[..|front|] == front;
      OtherEventConserves(s, tr, p);
    }
  }

  lemma CommitConservesIff(s: State, tr: seq<Event>, p: PartitionKey)
    requires Initial(s) && IsRun(s, tr) && tr != [] && ConservedThroughout(s, tr[..|tr| - 1], p)
    requires tr[|tr| - 1].Commit? && tr[|tr| - 1].p == p
    ensures Conserved(s, tr, p) <==> WindowRows(tr[..|tr| - 1], tr[|tr| - 1].w, p) == multiset{}
  {
    var front := tr[..|tr| - 1];
    var r := LastRead(front, tr[|tr| - 1].w);
    if r >= 0 {
      ConservedPrefix(s, front, p, r);
      assert front[..r] == tr[..r];
    }
    CommitLosesItsWindow(s, tr, p);
  }

  lemma OtherEventConserves(s: State, tr: seq<Event>, p: PartitionKey)
    requires IsRun(s, tr) && tr != [] && Conserved(s, tr[..|tr| - 1], p)
    requires !(tr[|tr| - 1].Commit? && tr[|tr| - 1].p == p)
    ensures Conserved(s, tr, p)
  {
    var front, e := tr[..|tr| - 1], tr[|tr| - 1];
    EventRows(Run(s, front), e, p);
    BagAssociates(Rows(s, p), AppendedRows(front, p), AppendedBy(e, p));
  }

  // In every interleaving, whatever the locks did: the partition holds its
  // initial rows and all appended ones throughout, if and only if every commit
  // finds that none were appended since its worker's read.
  lemma {:induction false} ConservesExactly(s: State, tr: seq<Event>, p: PartitionKey)
    requires Initial(s) && IsRun(s, tr)
    ensures ConservedThroughout(s, tr, p) <==> NothingLost(tr, p)
  {
    if tr == [] {
      BagWithNothing(Rows(s, p), AppendedRows(tr, p));
    } else {
      ConservesExactly(s, tr[..|tr| - 1], p);
      if ConservedThroughout(s, tr[..|tr| - 1], p) {
        StepConservesIff(s, tr, p);
      }
    }
  }

  lemma AppendedSplit(tr: seq<Event>, a: seq<Event>, b: seq<Event>, p: PartitionKey)
    requires tr == a + b
    ensures AppendedRows(tr, p) == AppendedRows(a, p) + AppendedRows(b, p)
  {
    AppendedInParts(a, b, p);
  }

  lemma TakeDrop(tr: seq<Event>, r: nat)
    requires r <= |tr|
    ensures tr == tr[..r] + tr[r..]
  {
  }

  lemma WindowBags(
    initial: multiset<Row>, before: multiset<Row>, window: multiset<Row>, appended: multiset<Row>,
    live: multiset<Row>, all: multiset<Row>)
    requires live == initial + before && appended == before + window && all == appended + multiset{}
    ensures live + window == initial + all
    ensures live == initial + all <==> window == multiset{}
  {
    BagWithNothing(appended, multiset{});
    BagAssociates(initial, before, window);
    BagCancels(live, window, initial + all);
  }

  lemma BagCancels(a: multiset<Row>, b: multiset<Row>, c: multiset<Row>)
    requires a + b == c
    ensures a == c <==> b == multiset{}
  {
    if b != multiset{} {
      assert |a + b| == |a| + |b|;
    }
  }

  // The premise is needed: whoever can take the lock can read the slice, see
  // rows appended, and commit a rewrite without them, into any number of files.
  lemma AppendInWindowIsLost(s: State, w: string, p: PartitionKey, f: DataFile, n: nat, placement: Placement)
    returns (tr: seq<Event>)
    requires Initial(s) && w in s.workers && f.rows != [] && n > 0
    requires MayGrant(Get(s.locks, p), w, s.workers[w].timeout, s.clock)
    ensures IsRun(s, tr) && AllUndisturbed(s, tr)
    ensures Slice(Run(s, tr).table, p) == Redistribute(LiveRows(s.table, p), n, placement)
    ensures Rows(Run(s, tr), p) == Rows(s, p)
    ensures Rows(Run(s, tr), p) != Rows(s, p) + AppendedRows(tr, p)
  {
    var acquire := AcquireInOneGo(s, w, p);
    var u;
    tr, u := ReadAppendCommit(s, acquire, Run(s, acquire), w, p, f, n, placement);
    RedistributePermutes(LiveRows(s.table, p), n, placement);
    AcquireAppendsNothing(acquire, w, p);
    MissingBag(Rows(s, p), AppendedRows(acquire, p), f.rows);
  }

  lemma AcquireAppendsNothing(tr: seq<Event>, w: string, p: PartitionKey)
    requires forall e :: e in tr ==> IsAcquireStep(e, w)
    ensures AppendedRows(tr, p) == multiset{}
  {
    assert forall j :: 0 <= j < |tr| ==> tr[j] in tr;
    NoAppendsNoRows(tr, p);
  }

  lemma MissingBag(a: multiset<Row>, nothing: multiset<Row>, rows: seq<Row>)
    requires nothing == multiset{} && rows != []
    ensures a != a + (nothing + multiset(rows))
  {
    var b := nothing + multiset(rows);
    assert rows[0] in b;
    BagCancels(a, b, a + b);
  }

  lemma ReadAppendCommit(
    s: State, acquire: seq<Event>, t: State, w: string, p: PartitionKey, f: DataFile, n: nat, placement: Placement)
    returns (tr: seq<Event>, u: State)
    requires Undisturbing(s, acquire, t) && n > 0
    requires At(t, w, Working) && t.workers[w].partition == p
    ensures Undisturbing(s, tr, u)
    ensures Slice(u.table, p) == Redistribute(LiveRows(t.table, p), n, placement)
    ensures AppendedRows(tr, p) == AppendedRows(acquire, p) + multiset(f.rows)
  {
    var a, b := ReadSlice(w, p), Append(p, [f]);
    var c := Commit(w, p, Redistribute(LiveRows(t.table, p), n, placement));
    tr, u := Extend(s, acquire, t, a);
    tr, u := Extend(s, tr, u, b);
    RewriteMayCommit(u, w, n, placement);
    tr, u := Extend(s, tr, u, c);
    LastThree(acquire, a, b, c, f, p);
  }

  lemma LastThree(tr: seq<Event>, a: Event, b: Event, c: Event, f: DataFile, p: PartitionKey)
    requires a.ReadSlice? && b == Append(p, [f]) && c.Commit?
    ensures AppendedRows(tr + [a] + [b] + [c], p) == AppendedRows(tr, p) + multiset(f.rows)
  {
    AppendedSnoc(tr, a, p);
    AppendedSnoc(tr + [a], b, p);
    AppendedSnoc(tr + [a] + [b], c, p);
    assert [f][..0] == [] && RowsOf([f]) == [] + f.rows == f.rows;
    BagWithNothing(AppendedRows(tr, p), AppendedBy(a, p));
    BagWithNothing(AppendedRows(tr, p) + multiset(f.rows), AppendedBy(c, p));
  }
}
