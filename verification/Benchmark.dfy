// Labelling benchmark runs "before" or "after" compaction, and choosing the
// pair to compare.

module Benchmark {
  import opened Prelude

  datatype Phase = Before | After
  datatype Requested = Explicit(phase: Phase) | Auto

  datatype BenchmarkRun = BenchmarkRun(phase: Phase, inputFileCount: nat, timestamp: string)

  function WithPhase(history: seq<BenchmarkRun>, phase: Phase): seq<BenchmarkRun> {
    if history == [] then []
    else
      var n := |history| - 1;
      WithPhase(history[..n], phase) + if history[n].phase == phase then [history[n]] else []
  }

  // Python's max(runs, key=...): the first run with the largest key.
  function LargestInput(runs: seq<BenchmarkRun>): (r: BenchmarkRun)
    requires runs != []
    ensures r in runs && forall x :: x in runs ==> x.inputFileCount <= r.inputFileCount
  {
    var n := |runs| - 1;
    if n == 0 then runs[0]
    else
      var best := LargestInput(runs[..n]);
      assert forall x :: x in runs ==> x in runs[..n] || x == runs[n];
      if best.inputFileCount < runs[n].inputFileCount then runs[n] else best
  }

  function Latest(runs: seq<BenchmarkRun>): (r: BenchmarkRun)
    requires runs != []
    ensures r in runs && forall x :: x in runs ==> StrLe(x.timestamp, r.timestamp)
  {
    var n := |runs| - 1;
    if n == 0 then StrLeTotal(runs[0].timestamp, runs[0].timestamp); runs[0]
    else
      var best := Latest(runs[..n]);
      LatestStep(runs, best);
      if StrLe(runs[n].timestamp, best.timestamp) then best else runs[n]
  }

  lemma LatestStep(runs: seq<BenchmarkRun>, best: BenchmarkRun)
    requires |runs| > 1 && forall x :: x in runs[..|runs| - 1] ==> StrLe(x.timestamp, best.timestamp)
    ensures var n := |runs| - 1;
      && (StrLe(runs[n].timestamp, best.timestamp) ==> forall x :: x in runs ==> StrLe(x.timestamp, best.timestamp))
      && (!StrLe(runs[n].timestamp, best.timestamp) ==> forall x :: x in runs ==> StrLe(x.timestamp, runs[n].timestamp))
  {
    var n := |runs| - 1;
    StrLeTotal(runs[n].timestamp, best.timestamp);
    StrLeTotal(runs[n].timestamp, runs[n].timestamp);
    forall x | x in runs
      ensures StrLe(runs[n].timestamp, best.timestamp) ==> StrLe(x.timestamp, best.timestamp)
      ensures !StrLe(runs[n].timestamp, best.timestamp) ==> StrLe(x.timestamp, runs[n].timestamp)
    {
      assert x in runs[..n] || x == runs[n];
      if x in runs[..n] && !StrLe(runs[n].timestamp, best.timestamp) {
        StrLeTransitive(x.timestamp, best.timestamp, runs[n].timestamp);
      }
    }
  }

  function ResolvePhase(inputFileCount: nat, requested: Requested, history: seq<BenchmarkRun>): Phase {
    match requested
    case Explicit(phase) => phase
    case Auto =>
      var before := WithPhase(history, Before);
      if before == [] then Before
      else if inputFileCount < LargestInput(before).inputFileCount then After
      else Before
  }

  datatype Comparison =
    | Nothing
    | Compare(baseline: Option<BenchmarkRun>, after: BenchmarkRun)
    | EmptyMaximum                                       // max() of an empty list: ValueError

  function FindComparisonPair(history: seq<BenchmarkRun>, current: BenchmarkRun): Comparison {
    var before, after := WithPhase(history, Before), WithPhase(history, After);
    if current.phase == After then
      Compare(if before == [] then None else Some(LargestInput(before)), current)
    else if after != [] then
      if before == [] then EmptyMaximum else Compare(Some(LargestInput(before)), Latest(after))
    else Nothing
  }

  class BenchmarkLog {
    var history: seq<BenchmarkRun>

    constructor ()
      ensures history == []
    {
      history := [];
    }

    // Label the run, save it, and only then look for a pair.
    method Record(inputFileCount: nat, timestamp: string, requested: Requested)
      returns (run: BenchmarkRun, comparison: Comparison)
      modifies this
      ensures run == BenchmarkRun(ResolvePhase(inputFileCount, requested, old(history)), inputFileCount, timestamp)
      ensures history == old(history) + [run]
      ensures comparison == FindComparisonPair(history, run)
      ensures !comparison.EmptyMaximum?
    {
      run := BenchmarkRun(ResolvePhase(inputFileCount, requested, history), inputFileCount, timestamp);
      history := history + [run];
      comparison := FindComparisonPair(history, run);
      RecordedRunIsCompared(history, run);
    }
  }

  lemma {:induction false} WithPhaseMembers(history: seq<BenchmarkRun>, phase: Phase, r: BenchmarkRun)
    ensures r in WithPhase(history, phase) <==> r in history && r.phase == phase
  {
    if history != [] {
      var n := |history| - 1;
      WithPhaseMembers(history[..n], phase, r);
      assert r in history <==> r in history[..n] || r == history[n];
    }
  }

  // Comparison fails exactly on a "before" run asked about against a history
  // that has "after" runs and no "before" run; a history holding the run itself
  // is never such a one.
  lemma ComparisonFailsExactly(history: seq<BenchmarkRun>, current: BenchmarkRun)
    ensures FindComparisonPair(history, current).EmptyMaximum?
       <==> && current.phase == Before
            && (exists r :: r in history && r.phase == After)
            && (forall r :: r in history ==> r.phase == After)
  {
    var before, after := WithPhase(history, Before), WithPhase(history, After);
    forall r ensures (r in before <==> r in history && r.phase == Before) && (r in after <==> r in history && r.phase == After) {
      WithPhaseMembers(history, Before, r);
      WithPhaseMembers(history, After, r);
    }
    if after != [] { assert after[0] in after; }
    if before != [] { assert before[0] in before; }
  }

  // An explicit label stands; an automatic one is "after" exactly when some earlier
  // "before" run had more files.
  lemma PhaseTells(count: nat, requested: Requested, history: seq<BenchmarkRun>)
    ensures requested.Explicit? ==> ResolvePhase(count, requested, history) == requested.phase
    ensures requested.Auto? ==>
      (ResolvePhase(count, requested, history) == After <==>
         exists r :: r in history && r.phase == Before && count < r.inputFileCount)
  {
    var before := WithPhase(history, Before);
    forall r ensures r in before <==> r in history && r.phase == Before {
      WithPhaseMembers(history, Before, r);
    }
  }

  // What is compared. An "after" run: itself, with the largest "before" run if
  // there is one. A "before" run: the latest "after" run, if there is one, with the
  // largest "before" run. Otherwise nothing.
  lemma ComparisonTells(history: seq<BenchmarkRun>, current: BenchmarkRun)
    ensures var c := FindComparisonPair(history, current);
      && (c.Nothing? <==> current.phase == Before && forall r :: r in history ==> r.phase == Before)
      && (c.Compare? && c.baseline.Some? ==>
            && c.baseline.value in history && c.baseline.value.phase == Before
            && forall r :: r in history && r.phase == Before ==> r.inputFileCount <= c.baseline.value.inputFileCount)
      && (c.Compare? && c.baseline.None? ==> current.phase == After && forall r :: r in history ==> r.phase == After)
      && (c.Compare? && current.phase == After ==> c.after == current)
      && (c.Compare? && current.phase == Before ==>
            && c.after in history && c.after.phase == After
            && forall r :: r in history && r.phase == After ==> StrLe(r.timestamp, c.after.timestamp))
  {
    var before, after := WithPhase(history, Before), WithPhase(history, After);
    forall r ensures (r in before <==> r in history && r.phase == Before) && (r in after <==> r in history && r.phase == After) {
      WithPhaseMembers(history, Before, r);
      WithPhaseMembers(history, After, r);
    }
    if after != [] { assert after[0] in after; }
    if before != [] { assert before[0] in before; }
  }

  lemma RecordedRunIsCompared(history: seq<BenchmarkRun>, current: BenchmarkRun)
    requires current in history
    ensures !FindComparisonPair(history, current).EmptyMaximum?
  {
    ComparisonFailsExactly(history, current);
  }

  // ---------- Histories labelled automatically ----------

  ghost predicate AutoLabelled(history: seq<BenchmarkRun>) {
    forall i :: 0 <= i < |history| ==>
      history[i].phase == ResolvePhase(history[i].inputFileCount, Auto, history[..i])
  }

  // In such a history the file counts of the "before" runs never decrease.
  lemma AutoBeforeNeverDecreases(history: seq<BenchmarkRun>, i: nat, j: nat)
    requires AutoLabelled(history) && i <= j < |history|
    requires history[i].phase == Before && history[j].phase == Before
    ensures history[i].inputFileCount <= history[j].inputFileCount
  {
    if i < j {
      assert history[..j][i] == history[i];
      WithPhaseMembers(history[..j], Before, history[i]);
    }
  }

  // And every "after" run lies strictly below some earlier "before" run.
  lemma AutoAfterIsBelow(history: seq<BenchmarkRun>, j: nat) returns (k: nat)
    requires AutoLabelled(history) && j < |history| && history[j].phase == After
    ensures k < j && history[k].phase == Before && history[j].inputFileCount < history[k].inputFileCount
  {
    var earlier := history[..j];
    var top := LargestInput(WithPhase(earlier, Before));
    WithPhaseMembers(earlier, Before, top);
    k :| 0 <= k < j && earlier[k] == top;
  }

  // An automatically labelled "after" run is always compared with a baseline,
  // the largest "before" run there is, and that one had more files.
  lemma AutoAfterHasBaseline(history: seq<BenchmarkRun>)
    requires AutoLabelled(history) && history != [] && history[|history| - 1].phase == After
    ensures var current := history[|history| - 1];
      var c := FindComparisonPair(history, current);
      && c.Compare? && c.baseline.Some? && c.after == current
      && c.baseline.value.phase == Before && c.baseline.value in history
      && (forall r :: r in history && r.phase == Before ==> r.inputFileCount <= c.baseline.value.inputFileCount)
      && current.inputFileCount < c.baseline.value.inputFileCount
  {
    var n := |history| - 1;
    var k := AutoAfterIsBelow(history, n);
    var before := WithPhase(history, Before);
    WithPhaseMembers(history, Before, history[k]);
    assert before != [];
    forall r ensures r in before <==> r in history && r.phase == Before {
      WithPhaseMembers(history, Before, r);
    }
  }
}
