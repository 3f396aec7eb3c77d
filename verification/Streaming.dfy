// Routing micro-batches to two tables, with crashes between the writes and
// replay of the unfinished batch.

module Streaming {
  import opened Prelude
  import opened DataQuality

  // A Kafka message is identified by its offset.
  datatype Message = Message(offset: nat, payload: Payload)
  datatype Rejected = Rejected(message: Message, reason: Reason)
  datatype QualityMetrics = QualityMetrics(batchId: nat, valid: nat, bad: nat)

  // The filters rejection_reason IS NULL and IS NOT NULL.
  function ValidOf(ps: Parsers, batch: seq<Message>): seq<Message> {
    if batch == [] then []
    else
      var n := |batch| - 1;
      ValidOf(ps, batch[..n]) + if RejectionReason(ps, batch[n].payload).None? then [batch[n]] else []
  }

  function BadOf(ps: Parsers, batch: seq<Message>): seq<Rejected> {
    if batch == [] then []
    else
      var n := |batch| - 1;
      BadOf(ps, batch[..n]) + match RejectionReason(ps, batch[n].payload)
                              case None => []
                              case Some(reason) => [Rejected(batch[n], reason)]
  }

  // How far a processing attempt gets: before the raw write, between the two
  // writes, between the quarantine write and the metrics, between the metrics
  // and the checkpoint, or to the end.
  datatype Progress = Nowhere | RawWritten | BothWritten | MetricsWritten | Checkpointed
  {
    function Rank(): nat {
      match this
      case Nowhere => 0 case RawWritten => 1 case BothWritten => 2 case MetricsWritten => 3 case Checkpointed => 4
    }
  }

  class Ingestion {
    const ps: Parsers
    var raw: seq<Message>
    var quarantine: seq<Rejected>
    var metrics: seq<QualityMetrics>
    var next: nat                            // the batch the checkpoint asks for

    constructor (ps: Parsers)
      ensures this.ps == ps && Tables() == EMPTY
    {
      this.ps := ps;
      raw, quarantine, metrics, next := [], [], [], 0;
    }

    function Tables(): Sink
      reads this
    {
      Sink(raw, quarantine, metrics, next)
    }

    // process_batch, followed by the engine's checkpoint; `reach` says where the
    // attempt ends.
    method ProcessBatch(batch: seq<Message>, reach: Progress)
      modifies this
      ensures Tables() == AfterAttempt(ps, old(Tables()), batch, reach)
    {
      if batch != [] {
        var valid, bad := ValidOf(ps, batch), BadOf(ps, batch);
        if reach.Nowhere? {
          return;
        }
        if |valid| > 0 {
          raw := raw + valid;
        }
        if reach.RawWritten? {
          return;
        }
        if |bad| > 0 {
          quarantine := quarantine + bad;
        }
        if reach.BothWritten? {
          return;
        }
        metrics := metrics + [QualityMetrics(next, |valid|, |bad|)];
      }
      if reach.Checkpointed? {
        next := next + 1;
      }
    }
  }

  datatype Sink = Sink(raw: seq<Message>, quarantine: seq<Rejected>, metrics: seq<QualityMetrics>, next: nat)

  const EMPTY: Sink := Sink([], [], [], 0)

  function AfterAttempt(ps: Parsers, s: Sink, batch: seq<Message>, reach: Progress): Sink {
    Sink(
      if reach.Rank() >= 1 then s.raw + ValidOf(ps, batch) else s.raw,
      if reach.Rank() >= 2 then s.quarantine + BadOf(ps, batch) else s.quarantine,
      if reach.Rank() >= 3 && batch != []
        then s.metrics + [QualityMetrics(s.next, |ValidOf(ps, batch)|, |BadOf(ps, batch)|)] else s.metrics,
      if reach.Rank() >= 4 then s.next + 1 else s.next)
  }

  // ---------- Runs: attempts until the batches are used up ----------

  function Run(ps: Parsers, batches: seq<seq<Message>>, attempts: seq<Progress>): Sink {
    if attempts == [] then EMPTY
    else
      var n := |attempts| - 1;
      var s := Run(ps, batches, attempts[..n]);
      if s.next < |batches| then AfterAttempt(ps, s, batches[s.next], attempts[n]) else s
  }

  // The attempts at batch b that got at least as far as `rank`.
  function AttemptsAt(ps: Parsers, batches: seq<seq<Message>>, attempts: seq<Progress>, b: nat, rank: nat): nat {
    if attempts == [] then 0
    else
      var n := |attempts| - 1;
      AttemptsAt(ps, batches, attempts[..n], b, rank)
      + if Run(ps, batches, attempts[..n]).next == b < |batches| && attempts[n].Rank() >= rank then 1 else 0
  }

  // No message is in two places of the stream.
  ghost predicate DistinctMessages(batches: seq<seq<Message>>) {
    forall b, i, c, j ::
      (0 <= b < |batches| && 0 <= i < |batches[b]| && 0 <= c < |batches| && 0 <= j < |batches[c]|
       && batches[b][i] == batches[c][j]) ==> (b == c && i == j)
  }

  ghost predicate NoRepeats(batch: seq<Message>) {
    forall i, j :: 0 <= i < j < |batch| ==> batch[i] != batch[j]
  }

  function MessagesOf(rejected: seq<Rejected>): multiset<Message> {
    if rejected == [] then multiset{}
    else MessagesOf(rejected[..|rejected| - 1]) + multiset{rejected[|rejected| - 1].message}
  }

  function RawCount(s: Sink, m: Message): nat {
    multiset(s.raw)[m]
  }

  function QuarantineCount(s: Sink, m: Message): nat {
    MessagesOf(s.quarantine)[m]
  }

  lemma {:induction false} MessagesOfConcat(a: seq<Rejected>, b: seq<Rejected>)
    ensures MessagesOf(a + b) == MessagesOf(a) + MessagesOf(b)
  {
    if b == [] {
      assert a + b == a;
    } else {
      assert (a + b)[..|a + b| - 1] == a + b[..|b| - 1];
      MessagesOfConcat(a, b[..|b| - 1]);
    }
  }

  // Within one batch a message goes to exactly one side, once.
  lemma {:induction false} RoutedOnce(ps: Parsers, batch: seq<Message>, m: Message)
    requires NoRepeats(batch)
    ensures multiset(ValidOf(ps, batch))[m] == if m in batch && RejectionReason(ps, m.payload).None? then 1 else 0
    ensures MessagesOf(BadOf(ps, batch))[m] == if m in batch && RejectionReason(ps, m.payload).Some? then 1 else 0
  {
    if batch != [] {
      var n := |batch| - 1;
      RoutedOnce(ps, batch[..n], m);
      assert m in batch <==> m in batch[..n] || m == batch[n];
      match RejectionReason(ps, batch[n].payload)
      case None => assert BadOf(ps, batch) == BadOf(ps, batch[..n]);
      case Some(reason) => MessagesOfConcat(BadOf(ps, batch[..n]), [Rejected(batch[n], reason)]);
    }
  }

  // The last message of a batch goes to one side.
  lemma LastIsRouted(ps: Parsers, batch: seq<Message>)
    requires batch != []
    ensures var n := |batch| - 1;
      var valid, bad := ValidOf(ps, batch[..n]), MessagesOf(BadOf(ps, batch[..n]));
      if RejectionReason(ps, batch[n].payload).None? then
        ValidOf(ps, batch) == valid + [batch[n]] && BadOf(ps, batch) == BadOf(ps, batch[..n])
      else
        && ValidOf(ps, batch) == valid && |BadOf(ps, batch)| == |BadOf(ps, batch[..n])| + 1
        && MessagesOf(BadOf(ps, batch)) == bad + multiset{batch[n]}
  {
    var n := |batch| - 1;
    match RejectionReason(ps, batch[n].payload)
    case None => assert BadOf(ps, batch) == BadOf(ps, batch[..n]);
    case Some(reason) => MessagesOfConcat(BadOf(ps, batch[..n]), [Rejected(batch[n], reason)]);
  }

  // The null and the non-null filter split every batch completely.
  lemma {:induction false} FiltersSplitBatch(ps: Parsers, batch: seq<Message>)
    ensures |ValidOf(ps, batch)| + |BadOf(ps, batch)| == |batch|
    ensures multiset(ValidOf(ps, batch)) + MessagesOf(BadOf(ps, batch)) == multiset(batch)
  {
    if batch != [] {
      var n := |batch| - 1;
      FiltersSplitBatch(ps, batch[..n]);
      assert batch == batch[..n] + [batch[n]];
      LastIsRouted(ps, batch);
    }
  }

  lemma OneHome(batches: seq<seq<Message>>, b: nat, i: nat, c: nat)
    requires DistinctMessages(batches) && b < |batches| && i < |batches[b]| && c < |batches|
    ensures NoRepeats(batches[c])
    ensures batches[b][i] in batches[c] <==> b == c
  {
    if batches[b][i] in batches[c] {
      var j :| 0 <= j < |batches[c]| && batches[c][j] == batches[b][i];
    }
  }

  lemma AttemptCounts(ps: Parsers, s: Sink, batch: seq<Message>, reach: Progress, m: Message)
    requires NoRepeats(batch)
    ensures var t, valid := AfterAttempt(ps, s, batch, reach), RejectionReason(ps, m.payload).None?;
      && RawCount(t, m) == RawCount(s, m) + (if m in batch && valid && reach.Rank() >= 1 then 1 else 0)
      && QuarantineCount(t, m) == QuarantineCount(s, m) + (if m in batch && !valid && reach.Rank() >= 2 then 1 else 0)
  {
    RoutedOnce(ps, batch, m);
    MessagesOfConcat(s.quarantine, BadOf(ps, batch));
  }

  // Exactly how often a message is in each table: once for every attempt at its
  // batch that passed that table's write, on the side its content decides.
  lemma {:induction false} CountsAreAttempts(
    ps: Parsers, batches: seq<seq<Message>>, attempts: seq<Progress>, b: nat, i: nat)
    requires DistinctMessages(batches) && b < |batches| && i < |batches[b]|
    ensures var m, s := batches[b][i], Run(ps, batches, attempts);
      var valid := RejectionReason(ps, m.payload).None?;
      && RawCount(s, m) == (if valid then AttemptsAt(ps, batches, attempts, b, 1) else 0)
      && QuarantineCount(s, m) == (if valid then 0 else AttemptsAt(ps, batches, attempts, b, 2))
  {
    if attempts != [] {
      var n := |attempts| - 1;
      CountsAreAttempts(ps, batches, attempts[..n], b, i);
      var s := Run(ps, batches, attempts[..n]);
      if s.next < |batches| {
        OneHome(batches, b, i, s.next);
        AttemptCounts(ps, s, batches[s.next], attempts[n], batches[b][i]);
      }
    }
  }

  lemma {:induction false} AttemptsOrdered(
    ps: Parsers, batches: seq<seq<Message>>, attempts: seq<Progress>, b: nat, rank: nat)
    requires rank <= 4
    ensures AttemptsAt(ps, batches, attempts, b, rank) <= AttemptsAt(ps, batches, attempts, b, 0)
    ensures b < |batches| && b < Run(ps, batches, attempts).next ==> AttemptsAt(ps, batches, attempts, b, rank) >= 1
    ensures Run(ps, batches, attempts).next <= |batches|
  {
    if attempts != [] {
      AttemptsOrdered(ps, batches, attempts[..|attempts| - 1], b, rank);
    }
  }

  // In every run with crashes and replays: a message of a completed batch is in
  // the table its content decides, at least once and at most once per attempt at
  // its batch; and no message is ever in the other table.
  lemma DeliveredToOneTable(ps: Parsers, batches: seq<seq<Message>>, attempts: seq<Progress>, b: nat, i: nat)
    requires DistinctMessages(batches) && b < |batches| && i < |batches[b]|
    ensures var m, s, tries := batches[b][i], Run(ps, batches, attempts), AttemptsAt(ps, batches, attempts, b, 0);
      && (if RejectionReason(ps, m.payload).None? then QuarantineCount(s, m) == 0 && RawCount(s, m) <= tries
          else RawCount(s, m) == 0 && QuarantineCount(s, m) <= tries)
      && (b < s.next ==> RawCount(s, m) + QuarantineCount(s, m) >= 1)
  {
    CountsAreAttempts(ps, batches, attempts, b, i);
    AttemptsOrdered(ps, batches, attempts, b, 1);
    AttemptsOrdered(ps, batches, attempts, b, 2);
  }

  // For each message of a batch, whether the column gives it no reason.
  function Verdicts(ps: Parsers, batch: seq<Message>): seq<bool> {
    seq(|batch|, i requires 0 <= i < |batch| => RejectionReason(ps, batch[i].payload).None?)
  }

  function Trues(flags: seq<bool>): set<int> {
    set i | 0 <= i < |flags| && flags[i]
  }

  lemma TruesExtend(flags: seq<bool>)
    requires flags != []
    ensures |Trues(flags)| == |Trues(flags[..|flags| - 1])| + if flags[|flags| - 1] then 1 else 0
  {
    var n := |flags| - 1;
    assert Trues(flags) == Trues(flags[..n]) + if flags[n] then {n} else {};
  }

  lemma {:induction false} ValidCount(ps: Parsers, batch: seq<Message>)
    ensures |ValidOf(ps, batch)| == |Trues(Verdicts(ps, batch))|
  {
    if batch != [] {
      var n := |batch| - 1;
      ValidCount(ps, batch[..n]);
      assert Verdicts(ps, batch)[..n] == Verdicts(ps, batch[..n]);
      TruesExtend(Verdicts(ps, batch));
    }
  }

  // Whatever is quarantined carries the reason that the column gives it.
  lemma {:induction false} ReasonsRecorded(ps: Parsers, batches: seq<seq<Message>>, attempts: seq<Progress>, r: Rejected)
    requires r in Run(ps, batches, attempts).quarantine
    ensures RejectionReason(ps, r.message.payload) == Some(r.reason)
  {
    var n := |attempts| - 1;
    var s := Run(ps, batches, attempts[..n]);
    if r in s.quarantine {
      ReasonsRecorded(ps, batches, attempts[..n], r);
    } else {
      BadHasReason(ps, batches[s.next], r);
    }
  }

  lemma {:induction false} BadHasReason(ps: Parsers, batch: seq<Message>, r: Rejected)
    requires r in BadOf(ps, batch)
    ensures r.message in batch && RejectionReason(ps, r.message.payload) == Some(r.reason)
  {
    var n := |batch| - 1;
    if r in BadOf(ps, batch[..n]) {
      BadHasReason(ps, batch[..n], r);
    }
  }

  // The number of metrics lines for batch b.
  function LinesFor(metrics: seq<QualityMetrics>, b: nat): nat {
    if metrics == [] then 0
    else LinesFor(metrics[..|metrics| - 1], b) + if metrics[|metrics| - 1].batchId == b then 1 else 0
  }

  // A batch with any messages gets one line for every attempt that wrote both
  // tables; an empty one gets none.
  lemma {:induction false} LinesAreAttempts(ps: Parsers, batches: seq<seq<Message>>, attempts: seq<Progress>, b: nat)
    requires b < |batches|
    ensures LinesFor(Run(ps, batches, attempts).metrics, b)
         == if batches[b] == [] then 0 else AttemptsAt(ps, batches, attempts, b, 3)
  {
    if attempts != [] {
      var n := |attempts| - 1;
      var s := Run(ps, batches, attempts[..n]);
      LinesAreAttempts(ps, batches, attempts[..n], b);
      if s.next < |batches| {
        AttemptLines(ps, s, batches[s.next], attempts[n], b);
      }
    }
  }

  lemma AttemptLines(ps: Parsers, s: Sink, batch: seq<Message>, reach: Progress, b: nat)
    ensures LinesFor(AfterAttempt(ps, s, batch, reach).metrics, b)
         == LinesFor(s.metrics, b) + if reach.Rank() >= 3 && batch != [] && s.next == b then 1 else 0
  {
    LinesSnoc(s.metrics, QualityMetrics(s.next, |ValidOf(ps, batch)|, |BadOf(ps, batch)|), b);
  }

  lemma LinesSnoc(metrics: seq<QualityMetrics>, q: QualityMetrics, b: nat)
    ensures LinesFor(metrics + [q], b) == LinesFor(metrics, b) + if q.batchId == b then 1 else 0
  {
    assert (metrics + [q])[..|metrics|] == metrics;
  }

  // Every metrics line counts its whole batch: the valid messages are those
  // without a reason, and the bad ones the rest.
  lemma {:induction false} MetricsCountBatches(ps: Parsers, batches: seq<seq<Message>>, attempts: seq<Progress>, k: nat)
    requires k < |Run(ps, batches, attempts).metrics|
    ensures var q := Run(ps, batches, attempts).metrics[k];
      && q.batchId < |batches| && q.valid + q.bad == |batches[q.batchId]|
      && q.valid == |Trues(Verdicts(ps, batches[q.batchId]))|
  {
    var n := |attempts| - 1;
    var s := Run(ps, batches, attempts[..n]);
    if k < |s.metrics| {
      MetricsCountBatches(ps, batches, attempts[..n], k);
    } else {
      FiltersSplitBatch(ps, batches[s.next]);
      ValidCount(ps, batches[s.next]);
    }
  }
}
