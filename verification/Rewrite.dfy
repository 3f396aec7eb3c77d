// What one rewrite does to the rows of a partition: repartition(n) followed by
// sortWithinPartitions(user_id, account_id, event_timestamp).

module Rewrite {
  import opened Prelude

  datatype Row = Row(userId: string, accountId: string, eventTimestamp: int, payload: string)

  datatype DataFile = DataFile(rows: seq<Row>)

  function RowsOf(files: seq<DataFile>): seq<Row> {
    if files == [] then [] else RowsOf(files[..|files| - 1]) + files[|files| - 1].rows
  }

  // ---------- Sorting ----------

  predicate RowLe(a: Row, b: Row) {
    if a.userId != b.userId then StrLe(a.userId, b.userId)
    else if a.accountId != b.accountId then StrLe(a.accountId, b.accountId)
    else a.eventTimestamp <= b.eventTimestamp
  }

  lemma RowLeTotal(a: Row, b: Row)
    ensures RowLe(a, b) || RowLe(b, a)
  {
    StrLeTotal(a.userId, b.userId);
    StrLeTotal(a.accountId, b.accountId);
  }

  lemma RowLeTransitive(a: Row, b: Row, c: Row)
    requires RowLe(a, b) && RowLe(b, c)
    ensures RowLe(a, c)
  {
    if a.userId != b.userId && b.userId != c.userId {
      StrLeTransitive(a.userId, b.userId, c.userId);
      if a.userId == c.userId { StrLeAntisymmetric(a.userId, b.userId); }
    } else if a.userId == b.userId == c.userId && a.accountId != b.accountId && b.accountId != c.accountId {
      StrLeTransitive(a.accountId, b.accountId, c.accountId);
      if a.accountId == c.accountId { StrLeAntisymmetric(a.accountId, b.accountId); }
    }
  }

  predicate SortedRows(rows: seq<Row>) {
    forall i, j :: 0 <= i < j < |rows| ==> RowLe(rows[i], rows[j])
  }

  // By user, within a user by account, and within an account by time.
  lemma SortedByColumns(rows: seq<Row>, i: nat, j: nat)
    requires SortedRows(rows) && i < j < |rows|
    ensures StrLe(rows[i].userId, rows[j].userId)
    ensures rows[i].userId == rows[j].userId ==>
      && StrLe(rows[i].accountId, rows[j].accountId)
      && (rows[i].accountId == rows[j].accountId ==> rows[i].eventTimestamp <= rows[j].eventTimestamp)
  {
    StrLeTotal(rows[i].userId, rows[i].userId);
    StrLeTotal(rows[i].accountId, rows[i].accountId);
  }

  function InsertRow(r: Row, rows: seq<Row>): seq<Row> {
    if rows == [] || RowLe(r, rows[0]) then [r] + rows else [rows[0]] + InsertRow(r, rows[1..])
  }

  function SortRows(rows: seq<Row>): seq<Row> {
    if rows == [] then [] else InsertRow(rows[|rows| - 1], SortRows(rows[..|rows| - 1]))
  }

  lemma {:induction false} InsertRowSorts(r: Row, rows: seq<Row>)
    requires SortedRows(rows)
    ensures SortedRows(InsertRow(r, rows))
    ensures multiset(InsertRow(r, rows)) == multiset(rows) + multiset{r}
  {
    if rows == [] {
    } else if RowLe(r, rows[0]) {
      forall i | 0 <= i < |rows| ensures RowLe(r, rows[i]) {
        if i > 0 { RowLeTransitive(r, rows[0], rows[i]); }
      }
    } else {
      RowLeTotal(r, rows[0]);
      InsertRowSorts(r, rows[1..]);
      var rest := InsertRow(r, rows[1..]);
      assert rows == [rows[0]] + rows[1..];
      forall i | 0 <= i < |rest| ensures RowLe(rows[0], rest[i]) {
        assert rest[i] in multiset(rest);
        if rest[i] != r { assert rest[i] in rows[1..]; }
      }
    }
  }

  lemma {:induction false} SortRowsSorts(rows: seq<Row>)
    ensures SortedRows(SortRows(rows))
    ensures multiset(SortRows(rows)) == multiset(rows)
  {
    if rows != [] {
      var n := |rows| - 1;
      SortRowsSorts(rows[..n]);
      InsertRowSorts(rows[n], SortRows(rows[..n]));
      assert rows == rows[..n] + [rows[n]];
    }
  }

  // ---------- Distributing ----------

  // How the engine spreads rows over buckets is its own business: row i goes to
  // bucket placement(i) mod n, for a placement nothing is assumed about.
  type Placement = nat -> nat

  function Bucket(rows: seq<Row>, n: nat, placement: Placement, b: nat): seq<Row>
    requires n > 0
  {
    if rows == [] then []
    else
      var i := |rows| - 1;
      Bucket(rows[..i], n, placement, b) + if placement(i) % n == b then [rows[i]] else []
  }

  // One sorted file per bucket below k that holds any row.
  function BucketFiles(rows: seq<Row>, n: nat, placement: Placement, k: nat): seq<DataFile>
    requires n > 0
  {
    if k == 0 then []
    else
      var bucket := Bucket(rows, n, placement, k - 1);
      BucketFiles(rows, n, placement, k - 1) + if bucket == [] then [] else [DataFile(SortRows(bucket))]
  }

  function Redistribute(rows: seq<Row>, n: nat, placement: Placement): seq<DataFile>
    requires n > 0
  {
    BucketFiles(rows, n, placement, n)
  }

  // The bag of rows that go to a bucket below k.
  function Below(rows: seq<Row>, n: nat, placement: Placement, k: nat): multiset<Row>
    requires n > 0
  {
    if rows == [] then multiset{}
    else
      var i := |rows| - 1;
      Below(rows[..i], n, placement, k) + if placement(i) % n < k then multiset{rows[i]} else multiset{}
  }

  lemma {:induction false} BelowGrows(rows: seq<Row>, n: nat, placement: Placement, k: nat)
    requires n > 0 && k > 0
    ensures Below(rows, n, placement, k)
         == Below(rows, n, placement, k - 1) + multiset(Bucket(rows, n, placement, k - 1))
  {
    if rows != [] {
      BelowGrows(rows[..|rows| - 1], n, placement, k);
    }
  }

  lemma {:induction false} BelowEnds(rows: seq<Row>, n: nat, placement: Placement)
    requires n > 0
    ensures Below(rows, n, placement, 0) == multiset{}
    ensures Below(rows, n, placement, n) == multiset(rows)
  {
    if rows != [] {
      var i := |rows| - 1;
      BelowEnds(rows[..i], n, placement);
      assert rows == rows[..i] + [rows[i]];
    }
  }

  lemma RowsOfAppend(files: seq<DataFile>, f: DataFile)
    ensures RowsOf(files + [f]) == RowsOf(files) + f.rows
  {
    assert (files + [f])[..|files|] == files;
  }

  lemma AddBucketHolds(files: seq<DataFile>, bucket: seq<Row>)
    ensures multiset(RowsOf(files + if bucket == [] then [] else [DataFile(SortRows(bucket))]))
         == multiset(RowsOf(files)) + multiset(bucket)
  {
    if bucket == [] {
      assert files + [] == files;
    } else {
      SortRowsSorts(bucket);
      RowsOfAppend(files, DataFile(SortRows(bucket)));
    }
  }

  lemma {:induction false} BucketFilesHoldRows(rows: seq<Row>, n: nat, placement: Placement, k: nat)
    requires n > 0
    ensures multiset(RowsOf(BucketFiles(rows, n, placement, k))) == Below(rows, n, placement, k)
  {
    if k == 0 {
      BelowEnds(rows, n, placement);
    } else {
      var files, bucket := BucketFiles(rows, n, placement, k - 1), Bucket(rows, n, placement, k - 1);
      BucketFilesHoldRows(rows, n, placement, k - 1);
      BelowGrows(rows, n, placement, k);
      AddBucketHolds(files, bucket);
      var all := files + if bucket == [] then [] else [DataFile(SortRows(bucket))];
      assert BucketFiles(rows, n, placement, k) == all;
      assert multiset(RowsOf(all)) == Below(rows, n, placement, k);
    }
  }

  lemma {:induction false} BucketFilesSorted(rows: seq<Row>, n: nat, placement: Placement, k: nat)
    requires n > 0
    ensures |BucketFiles(rows, n, placement, k)| <= k
    ensures forall f :: f in BucketFiles(rows, n, placement, k) ==> SortedRows(f.rows) && f.rows != []
  {
    if k > 0 {
      BucketFilesSorted(rows, n, placement, k - 1);
      var bucket := Bucket(rows, n, placement, k - 1);
      SortRowsSorts(bucket);
      if bucket != [] {
        assert bucket[0] in multiset(SortRows(bucket));
      }
    }
  }

  // A rewrite permutes the rows into at most n files, none empty and each sorted,
  // however the engine places them.
  lemma RedistributePermutes(rows: seq<Row>, n: nat, placement: Placement)
    requires n > 0
    ensures multiset(RowsOf(Redistribute(rows, n, placement))) == multiset(rows)
    ensures |Redistribute(rows, n, placement)| <= n
    ensures forall f :: f in Redistribute(rows, n, placement) ==> SortedRows(f.rows) && f.rows != []
  {
    BucketFilesHoldRows(rows, n, placement, n);
    BucketFilesSorted(rows, n, placement, n);
    BelowEnds(rows, n, placement);
  }

  // And it keeps the engine's buckets apart: a bucket that gets any row becomes
  // one file, with all of its rows and no others.
  lemma BucketIsAFile(rows: seq<Row>, n: nat, placement: Placement, i: nat) returns (f: DataFile)
    requires n > 0 && i < |rows|
    ensures f in Redistribute(rows, n, placement)
    ensures forall j :: 0 <= j < |rows| && placement(j) % n == placement(i) % n ==> rows[j] in f.rows
    ensures |f.rows| == |set j | 0 <= j < |rows| && placement(j) % n == placement(i) % n|
  {
    var b := placement(i) % n;
    var bucket := Bucket(rows, n, placement, b);
    f := DataFile(SortRows(bucket));
    BucketCounts(rows, n, placement, b);
    BucketHas(rows, n, placement, i);
    SortRowsSorts(bucket);
    FileOfBucket(rows, n, placement, b, n);
    assert |multiset(bucket)| == |bucket| && |multiset(f.rows)| == |f.rows|;
    forall j | 0 <= j < |rows| && placement(j) % n == b ensures rows[j] in f.rows {
      BucketHas(rows, n, placement, j);
      assert rows[j] in multiset(bucket);
    }
  }

  lemma {:induction false} FileOfBucket(rows: seq<Row>, n: nat, placement: Placement, b: nat, k: nat)
    requires n > 0 && b < k && Bucket(rows, n, placement, b) != []
    ensures DataFile(SortRows(Bucket(rows, n, placement, b))) in BucketFiles(rows, n, placement, k)
  {
    if b < k - 1 {
      FileOfBucket(rows, n, placement, b, k - 1);
    }
  }

  lemma {:induction false} BucketCounts(rows: seq<Row>, n: nat, placement: Placement, b: nat)
    requires n > 0
    ensures |Bucket(rows, n, placement, b)| == |set j | 0 <= j < |rows| && placement(j) % n == b|
  {
    if rows != [] {
      var i := |rows| - 1;
      BucketCounts(rows[..i], n, placement, b);
      assert (set j | 0 <= j < |rows| && placement(j) % n == b)
          == (set j | 0 <= j < i && placement(j) % n == b) + if placement(i) % n == b then {i} else {};
    }
  }

  lemma {:induction false} BucketHas(rows: seq<Row>, n: nat, placement: Placement, j: nat)
    requires n > 0 && j < |rows|
    ensures rows[j] in Bucket(rows, n, placement, placement(j) % n)
  {
    var i := |rows| - 1;
    if j < i {
      BucketHas(rows[..i], n, placement, j);
    }
  }
}
