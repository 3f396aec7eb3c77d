// Scanning a paginated object listing into partitions.

module FileScanner {
  import opened Prelude
  import opened PartitionKeys

  // One listed object; the scanner's ParquetFileInfo keeps the same three fields.
  datatype FileInfo = FileInfo(key: string, size: nat, modified: int)

  datatype PartitionStats = PartitionStats(key: PartitionKey, files: seq<FileInfo>) {
    function Id(): string { PartitionId(key) }
    function FileCount(): nat { |files| }
    function TotalBytes(): nat { SumSizes(files) }
  }

  function SumSizes(files: seq<FileInfo>): nat {
    if files == [] then 0 else SumSizes(files[..|files| - 1]) + files[|files| - 1].size
  }

  // The partition an object counts for, if it passes the scanner's filters.
  function Placement(prefix: string, o: FileInfo): Option<PartitionKey> {
    if Contains(o.key, "_delta_log") || !EndsWith(o.key, ".parquet") then None
    else ParsePartition(prefix, o.key)
  }

  // The objects placed in partition k, in listing order.
  function FilesOf(prefix: string, objects: seq<FileInfo>, k: PartitionKey): seq<FileInfo> {
    if objects == [] then []
    else
      var n := |objects| - 1;
      FilesOf(prefix, objects[..n], k) + if Placement(prefix, objects[n]) == Some(k) then [objects[n]] else []
  }

  function Accepted(prefix: string, objects: seq<FileInfo>): seq<FileInfo> {
    if objects == [] then []
    else
      var n := |objects| - 1;
      Accepted(prefix, objects[..n]) + if Placement(prefix, objects[n]).Some? then [objects[n]] else []
  }

  function Flatten(pages: seq<seq<FileInfo>>): seq<FileInfo> {
    if pages == [] then [] else Flatten(pages[..|pages| - 1]) + pages[|pages| - 1]
  }

  // The sort key (event_date, event_hour), compared as a Python tuple.
  predicate KeyLt(a: PartitionKey, b: PartitionKey) {
    if a.date == b.date then a.hour < b.hour else StrLe(a.date, b.date)
  }

  lemma KeyOrder(a: PartitionKey, b: PartitionKey)
    ensures !(KeyLt(a, b) && KeyLt(b, a))
    ensures KeyLt(a, b) || a == b || KeyLt(b, a)
  {
    StrLeTotal(a.date, b.date);
    if KeyLt(a, b) && KeyLt(b, a) && a.date != b.date {
      StrLeAntisymmetric(a.date, b.date);
    }
  }

  lemma KeyLtTransitive(a: PartitionKey, b: PartitionKey, c: PartitionKey)
    requires KeyLt(a, b) && KeyLt(b, c)
    ensures KeyLt(a, c)
  {
    if a.date != b.date && b.date != c.date {
      StrLeTransitive(a.date, b.date, c.date);
      if a.date == c.date {
        StrLeAntisymmetric(a.date, b.date);
      }
    }
  }

  predicate SortedByKey(parts: seq<PartitionStats>) {
    forall i, j :: 0 <= i < j < |parts| ==> KeyLt(parts[i].key, parts[j].key)
  }

  predicate NoneEmpty(parts: seq<PartitionStats>) {
    forall i :: 0 <= i < |parts| ==> parts[i].files != []
  }

  function Lookup(parts: seq<PartitionStats>, k: PartitionKey): seq<FileInfo> {
    if parts == [] then []
    else if parts[0].key == k then parts[0].files
    else Lookup(parts[1..], k)
  }

  // What a scan is: strictly sorted (hence pairwise distinct) partitions, none
  // of them empty, each holding exactly the objects placed in it.
  ghost predicate IsScanOf(parts: seq<PartitionStats>, prefix: string, objects: seq<FileInfo>) {
    && SortedByKey(parts)
    && NoneEmpty(parts)
    && forall k :: Lookup(parts, k) == FilesOf(prefix, objects, k)
  }

  // ---------- A one-object-at-a-time scan ----------

  function AddFile(parts: seq<PartitionStats>, k: PartitionKey, f: FileInfo): seq<PartitionStats> {
    if parts == [] || KeyLt(k, parts[0].key) then [PartitionStats(k, [f])] + parts
    else if parts[0].key == k then [PartitionStats(k, parts[0].files + [f])] + parts[1..]
    else [parts[0]] + AddFile(parts[1..], k, f)
  }

  function Scan(prefix: string, objects: seq<FileInfo>): seq<PartitionStats> {
    if objects == [] then []
    else
      var n := |objects| - 1;
      var parts := Scan(prefix, objects[..n]);
      match Placement(prefix, objects[n])
      case None => parts
      case Some(k) => AddFile(parts, k, objects[n])
  }

  lemma {:induction false} LookupBelow(parts: seq<PartitionStats>, k: PartitionKey)
    requires forall i :: 0 <= i < |parts| ==> KeyLt(k, parts[i].key)
    ensures Lookup(parts, k) == []
  {
    if parts != [] {
      KeyOrder(k, parts[0].key);
      LookupBelow(parts[1..], k);
    }
  }

  lemma {:induction false} LookupAt(parts: seq<PartitionStats>, i: nat)
    requires SortedByKey(parts) && i < |parts|
    ensures Lookup(parts, parts[i].key) == parts[i].files
  {
    if i > 0 {
      KeyOrder(parts[0].key, parts[i].key);
      LookupAt(parts[1..], i - 1);
    }
  }

  lemma {:induction false} AddFileKeepsSorted(parts: seq<PartitionStats>, k: PartitionKey, f: FileInfo)
    requires SortedByKey(parts) && NoneEmpty(parts)
    ensures SortedByKey(AddFile(parts, k, f)) && NoneEmpty(AddFile(parts, k, f))
    ensures forall i :: 0 <= i < |AddFile(parts, k, f)| ==>
              AddFile(parts, k, f)[i].key == k || exists j :: 0 <= j < |parts| && parts[j].key == AddFile(parts, k, f)[i].key
  {
    if parts == [] {
    } else if KeyLt(k, parts[0].key) {
      forall i | 0 <= i < |parts| ensures KeyLt(k, parts[i].key) {
        if i > 0 { KeyLtTransitive(k, parts[0].key, parts[i].key); }
      }
    } else if parts[0].key != k {
      KeyOrder(k, parts[0].key);
      AddFileKeepsSorted(parts[1..], k, f);
    }
  }

  lemma {:induction false} AddFileLookup(parts: seq<PartitionStats>, k: PartitionKey, f: FileInfo, q: PartitionKey)
    requires SortedByKey(parts)
    ensures Lookup(AddFile(parts, k, f), q) == Lookup(parts, q) + if q == k then [f] else []
  {
    if parts == [] {
    } else if KeyLt(k, parts[0].key) {
      forall i | 0 <= i < |parts| ensures KeyLt(k, parts[i].key) {
        if i > 0 { KeyLtTransitive(k, parts[0].key, parts[i].key); }
      }
      LookupBelow(parts, k);
    } else if parts[0].key != k {
      AddFileLookup(parts[1..], k, f, q);
    }
  }

  lemma {:induction false} ScanIsScan(prefix: string, objects: seq<FileInfo>)
    ensures IsScanOf(Scan(prefix, objects), prefix, objects)
  {
    if objects != [] {
      var n := |objects| - 1;
      var parts := Scan(prefix, objects[..n]);
      ScanIsScan(prefix, objects[..n]);
      match Placement(prefix, objects[n])
      case None =>
      case Some(k) =>
        AddFileKeepsSorted(parts, k, objects[n]);
        forall q ensures Lookup(Scan(prefix, objects), q) == FilesOf(prefix, objects, q) {
          AddFileLookup(parts, k, objects[n], q);
        }
    }
  }

  lemma {:induction false} SameLookupSameParts(a: seq<PartitionStats>, b: seq<PartitionStats>)
    requires SortedByKey(a) && NoneEmpty(a) && SortedByKey(b) && NoneEmpty(b)
    requires forall k :: Lookup(a, k) == Lookup(b, k)
    ensures a == b
  {
    if a != [] { assert Lookup(b, a[0].key) == a[0].files; }
    if b != [] { assert Lookup(a, b[0].key) == b[0].files; }
    if a != [] && b != [] {
      var p, q := a[0].key, b[0].key;
      assert Lookup(a, p) == a[0].files && Lookup(b, q) == b[0].files;
      if KeyLt(p, q) {
        forall i | 0 <= i < |b| ensures KeyLt(p, b[i].key) { if i > 0 { KeyLtTransitive(p, q, b[i].key); } }
        LookupBelow(b, p);
      } else if KeyLt(q, p) {
        forall i | 0 <= i < |a| ensures KeyLt(q, a[i].key) { if i > 0 { KeyLtTransitive(q, p, a[i].key); } }
        LookupBelow(a, q);
      }
      KeyOrder(p, q);
      forall k ensures Lookup(a[1..], k) == Lookup(b[1..], k) {
        if k == p {
          LookupBelow(a[1..], k);
          LookupBelow(b[1..], k);
        } else {
          assert Lookup(a, k) == Lookup(b, k);
        }
      }
      SameLookupSameParts(a[1..], b[1..]);
      assert a == [a[0]] + a[1..] && b == [b[0]] + b[1..];
    }
  }

  // A listing has one scan: any grouping that meets IsScanOf is that scan.
  lemma ScanUnique(parts: seq<PartitionStats>, prefix: string, objects: seq<FileInfo>)
    ensures IsScanOf(parts, prefix, objects) <==> parts == Scan(prefix, objects)
  {
    ScanIsScan(prefix, objects);
    if IsScanOf(parts, prefix, objects) {
      SameLookupSameParts(parts, Scan(prefix, objects));
    }
  }

  // ---------- What every scan guarantees ----------

  function CountFiles(parts: seq<PartitionStats>): nat {
    if parts == [] then 0 else parts[0].FileCount() + CountFiles(parts[1..])
  }

  function CountBytes(parts: seq<PartitionStats>): nat {
    if parts == [] then 0 else parts[0].TotalBytes() + CountBytes(parts[1..])
  }

  lemma {:induction false} AddFileConserves(parts: seq<PartitionStats>, k: PartitionKey, f: FileInfo)
    ensures CountFiles(AddFile(parts, k, f)) == CountFiles(parts) + 1
    ensures CountBytes(AddFile(parts, k, f)) == CountBytes(parts) + f.size
  {
    if parts == [] || KeyLt(k, parts[0].key) {
      assert ([PartitionStats(k, [f])] + parts)[1..] == parts;
      assert [f][..0] == [] && SumSizes([f]) == f.size;
    } else if parts[0].key == k {
      assert (parts[0].files + [f])[..|parts[0].files|] == parts[0].files;
    } else {
      AddFileConserves(parts[1..], k, f);
    }
  }

  // Every accepted object is counted once: file counts and bytes add up.
  lemma {:induction false} ScanConserves(prefix: string, objects: seq<FileInfo>)
    ensures CountFiles(Scan(prefix, objects)) == |Accepted(prefix, objects)|
    ensures CountBytes(Scan(prefix, objects)) == SumSizes(Accepted(prefix, objects))
  {
    if objects != [] {
      var n := |objects| - 1;
      ScanConserves(prefix, objects[..n]);
      match Placement(prefix, objects[n])
      case None =>
        assert Accepted(prefix, objects) == Accepted(prefix, objects[..n]);
      case Some(k) =>
        AddFileConserves(Scan(prefix, objects[..n]), k, objects[n]);
        assert Accepted(prefix, objects)[..|Accepted(prefix, objects)| - 1] == Accepted(prefix, objects[..n]);
    }
  }

  lemma {:induction false} FilesOfPlaced(prefix: string, objects: seq<FileInfo>, k: PartitionKey, f: FileInfo)
    ensures f in FilesOf(prefix, objects, k) <==> f in objects && Placement(prefix, f) == Some(k)
  {
    if objects != [] {
      var n := |objects| - 1;
      FilesOfPlaced(prefix, objects[..n], k, f);
      LastApart(objects);
    }
  }

  // A file is in a scanned partition exactly when the listing holds it, it is a
  // Parquet file outside the transaction log, and its key parses to the partition.
  lemma ScanMembership(prefix: string, objects: seq<FileInfo>, f: FileInfo, k: PartitionKey)
    ensures Holds(Scan(prefix, objects), f, k)
       <==> f in objects && IsDataKey(f.key) && ParsePartition(prefix, f.key) == Some(k)
  {
    ScanHolds(prefix, objects, f, k);
    DataKeysPass(prefix, f);
  }

  // "_delta_log" is nowhere in it, and ".parquet" is at its end.
  ghost predicate IsDataKey(key: string) {
    !(exists i :: OccursAt(key, "_delta_log", i)) && OccursAt(key, ".parquet", |key| - |".parquet"|)
  }

  lemma DataKeysPass(prefix: string, f: FileInfo)
    ensures Placement(prefix, f) == if IsDataKey(f.key) then ParsePartition(prefix, f.key) else None
  {
    FilterPasses(f.key);
  }

  lemma FilterPasses(key: string)
    ensures Contains(key, "_delta_log") || !EndsWith(key, ".parquet") <==> !IsDataKey(key)
  {
    ContainsMeaning(key, "_delta_log");
    OccursAtEnd(key, ".parquet");
  }

  lemma OccursAtEnd(s: string, end: string)
    ensures EndsWith(s, end) <==> OccursAt(s, end, |s| - |end|)
  {
    if |end| <= |s| {
      assert s[|s| - |end|..|s| - |end| + |end|] == s[|s| - |end|..];
    }
  }

  // Every data file is scanned into its partition, whatever else is listed, and
  // into no other.
  lemma DataFileIsScanned(
    prefix: string, objects: seq<FileInfo>, f: FileInfo, p: PartitionKey, name: string, k: PartitionKey)
    requires f in objects && f.key == ObjectKey(prefix, p, name)
    requires p.date != [] && '/' !in p.date && '\n' !in name && !Contains(f.key, "_delta_log")
    ensures Holds(Scan(prefix, objects), f, k) <==> k == p
  {
    ScanHolds(prefix, objects, f, k);
    ParseUndoesPrint(prefix, p, name);
    var front := StripSlashes(prefix) + "/" + PartitionId(p) + "/" + name;
    assert f.key == front + ".parquet";
    Splits(front, ".parquet");
  }

  ghost predicate Holds(parts: seq<PartitionStats>, f: FileInfo, k: PartitionKey) {
    exists i :: 0 <= i < |parts| && parts[i].key == k && f in parts[i].files
  }

  // Dates in order, and hours in order within a date.
  lemma ScanOrder(prefix: string, objects: seq<FileInfo>, i: nat, j: nat)
    requires i < j < |Scan(prefix, objects)|
    ensures var a, b := Scan(prefix, objects)[i].key, Scan(prefix, objects)[j].key;
      StrLe(a.date, b.date) && (a.date == b.date ==> a.hour < b.hour)
  {
    ScanIsScan(prefix, objects);
    var a, b := Scan(prefix, objects)[i].key, Scan(prefix, objects)[j].key;
    assert KeyLt(a, b);
    StrLeTotal(a.date, a.date);
  }

  lemma ScanHolds(prefix: string, objects: seq<FileInfo>, f: FileInfo, k: PartitionKey)
    ensures Holds(Scan(prefix, objects), f, k) <==> f in objects && Placement(prefix, f) == Some(k)
  {
    var parts := Scan(prefix, objects);
    ScanIsScan(prefix, objects);
    FilesOfPlaced(prefix, objects, k, f);
    assert Lookup(parts, k) == FilesOf(prefix, objects, k);
    if i :| 0 <= i < |parts| && parts[i].key == k && f in parts[i].files {
      LookupAt(parts, i);
    }
    if f in Lookup(parts, k) {
      var i := LookupIndex(parts, k);
    }
  }

  lemma {:induction false} LookupIndex(parts: seq<PartitionStats>, k: PartitionKey) returns (i: nat)
    requires Lookup(parts, k) != []
    ensures i < |parts| && parts[i].key == k && parts[i].files == Lookup(parts, k)
  {
    if parts[0].key == k {
      i := 0;
    } else {
      i := LookupIndex(parts[1..], k);
      i := i + 1;
    }
  }

  // Scanned partitions have distinct ids, so a search by id is a search by key.
  lemma ScanIdsDistinct(prefix: string, objects: seq<FileInfo>, i: nat, j: nat)
    requires i < |Scan(prefix, objects)| && j < |Scan(prefix, objects)|
    ensures Scan(prefix, objects)[i].files != []
    ensures Scan(prefix, objects)[i].Id() == Scan(prefix, objects)[j].Id() <==> i == j
  {
    var parts := Scan(prefix, objects);
    ScanIsScan(prefix, objects);
    KeyOrder(parts[i].key, parts[j].key);
    if parts[i].Id() == parts[j].Id() {
      PartitionIdInjective(parts[i].key, parts[j].key);
    }
  }

  // ---------- Searching a scan by partition id ----------

  function FirstWithId(parts: seq<PartitionStats>, id: string): Option<PartitionStats> {
    if parts == [] then None
    else if parts[0].Id() == id then Some(parts[0])
    else FirstWithId(parts[1..], id)
  }

  // It is the first such partition, or none has the id.
  lemma {:induction false} FirstIsFirst(parts: seq<PartitionStats>, id: string)
    ensures FirstWithId(parts, id).None? <==> forall i :: 0 <= i < |parts| ==> parts[i].Id() != id
    ensures FirstWithId(parts, id).Some? ==>
      exists i :: 0 <= i < |parts| && FirstWithId(parts, id).value == parts[i] && parts[i].Id() == id
                  && forall j :: 0 <= j < i ==> parts[j].Id() != id
  {
    if parts != [] && parts[0].Id() != id {
      FirstIsFirst(parts[1..], id);
      assert forall i :: 0 < i < |parts| ==> parts[i] == parts[1..][i - 1];
    }
  }

  method FindPartition(parts: seq<PartitionStats>, id: string) returns (found: Option<PartitionStats>)
    ensures found == FirstWithId(parts, id)
  {
    for i := 0 to |parts|
      invariant FirstWithId(parts, id) == FirstWithId(parts[i..], id)
    {
      if parts[i].Id() == id {
        return Some(parts[i]);
      }
    }
    return None;
  }

  // In a scan the search by id finds the partition's files, and finds nothing
  // exactly when the listing places no object there.
  lemma {:induction false} FindInScan(parts: seq<PartitionStats>, k: PartitionKey)
    ensures FirstWithId(parts, PartitionId(k)).None? ==> Lookup(parts, k) == []
    ensures FirstWithId(parts, PartitionId(k)).Some? ==>
              FirstWithId(parts, PartitionId(k)).value == PartitionStats(k, Lookup(parts, k))
  {
    if parts != [] {
      if parts[0].Id() == PartitionId(k) {
        PartitionIdInjective(parts[0].key, k);
      } else {
        FindInScan(parts[1..], k);
      }
    }
  }

  // ---------- The scanner: group in a dictionary, then sort ----------

  ghost predicate Groups(groups: map<PartitionKey, PartitionStats>, prefix: string, objects: seq<FileInfo>) {
    forall k ::
      && (k in groups <==> FilesOf(prefix, objects, k) != [])
      && (k in groups ==> groups[k] == PartitionStats(k, FilesOf(prefix, objects, k)))
  }

  function AddToGroup(groups: map<PartitionKey, PartitionStats>, k: PartitionKey, f: FileInfo)
    : map<PartitionKey, PartitionStats>
  {
    groups[k := PartitionStats(k, (if k in groups then groups[k].files else []) + [f])]
  }

  lemma GroupsStep(groups: map<PartitionKey, PartitionStats>, prefix: string, objects: seq<FileInfo>, f: FileInfo)
    requires Groups(groups, prefix, objects)
    ensures match Placement(prefix, f)
            case None => Groups(groups, prefix, objects + [f])
            case Some(k) => Groups(AddToGroup(groups, k, f), prefix, objects + [f])
  {
    assert (objects + [f])[..|objects|] == objects;
    forall k ensures FilesOf(prefix, objects + [f], k)
                  == FilesOf(prefix, objects, k) + if Placement(prefix, f) == Some(k) then [f] else []
    {}
  }

  // The listing's page boundaries leave no trace in the result.
  method ScanPartitions(prefix: string, pages: seq<seq<FileInfo>>) returns (parts: seq<PartitionStats>)
    ensures parts == Scan(prefix, Flatten(pages))
    ensures IsScanOf(parts, prefix, Flatten(pages))
  {
    var groups: map<PartitionKey, PartitionStats> := map[];
    for i := 0 to |pages|
      invariant Groups(groups, prefix, Flatten(pages[..i]))
    {
      var page := pages[i];
      assert Flatten(pages[..i]) + page[..0] == Flatten(pages[..i]);
      for j := 0 to |page|
        invariant Groups(groups, prefix, Flatten(pages[..i]) + page[..j])
      {
        GroupsStep(groups, prefix, Flatten(pages[..i]) + page[..j], page[j]);
        assert Flatten(pages[..i]) + page[..j + 1] == Flatten(pages[..i]) + page[..j] + [page[j]];
        match Placement(prefix, page[j])
        case None =>
        case Some(k) =>
          var known := if k in groups then groups[k].files else [];
          groups := groups[k := PartitionStats(k, known + [page[j]])];
      }
      assert page[..|page|] == page && pages[..i + 1][..i] == pages[..i];
    }
    assert pages[..|pages|] == pages;
    parts := SortedValues(groups);
    forall k ensures Lookup(parts, k) == FilesOf(prefix, Flatten(pages), k) {}
    ScanUnique(parts, prefix, Flatten(pages));
  }

  function InsertStats(parts: seq<PartitionStats>, s: PartitionStats): seq<PartitionStats> {
    if parts == [] || KeyLt(s.key, parts[0].key) then [s] + parts
    else [parts[0]] + InsertStats(parts[1..], s)
  }

  lemma {:induction false} InsertKeepsSorted(parts: seq<PartitionStats>, s: PartitionStats)
    requires SortedByKey(parts)
    requires forall i :: 0 <= i < |parts| ==> parts[i].key != s.key
    ensures SortedByKey(InsertStats(parts, s))
    ensures forall t :: t in InsertStats(parts, s) <==> t == s || t in parts
    ensures forall q :: Lookup(InsertStats(parts, s), q) == if q == s.key then s.files else Lookup(parts, q)
  {
    if parts == [] {
    } else if KeyLt(s.key, parts[0].key) {
      forall i | 0 <= i < |parts| ensures KeyLt(s.key, parts[i].key) {
        if i > 0 { KeyLtTransitive(s.key, parts[0].key, parts[i].key); }
      }
    } else {
      KeyOrder(s.key, parts[0].key);
      InsertKeepsSorted(parts[1..], s);
      var rest := InsertStats(parts[1..], s);
      forall i | 0 <= i < |rest| ensures KeyLt(parts[0].key, rest[i].key) {
        assert rest[i] in rest;
        if rest[i] != s { assert rest[i] in parts[1..]; }
      }
    }
  }

  method SortedValues(groups: map<PartitionKey, PartitionStats>) returns (parts: seq<PartitionStats>)
    requires forall k :: k in groups ==> groups[k].key == k && groups[k].files != []
    ensures SortedByKey(parts) && NoneEmpty(parts)
    ensures forall k :: Lookup(parts, k) == if k in groups then groups[k].files else []
  {
    parts := [];
    var left := groups.Keys;
    while left != {}
      invariant left <= groups.Keys
      invariant SortedByKey(parts) && NoneEmpty(parts)
      invariant forall i :: 0 <= i < |parts| ==> parts[i].key in groups.Keys - left
      invariant forall k :: Lookup(parts, k) == if k in groups.Keys - left then groups[k].files else []
      decreases left
    {
      var k :| k in left;
      ghost var previous := parts;
      InsertKeepsSorted(parts, groups[k]);
      parts := InsertStats(parts, groups[k]);
      left := left - {k};
      forall i | 0 <= i < |parts| ensures parts[i].key in groups.Keys - left && parts[i].files != [] {
        assert parts[i] in parts;
        assert parts[i] == groups[k] || parts[i] in previous;
      }
    }
  }
}
