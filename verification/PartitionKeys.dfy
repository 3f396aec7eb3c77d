// Partition ids, object keys and lock keys: the strings by which the scanner,
// the lock manager and the object store agree on what a partition is.

module PartitionKeys {
  import opened Prelude

  datatype PartitionKey = PartitionKey(date: string, hour: nat)

  predicate IsDigit(c: char) {
    '0' <= c <= '9'
  }

  predicate AllDigits(s: string) {
    forall i :: 0 <= i < |s| ==> IsDigit(s[i])
  }

  // str(n)
  function Decimal(n: nat): (s: string)
    ensures s != [] && AllDigits(s)
  {
    var last := [('0' as int + n % 10) as char];
    if n < 10 then last else Decimal(n / 10) + last
  }

  // int(s) on decimal digits
  function ParseDecimal(s: string): nat
    requires AllDigits(s)
  {
    if s == [] then 0
    else 10 * ParseDecimal(s[..|s| - 1]) + (s[|s| - 1] as int - '0' as int)
  }

  lemma {:induction false} ParseUndoesDecimal(n: nat)
    ensures ParseDecimal(Decimal(n)) == n
  {
    if n >= 10 {
      ParseUndoesDecimal(n / 10);
      var s := Decimal(n);
      assert s[..|s| - 1] == Decimal(n / 10);
    } else {
      assert Decimal(n)[..0] == [];
    }
  }

  // In base ten and without leading zeros.
  lemma HoursAreDecimal()
    ensures Decimal(0) == "0" && Decimal(9) == "9" && Decimal(10) == "10" && Decimal(23) == "23"
  {
  }

  function PartitionId(p: PartitionKey): string {
    "event_date=" + p.date + "/event_hour=" + Decimal(p.hour)
  }

  function LockFilePath(base: string, partitionId: string): string {
    StripSlashes(base) + "/" + partitionId + ".lock"
  }

  // ---------- The scanner's regular expression ----------

  // Length of the longest slash-free start of s: what ([^/]+) takes.
  function SlashFreeRun(s: string): (n: nat)
    ensures n <= |s|
    ensures '/' !in s[..n]
    ensures n < |s| ==> s[n] == '/'
  {
    if s == [] || s[0] == '/' then 0
    else
      var n := 1 + SlashFreeRun(s[1..]);
      assert s[..n] == [s[0]] + s[1..][..n - 1];
      n
  }

  // Length of the longest run of digits at the start of s: what (\d+) takes.
  function DigitRun(s: string): (n: nat)
    ensures n <= |s|
    ensures AllDigits(s[..n])
    ensures n < |s| ==> !IsDigit(s[n])
  {
    if s == [] || !IsDigit(s[0]) then 0
    else
      var n := 1 + DigitRun(s[1..]);
      assert s[..n] == [s[0]] + s[1..][..n - 1];
      n
  }

  // .*\.parquet$ : the dot matches no newline, and the dollar sign matches at
  // the end of the string or just before one final newline.
  predicate MatchesTail(t: string) {
    var u := if t != [] && t[|t| - 1] == '\n' then t[..|t| - 1] else t;
    EndsWith(u, ".parquet") && '\n' !in u
  }

  // (\d+)/.*\.parquet$ : the hour and what must follow it.
  function MatchHour(c: string): Option<nat> {
    var h := DigitRun(c);
    var e := c[h..];
    if h == 0 || !StartsWith(e, "/") || !MatchesTail(e[1..]) then None
    else Some(ParseDecimal(c[..h]))
  }

  // ([^/]+)/event_hour=(\d+)/.*\.parquet$ : the date and what must follow it.
  function MatchDate(a: string): Option<PartitionKey> {
    var d := SlashFreeRun(a);
    var b := a[d..];
    if d == 0 || !StartsWith(b, "/event_hour=") then None else
    match MatchHour(b[|"/event_hour="|..])
    case None => None
    case Some(hour) => Some(PartitionKey(a[..d], hour))
  }

  // The whole expression, tried at the first character of s. Neither group can
  // give back characters and still meet the slash that must follow it, so
  // taking the longest run decides the match.
  function MatchHere(prefix: string, s: string): Option<PartitionKey> {
    var head := prefix + "/event_date=";
    if StartsWith(s, head) then MatchDate(s[|head|..]) else None
  }

  // re.search: the leftmost position that matches.
  function Search(prefix: string, s: string): Option<PartitionKey> {
    var here := MatchHere(prefix, s);
    if here.Some? || s == [] then here else Search(prefix, s[1..])
  }

  function ParsePartition(tablePrefix: string, key: string): Option<PartitionKey> {
    Search(StripSlashes(tablePrefix), key)
  }

  // The key under which Delta stores a data file of partition p.
  function ObjectKey(tablePrefix: string, p: PartitionKey, name: string): string {
    StripSlashes(tablePrefix) + "/" + PartitionId(p) + "/" + name + ".parquet"
  }

  // ---------- Parsing undoes printing ----------

  lemma {:induction false} SlashFreeRunStops(s: string, rest: string)
    requires '/' !in s
    requires rest != [] && rest[0] == '/'
    ensures SlashFreeRun(s + rest) == |s|
  {
    if s != [] {
      assert (s + rest)[1..] == s[1..] + rest;
      SlashFreeRunStops(s[1..], rest);
    }
  }

  lemma {:induction false} DigitRunStops(s: string, rest: string)
    requires AllDigits(s)
    requires rest != [] && !IsDigit(rest[0])
    ensures DigitRun(s + rest) == |s|
  {
    if s != [] {
      assert (s + rest)[1..] == s[1..] + rest;
      DigitRunStops(s[1..], rest);
    }
  }

  lemma Splits(front: string, back: string)
    ensures StartsWith(front + back, front)
    ensures (front + back)[..|front|] == front && (front + back)[|front|..] == back
  {
  }

  lemma ParquetTail(name: string)
    ensures MatchesTail(name + ".parquet") <==> '\n' !in name
  {
    var tail := name + ".parquet";
    assert tail[|tail| - 1] == 't';
    Splits(name, ".parquet");
    assert '\n' in tail <==> '\n' in name;
  }

  lemma MatchHourUndoesPrint(hour: nat, name: string)
    ensures MatchHour(Decimal(hour) + ("/" + (name + ".parquet")))
         == if '\n' in name then None else Some(hour)
  {
    var tail := name + ".parquet";
    var e := "/" + tail;
    DigitRunStops(Decimal(hour), e);
    Splits(Decimal(hour), e);
    Splits("/", tail);
    ParquetTail(name);
    ParseUndoesDecimal(hour);
  }

  lemma MatchDateUndoesPrint(p: PartitionKey, c: string)
    requires p.date != [] && '/' !in p.date
    ensures MatchDate(p.date + ("/event_hour=" + c))
         == match MatchHour(c) case None => None case Some(hour) => Some(PartitionKey(p.date, hour))
  {
    var b := "/event_hour=" + c;
    SlashFreeRunStops(p.date, b);
    Splits(p.date, b);
    Splits("/event_hour=", c);
  }

  // A key, cut where the expression cuts it.
  lemma KeyInParts(prefix: string, p: PartitionKey, name: string)
    ensures prefix + "/" + PartitionId(p) + "/" + name + ".parquet"
         == (prefix + "/event_date=") + (p.date + ("/event_hour=" + (Decimal(p.hour) + ("/" + (name + ".parquet")))))
  {
  }

  // Tried at the front of a printed key, the expression reads back exactly the
  // partition that was printed, unless the file name holds a newline.
  lemma MatchUndoesPrint(prefix: string, p: PartitionKey, name: string)
    requires p.date != [] && '/' !in p.date
    ensures MatchHere(prefix, prefix + "/" + PartitionId(p) + "/" + name + ".parquet")
         == if '\n' in name then None else Some(p)
  {
    var c := Decimal(p.hour) + ("/" + (name + ".parquet"));
    KeyInParts(prefix, p, name);
    Splits(prefix + "/event_date=", p.date + ("/event_hour=" + c));
    MatchDateUndoesPrint(p, c);
    MatchHourUndoesPrint(p.hour, name);
  }

  // ---------- Where the search can go on to ----------

  // What starts a match, after the table prefix.
  const DATE: string := "/event_date="

  lemma {:induction false} SkipsSlashFree(a: string, b: string)
    requires '/' !in a
    ensures Contains(a + b, DATE) <==> Contains(b, DATE)
  {
    if a == [] {
      assert a + b == b;
    } else {
      assert (a + b)[0] == a[0] && (a + b)[1..] == a[1..] + b;
      SkipsSlashFree(a[1..], b);
    }
  }

  lemma {:induction false} ContainsEnd(s: string, a: string, b: string)
    requires Contains(s, a + b)
    ensures |a| <= |s| && Contains(s[|a|..], b)
  {
    if a + b <= s {
      assert b <= s[|a|..];
    } else {
      ContainsEnd(s[1..], a, b);
      assert s[1..][|a|..] == s[|a|..][1..];
    }
  }

  lemma {:induction false} NoHeadNoMatch(prefix: string, s: string)
    requires !Contains(s, prefix + DATE)
    ensures Search(prefix, s).None?
  {
    if s != [] {
      NoHeadNoMatch(prefix, s[1..]);
    }
  }

  lemma DecimalHasNoSlash(n: nat)
    ensures '/' !in Decimal(n)
  {
  }

  // After the table prefix, a key says "/event_date=" again only in what follows
  // the hour.
  lemma DateSaidLater(p: PartitionKey, tail: string)
    requires '/' !in p.date
    ensures Contains("event_date=" + p.date + ("/event_hour=" + Decimal(p.hour) + tail), DATE) <==> Contains(tail, DATE)
  {
    var b := "/event_hour=" + Decimal(p.hour) + tail;
    SkipsSlashFree("event_date=" + p.date, b);
    assert b[1] == 'e' && b[7] == 'h' && DATE[7] == 'd';
    assert b[1..] == ("event_hour=" + Decimal(p.hour)) + tail;
    DecimalHasNoSlash(p.hour);
    SkipsSlashFree("event_hour=" + Decimal(p.hour), tail);
  }

  lemma AfterPrefix(prefix: string, p: PartitionKey, tail: string)
    ensures (prefix + "/" + PartitionId(p) + tail)[1..][|prefix|..]
         == "event_date=" + p.date + ("/event_hour=" + Decimal(p.hour) + tail)
  {
  }

  lemma NoLaterHead(prefix: string, p: PartitionKey, tail: string)
    requires '/' !in p.date && !Contains(tail, DATE)
    ensures !Contains((prefix + "/" + PartitionId(p) + tail)[1..], prefix + DATE)
  {
    var s := (prefix + "/" + PartitionId(p) + tail)[1..];
    if Contains(s, prefix + DATE) {
      ContainsEnd(s, prefix, DATE);
      AfterPrefix(prefix, p, tail);
      DateSaidLater(p, tail);
    }
  }

  // What a printed key parses to. Without a newline in the file name it is the
  // printed partition, whatever the table prefix, the date and the hour. With one
  // the search fails at the front and goes on inside the key; it finds nothing
  // unless the name says "/event_date=" itself.
  lemma ParseUndoesPrint(tablePrefix: string, p: PartitionKey, name: string)
    requires p.date != [] && '/' !in p.date
    ensures var key := ObjectKey(tablePrefix, p, name);
      && ('\n' !in name ==> ParsePartition(tablePrefix, key) == Some(p))
      && ('\n' in name ==> ParsePartition(tablePrefix, key) == Search(StripSlashes(tablePrefix), key[1..]))
      && ('\n' in name && !Contains("/" + name + ".parquet", DATE) ==> ParsePartition(tablePrefix, key).None?)
  {
    MatchUndoesPrint(StripSlashes(tablePrefix), p, name);
    if !Contains("/" + name + ".parquet", DATE) {
      NothingInside(StripSlashes(tablePrefix), p, name);
    }
  }

  lemma NothingInside(prefix: string, p: PartitionKey, name: string)
    requires '/' !in p.date && !Contains("/" + name + ".parquet", DATE)
    ensures Search(prefix, (prefix + "/" + PartitionId(p) + "/" + name + ".parquet")[1..]).None?
  {
    var tail := "/" + name + ".parquet";
    NoLaterHead(prefix, p, tail);
    assert prefix + "/" + PartitionId(p) + "/" + name + ".parquet" == prefix + "/" + PartitionId(p) + tail;
    NoHeadNoMatch(prefix, (prefix + "/" + PartitionId(p) + tail)[1..]);
  }

  function Slashes(s: string): nat {
    if s == [] then 0 else (if s[0] == '/' then 1 else 0) + Slashes(s[1..])
  }

  lemma {:induction false} SlashesFrom(s: string, k: nat)
    requires k <= |s|
    ensures Slashes(s) >= Slashes(s[k..])
  {
    if k == 0 {
      assert s[0..] == s;
    } else {
      SlashesFrom(s[1..], k - 1);
      assert s[1..][k - 1..] == s[k..];
    }
  }

  lemma {:induction false} SlashesSkip(a: string, b: string)
    requires '/' !in a
    ensures Slashes(a + b) == Slashes(b)
  {
    if a == [] {
      assert a + b == b;
    } else {
      assert (a + b)[0] == a[0] && (a + b)[1..] == a[1..] + b;
      SlashesSkip(a[1..], b);
    }
  }

  // A slash at k and those after word, which begins there.
  lemma SlashesAfter(s: string, k: nat, word: string)
    requires k <= |s| && word != [] && word[0] == '/' && StartsWith(s[k..], word)
    ensures Slashes(s) >= 1 + Slashes(s[k..][|word|..])
  {
    var b := s[k..];
    SlashesFrom(s, k);
    SlashesFrom(b[1..], |word| - 1);
    assert b[1..][|word| - 1..] == b[|word|..];
  }

  // A match spends three slashes after the table prefix.
  lemma MatchDateHasSlashes(a: string)
    requires MatchDate(a).Some?
    ensures Slashes(a) >= 2
  {
    var d := SlashFreeRun(a);
    var c := a[d..][|"/event_hour="|..];
    SlashesAfter(a, d, "/event_hour=");
    SlashesAfter(c, DigitRun(c), "/");
  }

  lemma MatchHasSlashes(prefix: string, s: string)
    requires MatchHere(prefix, s).Some?
    ensures |prefix| <= |s| && Slashes(s[|prefix|..]) >= 3
  {
    var a := s[|prefix|..];
    assert StartsWith(a, DATE) && a[|DATE|..] == s[|prefix + DATE|..];
    assert a[0..] == a;
    SlashesAfter(a, 0, DATE);
    MatchDateHasSlashes(a[|DATE|..]);
  }

  lemma {:induction false} SearchHasSlashes(prefix: string, s: string)
    requires Search(prefix, s).Some?
    ensures |prefix| <= |s| && Slashes(s[|prefix|..]) >= 3
  {
    if MatchHere(prefix, s).Some? {
      MatchHasSlashes(prefix, s);
    } else {
      SearchHasSlashes(prefix, s[1..]);
      SlashesLater(s, |prefix|);
    }
  }

  lemma SlashesLater(s: string, k: nat)
    requires k < |s|
    ensures Slashes(s[k..]) >= Slashes(s[1..][k..])
  {
    SlashesFrom(s[k..], 1);
    assert s[k..][1..] == s[1..][k..];
  }

  // Whatever the table prefix: a file directly in its partition's directory is
  // counted there if and only if its name holds no newline, and nowhere
  // otherwise.
  lemma ParseExactly(tablePrefix: string, p: PartitionKey, name: string)
    requires p.date != [] && '/' !in p.date && '/' !in name
    ensures ParsePartition(tablePrefix, ObjectKey(tablePrefix, p, name)) == if '\n' in name then None else Some(p)
  {
    var prefix, key := StripSlashes(tablePrefix), ObjectKey(tablePrefix, p, name);
    ParseUndoesPrint(tablePrefix, p, name);
    if '\n' in name && Search(prefix, key[1..]).Some? {
      SearchHasSlashes(prefix, key[1..]);
      TwoSlashesAfter(prefix, p, name);
    }
  }

  lemma TwoSlashesAfter(prefix: string, p: PartitionKey, name: string)
    requires '/' !in p.date && '/' !in name
    ensures Slashes((prefix + "/" + PartitionId(p) + "/" + name + ".parquet")[1..][|prefix|..]) == 2
  {
    var date, hour, file := "event_date=" + p.date, "event_hour=" + Decimal(p.hour), name + ".parquet";
    DecimalHasNoSlash(p.hour);
    AfterPrefix(prefix, p, "/" + file);
    assert prefix + "/" + PartitionId(p) + ("/" + file) == prefix + "/" + PartitionId(p) + "/" + name + ".parquet";
    SameParts(date, Decimal(p.hour), file);
    SlashesInParts(date, hour, file);
  }

  lemma SameParts(date: string, hour: string, file: string)
    ensures date + ("/event_hour=" + hour + ("/" + file)) == date + ("/" + ("event_hour=" + hour + ("/" + file)))
  {
  }

  lemma SlashesInParts(a: string, b: string, c: string)
    requires '/' !in a && '/' !in b && '/' !in c
    ensures Slashes(a + ("/" + (b + ("/" + c)))) == 2
  {
    SlashesSkip(a, "/" + (b + ("/" + c)));
    assert ("/" + (b + ("/" + c)))[1..] == b + ("/" + c);
    SlashesSkip(b, "/" + c);
    assert ("/" + c)[1..] == c;
    SlashesSkip(c, []);
    assert c + [] == c;
  }

  // ---------- A name that spells another key ----------

  lemma StartsAlready(lead: string, rest: string, head: string)
    requires lead != [] && head != [] && head <= rest && head <= lead + rest
    ensures head <= lead + head[..|head| - 1]
  {
    assert (lead + head[..|head| - 1])[..|head|] == (lead + rest)[..|head|];
  }

  // Nothing matches before the place where rest begins with the head, unless the
  // head occurs earlier, perhaps reaching into that place.
  lemma {:induction false} SearchSkips(prefix: string, lead: string, rest: string)
    requires prefix + DATE <= rest
    requires !Contains(lead + (prefix + DATE)[..|prefix + DATE| - 1], prefix + DATE)
    ensures Search(prefix, lead + rest) == Search(prefix, rest)
  {
    var s, head := lead + rest, prefix + DATE;
    var most := head[..|head| - 1];
    if lead == [] {
      assert s == rest;
    } else {
      if head <= s { StartsAlready(lead, rest, head); }
      assert s[1..] == lead[1..] + rest;
      assert (lead + most)[1..] == lead[1..] + most;
      SearchSkips(prefix, lead[1..], rest);
    }
  }

  lemma DateIsWhole(prefix: string)
    requires prefix != [] && DATE <= prefix + DATE[..|DATE| - 1]
    ensures DATE <= prefix
  {
    var s := prefix + DATE[..|DATE| - 1];
    assert forall k :: 0 < k < |DATE| ==> DATE[k] != '/';
    assert s[|prefix|] == '/' && s[..|DATE|] == DATE;
  }

  lemma NoneInPart()
    ensures !Contains(DATE[..|DATE| - 1], DATE)
  {
    SkipsSlashFree("event_date", "");
    assert DATE[..|DATE| - 1][1..] == "event_date" + "";
  }

  lemma {:induction false} NoStraddle(prefix: string)
    requires !Contains(prefix, DATE)
    ensures !Contains(prefix + DATE[..|DATE| - 1], DATE)
  {
    var s := prefix + DATE[..|DATE| - 1];
    if prefix == [] {
      NoneInPart();
      assert s == DATE[..|DATE| - 1];
    } else {
      NoStraddle(prefix[1..]);
      assert s[1..] == prefix[1..] + DATE[..|DATE| - 1];
      if DATE <= s { DateIsWhole(prefix); }
    }
  }

  // An ordinary prefix, one that does not itself say "/event_date=", occurs with
  // a date only where a key begins.
  lemma PlainPrefixLead(prefix: string, p: PartitionKey)
    requires !Contains(prefix, DATE) && '/' !in p.date
    ensures var lead := (prefix + "/" + PartitionId(p) + "/\n")[1..];
      !Contains(lead + (prefix + DATE)[..|prefix + DATE| - 1], prefix + DATE)
  {
    var most := prefix + DATE[..|DATE| - 1];
    assert (prefix + DATE)[..|prefix + DATE| - 1] == most;
    assert (prefix + "/" + PartitionId(p) + "/\n")[1..] + most == (prefix + "/" + PartitionId(p) + ("/\n" + most))[1..];
    assert ("/\n" + most)[1..] == "\n" + most && ("/\n" + most)[1] == '\n';
    SkipsSlashFree("\n", most);
    NoStraddle(prefix);
    NoLaterHead(prefix, p, "/\n" + most);
  }

  // A name that spells a key of partition q after a newline puts its file in q:
  // in another partition, or for q == p in its own after all.
  lemma NewlineNameParsesElsewhere(tablePrefix: string, p: PartitionKey, q: PartitionKey, other: string)
    requires p.date != [] && '/' !in p.date && q.date != [] && '/' !in q.date
    requires '\n' !in other && !Contains(StripSlashes(tablePrefix), DATE)
    ensures ParsePartition(tablePrefix, ObjectKey(tablePrefix, p, "\n" + ObjectKey(tablePrefix, q, other))) == Some(q)
  {
    var prefix, inner := StripSlashes(tablePrefix), ObjectKey(tablePrefix, q, other);
    var lead := (prefix + "/" + PartitionId(p) + "/\n")[1..];
    var rest := inner + ".parquet";
    assert ("\n" + inner)[0] == '\n';
    ParseUndoesPrint(tablePrefix, p, "\n" + inner);
    NestedKey(prefix + "/" + PartitionId(p), inner);
    PlainPrefixLead(prefix, p);
    InnerKey(prefix, q, other);
    SearchSkips(prefix, lead, rest);
    MatchUndoesPrint(prefix, q, other + ".parquet");
  }

  lemma NestedKey(front: string, inner: string)
    ensures (front + "/" + ("\n" + inner) + ".parquet")[1..] == (front + "/\n")[1..] + (inner + ".parquet")
  {
  }

  lemma InnerKey(prefix: string, q: PartitionKey, other: string)
    requires '\n' !in other
    ensures var rest := prefix + "/" + PartitionId(q) + "/" + other + ".parquet" + ".parquet";
      && prefix + DATE <= rest
      && rest == prefix + "/" + PartitionId(q) + "/" + (other + ".parquet") + ".parquet"
    ensures '\n' !in other + ".parquet"
  {
    var rest := prefix + "/" + PartitionId(q) + "/" + other + ".parquet" + ".parquet";
    assert rest == (prefix + DATE) + (q.date + "/event_hour=" + Decimal(q.hour) + "/" + other + ".parquet" + ".parquet");
  }

  // ---------- Ids and lock keys are injective ----------

  function TrailingDigits(s: string): nat {
    if s == [] || !IsDigit(s[|s| - 1]) then 0 else 1 + TrailingDigits(s[..|s| - 1])
  }

  lemma {:induction false} TrailingDigitsStop(front: string, digits: string)
    requires front != [] && !IsDigit(front[|front| - 1])
    requires AllDigits(digits)
    ensures TrailingDigits(front + digits) == |digits|
  {
    if digits == [] {
      assert front + digits == front;
    } else {
      assert (front + digits)[..|front + digits| - 1] == front + digits[..|digits| - 1];
      TrailingDigitsStop(front, digits[..|digits| - 1]);
    }
  }

  // No two partitions share an id, even when a date holds slashes.
  lemma PartitionIdInjective(p: PartitionKey, q: PartitionKey)
    requires PartitionId(p) == PartitionId(q)
    ensures p == q
  {
    var frontP, frontQ := "event_date=" + p.date + "/event_hour=", "event_date=" + q.date + "/event_hour=";
    TrailingDigitsStop(frontP, Decimal(p.hour));
    TrailingDigitsStop(frontQ, Decimal(q.hour));
    var s := PartitionId(p);
    assert s == frontP + Decimal(p.hour) == frontQ + Decimal(q.hour);
    var k := |s| - |Decimal(p.hour)|;
    Splits(frontP, Decimal(p.hour));
    Splits(frontQ, Decimal(q.hour));
    ParseUndoesDecimal(p.hour);
    ParseUndoesDecimal(q.hour);
    var lo, hi := |"event_date="|, k - |"/event_hour="|;
    assert frontP[lo..hi] == p.date && frontQ[lo..hi] == q.date;
  }

  lemma LockPathIs(base: string, p: PartitionKey)
    requires base == [] || base[|base| - 1] != '/'
    ensures LockFilePath(base, PartitionId(p)) == base + "/" + PartitionId(p) + ".lock"
    ensures LockFilePath(base + "/", PartitionId(p)) == LockFilePath(base, PartitionId(p))
  {
    assert (base + "/")[..|base|] == base;
  }

  // Distinct partitions are locked under distinct keys, however the common
  // base path is spelt.
  lemma LockPathInjective(base: string, p: PartitionKey, q: PartitionKey)
    ensures LockFilePath(base, PartitionId(p)) == LockFilePath(base, PartitionId(q)) <==> p == q
  {
    var s, t := LockFilePath(base, PartitionId(p)), LockFilePath(base, PartitionId(q));
    if s == t {
      var lo, hi := |StripSlashes(base)| + 1, |s| - |".lock"|;
      assert s[lo..hi] == PartitionId(p) && t[lo..hi] == PartitionId(q);
      PartitionIdInjective(p, q);
    }
  }
}
