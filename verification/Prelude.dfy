// Shared vocabulary: optional values, the order on strings, and the unit of time.

module Prelude {

  datatype Option<+T> = None | Some(value: T)

  // All instants and durations are integers counting microseconds, the
  // resolution of a Python datetime.
  const SECOND: int := 1_000_000
  const MINUTE: int := 60 * SECOND

  // Lexicographic order by code point: how Python compares str values and how
  // Spark compares the UTF-8 bytes of a string column.
  predicate StrLe(a: string, b: string) {
    a == [] || (b != [] && (a[0] < b[0] || (a[0] == b[0] && StrLe(a[1..], b[1..]))))
  }

  // a begins b, or is smaller at the first place where they differ.
  lemma {:induction false} StrLeMeaning(a: string, b: string)
    ensures StrLe(a, b) <==> a <= b || exists k :: 0 <= k < |a| && k < |b| && a[..k] == b[..k] && a[k] < b[k]
  {
    if a != [] && b != [] {
      StrLeMeaning(a[1..], b[1..]);
      if k :| 0 <= k < |a[1..]| && k < |b[1..]| && a[1..][..k] == b[1..][..k] && a[1..][k] < b[1..][k] && a[0] == b[0] {
        assert a[..k + 1] == [a[0]] + a[1..][..k] && b[..k + 1] == [b[0]] + b[1..][..k];
      }
      if k :| 0 <= k < |a| && k < |b| && a[..k] == b[..k] && a[k] < b[k] {
        if k > 0 {
          assert a[0] == a[..k][0] == b[..k][0] == b[0];
          assert a[1..][..k - 1] == a[..k][1..] && b[1..][..k - 1] == b[..k][1..];
        } else {
          assert a[..0] == b[..0];
        }
      }
    }
  }

  lemma {:induction false} StrLeTotal(a: string, b: string)
    ensures StrLe(a, b) || StrLe(b, a)
  {
    if a != [] && b != [] {
      StrLeTotal(a[1..], b[1..]);
    }
  }

  lemma {:induction false} StrLeAntisymmetric(a: string, b: string)
    requires StrLe(a, b) && StrLe(b, a)
    ensures a == b
  {
    if a != [] && b != [] {
      StrLeAntisymmetric(a[1..], b[1..]);
      assert a == [a[0]] + a[1..] && b == [b[0]] + b[1..];
    }
  }

  lemma {:induction false} StrLeTransitive(a: string, b: string, c: string)
    requires StrLe(a, b) && StrLe(b, c)
    ensures StrLe(a, c)
  {
    if a != [] && a[0] == b[0] && b[0] == c[0] {
      StrLeTransitive(a[1..], b[1..], c[1..]);
    }
  }

  lemma LastApart<T>(s: seq<T>)
    requires s != []
    ensures s == s[..|s| - 1] + [s[|s| - 1]]
    ensures forall x :: x in s <==> x in s[..|s| - 1] || x == s[|s| - 1]
  {
  }

  predicate StartsWith(s: string, start: string) {
    start <= s
  }

  predicate EndsWith(s: string, end: string) {
    |end| <= |s| && s[|s| - |end|..] == end
  }

  // Python's `piece in s` on strings.
  predicate Contains(s: string, piece: string) {
    piece <= s || (s != [] && Contains(s[1..], piece))
  }

  predicate OccursAt(s: string, piece: string, i: int) {
    0 <= i <= |s| - |piece| && s[i..i + |piece|] == piece
  }

  lemma {:induction false} ContainsMeaning(s: string, piece: string)
    ensures Contains(s, piece) <==> exists i :: OccursAt(s, piece, i)
  {
    if piece <= s {
      assert OccursAt(s, piece, 0);
    } else if s != [] {
      ContainsMeaning(s[1..], piece);
      forall i ensures OccursAt(s, piece, i) <==> OccursAt(s[1..], piece, i - 1) {
        assert i >= 1 && i + |piece| <= |s| ==> s[1..][i - 1..i - 1 + |piece|] == s[i..i + |piece|];
      }
      if i :| OccursAt(s[1..], piece, i) {
        assert OccursAt(s, piece, i + 1);
      }
    }
  }

  // Python's s.rstrip("/").
  function StripSlashes(s: string): (r: string)
    ensures r <= s
    ensures r != [] ==> r[|r| - 1] != '/'
    ensures forall i :: |r| <= i < |s| ==> s[i] == '/'
  {
    if s != [] && s[|s| - 1] == '/' then StripSlashes(s[..|s| - 1]) else s
  }
}
