/** Orderings used by the core: Python's string comparison (by code point),
    chronological order of dates, and the lexicographic multi-column sort keys
    of `sort_values` and of pandas' outer join, where an undefined cell sorts
    last. `SortBy` is a sort specified by "sorted and a permutation". */
module Ordering {
  import opened Dates

  datatype Ord = Less | Equal | Greater

  function Flip(o: Ord): Ord {
    match o
    case Less => Greater
    case Equal => Equal
    case Greater => Less
  }

  function IntCmp(a: int, b: int): Ord {
    if a < b then Less else if a == b then Equal else Greater
  }

  // ------------------------------------------------------------------ strings

  /** Python's `a < b` / `a == b` / `a > b` on strings. */
  function StrCmp(a: string, b: string): Ord
    decreases |a|
  {
    if a == [] then (if b == [] then Equal else Less)
    else if b == [] then Greater
    else if a[0] < b[0] then Less
    else if a[0] > b[0] then Greater
    else StrCmp(a[1..], b[1..])
  }

  lemma {:induction false} StrCmpEqual(a: string, b: string)
    ensures StrCmp(a, b) == Equal <==> a == b
    decreases |a|
  {
    if a != [] && b != [] && a[0] == b[0] {
      StrCmpEqual(a[1..], b[1..]);
      assert a == [a[0]] + a[1..] && b == [b[0]] + b[1..];
    }
  }

  lemma {:induction false} StrCmpFlip(a: string, b: string)
    ensures StrCmp(b, a) == Flip(StrCmp(a, b))
    decreases |a|
  {
    if a != [] && b != [] && a[0] == b[0] {
      StrCmpFlip(a[1..], b[1..]);
    }
  }

  lemma {:induction false} StrCmpTrans(a: string, b: string, c: string)
    requires StrCmp(a, b) != Greater && StrCmp(b, c) != Greater
    ensures StrCmp(a, c) != Greater
    ensures StrCmp(a, b) == Less || StrCmp(b, c) == Less ==> StrCmp(a, c) == Less
    decreases |a|
  {
    if a != [] && b != [] && c != [] && a[0] == b[0] && b[0] == c[0] {
      StrCmpTrans(a[1..], b[1..], c[1..]);
    }
  }

  predicate StrLe(a: string, b: string) {
    StrCmp(a, b) != Greater
  }

  /** `max()` of a non-empty column of strings. */
  function MaxStr(xs: seq<string>): (r: string)
    requires |xs| > 0
    ensures r in xs
    ensures forall k :: 0 <= k < |xs| ==> StrLe(xs[k], r)
  {
    if |xs| == 1 then
      StrCmpEqual(xs[0], xs[0]);
      xs[0]
    else
      var m := MaxStr(xs[1..]);
      if StrCmp(xs[0], m) == Greater then
        StrCmpFlip(xs[0], m);
        forall k | 1 <= k < |xs| ensures StrLe(xs[k], xs[0]) {
          assert xs[k] == xs[1..][k - 1];
          StrCmpTrans(xs[k], m, xs[0]);
        }
        StrCmpEqual(xs[0], xs[0]);
        xs[0]
      else
        assert forall k :: 1 <= k < |xs| ==> xs[k] == xs[1..][k - 1];
        m
  }

  // -------------------------------------------------------------------- dates

  function DateCmp(a: Date, b: Date): Ord {
    if a.year != b.year then IntCmp(a.year, b.year)
    else if a.month != b.month then IntCmp(a.month, b.month)
    else IntCmp(a.day, b.day)
  }

  lemma DateCmpBefore(a: Date, b: Date)
    ensures DateCmp(a, b) == Less <==> Before(a, b)
    ensures DateCmp(a, b) == Equal <==> a == b
  {
  }

  // ---------------------------------------------------------------- sort keys

  /** One column of a sort key: text, a date, or an undefined cell (NaN, NaT). */
  datatype KeyPart = KStr(s: string) | KDate(d: Date) | KMissing

  function Rank(p: KeyPart): int {
    match p
    case KStr(_) => 0
    case KDate(_) => 1
    case KMissing => 2
  }

  /** Column order; undefined cells come after every defined one (`na_position='last'`). */
  function PartCmp(a: KeyPart, b: KeyPart): Ord {
    if Rank(a) != Rank(b) then IntCmp(Rank(a), Rank(b))
    else match a
      case KStr(x) => StrCmp(x, b.s)
      case KDate(x) => DateCmp(x, b.d)
      case KMissing => Equal
  }

  lemma PartCmpEqual(a: KeyPart, b: KeyPart)
    ensures PartCmp(a, b) == Equal <==> a == b
  {
    if a.KStr? && b.KStr? { StrCmpEqual(a.s, b.s); }
  }

  lemma PartCmpFlip(a: KeyPart, b: KeyPart)
    ensures PartCmp(b, a) == Flip(PartCmp(a, b))
  {
    if a.KStr? && b.KStr? { StrCmpFlip(a.s, b.s); }
  }

  lemma PartCmpTrans(a: KeyPart, b: KeyPart, c: KeyPart)
    requires PartCmp(a, b) != Greater && PartCmp(b, c) != Greater
    ensures PartCmp(a, c) != Greater
    ensures PartCmp(a, b) == Less || PartCmp(b, c) == Less ==> PartCmp(a, c) == Less
  {
    if a.KStr? && b.KStr? && c.KStr? { StrCmpTrans(a.s, b.s, c.s); }
  }

  /** A row's position in a multi-column sort: its columns in priority order. */
  type SortKey = seq<KeyPart>

  function KeyCmp(a: SortKey, b: SortKey): Ord
    decreases |a|
  {
    if a == [] then (if b == [] then Equal else Less)
    else if b == [] then Greater
    else if PartCmp(a[0], b[0]) != Equal then PartCmp(a[0], b[0])
    else KeyCmp(a[1..], b[1..])
  }

  predicate KeyLe(a: SortKey, b: SortKey) {
    KeyCmp(a, b) != Greater
  }

  lemma {:induction false} KeyCmpEqual(a: SortKey, b: SortKey)
    ensures KeyCmp(a, b) == Equal <==> a == b
    decreases |a|
  {
    if a != [] && b != [] {
      PartCmpEqual(a[0], b[0]);
      if a[0] == b[0] {
        KeyCmpEqual(a[1..], b[1..]);
        assert a == [a[0]] + a[1..] && b == [b[0]] + b[1..];
      }
    }
  }

  lemma {:induction false} KeyCmpFlip(a: SortKey, b: SortKey)
    ensures KeyCmp(b, a) == Flip(KeyCmp(a, b))
    decreases |a|
  {
    if a != [] && b != [] {
      PartCmpFlip(a[0], b[0]);
      if PartCmp(a[0], b[0]) == Equal {
        KeyCmpFlip(a[1..], b[1..]);
      }
    }
  }

  lemma {:induction false} KeyCmpTrans(a: SortKey, b: SortKey, c: SortKey)
    requires KeyLe(a, b) && KeyLe(b, c)
    ensures KeyLe(a, c)
    ensures KeyCmp(a, b) == Less || KeyCmp(b, c) == Less ==> KeyCmp(a, c) == Less
    decreases |a|
  {
    if a != [] && b != [] && c != [] {
      PartCmpTrans(a[0], b[0], c[0]);
      PartCmpEqual(a[0], b[0]);
      PartCmpEqual(b[0], c[0]);
      if PartCmp(a[0], b[0]) == Equal && PartCmp(b[0], c[0]) == Equal {
        KeyCmpTrans(a[1..], b[1..], c[1..]);
      }
    }
  }

  /** Two keys that agree on a common prefix compare like their remainders. */
  lemma {:induction false} KeyCmpCommonPrefix(p: SortKey, a: SortKey, b: SortKey)
    ensures KeyCmp(p + a, p + b) == KeyCmp(a, b)
    decreases |p|
  {
    if p != [] {
      PartCmpEqual(p[0], p[0]);
      assert (p + a)[0] == p[0] && (p + b)[0] == p[0];
      assert (p + a)[1..] == p[1..] + a && (p + b)[1..] == p[1..] + b;
      KeyCmpCommonPrefix(p[1..], a, b);
    } else {
      assert p + a == a && p + b == b;
    }
  }

  // ------------------------------------------------------------------ sorting

  /** `s` is in ascending order of `key`. */
  predicate SortedBy<T>(s: seq<T>, key: T -> SortKey) {
    forall i, j :: 0 <= i < j < |s| ==> KeyLe(key(s[i]), key(s[j]))
  }

  /** Inserts `x` into a sorted sequence, before the first strictly larger element. */
  function InsertBy<T>(x: T, s: seq<T>, key: T -> SortKey): (r: seq<T>)
    requires SortedBy(s, key)
    ensures SortedBy(r, key)
    ensures multiset(r) == multiset(s) + multiset{x}
  {
    if s == [] then [x]
    else if KeyCmp(key(x), key(s[0])) == Less then
      forall j | 0 <= j < |s| ensures KeyLe(key(x), key(s[j])) {
        if j > 0 { KeyCmpTrans(key(x), key(s[0]), key(s[j])); }
      }
      [x] + s
    else
      assert SortedBy(s[1..], key) by {
        forall i, j | 0 <= i < j < |s[1..]| ensures KeyLe(key(s[1..][i]), key(s[1..][j])) {
          assert s[1..][i] == s[i + 1] && s[1..][j] == s[j + 1];
        }
      }
      var rest := InsertBy(x, s[1..], key);
      KeyCmpFlip(key(x), key(s[0]));
      forall j | 0 <= j < |rest| ensures KeyLe(key(s[0]), key(rest[j])) {
        assert rest[j] in multiset(rest);
        if rest[j] != x {
          assert rest[j] in multiset(s[1..]);
          var k :| 0 <= k < |s[1..]| && s[1..][k] == rest[j];
          assert s[k + 1] == rest[j];
        }
      }
      assert s == [s[0]] + s[1..];
      [s[0]] + rest
  }

  /** A sort on `key`: the result is in ascending order and a permutation of `s`
      (ties in any order, as with the default, unstable `sort_values`). */
  function SortBy<T>(s: seq<T>, key: T -> SortKey): (r: seq<T>)
    ensures SortedBy(r, key)
    ensures multiset(r) == multiset(s)
  {
    if s == [] then []
    else
      assert s == s[..|s| - 1] + [s[|s| - 1]];
      InsertBy(s[|s| - 1], SortBy(s[..|s| - 1], key), key)
  }

  lemma SortByLength<T>(s: seq<T>, key: T -> SortKey)
    ensures |SortBy(s, key)| == |s|
  {
    assert |multiset(SortBy(s, key))| == |multiset(s)|;
  }

  lemma SortByMembers<T>(s: seq<T>, key: T -> SortKey, x: T)
    ensures x in SortBy(s, key) <==> x in s
  {
    assert x in SortBy(s, key) <==> x in multiset(SortBy(s, key));
    assert x in s <==> x in multiset(s);
  }
}
