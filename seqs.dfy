/** Sequence operations behind the dataframe manipulations: boolean-mask
    selection (`df[mask]`), element-wise `apply`, concatenation of groups,
    distinct values, column sums and "last non-null value". */
module Seqs {
  import opened Wrappers

  // ------------------------------------------------------------- selection

  /** `df[mask]`: the elements satisfying `p`, in their original order. */
  function Filter<T(==)>(s: seq<T>, p: T -> bool): (r: seq<T>)
    ensures |r| <= |s|
    ensures forall k :: 0 <= k < |r| ==> p(r[k]) && r[k] in s
    ensures forall k :: 0 <= k < |s| && p(s[k]) ==> s[k] in r
  {
    if s == [] then []
    else if p(s[0]) then [s[0]] + Filter(s[1..], p)
    else Filter(s[1..], p)
  }

  lemma FilterMembers<T>(s: seq<T>, p: T -> bool, x: T)
    ensures x in Filter(s, p) <==> x in s && p(x)
  {
    if x in Filter(s, p) {
      var k :| 0 <= k < |Filter(s, p)| && Filter(s, p)[k] == x;
    }
    if x in s && p(x) {
      var k :| 0 <= k < |s| && s[k] == x;
    }
  }

  /** Filtering counts each element as often as the sequence holds it, or not at all. */
  lemma {:induction false} FilterCount<T>(s: seq<T>, p: T -> bool, x: T)
    ensures multiset(Filter(s, p))[x] == if p(x) then multiset(s)[x] else 0
  {
    if s != [] {
      FilterCount(s[1..], p, x);
      assert s == [s[0]] + s[1..];
    }
  }

  /** Filtering two permutations of each other gives permutations of each other. */
  lemma FilterMultiset<T>(s: seq<T>, t: seq<T>, p: T -> bool)
    requires multiset(s) == multiset(t)
    ensures multiset(Filter(s, p)) == multiset(Filter(t, p))
  {
    forall x ensures multiset(Filter(s, p))[x] == multiset(Filter(t, p))[x] {
      FilterCount(s, p, x);
      FilterCount(t, p, x);
    }
  }

  /** `~mask`. */
  function Not<T>(p: T -> bool): T -> bool {
    x => !p(x)
  }

  lemma {:induction false} FilterConcat<T>(a: seq<T>, b: seq<T>, p: T -> bool)
    ensures Filter(a + b, p) == Filter(a, p) + Filter(b, p)
  {
    if a == [] {
      assert a + b == b;
    } else {
      assert (a + b)[0] == a[0] && (a + b)[1..] == a[1..] + b;
      FilterConcat(a[1..], b, p);
    }
  }

  lemma {:induction false} FilterAll<T>(s: seq<T>, p: T -> bool)
    requires forall k :: 0 <= k < |s| ==> p(s[k])
    ensures Filter(s, p) == s
  {
    if s != [] {
      FilterAll(s[1..], p);
      assert s == [s[0]] + s[1..];
    }
  }

  lemma {:induction false} FilterNone<T>(s: seq<T>, p: T -> bool)
    requires forall k :: 0 <= k < |s| ==> !p(s[k])
    ensures Filter(s, p) == []
  {
    if s != [] {
      FilterNone(s[1..], p);
    }
  }

  /** Two masks that agree on every element select the same rows. */
  lemma {:induction false} FilterExt<T>(s: seq<T>, p: T -> bool, q: T -> bool)
    requires forall k :: 0 <= k < |s| ==> p(s[k]) == q(s[k])
    ensures Filter(s, p) == Filter(s, q)
  {
    if s != [] {
      FilterExt(s[1..], p, q);
    }
  }

  /** A mask and its complement split the rows without losing or adding any. */
  lemma {:induction false} FilterPartition<T>(s: seq<T>, p: T -> bool)
    ensures multiset(Filter(s, p)) + multiset(Filter(s, Not(p))) == multiset(s)
    ensures |Filter(s, p)| + |Filter(s, Not(p))| == |s|
  {
    if s != [] {
      FilterPartition(s[1..], p);
      assert s == [s[0]] + s[1..];
    }
  }

  /** `b` keeps some of the elements of `a`, in the order they have in `a`. */
  predicate Subsequence<T(==)>(b: seq<T>, a: seq<T>)
    decreases |a|
  {
    if b == [] then true
    else if a == [] then false
    else if b[0] == a[0] then Subsequence(b[1..], a[1..])
    else Subsequence(b, a[1..])
  }

  lemma {:induction false} FilterSubsequence<T>(s: seq<T>, p: T -> bool)
    ensures Subsequence(Filter(s, p), s)
  {
    if s != [] {
      FilterSubsequence(s[1..], p);
      if !p(s[0]) {
        SubsequenceExtend(Filter(s[1..], p), s[1..], s[0]);
        assert [s[0]] + s[1..] == s;
      }
    }
  }

  /** A subsequence stays one when an element is put in front of the sequence. */
  lemma {:induction false} SubsequenceExtend<T>(b: seq<T>, a: seq<T>, x: T)
    requires Subsequence(b, a)
    ensures Subsequence(b, [x] + a)
    decreases |a|, 1
  {
    assert ([x] + a)[1..] == a;
    if b != [] && b[0] == x {
      SubsequenceDropFirst(b, a);
    }
  }

  lemma {:induction false} SubsequenceDropFirst<T>(b: seq<T>, a: seq<T>)
    requires b != [] && Subsequence(b, a)
    ensures Subsequence(b[1..], a)
    decreases |a|, 0
  {
    if a != [] {
      if b[0] == a[0] {
        SubsequenceExtend(b[1..], a[1..], a[0]);
      } else {
        SubsequenceDropFirst(b, a[1..]);
        SubsequenceExtend(b[1..], a[1..], a[0]);
      }
      assert [a[0]] + a[1..] == a;
    }
  }

  // -------------------------------------------------------------- mapping

  /** `apply` of `f` to every element. */
  function Map<T, U>(s: seq<T>, f: T -> U): (r: seq<U>)
    ensures |r| == |s|
    ensures forall k :: 0 <= k < |s| ==> r[k] == f(s[k])
  {
    if s == [] then [] else [f(s[0])] + Map(s[1..], f)
  }

  lemma MapStep<T, U>(s: seq<T>, f: T -> U, i: nat)
    requires i < |s|
    ensures Map(s[..i + 1], f) == Map(s[..i], f) + [f(s[i])]
  {
    assert |Map(s[..i + 1], f)| == |Map(s[..i], f) + [f(s[i])]|;
    forall k | 0 <= k < i + 1 ensures Map(s[..i + 1], f)[k] == (Map(s[..i], f) + [f(s[i])])[k] {
      if k < i {
        assert s[..i + 1][k] == s[..i][k];
      }
    }
  }

  lemma {:induction false} MapConcat<T, U>(a: seq<T>, b: seq<T>, f: T -> U)
    ensures Map(a + b, f) == Map(a, f) + Map(b, f)
  {
    assert |Map(a + b, f)| == |Map(a, f) + Map(b, f)|;
    forall k | 0 <= k < |a + b| ensures Map(a + b, f)[k] == (Map(a, f) + Map(b, f))[k] {
      if k < |a| { assert (a + b)[k] == a[k]; } else { assert (a + b)[k] == b[k - |a|]; }
    }
  }

  /** A position of a member. */
  lemma PositionOf<T>(s: seq<T>, x: T) returns (i: nat)
    requires x in s
    ensures i < |s| && s[i] == x
  {
    i :| 0 <= i < |s| && s[i] == x;
  }

  /** The prefix of the full length is the whole sequence. */
  lemma TakeAll<T>(s: seq<T>)
    ensures s[..|s|] == s
  {
  }

  /** Dropping the last element of `s + [x]` gives back `s`. */
  lemma LastDropped<T>(s: seq<T>, x: T)
    ensures (s + [x])[..|s|] == s
    ensures (s + [x])[|s|] == x
  {
  }

  lemma ConcatAssoc<T>(a: seq<T>, b: seq<T>, c: seq<T>)
    ensures a + b + c == a + (b + c)
  {
  }

  /** What `f` gives each element, concatenated in order. */
  function FlatMap<T, U>(s: seq<T>, f: T -> seq<U>): seq<U> {
    if s == [] then [] else FlatMap(s[..|s| - 1], f) + f(s[|s| - 1])
  }

  lemma FlatMapStep<T, U>(s: seq<T>, f: T -> seq<U>, i: nat)
    requires i < |s|
    ensures FlatMap(s[..i + 1], f) == FlatMap(s[..i], f) + f(s[i])
  {
    assert s[..i + 1][..i] == s[..i];
  }

  lemma {:induction false} FlatMapConcat<T, U>(a: seq<T>, b: seq<T>, f: T -> seq<U>)
    ensures FlatMap(a + b, f) == FlatMap(a, f) + FlatMap(b, f)
    decreases |b|
  {
    if b != [] {
      var init := b[..|b| - 1];
      assert (a + b)[..|a + b| - 1] == a + init;
      assert (a + b)[|a + b| - 1] == b[|b| - 1];
      FlatMapConcat(a, init, f);
    } else {
      assert a + b == a;
    }
  }

  /** Elements that give three values each give them in blocks of three. */
  lemma {:induction false} FlatMapTriples<T, U>(s: seq<T>, f: T -> seq<U>)
    requires forall x :: |f(x)| == 3
    ensures |FlatMap(s, f)| == 3 * |s|
    ensures forall i, d :: 0 <= i < |s| && 0 <= d < 3 ==> FlatMap(s, f)[3 * i + d] == f(s[i])[d]
    decreases |s|
  {
    if s != [] {
      var init := s[..|s| - 1];
      var last := s[|s| - 1];
      FlatMapTriples(init, f);
      var prev := FlatMap(init, f);
      var r := FlatMap(s, f);
      assert r == prev + f(last);
      forall i, d | 0 <= i < |s| && 0 <= d < 3 ensures r[3 * i + d] == f(s[i])[d] {
        if i < |init| {
          assert r[3 * i + d] == prev[3 * i + d];
          assert s[i] == init[i];
        } else {
          assert r[3 * i + d] == f(last)[d];
        }
      }
    }
  }

  /** Elements that give nothing add nothing. */
  lemma {:induction false} FlatMapNone<T, U>(s: seq<T>, f: T -> seq<U>)
    requires forall x :: x in s ==> f(x) == []
    ensures FlatMap(s, f) == []
    decreases |s|
  {
    if s != [] {
      assert s[|s| - 1] in s;
      assert forall x :: x in s[..|s| - 1] ==> x in s;
      FlatMapNone(s[..|s| - 1], f);
    }
  }

  /** Elements that give at most one value each give at most one value apiece. */
  lemma {:induction false} FlatMapAtMostOne<T, U>(s: seq<T>, f: T -> seq<U>)
    requires forall x :: x in s ==> |f(x)| <= 1
    ensures |FlatMap(s, f)| <= |s|
    decreases |s|
  {
    if s != [] {
      assert s[|s| - 1] in s;
      assert forall x :: x in s[..|s| - 1] ==> x in s;
      FlatMapAtMostOne(s[..|s| - 1], f);
    }
  }

  /** A property every element's values have holds of the whole result. */
  lemma {:induction false} FlatMapAll<T, U>(s: seq<T>, f: T -> seq<U>, p: U -> bool)
    requires forall x, y :: x in s && y in f(x) ==> p(y)
    ensures forall k :: 0 <= k < |FlatMap(s, f)| ==> p(FlatMap(s, f)[k])
    decreases |s|
  {
    if s != [] {
      var init := s[..|s| - 1];
      var x := s[|s| - 1];
      assert x in s;
      assert forall z :: z in init ==> z in s;
      FlatMapAll(init, f, p);
      var r := FlatMap(s, f);
      assert r == FlatMap(init, f) + f(x);
      forall k | 0 <= k < |r| ensures p(r[k]) {
        if k < |FlatMap(init, f)| {
          assert r[k] == FlatMap(init, f)[k];
        } else {
          assert r[k] == f(x)[k - |FlatMap(init, f)|];
          assert r[k] in f(x);
        }
      }
    }
  }

  /** Concatenation of a list of groups (`pd.concat`). */
  function Concat<T>(ss: seq<seq<T>>): seq<T> {
    if ss == [] then [] else ss[0] + Concat(ss[1..])
  }

  /** Concatenation of groups of which only the one at `i` is not empty. */
  lemma {:induction false} ConcatSingle<T>(ss: seq<seq<T>>, i: nat)
    requires i < |ss| && forall k :: 0 <= k < |ss| && k != i ==> ss[k] == []
    ensures Concat(ss) == ss[i]
  {
    if i == 0 {
      ConcatEmpty(ss[1..]);
    } else {
      ConcatSingle(ss[1..], i - 1);
    }
  }

  lemma {:induction false} ConcatEmpty<T>(ss: seq<seq<T>>)
    requires forall k :: 0 <= k < |ss| ==> ss[k] == []
    ensures Concat(ss) == []
  {
    if ss != [] { ConcatEmpty(ss[1..]); }
  }

  /** Concatenation of groups keyed by distinct keys, of which only the one
      keyed `p` may hold rows. */
  lemma ConcatPick<T, K>(ss: seq<seq<T>>, keys: seq<K>, p: K, v: seq<T>)
    requires |ss| == |keys|
    requires forall i, j :: 0 <= i < j < |keys| ==> keys[i] != keys[j]
    requires forall k :: 0 <= k < |ss| ==> ss[k] == if keys[k] == p then v else []
    ensures Concat(ss) == if p in keys then v else []
  {
    if p in keys {
      var i :| 0 <= i < |keys| && keys[i] == p;
      ConcatSingle(ss, i);
    } else {
      ConcatEmpty(ss);
    }
  }

  /** `Filter` with a fixed predicate, as a function on sequences. */
  function FilterBy<T(==)>(p: T -> bool): seq<T> -> seq<T> {
    (s: seq<T>) => Filter(s, p)
  }

  lemma {:induction false} FilterOfConcat<T>(ss: seq<seq<T>>, p: T -> bool)
    ensures Filter(Concat(ss), p) == Concat(Map(ss, FilterBy(p)))
  {
    if ss != [] {
      FilterConcat(ss[0], Concat(ss[1..]), p);
      FilterOfConcat(ss[1..], p);
      assert Map(ss, FilterBy(p))[1..] == Map(ss[1..], FilterBy(p));
    }
  }

  /** Filtering groups keyed by distinct keys, of which only the one keyed
      `key` keeps elements under the filter, gives what that group keeps. */
  lemma FilterConcatPick<T, K>(groups: seq<seq<T>>, keys: seq<K>, p: T -> bool, key: K, v: seq<T>)
    requires |groups| == |keys|
    requires forall i, j :: 0 <= i < j < |keys| ==> keys[i] != keys[j]
    requires forall k :: 0 <= k < |groups| ==> Filter(groups[k], p) == if keys[k] == key then v else []
    ensures Filter(Concat(groups), p) == if key in keys then v else []
  {
    FilterOfConcat(groups, p);
    var ss := Map(groups, FilterBy(p));
    forall k | 0 <= k < |ss| ensures ss[k] == if keys[k] == key then v else [] {
      assert ss[k] == Filter(groups[k], p);
    }
    ConcatPick(ss, keys, key, v);
  }

  // ------------------------------------------------------- distinct values

  /** The distinct values of `s` in order of first appearance. */
  function Distinct<T(==)>(s: seq<T>): (r: seq<T>)
    ensures forall k :: 0 <= k < |r| ==> r[k] in s
    ensures forall k :: 0 <= k < |s| ==> s[k] in r
    ensures forall i, j :: 0 <= i < j < |r| ==> r[i] != r[j]
  {
    if s == [] then []
    else
      var rest := Distinct(s[1..]);
      if s[0] in rest then rest
      else [s[0]] + rest
  }

  /** No distinct value means an empty sequence; exactly one means a
      non-empty sequence of equal elements. */
  lemma DistinctCount<T>(s: seq<T>)
    ensures |Distinct(s)| == 0 <==> s == []
    ensures |Distinct(s)| == 1 <==> s != [] && forall k :: 0 <= k < |s| ==> s[k] == s[0]
  {
    var d := Distinct(s);
    if s != [] {
      assert s[0] in d;
      if forall k :: 0 <= k < |s| ==> s[k] == s[0] {
        forall k | 0 <= k < |d| ensures d[k] == s[0] {
          var i :| 0 <= i < |s| && s[i] == d[k];
        }
      }
      if |d| == 1 {
        forall k | 0 <= k < |s| ensures s[k] == s[0] {
          assert s[k] in d && s[0] in d;
        }
      }
    }
  }

  /** The distinct values of `f` over `s` are exactly the values it takes. */
  lemma DistinctMapMembers<T, U>(s: seq<T>, f: T -> U, y: U)
    ensures y in Distinct(Map(s, f)) <==> exists k :: 0 <= k < |s| && f(s[k]) == y
  {
    var m := Map(s, f);
    if y in Distinct(m) {
      var k :| 0 <= k < |m| && m[k] == y;
    }
    if exists k :: 0 <= k < |s| && f(s[k]) == y {
      var k :| 0 <= k < |s| && f(s[k]) == y;
      assert m[k] == y;
    }
  }

  /** A permutation of a sequence without repetitions has none either. */
  lemma DistinctPermutation<T>(d: seq<T>, s: seq<T>)
    requires multiset(s) == multiset(d)
    requires forall i, j :: 0 <= i < j < |d| ==> d[i] != d[j]
    ensures forall i, j :: 0 <= i < j < |s| ==> s[i] != s[j]
  {
    forall x ensures multiset(s)[x] <= 1 {
      UniqueCount(d, x);
    }
    CountOneUnique(s);
  }

  lemma {:induction false} UniqueCount<T>(d: seq<T>, x: T)
    requires forall i, j :: 0 <= i < j < |d| ==> d[i] != d[j]
    ensures multiset(d)[x] <= 1
  {
    if d != [] {
      assert d == [d[0]] + d[1..];
      UniqueCount(d[1..], x);
      if d[0] == x {
        assert x !in d[1..] by {
          forall k | 0 <= k < |d[1..]| ensures d[1..][k] != x {
            assert d[1..][k] == d[k + 1];
          }
        }
      }
    }
  }

  /** A sequence holding every value at most once has no repetitions. */
  lemma {:induction false} CountOneUnique<T>(s: seq<T>)
    requires forall x :: multiset(s)[x] <= 1
    ensures forall i, j :: 0 <= i < j < |s| ==> s[i] != s[j]
  {
    if s != [] {
      var t := s[1..];
      assert s == [s[0]] + t;
      assert multiset(s) == multiset{s[0]} + multiset(t);
      forall x ensures multiset(t)[x] <= 1 {
        assert multiset(t)[x] <= multiset(s)[x];
      }
      CountOneUnique(t);
      assert multiset(s)[s[0]] == 1 + multiset(t)[s[0]];
      assert multiset(s)[s[0]] <= 1;
      assert multiset(t)[s[0]] == 0;
      forall i, j | 0 <= i < j < |s| ensures s[i] != s[j] {
        assert s[j] == t[j - 1];
        if i > 0 {
          assert s[i] == t[i - 1];
        } else {
          assert t[j - 1] in multiset(t);
        }
      }
    }
  }

  // ------------------------------------------------------------------ sums

  /** `sum()` of a numeric column. */
  function Sum(xs: seq<real>): real {
    if xs == [] then 0.0 else xs[0] + Sum(xs[1..])
  }

  lemma {:induction false} SumConcat(a: seq<real>, b: seq<real>)
    ensures Sum(a + b) == Sum(a) + Sum(b)
  {
    if a == [] {
      assert a + b == b;
    } else {
      assert (a + b)[1..] == a[1..] + b;
      SumConcat(a[1..], b);
    }
  }

  /** `sum()` with pandas' `skipna`: undefined cells count as 0. */
  function SumDefined(xs: seq<Option<real>>): real {
    if xs == [] then 0.0 else xs[0].GetOr(0.0) + SumDefined(xs[1..])
  }

  // -------------------------------------------------- last non-null value

  /** `groupby(...).last()` on one column: the last defined value, if any. */
  function LastDefined<T(==)>(xs: seq<Option<T>>): (r: Option<T>)
    ensures r.None? <==> forall k :: 0 <= k < |xs| ==> xs[k].None?
    ensures r.Some? ==> exists k :: 0 <= k < |xs| && xs[k] == r && forall j :: k < j < |xs| ==> xs[j].None?
  {
    if xs == [] then None
    else if xs[|xs| - 1].Some? then xs[|xs| - 1]
    else
      var r := LastDefined(xs[..|xs| - 1]);
      LastOfExtended(xs, r);
      r
  }

  /** The last defined value of all but the last cell is still the last
      defined value once an empty cell is appended. */
  lemma LastOfExtended<T>(xs: seq<Option<T>>, r: Option<T>)
    requires xs != [] && xs[|xs| - 1].None?
    requires var init := xs[..|xs| - 1];
      && (r.None? <==> forall k :: 0 <= k < |init| ==> init[k].None?)
      && (r.Some? ==> exists k :: 0 <= k < |init| && init[k] == r && forall j :: k < j < |init| ==> init[j].None?)
    ensures r.None? <==> forall k :: 0 <= k < |xs| ==> xs[k].None?
    ensures r.Some? ==> exists k :: 0 <= k < |xs| && xs[k] == r && forall j :: k < j < |xs| ==> xs[j].None?
  {
    var init := xs[..|xs| - 1];
    if r.Some? {
      var k :| 0 <= k < |init| && init[k] == r && forall j :: k < j < |init| ==> init[j].None?;
      forall j | k < j < |xs| ensures xs[j].None? {
        if j < |init| {
          assert init[j] == xs[j];
        }
      }
      assert xs[k] == init[k];
      var i :| 0 <= i < |init| && init[i].Some?;
      assert xs[i] == init[i];
    } else {
      forall k | 0 <= k < |xs| ensures xs[k].None? {
        if k < |init| {
          assert init[k] == xs[k];
        }
      }
    }
  }
}
