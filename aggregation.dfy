/** `groupby(['PSP', 'PSPName', 'Jahr']).sum(numeric_only=True)`: one entry per
    key whose amounts are the column sums of the key's rows. The order of the
    groups is not modelled (pandas sorts them; the outer join that consumes
    them sorts again). */
module Aggregation {
  import opened Tables

  /** Amount `c` of an entry; 0 outside its width. */
  function Cell(e: Entry, c: nat): real {
    if c < |e.amounts| then e.amounts[c] else 0.0
  }

  predicate HasWidth(rows: seq<Entry>, w: nat) {
    forall k :: 0 <= k < |rows| ==> |rows[k].amounts| == w
  }

  /** Some row has key `key`. */
  predicate HasKey(rows: seq<Entry>, key: GroupKey) {
    rows != [] && (rows[0].key == key || HasKey(rows[1..], key))
  }

  /** No key occurs twice. */
  predicate UniqueKeys(rows: seq<Entry>) {
    rows == [] || (!HasKey(rows[1..], rows[0].key) && UniqueKeys(rows[1..]))
  }

  lemma {:induction false} HasKeyAt(rows: seq<Entry>, key: GroupKey)
    ensures HasKey(rows, key) <==> exists k :: 0 <= k < |rows| && rows[k].key == key
  {
    if rows != [] {
      HasKeyAt(rows[1..], key);
      if HasKey(rows[1..], key) {
        var k :| 0 <= k < |rows[1..]| && rows[1..][k].key == key;
        assert rows[k + 1].key == key;
      }
      if exists k :: 0 <= k < |rows| && rows[k].key == key {
        var k :| 0 <= k < |rows| && rows[k].key == key;
        if k > 0 { assert rows[1..][k - 1].key == key; }
      }
    }
  }

  lemma {:induction false} UniqueKeysAt(rows: seq<Entry>)
    requires UniqueKeys(rows)
    ensures forall i, j :: 0 <= i < j < |rows| ==> rows[i].key != rows[j].key
  {
    if rows != [] {
      UniqueKeysAt(rows[1..]);
      HasKeyAt(rows[1..], rows[0].key);
      forall i, j | 0 <= i < j < |rows| ensures rows[i].key != rows[j].key {
        assert rows[j] == rows[1..][j - 1];
        if i > 0 { assert rows[i] == rows[1..][i - 1]; }
      }
    }
  }

  /** Sum of amount `c` over the rows with key `key`. */
  function KeySum(rows: seq<Entry>, key: GroupKey, c: nat): real {
    if rows == [] then 0.0
    else (if rows[0].key == key then Cell(rows[0], c) else 0.0) + KeySum(rows[1..], key, c)
  }

  /** Sum of amount `c` over all rows (`df[column].sum()`). */
  function ColumnTotal(rows: seq<Entry>, c: nat): real {
    if rows == [] then 0.0 else Cell(rows[0], c) + ColumnTotal(rows[1..], c)
  }

  /** Element-wise sum of two amount vectors. */
  function AddVec(a: seq<real>, b: seq<real>): (r: seq<real>)
    requires |a| == |b|
    ensures |r| == |a|
    ensures forall k :: 0 <= k < |a| ==> r[k] == a[k] + b[k]
  {
    if a == [] then [] else [a[0] + b[0]] + AddVec(a[1..], b[1..])
  }

  /** Adds one row to the groups: into the group of its key, or as a new group. */
  function AddInto(groups: seq<Entry>, e: Entry): (r: seq<Entry>)
    requires HasWidth(groups, |e.amounts|)
    ensures HasWidth(r, |e.amounts|)
  {
    if groups == [] then [e]
    else if groups[0].key == e.key then [Entry(e.key, AddVec(groups[0].amounts, e.amounts))] + groups[1..]
    else [groups[0]] + AddInto(groups[1..], e)
  }

  /** The aggregation: every row is added into the groups of the rows after it. */
  function GroupSum(rows: seq<Entry>, w: nat): (r: seq<Entry>)
    requires HasWidth(rows, w)
    ensures HasWidth(r, w)
  {
    if rows == [] then [] else AddInto(GroupSum(rows[1..], w), rows[0])
  }

  // ------------------------------------------------------------ AddInto

  lemma {:induction false} AddIntoKeys(groups: seq<Entry>, e: Entry, key: GroupKey)
    requires HasWidth(groups, |e.amounts|)
    ensures HasKey(AddInto(groups, e), key) <==> HasKey(groups, key) || key == e.key
  {
    if groups != [] {
      if groups[0].key == e.key {
        assert AddInto(groups, e)[1..] == groups[1..];
      } else {
        AddIntoKeys(groups[1..], e, key);
        assert AddInto(groups, e)[1..] == AddInto(groups[1..], e);
      }
    }
  }

  lemma {:induction false} AddIntoUnique(groups: seq<Entry>, e: Entry)
    requires HasWidth(groups, |e.amounts|) && UniqueKeys(groups)
    ensures UniqueKeys(AddInto(groups, e))
  {
    if groups != [] {
      if groups[0].key == e.key {
        assert AddInto(groups, e)[1..] == groups[1..];
      } else {
        AddIntoUnique(groups[1..], e);
        AddIntoKeys(groups[1..], e, groups[0].key);
        assert AddInto(groups, e)[1..] == AddInto(groups[1..], e);
      }
    }
  }

  lemma {:induction false} AddIntoKeySum(groups: seq<Entry>, e: Entry, key: GroupKey, c: nat)
    requires HasWidth(groups, |e.amounts|)
    ensures KeySum(AddInto(groups, e), key, c) == KeySum(groups, key, c) + (if e.key == key then Cell(e, c) else 0.0)
  {
    if groups != [] {
      if groups[0].key == e.key {
        assert AddInto(groups, e)[1..] == groups[1..];
      } else {
        AddIntoKeySum(groups[1..], e, key, c);
        assert AddInto(groups, e)[1..] == AddInto(groups[1..], e);
      }
    }
  }

  lemma {:induction false} AddIntoTotal(groups: seq<Entry>, e: Entry, c: nat)
    requires HasWidth(groups, |e.amounts|)
    ensures ColumnTotal(AddInto(groups, e), c) == ColumnTotal(groups, c) + Cell(e, c)
  {
    if groups != [] {
      if groups[0].key == e.key {
        assert AddInto(groups, e)[1..] == groups[1..];
      } else {
        AddIntoTotal(groups[1..], e, c);
        assert AddInto(groups, e)[1..] == AddInto(groups[1..], e);
      }
    }
  }

  // ----------------------------------------------------------- GroupSum

  /** After grouping each key occurs once, and exactly the keys of the rows occur. */
  lemma {:induction false} GroupSumKeys(rows: seq<Entry>, w: nat)
    requires HasWidth(rows, w)
    ensures UniqueKeys(GroupSum(rows, w))
    ensures forall key :: HasKey(GroupSum(rows, w), key) <==> HasKey(rows, key)
  {
    if rows != [] {
      GroupSumKeys(rows[1..], w);
      AddIntoUnique(GroupSum(rows[1..], w), rows[0]);
      forall key ensures HasKey(GroupSum(rows, w), key) <==> HasKey(rows, key) {
        AddIntoKeys(GroupSum(rows[1..], w), rows[0], key);
      }
    }
  }

  /** Grouping keeps every key's column sums. */
  lemma {:induction false} GroupSumKeySum(rows: seq<Entry>, w: nat, key: GroupKey, c: nat)
    requires HasWidth(rows, w)
    ensures KeySum(GroupSum(rows, w), key, c) == KeySum(rows, key, c)
  {
    if rows != [] {
      GroupSumKeySum(rows[1..], w, key, c);
      AddIntoKeySum(GroupSum(rows[1..], w), rows[0], key, c);
    }
  }

  /** Grouping keeps every column's total. */
  lemma {:induction false} GroupSumTotal(rows: seq<Entry>, w: nat, c: nat)
    requires HasWidth(rows, w)
    ensures ColumnTotal(GroupSum(rows, w), c) == ColumnTotal(rows, c)
  {
    if rows != [] {
      GroupSumTotal(rows[1..], w, c);
      AddIntoTotal(GroupSum(rows[1..], w), rows[0], c);
    }
  }

  /** In a table with unique keys, the key sum of a row's key is that row's amount. */
  lemma {:induction false} KeySumUnique(rows: seq<Entry>, i: nat, c: nat)
    requires UniqueKeys(rows) && i < |rows|
    ensures KeySum(rows, rows[i].key, c) == Cell(rows[i], c)
  {
    if i == 0 {
      KeySumAbsent(rows[1..], rows[0].key, c);
    } else {
      assert rows[1..][i - 1] == rows[i];
      HasKeyAt(rows[1..], rows[i].key);
      KeySumUnique(rows[1..], i - 1, c);
    }
  }

  lemma {:induction false} KeySumAbsent(rows: seq<Entry>, key: GroupKey, c: nat)
    requires !HasKey(rows, key)
    ensures KeySum(rows, key, c) == 0.0
  {
    if rows != [] {
      KeySumAbsent(rows[1..], key, c);
    }
  }

  /** The headline: every aggregated entry holds, in each column, the sum of
      that column over the input rows with its key. */
  lemma GroupSumEntries(rows: seq<Entry>, w: nat)
    requires HasWidth(rows, w)
    ensures forall i, j :: 0 <= i < j < |GroupSum(rows, w)| ==> GroupSum(rows, w)[i].key != GroupSum(rows, w)[j].key
    ensures forall i, c :: 0 <= i < |GroupSum(rows, w)| && 0 <= c < w ==>
      GroupSum(rows, w)[i].amounts[c] == KeySum(rows, GroupSum(rows, w)[i].key, c)
  {
    var g := GroupSum(rows, w);
    GroupSumKeys(rows, w);
    UniqueKeysAt(g);
    forall i, c | 0 <= i < |g| && 0 <= c < w ensures g[i].amounts[c] == KeySum(rows, g[i].key, c) {
      KeySumUnique(g, i, c);
      GroupSumKeySum(rows, w, g[i].key, c);
    }
  }

  /** Every aggregated entry has the key of some input row; `k` is one. */
  lemma GroupSumKeyFrom(rows: seq<Entry>, w: nat, i: nat) returns (k: nat)
    requires HasWidth(rows, w) && i < |GroupSum(rows, w)|
    ensures k < |rows| && rows[k].key == GroupSum(rows, w)[i].key
  {
    var key := GroupSum(rows, w)[i].key;
    GroupSumKeys(rows, w);
    HasKeyAt(GroupSum(rows, w), key);
    HasKeyAt(rows, key);
    k :| 0 <= k < |rows| && rows[k].key == key;
  }
}
