/** The merges of the consolidation: the inner join of each aggregated table
    with the master data on (PSP, PSPName), and the two outer joins on the
    full key (PSP, PSPName, Status, Projektende, Geldgeber, Jahr), the first
    followed by filling the missing amounts with 0, the second not. pandas
    matches undefined key cells with each other, as `Option` equality does. */
module Joins {
  import opened Wrappers
  import opened Ordering
  import opened Seqs
  import opened Tables

  // ------------------------------------------------------------ inner join

  /** The master rows of an aggregated entry's project (same PSP and PSPName). */
  function MasterOf(e: Entry): Master -> bool {
    (m: Master) => m.psp == e.key.psp && m.name == e.key.name
  }

  /** An aggregated entry completed with the master columns of its project. */
  function WithMaster(e: Entry, m: Master): Keyed {
    Keyed(JoinKey(e.key.psp, e.key.name, m.status, m.ende, m.geldgeber, e.key.jahr), e.amounts)
  }

  function WithMasterOf(e: Entry): Master -> Keyed {
    m => WithMaster(e, m)
  }

  /** An entry with each master row of its project. */
  function Partners(e: Entry, ms: seq<Master>): seq<Keyed> {
    Map(Filter(ms, MasterOf(e)), WithMasterOf(e))
  }

  /** `pd.merge(entries, master, on=['PSP', 'PSPName'])`: every entry once for
      each master row of its project, in the order of the entries. */
  function MasterJoin(es: seq<Entry>, ms: seq<Master>): seq<Keyed> {
    if es == [] then [] else Partners(es[0], ms) + MasterJoin(es[1..], ms)
  }

  lemma PartnersSpec(e: Entry, ms: seq<Master>, x: Keyed)
    ensures x in Partners(e, ms) <==> exists j :: 0 <= j < |ms| && MasterOf(e)(ms[j]) && x == WithMaster(e, ms[j])
  {
    var f := Filter(ms, MasterOf(e));
    if x in Partners(e, ms) {
      var k :| 0 <= k < |f| && Partners(e, ms)[k] == x;
      var j :| 0 <= j < |ms| && ms[j] == f[k];
      assert MasterOf(e)(ms[j]) && x == WithMaster(e, ms[j]);
    }
    if exists j :: 0 <= j < |ms| && MasterOf(e)(ms[j]) && x == WithMaster(e, ms[j]) {
      var j :| 0 <= j < |ms| && MasterOf(e)(ms[j]) && x == WithMaster(e, ms[j]);
      var k :| 0 <= k < |f| && f[k] == ms[j];
      assert Partners(e, ms)[k] == x;
    }
  }

  /** `x` combines an entry of `es` with a master row of the same project. */
  predicate Combines(es: seq<Entry>, ms: seq<Master>, x: Keyed) {
    exists i, j :: 0 <= i < |es| && 0 <= j < |ms| && MasterOf(es[i])(ms[j]) && x == WithMaster(es[i], ms[j])
  }

  /** The combinations of the entries are those of the first entry and those of the rest. */
  lemma CombinesSplit(es: seq<Entry>, ms: seq<Master>, x: Keyed)
    requires es != []
    ensures Combines(es, ms, x) <==>
      (exists j :: 0 <= j < |ms| && MasterOf(es[0])(ms[j]) && x == WithMaster(es[0], ms[j])) || Combines(es[1..], ms, x)
  {
    if Combines(es[1..], ms, x) {
      var i, j :| 0 <= i < |es[1..]| && 0 <= j < |ms| && MasterOf(es[1..][i])(ms[j]) && x == WithMaster(es[1..][i], ms[j]);
      assert es[1..][i] == es[i + 1];
    }
    if Combines(es, ms, x) {
      var i, j :| 0 <= i < |es| && 0 <= j < |ms| && MasterOf(es[i])(ms[j]) && x == WithMaster(es[i], ms[j]);
      if i > 0 {
        assert es[1..][i - 1] == es[i];
      }
    }
  }

  /** The inner join holds exactly the combinations of an entry with a master
      row of the same project; an entry without master data is dropped. */
  lemma {:induction false} MasterJoinSpec(es: seq<Entry>, ms: seq<Master>, x: Keyed)
    ensures x in MasterJoin(es, ms) <==> Combines(es, ms, x)
  {
    if es != [] {
      MasterJoinSpec(es[1..], ms, x);
      PartnersSpec(es[0], ms, x);
      CombinesSplit(es, ms, x);
    }
  }

  /** The inner join keeps the amounts of the entries, so their width. */
  lemma MasterJoinWidths(es: seq<Entry>, ms: seq<Master>, w: nat)
    requires forall k :: 0 <= k < |es| ==> |es[k].amounts| == w
    ensures Widths(MasterJoin(es, ms), w)
  {
    var mj := MasterJoin(es, ms);
    forall k | 0 <= k < |mj| ensures |mj[k].amounts| == w {
      MasterJoinSpec(es, ms, mj[k]);
    }
  }

  // ------------------------------------------------------------ outer join

  /** A row of an outer join: matched on both sides, or present on one side only. */
  datatype Joined<L, R> = Both(l: L, r: R) | LeftOnly(l: L) | RightOnly(r: R)

  function KeyIs<T, K(==)>(key: T -> K, k: K): T -> bool {
    x => key(x) == k
  }

  function KeyNotIn<T, K(==)>(key: T -> K, ks: seq<K>): T -> bool {
    x => key(x) !in ks
  }

  function BothWith<L, R>(l: L): R -> Joined<L, R> {
    r => Both(l, r)
  }

  function RightOnlyOf<L, R>(): R -> Joined<L, R> {
    r => RightOnly(r)
  }

  /** The joined rows of the left side: each left row with each partner, or alone. */
  function LeftPart<L, R(==), K(==)>(left: seq<L>, right: seq<R>, lk: L -> K, rk: R -> K): seq<Joined<L, R>> {
    if left == [] then []
    else
      var ps := Filter(right, KeyIs(rk, lk(left[0])));
      (if ps == [] then [LeftOnly(left[0])] else Map(ps, BothWith(left[0]))) + LeftPart(left[1..], right, lk, rk)
  }

  /** `pd.merge(left, right, how='outer', on=key)` before pandas sorts it: the
      left part, then the right rows without a partner. */
  function OuterJoin<L, R(==), K(==)>(left: seq<L>, right: seq<R>, lk: L -> K, rk: R -> K): seq<Joined<L, R>> {
    LeftPart(left, right, lk, rk) + Map(Filter(right, KeyNotIn(rk, Map(left, lk))), RightOnlyOf())
  }

  /** What a joined row may be: a matching pair, or a row whose key the
      other side lacks. */
  ghost predicate JoinedRow<L, R, K>(j: Joined<L, R>, left: seq<L>, right: seq<R>, lk: L -> K, rk: R -> K) {
    match j
    case Both(l, r) => l in left && r in right && lk(l) == rk(r)
    case LeftOnly(l) => l in left && lk(l) !in Map(right, rk)
    case RightOnly(r) => r in right && rk(r) !in Map(left, lk)
  }

  lemma {:induction false} LeftPartRows<L, R, K>(left: seq<L>, right: seq<R>, lk: L -> K, rk: R -> K)
    ensures forall k :: 0 <= k < |LeftPart(left, right, lk, rk)| ==>
      !LeftPart(left, right, lk, rk)[k].RightOnly? && JoinedRow(LeftPart(left, right, lk, rk)[k], left, right, lk, rk)
  {
    if left != [] {
      var lp := LeftPart(left, right, lk, rk);
      var ps := Filter(right, KeyIs(rk, lk(left[0])));
      var head := if ps == [] then [LeftOnly(left[0])] else Map(ps, BothWith(left[0]));
      var tail := LeftPart(left[1..], right, lk, rk);
      LeftPartRows(left[1..], right, lk, rk);
      assert lp == head + tail;
      forall k | 0 <= k < |lp| ensures !lp[k].RightOnly? && JoinedRow(lp[k], left, right, lk, rk) {
        if k < |head| {
          if ps == [] {
            forall m | 0 <= m < |right| ensures Map(right, rk)[m] != lk(left[0]) {
              assert !KeyIs(rk, lk(left[0]))(right[m]);
            }
          } else {
            assert lp[k] == Both(left[0], ps[k]);
          }
        } else {
          var t := tail[k - |head|];
          assert lp[k] == t;
          var m :| 0 <= m < |left[1..]| && left[1..][m] == t.l;
          assert left[m + 1] == t.l;
        }
      }
    }
  }

  /** Every row of an outer join is a matching pair or a row the other side
      has no partner for. */
  lemma OuterJoinRows<L, R, K>(left: seq<L>, right: seq<R>, lk: L -> K, rk: R -> K)
    ensures forall k :: 0 <= k < |OuterJoin(left, right, lk, rk)| ==> JoinedRow(OuterJoin(left, right, lk, rk)[k], left, right, lk, rk)
  {
    var lp := LeftPart(left, right, lk, rk);
    var ro := Map(Filter(right, KeyNotIn(rk, Map(left, lk))), RightOnlyOf<L, R>());
    LeftPartRows(left, right, lk, rk);
    forall k | 0 <= k < |OuterJoin(left, right, lk, rk)| ensures JoinedRow(OuterJoin(left, right, lk, rk)[k], left, right, lk, rk) {
      if k >= |lp| {
        assert OuterJoin(left, right, lk, rk)[k] == ro[k - |lp|];
      }
    }
  }

  /** Nothing is lost: every left row occurs in the join, and so does every right row. */
  lemma {:induction false} LeftPartCovers<L, R, K>(left: seq<L>, right: seq<R>, lk: L -> K, rk: R -> K, i: nat)
    requires i < |left|
    ensures exists k :: 0 <= k < |LeftPart(left, right, lk, rk)| && !LeftPart(left, right, lk, rk)[k].RightOnly?
                        && LeftPart(left, right, lk, rk)[k].l == left[i]
  {
    var lp := LeftPart(left, right, lk, rk);
    var ps := Filter(right, KeyIs(rk, lk(left[0])));
    var head := if ps == [] then [LeftOnly(left[0])] else Map(ps, BothWith(left[0]));
    var tail := LeftPart(left[1..], right, lk, rk);
    assert lp == head + tail;
    if i == 0 {
      assert lp[0] == head[0];
    } else {
      LeftPartCovers(left[1..], right, lk, rk, i - 1);
      var k :| 0 <= k < |tail| && !tail[k].RightOnly? && tail[k].l == left[1..][i - 1];
      assert lp[|head| + k] == tail[k];
    }
  }

  lemma LeftPartHasBoth<L, R, K>(left: seq<L>, right: seq<R>, lk: L -> K, rk: R -> K, i: nat, j: nat)
    requires i < |left| && j < |right| && lk(left[i]) == rk(right[j])
    ensures Both(left[i], right[j]) in LeftPart(left, right, lk, rk)
    decreases i
  {
    var lp := LeftPart(left, right, lk, rk);
    var ps := Filter(right, KeyIs(rk, lk(left[0])));
    var head := if ps == [] then [LeftOnly(left[0])] else Map(ps, BothWith(left[0]));
    var tail := LeftPart(left[1..], right, lk, rk);
    assert lp == head + tail;
    if i == 0 {
      assert KeyIs(rk, lk(left[0]))(right[j]);
      var k :| 0 <= k < |ps| && ps[k] == right[j];
      assert head[k] == Both(left[0], right[j]);
    } else {
      LeftPartHasBoth(left[1..], right, lk, rk, i - 1, j);
      assert left[1..][i - 1] == left[i];
    }
  }

  /** Every matching pair of rows occurs in the outer join, and every right row
      without a partner occurs alone. */
  lemma OuterJoinCovers<L, R, K>(left: seq<L>, right: seq<R>, lk: L -> K, rk: R -> K)
    ensures forall i, j :: 0 <= i < |left| && 0 <= j < |right| && lk(left[i]) == rk(right[j]) ==>
      Both(left[i], right[j]) in OuterJoin(left, right, lk, rk)
    ensures forall j :: 0 <= j < |right| && rk(right[j]) !in Map(left, lk) ==>
      RightOnly(right[j]) in OuterJoin(left, right, lk, rk)
    ensures forall i :: 0 <= i < |left| && lk(left[i]) !in Map(right, rk) ==>
      LeftOnly(left[i]) in OuterJoin(left, right, lk, rk)
  {
    var lp := LeftPart(left, right, lk, rk);
    var f := Filter(right, KeyNotIn(rk, Map(left, lk)));
    var ro := Map(f, RightOnlyOf<L, R>());
    assert OuterJoin(left, right, lk, rk) == lp + ro;
    forall i, j | 0 <= i < |left| && 0 <= j < |right| && lk(left[i]) == rk(right[j])
      ensures Both(left[i], right[j]) in OuterJoin(left, right, lk, rk)
    {
      LeftPartHasBoth(left, right, lk, rk, i, j);
    }
    forall j | 0 <= j < |right| && rk(right[j]) !in Map(left, lk)
      ensures RightOnly(right[j]) in OuterJoin(left, right, lk, rk)
    {
      assert KeyNotIn(rk, Map(left, lk))(right[j]);
      var k :| 0 <= k < |f| && f[k] == right[j];
      assert ro[k] == RightOnly(right[j]);
    }
    forall i | 0 <= i < |left| && lk(left[i]) !in Map(right, rk)
      ensures LeftOnly(left[i]) in OuterJoin(left, right, lk, rk)
    {
      LeftPartCovers(left, right, lk, rk, i);
      LeftPartRows(left, right, lk, rk);
      var k :| 0 <= k < |lp| && !lp[k].RightOnly? && lp[k].l == left[i];
      assert lp[k] == LeftOnly(left[i]);
    }
  }

  // ------------------------------------------- budget with commitments

  function KeyOf(x: Keyed): JoinKey {
    x.key
  }

  function Zeros(n: nat): (r: seq<real>)
    ensures |r| == n && forall k :: 0 <= k < n ==> r[k] == 0.0
  {
    if n == 0 then [] else [0.0] + Zeros(n - 1)
  }

  /** `fillna(0)` on the amounts of one row of the budget/commitments join:
      Budgetrest, Originalbudget, Sonstige Zuweisungen, Festlegungen. */
  function FillBo(j: Joined<Keyed, Keyed>): Keyed {
    match j
    case Both(b, o) => Keyed(b.key, b.amounts + o.amounts)
    case LeftOnly(b) => Keyed(b.key, b.amounts + Zeros(ObligoWidth))
    case RightOnly(o) => Keyed(o.key, Zeros(BudgetWidth) + o.amounts)
  }

  /** The budget/commitments table: outer join on the full key, amounts filled with 0. */
  function BudgetObligo(budget: seq<Keyed>, obligo: seq<Keyed>): seq<Keyed> {
    Map(OuterJoin(budget, obligo, KeyOf, KeyOf), FillBo)
  }

  predicate Widths(rows: seq<Keyed>, w: nat) {
    forall k :: 0 <= k < |rows| ==> |rows[k].amounts| == w
  }

  /** One filled row of the first outer join. */
  lemma FillBoRow(budget: seq<Keyed>, obligo: seq<Keyed>, j: Joined<Keyed, Keyed>)
    requires Widths(budget, BudgetWidth) && Widths(obligo, ObligoWidth)
    requires JoinedRow(j, budget, obligo, KeyOf, KeyOf)
    ensures var x := FillBo(j);
      && |x.amounts| == BudgetWidth + ObligoWidth
      && (x.key !in Map(obligo, KeyOf) ==> x.amounts[3] == 0.0)
      && (x.key !in Map(budget, KeyOf) ==> x.amounts[..3] == [0.0, 0.0, 0.0])
      && (x.key in Map(budget, KeyOf) || x.key in Map(obligo, KeyOf))
  {
    match j
    case Both(b, o) =>
      var i :| 0 <= i < |budget| && budget[i] == b;
      var m :| 0 <= m < |obligo| && obligo[m] == o;
      assert Map(budget, KeyOf)[i] == b.key && Map(obligo, KeyOf)[m] == b.key;
    case LeftOnly(b) =>
      var i :| 0 <= i < |budget| && budget[i] == b;
      assert Map(budget, KeyOf)[i] == b.key;
    case RightOnly(o) =>
      var m :| 0 <= m < |obligo| && obligo[m] == o;
      assert Map(obligo, KeyOf)[m] == o.key;
      assert (Zeros(BudgetWidth) + o.amounts)[..3] == Zeros(3);
  }

  /** After the first outer join every row has the four amounts; those of a
      side without a row for its key are 0, the others are that side's. */
  lemma BudgetObligoFilled(budget: seq<Keyed>, obligo: seq<Keyed>)
    requires Widths(budget, BudgetWidth) && Widths(obligo, ObligoWidth)
    ensures Widths(BudgetObligo(budget, obligo), BudgetWidth + ObligoWidth)
    ensures forall k :: 0 <= k < |BudgetObligo(budget, obligo)| ==>
      var x := BudgetObligo(budget, obligo)[k];
      && (x.key !in Map(obligo, KeyOf) ==> x.amounts[3] == 0.0)
      && (x.key !in Map(budget, KeyOf) ==> x.amounts[..3] == [0.0, 0.0, 0.0])
      && (x.key in Map(budget, KeyOf) || x.key in Map(obligo, KeyOf))
  {
    var js := OuterJoin(budget, obligo, KeyOf, KeyOf);
    OuterJoinRows(budget, obligo, KeyOf, KeyOf);
    forall k | 0 <= k < |js| {
      FillBoRow(budget, obligo, js[k]);
    }
  }

  // ------------------------------------------------- with the balances

  /** One row of the second outer join, without filling. */
  function ToMerged(j: Joined<Keyed, Keyed>): Merged {
    match j
    case Both(bo, k) => Merged(bo.key, Some(bo.amounts), Some(k.amounts))
    case LeftOnly(bo) => Merged(bo.key, Some(bo.amounts), None)
    case RightOnly(k) => Merged(k.key, None, Some(k.amounts))
  }

  function KeyPartOf(c: Option<string>): KeyPart {
    if c.Some? then KStr(c.value) else KMissing
  }

  /** The order pandas gives the result of an outer join: by the join key,
      column by column, undefined cells last. */
  function JoinSortKey(m: Merged): SortKey {
    [KStr(m.key.psp), KStr(m.key.name), KeyPartOf(m.key.status), KeyPartOf(m.key.ende),
     KeyPartOf(m.key.geldgeber), KStr(m.key.jahr)]
  }

  /** The consolidated table before the per-project steps. */
  function BudgetKst(bo: seq<Keyed>, kst: seq<Keyed>): seq<Merged> {
    SortBy(Map(OuterJoin(bo, kst, KeyOf, KeyOf), ToMerged), JoinSortKey)
  }

  /** After the second outer join the balance amounts are undefined exactly on
      the rows whose key has no balance row, and the budget/commitment amounts
      exactly on the rows whose key has no budget/commitment row. */
  lemma BudgetKstUndefined(bo: seq<Keyed>, kst: seq<Keyed>, x: Merged)
    requires x in BudgetKst(bo, kst)
    ensures x.kst.None? <==> x.key !in Map(kst, KeyOf)
    ensures x.bo.None? <==> x.key !in Map(bo, KeyOf)
    ensures x.kst.Some? ==> exists k :: 0 <= k < |kst| && kst[k] == Keyed(x.key, x.kst.value)
    ensures x.bo.Some? ==> exists k :: 0 <= k < |bo| && bo[k] == Keyed(x.key, x.bo.value)
  {
    var js := OuterJoin(bo, kst, KeyOf, KeyOf);
    SortByMembers(Map(js, ToMerged), JoinSortKey, x);
    var n :| 0 <= n < |js| && Map(js, ToMerged)[n] == x;
    OuterJoinRows(bo, kst, KeyOf, KeyOf);
    assert JoinedRow(js[n], bo, kst, KeyOf, KeyOf);
    match js[n]
    case Both(b, k) =>
      var i :| 0 <= i < |bo| && bo[i] == b;
      var m :| 0 <= m < |kst| && kst[m] == k;
      assert Map(bo, KeyOf)[i] == b.key && Map(kst, KeyOf)[m] == b.key;
    case LeftOnly(b) =>
      var i :| 0 <= i < |bo| && bo[i] == b;
      assert Map(bo, KeyOf)[i] == b.key;
    case RightOnly(k) =>
      var m :| 0 <= m < |kst| && kst[m] == k;
      assert Map(kst, KeyOf)[m] == k.key;
  }

  /** Every row of the second outer join comes from a joined pair or a row
      of one side, so it has at least one of the two blocks. */
  lemma BudgetKstSomeBlock(bo: seq<Keyed>, kst: seq<Keyed>, x: Merged)
    requires x in BudgetKst(bo, kst)
    ensures x.bo.Some? || x.kst.Some?
  {
    var js := OuterJoin(bo, kst, KeyOf, KeyOf);
    var ms := Map(js, ToMerged);
    SortByMembers(ms, JoinSortKey, x);
    var n :| 0 <= n < |ms| && ms[n] == x;
    ToMergedSomeBlock(js[n]);
  }

  lemma ToMergedSomeBlock(j: Joined<Keyed, Keyed>)
    ensures ToMerged(j).bo.Some? || ToMerged(j).kst.Some?
  {
  }

  /** Every row of the second outer join has at least one of the two blocks,
      each of the width of its table. */
  lemma BudgetKstShape(bo: seq<Keyed>, kst: seq<Keyed>, x: Merged)
    requires Widths(bo, BudgetWidth + ObligoWidth) && Widths(kst, KstWidth)
    requires x in BudgetKst(bo, kst)
    ensures x.bo.Some? || x.kst.Some?
    ensures x.bo.Some? ==> |x.bo.value| == BudgetWidth + ObligoWidth
    ensures x.kst.Some? ==> |x.kst.value| == KstWidth
  {
    BudgetKstSomeBlock(bo, kst, x);
    BudgetKstUndefined(bo, kst, x);
    if x.bo.Some? {
      var k :| 0 <= k < |bo| && bo[k] == Keyed(x.key, x.bo.value);
    }
    if x.kst.Some? {
      var k :| 0 <= k < |kst| && kst[k] == Keyed(x.key, x.kst.value);
    }
  }
}
