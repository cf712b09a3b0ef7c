/** The first outer join of the consolidation fills the whole joined table
    with 0, key columns included: a project whose master data leaves Status,
    Projektende or Geldgeber empty gets the text "0" in that cell on its
    budget/commitment rows, while its balance rows keep the empty cell. The
    second outer join, on the full key, then no longer pairs the two, and the
    project shows up twice for the same year, each time with one block
    missing. The rest of the model fills only the amounts (`Joins.BudgetObligo`);
    this module states both sides, and also that, as written, an empty
    Projektende filled with "0" makes the date conversion of the column
    fail. */
module Findings {
  import opened Wrappers
  import opened Seqs
  import opened Tables
  import opened Ordering
  import opened Joins
  import Text
  import Pipeline

  /** `fillna(0)` on a key cell: an empty cell becomes "0". */
  function FillCell(c: Option<string>): (r: Option<string>)
    ensures r.Some?
    ensures c.Some? ==> r == c
    ensures c.None? ==> r == Some("0")
  {
    if c.Some? then c else Some("0")
  }

  /** `fillna(0)` on the key of a joined row. */
  function FillKeyCells(x: Keyed): Keyed {
    Keyed(JoinKey(x.key.psp, x.key.name, FillCell(x.key.status), FillCell(x.key.ende),
                  FillCell(x.key.geldgeber), x.key.jahr), x.amounts)
  }

  /** The first outer join as written: amounts and key cells filled. */
  function BudgetObligoAsWritten(budget: seq<Keyed>, obligo: seq<Keyed>): (r: seq<Keyed>)
    ensures |r| == |BudgetObligo(budget, obligo)|
    ensures forall k :: 0 <= k < |r| ==>
      r[k].key.status.Some? && r[k].key.ende.Some? && r[k].key.geldgeber.Some?
  {
    Map(BudgetObligo(budget, obligo), FillKeyCells)
  }

  // ----------------------------------------------------- the counterexample

  /** A project of 2024 whose master data has no Status. */
  const NoStatus := JoinKey("ABC12-0001", "Projekt", None, Some("31.12.2025"), Some("DFG"), "2024")

  const BudgetRow := Keyed(NoStatus, [1000.0, 0.0, 0.0])
  const KstRow := Keyed(NoStatus, [0.0, 0.0, 0.0, -200.0, 800.0])

  /** As written, the project's budget row and balance row for 2024 are not
      joined: the consolidated table holds two rows for it, one without the
      balances and one without the budget. */
  lemma FillnaSplitsProject()
    ensures var ms := BudgetKst(BudgetObligoAsWritten([BudgetRow], []), [KstRow]);
      && |ms| == 2
      && (exists x :: x in ms && x.key.psp == "ABC12-0001" && x.key.jahr == "2024" && x.kst.None?)
      && (exists x :: x in ms && x.key.psp == "ABC12-0001" && x.key.jahr == "2024" && x.bo.None?)
  {
    var b := Keyed(NoStatus, [1000.0, 0.0, 0.0, 0.0]);
    assert [BudgetRow][1..] == [];
    assert LeftPart([BudgetRow], [], KeyOf, KeyOf) == [LeftOnly(BudgetRow)];
    assert OuterJoin([BudgetRow], [], KeyOf, KeyOf) == [LeftOnly(BudgetRow)];
    assert FillBo(LeftOnly(BudgetRow)) == b;
    assert BudgetObligo([BudgetRow], []) == [b];
    var filled := FillKeyCells(b);
    assert BudgetObligoAsWritten([BudgetRow], []) == [filled];
    assert filled.key != KstRow.key;
    assert [KstRow][1..] == [] && [filled][1..] == [];
    assert Filter([KstRow], KeyIs(KeyOf, filled.key)) == [];
    assert LeftPart([filled], [KstRow], KeyOf, KeyOf) == [LeftOnly(filled)];
    assert Map([filled], KeyOf) == [filled.key];
    assert Filter([KstRow], KeyNotIn(KeyOf, Map([filled], KeyOf))) == [KstRow];
    var js := OuterJoin([filled], [KstRow], KeyOf, KeyOf);
    assert js == [LeftOnly(filled), RightOnly(KstRow)];
    var ms := Map(js, ToMerged);
    assert ms[0] in ms && ms[1] in ms;
    SortByMembers(ms, JoinSortKey, ms[0]);
    SortByMembers(ms, JoinSortKey, ms[1]);
    assert |multiset(BudgetKst([filled], [KstRow]))| == |multiset(ms)|;
  }

  // ------------------------------------------------------- the correction

  /** A key of the budget table is a key of the filled first outer join. */
  lemma BudgetKeyKept(budget: seq<Keyed>, obligo: seq<Keyed>, i: nat)
    requires i < |budget|
    ensures budget[i].key in Map(BudgetObligo(budget, obligo), KeyOf)
  {
    var js := OuterJoin(budget, obligo, KeyOf, KeyOf);
    var bo := BudgetObligo(budget, obligo);
    OuterJoinCovers(budget, obligo, KeyOf, KeyOf);
    var j: Joined<Keyed, Keyed>;
    if budget[i].key in Map(obligo, KeyOf) {
      var m :| 0 <= m < |obligo| && Map(obligo, KeyOf)[m] == budget[i].key;
      j := Both(budget[i], obligo[m]);
    } else {
      j := LeftOnly(budget[i]);
    }
    assert j in js;
    var n :| 0 <= n < |js| && js[n] == j;
    assert bo[n] == FillBo(j);
    assert Map(bo, KeyOf)[n] == budget[i].key;
  }

  /** Filling only the amounts, a project with both a budget row and a
      balance row for a year gets one consolidated row per key, holding both
      blocks, whatever master cells are empty. */
  lemma FilledAmountsJoin(budget: seq<Keyed>, obligo: seq<Keyed>, kst: seq<Keyed>, i: nat, m: nat)
    requires i < |budget| && m < |kst| && budget[i].key == kst[m].key
    ensures exists x :: x in BudgetKst(BudgetObligo(budget, obligo), kst) && x.key == budget[i].key
    ensures forall x :: x in BudgetKst(BudgetObligo(budget, obligo), kst) && x.key == budget[i].key ==>
      x.bo.Some? && x.kst.Some?
  {
    var bo := BudgetObligo(budget, obligo);
    var key := budget[i].key;
    BudgetKeyKept(budget, obligo, i);
    var n := PositionOf(Map(bo, KeyOf), key);
    assert Map(kst, KeyOf)[m] == key;
    forall x | x in BudgetKst(bo, kst) && x.key == key ensures x.bo.Some? && x.kst.Some? {
      BudgetKstUndefined(bo, kst, x);
    }
    assert KeyOf(bo[n]) == KeyOf(kst[m]);
    var js := OuterJoin(bo, kst, KeyOf, KeyOf);
    OuterJoinCovers(bo, kst, KeyOf, KeyOf);
    assert Both(bo[n], kst[m]) in js;
    var q := PositionOf(js, Both(bo[n], kst[m]));
    var ms := Map(js, ToMerged);
    assert ms[q].key == key;
    SortByMembers(ms, JoinSortKey, ms[q]);
  }

  // --------------------------------------------------- Projektende "0"

  /** The filled Projektende "0" is no date. */
  lemma FilledEndeNoDate()
    ensures Pipeline.ParseEnde(FillCell(None)) == Err(DateParseError("0"))
  {
    assert Text.Split("0", '.') == ["0"];
  }

  /** As written, one budget row of a project whose master data leaves
      Projektende empty makes the conversion of the merged table fail: its
      Projektende reaches the date conversion as the text "0". */
  lemma FillnaEndeFails(budget: seq<Keyed>, obligo: seq<Keyed>, kst: seq<Keyed>, i: nat)
    requires i < |budget| && budget[i].key.ende.None?
    ensures Pipeline.ToRecords(BudgetKst(BudgetObligoAsWritten(budget, obligo), kst)).Err?
  {
    var bo := BudgetObligo(budget, obligo);
    var aw := BudgetObligoAsWritten(budget, obligo);
    BudgetKeyKept(budget, obligo, i);
    var n := PositionOf(Map(bo, KeyOf), budget[i].key);
    assert aw[n] == FillKeyCells(bo[n]);
    assert aw[n].key.ende == Some("0");
    var js := OuterJoin(aw, kst, KeyOf, KeyOf);
    OuterJoinCovers(aw, kst, KeyOf, KeyOf);
    var j: Joined<Keyed, Keyed>;
    if aw[n].key in Map(kst, KeyOf) {
      var m := PositionOf(Map(kst, KeyOf), aw[n].key);
      j := Both(aw[n], kst[m]);
    } else {
      j := LeftOnly(aw[n]);
    }
    var q := PositionOf(js, j);
    var ms := Map(js, ToMerged);
    assert ms[q].key.ende == Some("0");
    SortByMembers(ms, JoinSortKey, ms[q]);
    var r := PositionOf(BudgetKst(aw, kst), ms[q]);
    FilledEndeNoDate();
    assert !Pipeline.ParseEnde(BudgetKst(aw, kst)[r].key.ende).Ok?;
  }

  /** Every Projektende of the rows is empty or a date. */
  predicate EndesParse(rows: seq<Keyed>) {
    forall k :: 0 <= k < |rows| ==> Pipeline.ParseEnde(rows[k].key.ende).Ok?
  }

  /** Filling only the amounts, every Projektende of the merged table comes
      from one of the three inputs, so the conversion succeeds whenever each
      input's Projektende is empty or a date. */
  lemma FilledEndesParse(budget: seq<Keyed>, obligo: seq<Keyed>, kst: seq<Keyed>)
    requires Widths(budget, BudgetWidth) && Widths(obligo, ObligoWidth)
    requires EndesParse(budget) && EndesParse(obligo) && EndesParse(kst)
    ensures Pipeline.ToRecords(BudgetKst(BudgetObligo(budget, obligo), kst)).Ok?
  {
    var bo := BudgetObligo(budget, obligo);
    var ms := BudgetKst(bo, kst);
    BudgetObligoFilled(budget, obligo);
    forall k | 0 <= k < |ms| ensures Pipeline.ParseEnde(ms[k].key.ende).Ok? {
      var x := ms[k];
      BudgetKstUndefined(bo, kst, x);
      BudgetKstSomeBlock(bo, kst, x);
      if x.bo.Some? {
        var p := PositionOf(Map(bo, KeyOf), x.key);
        assert bo[p].key == x.key;
        if x.key in Map(budget, KeyOf) {
          var t := PositionOf(Map(budget, KeyOf), x.key);
          assert budget[t].key == x.key;
        } else {
          var t := PositionOf(Map(obligo, KeyOf), x.key);
          assert obligo[t].key == x.key;
        }
      } else {
        var t := PositionOf(Map(kst, KeyOf), x.key);
        assert kst[t].key == x.key;
      }
    }
  }
}
