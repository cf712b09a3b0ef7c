/** The three per-project steps that derive the balances of the consolidated
    table, each applied with `groupby('PSP').apply(...)`:
    `calculate_cumsum` (End Kontostand DM, the running balance from the
    account balance export), `shift_kontostand` (End Kontostand Budget, next
    year's carried-over budget minus this year's commitments) and
    `choose_kontostand` (Kontostand, the first if the project has one at all,
    else the second). Each step is a specification function on the rows of
    one project and an in-place method on an array of them. */
module Balances {
  import opened Wrappers
  import opened Seqs
  import opened Tables

  // ------------------------------------------------------------- helpers

  /** `Kontostand Jahr` with `fillna(0)`. */
  function KontoJahrFilled(r: Record): real {
    r.amounts.kontoJahr.GetOr(0.0)
  }

  predicate AnyKontoJahr(g: seq<Record>) {
    exists k :: 0 <= k < |g| && g[k].amounts.kontoJahr.Some?
  }

  predicate AnyEndDm(g: seq<Record>) {
    exists k :: 0 <= k < |g| && g[k].endDm.Some?
  }

  /** `a - b` on two cells: undefined if either is. */
  function Minus(a: Option<real>, b: Option<real>): (r: Option<real>)
    ensures r.Some? <==> a.Some? && b.Some?
    ensures r.Some? ==> r.value == a.value - b.value
  {
    if a.Some? && b.Some? then Some(a.value - b.value) else None
  }

  // -------------------------------------------------------- cumulative sum

  /** `cumsum()`: each element plus the running total before it. */
  function RunningSums(xs: seq<real>): (r: seq<real>)
    ensures |r| == |xs|
  {
    if xs == [] then []
    else
      var p := RunningSums(xs[..|xs| - 1]);
      p + [(if p == [] then 0.0 else p[|p| - 1]) + xs[|xs| - 1]]
  }

  /** Position `k` of the running sums is the sum of the first `k + 1` elements. */
  lemma {:induction false} RunningSumsAt(xs: seq<real>)
    ensures forall k :: 0 <= k < |xs| ==> RunningSums(xs)[k] == Sum(xs[..k + 1])
  {
    if xs != [] {
      var n := |xs| - 1;
      var init := xs[..n];
      RunningSumsAt(init);
      forall k | 0 <= k < |xs| ensures RunningSums(xs)[k] == Sum(xs[..k + 1]) {
        if k < n {
          assert RunningSums(xs)[k] == RunningSums(init)[k];
          assert init[..k + 1] == xs[..k + 1];
        } else {
          SumConcat(xs[..n], [xs[n]]);
          assert xs[..n] + [xs[n]] == xs[..k + 1];
          if n > 0 {
            assert init[..n] == xs[..n];
          }
        }
      }
    }
  }

  /** The first running sum is the first element; each later one is the one
      before it plus the element. */
  lemma {:induction false} RunningSumsRec(xs: seq<real>)
    ensures |xs| > 0 ==> RunningSums(xs)[0] == xs[0]
    ensures forall k :: 0 < k < |xs| ==> RunningSums(xs)[k] == RunningSums(xs)[k - 1] + xs[k]
  {
    if xs != [] {
      var n := |xs| - 1;
      var init := xs[..n];
      RunningSumsRec(init);
      var p := RunningSums(init);
      assert RunningSums(xs) == p + [(if p == [] then 0.0 else p[|p| - 1]) + xs[n]];
      forall k | 0 < k < |xs| ensures RunningSums(xs)[k] == RunningSums(xs)[k - 1] + xs[k] {
        if k < n {
          assert RunningSums(xs)[k] == p[k] && RunningSums(xs)[k - 1] == p[k - 1] && init[k] == xs[k];
        } else {
          assert RunningSums(xs)[k - 1] == p[n - 1];
        }
      }
      if n > 0 {
        assert RunningSums(xs)[0] == p[0] && init[0] == xs[0];
      }
    }
  }

  /** `calculate_cumsum` on the rows of one project. */
  function CumSum(g: seq<Record>): (r: seq<Record>)
    ensures |r| == |g|
  {
    var sums := RunningSums(Map(g, KontoJahrFilled));
    seq(|g|, k requires 0 <= k < |g| => g[k].(endDm := if AnyKontoJahr(g) then Some(sums[k]) else None))
  }

  /** If some row of the project has a Kontostand Jahr, End Kontostand DM at
      position k is the sum of Kontostand Jahr over positions 0..k, undefined
      cells counting 0; otherwise it is undefined on every row. Nothing else changes. */
  lemma CumSumAt(g: seq<Record>, k: nat)
    requires k < |g|
    ensures CumSum(g)[k] == g[k].(endDm := CumSum(g)[k].endDm)
    ensures AnyKontoJahr(g) ==> CumSum(g)[k].endDm == Some(Sum(Map(g, KontoJahrFilled)[..k + 1]))
    ensures !AnyKontoJahr(g) ==> CumSum(g)[k].endDm.None?
  {
    RunningSumsAt(Map(g, KontoJahrFilled));
  }

  /** `calculate_cumsum`, in place. */
  method CalculateCumsum(group: array<Record>)
    modifies group
    ensures group[..] == CumSum(old(group[..]))
  {
    ghost var g := group[..];
    ghost var sums := RunningSums(Map(g, KontoJahrFilled));
    RunningSumsRec(Map(g, KontoJahrFilled));
    forall k | 0 <= k < |sums| ensures Map(g, KontoJahrFilled)[k] == KontoJahrFilled(group[k]) {
      assert g[k] == group[k];
    }
    var any := AnyKontoJahr(group[..]);
    WriteRunningSums(group, any, sums);
    assert group[..] == CumSum(g);
  }

  /** The loop of `calculate_cumsum`: row by row, End Kontostand DM becomes
      the running sum of Kontostand Jahr if `any`, else undefined. */
  method WriteRunningSums(group: array<Record>, any: bool, ghost sums: seq<real>)
    requires |sums| == group.Length
    requires |sums| > 0 ==> sums[0] == KontoJahrFilled(group[0])
    requires forall k :: 0 < k < |sums| ==> sums[k] == sums[k - 1] + KontoJahrFilled(group[k])
    modifies group
    ensures forall j :: 0 <= j < group.Length ==>
      group[j] == old(group[j]).(endDm := if any then Some(sums[j]) else None)
  {
    ghost var g := group[..];
    var acc := 0.0;
    var k := 0;
    while k < group.Length
      invariant 0 <= k <= group.Length
      invariant acc == if k == 0 then 0.0 else sums[k - 1]
      invariant forall j :: 0 <= j < k ==> group[j] == g[j].(endDm := if any then Some(sums[j]) else None)
      invariant forall j :: k <= j < group.Length ==> group[j] == g[j]
    {
      assert old(group[k]) == g[k];
      acc := acc + KontoJahrFilled(group[k]);
      group[k] := group[k].(endDm := if any then Some(acc) else None);
      k := k + 1;
    }
  }

  // ---------------------------------------------------------------- shift

  /** `shift_kontostand` on the rows of one project. */
  function Shift(g: seq<Record>): (r: seq<Record>)
    ensures |r| == |g|
  {
    if g == [] then []
    else if |g| == 1 then [g[0].(endBudget := Some(0.0))]
    else [g[0].(endBudget := Minus(g[1].amounts.rest, g[0].amounts.fest))] + Shift(g[1..])
  }

  /** The End Kontostand Budget the shift gives row `k`. */
  function ShiftValue(g: seq<Record>, k: nat): Option<real>
    requires k < |g|
  {
    if k < |g| - 1 then Minus(g[k + 1].amounts.rest, g[k].amounts.fest) else Some(0.0)
  }

  /** Every row but the last gets the next row's Budgetrest aus Vorjahr minus
      its own Festlegungen (undefined if either is); the last row gets 0.
      Nothing else changes. */
  lemma {:induction false} ShiftAt(g: seq<Record>)
    ensures forall k :: 0 <= k < |g| ==> Shift(g)[k] == g[k].(endBudget := ShiftValue(g, k))
  {
    if |g| > 1 {
      ShiftAt(g[1..]);
      forall k | 0 <= k < |g| ensures Shift(g)[k] == g[k].(endBudget := ShiftValue(g, k)) {
        if k > 0 {
          assert Shift(g)[k] == Shift(g[1..])[k - 1];
          assert g[1..][k - 1] == g[k];
          assert ShiftValue(g[1..], k - 1) == ShiftValue(g, k);
        }
      }
    }
  }

  /** A project with a single year gets an End Kontostand Budget of 0. */
  lemma ShiftSingleYear(g: seq<Record>)
    requires |g| == 1
    ensures Shift(g)[0].endBudget == Some(0.0)
  {
  }

  /** `shift_kontostand`, in place. */
  method ShiftKontostand(group: array<Record>)
    modifies group
    ensures group[..] == Shift(old(group[..]))
  {
    ghost var g := group[..];
    ShiftAt(g);
    if group.Length == 0 {
      return;
    }
    var k := 0;
    while k < group.Length - 1
      invariant 0 <= k <= group.Length - 1
      invariant forall j :: 0 <= j < k ==> group[j] == g[j].(endBudget := ShiftValue(g, j))
      invariant forall j :: k <= j < group.Length ==> group[j] == g[j]
    {
      group[k] := group[k].(endBudget := Minus(group[k + 1].amounts.rest, group[k].amounts.fest));
      k := k + 1;
    }
    group[k] := group[k].(endBudget := Some(0.0));
    assert group[..] == Shift(g);
  }

  // --------------------------------------------------------------- choose

  function UseDm(r: Record): Record {
    r.(konto := r.endDm)
  }

  function UseBudget(r: Record): Record {
    r.(konto := r.endBudget)
  }

  /** `choose_kontostand` on the rows of one project: one decision for all rows. */
  function Choose(g: seq<Record>): (r: seq<Record>)
    ensures |r| == |g|
  {
    if AnyEndDm(g) then Map(g, UseDm) else Map(g, UseBudget)
  }

  /** `choose_kontostand`, in place. */
  method ChooseKontostand(group: array<Record>)
    modifies group
    ensures group[..] == Choose(old(group[..]))
  {
    ghost var g := group[..];
    var useDm := AnyEndDm(group[..]);
    var k := 0;
    while k < group.Length
      invariant 0 <= k <= group.Length
      invariant forall j :: 0 <= j < k ==> group[j] == Choose(g)[j]
      invariant forall j :: k <= j < group.Length ==> group[j] == g[j]
    {
      group[k] := if useDm then UseDm(group[k]) else UseBudget(group[k]);
      k := k + 1;
    }
    assert group[..] == Choose(g);
  }

  // ------------------------------------------------------- all three steps

  /** The three steps on one project. */
  function ProjectBalances(g: seq<Record>): seq<Record> {
    Choose(Shift(CumSum(g)))
  }

  /** With some Kontostand Jahr in the project, the balance of row k is the
      running balance of the account balance export up to row k. */
  lemma ProjectBalancesWithKst(g: seq<Record>, k: nat)
    requires k < |g| && AnyKontoJahr(g)
    ensures |ProjectBalances(g)| == |g|
    ensures ProjectBalances(g)[k].konto == Some(Sum(Map(g, KontoJahrFilled)[..k + 1]))
  {
    var c := CumSum(g);
    var s := Shift(c);
    ShiftAt(c);
    CumSumAt(g, k);
    CumSumAt(g, 0);
    assert s[0].endDm == c[0].endDm;
    assert AnyEndDm(s);
    assert s[k].endDm == c[k].endDm;
  }

  /** Without any Kontostand Jahr in the project, the balance of row k is the
      budget-derived one: next year's Budgetrest aus Vorjahr minus this year's
      Festlegungen, and 0 in the last year. */
  lemma ProjectBalancesWithoutKst(g: seq<Record>, k: nat)
    requires k < |g| && !AnyKontoJahr(g)
    ensures |ProjectBalances(g)| == |g|
    ensures ProjectBalances(g)[k].konto == ShiftValue(g, k)
  {
    var c := CumSum(g);
    var s := Shift(c);
    ShiftAt(c);
    forall j | 0 <= j < |s| ensures s[j].endDm.None? {
      CumSumAt(g, j);
    }
    assert !AnyEndDm(s);
    CumSumAt(g, k);
    if k < |g| - 1 {
      CumSumAt(g, k + 1);
    }
    assert ShiftValue(c, k) == ShiftValue(g, k);
  }

  // ------------------------------------------------------ per-project apply

  function PspIs(p: string): Record -> bool {
    (r: Record) => r.psp == p
  }

  function PspOf(r: Record): string {
    r.psp
  }

  function StepOn(rows: seq<Record>, step: seq<Record> -> seq<Record>): string -> seq<Record> {
    p => step(Filter(rows, PspIs(p)))
  }

  /** `df.groupby('PSP').apply(step).reset_index(drop=True)`: the step on each
      project's rows, the projects one after another. The table arrives
      sorted by PSP, so the order of first appearance is the sorted order
      pandas uses. */
  function ApplyByPsp(rows: seq<Record>, step: seq<Record> -> seq<Record>): seq<Record> {
    Concat(Map(Distinct(Map(rows, PspOf)), StepOn(rows, step)))
  }

  /** A step that keeps the number of rows and every row's PSP. */
  ghost predicate KeepsPsp(step: seq<Record> -> seq<Record>) {
    forall g: seq<Record> :: Map(step(g), PspOf) == Map(g, PspOf)
  }

  lemma CumSumKeepsPsp()
    ensures KeepsPsp(CumSum)
  {
    forall g: seq<Record> ensures Map(CumSum(g), PspOf) == Map(g, PspOf) {
    }
  }

  lemma ShiftKeepsPsp()
    ensures KeepsPsp(Shift)
  {
    forall g: seq<Record> ensures Map(Shift(g), PspOf) == Map(g, PspOf) {
      ShiftAt(g);
    }
  }

  lemma ChooseKeepsPsp()
    ensures KeepsPsp(Choose)
  {
    forall g: seq<Record> ensures Map(Choose(g), PspOf) == Map(g, PspOf) {
    }
  }

  /** Filtering by one PSP a sequence whose rows all have PSP `q`. */
  lemma FilterOneProject(s: seq<Record>, q: string, p: string)
    requires forall k :: 0 <= k < |s| ==> s[k].psp == q
    ensures Filter(s, PspIs(p)) == if p == q then s else []
  {
    if p == q { FilterAll(s, PspIs(p)); } else { FilterNone(s, PspIs(p)); }
  }

  /** The group of PSP `q`, after the step, filtered by PSP `p`. */
  lemma GroupFiltered(rows: seq<Record>, step: seq<Record> -> seq<Record>, q: string, p: string)
    requires KeepsPsp(step)
    ensures Filter(StepOn(rows, step)(q), PspIs(p)) == if q == p then StepOn(rows, step)(p) else []
  {
    var grp := Filter(rows, PspIs(q));
    var out := step(grp);
    assert StepOn(rows, step)(q) == out;
    assert Map(out, PspOf) == Map(grp, PspOf);
    forall j | 0 <= j < |out| ensures out[j].psp == q {
      assert Map(out, PspOf)[j] == Map(grp, PspOf)[j];
    }
    FilterOneProject(out, q, p);
  }

  /** A PSP that does not occur has no rows. */
  lemma AbsentProject(rows: seq<Record>, p: string)
    requires p !in Distinct(Map(rows, PspOf))
    ensures Filter(rows, PspIs(p)) == []
  {
    forall k | 0 <= k < |rows| ensures !PspIs(p)(rows[k]) {
      assert Map(rows, PspOf)[k] in Distinct(Map(rows, PspOf));
    }
    FilterNone(rows, PspIs(p));
  }

  /** The groups after the step, each filtered by PSP `p`: only the group of
      `p` keeps rows, and it keeps all of them. */
  lemma FilteredGroups(rows: seq<Record>, step: seq<Record> -> seq<Record>, p: string, psps: seq<string>)
    requires KeepsPsp(step)
    ensures forall k :: 0 <= k < |psps| ==>
        Filter(Map(psps, StepOn(rows, step))[k], PspIs(p)) == if psps[k] == p then StepOn(rows, step)(p) else []
  {
    forall k | 0 <= k < |psps|
      ensures Filter(Map(psps, StepOn(rows, step))[k], PspIs(p)) == if psps[k] == p then StepOn(rows, step)(p) else []
    {
      GroupFiltered(rows, step, psps[k], p);
    }
  }

  /** The concatenated groups, filtered by PSP `p`, are `p`'s group if `p`
      occurs and empty otherwise. */
  lemma ApplyFiltered(rows: seq<Record>, step: seq<Record> -> seq<Record>, p: string)
    requires KeepsPsp(step)
    ensures Filter(ApplyByPsp(rows, step), PspIs(p)) ==
      if p in Distinct(Map(rows, PspOf)) then StepOn(rows, step)(p) else []
  {
    var psps := Distinct(Map(rows, PspOf));
    var groups := Map(psps, StepOn(rows, step));
    FilteredGroups(rows, step, p, psps);
    FilterConcatPick(groups, psps, PspIs(p), p, StepOn(rows, step)(p));
  }

  /** The step is applied per project: the rows of a project after the apply
      are the step's result on that project's rows alone. */
  lemma ApplyByPspProject(rows: seq<Record>, step: seq<Record> -> seq<Record>, p: string)
    requires KeepsPsp(step)
    ensures Filter(ApplyByPsp(rows, step), PspIs(p)) == step(Filter(rows, PspIs(p)))
  {
    ApplyFiltered(rows, step, p);
    if p !in Distinct(Map(rows, PspOf)) {
      AbsentProject(rows, p);
      assert |Map(step([]), PspOf)| == 0;
    }
  }

  /** The balances of the consolidated table: the three steps one after the other. */
  function DeriveBalances(rows: seq<Record>): seq<Record> {
    ApplyByPsp(ApplyByPsp(ApplyByPsp(rows, CumSum), Shift), Choose)
  }

  /** Each project's rows after the three passes are the three steps applied
      to that project's rows alone. */
  lemma DeriveBalancesProject(rows: seq<Record>, p: string)
    ensures Filter(DeriveBalances(rows), PspIs(p)) == ProjectBalances(Filter(rows, PspIs(p)))
  {
    CumSumKeepsPsp();
    ShiftKeepsPsp();
    ChooseKeepsPsp();
    ApplyByPspProject(rows, CumSum, p);
    ApplyByPspProject(ApplyByPsp(rows, CumSum), Shift, p);
    ApplyByPspProject(ApplyByPsp(ApplyByPsp(rows, CumSum), Shift), Choose, p);
  }
}
