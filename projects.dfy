/** The project view (`agg_proj`): one row per project, i.e. per combination
    of PSP, PSPName, Status, Projektende and Geldgeber, holding the project
    type and the last defined value of each of the three balances; rows with
    an empty grouping cell are dropped (pandas' `groupby` default), and the
    view is sorted by PA, Projektende, PSP and Status. */
module Projects {
  import opened Wrappers
  import opened Dates
  import opened Ordering
  import opened Seqs
  import opened Tables

  /** The grouping columns. */
  datatype ProjectKey = ProjectKey(psp: string, name: string, status: string, ende: Date, geldgeber: string)

  /** A row of the project view: the key, PA and the three end balances. */
  datatype ProjectRow = ProjectRow(
    key: ProjectKey,
    pa: string,
    endBudget: Option<real>,      // End Kontostand Budget
    endDm: Option<real>,          // End Kontostand DM
    konto: Option<real>)          // Kontostand

  /** The grouping key of a row; `None` when one of its cells is empty. */
  function KeyOf(r: Record): Option<ProjectKey> {
    if r.info.status.Some? && r.info.ende.Some? && r.info.geldgeber.Some? then
      Some(ProjectKey(r.psp, r.info.name, r.info.status.value, r.info.ende.value, r.info.geldgeber.value))
    else None
  }

  /** The keys of the rows that have one, in row order. */
  function KeysOf(rows: seq<Record>): (ks: seq<ProjectKey>)
    ensures forall k :: k in ks <==> exists r :: r in rows && KeyOf(r) == Some(k)
  {
    if rows == [] then []
    else (if KeyOf(rows[0]).Some? then [KeyOf(rows[0]).value] else []) + KeysOf(rows[1..])
  }

  /** The rows of one project, in table order. */
  function Group(rows: seq<Record>, k: ProjectKey): seq<Record> {
    Filter(rows, r => KeyOf(r) == Some(k))
  }

  function EndBudget(r: Record): Option<real> { r.endBudget }
  function EndDm(r: Record): Option<real> { r.endDm }
  function Konto(r: Record): Option<real> { r.konto }

  /** `.last()` of one group: PA of its last row and the last defined balances. */
  function Aggregate(rows: seq<Record>, k: ProjectKey): ProjectRow {
    var g := Group(rows, k);
    ProjectRow(
      k,
      if g == [] then "" else g[|g| - 1].info.pa,
      LastDefined(Map(g, EndBudget)),
      LastDefined(Map(g, EndDm)),
      LastDefined(Map(g, Konto)))
  }

  /** `sort_values(by=['PA', 'Projektende', 'PSP', 'Status'])`. */
  function ProjectSortKey(p: ProjectRow): SortKey {
    [KStr(p.pa), KDate(p.key.ende), KStr(p.key.psp), KStr(p.key.status)]
  }

  /** The groups in order of first appearance, one row each. */
  function Aggregated(rows: seq<Record>): (agg: seq<ProjectRow>)
    ensures |agg| == |Distinct(KeysOf(rows))|
    ensures forall i :: 0 <= i < |agg| ==> agg[i] == Aggregate(rows, Distinct(KeysOf(rows))[i])
  {
    Map(Distinct(KeysOf(rows)), k => Aggregate(rows, k))
  }

  /** `agg_proj(df)`. */
  function AggProj(rows: seq<Record>): seq<ProjectRow> {
    SortBy(Aggregated(rows), ProjectSortKey)
  }

  // ------------------------------------------------------------- properties

  lemma AggregatedFrom(rows: seq<Record>, p: ProjectRow)
    requires p in AggProj(rows)
    ensures (exists r :: r in rows && KeyOf(r) == Some(p.key)) && p == Aggregate(rows, p.key)
  {
    var ks := Distinct(KeysOf(rows));
    var agg := Aggregated(rows);
    SortByMembers(agg, ProjectSortKey, p);
    var i :| 0 <= i < |agg| && agg[i] == p;
    assert ks[i] in KeysOf(rows);
  }

  lemma AggregatedFor(rows: seq<Record>, r: Record)
    requires r in rows && KeyOf(r).Some?
    ensures Aggregate(rows, KeyOf(r).value) in AggProj(rows)
  {
    var k := KeyOf(r).value;
    var ks := Distinct(KeysOf(rows));
    var agg := Aggregated(rows);
    assert k in KeysOf(rows);
    var i :| 0 <= i < |KeysOf(rows)| && KeysOf(rows)[i] == k;
    assert k in ks;
    var j :| 0 <= j < |ks| && ks[j] == k;
    assert agg[j] == Aggregate(rows, k);
    SortByMembers(agg, ProjectSortKey, agg[j]);
  }

  /** The view has one row per project: a row for every key of a row whose
      grouping cells are all filled, no row for any other key, and no key
      twice. The view is sorted by PA, Projektende, PSP and Status. */
  lemma AggProjKeys(rows: seq<Record>)
    ensures forall r :: r in rows && KeyOf(r).Some? ==> exists p :: p in AggProj(rows) && p.key == KeyOf(r).value
    ensures forall p :: p in AggProj(rows) ==> exists r :: r in rows && KeyOf(r) == Some(p.key)
    ensures forall i, j :: 0 <= i < j < |AggProj(rows)| ==> AggProj(rows)[i].key != AggProj(rows)[j].key
    ensures SortedBy(AggProj(rows), ProjectSortKey)
  {
    var out := AggProj(rows);
    var ks := Distinct(KeysOf(rows));
    var agg := Aggregated(rows);
    forall r | r in rows && KeyOf(r).Some? ensures exists p :: p in out && p.key == KeyOf(r).value {
      AggregatedFor(rows, r);
    }
    forall p | p in out ensures exists r :: r in rows && KeyOf(r) == Some(p.key) {
      AggregatedFrom(rows, p);
    }
    assert forall i, j :: 0 <= i < j < |agg| ==> agg[i] != agg[j] by {
      forall i, j | 0 <= i < j < |agg| ensures agg[i] != agg[j] {
        assert agg[i].key == ks[i] && agg[j].key == ks[j];
      }
    }
    DistinctPermutation(agg, out);
    forall i, j | 0 <= i < j < |out| ensures out[i].key != out[j].key {
      AggregatedFrom(rows, out[i]);
      AggregatedFrom(rows, out[j]);
    }
  }

  /** The last defined value of a column, position by position. */
  lemma LastDefinedColumn(g: seq<Record>, f: Record -> Option<real>)
    ensures LastDefined(Map(g, f)).None? <==> forall k :: 0 <= k < |g| ==> f(g[k]).None?
    ensures LastDefined(Map(g, f)).Some? ==>
      exists k :: 0 <= k < |g| && f(g[k]) == LastDefined(Map(g, f)) && forall j :: k < j < |g| ==> f(g[j]).None?
  {
    assert forall k :: 0 <= k < |g| ==> Map(g, f)[k] == f(g[k]);
  }

  /** The rows of a project in the view: all rows with its key, at least one. */
  lemma GroupOfView(rows: seq<Record>, p: ProjectRow)
    requires p in AggProj(rows)
    ensures |Group(rows, p.key)| > 0
    ensures forall r :: r in Group(rows, p.key) <==> r in rows && KeyOf(r) == Some(p.key)
  {
    AggregatedFrom(rows, p);
    var g := Group(rows, p.key);
    var inGroup := (x: Record) => KeyOf(x) == Some(p.key);
    forall x ensures x in g <==> x in rows && KeyOf(x) == Some(p.key) {
      FilterMembers(rows, inGroup, x);
    }
    var r :| r in rows && KeyOf(r) == Some(p.key);
    assert r in g;
  }

  /** A project's Kontostand is the Kontostand of its last row that has one
      (empty if none has), and the same holds for the two other balances;
      PA is that of the project's last row. */
  lemma AggProjBalances(rows: seq<Record>, p: ProjectRow)
    requires p in AggProj(rows)
    ensures var g := Group(rows, p.key);
      && |g| > 0
      && (forall r :: r in g <==> r in rows && KeyOf(r) == Some(p.key))
      && p.pa == g[|g| - 1].info.pa
      && (p.konto.None? <==> forall k :: 0 <= k < |g| ==> g[k].konto.None?)
      && (p.konto.Some? ==> exists k :: 0 <= k < |g| && g[k].konto == p.konto && forall j :: k < j < |g| ==> g[j].konto.None?)
      && (p.endBudget.None? <==> forall k :: 0 <= k < |g| ==> g[k].endBudget.None?)
      && (p.endBudget.Some? ==> exists k :: 0 <= k < |g| && g[k].endBudget == p.endBudget && forall j :: k < j < |g| ==> g[j].endBudget.None?)
      && (p.endDm.None? <==> forall k :: 0 <= k < |g| ==> g[k].endDm.None?)
      && (p.endDm.Some? ==> exists k :: 0 <= k < |g| && g[k].endDm == p.endDm && forall j :: k < j < |g| ==> g[j].endDm.None?)
  {
    AggregatedFrom(rows, p);
    GroupOfView(rows, p);
    var g := Group(rows, p.key);
    KontoColumn(g);
    EndBudgetColumn(g);
    EndDmColumn(g);
  }

  lemma KontoColumn(g: seq<Record>)
    ensures var v := LastDefined(Map(g, Konto));
      && (v.None? <==> forall k :: 0 <= k < |g| ==> g[k].konto.None?)
      && (v.Some? ==> exists k :: 0 <= k < |g| && g[k].konto == v && forall j :: k < j < |g| ==> g[j].konto.None?)
  {
    LastDefinedColumn(g, Konto);
  }

  lemma EndBudgetColumn(g: seq<Record>)
    ensures var v := LastDefined(Map(g, EndBudget));
      && (v.None? <==> forall k :: 0 <= k < |g| ==> g[k].endBudget.None?)
      && (v.Some? ==> exists k :: 0 <= k < |g| && g[k].endBudget == v && forall j :: k < j < |g| ==> g[j].endBudget.None?)
  {
    LastDefinedColumn(g, EndBudget);
  }

  lemma EndDmColumn(g: seq<Record>)
    ensures var v := LastDefined(Map(g, EndDm));
      && (v.None? <==> forall k :: 0 <= k < |g| ==> g[k].endDm.None?)
      && (v.Some? ==> exists k :: 0 <= k < |g| && g[k].endDm == v && forall j :: k < j < |g| ==> g[j].endDm.None?)
  {
    LastDefinedColumn(g, EndDm);
  }
}
