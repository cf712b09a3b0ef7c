/** The report accumulator `PABericht` and the job lists it consumes. A job
    names a table, a PSP pattern, a title and whether its result goes into
    the summary. `pa_auflistung` filters the table by the pattern, sums the
    balances per year and records (project type, remark, balance of the
    latest year) in the summary; `zusammenfassung` adds the total row. The
    text and PDF output of both methods is not part of this model. */
module Report {
  import opened Wrappers
  import opened Text
  import opened Ordering
  import opened Seqs
  import opened Tables
  import opened Filters
  import opened Aggregation

  /** One entry of a job list: `[df, pattern, title, sum_up]`. */
  datatype Job = Job(rows: seq<Record>, pattern: Pattern, title: string, sumUp: bool)

  /** A row of the summary table (Projektart, Bemerkung, Kontostand). */
  datatype SummaryRow = SummaryRow(projektart: string, bemerkung: string, kontostand: real)

  /** A job list that several builders append to (`lst.append`). */
  class JobList {
    var jobs: seq<Job>

    constructor()
      ensures jobs == []
    {
      jobs := [];
    }

    method Append(j: Job)
      modifies this
      ensures jobs == old(jobs) + [j]
    {
      jobs := jobs + [j];
    }
  }

  // ------------------------------------------------------------ pa_pattern

  /** `pa_pattern(pa)`: `^\d{3}<pa>\d{10}$`. */
  function PaPattern(pa: string): Pattern {
    PaShape(pa)
  }

  /** A PSP made of three digits, the project type and ten digits matches the
      project type's pattern; a PSP without a line break that matches it
      carries the project type right after its first three digits, so a
      two-character type is the PSP's PA column. */
  lemma PaPatternSpec(pa: string, psp: string)
    ensures PaShapeExact(psp, pa) ==> Matches(PaPattern(pa), psp)
    ensures Matches(PaPattern(pa), psp) && '\n' !in psp ==> psp[3..3 + |pa|] == pa
    ensures Matches(PaPattern(pa), psp) && '\n' !in psp && |pa| == 2 ==> Slice(psp, 3, 5) == pa
  {
    if Matches(PaPattern(pa), psp) && '\n' !in psp {
      assert psp[|psp| - 1] != '\n' by { assert psp[|psp| - 1] in psp; }
    }
  }

  // --------------------------------------------------------- import_pa_sap

  function RecordPa(r: Record): string {
    r.info.pa
  }

  function StrKey(s: string): SortKey {
    [KStr(s)]
  }

  /** `df.groupby(['PA']).last().reset_index()[['PA']]`: the project types of
      the table, each once, in ascending order. */
  function PaList(rows: seq<Record>): seq<string> {
    SortBy(Distinct(Map(rows, RecordPa)), StrKey)
  }

  /** The job `import_pa_sap` adds for one project type (`sum_up` keeps its default). */
  function PaJob(rows: seq<Record>, pa: string): Job {
    Job(rows, PaPattern(pa), "Projektart " + pa, true)
  }

  /** The jobs for a list of project types, in list order. */
  function PaJobs(rows: seq<Record>, pas: seq<string>): (r: seq<Job>)
    ensures |r| == |pas|
  {
    if pas == [] then [] else PaJobs(rows, pas[..|pas| - 1]) + [PaJob(rows, pas[|pas| - 1])]
  }

  /** Job `k` is the job of project type `k`. */
  lemma {:induction false} PaJobsAt(rows: seq<Record>, pas: seq<string>, k: nat)
    requires k < |pas|
    ensures PaJobs(rows, pas)[k] == PaJob(rows, pas[k])
    decreases |pas|
  {
    var init := pas[..|pas| - 1];
    if k < |init| {
      PaJobsAt(rows, init, k);
      assert init[k] == pas[k];
    }
  }

  lemma PaJobsStep(rows: seq<Record>, pas: seq<string>, i: nat)
    requires i < |pas|
    ensures PaJobs(rows, pas[..i + 1]) == PaJobs(rows, pas[..i]) + [PaJob(rows, pas[i])]
  {
    assert pas[..i + 1][..i] == pas[..i];
  }

  /** `import_pa_sap(df, lst)`: one job per project type of the table. */
  method ImportPaSap(rows: seq<Record>, lst: JobList)
    modifies lst
    ensures lst.jobs == old(lst.jobs) + PaJobs(rows, PaList(rows))
  {
    AppendPaJobs(rows, PaList(rows), lst);
  }

  /** The loop of `import_pa_sap`: one job per project type, in list order. */
  method AppendPaJobs(rows: seq<Record>, pas: seq<string>, lst: JobList)
    modifies lst
    ensures lst.jobs == old(lst.jobs) + PaJobs(rows, pas)
  {
    var i := 0;
    while i < |pas|
      invariant 0 <= i <= |pas|
      invariant lst.jobs == old(lst.jobs) + PaJobs(rows, pas[..i])
    {
      PaJobsStep(rows, pas, i);
      lst.Append(PaJob(rows, pas[i]));
      i := i + 1;
    }
    assert pas[..i] == pas;
  }

  /** The project types listed are exactly those of the table, each once and
      in ascending order. */
  lemma PaListSpec(rows: seq<Record>)
    ensures forall pa :: pa in PaList(rows) <==> exists k :: 0 <= k < |rows| && rows[k].info.pa == pa
    ensures forall i, j :: 0 <= i < j < |PaList(rows)| ==> PaList(rows)[i] != PaList(rows)[j]
    ensures forall i, j :: 0 <= i < j < |PaList(rows)| ==> StrLe(PaList(rows)[i], PaList(rows)[j])
  {
    PaListMembers(rows);
    var d := Distinct(Map(rows, RecordPa));
    var s := PaList(rows);
    DistinctPermutation(d, s);
    forall i, j | 0 <= i < j < |s| ensures StrLe(s[i], s[j]) {
      assert KeyLe(StrKey(s[i]), StrKey(s[j]));
    }
  }

  /** The project types listed are those of the rows. */
  lemma PaListMembers(rows: seq<Record>)
    ensures forall pa :: pa in PaList(rows) <==> exists k :: 0 <= k < |rows| && rows[k].info.pa == pa
  {
    forall pa ensures pa in PaList(rows) <==> exists k :: 0 <= k < |rows| && RecordPa(rows[k]) == pa {
      SortByMembers(Distinct(Map(rows, RecordPa)), StrKey, pa);
      DistinctMapMembers(rows, RecordPa, pa);
    }
  }

  // ----------------------------------------------------- import_detail_plot

  /** Position of the first row with PSP `psp`; `|rows|` if there is none. */
  function FirstIndex(rows: seq<Record>, psp: string): (k: nat)
    ensures k <= |rows|
    ensures k < |rows| ==> rows[k].psp == psp
    ensures forall j :: 0 <= j < k ==> rows[j].psp != psp
  {
    if rows == [] then 0
    else if rows[0].psp == psp then 0
    else
      var k := FirstIndex(rows[1..], psp);
      assert forall j :: 1 <= j < |rows| ==> rows[j] == rows[1..][j - 1];
      1 + k
  }

  /** The first row with PSP `psp` (`result.iloc[0]`), if any. */
  function FirstWithPsp(rows: seq<Record>, psp: string): (r: Option<Record>)
    ensures r.Some? <==> exists k :: 0 <= k < |rows| && rows[k].psp == psp
    ensures r.Some? ==> exists k :: 0 <= k < |rows| && rows[k] == r.value && r.value.psp == psp
                          && forall j :: 0 <= j < k ==> rows[j].psp != psp
  {
    var k := FirstIndex(rows, psp);
    if k < |rows| then Some(rows[k]) else None
  }

  /** The detail job of one matching row: the raw PSP as the pattern, the
      title "PSPName (PSP)", never summed up. */
  function DetailJob(rows: seq<Record>, first: Record): Job {
    Job(rows, Substring(first.psp), first.info.name + " (" + first.psp + ")", false)
  }

  /** The jobs for the first column of the detail-plot file: an undefined cell
      or a PSP that is not in the table is skipped (with a warning). */
  function DetailJobs(rows: seq<Record>, plot: seq<Option<string>>): seq<Job> {
    if plot == [] then []
    else
      var p := plot[|plot| - 1];
      var hit := if p.Some? then FirstWithPsp(rows, p.value) else None;
      DetailJobs(rows, plot[..|plot| - 1]) + (if hit.Some? then [DetailJob(rows, hit.value)] else [])
  }

  /** The loop of `import_detail_plot` over the rows of the detail-plot file. */
  method ImportDetailPlot(rows: seq<Record>, plot: seq<Option<string>>, lst: JobList)
    modifies lst
    ensures lst.jobs == old(lst.jobs) + DetailJobs(rows, plot)
  {
    var i := 0;
    while i < |plot|
      invariant 0 <= i <= |plot|
      invariant lst.jobs == old(lst.jobs) + DetailJobs(rows, plot[..i])
    {
      assert plot[..i + 1][..i] == plot[..i];
      var hit := if plot[i].Some? then FirstWithPsp(rows, plot[i].value) else None;
      if hit.Some? {
        lst.Append(DetailJob(rows, hit.value));
      }
      i := i + 1;
    }
    assert plot[..i] == plot;
  }

  /** Every detail job is for a PSP listed in the file and present in the
      table, titled with the name of that PSP's first row, and not summed up;
      every listed PSP that is in the table gets one. */
  lemma DetailJobsSpec(rows: seq<Record>, plot: seq<Option<string>>)
    ensures |DetailJobs(rows, plot)| <= |plot|
    ensures forall j :: j in DetailJobs(rows, plot) ==>
      && j.rows == rows && !j.sumUp
      && exists r :: r in rows && Some(r.psp) in plot && j == DetailJob(rows, r)
                     && FirstWithPsp(rows, r.psp) == Some(r)
    ensures forall k :: 0 <= k < |plot| && plot[k].Some? && (exists i :: 0 <= i < |rows| && rows[i].psp == plot[k].value) ==>
      exists j :: j in DetailJobs(rows, plot) && j.pattern == Substring(plot[k].value)
  {
    DetailJobsCount(rows, plot);
    DetailJobsMembers(rows, plot);
    DetailJobsCover(rows, plot);
  }

  /** The last cell of the detail-plot file adds at most one job. */
  lemma DetailJobsLast(rows: seq<Record>, plot: seq<Option<string>>)
    requires plot != []
    ensures var p := plot[|plot| - 1];
      var hit := if p.Some? then FirstWithPsp(rows, p.value) else None;
      DetailJobs(rows, plot) == DetailJobs(rows, plot[..|plot| - 1]) + (if hit.Some? then [DetailJob(rows, hit.value)] else [])
  {
  }

  lemma {:induction false} DetailJobsCount(rows: seq<Record>, plot: seq<Option<string>>)
    ensures |DetailJobs(rows, plot)| <= |plot|
  {
    if plot != [] {
      DetailJobsCount(rows, plot[..|plot| - 1]);
    }
  }

  lemma {:induction false} DetailJobsMembers(rows: seq<Record>, plot: seq<Option<string>>)
    ensures forall j :: j in DetailJobs(rows, plot) ==>
      && j.rows == rows && !j.sumUp
      && exists r :: r in rows && Some(r.psp) in plot && j == DetailJob(rows, r)
                     && FirstWithPsp(rows, r.psp) == Some(r)
  {
    if plot != [] {
      var init := plot[..|plot| - 1];
      DetailJobsMembers(rows, init);
      DetailJobsLast(rows, plot);
      var p := plot[|plot| - 1];
      var hit := if p.Some? then FirstWithPsp(rows, p.value) else None;
      assert forall x :: x in init ==> x in plot;
      if hit.Some? {
        assert FirstWithPsp(rows, hit.value.psp) == hit;
        var k :| 0 <= k < |rows| && rows[k] == hit.value && hit.value.psp == p.value;
      }
    }
  }

  lemma {:induction false} DetailJobsCover(rows: seq<Record>, plot: seq<Option<string>>)
    ensures forall k :: 0 <= k < |plot| && plot[k].Some? && (exists i :: 0 <= i < |rows| && rows[i].psp == plot[k].value) ==>
      exists j :: j in DetailJobs(rows, plot) && j.pattern == Substring(plot[k].value)
  {
    if plot != [] {
      var init := plot[..|plot| - 1];
      DetailJobsCover(rows, init);
      DetailJobsLast(rows, plot);
      var p := plot[|plot| - 1];
      var hit := if p.Some? then FirstWithPsp(rows, p.value) else None;
      forall k | 0 <= k < |init| ensures init[k] == plot[k] { }
      if hit.Some? {
        assert DetailJob(rows, hit.value).pattern == Substring(p.value);
      }
    }
  }

  // ----------------------------------------------------------- pa_auflistung

  /** The PSP column as cells; a PSP is never undefined. */
  function PspCell(r: Record): Option<string> {
    Some(r.psp)
  }

  /** `cont(df, 'PSP', pattern)`: it cannot fail on the PSP column. */
  function Selected(rows: seq<Record>, p: Pattern): (r: seq<Record>)
    ensures forall x :: x in r <==> x in rows && Matches(p, x.psp)
  {
    var c := Cont(rows, PspCell, p);
    assert c.Ok?;
    FilterMembersAll(rows, x => Matches(p, CellText(PspCell(x))));
    c.value
  }

  lemma FilterMembersAll<T>(s: seq<T>, p: T -> bool)
    ensures forall x :: x in Filter(s, p) <==> x in s && p(x)
  {
    forall x ensures x in Filter(s, p) <==> x in s && p(x) {
      FilterMembers(s, p, x);
    }
  }

  /** A row as an entry of `groupby('Jahr')`, carrying its Kontostand (an
      undefined balance sums as 0). */
  function YearEntry(r: Record): Entry {
    Entry(GroupKey("", "", r.info.jahr), [r.konto.GetOr(0.0)])
  }

  function YearKey(e: Entry): SortKey {
    [KStr(e.key.jahr)]
  }

  /** `df.groupby('Jahr').sum(numeric_only=True).reset_index()`: one entry per
      year with the summed balance, in ascending order of the year. */
  function YearTotals(rows: seq<Record>): seq<Entry> {
    SortBy(GroupSum(Map(rows, YearEntry), 1), YearKey)
  }

  /** `gdf.iloc[-1]['Kontostand']`: the summed balance of the last year. */
  function LatestTotal(rows: seq<Record>): real {
    var g := YearTotals(rows);
    if g == [] then 0.0 else Cell(g[|g| - 1], 0)
  }

  /** The balance of one year: Kontostand summed over that year's rows. */
  function YearSum(rows: seq<Record>, jahr: string): real {
    if rows == [] then 0.0
    else (if rows[0].info.jahr == jahr then rows[0].konto.GetOr(0.0) else 0.0) + YearSum(rows[1..], jahr)
  }

  /** Python's `round(x, 2)` on the exact value: to the nearest cent, a tie to
      the even cent. */
  function Round2(x: real): (r: real)
    ensures -0.005 <= r - x <= 0.005
  {
    Round2Cents(x) as real / 100.0
  }

  /** The number of cents `round(x, 2)` keeps. */
  function Round2Cents(x: real): (n: int)
    ensures -0.5 <= n as real - x * 100.0 <= 0.5
  {
    var y := x * 100.0;
    var f := y.Floor;
    var d := y - f as real;
    if d > 0.5 then f + 1 else if d < 0.5 then f else if f % 2 == 0 then f else f + 1
  }

  /** `title.split('|')[0]`. */
  function TitleHead(title: string): string {
    Split(title, '|')[0]
  }

  /** `title.split('|')[1]` if there is a '|', else ''. */
  function TitleRemark(title: string): string {
    var parts := Split(title, '|');
    if |parts| > 1 then parts[1] else ""
  }

  /** What `pa_auflistung` records for a job: nothing for an empty selection
      or a job that is not summed up, else one row. */
  function Recorded(j: Job): seq<SummaryRow> {
    var sel := Selected(j.rows, j.pattern);
    if sel != [] && j.sumUp then [SummaryRow(TitleHead(j.title), TitleRemark(j.title), Round2(LatestTotal(sel)))]
    else []
  }

  function Kontostand(s: SummaryRow): real {
    s.kontostand
  }

  /** The total row of `zusammenfassung`: 'Summe', '' and the sum of the balances. */
  function TotalRow(summary: seq<SummaryRow>): SummaryRow {
    SummaryRow("Summe", "", Sum(Map(summary, Kontostand)))
  }

  /** The report object; only its summary table is modelled. */
  class PaBericht {
    var summary: seq<SummaryRow>

    constructor()
      ensures summary == []
    {
      summary := [];
    }

    /** `pa_auflistung(df, pattern, title, sum_up)`, summary part. */
    method PaAuflistung(rows: seq<Record>, pattern: Pattern, title: string, sumUp: bool)
      modifies this
      ensures summary == old(summary) + Recorded(Job(rows, pattern, title, sumUp))
    {
      var sel := Selected(rows, pattern);
      var gdf := YearTotals(sel);
      YearTotalsEmpty(sel);
      if |gdf| > 0 {
        var row := SummaryRow(TitleHead(title), TitleRemark(title), Round2(Cell(gdf[|gdf| - 1], 0)));
        if sumUp {
          summary := summary + [row];
        }
      }
    }

    /** `zusammenfassung`, sum part: the summary followed by its total row. */
    function Zusammenfassung(): (t: seq<SummaryRow>)
      reads this
      ensures |t| == |summary| + 1 && t[..|summary|] == summary
      ensures t[|summary|].projektart == "Summe" && t[|summary|].bemerkung == ""
      ensures t[|summary|].kontostand == Sum(Map(summary, Kontostand))
    {
      summary + [TotalRow(summary)]
    }
  }

  // ------------------------------------------------------ per-year totals

  /** The year grouping is empty exactly when the rows are. */
  lemma YearTotalsEmpty(rows: seq<Record>)
    ensures YearTotals(rows) == [] <==> rows == []
  {
    var es := Map(rows, YearEntry);
    SortByLength(GroupSum(es, 1), YearKey);
    if rows != [] {
      GroupSumKeys(es, 1);
      assert HasKey(es, es[0].key);
      HasKeyAt(GroupSum(es, 1), es[0].key);
    }
  }

  /** The year grouping sees exactly the years of the rows. */
  lemma YearTotalsHasYear(rows: seq<Record>, jahr: string)
    ensures HasKey(GroupSum(Map(rows, YearEntry), 1), GroupKey("", "", jahr))
        <==> exists k :: 0 <= k < |rows| && rows[k].info.jahr == jahr
  {
    var es := Map(rows, YearEntry);
    GroupSumKeys(es, 1);
    HasKeyAt(es, GroupKey("", "", jahr));
    if exists k :: 0 <= k < |rows| && rows[k].info.jahr == jahr {
      var k :| 0 <= k < |rows| && rows[k].info.jahr == jahr;
      assert es[k].key == GroupKey("", "", jahr);
    }
  }

  /** The grouped sums of one year are that year's balance. */
  lemma {:induction false} KeySumYear(rows: seq<Record>, jahr: string)
    ensures KeySum(Map(rows, YearEntry), GroupKey("", "", jahr), 0) == YearSum(rows, jahr)
  {
    if rows != [] {
      assert Map(rows, YearEntry)[1..] == Map(rows[1..], YearEntry);
      KeySumYear(rows[1..], jahr);
    }
  }

  /** Two years each at or below the other are equal. */
  lemma StrLeAntisym(a: string, b: string)
    requires StrLe(a, b) && StrLe(b, a)
    ensures a == b
  {
    StrCmpFlip(a, b);
    StrCmpEqual(a, b);
  }

  /** Every entry of the year grouping is the year of some row. */
  lemma YearTotalsKeyFrom(rows: seq<Record>, e: Entry)
    requires e in YearTotals(rows)
    ensures e.key == GroupKey("", "", e.key.jahr) && e.key.jahr in Map(rows, RecordJahr)
  {
    var es := Map(rows, YearEntry);
    var gs := GroupSum(es, 1);
    SortByMembers(gs, YearKey, e);
    var i :| 0 <= i < |gs| && gs[i] == e;
    var k := GroupSumKeyFrom(es, 1, i);
    assert es[k].key == e.key;
    assert Map(rows, RecordJahr)[k] == e.key.jahr;
  }

  /** The latest year of the rows has an entry in the year grouping. */
  lemma YearTotalsHasMax(rows: seq<Record>) returns (p: nat)
    requires rows != []
    ensures p < |YearTotals(rows)| && YearTotals(rows)[p].key.jahr == MaxStr(Map(rows, RecordJahr))
  {
    var es := Map(rows, YearEntry);
    var gs := GroupSum(es, 1);
    var m := MaxStr(Map(rows, RecordJahr));
    YearTotalsHasYear(rows, m);
    var t :| 0 <= t < |Map(rows, RecordJahr)| && Map(rows, RecordJahr)[t] == m;
    assert rows[t].info.jahr == m;
    HasKeyAt(gs, GroupKey("", "", m));
    var q :| 0 <= q < |gs| && gs[q].key == GroupKey("", "", m);
    var e := gs[q];
    SortByMembers(gs, YearKey, e);
    p := PositionOf(YearTotals(rows), e);
  }

  /** In a table sorted by year, every year is at or before the last one. */
  lemma SortedLastYear(g: seq<Entry>, p: nat)
    requires SortedBy(g, YearKey) && p < |g|
    ensures StrLe(g[p].key.jahr, g[|g| - 1].key.jahr)
  {
    var a, b := g[p].key.jahr, g[|g| - 1].key.jahr;
    if p < |g| - 1 {
      assert KeyLe(YearKey(g[p]), YearKey(g[|g| - 1]));
      assert KeyCmp([KStr(a)], [KStr(b)]) != Greater;
      assert [KStr(a)][1..] == [] && [KStr(b)][1..] == [];
    }
    StrCmpEqual(a, a);
  }

  /** Every member of a column is at or below its maximum. */
  lemma MaxIsUpper(xs: seq<string>, x: string)
    requires x in xs
    ensures StrLe(x, MaxStr(xs))
  {
    var k :| 0 <= k < |xs| && xs[k] == x;
  }

  /** In a table sorted by year whose years all come from `js`, holding the
      latest of them, the last entry is that latest year. */
  lemma LastOfSorted(g: seq<Entry>, js: seq<string>, p: nat)
    requires |js| > 0 && SortedBy(g, YearKey) && p < |g| && g[p].key.jahr == MaxStr(js)
    requires g[|g| - 1].key == GroupKey("", "", g[|g| - 1].key.jahr) && g[|g| - 1].key.jahr in js
    ensures g[|g| - 1].key == GroupKey("", "", MaxStr(js))
  {
    var m := MaxStr(js);
    var y := g[|g| - 1].key.jahr;
    SortedLastYear(g, p);
    MaxIsUpper(js, y);
    StrLeAntisym(m, y);
  }

  /** The last entry of the year grouping is the latest year. */
  lemma LastYearIsLatest(rows: seq<Record>)
    requires rows != []
    ensures |YearTotals(rows)| > 0
    ensures YearTotals(rows)[|YearTotals(rows)| - 1].key == GroupKey("", "", MaxStr(Map(rows, RecordJahr)))
  {
    var g := YearTotals(rows);
    var p := YearTotalsHasMax(rows);
    assert g[|g| - 1] in g;
    YearTotalsKeyFrom(rows, g[|g| - 1]);
    LastOfSorted(g, Map(rows, RecordJahr), p);
  }

  /** The recorded balance is the summed Kontostand of the latest year of the
      selection. */
  lemma LatestTotalSpec(rows: seq<Record>)
    requires rows != []
    ensures LatestTotal(rows) == YearSum(rows, MaxStr(Map(rows, RecordJahr)))
  {
    var es := Map(rows, YearEntry);
    var gs := GroupSum(es, 1);
    var g := YearTotals(rows);
    LastYearIsLatest(rows);
    var last := g[|g| - 1];
    SortByMembers(gs, YearKey, last);
    var i :| 0 <= i < |gs| && gs[i] == last;
    GroupSumEntries(es, 1);
    assert Cell(last, 0) == KeySum(es, last.key, 0);
    KeySumYear(rows, MaxStr(Map(rows, RecordJahr)));
  }

  // ----------------------------------------------------- recording lemmas

  /** A job records a row exactly when it is summed up and its pattern
      matches some PSP of its table; the row has the title's two parts and
      the latest year's balance rounded to cents. */
  lemma RecordedSpec(j: Job)
    ensures |Recorded(j)| <= 1
    ensures |Recorded(j)| == 1 <==> j.sumUp && exists k :: 0 <= k < |j.rows| && Matches(j.pattern, j.rows[k].psp)
    ensures |Recorded(j)| == 1 ==>
      var sel := Selected(j.rows, j.pattern);
      && Recorded(j)[0].projektart == TitleHead(j.title)
      && Recorded(j)[0].bemerkung == TitleRemark(j.title)
      && Recorded(j)[0].kontostand == Round2(YearSum(sel, MaxStr(Map(sel, RecordJahr))))
  {
    var sel := Selected(j.rows, j.pattern);
    if exists k :: 0 <= k < |j.rows| && Matches(j.pattern, j.rows[k].psp) {
      var k :| 0 <= k < |j.rows| && Matches(j.pattern, j.rows[k].psp);
      assert j.rows[k] in sel;
    }
    if sel != [] {
      assert sel[0] in j.rows;
      LatestTotalSpec(sel);
    }
  }

  /** A title "head|remark" with no further '|' splits into its two parts;
      a title without '|' is all head and an empty remark. */
  lemma TitleParts(head: string, remark: string)
    requires '|' !in head && '|' !in remark
    ensures TitleHead(head + "|" + remark) == head && TitleRemark(head + "|" + remark) == remark
    ensures TitleHead(head) == head && TitleRemark(head) == ""
  {
    SplitFirst(head, remark, '|');
    assert head + "|" + remark == head + ['|'] + remark;
  }

  /** Rounding keeps amounts that are whole cents and breaks ties towards an
      even number of cents. */
  lemma Round2Spec(x: real, n: int)
    ensures Round2(n as real / 100.0) == n as real / 100.0
    ensures x * 100.0 == n as real + 0.5 ==> Round2(x) * 100.0 == (if n % 2 == 0 then n else n + 1) as real
  {
    var y := (n as real / 100.0) * 100.0;
    assert y == n as real;
    assert y.Floor == n;
    if x * 100.0 == n as real + 0.5 {
      assert (x * 100.0).Floor == n;
    }
  }

  /** The summary total grows with every recorded row. */
  lemma SummaryTotalAppend(s: seq<SummaryRow>, t: seq<SummaryRow>)
    ensures Sum(Map(s + t, Kontostand))
         == Sum(Map(s, Kontostand)) + Sum(Map(t, Kontostand))
  {
    var f := Kontostand;
    MapConcat(s, t, f);
    SumConcat(Map(s, f), Map(t, f));
  }
}
