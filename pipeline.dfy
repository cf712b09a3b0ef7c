/** `import_sap_csv`: the consolidation of the four SAP exports (master data,
    budget, commitments, account balances) into one table with a row per
    project and year, in the order of the program. The exports arrive as
    typed rows; reading and writing the files is not part of this model. */
module Pipeline {
  import opened Wrappers
  import opened Text
  import opened Dates
  import opened Ordering
  import opened Seqs
  import opened Config
  import opened Tables
  import opened Filters
  import opened Validation
  import opened Aggregation
  import opened Joins
  import opened Balances

  // ---------------------------------------------------------- header checks

  /** One pass of the header loop: the marker check of `kind` when
      `check_<kind>` is set. */
  function CheckHeader(options: map<string, string>, kind: string, head: seq<string>): Result<()> {
    var check :- Get(options, "check_" + kind);
    if Truthy(check) then CheckSapCsvContent(kind, head) else Ok(())
  }

  /** The header loop over the four exports, stopping at the first failure. */
  function CheckHeaders(options: map<string, string>, inp: SapInput): Result<()> {
    var a :- CheckHeader(options, "stammdaten", inp.masterHead);
    var b :- CheckHeader(options, "budget", inp.budgetHead);
    var c :- CheckHeader(options, "obligo", inp.obligoHead);
    CheckHeader(options, "kst", inp.kstHead)
  }

  /** Whether the header of `kind` is checked (`config['check_<kind>']`). */
  predicate Checked(options: map<string, string>, kind: string) {
    var v := Get(options, "check_" + kind);
    v.Ok? && Truthy(v.value)
  }

  /** An option whose name holds no "liste" is read without error. */
  lemma FlagReadable(options: map<string, string>, key: string)
    requires !Contains(key, "liste")
    ensures Get(options, key).Ok?
  {
  }

  /** No `check_` option name holds "liste". */
  lemma CheckKeyNoList(kind: string)
    requires kind in {"stammdaten", "budget", "obligo", "kst"}
    ensures !Contains("check_" + kind, "liste")
  {
    var c := if kind == "obligo" then 's' else 'l';
    assert c !in "check_" && c !in kind;
    assert c !in "check_" + kind;
    NotContains("check_" + kind, "liste", c);
  }

  /** The `check_` option of a kind is read without error. */
  lemma CheckKeyReadable(options: map<string, string>, kind: string)
    requires kind in {"stammdaten", "budget", "obligo", "kst"}
    ensures Get(options, "check_" + kind).Ok?
  {
    CheckKeyNoList(kind);
    FlagReadable(options, "check_" + kind);
  }

  /** A header check passes exactly when it is switched off or the export's
      first line carries the marker of its kind. */
  lemma CheckHeaderSpec(options: map<string, string>, kind: string, head: seq<string>)
    requires kind in {"stammdaten", "budget", "obligo", "kst"}
    ensures CheckHeader(options, kind, head).Ok? <==>
      !Checked(options, kind) || (|head| >= 2 && head[1] == Marker(kind).value)
    ensures CheckHeader(options, kind, head).Err? ==>
      CheckHeader(options, kind, head) == CheckSapCsvContent(kind, head)
  {
    CheckKeyReadable(options, kind);
  }

  /** The four checks together: the run passes them exactly when every
      checked export carries its own marker. */
  lemma CheckHeadersSpec(options: map<string, string>, inp: SapInput)
    ensures CheckHeaders(options, inp).Ok? <==>
      && (!Checked(options, "stammdaten") || (|inp.masterHead| >= 2 && inp.masterHead[1] == "Stammdaten HHP"))
      && (!Checked(options, "budget") || (|inp.budgetHead| >= 2 && inp.budgetHead[1] == "Budget"))
      && (!Checked(options, "obligo") || (|inp.obligoHead| >= 2 && inp.obligoHead[1] == "Obligos"))
      && (!Checked(options, "kst") || (|inp.kstHead| >= 2 && inp.kstHead[1] == "Kontostand"))
  {
    CheckHeaderSpec(options, "stammdaten", inp.masterHead);
    CheckHeaderSpec(options, "budget", inp.budgetHead);
    CheckHeaderSpec(options, "obligo", inp.obligoHead);
    CheckHeaderSpec(options, "kst", inp.kstHead);
  }

  /** The defaults switch every header check on. */
  lemma DefaultCheck(kind: string)
    requires kind in {"stammdaten", "budget", "obligo", "kst"}
    ensures "check_" + kind in Defaults() && Defaults()["check_" + kind] == BoolVal(true)
  {
    if kind == "stammdaten" { assert "check_" + kind == "check_stammdaten"; }
    else if kind == "budget" { assert "check_" + kind == "check_budget"; }
    else if kind == "obligo" { assert "check_" + kind == "check_obligo"; }
    else { assert "check_" + kind == "check_kst"; }
  }

  /** Without any `check_` option in the configuration all four headers are checked. */
  lemma DefaultChecksAll(options: map<string, string>, kind: string)
    requires kind in {"stammdaten", "budget", "obligo", "kst"}
    requires Lower("check_" + kind) !in options
    ensures Checked(options, kind)
  {
    DefaultCheck(kind);
  }

  // --------------------------------------------------------------- cleaning

  function BudgetMarker(r: RawBudget): Option<string> {
    r.marker
  }

  function KstJahrCell(r: RawKst): Option<string> {
    Some(r.jahr)
  }

  predicate NotGesamt(r: RawKst) {
    r.psp != "Gesamtergebnis"
  }

  /** The budget export without its result lines (column 6 mentions 'Ergebnis'). */
  function CleanBudget(rows: seq<RawBudget>): seq<RawBudget> {
    NotCont(rows, BudgetMarker, Substring("Ergebnis"))
  }

  /** The balance export without its result lines (Jahr mentions 'Ergebnis')
      and without the grand total line. */
  function CleanKst(rows: seq<RawKst>): seq<RawKst> {
    Filter(NotCont(rows, KstJahrCell, Substring("Ergebnis")), NotGesamt)
  }

  /** Cleaning keeps exactly the data lines, in their order; a budget line
      with an empty marker cell ("nan") is a data line. */
  lemma CleanSpec(budget: seq<RawBudget>, kst: seq<RawKst>)
    ensures forall x :: x in CleanBudget(budget) <==> x in budget && !Contains(CellText(x.marker), "Ergebnis")
    ensures forall x :: x in CleanKst(kst) <==>
      x in kst && !Contains(x.jahr, "Ergebnis") && x.psp != "Gesamtergebnis"
    ensures Subsequence(CleanBudget(budget), budget)
  {
    NotContSpec(budget, BudgetMarker, Substring("Ergebnis"));
    var k1 := NotCont(kst, KstJahrCell, Substring("Ergebnis"));
    NotContSpec(kst, KstJahrCell, Substring("Ergebnis"));
    forall x ensures x in CleanKst(kst) <==> x in k1 && NotGesamt(x) {
      FilterMembers(k1, NotGesamt, x);
    }
  }

  // ------------------------------------------------------------ projections

  /** The budget columns PSP, PSPName, Jahr and the three amounts, undefined amounts as 0. */
  function BudgetEntry(r: RawBudget): Entry {
    Entry(GroupKey(r.psp, r.name, r.jahr), [r.rest.GetOr(0.0), r.orig.GetOr(0.0), r.sonst.GetOr(0.0)])
  }

  function ObligoEntry(r: RawObligo): Entry {
    Entry(GroupKey(r.psp, r.name, r.jahr), [r.fest.GetOr(0.0)])
  }

  /** The balance columns in the order Einnahmen ILA, Einnahmen-Ist, Eigen- und
      Industrieanteile, Ausgaben-Ist, Kontostand Jahr. */
  function KstEntry(r: RawKst): Entry {
    Entry(GroupKey(r.psp, r.name, r.jahr),
          [r.einIla.GetOr(0.0), r.einIst.GetOr(0.0), r.eigen.GetOr(0.0), r.ausgaben.GetOr(0.0), r.kontoJahr.GetOr(0.0)])
  }

  function MasterPsp(m: Master): string {
    m.psp
  }

  function EntryPsp(e: Entry): string {
    e.key.psp
  }

  function EntryJahr(e: Entry): string {
    e.key.jahr
  }

  // ---------------------------------------------------------------- records

  /** Amount `i` of an optional block of amounts. */
  function Column(v: Option<seq<real>>, i: nat): Option<real> {
    if v.Some? && i < |v.value| then Some(v.value[i]) else None
  }

  /** The consolidated row of a merged row: the PA from the PSP (`str[3:5]`),
      the parsed Projektende and the amounts; the balances are not derived yet. */
  function RecordOf(m: Merged, ende: Option<Date>): Record {
    Record(
      m.key.psp,
      Info(m.key.name, Slice(m.key.psp, 3, 5), m.key.status, m.key.geldgeber, ende, m.key.jahr),
      Amounts(Column(m.bo, 0), Column(m.bo, 1), Column(m.bo, 2), Column(m.bo, 3),
              Column(m.kst, 1), Column(m.kst, 0), Column(m.kst, 2), Column(m.kst, 3), Column(m.kst, 4)),
      None, None, None)
  }

  /** `pd.to_datetime` on one cell: an empty cell stays empty (NaT). */
  function ParseEnde(c: Option<string>): (r: Result<Option<Date>>)
    ensures r.Ok? && r.value.Some? ==> IsValid(r.value.value)
    ensures r.Err? ==> r.error.DateParseError?
  {
    match c
    case None => Ok(None)
    case Some(s) =>
      var d :- ParseProjektende(s);
      Ok(Some(d))
  }

  /** The merged rows as consolidated rows; the column conversion fails on the
      first Projektende that is not a date. */
  function ToRecords(ms: seq<Merged>): (r: Result<seq<Record>>)
    ensures r.Ok? <==> forall k :: 0 <= k < |ms| ==> ParseEnde(ms[k].key.ende).Ok?
    ensures r.Ok? ==> |r.value| == |ms|
    ensures r.Ok? ==> forall k :: 0 <= k < |ms| ==> r.value[k] == RecordOf(ms[k], ParseEnde(ms[k].key.ende).value)
    ensures r.Err? ==> exists k :: 0 <= k < |ms| && ParseEnde(ms[k].key.ende) == Err(r.error)
    ensures r.Err? ==> r.error.DateParseError?
  {
    if ms == [] then Ok([])
    else
      match ParseEnde(ms[0].key.ende)
      case Err(e) => Err(e)
      case Ok(d) =>
        match ToRecords(ms[1..])
        case Err(e) =>
          assert forall k :: 0 < k < |ms| ==> ms[k] == ms[1..][k - 1];
          Err(e)
        case Ok(rest) =>
          assert forall k :: 0 < k < |ms| ==> ms[k] == ms[1..][k - 1];
          Ok([RecordOf(ms[0], d)] + rest)
  }

  /** A record's amounts are defined exactly where its merged row has the
      block they come from, and then they are that block's amounts. */
  lemma RecordOfSpec(m: Merged, ende: Option<Date>)
    requires m.bo.Some? ==> |m.bo.value| == BudgetWidth + ObligoWidth
    requires m.kst.Some? ==> |m.kst.value| == KstWidth
    ensures var a := RecordOf(m, ende).amounts;
      && (a.rest.Some? <==> m.bo.Some?) && (a.fest.Some? <==> m.bo.Some?)
      && (a.kontoJahr.Some? <==> m.kst.Some?) && (a.einIla.Some? <==> m.kst.Some?)
      && (m.bo.Some? ==> [a.rest.value, a.orig.value, a.sonst.value, a.fest.value] == m.bo.value)
      && (m.kst.Some? ==> [a.einIla.value, a.einIst.value, a.eigen.value, a.ausgaben.value, a.kontoJahr.value] == m.kst.value)
    ensures RecordOf(m, ende).info.pa == Slice(m.key.psp, 3, 5)
  {
  }

  // ------------------------------------------------------------ final order

  function EndePart(d: Option<Date>): KeyPart {
    if d.Some? then KDate(d.value) else KMissing
  }

  /** `sort_values(by=['PA', 'Projektende', 'PSP', 'Jahr', 'Status'])`, empty cells last. */
  function ReportKey(r: Record): SortKey {
    [KStr(r.info.pa), EndePart(r.info.ende), KStr(r.psp), KStr(r.info.jahr), KeyPartOf(r.info.status)]
  }

  function StatusCell(r: Record): Option<string> {
    r.info.status
  }

  // ------------------------------------------------------------ consolidate

  /** The result of the import: the unit code and the consolidated rows. */
  datatype Imported = Imported(ikz: string, rows: seq<Record>)

  /** The aggregated budget, commitments and balance tables. */
  function BudgetGroups(inp: SapInput): seq<Entry> {
    GroupSum(Map(CleanBudget(inp.budget), BudgetEntry), BudgetWidth)
  }

  function ObligoGroups(inp: SapInput): seq<Entry> {
    GroupSum(Map(inp.obligo, ObligoEntry), ObligoWidth)
  }

  function KstGroups(inp: SapInput): seq<Entry> {
    GroupSum(Map(CleanKst(inp.kst), KstEntry), KstWidth)
  }

  function BudgetPsp(r: RawBudget): string {
    r.psp
  }

  function ObligoPsp(r: RawObligo): string {
    r.psp
  }

  function KstPsp(r: RawKst): string {
    r.psp
  }

  /** The unit code of the run, from the PSP columns of the four tables (the
      projected tables keep the PSP column of the exports). */
  function Units(inp: SapInput): Result<string> {
    RunUnit(Map(inp.master, MasterPsp), Map(CleanBudget(inp.budget), BudgetPsp),
            Map(inp.obligo, ObligoPsp), Map(CleanKst(inp.kst), KstPsp))
  }

  /** The unit code of the first master row. */
  function MasterUnit(inp: SapInput): string {
    if inp.master == [] then "" else UnitCode(inp.master[0].psp)
  }

  /** The joined rows: budget and commitments, each joined with the master
      data, outer-joined with each other and their gaps filled, then
      outer-joined with the balances joined with the master data. */
  function MergedRows(inp: SapInput): seq<Merged> {
    var bo := BudgetObligo(MasterJoin(BudgetGroups(inp), inp.master), MasterJoin(ObligoGroups(inp), inp.master));
    BudgetKst(bo, MasterJoin(KstGroups(inp), inp.master))
  }

  /** The merged table before the balances: unit check, aggregation, year
      check, the joins and the conversion of Projektende, in this order. */
  function Merge(inp: SapInput): (r: Result<Imported>)
    ensures Units(inp).Err? ==> r == Err(Units(inp).error)
    ensures Units(inp).Ok? && r.Err? ==> r.error == InsufficientYears || r.error.DateParseError?
  {
    var ikz :- Units(inp);
    var y1 :- CheckJahr(Map(BudgetGroups(inp), EntryJahr));
    var y2 :- CheckJahr(Map(KstGroups(inp), EntryJahr));
    var recs :- ToRecords(MergedRows(inp));
    Ok(Imported(ikz, recs))
  }

  /** The merge succeeds exactly when each of its stages does; it then holds
      the unit code and the converted rows, and a failing unit check is
      reported before anything else. */
  lemma MergeSpec(inp: SapInput)
    ensures Merge(inp).Ok? <==>
      && Units(inp).Ok? && CheckJahr(Map(BudgetGroups(inp), EntryJahr)).Ok?
      && CheckJahr(Map(KstGroups(inp), EntryJahr)).Ok? && ToRecords(MergedRows(inp)).Ok?
    ensures Merge(inp).Ok? ==> Merge(inp).value == Imported(Units(inp).value, ToRecords(MergedRows(inp)).value)
    ensures Units(inp).Err? ==> Merge(inp) == Err(Units(inp).error)
  {
  }

  /** The consolidated table: the merged rows with their balances, sorted for the report. */
  function Consolidate(inp: SapInput): Result<Imported> {
    var m :- Merge(inp);
    Ok(Imported(m.ikz, SortBy(DeriveBalances(m.rows), ReportKey)))
  }

  /** The optional removal of finished projects and then of the latest year. */
  function Select(rmBeendet: bool, rmCurrentYear: bool, rows: seq<Record>): seq<Record> {
    var rows1 := if rmBeendet then NotCont(rows, StatusCell, Substring("beendet")) else rows;
    if rmCurrentYear then RemCurrentYear(rows1, RecordJahr) else rows1
  }

  predicate RmBeendet(options: map<string, string>) {
    Get(options, "rm_beendet").Ok? && Truthy(Get(options, "rm_beendet").value)
  }

  predicate RmCurrentYear(options: map<string, string>) {
    Get(options, "rm_current_year").Ok? && Truthy(Get(options, "rm_current_year").value)
  }

  predicate Obfuscated(options: map<string, string>) {
    Get(options, "obfuscated").Ok? && Truthy(Get(options, "obfuscated").value)
  }

  // ------------------------------------------------------------ obfuscation

  /** `x * (1 + n)` on one cell. */
  function Noisy(x: Option<real>, n: real): Option<real> {
    if x.Some? then Some(x.value * (1.0 + n)) else None
  }

  /** Noise on the twelve numeric columns of row `i`, numbered in the order of
      the detail report (Budgetrest aus Vorjahr = 0 … Kontostand = 11). */
  function AddNoiseRow(r: Record, i: nat, noise: (nat, nat) -> real): Record {
    var a := r.amounts;
    r.(amounts := Amounts(
         Noisy(a.rest, noise(i, 0)), Noisy(a.orig, noise(i, 1)), Noisy(a.sonst, noise(i, 2)),
         Noisy(a.fest, noise(i, 3)), Noisy(a.einIst, noise(i, 5)), Noisy(a.einIla, noise(i, 6)),
         Noisy(a.eigen, noise(i, 7)), Noisy(a.ausgaben, noise(i, 8)), Noisy(a.kontoJahr, noise(i, 9))),
       endBudget := Noisy(r.endBudget, noise(i, 4)),
       endDm := Noisy(r.endDm, noise(i, 10)),
       konto := Noisy(r.konto, noise(i, 11)))
  }

  /** `add_noise_to_numbers`; the uniform samples are the parameter `noise`. */
  function AddNoise(rows: seq<Record>, noise: (nat, nat) -> real): (r: seq<Record>)
    ensures |r| == |rows|
  {
    seq(|rows|, i requires 0 <= i < |rows| => AddNoiseRow(rows[i], i, noise))
  }

  /** The PSP with its unit code replaced by zeros: `x[:5] + '000000' + x[11:]`. */
  function ObfuscatePspText(p: string): string {
    Slice(p, 0, 5) + "000000" + Slice(p, 11, |p|)
  }

  /** `obfuscate_psp` on one row: the PSP loses its unit code, the name
      becomes as many 'x' as it has characters. */
  function ObfuscateRow(r: Record): Record {
    r.(psp := ObfuscatePspText(r.psp), info := r.info.(name := Repeat('x', |r.info.name|)))
  }

  /** `import_sap_csv`: checks, consolidation, selection and the optional
      obfuscation, which also replaces the unit code of the run by zeros. */
  function ImportSapCsv(options: map<string, string>, inp: SapInput, noise: (nat, nat) -> real): Result<Imported> {
    var h :- CheckHeaders(options, inp);
    var c :- Consolidate(inp);
    Finish(options, c, noise)
  }

  /** The steps after the consolidation: selection and the optional obfuscation. */
  function Finish(options: map<string, string>, c: Imported, noise: (nat, nat) -> real): Result<Imported> {
    var rm :- Get(options, "rm_beendet");
    var rc :- Get(options, "rm_current_year");
    var rows := Select(Truthy(rm), Truthy(rc), c.rows);
    var ob :- Get(options, "obfuscated");
    if Truthy(ob) then Ok(Imported("000000", Map(AddNoise(rows, noise), ObfuscateRow)))
    else Ok(Imported(c.ikz, rows))
  }

  // ------------------------------------------------ properties of the merge

  /** The unit check passes exactly when the master data, the cleaned budget
      and balance exports and the commitments are all non-empty and every PSP
      in them carries the unit code of the first master row, which is then
      the unit code of the run. */
  lemma UnitsSpec(inp: SapInput)
    ensures Units(inp).Ok? <==>
      && inp.master != [] && CleanBudget(inp.budget) != [] && inp.obligo != [] && CleanKst(inp.kst) != []
      && AllUnit(inp.master, MasterPsp, MasterUnit(inp))
      && AllUnit(CleanBudget(inp.budget), BudgetPsp, MasterUnit(inp))
      && AllUnit(inp.obligo, ObligoPsp, MasterUnit(inp))
      && AllUnit(CleanKst(inp.kst), KstPsp, MasterUnit(inp))
    ensures Units(inp).Ok? ==> Units(inp).value == MasterUnit(inp)
  {
    GetIkzOf(inp.master, MasterPsp);
    GetIkzOf(CleanBudget(inp.budget), BudgetPsp);
    GetIkzOf(inp.obligo, ObligoPsp);
    GetIkzOf(CleanKst(inp.kst), KstPsp);
  }

  /** Two aggregated entries with different years come from two rows with different years. */
  lemma GroupYearsAt(rows: seq<Entry>, w: nat, a: nat, b: nat)
    requires HasWidth(rows, w) && a < |GroupSum(rows, w)| && b < |GroupSum(rows, w)|
    requires EntryJahr(GroupSum(rows, w)[a]) != EntryJahr(GroupSum(rows, w)[b])
    ensures TwoYears(rows, EntryJahr)
  {
    var i := GroupSumKeyFrom(rows, w, a);
    var j := GroupSumKeyFrom(rows, w, b);
    assert EntryJahr(rows[i]) != EntryJahr(rows[j]);
  }

  /** An aggregated table with two years comes from rows of two years. */
  lemma GroupYears(rows: seq<Entry>, w: nat)
    requires HasWidth(rows, w) && TwoYears(GroupSum(rows, w), EntryJahr)
    ensures TwoYears(rows, EntryJahr)
  {
    var g := GroupSum(rows, w);
    var a, b :| 0 <= a < |g| && 0 <= b < |g| && EntryJahr(g[a]) != EntryJahr(g[b]);
    GroupYearsAt(rows, w, a, b);
  }

  /** Years of projected rows are years of the rows they come from. */
  lemma ProjectedYears<T>(rows: seq<T>, f: T -> Entry, jahr: T -> string)
    requires forall x :: EntryJahr(f(x)) == jahr(x)
    requires TwoYears(Map(rows, f), EntryJahr)
    ensures TwoYears(rows, jahr)
  {
    var es := Map(rows, f);
    var i, j :| 0 <= i < |es| && 0 <= j < |es| && EntryJahr(es[i]) != EntryJahr(es[j]);
    assert jahr(rows[i]) != jahr(rows[j]);
  }

  function BudgetJahr(r: RawBudget): string {
    r.jahr
  }

  function KstJahr(r: RawKst): string {
    r.jahr
  }

  /** A successful run saw at least two years in the cleaned budget export
      and two in the cleaned balance export. */
  lemma MergeYears(inp: SapInput)
    requires Merge(inp).Ok?
    ensures TwoYears(CleanBudget(inp.budget), BudgetJahr)
    ensures TwoYears(CleanKst(inp.kst), KstJahr)
  {
    MergeSpec(inp);
    CheckJahrOf(BudgetGroups(inp), EntryJahr);
    CheckJahrOf(KstGroups(inp), EntryJahr);
    GroupYears(Map(CleanBudget(inp.budget), BudgetEntry), BudgetWidth);
    ProjectedYears(CleanBudget(inp.budget), BudgetEntry, BudgetJahr);
    GroupYears(Map(CleanKst(inp.kst), KstEntry), KstWidth);
    ProjectedYears(CleanKst(inp.kst), KstEntry, KstJahr);
  }

  /** A joined row has budget/commitment amounts or balance amounts (or
      both), each block complete. */
  predicate MergedShape(x: Merged) {
    && (x.bo.Some? || x.kst.Some?)
    && (x.bo.Some? ==> |x.bo.value| == BudgetWidth + ObligoWidth)
    && (x.kst.Some? ==> |x.kst.value| == KstWidth)
  }

  /** A consolidated row: the PA is `psp[3:5]`, the budget and commitment
      amounts are defined together, the balance amounts together, one of the
      two blocks is there, and the Projektende is a real date. */
  predicate RecordShape(r: Record) {
    && r.info.pa == Slice(r.psp, 3, 5)
    && (r.amounts.rest.Some? <==> r.amounts.fest.Some?)
    && (r.amounts.kontoJahr.Some? <==> r.amounts.einIla.Some?)
    && (r.amounts.rest.Some? || r.amounts.kontoJahr.Some?)
    && (r.info.ende.Some? ==> IsValid(r.info.ende.value))
  }

  lemma MergedRowsShape(inp: SapInput)
    ensures forall k :: 0 <= k < |MergedRows(inp)| ==> MergedShape(MergedRows(inp)[k])
  {
    var bj := MasterJoin(BudgetGroups(inp), inp.master);
    var oj := MasterJoin(ObligoGroups(inp), inp.master);
    var kj := MasterJoin(KstGroups(inp), inp.master);
    MasterJoinWidths(BudgetGroups(inp), inp.master, BudgetWidth);
    MasterJoinWidths(ObligoGroups(inp), inp.master, ObligoWidth);
    MasterJoinWidths(KstGroups(inp), inp.master, KstWidth);
    BudgetObligoFilled(bj, oj);
    var ms := BudgetKst(BudgetObligo(bj, oj), kj);
    assert ms == MergedRows(inp);
    forall k | 0 <= k < |ms| ensures MergedShape(ms[k]) {
      BudgetKstShape(BudgetObligo(bj, oj), kj, ms[k]);
    }
  }

  lemma RecordsShape(ms: seq<Merged>)
    requires forall k :: 0 <= k < |ms| ==> MergedShape(ms[k])
    requires ToRecords(ms).Ok?
    ensures forall k :: 0 <= k < |ToRecords(ms).value| ==> RecordShape(ToRecords(ms).value[k])
  {
    forall k | 0 <= k < |ms| ensures RecordShape(ToRecords(ms).value[k]) {
      RecordOfSpec(ms[k], ParseEnde(ms[k].key.ende).value);
    }
  }

  /** Every row of a successful merge has the shape of a consolidated row. */
  lemma MergeRows(inp: SapInput)
    requires Merge(inp).Ok?
    ensures forall k :: 0 <= k < |Merge(inp).value.rows| ==> RecordShape(Merge(inp).value.rows[k])
  {
    MergeSpec(inp);
    MergedRowsShape(inp);
    RecordsShape(MergedRows(inp));
  }

  /** Per project, the consolidated rows are the three balance steps applied
      to that project's merged rows (in the report's order). */
  lemma ConsolidateProject(inp: SapInput, p: string)
    requires Consolidate(inp).Ok?
    ensures multiset(Filter(Consolidate(inp).value.rows, PspIs(p))) ==
            multiset(ProjectBalances(Filter(Merge(inp).value.rows, PspIs(p))))
  {
    var d := DeriveBalances(Merge(inp).value.rows);
    FilterMultiset(SortBy(d, ReportKey), d, PspIs(p));
    DeriveBalancesProject(Merge(inp).value.rows, p);
  }

  // -------------------------------------------------------------- selection

  /** The removal of finished projects keeps exactly the rows whose Status
      does not mention 'beendet'; an empty Status reads as "nan" and stays. */
  lemma BeendetSpec(rows: seq<Record>)
    ensures forall x :: x in NotCont(rows, StatusCell, Substring("beendet")) <==>
      x in rows && !Contains(CellText(x.info.status), "beendet")
  {
    NotContSpec(rows, StatusCell, Substring("beendet"));
  }

  /** The selection keeps a sorted table sorted. */
  lemma SelectSorted(rmBeendet: bool, rmCurrentYear: bool, rows: seq<Record>)
    requires SortedBy(rows, ReportKey)
    ensures SortedBy(Select(rmBeendet, rmCurrentYear, rows), ReportKey)
  {
    NotContSorted(rows, StatusCell, Substring("beendet"), ReportKey);
    var rows1 := if rmBeendet then NotCont(rows, StatusCell, Substring("beendet")) else rows;
    RemCurrentYearSorted(rows1, RecordJahr, ReportKey);
  }

  /** The selection adds no row, removes every finished project when asked
      to, and removes nothing else unless the latest year goes as well. */
  lemma SelectMembers(rmBeendet: bool, rmCurrentYear: bool, rows: seq<Record>)
    ensures forall x :: x in Select(rmBeendet, rmCurrentYear, rows) ==>
      x in rows && (rmBeendet ==> !Contains(CellText(x.info.status), "beendet"))
    ensures !rmCurrentYear ==> forall x :: x in rows && (rmBeendet ==> !Contains(CellText(x.info.status), "beendet")) ==>
      x in Select(rmBeendet, rmCurrentYear, rows)
  {
    BeendetSpec(rows);
    var rows1 := if rmBeendet then NotCont(rows, StatusCell, Substring("beendet")) else rows;
    RemCurrentYearSubset(rows1, RecordJahr);
  }

  /** Removing the latest year alone drops that year and keeps every other. */
  lemma SelectLatestYear(rows: seq<Record>)
    requires rows != []
    ensures forall x :: x in Select(false, true, rows) <==> x in rows && x.info.jahr != MaxStr(Map(rows, RecordJahr))
  {
    RemCurrentYearSpec(rows, RecordJahr);
  }

  // ------------------------------------------------------------ obfuscation

  /** A PSP of eleven or more characters keeps its length, its first five
      characters (so its PA) and everything after the unit code, which becomes
      "000000". */
  lemma ObfuscatePspSpec(p: string)
    requires |p| >= 11
    ensures |ObfuscatePspText(p)| == |p|
    ensures ObfuscatePspText(p)[..5] == p[..5] && ObfuscatePspText(p)[11..] == p[11..]
    ensures UnitCode(ObfuscatePspText(p)) == "000000"
    ensures Slice(ObfuscatePspText(p), 3, 5) == Slice(p, 3, 5)
  {
    var q := ObfuscatePspText(p);
    assert q == p[..5] + "000000" + p[11..];
    assert q[5..11] == "000000";
  }

  /** `obfuscate_psp` on one row: the name turns into as many 'x' as it had
      characters; everything but the PSP and the name stays. */
  lemma ObfuscateRowSpec(r: Record)
    ensures var o := ObfuscateRow(r);
      && o.psp == ObfuscatePspText(r.psp)
      && |o.info.name| == |r.info.name| && (forall k :: 0 <= k < |o.info.name| ==> o.info.name[k] == 'x')
      && o.info.pa == r.info.pa && o.info.status == r.info.status && o.info.geldgeber == r.info.geldgeber
      && o.info.ende == r.info.ende && o.info.jahr == r.info.jahr
      && o.amounts == r.amounts && o.endBudget == r.endBudget && o.endDm == r.endDm && o.konto == r.konto
  {
  }

  function Abs(x: real): real {
    if x < 0.0 then -x else x
  }

  /** `np.random.uniform(-0.25, 0.25)`: every sample lies in [-0.25, 0.25). */
  ghost predicate NoiseInRange(noise: (nat, nat) -> real) {
    forall i: nat, c: nat :: -0.25 <= noise(i, c) < 0.25
  }

  /** A cell and its noisy version: both defined or both undefined, of the
      same sign, and at most a quarter of the value apart. */
  predicate Near(x: Option<real>, y: Option<real>) {
    && (x.Some? <==> y.Some?)
    && (x.Some? ==>
         && Abs(y.value - x.value) <= Abs(x.value) / 4.0
         && (x.value > 0.0 <==> y.value > 0.0)
         && (x.value < 0.0 <==> y.value < 0.0))
  }

  /** A product of two non-negative numbers is non-negative. */
  lemma MulNonNeg(a: real, b: real)
    requires a >= 0.0 && b >= 0.0
    ensures a * b >= 0.0
  {
  }

  /** Scaling by `1 + n` with |n| ≤ 1/4 moves a value by at most a quarter of it. */
  lemma ScaleBounds(v: real, n: real)
    requires -0.25 <= n < 0.25
    ensures Abs(v * (1.0 + n) - v) <= Abs(v) / 4.0
    ensures v > 0.0 ==> v * (1.0 + n) > 0.0
    ensures v < 0.0 ==> v * (1.0 + n) < 0.0
  {
    var w := Abs(v);
    MulNonNeg(w, 0.25 - n);
    MulNonNeg(w, 0.25 + n);
    MulNonNeg(w, 0.75 + n);
    assert v * (1.0 + n) - v == v * n;
    if v >= 0.0 {
      assert w * (0.25 - n) == w * 0.25 - v * n;
      assert w * (0.25 + n) == w * 0.25 + v * n;
      assert v * (1.0 + n) == w * (0.75 + n) + w * 0.25;
    } else {
      assert w * (0.25 - n) == w * 0.25 + v * n;
      assert w * (0.25 + n) == w * 0.25 - v * n;
      assert v * (1.0 + n) == -(w * (0.75 + n) + w * 0.25);
    }
  }

  /** Noise of at most a quarter keeps a cell near its value. */
  lemma NoisyNear(x: Option<real>, n: real)
    requires -0.25 <= n < 0.25
    ensures Near(x, Noisy(x, n))
  {
    if x.Some? {
      ScaleBounds(x.value, n);
    }
  }

  /** A row and its noisy version: same PSP and text columns, every amount near. */
  predicate NearRow(r: Record, s: Record) {
    var a, b := r.amounts, s.amounts;
    && s.psp == r.psp && s.info == r.info
    && Near(a.rest, b.rest) && Near(a.orig, b.orig) && Near(a.sonst, b.sonst) && Near(a.fest, b.fest)
    && Near(a.einIst, b.einIst) && Near(a.einIla, b.einIla) && Near(a.eigen, b.eigen)
    && Near(a.ausgaben, b.ausgaben) && Near(a.kontoJahr, b.kontoJahr)
    && Near(r.endBudget, s.endBudget) && Near(r.endDm, s.endDm) && Near(r.konto, s.konto)
  }

  lemma AddNoiseRowNear(r: Record, i: nat, noise: (nat, nat) -> real)
    requires NoiseInRange(noise)
    ensures NearRow(r, AddNoiseRow(r, i, noise))
  {
    var a := r.amounts;
    NoisyNear(a.rest, noise(i, 0));
    NoisyNear(a.orig, noise(i, 1));
    NoisyNear(a.sonst, noise(i, 2));
    NoisyNear(a.fest, noise(i, 3));
    NoisyNear(r.endBudget, noise(i, 4));
    NoisyNear(a.einIst, noise(i, 5));
    NoisyNear(a.einIla, noise(i, 6));
    NoisyNear(a.eigen, noise(i, 7));
    NoisyNear(a.ausgaben, noise(i, 8));
    NoisyNear(a.kontoJahr, noise(i, 9));
    NoisyNear(r.endDm, noise(i, 10));
    NoisyNear(r.konto, noise(i, 11));
  }

  /** `add_noise_to_numbers` keeps the rows and their order and moves every
      amount by at most a quarter, never across zero; undefined cells stay
      undefined. */
  lemma AddNoiseSpec(rows: seq<Record>, noise: (nat, nat) -> real)
    requires NoiseInRange(noise)
    ensures forall i :: 0 <= i < |rows| ==> NearRow(rows[i], AddNoise(rows, noise)[i])
  {
    forall i | 0 <= i < |rows| ensures NearRow(rows[i], AddNoise(rows, noise)[i]) {
      AddNoiseRowNear(rows[i], i, noise);
    }
  }

  // ----------------------------------------------------------------- import

  /** The three switches after the consolidation are read without error. */
  lemma SwitchesReadable(options: map<string, string>)
    ensures Get(options, "rm_beendet").Ok? && Get(options, "rm_current_year").Ok?
    ensures Get(options, "obfuscated").Ok?
  {
    SwitchNames();
    FlagReadable(options, "rm_beendet");
    FlagReadable(options, "rm_current_year");
    FlagReadable(options, "obfuscated");
  }

  lemma SwitchNames()
    ensures !Contains("rm_beendet", "liste") && !Contains("rm_current_year", "liste")
    ensures !Contains("obfuscated", "liste")
  {
    NotContains("rm_beendet", "liste", 'l');
    NotContains("rm_current_year", "liste", 'l');
    NotContains("obfuscated", "liste", 'l');
  }

  /** The import succeeds exactly when the header checks and the
      consolidation do; a header error comes first. Its result is the
      selection of the consolidated rows with the run's unit code, or, when
      obfuscated, their noisy and renamed version with the unit code "000000". */
  lemma ImportSapCsvSpec(options: map<string, string>, inp: SapInput, noise: (nat, nat) -> real)
    ensures ImportSapCsv(options, inp, noise).Ok? <==> CheckHeaders(options, inp).Ok? && Consolidate(inp).Ok?
    ensures CheckHeaders(options, inp).Err? ==> ImportSapCsv(options, inp, noise) == Err(CheckHeaders(options, inp).error)
    ensures CheckHeaders(options, inp).Ok? && Consolidate(inp).Ok? && !Obfuscated(options) ==>
      ImportSapCsv(options, inp, noise) ==
        Ok(Imported(Consolidate(inp).value.ikz, Select(RmBeendet(options), RmCurrentYear(options), Consolidate(inp).value.rows)))
    ensures CheckHeaders(options, inp).Ok? && Consolidate(inp).Ok? && Obfuscated(options) ==>
      ImportSapCsv(options, inp, noise) ==
        Ok(Imported("000000", Map(AddNoise(Select(RmBeendet(options), RmCurrentYear(options), Consolidate(inp).value.rows), noise), ObfuscateRow)))
  {
    if CheckHeaders(options, inp).Ok? && Consolidate(inp).Ok? {
      FinishSpec(options, Consolidate(inp).value, noise);
    }
  }

  /** The errors of the unit check. */
  predicate UnitError(e: Error) {
    e == NoUnit || e == AmbiguousUnit || e == UnitMismatch
  }

  /** Every table has a row and every PSP of the four tables carries the unit
      code of the first master row. */
  predicate UnitsAgree(inp: SapInput) {
    && inp.master != [] && CleanBudget(inp.budget) != [] && inp.obligo != [] && CleanKst(inp.kst) != []
    && AllUnit(inp.master, MasterPsp, MasterUnit(inp))
    && AllUnit(CleanBudget(inp.budget), BudgetPsp, MasterUnit(inp))
    && AllUnit(inp.obligo, ObligoPsp, MasterUnit(inp))
    && AllUnit(CleanKst(inp.kst), KstPsp, MasterUnit(inp))
  }

  /** Once the headers pass, the import fails with a unit error exactly when
      a table is empty or some PSP carries another unit code than the first
      master row; the later checks (years, Projektende) never report one. */
  lemma ImportUnitError(options: map<string, string>, inp: SapInput, noise: (nat, nat) -> real)
    ensures CheckHeaders(options, inp).Ok? ==>
      (ImportSapCsv(options, inp, noise).Err? && UnitError(ImportSapCsv(options, inp, noise).error)
       <==> !UnitsAgree(inp))
  {
    UnitsSpec(inp);
    ImportStages(options, inp, noise);
    MergeErrors(inp);
  }

  /** The merge fails with a unit error exactly when the unit check fails. */
  lemma MergeErrors(inp: SapInput)
    ensures Merge(inp).Err? && UnitError(Merge(inp).error) <==> Units(inp).Err?
  {
    UnitsErrors(inp);
  }

  /** A failing unit check reports a unit error. */
  lemma UnitsErrors(inp: SapInput)
    ensures Units(inp).Err? ==> UnitError(Units(inp).error)
  {
  }

  /** The import after passing headers: a failing merge ends it with the
      merge's error; a successful import had a successful merge and carries
      its unit code, or 000000 when obfuscated. */
  lemma ImportStages(options: map<string, string>, inp: SapInput, noise: (nat, nat) -> real)
    ensures CheckHeaders(options, inp).Ok? && Merge(inp).Err? ==>
      ImportSapCsv(options, inp, noise) == Err(Merge(inp).error)
    ensures CheckHeaders(options, inp).Ok? && Merge(inp).Ok? ==> ImportSapCsv(options, inp, noise).Ok?
    ensures ImportSapCsv(options, inp, noise).Ok? ==> CheckHeaders(options, inp).Ok? && Merge(inp).Ok?
    ensures ImportSapCsv(options, inp, noise).Ok? ==>
      ImportSapCsv(options, inp, noise).value.ikz == if Obfuscated(options) then "000000" else Merge(inp).value.ikz
  {
    if CheckHeaders(options, inp).Ok? && Merge(inp).Ok? {
      var c := Consolidate(inp).value;
      assert c.ikz == Merge(inp).value.ikz;
      assert ImportSapCsv(options, inp, noise) == Finish(options, c, noise);
      FinishSpec(options, c, noise);
    }
  }

  /** A successful import carries the unit code of the first master row
      (000000 when obfuscated), and every PSP of the four tables carries it. */
  lemma ImportUnitCode(options: map<string, string>, inp: SapInput, noise: (nat, nat) -> real)
    ensures ImportSapCsv(options, inp, noise).Ok? ==> UnitsAgree(inp)
    ensures ImportSapCsv(options, inp, noise).Ok? ==>
      ImportSapCsv(options, inp, noise).value.ikz == if Obfuscated(options) then "000000" else MasterUnit(inp)
  {
    UnitsSpec(inp);
    ImportStages(options, inp, noise);
    MergeSpec(inp);
  }

  /** The selection and obfuscation cannot fail. */
  lemma FinishSpec(options: map<string, string>, c: Imported, noise: (nat, nat) -> real)
    ensures var rows := Select(RmBeendet(options), RmCurrentYear(options), c.rows);
      Finish(options, c, noise) ==
        if Obfuscated(options) then Ok(Imported("000000", Map(AddNoise(rows, noise), ObfuscateRow)))
        else Ok(Imported(c.ikz, rows))
  {
    SwitchesReadable(options);
  }

  /** Without obfuscation the imported rows are in the report's order, carry
      the unit code of the run, come from the consolidated table, and hold no
      finished project when these are to be removed. */
  lemma ImportPlain(options: map<string, string>, inp: SapInput, noise: (nat, nat) -> real)
    requires ImportSapCsv(options, inp, noise).Ok? && !Obfuscated(options)
    ensures Merge(inp).Ok? && ImportSapCsv(options, inp, noise).value.ikz == Merge(inp).value.ikz
    ensures SortedBy(ImportSapCsv(options, inp, noise).value.rows, ReportKey)
    ensures forall x :: x in ImportSapCsv(options, inp, noise).value.rows ==>
      x in Consolidate(inp).value.rows && (RmBeendet(options) ==> !Contains(CellText(x.info.status), "beendet"))
  {
    var c := Consolidate(inp).value;
    assert ImportSapCsv(options, inp, noise) == Finish(options, c, noise);
    FinishSpec(options, c, noise);
    SelectSorted(RmBeendet(options), RmCurrentYear(options), c.rows);
    SelectMembers(RmBeendet(options), RmCurrentYear(options), c.rows);
  }

  /** With obfuscation every imported row is a selected consolidated row with
      the unit code zeroed, the name made unreadable, and every amount near
      its true value; PA, Status, Geldgeber, Projektende and Jahr stay. */
  lemma ImportObfuscated(options: map<string, string>, inp: SapInput, noise: (nat, nat) -> real)
    requires ImportSapCsv(options, inp, noise).Ok? && Obfuscated(options) && NoiseInRange(noise)
    ensures var sel := Select(RmBeendet(options), RmCurrentYear(options), Consolidate(inp).value.rows);
      var out := ImportSapCsv(options, inp, noise).value;
      && out.ikz == "000000" && |out.rows| == |sel|
      && forall i :: 0 <= i < |sel| ==>
        && out.rows[i].psp == ObfuscatePspText(sel[i].psp)
        && |out.rows[i].info.name| == |sel[i].info.name|
        && out.rows[i].info == sel[i].info.(name := out.rows[i].info.name)
        && NearRow(sel[i], out.rows[i].(psp := sel[i].psp, info := sel[i].info))
  {
    var c := Consolidate(inp).value;
    assert ImportSapCsv(options, inp, noise) == Finish(options, c, noise);
    FinishSpec(options, c, noise);
    var sel := Select(RmBeendet(options), RmCurrentYear(options), c.rows);
    ObfuscatedRows(sel, noise);
  }

  /** The rows after noise and obfuscation, row by row against the rows before. */
  lemma ObfuscatedRows(sel: seq<Record>, noise: (nat, nat) -> real)
    requires NoiseInRange(noise)
    ensures var rows := Map(AddNoise(sel, noise), ObfuscateRow);
      && |rows| == |sel|
      && forall i :: 0 <= i < |sel| ==>
        && rows[i].psp == ObfuscatePspText(sel[i].psp)
        && |rows[i].info.name| == |sel[i].info.name|
        && rows[i].info == sel[i].info.(name := rows[i].info.name)
        && NearRow(sel[i], rows[i].(psp := sel[i].psp, info := sel[i].info))
  {
    var noisy := AddNoise(sel, noise);
    AddNoiseSpec(sel, noise);
    forall i | 0 <= i < |sel|
      ensures Map(noisy, ObfuscateRow)[i].psp == ObfuscatePspText(sel[i].psp)
      ensures NearRow(sel[i], Map(noisy, ObfuscateRow)[i].(psp := sel[i].psp, info := sel[i].info))
    {
      ObfuscateRowSpec(noisy[i]);
    }
  }
}
