/** The rows of the four SAP exports as the importer reads them (typed,
    undefined cells as `None`), the intermediate rows of the consolidation and
    the final per-project, per-year record. */
module Tables {
  import opened Wrappers
  import opened Dates

  /** A row of the master data export, reduced to columns 3, 4, 2, 7 and 10
      (PSP, PSPName, Status, Projektende, Geldgeber). Projektende is still text. */
  datatype Master = Master(
    psp: string,
    name: string,
    status: Option<string>,
    ende: Option<string>,
    geldgeber: Option<string>)

  /** A data row of the budget export: PSP, PSPName and Jahr (columns 0-2), the
      result marker of column 6 and the three amounts of columns 7-9
      (Budgetrest aus Vorjahr, Originalbudget, Sonstige Zuweisungen). */
  datatype RawBudget = RawBudget(
    psp: string,
    name: string,
    jahr: string,
    marker: Option<string>,
    rest: Option<real>,
    orig: Option<real>,
    sonst: Option<real>)

  /** A data row of the commitments export: Jahr (column 0), PSP and PSPName
      (columns 3 and 4) and Festlegungen (column 7). */
  datatype RawObligo = RawObligo(
    jahr: string,
    psp: string,
    name: string,
    fest: Option<real>)

  /** A data row of the account balance export: PSP, PSPName and Jahr (columns
      0-2; subtotal lines carry their marker in these columns) and the five
      amounts of columns 3-7 (Einnahmen ILA, Einnahmen-Ist, Eigen- und
      Industrieanteile, Ausgaben-Ist, Kontostand Jahr). */
  datatype RawKst = RawKst(
    psp: string,
    name: string,
    jahr: string,
    einIla: Option<real>,
    einIst: Option<real>,
    eigen: Option<real>,
    ausgaben: Option<real>,
    kontoJahr: Option<real>)

  /** The four exports: the fields of each file's first line and its data rows. */
  datatype SapInput = SapInput(
    masterHead: seq<string>,
    budgetHead: seq<string>,
    obligoHead: seq<string>,
    kstHead: seq<string>,
    master: seq<Master>,
    budget: seq<RawBudget>,
    obligo: seq<RawObligo>,
    kst: seq<RawKst>)

  /** The aggregation key (PSP, PSPName, Jahr). */
  datatype GroupKey = GroupKey(psp: string, name: string, jahr: string)

  /** A row of an aggregated table: its key and its amounts, in column order. */
  datatype Entry = Entry(key: GroupKey, amounts: seq<real>)

  /** Number of amount columns of the budget, commitments and balance tables. */
  const BudgetWidth: nat := 3
  const ObligoWidth: nat := 1
  const KstWidth: nat := 5

  /** The key of the outer merges: (PSP, PSPName, Status, Projektende, Geldgeber, Jahr). */
  datatype JoinKey = JoinKey(
    psp: string,
    name: string,
    status: Option<string>,
    ende: Option<string>,
    geldgeber: Option<string>,
    jahr: string)

  /** A row carrying a join key and amounts (a merged budget, commitments or balance row). */
  datatype Keyed = Keyed(key: JoinKey, amounts: seq<real>)

  /** A row after the second outer merge: the budget/commitment amounts
      (Budgetrest, Originalbudget, Sonstige Zuweisungen, Festlegungen) and the
      five balance amounts, each block undefined when the row has no partner
      on that side. */
  datatype Merged = Merged(key: JoinKey, bo: Option<seq<real>>, kst: Option<seq<real>>)

  /** The descriptive columns of a row of the consolidated table. */
  datatype Info = Info(
    name: string,                  // PSPName
    pa: string,                    // PA, the project type
    status: Option<string>,
    geldgeber: Option<string>,
    ende: Option<Date>,            // Projektende
    jahr: string)

  /** The amounts a row of the consolidated table takes from the three exports. */
  datatype Amounts = Amounts(
    rest: Option<real>,            // Budgetrest aus Vorjahr
    orig: Option<real>,            // Originalbudget
    sonst: Option<real>,           // Sonstige Zuweisungen
    fest: Option<real>,            // Festlegungen
    einIst: Option<real>,          // Einnahmen-Ist
    einIla: Option<real>,          // Einnahmen ILA
    eigen: Option<real>,           // Eigen- und Industrieanteile
    ausgaben: Option<real>,        // Ausgaben-Ist
    kontoJahr: Option<real>)       // Kontostand Jahr

  /** A row of the consolidated table (the columns of the detail report): the
      PSP, its descriptive columns, its amounts and the three derived balances. */
  datatype Record = Record(
    psp: string,
    info: Info,
    amounts: Amounts,
    endBudget: Option<real>,       // End Kontostand Budget
    endDm: Option<real>,           // End Kontostand DM
    konto: Option<real>)           // Kontostand

  /** The Jahr column of the consolidated table. */
  function RecordJahr(r: Record): string {
    r.info.jahr
  }
}
