# LSControlling in Dafny

LSControlling produces the third-party-funds report of one institute (one
"IKZ", the unit code inside every PSP number). It reads four SAP exports:
master data (Stammdaten), budget, commitments (Obligo) and account balances
(Kontostand). It checks them, consolidates them into one row per project
and year, and derives a running balance per project. It then summarises the
balances by project type (PA) into the rows of a summary table, colours that
table, and builds a per-project view.

This project models that core, from `funktionen.py` and the driver
`lscontrolling.py`:

- **Configuration** (`Config`): the built-in defaults, and the conversion
  of INI values to booleans, int lists, ints or text.
- **Import checks** (`Validation`, `Pipeline`):
  - the marker in the first line of each export;
  - the single unit code of all four exports;
  - at least two years in the budget and balance exports.
- **Consolidation** (`Filters`, `Aggregation`, `Joins`, `Pipeline`):
  - result lines removed;
  - amounts summed per PSP, PSPName and Jahr;
  - inner joins with the master data and the two outer joins on the full
    key;
  - the project type taken from the PSP, and the end date parsed.
- **Balances** (`Balances`): per project, the three passes
  `calculate_cumsum`, `shift_kontostand` and `choose_kontostand`. Each
  pass is also an in-place method over an array of one project's rows.
- **Selection and obfuscation** (`Pipeline`): sorting, removal of finished
  projects and of the latest year, and the optional obfuscation (noise on
  amounts, zeroed unit code, unreadable names).
- **Report** (`Report`, `Colours`):
  - the job list `pa_rel` as a class whose `seq` field the methods extend;
  - `PABericht` as a class whose `summary` field `pa_auflistung` extends;
  - the year grouping, the rounding to cents, and the summary with its
    'Summe' row;
  - the German Euro rendering and its parser, and the colour rules of the
    summary table as a loop proved against a specification function.
- **Project view** (`Projects`): `agg_proj`.
- **Driver** (`Driver`): the cut-off dates, the four account slices, the
  two loops that fill `pa_rel`, the run over all jobs, and the whole run as
  a method proved against a function of its inputs.

pandas tables are sequences of records. An empty Status, Projektende or
Geldgeber cell of the master data (NaN) is `None`, and so is an undefined
amount; the key cells PSP, PSPName and Jahr are always text (see "Left
out"). Amounts are `real`. The exceptions the source raises on purpose (an
unknown export, a missing marker, wrong content, the unit code, too few
years) and the failures of the end-date conversion, of the Geldgeber check,
of the cut-off year and of the list options are `Err` values of a `Result`.
The exceptions listed under "Left out" are not modelled.

## Model

| member | source | states |
|---|---|---|
| Config.Get | funktionen.py:74-93 | Only a list option can fail to convert. |
| Config.GetUnset | funktionen.py:91-93 | An option missing from the INI file yields its built-in default, or nothing when it has none. |
| Config.Collect | funktionen.py:84 | The list comprehension succeeds exactly when every element converts, and then holds the converted elements in order. |
| Config.GetBool | funktionen.py:79-80 | 'true'/'false' in any letter case are read as the matching boolean. |
| Config.SplitIntListText | funktionen.py:83-84 | Splitting a rendered int list at its commas gives the rendered elements. |
| Config.SingleIntListText | funktionen.py:85-86 | A rendered list without a comma is a one-element list. |
| Config.ParseIntPieces | funktionen.py:84 | `int(x.strip())` over the rendered elements gives the list back. |
| Config.ConvertIntListText | funktionen.py:82-86 | A list option written as comma-separated ints converts back to exactly that list. |
| Config.GetIntListRoundTrip | funktionen.py:74-86 | `config[key]` of a list option set in the INI file returns that list. |
| Config.GetIntRoundTrip | funktionen.py:88-89 | An option of decimal digits outside the list options is read as that int. |
| Config.GetString | funktionen.py:90 | Any other option text comes back unchanged. |
| Config.DefaultLists | funktionen.py:47-67 | Where the INI file does not set them, the two project-type lists, rm_beendet and obfuscated have their built-in values. |
| Dates.MakeDate | lscontrolling.py:24 | `datetime(y, 6, 30)` succeeds exactly for an existing date and is that date. |
| Dates.NextDay | lscontrolling.py:25 | `+ timedelta(days=1)` gives a valid, later date. |
| Dates.NextDayImmediate | lscontrolling.py:25 | No date lies strictly between a date and the next day. |
| Dates.ParseProjektende | funktionen.py:323 | A parsed end date is valid and inside the pandas timestamp range; otherwise the error names the cell. |
| Dates.ParseFormatLong | funktionen.py:323 | Every date in the timestamp range, written as dd.mm.yyyy, parses back to itself. |
| Dates.FormatShort | lscontrolling.py:59-61 | `strftime('%d.%m.%y')` gives eight characters: digits, with points at positions 2 and 5. |
| Validation.CheckSapCsvContent | funktionen.py:128-148 | Passes exactly when the kind is known and the second field of the first line is its marker; an unknown kind, a short line and a wrong marker each raise their own error. |
| Validation.MarkersDistinct | funktionen.py:130-135 | No first line passes the checks of two different kinds. |
| Validation.GetIkz | funktionen.py:217-225 | One unit code exactly when the table is non-empty and all PSPs share the first one's `psp[5:11]`; an empty table and two codes are distinct errors. |
| Validation.GetIkzAmbiguous | funktionen.py:222-223 | Two PSPs with different unit codes make the check fail. |
| Validation.CheckUnits | funktionen.py:282-284 | The four unit codes must be equal; the run's code is then the first. |
| Validation.RunUnitSpec | funktionen.py:277-284 | The four tables pass exactly when they are non-empty and every PSP carries the first master row's unit code. |
| Validation.CheckJahrSpec | funktionen.py:229-233 | `check_jahr` passes exactly when two rows have different years. |
| Validation.CheckJahrOf | funktionen.py:229-233 | The same on the Jahr column of a table. |
| Validation.CheckJahr | funktionen.py:229-233 | The only error of `check_jahr` is the one about too few years. |
| Filters.Cont | funktionen.py:175-176 | `cont` fails exactly when a cell is empty; otherwise it keeps the matching rows in order. |
| Filters.ContNotContPartition | funktionen.py:175-181 | Where `cont` succeeds, `cont` and `not_cont` partition the rows (as multisets), each keeping the original order. |
| Filters.NotContSpec | funktionen.py:180-181 | `not_cont` keeps exactly the rows whose cell, as text ("nan" when empty), does not match, in order. |
| Filters.NotContSorted | funktionen.py:180-181 | `not_cont` keeps a sorted table sorted. |
| Filters.SammelkontoCodes | funktionen.py:207-213 | The collective-account pattern matches exactly "999" and "1" (each optionally followed by one line break). |
| Filters.SammelkontenPartition | funktionen.py:206-213 | Collective and individual account selections partition the rows; a row is collective exactly when its Geldgeber matches. |
| Filters.NurSammelkontenMissing | funktionen.py:207-208 | One empty Geldgeber makes the collective selection fail. |
| Filters.RemCurrentYearSpec | funktionen.py:184-189 | Exactly the rows of the (string-)largest Jahr go; all others stay, in order. |
| Filters.RemCurrentYearSorted | funktionen.py:184-189 | Removing the latest year keeps a sorted table sorted. |
| Filters.RemCurrentYearSubset | funktionen.py:184-189 | Removing the latest year adds no row. |
| Filters.RemCurrentYearKeepsEarlier | funktionen.py:184-189 | With two distinct years some row remains. |
| Filters.CutoffSplit | funktionen.py:193-203 | Ended and running selections split the rows with an end date by `<= cutoff` / `> cutoff`; rows without one are in neither. |
| Aggregation.GroupSumKeys | funktionen.py:287-289 | After grouping, each (PSP, PSPName, Jahr) occurs once, and exactly the keys of the input occur. |
| Aggregation.GroupSumKeySum | funktionen.py:287-289 | Grouping keeps every key's sum in every column. |
| Aggregation.GroupSumTotal | funktionen.py:287-289 | Grouping keeps every column's total. |
| Aggregation.GroupSumEntries | funktionen.py:287-289 | Every group holds, per column, the sum of that column over the input rows with its key; keys are unique. |
| Aggregation.GroupSumKeyFrom | funktionen.py:287-289 | Every group's key is the key of some input row. |
| Joins.MasterJoinSpec | funktionen.py:296-309 | The inner join with the master data holds exactly each entry combined with each master row of the same PSP and PSPName; entries without master data are dropped. |
| Joins.PartnersSpec | funktionen.py:296-309 | The master rows one entry is joined with are exactly those with its PSP and PSPName. |
| Joins.MasterJoinWidths | funktionen.py:296-309 | The inner join keeps the amounts of each entry. |
| Joins.OuterJoinRows | funktionen.py:311-321 | Every row of an outer join is a matching pair or a row whose key the other side lacks. |
| Joins.OuterJoinCovers | funktionen.py:311-321 | Every matching pair is in the outer join, and so is every unmatched row of either side. |
| Joins.BudgetObligoFilled | funktionen.py:311-315 | After the first outer join every row has four amounts, those of the side without a row for its key being 0. |
| Joins.BudgetKstUndefined | funktionen.py:316-320 | After the second outer join a block is undefined exactly when its side has no row with the key; a defined block is that side's row. |
| Joins.BudgetKstShape | funktionen.py:316-320 | Every row of the second outer join has at least one block, each of the width of its table. |
| Balances.RunningSumsAt | funktionen.py:328 | `cumsum` at position k is the sum of the first k + 1 values. |
| Balances.RunningSumsRec | funktionen.py:328 | `cumsum` starts with the first value, and each later position adds its value to the previous one. |
| Balances.WriteRunningSums | funktionen.py:327-330 | The write loop sets End Kontostand DM of every row to its running sum, or empties it when the project has no Kontostand Jahr, and changes nothing else. |
| Balances.CumSumAt | funktionen.py:326-331 | With some Kontostand Jahr in the project, End Kontostand DM at row k is the sum of Kontostand Jahr over rows 0..k, empty cells counting 0; without any it is empty on every row; nothing else changes. |
| Balances.CalculateCumsum | funktionen.py:326-331 | The in-place pass leaves the array equal to the specification applied to its old contents. |
| Balances.ShiftAt | funktionen.py:336-339 | Every row but the last gets the next row's Budgetrest aus Vorjahr minus its own Festlegungen (empty if either is); the last row gets 0; nothing else changes. |
| Balances.ShiftSingleYear | funktionen.py:338 | A project with a single year gets End Kontostand Budget 0. |
| Balances.ShiftKontostand | funktionen.py:336-339 | The in-place pass leaves the array equal to the specification applied to its old contents. |
| Balances.ChooseKontostand | funktionen.py:345-350 | The in-place pass leaves the array equal to the specification applied to its old contents. |
| Balances.ProjectBalancesWithKst | funktionen.py:326-352 | With some Kontostand Jahr, a project's Kontostand at row k is the running sum of Kontostand Jahr. |
| Balances.ProjectBalancesWithoutKst | funktionen.py:326-352 | Without any Kontostand Jahr, a project's Kontostand is the budget-derived End Kontostand Budget. |
| Balances.ApplyByPspProject | funktionen.py:333 | `groupby('PSP').apply(step)` leaves each project's rows equal to the step applied to that project's rows alone. |
| Balances.ApplyFiltered | funktionen.py:333 | The rows of one PSP in the applied table are the step on that PSP's rows, or nothing when the PSP is absent. |
| Balances.DeriveBalancesProject | funktionen.py:326-352 | After the three passes each project's rows are the three steps applied to that project's rows alone. |
| Pipeline.CheckHeaderSpec | funktionen.py:247-249 | A header check passes exactly when it is switched off or the first line carries the kind's marker. |
| Pipeline.CheckHeadersSpec | funktionen.py:244-249 | The four checks pass exactly when every checked export carries its own marker. |
| Pipeline.DefaultChecksAll | funktionen.py:49-58 | Without `check_` options all four headers are checked. |
| Pipeline.CleanSpec | funktionen.py:257-260 | Cleaning keeps exactly the data lines in order: budget lines whose marker does not mention 'Ergebnis' ("nan" when empty), and balance lines without 'Ergebnis' in Jahr and not the grand total. |
| Pipeline.ToRecords | funktionen.py:323 | The date conversion succeeds exactly when every end date parses, keeping the row count; otherwise the error is that of a failing cell. |
| Pipeline.RecordOfSpec | funktionen.py:316-322 | A consolidated row's amounts are defined exactly where its block is, and are that block's amounts; PA is `psp[3:5]`. |
| Pipeline.UnitsSpec | funktionen.py:276-284 | The unit check passes exactly when the four (cleaned) tables are non-empty and every PSP carries the first master row's unit code. |
| Pipeline.MergeErrors | funktionen.py:276-323 | The merge fails with a unit error (none, several, or differing between the exports) exactly when the unit check fails; the year checks and the date conversion report other errors. |
| Pipeline.MergeYears | funktionen.py:291-293 | A successful merge saw two years in the cleaned budget export and two in the cleaned balance export. |
| Pipeline.MergeRows | funktionen.py:296-323 | Every merged row has at least one block with the right widths and a valid end date. |
| Pipeline.ConsolidateProject | funktionen.py:326-352 | Per project, the consolidated rows are the three balance steps on that project's merged rows. |
| Pipeline.BeendetSpec | funktionen.py:366-367 | Removing finished projects keeps exactly the rows whose Status does not mention 'beendet'. |
| Pipeline.SelectSorted | funktionen.py:361-371 | The selection keeps the report order. |
| Pipeline.SelectMembers | funktionen.py:365-371 | The selection adds nothing, drops every finished project when asked, and drops nothing else unless the latest year goes too. |
| Pipeline.SelectLatestYear | funktionen.py:370-371 | Removing the latest year keeps exactly the rows of the other years. |
| Pipeline.ObfuscatePspSpec | funktionen.py:390 | The obfuscated PSP keeps its length, first five characters (so its PA) and tail, and has unit code 000000. |
| Pipeline.ObfuscateRowSpec | funktionen.py:389-392 | The name becomes as many 'x' as it had characters; every column but PSP and name stays. |
| Pipeline.NoisyNear | funktionen.py:384-385 | Multiplying by `1 + noise` with noise in [-0.25, 0.25) moves a value by at most a quarter of it, never across zero; an empty cell stays empty. |
| Pipeline.AddNoiseSpec | funktionen.py:382-386 | Adding noise keeps rows, order and text columns, and every amount stays near its value. |
| Pipeline.SwitchesReadable | funktionen.py:366-380 | The three switches after the consolidation are read without error. |
| Pipeline.FinishSpec | funktionen.py:361-398 | The steps after the consolidation cannot fail: they return the selection with the run's unit code, or its noisy, renamed version with unit code 000000. |
| Pipeline.ObfuscatedRows | funktionen.py:380-395 | Noise and obfuscation keep the number of rows; row by row, the PSP loses its unit code, the name keeps its length and every amount stays near its value. |
| Pipeline.ImportUnitError | funktionen.py:276-284 | Once the headers pass, the import fails with a unit error exactly when an export is empty or some PSP carries another unit code than the first master row. |
| Pipeline.ImportUnitCode | funktionen.py:276-398 | A successful import had all four exports agree on the first master row's unit code, and returns that code (000000 when obfuscated). |
| Pipeline.ImportPlain | funktionen.py:361-398 | Without obfuscation the rows are sorted, come from the consolidated table and hold no finished project when those are removed. |
| Pipeline.ImportObfuscated | funktionen.py:380-395 | With obfuscation every row is a selected row with zeroed unit code, a name of 'x's and every amount near its true value. |
| Report.JobList.Append | funktionen.py:410 | Appending a job extends the list by exactly that job. |
| Report.PaPatternSpec | funktionen.py:649-651 | A PSP of three digits, the type and ten digits matches `pa_pattern`; a matching PSP carries the type right after its first three digits, so a two-character type is its PA. |
| Report.PaListSpec | funktionen.py:417 | The project types listed are exactly those of the table, each once, in ascending order. |
| Report.ImportPaSap | funktionen.py:416-420 | `import_pa_sap` appends one job per listed project type, in that order. |
| Report.AppendPaJobs | funktionen.py:418-420 | The loop appends the job of each listed project type, in order. |
| Report.FirstWithPsp | funktionen.py:407-409 | The first row with the PSP, present exactly when some row has it. |
| Report.ImportDetailPlot | funktionen.py:402-412 | The loop appends exactly the detail jobs of the file's PSPs. |
| Report.DetailJobsSpec | funktionen.py:406-412 | Every detail job is for a listed PSP present in the table, titled "PSPName (PSP)" from its first row and not summed up; every listed PSP in the table gets one. |
| Report.Selected | funktionen.py:656-657 | The PA filter keeps exactly the rows whose PSP matches the pattern. |
| Report.Round2Cents | funktionen.py:671 | `round(x, 2)` is within half a cent of x. |
| Report.Round2Spec | funktionen.py:671 | Rounding keeps whole cents and breaks ties towards an even cent. |
| Report.YearTotalsEmpty | funktionen.py:660-663 | The year grouping is empty exactly when the selection is, so nothing is recorded for an empty selection. |
| Report.YearTotalsHasYear | funktionen.py:660 | The year grouping sees exactly the years of the rows. |
| Report.KeySumYear | funktionen.py:660 | A year's grouped sum is the sum of that year's Kontostand. |
| Report.LastYearIsLatest | funktionen.py:660-671 | The last entry of the year grouping is the latest year. |
| Report.YearTotalsHasMax | funktionen.py:660 | The latest year of the rows has an entry in the year grouping. |
| Report.LatestTotalSpec | funktionen.py:660-671 | `gdf.iloc[-1]['Kontostand']` is the summed Kontostand of the latest year. |
| Report.RecordedSpec | funktionen.py:654-675 | A job records a row exactly when it is summed up and some PSP matches; the row holds the title's two parts and the latest year's balance rounded to cents. |
| Report.TitleParts | funktionen.py:665-670 | A title of a head, a bar and a remark splits into its two parts; without a bar the remark is empty. |
| Report.PaBericht.constructor | funktionen.py:642-646 | A new report has an empty summary. |
| Report.PaBericht.PaAuflistung | funktionen.py:654-675 | The summary is extended by exactly what the job records. |
| Report.PaBericht.Zusammenfassung | funktionen.py:738-743 | The summary followed by one row 'Summe', '' and the sum of the Kontostand column. |
| Report.SummaryTotalAppend | funktionen.py:740 | The column sum of a concatenation is the sum of the parts' sums. |
| Colours.ParseEuroText | funktionen.py:576-580 | `parse_euro_amount` reads the German rendering of any amount of whole cents back exactly. |
| Colours.CleanEuroText | funktionen.py:578 | Removing points, turning the comma into a point and removing the Euro sign and blanks leaves `[-]int.cc`. |
| Colours.NotAmount | funktionen.py:576-580 | A cell without points, commas, Euro sign or surrounding blanks, starting with neither a digit nor a sign, is not an amount. |
| Colours.HeaderNotAmount | funktionen.py:576-580 | The header cell "Kontostand" is not an amount, so the header row is not coloured. |
| Colours.ZusammenfassungstabelleFarbe | funktionen.py:566-617 | The loop's styles equal the specification of the colour rules. |
| Colours.RowColour | funktionen.py:583-606 | A body row is red/green for a negative/positive balance under a 'vor'/'alle' remark, orange/green under a 'nach' remark, and uncoloured for zero, another remark or a non-number. |
| Colours.VorAlleNeverOrange | funktionen.py:590-596 | A 'vor'/'alle' row is never orange. |
| Colours.BodyTotalSum | funktionen.py:606 | The total adds every numeric body amount, whatever its remark. |
| Colours.BodyOrangeNonPositive | funktionen.py:599-601 | The orange part is never positive. |
| Colours.TotalStyle | funktionen.py:608-615 | The last style colours the last row: green iff the total is positive; otherwise orange iff the total without the orange part is not negative, else red. |
| Colours.RenderedAmounts | funktionen.py:744-745 | Rendering whole-cent amounts and parsing them back keeps their sum. |
| Colours.SummaryTotalReconciles | funktionen.py:738-757 | The total the colouring computes over the rendered summary table equals the value of its 'Summe' row. |
| Projects.KeysOf | funktionen.py:472 | The group keys are exactly those of rows whose five grouping cells are all filled. |
| Projects.Aggregated | funktionen.py:472 | One aggregate per distinct key, in order of first appearance. |
| Projects.AggProjKeys | funktionen.py:470-475 | The view has one row per project: every complete key once, no other key, sorted by PA, Projektende, PSP and Status. |
| Projects.GroupOfView | funktionen.py:472 | A project in the view has at least one row, and its group is exactly the rows with its key. |
| Projects.AggProjBalances | funktionen.py:470-475 | A project's three balances are the last defined value of each column in its group (empty if none), and PA is that of its last row. |
| Driver.CutoffsSpec | lscontrolling.py:18-25 | The cut-offs are 30 June and 1 July of the latest year, with no date between them; they exist exactly when that year reads as an int from 1 to 9999. |
| Driver.SlicesFail | lscontrolling.py:26-29 | The slices fail exactly when some Geldgeber is empty. |
| Driver.SlicesSplit | lscontrolling.py:26-29 | Collective and individual accounts split the table; an individual account with an end date is ended by the cut-off or running after it, never both. |
| Driver.BuildPaRel | lscontrolling.py:54-63 | The two loops append the jobs of the split types, then those of the unsplit types. |
| Driver.AddSplitJobs | lscontrolling.py:56-61 | One split project type appends its three jobs: collective accounts, ended accounts, running accounts. |
| Driver.AddSplitRel | lscontrolling.py:55-61 | The loop over the split types appends each type's three jobs, in list order. |
| Driver.AddUnsplitRel | lscontrolling.py:62-63 | The loop over the unsplit types appends one job per type, in list order. |
| Driver.SplitRelShape | lscontrolling.py:55-61 | Three jobs per split type, in list order: collective accounts, ended accounts, running accounts, with their titles. |
| Driver.UnsplitRelShape | lscontrolling.py:62-63 | One job per unsplit type over the whole table, titled "Alle Konten". |
| Driver.TitleSplit | lscontrolling.py:57-63 | A job title splits at its one bar into "Projektart <pa> " and the remark. |
| Driver.JobRemarks | lscontrolling.py:56-63 | The collective, ended and all-accounts remarks are of the 'vor'/'alle' kind; the running-accounts remark is of the 'nach' kind only. |
| Driver.JobHeads | lscontrolling.py:56-63 | Every job of a type has the project-type column "Projektart <pa> ". |
| Driver.RunJobs | lscontrolling.py:69-71 | Running the jobs extends the summary by what each records, in order. |
| Driver.RecordedAllUnsummed | funktionen.py:409 | Detail-plot jobs add nothing to the summary. |
| Driver.RecordedAllWholeCents | funktionen.py:671 | Every recorded balance is a whole number of cents. |
| Driver.RecordedCount | lscontrolling.py:69-71 | A job adds at most one summary row. |
| Driver.Summarise | lscontrolling.py:54-75 | The summary table of the run: the recorded rows of all jobs followed by the 'Summe' row. |
| Driver.WriteReport | lscontrolling.py:17-79 | The steps after the import equal their specification function. |
| Driver.LsControlling | lscontrolling.py:11-81 | The program's result equals the specification of the whole run. |
| Driver.RunSummary | lscontrolling.py:54-79 | Only the `pa_rel` jobs contribute, at most three per split and one per unsplit type; the last row is 'Summe' with their sum; the colouring total reconciles with it; the project view is `agg_proj` of the imported rows. |
| Findings.BudgetObligoAsWritten | funktionen.py:311-315 | As written, `fillna(0)` leaves no empty Status, Projektende or Geldgeber after the first outer join. |
| Findings.FillnaSplitsProject | funktionen.py:311-320 | A project without Status gets two rows for the same year: one without balances, one without budget. |
| Findings.FillnaEndeFails | funktionen.py:311-323 | As written, one budget row of a project without Projektende makes the date conversion fail, since the filled "0" is no date. |
| Findings.FilledEndesParse | funktionen.py:311-323 | Filling only the amounts, the date conversion succeeds whenever every input's Projektende is empty or a date. |
| Driver.Unpack | lscontrolling.py:15 | Unpacking a tuple into names succeeds exactly when their numbers agree. |
| Driver.RunAsWrittenFails | lscontrolling.py:15 | As written, no run gets past the import: a successful import ends in the unpack's ValueError. |
| Driver.RunUsesImport | lscontrolling.py:15-17 | Unpacking the import's two values, a failing import ends the run with its error, and a successful one hands its result to the report steps. |
| Findings.FilledAmountsJoin | funktionen.py:311-320 | Filling only the amounts, a key with budget and balance rows yields rows holding both blocks, whatever master cells are empty. |
| Text.Split | funktionen.py:665 | `split` on one character: never empty, no piece holds the separator, and joining gives the text back. |
| Text.SplitJoin | funktionen.py:84 | Splitting a joined list of separator-free pieces gives the pieces. |
| Text.ParseIntToString | funktionen.py:84 | `int(str(n)) == n`. |
| Text.StripTrailing | funktionen.py:578 | `strip` removes trailing whitespace after a text with none around it. |
| Text.RemoveCharConcat | funktionen.py:578 | `replace(c, '')` distributes over concatenation. |
| Text.Slice | funktionen.py:218 | Python slicing with clamped bounds. |
| Ordering.SortBy | funktionen.py:361-363 | The sort is ascending and a permutation of its input. |
| Ordering.MaxStr | funktionen.py:186 | `max()` of a string column is one of its values and at or above every value. |
| Seqs.LastDefined | funktionen.py:472 | `.last()` on a column: empty exactly when all cells are, else a cell after which all are empty. |

## Left out

- File I/O: the exports, the INI file and the detail-plot file become parameters (their rows, the INI key/value map, the PSP column); writing CSV, TXT and PDF files is not modelled.
- CSV parsing and pandas' `decimal=','`/`thousands='.'` conversion: the exports arrive as typed rows.
- Plots (`plot_pa`), the means and regressions, `TXTReport`, `PDFReport` rendering, `detail` and `signature_lines` are output formatting.
- The closing of the report files (`lscontrolling.py:84-90`) is not modelled. It calls `berichts_info` on the text and the PDF report, but neither `TXTReport` (`funktionen.py:479-499`) nor `PDFReport` (`funktionen.py:501-640`) defines that method, so the program fails there with an AttributeError and `finalize` is never reached.
- `RandomTemp` and `LogContext` (temporary directories, timing) are left out: the model has no file system or clock.
- The noise of the obfuscation is a parameter `noise(row, column)` in place of `np.random.uniform`.
- The report dates `rep_dates` (`lscontrolling.py:15`) are not modelled: `import_sap_csv` returns no third value (see Findings).
- `min_jahr` (`lscontrolling.py:18`) is used only in the report titles, which are not modelled.
- `locale.format_string('%.2f €', x, grouping=True)` is modelled as the de_DE rendering `Colours.EuroText`; other locales are not.
- Python's `float()` is modelled for plain decimals (sign, digits, one point). Exponents, `inf`, `nan` and underscores never occur in the rendered amounts.
- `str.lower()` and `str.isdigit()` are modelled on ASCII letters and digits only.
- `Config.PieceValue`: Python's `int()` also accepts underscores between digits ("6_8" is 68) and non-ASCII digits; the model reads optional blanks, an optional sign and ASCII digits only, and fails otherwise.
- `Colours.EuroText`: a negative amount that rounds to zero is -0.0 in Python and renders as "-0,00 €"; the model renders it from whole cents as "0,00 €". The colouring is the same, since neither value is below or above zero.
- `zusammenfassungstabelle_farbe` also sums positive and red amounts into `positive_green` and `negative_red`. These are never read, so they are not modelled.
- The order of groupby output (sorted keys in pandas) is modelled as order of first appearance. Each grouped table is either re-sorted by the outer join or used only through order-free properties.
- Ties in `sort_values` may be broken in any order (`Ordering.SortBy` promises only sortedness and permutation).
- `Balances.CalculateCumsum`, `Balances.ShiftKontostand`, `Balances.ChooseKontostand`: the in-place passes are on one project's rows. The `groupby('PSP').apply` around them is modelled on values (`Balances.ApplyByPsp`).
- `Pipeline.ObfuscatePspSpec`: covers PSPs of at least eleven characters; shorter ones are sliced by Python as well but not specified.
- `Dates.FormatShort`: states the shape of `strftime('%d.%m.%y')`, not the digit values.
- `Joins.BudgetObligoFilled`: states the first outer join with only the amounts filled; as written, `fillna(0)` also fills the empty Status, Projektende and Geldgeber cells (see Findings).
- `Pipeline.MergedRows`: fills only the amounts after the first outer join (the correction under Findings), so it reproduces neither the split rows of a project with an empty Status, Projektende or Geldgeber nor the failing date conversion of a filled Projektende "0"; `Findings` states both.
- `Pipeline.Merge`: as `Pipeline.MergedRows`.
- `Pipeline.MergeRows`: as `Pipeline.MergedRows`.
- `Pipeline.ConsolidateProject`: as `Pipeline.MergedRows`.
- `Driver.LsControlling`: follows the corrected fill and the corrected two-value unpack (see Findings); as written, the program fails at the unpack, and for master data with an empty Status, Projektende or Geldgeber it would give other rows or fail at the date conversion. The modelled run ends with the summary and the project view (`lscontrolling.py:81`); the call of `berichts_info` at `lscontrolling.py:86` and `:89` that follows would fail (see the line on closing the report files).
- `Driver.Run`: as `Driver.LsControlling`.
- `Driver.WriteReport`: as `Driver.LsControlling`.
- Key cells: the budget, commitment and balance exports are read with `fillna(0)` (`funktionen.py:264-266`), so an empty PSP, PSPName or Jahr cell becomes 0 there. In the master data (`funktionen.py:263`, no `fillna`) an empty PSP or PSPName stays NaN: such a row never joins, and `get_ikz` on it would raise a TypeError. The model takes all these cells to be text and does not model either case.
- Exceptions not modelled: `re.error` from a PSP of the detail-plot file that is not a valid regular expression, errors of pandas on malformed exports, and the catch of every exception in `lscontrolling.py:95-97` (print and wait for a key press), which the model replaces by returning the `Err`.
- `Report.DetailJobsSpec`: the PSP of a detail plot is used as a regular expression (`cont(df, 'PSP', pattern)`); the model matches it as a literal substring, which agrees only for PSPs without regular-expression metacharacters (`.`, `(`, `[` and the like).
- `Report.DetailJob`: as `Report.DetailJobsSpec`.
- `Report.Selected`: for a detail-plot job, as `Report.DetailJobsSpec`; the project-type pattern `^\d{3}<pa>\d{10}$` is modelled as such.
- `Report.PaBericht.Zusammenfassung`: with an empty summary the source's 'Summe' value is NaN (rendered "nan €"), since the summary table then has no numeric column to sum; the model gives 0.0. The model also takes the Kontostand column of a filled summary to be numeric.
- `Report.TotalRow`: as `Report.PaBericht.Zusammenfassung`.
- `Driver.RunSummary`: as `Report.PaBericht.Zusammenfassung`.
- `Colours.SummaryTotalReconciles`: as `Report.PaBericht.Zusammenfassung`.
- `Report.Round2Cents`: real numbers stand for doubles, so the binary rounding error of Python's `round` is not modelled.

## Findings

| source | as written | input that shows it | evidently intended | confidence | as-written member | corrected member |
|---|---|---|---|---|---|---|
| funktionen.py:311-320 | `fillna(0)` after the budget/commitment outer join also fills the empty key cells Status, Projektende and Geldgeber with 0. The balance table keeps them empty, so the second outer join on the full key no longer pairs the two. | A project whose master data has no Status, with a budget row and a balance row for 2024: the consolidated table holds two rows for it in 2024, one without balances, one without budget. | Fill only the amount columns, so a key with rows on both sides yields rows with both blocks. | not executed | Findings.FillnaSplitsProject | Findings.FilledAmountsJoin |
| funktionen.py:311-323 | The same `fillna(0)` turns an empty Projektende into 0, which `pd.to_datetime(..., format='%d.%m.%Y')` cannot read. | A project whose master data has no Projektende, with one budget row: the conversion of the merged table fails and the import ends with an error. | Leave Projektende empty, so it becomes no date. | not executed | Findings.FillnaEndeFails | Findings.FilledEndesParse |
| lscontrolling.py:15 | `ikz, df_ikz, rep_dates = import_sap_csv(cfg)` unpacks three values, while `import_sap_csv` returns two (`funktionen.py:398`). | Any input whose import succeeds: the unpack raises ValueError and the run ends there. | Unpack the two values the import returns. The corrected run then still ends at `lscontrolling.py:86`, where `berichts_info` does not exist (see Left out). | not executed | Driver.RunAsWrittenFails | Driver.RunUsesImport |
