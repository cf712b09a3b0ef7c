/** The report run of `lscontrolling.py`: import and consolidate, derive the
    two cut-off dates from the latest year, split the table into collective
    accounts, individual accounts and the individual accounts ended by or
    running past the cut-off, build the list of report jobs (three per
    project type that is split, one per project type that is not, then the
    detail plots), record every job in the summary, close the summary with
    its total row and build the project view. */
module Driver {
  import opened Wrappers
  import opened Text
  import opened Dates
  import opened Ordering
  import opened Seqs
  import opened Config
  import opened Tables
  import opened Filters
  import opened Pipeline
  import opened Report
  import opened Colours
  import opened Projects

  // ---------------------------------------------------------------- cut-offs

  /** `cut1 = datetime(int(max_jahr), 6, 30)` and `cut2 = cut1 + timedelta(days=1)`.
      The Jahr column holds text, so its maximum is the lexicographic one; an
      empty table has no maximum (NaN) and `int()` rejects it. */
  function Cutoffs(rows: seq<Record>): Result<(Date, Date)> {
    if rows == [] then Err(ValueError("nan"))
    else CutoffsOf(MaxStr(Map(rows, RecordJahr)))
  }

  /** The two cut-offs for the latest year, read from its text. */
  function CutoffsOf(maxJahr: string): Result<(Date, Date)> {
    match ParseInt(maxJahr)
    case None => Err(ValueError(maxJahr))
    case Some(y) =>
      var cut1 :- MakeDate(y, 6, 30);
      Ok((cut1, NextDay(cut1)))
  }

  /** The cut-offs are the 30 June and 1 July of the latest year, one day
      apart; they exist exactly when the latest year reads as an int between
      1 and 9999. */
  lemma CutoffsSpec(rows: seq<Record>)
    ensures rows == [] ==> Cutoffs(rows).Err?
    ensures rows != [] ==>
      var maxJahr := MaxStr(Map(rows, RecordJahr));
      && (Cutoffs(rows).Ok? <==> ParseInt(maxJahr).Some? && 1 <= ParseInt(maxJahr).value <= 9999)
      && (Cutoffs(rows).Ok? ==>
            var y := ParseInt(maxJahr).value;
            && Cutoffs(rows).value.0 == Date(y, 6, 30)
            && Cutoffs(rows).value.1 == Date(y, 7, 1)
            && (forall d :: IsValid(d) ==> !(Before(Cutoffs(rows).value.0, d) && Before(d, Cutoffs(rows).value.1))))
  {
    if rows != [] {
      CutoffsOfSpec(MaxStr(Map(rows, RecordJahr)));
    }
  }

  lemma CutoffsOfSpec(maxJahr: string)
    ensures CutoffsOf(maxJahr).Ok? <==> ParseInt(maxJahr).Some? && 1 <= ParseInt(maxJahr).value <= 9999
    ensures CutoffsOf(maxJahr).Ok? ==>
      var y := ParseInt(maxJahr).value;
      && CutoffsOf(maxJahr).value.0 == Date(y, 6, 30)
      && CutoffsOf(maxJahr).value.1 == Date(y, 7, 1)
      && (forall d :: IsValid(d) ==> !(Before(CutoffsOf(maxJahr).value.0, d) && Before(d, CutoffsOf(maxJahr).value.1)))
  {
    match ParseInt(maxJahr)
    case None =>
    case Some(y) =>
      if 1 <= y <= 9999 {
        CutoffDates(y);
      } else {
        assert !IsValid(Date(y, 6, 30));
      }
  }

  /** 30 June exists in every year `datetime` accepts; the next day is 1 July. */
  lemma CutoffDates(y: int)
    requires 1 <= y <= 9999
    ensures IsValid(Date(y, 6, 30)) && NextDay(Date(y, 6, 30)) == Date(y, 7, 1)
    ensures forall d :: IsValid(d) ==> !(Before(Date(y, 6, 30), d) && Before(d, Date(y, 7, 1)))
  {
    forall d | IsValid(d) ensures !(Before(Date(y, 6, 30), d) && Before(d, Date(y, 7, 1))) {
      NextDayImmediate(Date(y, 6, 30), d);
    }
  }

  // ------------------------------------------------------------------ slices

  function Geldgeber(r: Record): Option<string> {
    r.info.geldgeber
  }

  function Ende(r: Record): Option<Date> {
    r.info.ende
  }

  /** The four tables of the data filter step. */
  datatype Slices = Slices(
    sk: seq<Record>,            // collective accounts only
    ekAlle: seq<Record>,        // all individual accounts
    abgelaufen: seq<Record>,    // individual accounts ended by the cut-off
    laufend: seq<Record>)       // individual accounts running past the cut-off

  function MakeSlices(rows: seq<Record>, cut1: Date): Result<Slices> {
    var sk :- NurSammelkonten(rows, Geldgeber);
    var ekAlle := KeineSammelkonten(rows, Geldgeber);
    Ok(Slices(sk, ekAlle, EndedBy(ekAlle, Ende, cut1), RunningAfter(ekAlle, Ende, cut1)))
  }

  /** The slices fail exactly when a Geldgeber cell is empty (the collective
      mask cannot hold a missing value). */
  lemma SlicesFail(rows: seq<Record>, cut1: Date)
    ensures MakeSlices(rows, cut1).Err? <==> exists k :: 0 <= k < |rows| && rows[k].info.geldgeber.None?
  {
    if exists k :: 0 <= k < |rows| && rows[k].info.geldgeber.None? {
      var k :| 0 <= k < |rows| && rows[k].info.geldgeber.None?;
      NurSammelkontenMissing(rows, Geldgeber, k);
    }
  }

  /** Collective and individual accounts split the table; an individual
      account with an end date is either ended by the cut-off or running past
      it, and one without an end date is in neither. */
  lemma SlicesSplit(rows: seq<Record>, cut1: Date)
    requires MakeSlices(rows, cut1).Ok?
    ensures var sl := MakeSlices(rows, cut1).value;
      && multiset(sl.sk) + multiset(sl.ekAlle) == multiset(rows)
      && (forall x :: x in sl.sk <==> x in rows && IsSammelkonto(Geldgeber(x)))
      && (forall x :: x in sl.ekAlle <==> x in rows && !IsSammelkonto(Geldgeber(x)))
      && (forall x :: x in sl.abgelaufen <==> x in sl.ekAlle && Ende(x).Some? && AtOrBefore(Ende(x).value, cut1))
      && (forall x :: x in sl.laufend <==> x in sl.ekAlle && Ende(x).Some? && Before(cut1, Ende(x).value))
      && (forall x :: x in sl.ekAlle && Ende(x).Some? ==> (x in sl.abgelaufen <==> x !in sl.laufend))
  {
    SammelkontenPartition(rows, Geldgeber);
    var ek := KeineSammelkonten(rows, Geldgeber);
    CutoffSplit(ek, Ende, cut1);
    forall x | x in ek && Ende(x).Some? ensures x in EndedBy(ek, Ende, cut1) <==> x !in RunningAfter(ek, Ende, cut1) {
      BeforeTotal(Ende(x).value, cut1);
    }
  }

  // ------------------------------------------------------------------ pa_rel

  /** The project-type lists of the configuration; iterating over a value
      that is not a list raises a TypeError. */
  function PaListOption(options: map<string, string>, key: string): Result<seq<int>> {
    var v :- Get(options, key);
    if v.IntListVal? then Ok(v.xs) else Err(TypeError(key))
  }

  /** `f"Projektart {pa} |{remark}"`. */
  function Title(pa: int, remark: string): string {
    "Projektart " + IntToString(pa) + " |" + remark
  }

  const SammelRemark: string := " Sammelkonten (alle)"
  const AlleRemark: string := " Alle Konten"

  function VorRemark(cut1: Date): string
    requires IsValid(cut1)
  {
    " Einzelkonten (Projektende vor " + FormatShort(cut1) + ")"
  }

  function NachRemark(cut2: Date): string
    requires IsValid(cut2)
  {
    NachPrefix + FormatShort(cut2) + ")"
  }

  const NachPrefix: string := " Einzelkonten (Projektende nach "

  lemma NachPrefixNoV()
    ensures 'v' !in NachPrefix && 'V' !in NachPrefix && |NachPrefix| == 32
  {
  }

  /** The three jobs of a project type that is split. */
  function SplitJobs(sl: Slices, cut1: Date, cut2: Date, pa: int): seq<Job>
    requires IsValid(cut1) && IsValid(cut2)
  {
    var p := PaPattern(IntToString(pa));
    [ Job(sl.sk, p, Title(pa, SammelRemark), true),
      Job(sl.abgelaufen, p, Title(pa, VorRemark(cut1)), true),
      Job(sl.laufend, p, Title(pa, NachRemark(cut2)), true) ]
  }

  /** The job of a project type that is not split. */
  function UnsplitJob(rows: seq<Record>, pa: int): Job {
    Job(rows, PaPattern(IntToString(pa)), Title(pa, AlleRemark), true)
  }

  function SplitRel(sl: Slices, cut1: Date, cut2: Date, split: seq<int>): seq<Job>
    requires IsValid(cut1) && IsValid(cut2)
  {
    FlatMap(split, SplitJobsFor(sl, cut1, cut2))
  }

  /** `SplitJobs` as a function of the project type. */
  function SplitJobsFor(sl: Slices, cut1: Date, cut2: Date): (f: int -> seq<Job>)
    requires IsValid(cut1) && IsValid(cut2)
    ensures forall pa :: f(pa) == SplitJobs(sl, cut1, cut2, pa)
  {
    (pa: int) => SplitJobs(sl, cut1, cut2, pa)
  }

  function UnsplitRel(rows: seq<Record>, unsplit: seq<int>): seq<Job> {
    Map(unsplit, (pa: int) => UnsplitJob(rows, pa))
  }

  /** The three `pa_rel.append` calls for one split project type. */
  method AddSplitJobs(sl: Slices, cut1: Date, cut2: Date, pa: int, paRel: JobList)
    requires IsValid(cut1) && IsValid(cut2)
    modifies paRel
    ensures paRel.jobs == old(paRel.jobs) + SplitJobs(sl, cut1, cut2, pa)
  {
    var p := PaPattern(IntToString(pa));
    var j1 := Job(sl.sk, p, Title(pa, SammelRemark), true);
    var j2 := Job(sl.abgelaufen, p, Title(pa, VorRemark(cut1)), true);
    var j3 := Job(sl.laufend, p, Title(pa, NachRemark(cut2)), true);
    paRel.Append(j1);
    paRel.Append(j2);
    paRel.Append(j3);
    assert paRel.jobs == old(paRel.jobs) + [j1, j2, j3];
  }

  /** The first loop that fills `pa_rel`: three jobs per split project type. */
  method AddSplitRel(sl: Slices, cut1: Date, cut2: Date, split: seq<int>, paRel: JobList)
    requires IsValid(cut1) && IsValid(cut2)
    modifies paRel
    ensures paRel.jobs == old(paRel.jobs) + SplitRel(sl, cut1, cut2, split)
  {
    for i := 0 to |split|
      invariant paRel.jobs == old(paRel.jobs) + SplitRel(sl, cut1, cut2, split[..i])
    {
      FlatMapStep(split, SplitJobsFor(sl, cut1, cut2), i);
      AddSplitJobs(sl, cut1, cut2, split[i], paRel);
    }
    TakeAll(split);
  }

  /** The second loop that fills `pa_rel`: one job per unsplit project type. */
  method AddUnsplitRel(rows: seq<Record>, unsplit: seq<int>, paRel: JobList)
    modifies paRel
    ensures paRel.jobs == old(paRel.jobs) + UnsplitRel(rows, unsplit)
  {
    for i := 0 to |unsplit|
      invariant paRel.jobs == old(paRel.jobs) + UnsplitRel(rows, unsplit[..i])
    {
      MapStep(unsplit, (pa: int) => UnsplitJob(rows, pa), i);
      paRel.Append(UnsplitJob(rows, unsplit[i]));
    }
    TakeAll(unsplit);
  }

  /** The two loops that fill `pa_rel`. */
  method BuildPaRel(rows: seq<Record>, sl: Slices, cut1: Date, cut2: Date,
                    split: seq<int>, unsplit: seq<int>, paRel: JobList)
    requires IsValid(cut1) && IsValid(cut2)
    modifies paRel
    ensures paRel.jobs == old(paRel.jobs) + SplitRel(sl, cut1, cut2, split) + UnsplitRel(rows, unsplit)
  {
    AddSplitRel(sl, cut1, cut2, split, paRel);
    AddUnsplitRel(rows, unsplit, paRel);
  }

  /** Three jobs per split project type, in list order: its collective
      accounts, its ended and its running individual accounts. */
  lemma SplitRelShape(sl: Slices, cut1: Date, cut2: Date, split: seq<int>)
    requires IsValid(cut1) && IsValid(cut2)
    ensures |SplitRel(sl, cut1, cut2, split)| == 3 * |split|
    ensures forall i :: 0 <= i < |split| ==>
      var jobs := SplitRel(sl, cut1, cut2, split);
      var p := PaPattern(IntToString(split[i]));
      && jobs[3 * i] == Job(sl.sk, p, Title(split[i], SammelRemark), true)
      && jobs[3 * i + 1] == Job(sl.abgelaufen, p, Title(split[i], VorRemark(cut1)), true)
      && jobs[3 * i + 2] == Job(sl.laufend, p, Title(split[i], NachRemark(cut2)), true)
  {
    FlatMapTriples(split, SplitJobsFor(sl, cut1, cut2));
    var jobs := SplitRel(sl, cut1, cut2, split);
    forall i | 0 <= i < |split|
      ensures jobs[3 * i] == Job(sl.sk, PaPattern(IntToString(split[i])), Title(split[i], SammelRemark), true)
      ensures jobs[3 * i + 1] == Job(sl.abgelaufen, PaPattern(IntToString(split[i])), Title(split[i], VorRemark(cut1)), true)
      ensures jobs[3 * i + 2] == Job(sl.laufend, PaPattern(IntToString(split[i])), Title(split[i], NachRemark(cut2)), true)
    {
      var b := SplitJobs(sl, cut1, cut2, split[i]);
      assert jobs[3 * i + 0] == b[0] && jobs[3 * i + 1] == b[1] && jobs[3 * i + 2] == b[2];
    }
  }

  /** One job per unsplit project type, in list order, over the whole table. */
  lemma UnsplitRelShape(rows: seq<Record>, unsplit: seq<int>)
    ensures |UnsplitRel(rows, unsplit)| == |unsplit|
    ensures forall i :: 0 <= i < |unsplit| ==>
      UnsplitRel(rows, unsplit)[i] == Job(rows, PaPattern(IntToString(unsplit[i])), Title(unsplit[i], AlleRemark), true)
  {
    var r := UnsplitRel(rows, unsplit);
    forall i | 0 <= i < |unsplit|
      ensures r[i] == Job(rows, PaPattern(IntToString(unsplit[i])), Title(unsplit[i], AlleRemark), true)
    {
      assert r[i] == UnsplitJob(rows, unsplit[i]);
    }
  }

  // ------------------------------------------------------ titles and colours

  /** A title splits at its one '|' into "Projektart <pa> " and the remark. */
  lemma TitleSplit(pa: int, remark: string)
    requires '|' !in remark
    ensures TitleHead(Title(pa, remark)) == "Projektart " + IntToString(pa) + " "
    ensures TitleRemark(Title(pa, remark)) == remark
  {
    var head := "Projektart " + IntToString(pa) + " ";
    IntToStringChars(pa);
    assert '|' !in head by {
      forall k | 0 <= k < |head| ensures head[k] != '|' {
        if 11 <= k < 11 + |IntToString(pa)| {
          assert head[k] == IntToString(pa)[k - 11];
        }
      }
    }
    assert Title(pa, remark) == head + "|" + remark;
    TitleParts(head, remark);
  }

  lemma DateTextPlain(d: Date)
    requires IsValid(d)
    ensures forall k :: 0 <= k < |FormatShort(d)| ==>
      var c := FormatShort(d)[k]; c != '|' && c != 'v' && c != 'a' && LowerChar(c) == c
  {
  }

  /** The collective-accounts remark is of the 'alle' kind. */
  lemma SammelRemarkKind()
    ensures '|' !in SammelRemark && VorOderAlle(SammelRemark)
  {
    assert OccursAt(Lower(SammelRemark), "alle", 15);
  }

  /** The all-accounts remark is of the 'alle' kind. */
  lemma AlleRemarkKind()
    ensures '|' !in AlleRemark && VorOderAlle(AlleRemark)
  {
    assert OccursAt(Lower(AlleRemark), "alle", 1);
  }

  /** The remark of the ended accounts is of the 'vor' kind. */
  lemma VorRemarkKind(cut1: Date)
    requires IsValid(cut1)
    ensures '|' !in VorRemark(cut1) && VorOderAlle(VorRemark(cut1))
  {
    DateTextPlain(cut1);
    assert OccursAt(Lower(VorRemark(cut1)), "vor", 27);
  }

  /** The remark of the running accounts is of the 'nach' kind only, so their
      negative balances are the ones shown in orange. */
  lemma NachRemarkKind(cut2: Date)
    requires IsValid(cut2)
    ensures '|' !in NachRemark(cut2) && Nach(NachRemark(cut2)) && !VorOderAlle(NachRemark(cut2))
  {
    NachRemarkPlain(cut2);
    NachRemarkNach(cut2);
    NachRemarkNoVor(cut2);
    NachRemarkNoAlle(cut2);
  }

  /** The characters of the remark of the running accounts after its prefix. */
  lemma NachRemarkPlain(cut2: Date)
    requires IsValid(cut2)
    ensures |NachRemark(cut2)| == 41
    ensures forall k :: 32 <= k < 40 ==> NachRemark(cut2)[k] == FormatShort(cut2)[k - 32]
    ensures '|' !in NachRemark(cut2)
  {
    DateTextPlain(cut2);
  }

  lemma NachRemarkNach(cut2: Date)
    requires IsValid(cut2)
    ensures Nach(NachRemark(cut2))
  {
    DateTextPlain(cut2);
    assert OccursAt(Lower(NachRemark(cut2)), "nach", 27);
  }

  lemma NachRemarkNoVor(cut2: Date)
    requires IsValid(cut2)
    ensures !Contains(Lower(NachRemark(cut2)), "vor")
  {
    DateTextPlain(cut2);
    var d := FormatShort(cut2);
    assert 'v' !in d && 'V' !in d;
    var r := NachRemark(cut2);
    NachPrefixNoV();
    assert r == NachPrefix + d + ")";
    LowerAbsent(r, 'V');
    NotContains(Lower(r), "vor", 'v');
  }

  lemma NachRemarkNoAlle(cut2: Date)
    requires IsValid(cut2)
    ensures !Contains(Lower(NachRemark(cut2)), "alle")
  {
    var r := NachRemark(cut2);
    var s := Lower(r);
    NachRemarkPlain(cut2);
    DateTextPlain(cut2);
    forall i | 0 <= i < |s| - 1 ensures !(s[i] == 'a' && s[i + 1] == 'l') {
      if i >= 32 {
        assert s[i] == LowerChar(r[i]);
      }
    }
    NotContainsPair(s, "alle");
  }

  // ------------------------------------------------------------- the run

  /** What the summary receives from a job list, job by job. */
  function RecordedAll(jobs: seq<Job>): seq<SummaryRow> {
    FlatMap(jobs, Recorded)
  }

  /** `for pa in pa_rel: bericht.pa_auflistung(*pa)`. */
  method RunJobs(bericht: PaBericht, jobs: seq<Job>)
    modifies bericht
    ensures bericht.summary == old(bericht.summary) + RecordedAll(jobs)
  {
    for i := 0 to |jobs|
      invariant bericht.summary == old(bericht.summary) + RecordedAll(jobs[..i])
    {
      FlatMapStep(jobs, Recorded, i);
      var j := jobs[i];
      assert Job(j.rows, j.pattern, j.title, j.sumUp) == j;
      ghost var done := RecordedAll(jobs[..i]);
      ghost var added := Recorded(j);
      bericht.PaAuflistung(j.rows, j.pattern, j.title, j.sumUp);
      ConcatAssoc(old(bericht.summary), done, added);
      assert bericht.summary == old(bericht.summary) + (done + added);
      assert RecordedAll(jobs[..i + 1]) == done + added;
    }
    TakeAll(jobs);
    assert RecordedAll(jobs[..|jobs|]) == RecordedAll(jobs);
  }

  /** What one run produces: the unit code, the summary table with its total
      row, and the project view. */
  datatype Outcome = Outcome(ikz: string, summary: seq<SummaryRow>, projects: seq<ProjectRow>)

  /** The jobs of a run: `pa_rel` and then the detail plots. */
  function Jobs(rows: seq<Record>, sl: Slices, cut1: Date, cut2: Date,
                split: seq<int>, unsplit: seq<int>, plot: seq<Option<string>>): seq<Job>
    requires IsValid(cut1) && IsValid(cut2)
  {
    SplitRel(sl, cut1, cut2, split) + UnsplitRel(rows, unsplit) + DetailJobs(rows, plot)
  }

  /** The run as a function of the configuration, the four exports, the
      noise of the obfuscation and the PSP column of the detail-plot file
      (empty when there is no such file). */
  function Run(options: map<string, string>, inp: SapInput, noise: (nat, nat) -> real,
               plot: seq<Option<string>>): Result<Outcome>
  {
    var imp :- ImportSapCsv(options, inp, noise);
    AfterImport(options, imp, plot)
  }

  /** The run after the import. */
  function AfterImport(options: map<string, string>, imp: Imported, plot: seq<Option<string>>): Result<Outcome> {
    var cuts :- Cutoffs(imp.rows);
    CutoffsSpec(imp.rows);
    var sl :- MakeSlices(imp.rows, cuts.0);
    var split :- PaListOption(options, "liste_pa_aufteilung");
    var unsplit :- PaListOption(options, "liste_pa_keine_aufteilung");
    var summary := RecordedAll(Jobs(imp.rows, sl, cuts.0, cuts.1, split, unsplit, plot));
    Ok(Outcome(imp.ikz, summary + [TotalRow(summary)], AggProj(imp.rows)))
  }

  // ------------------------------------------- the unpack of the import

  /** The number of values `import_sap_csv` returns: the unit code and the
      consolidated table. */
  const ImportValues := 2

  /** Unpacking a tuple of `values` values into `names` names. */
  function Unpack(names: nat, values: nat): (r: Result<()>)
    ensures r.Ok? <==> names == values
  {
    if values < names then Err(ValueError("not enough values to unpack"))
    else if values > names then Err(ValueError("too many values to unpack"))
    else Ok(())
  }

  /** The run with the result of the import unpacked into `names` names. */
  function RunUnpacking(names: nat, options: map<string, string>, inp: SapInput,
                        noise: (nat, nat) -> real, plot: seq<Option<string>>): Result<Outcome>
  {
    var imp :- ImportSapCsv(options, inp, noise);
    var _ :- Unpack(names, ImportValues);
    AfterImport(options, imp, plot)
  }

  /** The run as written: the result of the import is unpacked into three
      names (the unit code, the table and the report dates). */
  function RunAsWritten(options: map<string, string>, inp: SapInput, noise: (nat, nat) -> real,
                        plot: seq<Option<string>>): Result<Outcome>
  {
    RunUnpacking(3, options, inp, noise, plot)
  }

  /** As written, no run gets past the import: a failing import ends it with
      its own error, a successful one with the error of the unpack. */
  lemma RunAsWrittenFails(options: map<string, string>, inp: SapInput, noise: (nat, nat) -> real,
                          plot: seq<Option<string>>)
    ensures RunAsWritten(options, inp, noise, plot).Err?
    ensures ImportSapCsv(options, inp, noise).Ok? ==>
      RunAsWritten(options, inp, noise, plot) == Err(ValueError("not enough values to unpack"))
    ensures ImportSapCsv(options, inp, noise).Err? ==>
      RunAsWritten(options, inp, noise, plot) == Err(ImportSapCsv(options, inp, noise).error)
  {
    assert Unpack(3, ImportValues) == Err(ValueError("not enough values to unpack"));
  }

  /** Unpacking the two values the import returns, the run is the import
      followed by the report steps: a failing import ends it with its own
      error, a successful one hands its result to the report steps. */
  lemma RunUsesImport(options: map<string, string>, inp: SapInput, noise: (nat, nat) -> real,
                      plot: seq<Option<string>>)
    ensures Run(options, inp, noise, plot) == RunUnpacking(ImportValues, options, inp, noise, plot)
    ensures ImportSapCsv(options, inp, noise).Err? ==>
      Run(options, inp, noise, plot) == Err(ImportSapCsv(options, inp, noise).error)
    ensures ImportSapCsv(options, inp, noise).Ok? ==>
      Run(options, inp, noise, plot) == AfterImport(options, ImportSapCsv(options, inp, noise).value, plot)
  {
    assert Unpack(ImportValues, ImportValues) == Ok(());
  }

  /** The main program; an exception ends the run with its error. */
  method LsControlling(options: map<string, string>, inp: SapInput, noise: (nat, nat) -> real,
                       plot: seq<Option<string>>) returns (r: Result<Outcome>)
    ensures r == Run(options, inp, noise, plot)
  {
    var imp := ImportSapCsv(options, inp, noise);
    if imp.Err? {
      return Err(imp.error);
    }
    r := WriteReport(options, imp.value, plot);
  }

  /** The steps after the import: filters, job list, summary, project view. */
  method WriteReport(options: map<string, string>, imp: Imported, plot: seq<Option<string>>)
    returns (r: Result<Outcome>)
    ensures r == AfterImport(options, imp, plot)
  {
    var rows := imp.rows;
    var cuts := Cutoffs(rows);
    if cuts.Err? {
      return Err(cuts.error);
    }
    CutoffsSpec(rows);
    var cut1, cut2 := cuts.value.0, cuts.value.1;
    var sl := MakeSlices(rows, cut1);
    if sl.Err? {
      return Err(sl.error);
    }
    var split := PaListOption(options, "liste_pa_aufteilung");
    if split.Err? {
      return Err(split.error);
    }
    var unsplit := PaListOption(options, "liste_pa_keine_aufteilung");
    if unsplit.Err? {
      return Err(unsplit.error);
    }
    var table := Summarise(rows, sl.value, cut1, cut2, split.value, unsplit.value, plot);
    r := Ok(Outcome(imp.ikz, table, AggProj(rows)));
  }

  /** Fills `pa_rel`, adds the detail plots, runs every job and closes the
      summary: the summary table of the run. */
  method Summarise(rows: seq<Record>, sl: Slices, cut1: Date, cut2: Date,
                   split: seq<int>, unsplit: seq<int>, plot: seq<Option<string>>)
    returns (table: seq<SummaryRow>)
    requires IsValid(cut1) && IsValid(cut2)
    ensures var summary := RecordedAll(Jobs(rows, sl, cut1, cut2, split, unsplit, plot));
      table == summary + [TotalRow(summary)]
  {
    var paRel := new JobList();
    BuildPaRel(rows, sl, cut1, cut2, split, unsplit, paRel);
    ImportDetailPlot(rows, plot, paRel);
    EmptyPrefix(SplitRel(sl, cut1, cut2, split), UnsplitRel(rows, unsplit), DetailJobs(rows, plot));
    ghost var jobs := Jobs(rows, sl, cut1, cut2, split, unsplit, plot);
    assert paRel.jobs == jobs;
    var bericht := new PaBericht();
    RunJobs(bericht, paRel.jobs);
    ghost var summary := RecordedAll(jobs);
    assert bericht.summary == summary;
    table := bericht.Zusammenfassung();
  }

  lemma EmptyPrefix<T>(a: seq<T>, b: seq<T>, c: seq<T>)
    ensures [] + a + b + c == a + b + c
  {
    assert [] + a == a;
  }

  // ------------------------------------------------------ properties of a run

  /** Jobs that are not summed up add nothing to the summary. */
  lemma RecordedAllUnsummed(jobs: seq<Job>)
    requires forall j :: j in jobs ==> !j.sumUp
    ensures RecordedAll(jobs) == []
  {
    FlatMapNone(jobs, Recorded);
  }

  /** A recorded balance is rounded to whole cents. */
  lemma RecordedWholeCents(j: Job, y: SummaryRow)
    requires y in Recorded(j)
    ensures WholeCents(y.kontostand)
  {
    var x := LatestTotal(Selected(j.rows, j.pattern));
    assert y.kontostand == Round2(x);
    Round2IsWhole(x);
  }

  /** `round(x, 2)` is a whole number of cents. */
  lemma Round2IsWhole(x: real)
    ensures WholeCents(Round2(x))
  {
    var n := Round2Cents(x);
    assert (n as real / 100.0) * 100.0 == n as real;
  }

  /** Every recorded balance is a whole number of cents. */
  lemma RecordedAllWholeCents(jobs: seq<Job>)
    ensures forall k :: 0 <= k < |RecordedAll(jobs)| ==> WholeCents(RecordedAll(jobs)[k].kontostand)
  {
    var p := (y: SummaryRow) => WholeCents(y.kontostand);
    forall j, y | j in jobs && y in Recorded(j) ensures p(y) {
      RecordedWholeCents(j, y);
    }
    FlatMapAll(jobs, Recorded, p);
  }

  /** The summary of a run: only the `pa_rel` jobs contribute (the detail
      plots are not summed up); its last row is 'Summe' with the sum of the
      rows before it, and that sum is also what the colouring adds up over
      the rendered table. */
  lemma RunSummary(options: map<string, string>, imp: Imported, plot: seq<Option<string>>)
    requires AfterImport(options, imp, plot).Ok?
    ensures var out := AfterImport(options, imp, plot).value;
      var cuts := Cutoffs(imp.rows).value;
      var sl := MakeSlices(imp.rows, cuts.0).value;
      var split := PaListOption(options, "liste_pa_aufteilung").value;
      var unsplit := PaListOption(options, "liste_pa_keine_aufteilung").value;
      var n := |out.summary| - 1;
      && IsValid(cuts.0) && IsValid(cuts.1)
      && out.summary[..n] == RecordedAll(SplitRel(sl, cuts.0, cuts.1, split) + UnsplitRel(imp.rows, unsplit))
      && |out.summary[..n]| <= 3 * |split| + |unsplit|
      && out.summary[n] == SummaryRow("Summe", "", Sum(Map(out.summary[..n], Kontostand)))
      && Sum(Map(Body(SummaryTable(out.summary[..n])), RowAmount)) == out.summary[n].kontostand
      && out.projects == AggProj(imp.rows)
  {
    var cuts := Cutoffs(imp.rows).value;
    CutoffsSpec(imp.rows);
    var sl := MakeSlices(imp.rows, cuts.0).value;
    var split := PaListOption(options, "liste_pa_aufteilung").value;
    var unsplit := PaListOption(options, "liste_pa_keine_aufteilung").value;
    var rel := SplitRel(sl, cuts.0, cuts.1, split) + UnsplitRel(imp.rows, unsplit);
    var detail := DetailJobs(imp.rows, plot);
    DetailJobsSpec(imp.rows, plot);
    RecordedAllUnsummed(detail);
    FlatMapConcat(rel, detail, Recorded);
    var summary := RecordedAll(rel);
    assert RecordedAll(rel + detail) == summary;
    RecordedCount(rel);
    SplitRelShape(sl, cuts.0, cuts.1, split);
    UnsplitRelShape(imp.rows, unsplit);
    RecordedAllWholeCents(rel + detail);
    SummaryTotalReconciles(summary);
    var out := AfterImport(options, imp, plot).value;
    assert out.summary == summary + [TotalRow(summary)];
    LastDropped(summary, TotalRow(summary));
  }

  /** A job adds at most one summary row. */
  lemma RecordedCount(jobs: seq<Job>)
    ensures |RecordedAll(jobs)| <= |jobs|
  {
    FlatMapAtMostOne(jobs, Recorded);
  }

  /** Every summary row of a split project type is coloured by its kind: the
      collective and the ended accounts as 'vor'/'alle', the running accounts
      as 'nach' only; an unsplit project type as 'alle'. */
  lemma JobRemarks(sl: Slices, cut1: Date, cut2: Date, pa: int, rows: seq<Record>)
    requires IsValid(cut1) && IsValid(cut2)
    ensures var jobs := SplitJobs(sl, cut1, cut2, pa);
      && VorOderAlle(TitleRemark(jobs[0].title))
      && VorOderAlle(TitleRemark(jobs[1].title))
      && Nach(TitleRemark(jobs[2].title)) && !VorOderAlle(TitleRemark(jobs[2].title))
      && VorOderAlle(TitleRemark(UnsplitJob(rows, pa).title))
  {
    var jobs := SplitJobs(sl, cut1, cut2, pa);
    SammelTitle(pa);
    VorTitle(pa, cut1);
    NachTitle(pa, cut2);
    AlleTitle(pa);
    assert jobs[0].title == Title(pa, SammelRemark);
    assert jobs[1].title == Title(pa, VorRemark(cut1));
    assert jobs[2].title == Title(pa, NachRemark(cut2));
  }

  /** The project-type column of every job of a project type reads
      "Projektart <pa> ". */
  lemma JobHeads(sl: Slices, cut1: Date, cut2: Date, pa: int, rows: seq<Record>)
    requires IsValid(cut1) && IsValid(cut2)
    ensures var head := "Projektart " + IntToString(pa) + " ";
      && TitleHead(SplitJobs(sl, cut1, cut2, pa)[0].title) == head
      && TitleHead(SplitJobs(sl, cut1, cut2, pa)[1].title) == head
      && TitleHead(SplitJobs(sl, cut1, cut2, pa)[2].title) == head
      && TitleHead(UnsplitJob(rows, pa).title) == head
  {
    SammelTitle(pa);
    VorTitle(pa, cut1);
    NachTitle(pa, cut2);
    AlleTitle(pa);
  }

  lemma SammelTitle(pa: int)
    ensures TitleRemark(Title(pa, SammelRemark)) == SammelRemark && VorOderAlle(SammelRemark)
    ensures TitleHead(Title(pa, SammelRemark)) == "Projektart " + IntToString(pa) + " "
  {
    SammelRemarkKind();
    TitleSplit(pa, SammelRemark);
  }

  lemma AlleTitle(pa: int)
    ensures TitleRemark(Title(pa, AlleRemark)) == AlleRemark && VorOderAlle(AlleRemark)
    ensures TitleHead(Title(pa, AlleRemark)) == "Projektart " + IntToString(pa) + " "
  {
    AlleRemarkKind();
    TitleSplit(pa, AlleRemark);
  }

  lemma VorTitle(pa: int, cut1: Date)
    requires IsValid(cut1)
    ensures TitleRemark(Title(pa, VorRemark(cut1))) == VorRemark(cut1) && VorOderAlle(VorRemark(cut1))
    ensures TitleHead(Title(pa, VorRemark(cut1))) == "Projektart " + IntToString(pa) + " "
  {
    VorRemarkKind(cut1);
    TitleSplit(pa, VorRemark(cut1));
  }

  lemma NachTitle(pa: int, cut2: Date)
    requires IsValid(cut2)
    ensures TitleRemark(Title(pa, NachRemark(cut2))) == NachRemark(cut2)
    ensures Nach(NachRemark(cut2)) && !VorOderAlle(NachRemark(cut2))
    ensures TitleHead(Title(pa, NachRemark(cut2))) == "Projektart " + IntToString(pa) + " "
  {
    NachRemarkKind(cut2);
    TitleSplit(pa, NachRemark(cut2));
  }
}
