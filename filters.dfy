/** Row selections of the core: `cont` / `not_cont` (a regular-expression
    search on one column), the removal of the latest year, the split at a
    cut-off date and the split into collective and individual accounts.
    Only the patterns the program uses are modelled: a literal substring, an
    anchored alternative of literals (`^999$|^1$`) and the project-type shape
    `^\d{3}<PA>\d{10}$`. */
module Filters {
  import opened Wrappers
  import opened Text
  import opened Dates
  import opened Ordering
  import opened Seqs

  datatype Pattern =
    | Substring(lit: string)        // an unanchored literal such as 'Ergebnis'
    | ExactOneOf(alts: seq<string>) // `^a$|^b$|...`
    | PaShape(pa: string)           // `^\d{3}<pa>\d{10}$`

  /** The project-type shape without the end-of-line allowance of `$`. */
  predicate PaShapeExact(s: string, pa: string) {
    && |s| == 3 + |pa| + 10
    && AllDigits(s[..3])
    && s[3..3 + |pa|] == pa
    && AllDigits(s[3 + |pa|..])
  }

  /** `re.search(p, s)` succeeds. In Python `$` also matches just before a
      final newline. */
  predicate Matches(p: Pattern, s: string) {
    match p
    case Substring(lit) => Contains(s, lit)
    case ExactOneOf(alts) => exists k :: 0 <= k < |alts| && (s == alts[k] || s == alts[k] + "\n")
    case PaShape(pa) =>
      || PaShapeExact(s, pa)
      || (|s| > 0 && s[|s| - 1] == '\n' && PaShapeExact(s[..|s| - 1], pa))
  }

  /** `str(cell)`: an undefined cell reads as "nan". */
  function CellText(c: Option<string>): string {
    if c.Some? then c.value else "nan"
  }

  /** `cont(df, column, pattern)`: the rows whose cell matches. pandas cannot
      use a mask with undefined entries, so an undefined cell is an error. */
  function Cont<T(==)>(rows: seq<T>, cell: T -> Option<string>, p: Pattern): (r: Result<seq<T>>)
    ensures r.Ok? <==> forall k :: 0 <= k < |rows| ==> cell(rows[k]).Some?
    ensures r.Err? ==> r.error == MaskWithMissing
    ensures r.Ok? ==> r.value == Filter(rows, x => Matches(p, CellText(cell(x))))
  {
    if forall k :: 0 <= k < |rows| ==> cell(rows[k]).Some? then
      Ok(Filter(rows, x => Matches(p, CellText(cell(x)))))
    else Err(MaskWithMissing)
  }

  /** `not_cont(df, column, pattern)`: the rows whose cell, as text, does not match. */
  function NotCont<T(==)>(rows: seq<T>, cell: T -> Option<string>, p: Pattern): seq<T> {
    Filter(rows, x => !Matches(p, CellText(cell(x))))
  }

  /** Where `cont` succeeds, it and `not_cont` split the rows between them:
      nothing lost, nothing added, each side in the original order. */
  lemma ContNotContPartition<T>(rows: seq<T>, cell: T -> Option<string>, p: Pattern)
    requires Cont(rows, cell, p).Ok?
    ensures multiset(Cont(rows, cell, p).value) + multiset(NotCont(rows, cell, p)) == multiset(rows)
    ensures Subsequence(Cont(rows, cell, p).value, rows) && Subsequence(NotCont(rows, cell, p), rows)
  {
    var m := (x: T) => Matches(p, CellText(cell(x)));
    FilterPartition(rows, m);
    FilterExt(rows, Not(m), x => !Matches(p, CellText(cell(x))));
    FilterSubsequence(rows, m);
    FilterSubsequence(rows, x => !Matches(p, CellText(cell(x))));
  }

  /** `not_cont` keeps exactly the rows whose cell, as text, does not match,
      in their order. */
  lemma NotContSpec<T>(rows: seq<T>, cell: T -> Option<string>, p: Pattern)
    ensures forall x :: x in NotCont(rows, cell, p) <==> x in rows && !Matches(p, CellText(cell(x)))
    ensures Subsequence(NotCont(rows, cell, p), rows)
  {
    FilterSubsequence(rows, x => !Matches(p, CellText(cell(x))));
  }

  /** A selection of a sorted table is sorted. */
  lemma {:induction false} FilterSorted<T>(s: seq<T>, p: T -> bool, key: T -> SortKey)
    requires SortedBy(s, key)
    ensures SortedBy(Filter(s, p), key)
  {
    if s != [] {
      var t := s[1..];
      assert SortedBy(t, key) by {
        forall i, j | 0 <= i < j < |t| ensures KeyLe(key(t[i]), key(t[j])) {
          assert t[i] == s[i + 1] && t[j] == s[j + 1];
        }
      }
      FilterSorted(t, p, key);
      if p(s[0]) {
        var f := Filter(t, p);
        forall j | 0 <= j < |f| ensures KeyLe(key(s[0]), key(f[j])) {
          var m :| 0 <= m < |t| && t[m] == f[j];
          assert s[m + 1] == f[j];
        }
        var r := [s[0]] + f;
        forall i, j | 0 <= i < j < |r| ensures KeyLe(key(r[i]), key(r[j])) {
          assert r[j] == f[j - 1];
          if i > 0 { assert r[i] == f[i - 1]; }
        }
      }
    }
  }

  /** `not_cont` keeps a sorted table sorted. */
  lemma NotContSorted<T>(rows: seq<T>, cell: T -> Option<string>, p: Pattern, key: T -> SortKey)
    requires SortedBy(rows, key)
    ensures SortedBy(NotCont(rows, cell, p), key)
  {
    FilterSorted(rows, x => !Matches(p, CellText(cell(x))), key);
  }

  // ------------------------------------------------- collective accounts

  /** Donor codes of collective accounts. */
  const Sammelkonto: Pattern := ExactOneOf(["999", "1"])

  predicate IsSammelkonto(geldgeber: Option<string>) {
    Matches(Sammelkonto, CellText(geldgeber))
  }

  lemma SammelkontoCodes(g: string)
    ensures IsSammelkonto(Some(g)) <==> g in {"999", "1", "999\n", "1\n"}
  {
    var alts := ["999", "1"];
    assert "999" + "\n" == "999\n" && "1" + "\n" == "1\n";
    if IsSammelkonto(Some(g)) {
      var k :| 0 <= k < |alts| && (g == alts[k] || g == alts[k] + "\n");
      assert k == 0 || k == 1;
    }
    if g == "999" || g == "999\n" { assert alts[0] == "999"; }
    if g == "1" || g == "1\n" { assert alts[1] == "1"; }
  }

  /** `nur_sammelkonten`: rows whose Geldgeber is 999 or 1. */
  function NurSammelkonten<T(==)>(rows: seq<T>, geldgeber: T -> Option<string>): Result<seq<T>> {
    Cont(rows, geldgeber, Sammelkonto)
  }

  /** `keine_sammelkonten`: all other rows; an undefined Geldgeber reads as "nan". */
  function KeineSammelkonten<T(==)>(rows: seq<T>, geldgeber: T -> Option<string>): seq<T> {
    NotCont(rows, geldgeber, Sammelkonto)
  }

  /** The two account selections partition the rows and keep their order; a
      row lands in the collective selection exactly when its donor code is
      999 or 1. */
  lemma SammelkontenPartition<T>(rows: seq<T>, geldgeber: T -> Option<string>)
    requires NurSammelkonten(rows, geldgeber).Ok?
    ensures multiset(NurSammelkonten(rows, geldgeber).value) + multiset(KeineSammelkonten(rows, geldgeber)) == multiset(rows)
    ensures Subsequence(NurSammelkonten(rows, geldgeber).value, rows)
    ensures Subsequence(KeineSammelkonten(rows, geldgeber), rows)
    ensures forall x :: x in NurSammelkonten(rows, geldgeber).value <==> x in rows && IsSammelkonto(geldgeber(x))
    ensures forall x :: x in KeineSammelkonten(rows, geldgeber) <==> x in rows && !IsSammelkonto(geldgeber(x))
  {
    ContNotContPartition(rows, geldgeber, Sammelkonto);
  }

  /** The collective selection fails as soon as one Geldgeber is undefined. */
  lemma NurSammelkontenMissing<T>(rows: seq<T>, geldgeber: T -> Option<string>, k: nat)
    requires k < |rows| && geldgeber(rows[k]).None?
    ensures NurSammelkonten(rows, geldgeber) == Err(MaskWithMissing)
  {
  }

  // -------------------------------------------------------- latest year

  /** `rem_current_year`: drop every row of the latest Jahr (the string maximum). */
  function RemCurrentYear<T(==)>(rows: seq<T>, jahr: T -> string): seq<T> {
    if rows == [] then [] else Filter(rows, x => jahr(x) != MaxStr(Map(rows, jahr)))
  }

  /** Exactly the rows of the latest year go; every other row stays, in order. */
  lemma RemCurrentYearSpec<T>(rows: seq<T>, jahr: T -> string)
    requires |rows| > 0
    ensures var latest := MaxStr(Map(rows, jahr));
      && (forall x :: x in RemCurrentYear(rows, jahr) <==> x in rows && jahr(x) != latest)
      && (forall k :: 0 <= k < |rows| ==> StrLe(jahr(rows[k]), latest))
      && multiset(RemCurrentYear(rows, jahr)) + multiset(Filter(rows, x => jahr(x) == latest)) == multiset(rows)
      && Subsequence(RemCurrentYear(rows, jahr), rows)
  {
    var latest := MaxStr(Map(rows, jahr));
    var keep := (x: T) => jahr(x) != latest;
    FilterPartition(rows, keep);
    FilterExt(rows, Not(keep), x => jahr(x) == latest);
    FilterSubsequence(rows, keep);
    forall k | 0 <= k < |rows| ensures StrLe(jahr(rows[k]), latest) {
      assert Map(rows, jahr)[k] == jahr(rows[k]);
    }
  }

  /** Removing the latest year keeps a sorted table sorted. */
  lemma RemCurrentYearSorted<T>(rows: seq<T>, jahr: T -> string, key: T -> SortKey)
    requires SortedBy(rows, key)
    ensures SortedBy(RemCurrentYear(rows, jahr), key)
  {
    if rows != [] {
      FilterSorted(rows, x => jahr(x) != MaxStr(Map(rows, jahr)), key);
    }
  }

  /** Removing the latest year adds nothing. */
  lemma RemCurrentYearSubset<T>(rows: seq<T>, jahr: T -> string)
    ensures forall x :: x in RemCurrentYear(rows, jahr) ==> x in rows
  {
  }

  /** With two or more distinct years something remains. */
  lemma RemCurrentYearKeepsEarlier<T>(rows: seq<T>, jahr: T -> string, i: nat, j: nat)
    requires i < |rows| && j < |rows| && jahr(rows[i]) != jahr(rows[j])
    ensures |RemCurrentYear(rows, jahr)| > 0
  {
    var latest := MaxStr(Map(rows, jahr));
    assert Map(rows, jahr)[i] == jahr(rows[i]) && Map(rows, jahr)[j] == jahr(rows[j]);
    var k := if jahr(rows[i]) != latest then i else j;
    assert rows[k] in RemCurrentYear(rows, jahr);
  }

  // -------------------------------------------------------------- cut-off

  /** `laufende_projekte_ignorieren`: projects ending on or before the cut-off
      (an undefined end date compares false). */
  function EndedBy<T(==)>(rows: seq<T>, ende: T -> Option<Date>, cutoff: Date): seq<T> {
    Filter(rows, x => ende(x).Some? && AtOrBefore(ende(x).value, cutoff))
  }

  /** `nur_laufende_projekte`: projects ending after the cut-off. */
  function RunningAfter<T(==)>(rows: seq<T>, ende: T -> Option<Date>, cutoff: Date): seq<T> {
    Filter(rows, x => ende(x).Some? && Before(cutoff, ende(x).value))
  }

  /** The two cut-off selections split the rows with a defined end date, and
      rows without one are in neither. */
  lemma CutoffSplit<T>(rows: seq<T>, ende: T -> Option<Date>, cutoff: Date)
    ensures multiset(EndedBy(rows, ende, cutoff)) + multiset(RunningAfter(rows, ende, cutoff))
         == multiset(Filter(rows, x => ende(x).Some?))
    ensures forall x :: x in EndedBy(rows, ende, cutoff) ==> x !in RunningAfter(rows, ende, cutoff)
    ensures forall x :: x in rows && ende(x).None? ==> x !in EndedBy(rows, ende, cutoff) && x !in RunningAfter(rows, ende, cutoff)
    ensures forall x :: x in EndedBy(rows, ende, cutoff) <==> x in rows && ende(x).Some? && AtOrBefore(ende(x).value, cutoff)
    ensures forall x :: x in RunningAfter(rows, ende, cutoff) <==> x in rows && ende(x).Some? && Before(cutoff, ende(x).value)
  {
    var defined := Filter(rows, x => ende(x).Some?);
    var early := (x: T) => ende(x).Some? && AtOrBefore(ende(x).value, cutoff);
    var late := (x: T) => ende(x).Some? && Before(cutoff, ende(x).value);
    FilterFilterSplit(rows, (x: T) => ende(x).Some?, early, late);
    forall x ensures x in EndedBy(rows, ende, cutoff) <==> x in rows && early(x) {
      FilterMembers(rows, early, x);
    }
    forall x ensures x in RunningAfter(rows, ende, cutoff) <==> x in rows && late(x) {
      FilterMembers(rows, late, x);
    }
    forall x | x in EndedBy(rows, ende, cutoff) ensures x !in RunningAfter(rows, ende, cutoff) {
      BeforeTotal(ende(x).value, cutoff);
    }
  }

  /** Splitting the rows that satisfy `d` by two complementary conditions on them. */
  lemma {:induction false} FilterFilterSplit<T>(rows: seq<T>, d: T -> bool, a: T -> bool, b: T -> bool)
    requires forall k :: 0 <= k < |rows| ==> (a(rows[k]) ==> d(rows[k])) && (b(rows[k]) ==> d(rows[k]))
    requires forall k :: 0 <= k < |rows| && d(rows[k]) ==> a(rows[k]) != b(rows[k])
    ensures multiset(Filter(rows, a)) + multiset(Filter(rows, b)) == multiset(Filter(rows, d))
  {
    if rows != [] {
      FilterFilterSplit(rows[1..], d, a, b);
    }
  }
}
