/** The plausibility checks of the importer: the content marker in the first
    line of each SAP export, the unit code (IKZ) carried by the PSP numbers of
    each table and across the four tables, and the minimum number of years. */
module Validation {
  import opened Wrappers
  import opened Text
  import opened Seqs

  // ------------------------------------------------------- content marker

  /** The export kinds and the marker each one carries in its first line. */
  function Marker(kind: string): Option<string> {
    if kind == "stammdaten" then Some("Stammdaten HHP")
    else if kind == "budget" then Some("Budget")
    else if kind == "obligo" then Some("Obligos")
    else if kind == "kst" then Some("Kontostand")
    else None
  }

  /** `check_sap_csv_content` on the fields of the export's first line. */
  function CheckSapCsvContent(kind: string, firstLine: seq<string>): (r: Result<()>)
    ensures r.Ok? <==> Marker(kind).Some? && |firstLine| >= 2 && firstLine[1] == Marker(kind).value
    ensures Marker(kind).None? ==> r == Err(UnknownSource(kind))
    ensures Marker(kind).Some? && |firstLine| < 2 ==> r == Err(MissingMarker)
    ensures Marker(kind).Some? && |firstLine| >= 2 && r.Err? ==>
              r == Err(ContentMismatch(Marker(kind).value, firstLine[1]))
  {
    match Marker(kind)
    case None => Err(UnknownSource(kind))
    case Some(expected) =>
      if |firstLine| < 2 then Err(MissingMarker)
      else if firstLine[1] == expected then Ok(())
      else Err(ContentMismatch(expected, firstLine[1]))
  }

  /** Exactly the four export kinds are known, and their markers differ, so
      no export passes the check of another kind. */
  lemma MarkersDistinct(k1: string, k2: string, firstLine: seq<string>)
    requires Marker(k1).Some? && Marker(k2).Some? && k1 != k2
    ensures !(CheckSapCsvContent(k1, firstLine).Ok? && CheckSapCsvContent(k2, firstLine).Ok?)
  {
  }

  // ------------------------------------------------------------- unit code

  /** The unit code inside a PSP number: `psp[5:11]`. */
  function UnitCode(psp: string): string {
    Slice(psp, 5, 11)
  }

  /** `get_ikz` on the PSP column: the one distinct unit code. An empty table
      has none (`grouped.index[0]` fails). */
  function GetIkz(psps: seq<string>): (r: Result<string>)
    ensures psps == [] <==> r == Err(NoUnit)
    ensures r.Ok? <==> psps != [] && forall k :: 0 <= k < |psps| ==> UnitCode(psps[k]) == UnitCode(psps[0])
    ensures r.Ok? ==> r.value == UnitCode(psps[0])
    ensures r.Err? && psps != [] ==> r.error == AmbiguousUnit
  {
    var codes := Distinct(Map(psps, UnitCode));
    DistinctCount(Map(psps, UnitCode));
    if |codes| > 1 then Err(AmbiguousUnit)
    else if |codes| == 0 then Err(NoUnit)
    else
      assert Map(psps, UnitCode)[0] in codes;
      Ok(codes[0])
  }

  /** Two PSP numbers of one table with different unit codes make it fail. */
  lemma GetIkzAmbiguous(psps: seq<string>, i: nat, j: nat)
    requires i < |psps| && j < |psps| && UnitCode(psps[i]) != UnitCode(psps[j])
    ensures GetIkz(psps) == Err(AmbiguousUnit)
  {
  }

  /** Every PSP of a table carries the unit code `u`. */
  predicate AllUnit<T>(rows: seq<T>, psp: T -> string, u: string) {
    forall k :: 0 <= k < |rows| ==> UnitCode(psp(rows[k])) == u
  }

  /** `get_ikz` on the PSP column of a table: a code exactly when the table is
      not empty and all its PSP numbers carry the code of its first one. */
  lemma GetIkzOf<T>(rows: seq<T>, psp: T -> string)
    ensures GetIkz(Map(rows, psp)).Ok? <==> rows != [] && AllUnit(rows, psp, UnitCode(psp(rows[0])))
    ensures GetIkz(Map(rows, psp)).Ok? ==> GetIkz(Map(rows, psp)).value == UnitCode(psp(rows[0]))
  {
  }

  /** `ikz_stammdaten == ikz_budget == ikz_obligo == ikz_kst`. */
  function CheckUnits(a: string, b: string, c: string, d: string): (r: Result<string>)
    ensures r.Ok? <==> a == b && b == c && c == d
    ensures r.Ok? ==> r.value == a
    ensures r.Err? ==> r.error == UnitMismatch
  {
    if a == b && b == c && c == d then Ok(a) else Err(UnitMismatch)
  }

  /** The unit code of a run: each table's own code, checked in the order
      master data, budget, commitments, balances, then compared. */
  function RunUnit(master: seq<string>, budget: seq<string>, obligo: seq<string>, kst: seq<string>): (r: Result<string>)
  {
    var a :- GetIkz(master);
    var b :- GetIkz(budget);
    var c :- GetIkz(obligo);
    var d :- GetIkz(kst);
    CheckUnits(a, b, c, d)
  }

  /** A run gets a unit code exactly when all PSP numbers of all four tables
      carry the same one, and then it is that code. */
  lemma RunUnitSpec(master: seq<string>, budget: seq<string>, obligo: seq<string>, kst: seq<string>)
    ensures RunUnit(master, budget, obligo, kst).Ok? <==>
      && master != [] && budget != [] && obligo != [] && kst != []
      && (forall k :: 0 <= k < |master| ==> UnitCode(master[k]) == UnitCode(master[0]))
      && (forall k :: 0 <= k < |budget| ==> UnitCode(budget[k]) == UnitCode(master[0]))
      && (forall k :: 0 <= k < |obligo| ==> UnitCode(obligo[k]) == UnitCode(master[0]))
      && (forall k :: 0 <= k < |kst| ==> UnitCode(kst[k]) == UnitCode(master[0]))
    ensures RunUnit(master, budget, obligo, kst).Ok? ==> RunUnit(master, budget, obligo, kst).value == UnitCode(master[0])
  {
  }

  // ----------------------------------------------------------------- years

  /** `check_jahr`: fails when the Jahr column holds at most one distinct value. */
  function CheckJahr(jahre: seq<string>): (r: Result<()>)
    ensures r.Err? ==> r.error == InsufficientYears
  {
    if |Distinct(jahre)| <= 1 then Err(InsufficientYears) else Ok(())
  }

  /** The check passes exactly when two rows have different years. */
  lemma CheckJahrSpec(jahre: seq<string>)
    ensures CheckJahr(jahre).Ok? <==> exists i, j :: 0 <= i < |jahre| && 0 <= j < |jahre| && jahre[i] != jahre[j]
  {
    DistinctCount(jahre);
    if CheckJahr(jahre).Ok? {
      var k :| 0 <= k < |jahre| && jahre[k] != jahre[0];
      assert jahre[0] != jahre[k];
    }
  }

  /** Two rows of a table with different years. */
  predicate TwoYears<T>(rows: seq<T>, jahr: T -> string) {
    exists i, j :: 0 <= i < |rows| && 0 <= j < |rows| && jahr(rows[i]) != jahr(rows[j])
  }

  /** `check_jahr` on the Jahr column of a table. */
  lemma CheckJahrOf<T>(rows: seq<T>, jahr: T -> string)
    ensures CheckJahr(Map(rows, jahr)).Ok? <==> TwoYears(rows, jahr)
  {
    var ys := Map(rows, jahr);
    CheckJahrSpec(ys);
    if TwoYears(rows, jahr) {
      var i, j :| 0 <= i < |rows| && 0 <= j < |rows| && jahr(rows[i]) != jahr(rows[j]);
      assert ys[i] != ys[j];
    }
  }
}
