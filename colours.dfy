/** The colouring of the summary table (`zusammenfassungstabelle_farbe`): each
    balance is read back from its German rendering (`parse_euro_amount`),
    coloured by the keyword of its remark and its sign, and summed; the total
    row is coloured by the sum and by the part of it that comes from negative
    balances of projects running after the cut-off. */
module Colours {
  import opened Wrappers
  import opened Text
  import opened Dates
  import opened Seqs
  import opened Report

  // --------------------------------------------------------- amounts as text

  /** The Euro sign. */
  const Euro: char := '\U{20AC}'

  function Pow10(n: nat): (r: nat)
    ensures r >= 1
  {
    if n == 0 then 1 else 10 * Pow10(n - 1)
  }

  /** Python's `float()` on a plain decimal: an optional sign, then digits with
      at most one decimal point and at least one digit. */
  function ParseDecimal(t: string): Option<real> {
    if |t| > 0 && (t[0] == '-' || t[0] == '+') then
      match ParseUnsigned(t[1..])
      case None => None
      case Some(v) => Some(if t[0] == '-' then -v else v)
    else ParseUnsigned(t)
  }

  function ParseUnsigned(t: string): Option<real> {
    var parts := Split(t, '.');
    if |parts| == 1 then
      if IsDigitText(t) then Some(DigitsValue(t) as real) else None
    else if |parts| == 2 && AllDigits(parts[0]) && AllDigits(parts[1]) && |parts[0]| + |parts[1]| > 0 then
      Some(DigitsValue(parts[0]) as real + DigitsValue(parts[1]) as real / Pow10(|parts[1]|) as real)
    else None
  }

  /** `parse_euro_amount`: drop the thousands points, turn the decimal comma
      into a point, drop the Euro sign and surrounding blanks, then `float()`.
      `None` stands for the ValueError branch (which returns the int 0). */
  function ParseEuroAmount(s: string): Option<real> {
    ParseDecimal(Strip(RemoveChar(ReplaceChar(RemoveChar(s, '.'), ',', '.'), Euro)))
  }

  /** Digits with a point between every group of three, counted from the right. */
  function Grouped(ds: string): (r: string)
    decreases |ds|
  {
    if |ds| <= 3 then ds else Grouped(ds[..|ds| - 3]) + "." + ds[|ds| - 3..]
  }

  /** The German rendering `-1.234,56 €` of an amount of `c` cents, as
      `locale.format_string('%.2f €', x, grouping=True)` writes it under de_DE. */
  function EuroText(c: int): string {
    var a := if c < 0 then -c else c;
    (if c < 0 then "-" else "") + Grouped(NatToDigits(a / 100)) + "," + TwoDigits(a % 100) + " " + [Euro]
  }

  /** The rendering of an amount, rounded to cents the way Python's `round`
      does. */
  function FormatEuro(x: real): string {
    EuroText(Round2Cents(x))
  }

  lemma {:induction false} GroupedRemove(ds: string)
    requires AllDigits(ds)
    ensures RemoveChar(Grouped(ds), '.') == ds
    ensures forall k :: 0 <= k < |Grouped(ds)| ==> IsDigit(Grouped(ds)[k]) || Grouped(ds)[k] == '.'
    ensures |ds| > 0 ==> |Grouped(ds)| > 0 && IsDigit(Grouped(ds)[0])
    decreases |ds|
  {
    if |ds| > 3 {
      var hi, lo := ds[..|ds| - 3], ds[|ds| - 3..];
      GroupedRemove(hi);
      RemoveCharConcat(Grouped(hi) + ".", lo, '.');
      RemoveCharConcat(Grouped(hi), ".", '.');
      assert '.' !in lo by { assert forall k :: 0 <= k < |lo| ==> IsDigit(lo[k]); }
      RemoveCharAbsent(lo, '.');
      assert hi + lo == ds;
      assert Grouped(ds) == Grouped(hi) + "." + lo;
    } else {
      assert '.' !in ds by { assert forall k :: 0 <= k < |ds| ==> IsDigit(ds[k]); }
      RemoveCharAbsent(ds, '.');
    }
  }

  lemma TwoDigitsValue(n: nat)
    requires n < 100
    ensures DigitsValue(TwoDigits(n)) == n
  {
    var t := TwoDigits(n);
    assert t[..1] == [t[0]];
    assert DigitsValue(t[..1]) == DigitValue(t[0]) by {
      assert [t[0]][..0] == [];
    }
  }

  lemma NoSpecialInDigits(s: string)
    requires AllDigits(s)
    ensures '.' !in s && ',' !in s && Euro !in s && '-' !in s
  {
    assert forall k :: 0 <= k < |s| ==> IsDigit(s[k]);
  }

  /** The decimal reading of `int.frac` with two fractional digits. */
  lemma ParseUnsignedPoint(d: string, t: string)
    requires AllDigits(d) && |d| > 0 && AllDigits(t) && |t| == 2
    ensures ParseUnsigned(d + "." + t) == Some(DigitsValue(d) as real + DigitsValue(t) as real / 100.0)
  {
    NoSpecialInDigits(d);
    NoSpecialInDigits(t);
    SplitFirst(d, t, '.');
    assert d + "." + t == d + ['.'] + t;
    assert Split(t, '.') == [t];
  }

  /** The points of the grouping go, and nothing else. */
  lemma DropPoints(sg: string, d: string, t: string, tail: string)
    requires '.' !in sg && '.' !in tail && AllDigits(d) && AllDigits(t)
    ensures RemoveChar(sg + Grouped(d) + "," + t + tail, '.') == sg + d + "," + t + tail
  {
    var g := Grouped(d);
    GroupedRemove(d);
    NoSpecialInDigits(t);
    RemoveCharConcat(sg + g + "," + t, tail, '.');
    RemoveCharConcat(sg + g + ",", t, '.');
    RemoveCharConcat(sg + g, ",", '.');
    RemoveCharConcat(sg, g, '.');
    RemoveCharAbsent(sg, '.');
    RemoveCharAbsent(",", '.');
    RemoveCharAbsent(t, '.');
    RemoveCharAbsent(tail, '.');
  }

  /** The decimal comma becomes a point. */
  lemma CommaToPoint(sg: string, d: string, t: string, tail: string)
    requires ',' !in sg && ',' !in tail && AllDigits(d) && AllDigits(t)
    ensures ReplaceChar(sg + d + "," + t + tail, ',', '.') == sg + d + "." + t + tail
  {
    NoSpecialInDigits(d);
    NoSpecialInDigits(t);
    ReplaceCharConcat(sg + d + "," + t, tail, ',', '.');
    ReplaceCharConcat(sg + d + ",", t, ',', '.');
    ReplaceCharConcat(sg + d, ",", ',', '.');
    ReplaceCharConcat(sg, d, ',', '.');
    ReplaceCharAbsent(sg, ',', '.');
    ReplaceCharAbsent(d, ',', '.');
    ReplaceCharAbsent(t, ',', '.');
    ReplaceCharAbsent(tail, ',', '.');
  }

  /** The Euro sign goes. */
  lemma DropEuro(num: string)
    requires Euro !in num
    ensures RemoveChar(num + " " + [Euro], Euro) == num + " "
  {
    RemoveCharConcat(num + " ", [Euro], Euro);
    RemoveCharConcat(num, " ", Euro);
    RemoveCharAbsent(num, Euro);
    RemoveCharAbsent(" ", Euro);
    assert RemoveChar([Euro], Euro) == [];
  }

  /** The amount, once its decoration is removed, is the plain decimal `[-]int.frac`. */
  lemma CleanEuroText(c: int)
    ensures var a := if c < 0 then -c else c;
      Strip(RemoveChar(ReplaceChar(RemoveChar(EuroText(c), '.'), ',', '.'), Euro))
        == (if c < 0 then "-" else "") + NatToDigits(a / 100) + "." + TwoDigits(a % 100)
  {
    var a := if c < 0 then -c else c;
    var sg := if c < 0 then "-" else "";
    var d := NatToDigits(a / 100);
    var t := TwoDigits(a % 100);
    assert EuroText(c) == sg + Grouped(d) + "," + t + " " + [Euro];
    CleanParts(sg, d, t);
  }

  /** Removing the points, turning the comma into a point, removing the Euro
      sign and stripping the blank leave `[-]int.frac`. */
  lemma CleanParts(sg: string, d: string, t: string)
    requires sg == "" || sg == "-"
    requires AllDigits(d) && |d| > 0 && AllDigits(t) && |t| == 2
    ensures Strip(RemoveChar(ReplaceChar(RemoveChar(sg + Grouped(d) + "," + t + " " + [Euro], '.'), ',', '.'), Euro))
      == sg + d + "." + t
  {
    var tail := " " + [Euro];
    assert sg + Grouped(d) + "," + t + " " + [Euro] == sg + Grouped(d) + "," + t + tail;
    Unseparated(sg, d, t, tail);
    assert sg + d + "." + t + tail == sg + d + "." + t + " " + [Euro];
    DropEuroStrip(sg, d, t);
  }

  /** The points of the grouping go and the decimal comma becomes a point. */
  lemma Unseparated(sg: string, d: string, t: string, tail: string)
    requires '.' !in sg && ',' !in sg && '.' !in tail && ',' !in tail
    requires AllDigits(d) && AllDigits(t)
    ensures ReplaceChar(RemoveChar(sg + Grouped(d) + "," + t + tail, '.'), ',', '.') == sg + d + "." + t + tail
  {
    DropPoints(sg, d, t, tail);
    CommaToPoint(sg, d, t, tail);
  }

  /** The Euro sign and the blank before it go. */
  lemma DropEuroStrip(sg: string, d: string, t: string)
    requires sg == "" || sg == "-"
    requires AllDigits(d) && |d| > 0 && AllDigits(t) && |t| == 2
    ensures Strip(RemoveChar(sg + d + "." + t + " " + [Euro], Euro)) == sg + d + "." + t
  {
    NoSpecialInDigits(d);
    NoSpecialInDigits(t);
    var num := sg + d + "." + t;
    DropEuro(num);
    assert num[0] == (if sg == "-" then '-' else d[0]);
    assert num[|num| - 1] == t[1];
    StripTrailing(num, " ");
  }

  /** A leading minus negates the unsigned reading. */
  lemma ParseDecimalOf(neg: bool, d: string, t: string, w: string, v: real, r: real)
    requires |d| > 0 && IsDigit(d[0]) && ParseUnsigned(d + "." + t) == Some(v)
    requires w == (if neg then "-" else "") + d + "." + t
    requires r == if neg then -v else v
    ensures ParseDecimal(w) == Some(r)
  {
    var u := d + "." + t;
    if neg {
      assert w == "-" + u;
      assert w[0] == '-' && w[1..] == u;
    } else {
      assert w == u;
      assert w[0] == d[0];
    }
  }

  lemma CentsSplit(a: nat)
    ensures (a / 100) as real + (a % 100) as real / 100.0 == a as real / 100.0
  {
    assert a == (a / 100) * 100 + a % 100;
  }

  /** The unsigned reading of `int.cc` is the amount in cents over 100. */
  lemma ParseCents(a: nat)
    ensures ParseUnsigned(NatToDigits(a / 100) + "." + TwoDigits(a % 100)) == Some(a as real / 100.0)
  {
    var d := NatToDigits(a / 100);
    var t := TwoDigits(a % 100);
    ParseUnsignedPoint(d, t);
    DigitsRoundTrip(a / 100);
    TwoDigitsValue(a % 100);
    CentsSplit(a);
  }

  /** The signed reading of `[-]int.cc` is the amount in cents over 100. */
  lemma ParseSignedCents(c: int, a: nat)
    requires a == if c < 0 then -c else c
    ensures ParseDecimal((if c < 0 then "-" else "") + NatToDigits(a / 100) + "." + TwoDigits(a % 100))
      == Some(c as real / 100.0)
  {
    ParseCents(a);
    assert IsDigit(NatToDigits(a / 100)[0]);
    CentsSign(c, a);
    ParseDecimalOf(c < 0, NatToDigits(a / 100), TwoDigits(a % 100),
                   (if c < 0 then "-" else "") + NatToDigits(a / 100) + "." + TwoDigits(a % 100),
                   a as real / 100.0, c as real / 100.0);
  }

  lemma CentsSign(c: int, a: nat)
    requires a == if c < 0 then -c else c
    ensures c as real / 100.0 == if c < 0 then -(a as real / 100.0) else a as real / 100.0
  {
  }

  /** `parse_euro_amount` reads the German rendering of an amount back exactly. */
  lemma ParseEuroText(c: int)
    ensures ParseEuroAmount(EuroText(c)) == Some(c as real / 100.0)
  {
    CleanEuroText(c);
    ParseSignedCents(c, if c < 0 then -c else c);
  }

  /** A cell without points, commas, Euro signs, surrounding blanks or a
      leading sign or digit is not an amount. */
  lemma NotAmount(s: string)
    requires '.' !in s && ',' !in s && Euro !in s
    requires |s| > 0 && !IsSpace(s[0]) && !IsSpace(s[|s| - 1])
    requires !IsDigit(s[0]) && s[0] != '-' && s[0] != '+'
    ensures ParseEuroAmount(s) == None
  {
    RemoveCharAbsent(s, '.');
    ReplaceCharAbsent(s, ',', '.');
    RemoveCharAbsent(s, Euro);
    StripUnchanged(s);
    assert Split(s, '.') == [s];
  }

  /** The column header is not an amount and is skipped. */
  lemma HeaderNotAmount()
    ensures ParseEuroAmount("Kontostand") == None
  {
    NotAmount("Kontostand");
  }

  // ----------------------------------------------------------- colouring

  datatype Colour = Red | Green | Orange

  /** `('TEXTCOLOR', (2, row), (2, row), colour)`: the colour of the balance
      cell of one table row (row 0 is the header). */
  datatype Style = TextColor(row: int, colour: Colour)

  /** A row of the summary table as the PDF receives it: project type, remark
      and the rendered balance. */
  datatype TableRow = TableRow(projektart: string, bemerkung: string, kontostand: string)

  /** Remarks of the "before the cut-off / all accounts" kind (tested first). */
  predicate VorOderAlle(bemerkung: string) {
    Contains(Lower(bemerkung), "vor") || Contains(Lower(bemerkung), "alle")
  }

  /** Remarks of the "after the cut-off" kind. */
  predicate Nach(bemerkung: string) {
    Contains(Lower(bemerkung), "nach")
  }

  /** The colour one body row gets, if any. */
  function RowStyle(i: int, row: TableRow): seq<Style> {
    match ParseEuroAmount(row.kontostand)
    case None => []
    case Some(x) => Colouring(i, x, VorOderAlle(row.bemerkung), Nach(row.bemerkung))
  }

  /** The colour of row `i` from its balance and whether its remark is a
      'vor'/'alle' one or a 'nach' one. */
  function Colouring(i: int, x: real, vorOderAlle: bool, nach: bool): seq<Style> {
    if vorOderAlle then
      if x < 0.0 then [TextColor(i, Red)] else if x > 0.0 then [TextColor(i, Green)] else []
    else if nach then
      if x < 0.0 then [TextColor(i, Orange)] else if x > 0.0 then [TextColor(i, Green)] else []
    else []
  }

  /** What a row adds to `total_sum` (nothing if its balance is not a number). */
  function RowAmount(row: TableRow): real {
    ParseEuroAmount(row.kontostand).GetOr(0.0)
  }

  /** What a row adds to `negative_orange`. */
  function RowOrange(row: TableRow): real {
    match ParseEuroAmount(row.kontostand)
    case None => 0.0
    case Some(x) => if !VorOderAlle(row.bemerkung) && Nach(row.bemerkung) && x < 0.0 then x else 0.0
  }

  /** The styles of the body rows, row `k` of `rows` being table row `k`. */
  function BodyStyles(rows: seq<TableRow>): seq<Style> {
    StylesWith(rows, RowStyle)
  }

  /** The sum of `total_sum` over the body rows. */
  function BodyTotal(rows: seq<TableRow>): real {
    SumWith(rows, RowAmount)
  }

  /** The sum of `negative_orange` over the body rows. */
  function BodyOrange(rows: seq<TableRow>): real {
    SumWith(rows, RowOrange)
  }

  /** The styles a per-row rule gives the rows, in row order. */
  function StylesWith(rows: seq<TableRow>, f: (int, TableRow) -> seq<Style>): seq<Style> {
    if rows == [] then [] else StylesWith(rows[..|rows| - 1], f) + f(|rows| - 1, rows[|rows| - 1])
  }

  /** An accumulator over the rows, in row order. */
  function SumWith(rows: seq<TableRow>, f: TableRow -> real): real {
    if rows == [] then 0.0 else SumWith(rows[..|rows| - 1], f) + f(rows[|rows| - 1])
  }

  /** The colour of the total: green when positive, orange when the deficit
      is covered by the orange part, red otherwise. */
  function TotalColour(total: real, orange: real): Colour {
    if total > 0.0 then Green else if total - orange >= 0.0 then Orange else Red
  }

  /** `table_data[:-1]`. */
  function Body(table: seq<TableRow>): seq<TableRow> {
    if table == [] then [] else table[..|table| - 1]
  }

  /** The style list of the whole table: the body rows, then the last row. */
  function Styles(table: seq<TableRow>): seq<Style> {
    var body := Body(table);
    BodyStyles(body) + [TextColor(|table| - 1, TotalColour(BodyTotal(body), BodyOrange(body)))]
  }

  /** `PDFReport.zusammenfassungstabelle_farbe(table_data)`. */
  method ZusammenfassungstabelleFarbe(table: seq<TableRow>) returns (style: seq<Style>)
    ensures style == Styles(table)
  {
    style := [];
    var totalSum := 0.0;
    var positiveGreen := 0.0;
    var negativeRed := 0.0;
    var negativeOrange := 0.0;
    var body := if table == [] then [] else table[..|table| - 1];
    assert body == Body(table);
    var rowIdx := 0;
    while rowIdx < |body|
      invariant 0 <= rowIdx <= |body|
      invariant style == BodyStyles(body[..rowIdx])
      invariant totalSum == BodyTotal(body[..rowIdx])
      invariant negativeOrange == BodyOrange(body[..rowIdx])
    {
      var row := body[rowIdx];
      BodyStep(body, rowIdx);
      var kontostand := ParseEuroAmount(row.kontostand);
      if kontostand.Some? {
        var x := kontostand.value;
        var b := Lower(row.bemerkung);
        if Contains(b, "vor") || Contains(b, "alle") {
          if x < 0.0 {
            style := style + [TextColor(rowIdx, Red)];
            negativeRed := negativeRed + x;
          } else if x > 0.0 {
            style := style + [TextColor(rowIdx, Green)];
            positiveGreen := positiveGreen + x;
          }
        } else if Contains(b, "nach") {
          if x < 0.0 {
            style := style + [TextColor(rowIdx, Orange)];
            negativeOrange := negativeOrange + x;
          } else if x > 0.0 {
            style := style + [TextColor(rowIdx, Green)];
            positiveGreen := positiveGreen + x;
          }
        }
        totalSum := totalSum + x;
      }
      rowIdx := rowIdx + 1;
    }
    TakeAll(body);
    assert style == BodyStyles(body) && totalSum == BodyTotal(body) && negativeOrange == BodyOrange(body);
    var last := |table| - 1;
    if totalSum > 0.0 {
      style := style + [TextColor(last, Green)];
    } else if totalSum - negativeOrange >= 0.0 {
      style := style + [TextColor(last, Orange)];
    } else {
      style := style + [TextColor(last, Red)];
    }
  }

  /** One more body row adds its own style and amounts. */
  lemma BodyStep(body: seq<TableRow>, k: nat)
    requires k < |body|
    ensures BodyStyles(body[..k + 1]) == BodyStyles(body[..k]) + RowStyle(k, body[k])
    ensures BodyTotal(body[..k + 1]) == BodyTotal(body[..k]) + RowAmount(body[k])
    ensures BodyOrange(body[..k + 1]) == BodyOrange(body[..k]) + RowOrange(body[k])
  {
    assert body[..k + 1][..k] == body[..k];
  }

  // ------------------------------------------------------------- properties

  /** The body styles name only body rows, and row `i` gets exactly its own style. */
  lemma RowStyleRow(i: int, row: TableRow)
    ensures forall s :: s in RowStyle(i, row) ==> s.row == i
  {
    match ParseEuroAmount(row.kontostand)
    case None =>
    case Some(x) => ColouringRow(i, x, VorOderAlle(row.bemerkung), Nach(row.bemerkung));
  }

  lemma ColouringRow(i: int, x: real, vorOderAlle: bool, nach: bool)
    ensures forall s :: s in Colouring(i, x, vorOderAlle, nach) ==> s.row == i
  {
  }

  /** A rule that styles only its own row leaves row `i` exactly its own styles. */
  lemma {:induction false} StylesWithAt(rows: seq<TableRow>, f: (int, TableRow) -> seq<Style>, i: int, c: Colour)
    requires forall j, row, s :: s in f(j, row) ==> s.row == j
    ensures TextColor(i, c) in StylesWith(rows, f) <==> 0 <= i < |rows| && TextColor(i, c) in f(i, rows[i])
    decreases |rows|
  {
    if rows != [] {
      var n := |rows| - 1;
      var init := rows[..n];
      StylesWithAt(init, f, i, c);
      if 0 <= i < n {
        assert init[i] == rows[i];
      }
      assert StylesWith(rows, f) == StylesWith(init, f) + f(n, rows[n]);
    }
  }

  lemma BodyStylesAt(rows: seq<TableRow>, i: int, c: Colour)
    ensures TextColor(i, c) in BodyStyles(rows) <==> 0 <= i < |rows| && TextColor(i, c) in RowStyle(i, rows[i])
  {
    forall j, row, s | s in RowStyle(j, row) ensures s.row == j {
      RowStyleRow(j, row);
    }
    StylesWithAt(rows, RowStyle, i, c);
  }

  /** The colour of a body row follows its remark and its sign: red for a
      negative and green for a positive balance under a 'vor'/'alle' remark,
      orange for a negative and green for a positive one under a 'nach'
      remark; no colour for a zero balance, another remark, or a cell that is
      not a number. */
  lemma RowColour(table: seq<TableRow>, i: nat, c: Colour)
    requires i + 1 < |table|
    ensures TextColor(i, c) in Styles(table) <==>
      match ParseEuroAmount(table[i].kontostand)
      case None => false
      case Some(x) =>
        if VorOderAlle(table[i].bemerkung) then (c == Red && x < 0.0) || (c == Green && x > 0.0)
        else Nach(table[i].bemerkung) && ((c == Orange && x < 0.0) || (c == Green && x > 0.0))
  {
    var body := Body(table);
    BodyStylesAt(body, i, c);
    assert body[i] == table[i];
  }

  /** A 'vor' or 'alle' remark is never coloured orange. */
  lemma VorAlleNeverOrange(table: seq<TableRow>, i: nat)
    requires i + 1 < |table| && VorOderAlle(table[i].bemerkung)
    ensures TextColor(i, Orange) !in Styles(table)
  {
    RowColour(table, i, Orange);
  }

  /** An accumulator over the rows is the sum of its column. */
  lemma {:induction false} SumWithMap(rows: seq<TableRow>, f: TableRow -> real)
    ensures SumWith(rows, f) == Sum(Map(rows, f))
    decreases |rows|
  {
    if rows != [] {
      var init := rows[..|rows| - 1];
      SumWithMap(init, f);
      assert rows == init + [rows[|rows| - 1]];
      MapConcat(init, [rows[|rows| - 1]], f);
      SumConcat(Map(init, f), Map([rows[|rows| - 1]], f));
    }
  }

  /** Every body amount is counted in the total, whatever its remark. */
  lemma BodyTotalSum(rows: seq<TableRow>)
    ensures BodyTotal(rows) == Sum(Map(rows, RowAmount))
  {
    SumWithMap(rows, RowAmount);
  }

  /** An accumulator of non-positive amounts is never positive. */
  lemma {:induction false} SumWithNonPositive(rows: seq<TableRow>, f: TableRow -> real)
    requires forall row :: f(row) <= 0.0
    ensures SumWith(rows, f) <= 0.0
    decreases |rows|
  {
    if rows != [] {
      SumWithNonPositive(rows[..|rows| - 1], f);
    }
  }

  /** The orange part is never positive. */
  lemma BodyOrangeNonPositive(rows: seq<TableRow>)
    ensures BodyOrange(rows) <= 0.0
  {
    SumWithNonPositive(rows, RowOrange);
  }

  /** The last style colours the last row: green when the sum of all body
      amounts is positive; otherwise orange when that sum without the
      negative 'nach' amounts is not negative, and red when it is. */
  lemma TotalStyle(table: seq<TableRow>)
    ensures |Styles(table)| >= 1
    ensures var s := Styles(table)[|Styles(table)| - 1];
      var total := Sum(Map(Body(table), RowAmount));
      && s.row == |table| - 1
      && (s.colour == Green <==> total > 0.0)
      && (s.colour == Orange <==> total <= 0.0 && total - BodyOrange(Body(table)) >= 0.0)
      && (s.colour == Red <==> total <= 0.0 && total - BodyOrange(Body(table)) < 0.0)
  {
    BodyTotalSum(Body(table));
  }

  // ---------------------------------------------- the summary, rendered

  /** A summary row as the PDF table holds it. */
  function Rendered(s: SummaryRow): TableRow {
    TableRow(s.projektart, s.bemerkung, FormatEuro(s.kontostand))
  }

  /** The PDF table of the summary: the column names, the recorded rows and
      the total row. */
  function SummaryTable(summary: seq<SummaryRow>): seq<TableRow> {
    [TableRow("Projektart", "Bemerkung", "Kontostand")] + Map(summary, Rendered) + [Rendered(TotalRow(summary))]
  }

  /** A whole number of cents. */
  predicate WholeCents(x: real) {
    (x * 100.0).Floor as real == x * 100.0
  }

  /** A recorded balance reads back as itself. */
  lemma RenderedAmount(s: SummaryRow)
    requires WholeCents(s.kontostand)
    ensures RowAmount(Rendered(s)) == s.kontostand
  {
    Round2Whole(s.kontostand);
    ParseEuroText(Round2Cents(s.kontostand));
  }

  lemma Round2Whole(x: real)
    requires WholeCents(x)
    ensures Round2Cents(x) as real / 100.0 == x
  {
  }

  lemma {:induction false} RenderedAmounts(summary: seq<SummaryRow>)
    requires forall k :: 0 <= k < |summary| ==> WholeCents(summary[k].kontostand)
    ensures Sum(Map(Map(summary, Rendered), RowAmount)) == Sum(Map(summary, Kontostand))
    decreases |summary|
  {
    if summary != [] {
      RenderedAmount(summary[0]);
      RenderedAmounts(summary[1..]);
      assert Map(summary, Rendered)[1..] == Map(summary[1..], Rendered);
      assert Map(Map(summary, Rendered), RowAmount)[1..] == Map(Map(summary[1..], Rendered), RowAmount);
      assert Map(summary, Kontostand)[1..] == Map(summary[1..], Kontostand);
    }
  }

  /** The reconciliation of the summary: when every recorded balance is a
      whole number of cents (as rounding makes it), the total the colouring
      computes over the rendered table is exactly the value of the 'Summe'
      row, the header and the total row itself not counted. */
  lemma SummaryTotalReconciles(summary: seq<SummaryRow>)
    requires forall k :: 0 <= k < |summary| ==> WholeCents(summary[k].kontostand)
    ensures Sum(Map(Body(SummaryTable(summary)), RowAmount)) == TotalRow(summary).kontostand
  {
    var t := SummaryTable(summary);
    var header := TableRow("Projektart", "Bemerkung", "Kontostand");
    assert Body(t) == [header] + Map(summary, Rendered);
    MapConcat([header], Map(summary, Rendered), RowAmount);
    SumConcat(Map([header], RowAmount), Map(Map(summary, Rendered), RowAmount));
    HeaderNotAmount();
    RenderedAmounts(summary);
  }
}
