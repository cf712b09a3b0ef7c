/** The value conversion of the configuration object: an option read from the
    `[lscontrolling]` section of an INI file becomes a bool, a list of ints, an
    int or stays a string; an option that is not set falls back to the
    built-in defaults. The INI file itself is given as the map of its options
    (configparser stores option names lower-cased). */
module Config {
  import opened Wrappers
  import opened Text
  import opened Seqs

  datatype ConfigValue =
    | BoolVal(b: bool)
    | IntVal(i: int)
    | IntListVal(xs: seq<int>)
    | StrVal(s: string)
    | NoneVal                 // `dict.get` of a key without a default

  /** The built-in defaults of the configuration object. */
  function Defaults(): map<string, ConfigValue> {
    map[
      "csv_stammdaten" := StrVal("input/WPS_PSP_STAMMDATEN_V1.csv"),
      "check_stammdaten" := BoolVal(true),
      "header_stammdaten" := IntVal(3),
      "csv_budget" := StrVal("input/WFI_001_FC_BUDGET_V1.csv"),
      "check_budget" := BoolVal(true),
      "header_budget" := IntVal(4),
      "csv_obligo" := StrVal("input/WFI_001_FC_OBLIGOS_V1.csv"),
      "check_obligo" := BoolVal(true),
      "header_obligo" := IntVal(4),
      "csv_kst" := StrVal("input/WPSM_004_KSD.csv"),
      "check_kst" := BoolVal(true),
      "header_kst" := IntVal(4),
      "liste_pa_aufteilung" := IntListVal([68, 69, 90, 91, 92, 99]),
      "liste_pa_keine_aufteilung" := IntListVal([70, 94]),
      "csv_detailplot" := StrVal("input/PSP_PLOT.csv"),
      "rm_beendet" := BoolVal(true),
      "rm_current_year" := BoolVal(true),
      "prt_raw" := BoolVal(false),
      "obfuscated" := BoolVal(false)
    ]
  }

  /** `int(x.strip())` for one piece of a list option. */
  function PieceValue(piece: string): Option<int> {
    ParseInt(Strip(piece))
  }

  /** The list comprehension succeeds only if every element converts. */
  function Collect(vals: seq<Option<int>>): (r: Option<seq<int>>)
    ensures r.Some? <==> forall k :: 0 <= k < |vals| ==> vals[k].Some?
    ensures r.Some? ==> |r.value| == |vals| && forall k :: 0 <= k < |vals| ==> vals[k] == Some(r.value[k])
  {
    if vals == [] then Some([])
    else
      var rest := Collect(vals[1..]);
      if vals[0].None? || rest.None? then None
      else Some([vals[0].value] + rest.value)
  }

  /** `[int(x.strip()) for x in pieces]`: a ValueError as soon as one piece is not an int. */
  function ParseIntList(pieces: seq<string>): Result<seq<int>> {
    match Collect(Map(pieces, PieceValue))
    case None => Err(ValueError(Join(pieces + [""], ',')))
    case Some(xs) => Ok(xs)
  }

  /** Conversion of a value that is set in the INI file under option `key`. */
  function Convert(key: string, value: string): Result<ConfigValue> {
    if Lower(value) == "true" || Lower(value) == "false" then Ok(BoolVal(Lower(value) == "true"))
    else if Contains(key, "liste") then
      if ',' in value then
        var xs :- ParseIntList(Split(value, ','));
        Ok(IntListVal(xs))
      else
        match PieceValue(value)
        case None => Err(ValueError(value))
        case Some(n) => Ok(IntListVal([n]))
    else if IsDigitText(value) then Ok(IntVal(DigitsValue(value)))
    else Ok(StrVal(value))
  }

  /** `config[key]`. */
  function Get(options: map<string, string>, key: string): (r: Result<ConfigValue>)
    ensures r.Err? ==> Contains(key, "liste")
  {
    var option := Lower(key);
    if option in options then Convert(key, options[option])
    else Ok(if key in Defaults() then Defaults()[key] else NoneVal)
  }

  /** An option missing from the INI file falls back to its built-in default,
      or to nothing when it has none. */
  lemma GetUnset(options: map<string, string>, key: string)
    requires Lower(key) !in options
    ensures Get(options, key) == Ok(if key in Defaults() then Defaults()[key] else NoneVal)
  {
  }

  /** Python truthiness of a configuration value (`if config[key]:`). */
  predicate Truthy(v: ConfigValue) {
    match v
    case BoolVal(b) => b
    case IntVal(i) => i != 0
    case IntListVal(xs) => |xs| > 0
    case StrVal(s) => |s| > 0
    case NoneVal => false
  }

  /** `true` and `false` are read as booleans in any letter case. */
  lemma GetBool(options: map<string, string>, key: string)
    requires Lower(key) in options
    requires Lower(options[Lower(key)]) in {"true", "false"}
    ensures Get(options, key) == Ok(BoolVal(Lower(options[Lower(key)]) == "true"))
  {
  }

  /** A text that is neither `true` nor `false` in any case: it starts with a
      digit or a minus sign. */
  lemma NotBoolText(t: string)
    requires |t| > 0 && (IsDigit(t[0]) || t[0] == '-')
    ensures Lower(t) != "true" && Lower(t) != "false"
  {
    assert Lower(t)[0] == t[0];
  }

  /** The list option of a comma-separated rendering of `ns`. */
  function IntListText(ns: seq<int>): (t: string)
    requires |ns| >= 1
  {
    Join(IntPieces(ns), ',')
  }

  function IntPieces(ns: seq<int>): (r: seq<string>)
    ensures |r| == |ns|
    ensures forall k :: 0 <= k < |ns| ==> r[k] == IntToString(ns[k])
  {
    if ns == [] then [] else [IntToString(ns[0])] + IntPieces(ns[1..])
  }

  lemma IntPiecesNoComma(ns: seq<int>)
    ensures forall k :: 0 <= k < |ns| ==> ',' !in IntPieces(ns)[k]
  {
    forall k | 0 <= k < |ns| ensures ',' !in IntPieces(ns)[k] {
      IntToStringChars(ns[k]);
    }
  }

  /** `int(str(n).strip()) == n` for one rendered list element. */
  lemma PieceValueOfInt(n: int)
    ensures PieceValue(IntToString(n)) == Some(n)
  {
    var t := IntToString(n);
    IntToStringChars(n);
    assert !IsSpace(t[0]) && !IsSpace(t[|t| - 1]);
    StripUnchanged(t);
    ParseIntToString(n);
  }

  lemma {:induction false} CollectSome(vals: seq<Option<int>>, ns: seq<int>)
    requires |vals| == |ns| && forall k :: 0 <= k < |ns| ==> vals[k] == Some(ns[k])
    ensures Collect(vals) == Some(ns)
  {
    if ns != [] {
      CollectSome(vals[1..], ns[1..]);
      assert ns == [ns[0]] + ns[1..];
    }
  }

  lemma PieceValues(ns: seq<int>)
    ensures forall k :: 0 <= k < |ns| ==> Map(IntPieces(ns), PieceValue)[k] == Some(ns[k])
  {
    forall k | 0 <= k < |ns| ensures Map(IntPieces(ns), PieceValue)[k] == Some(ns[k]) {
      PieceValueOfInt(ns[k]);
    }
  }

  lemma ParseIntPieces(ns: seq<int>)
    ensures ParseIntList(IntPieces(ns)) == Ok(ns)
  {
    PieceValues(ns);
    CollectSome(Map(IntPieces(ns), PieceValue), ns);
  }

  /** Splitting the rendering of a list at its commas gives the rendered elements. */
  lemma SplitIntListText(ns: seq<int>)
    requires |ns| >= 1
    ensures Split(IntListText(ns), ',') == IntPieces(ns)
  {
    IntPiecesNoComma(ns);
    SplitJoin(IntPieces(ns), ',');
  }

  /** A rendering without a comma is that of a one-element list. */
  lemma SingleIntListText(ns: seq<int>)
    requires |ns| >= 1 && ',' !in IntListText(ns)
    ensures ns == [ns[0]] && IntListText(ns) == IntToString(ns[0])
  {
    SplitIntListText(ns);
    SplitNoSeparator(IntListText(ns), ',');
  }

  /** A list option written as comma-separated ints converts back to that list. */
  lemma ConvertIntListText(key: string, ns: seq<int>)
    requires Contains(key, "liste") && |ns| >= 1
    ensures Convert(key, IntListText(ns)) == Ok(IntListVal(ns))
  {
    var t := IntListText(ns);
    IntToStringChars(ns[0]);
    JoinStartsWith(IntPieces(ns), ',');
    NotBoolText(t);
    if ',' in t {
      SplitIntListText(ns);
      ParseIntPieces(ns);
    } else {
      SingleIntListText(ns);
      PieceValueOfInt(ns[0]);
    }
  }

  /** The same for `config[key]` when the INI file sets the list option. */
  lemma GetIntListRoundTrip(options: map<string, string>, key: string, ns: seq<int>)
    requires Contains(key, "liste") && |ns| >= 1
    ensures Get(options[Lower(key) := IntListText(ns)], key) == Ok(IntListVal(ns))
  {
    ConvertIntListText(key, ns);
  }

  lemma JoinStartsWith(ps: seq<string>, c: char)
    requires |ps| >= 1 && |ps[0]| >= 1
    ensures |Join(ps, c)| >= 1 && Join(ps, c)[0] == ps[0][0]
  {
  }

  lemma SplitNoSeparator(s: string, c: char)
    requires c !in s
    ensures Split(s, c) == [s]
  {
  }

  /** An option holding only decimal digits is read as an int (outside list options). */
  lemma GetIntRoundTrip(options: map<string, string>, key: string, n: nat)
    requires !Contains(key, "liste")
    ensures Get(options[Lower(key) := NatToDigits(n)], key) == Ok(IntVal(n))
  {
    var t := NatToDigits(n);
    NotBoolText(t);
    DigitsRoundTrip(n);
  }

  /** Any other text comes back unchanged. */
  lemma GetString(options: map<string, string>, key: string)
    requires Lower(key) in options
    requires Lower(options[Lower(key)]) !in {"true", "false"}
    requires !Contains(key, "liste") && !IsDigitText(options[Lower(key)])
    ensures Get(options, key) == Ok(StrVal(options[Lower(key)]))
  {
  }

  /** Where the INI file does not set them, the two project-type lists are
      the built-in ones, finished projects are removed and nothing is
      obfuscated. */
  lemma DefaultLists(options: map<string, string>)
    ensures "liste_pa_aufteilung" !in options ==>
      Get(options, "liste_pa_aufteilung") == Ok(IntListVal([68, 69, 90, 91, 92, 99]))
    ensures "liste_pa_keine_aufteilung" !in options ==>
      Get(options, "liste_pa_keine_aufteilung") == Ok(IntListVal([70, 94]))
    ensures "rm_beendet" !in options ==> Get(options, "rm_beendet") == Ok(BoolVal(true))
    ensures "obfuscated" !in options ==> Get(options, "obfuscated") == Ok(BoolVal(false))
  {
    LowerOfLowercase("liste_pa_aufteilung");
    LowerOfLowercase("liste_pa_keine_aufteilung");
    LowerOfLowercase("rm_beendet");
    LowerOfLowercase("obfuscated");
    DefaultValues();
  }

  /** The built-in values of the two project-type lists and the switches. */
  lemma DefaultValues()
    ensures "liste_pa_aufteilung" in Defaults() && Defaults()["liste_pa_aufteilung"] == IntListVal([68, 69, 90, 91, 92, 99])
    ensures "liste_pa_keine_aufteilung" in Defaults() && Defaults()["liste_pa_keine_aufteilung"] == IntListVal([70, 94])
    ensures "rm_beendet" in Defaults() && Defaults()["rm_beendet"] == BoolVal(true)
    ensures "obfuscated" in Defaults() && Defaults()["obfuscated"] == BoolVal(false)
  {
  }
}
