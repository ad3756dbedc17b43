/** The row coercion and accumulation loop of `load_data` in shopping.py. A CSV
    row is an array of 18 cells in header order; coercion rewrites cells in place,
    as the source rewrites the entries of the row dictionary. */
module Loader {
  import opened Wrappers

  /** A row entry: the raw text of the CSV reader, or a value converted from it. */
  datatype Cell = Text(text: string) | Int(i: int) | Float(x: real)

  /** The exceptions raised while coercing a row: KeyError for a month name
      missing from the lookup table, ValueError from `int(...)` or `float(...)`. */
  datatype LoadError = UnknownMonth(name: string) | InvalidNumber

  /** The string parsers behind Python's `int(str)` and `float(str)`, which the
      model does not define: each gives None where Python raises ValueError. */
  datatype Parsers = Parsers(parseInt: string -> Option<int>, parseFloat: string -> Option<real>)

  /** The two parallel lists returned by `load_data`. */
  datatype Dataset = Dataset(evidence: seq<seq<Cell>>, labels: seq<int>)

  /** The columns of the data file, in header order. */
  const Header: seq<string> := [
    "Administrative", "Administrative_Duration", "Informational", "Informational_Duration",
    "ProductRelated", "ProductRelated_Duration", "BounceRates", "ExitRates", "PageValues",
    "SpecialDay", "Month", "OperatingSystems", "Browser", "Region", "TrafficType",
    "VisitorType", "Weekend", "Revenue"]

  const ColumnCount: nat := 18
  /** The number of leading columns that form a feature vector. */
  const FeatureCount: nat := 17

  const MonthColumn: nat := 10
  const VisitorTypeColumn: nat := 15
  const WeekendColumn: nat := 16
  const RevenueColumn: nat := 17

  /** The columns converted with `int(...)` and with `float(...)`. */
  const IntLabels: set<string> := {
    "Administrative", "Informational", "ProductRelated", "Month", "OperatingSystems",
    "Browser", "Region", "TrafficType", "VisitorType", "Weekend"}
  const FloatLabels: set<string> := {
    "Administrative_Duration", "Informational_Duration", "ProductRelated_Duration",
    "BounceRates", "ExitRates", "PageValues", "SpecialDay"}

  /** The positions in `Header` of the names in `IntLabels` and `FloatLabels`. */
  const IntColumns: seq<nat> := [0, 2, 4, 10, 11, 12, 13, 14, 15, 16]
  const FloatColumns: seq<nat> := [1, 3, 5, 6, 7, 8, 9]

  /** The month lookup table; June is spelled out in full. */
  const Months: map<string, int> := map[
    "Jan" := 0, "Feb" := 1, "Mar" := 2, "Apr" := 3, "May" := 4, "June" := 5,
    "Jul" := 6, "Aug" := 7, "Sep" := 8, "Oct" := 9, "Nov" := 10, "Dec" := 11]

  /** The keys of `Months`, listed in calendar order. */
  const MonthNames: seq<string> :=
    ["Jan", "Feb", "Mar", "Apr", "May", "June", "Jul", "Aug", "Sep", "Oct", "Nov", "Dec"]

  const ReturningVisitor: string := "Returning_Visitor"
  const TrueLiteral: string := "TRUE"

  // ---------------------------------------------------------------------------
  // The lookup tables
  // ---------------------------------------------------------------------------

  /** The index lists name the same columns as the label sets, and the constant
      positions name the columns the source addresses by name. */
  lemma ColumnsMatchLabels()
    ensures |Header| == ColumnCount
    ensures forall k :: 0 <= k < ColumnCount ==> (Header[k] in IntLabels <==> k in IntColumns)
    ensures forall k :: 0 <= k < ColumnCount ==> (Header[k] in FloatLabels <==> k in FloatColumns)
    ensures Header[MonthColumn] == "Month" && Header[VisitorTypeColumn] == "VisitorType"
    ensures Header[WeekendColumn] == "Weekend" && Header[RevenueColumn] == "Revenue"
  {
  }

  /** The month table maps exactly the twelve names onto 0..11, one to one. */
  lemma MonthTable()
    ensures forall s :: s in Months <==> s in MonthNames
    ensures forall i :: 0 <= i < 12 ==> MonthNames[i] in Months && Months[MonthNames[i]] == i
    ensures forall s, t :: s in Months && t in Months && Months[s] == Months[t] ==> s == t
    ensures "Jun" !in Months
  {
  }

  /** `int(raw == literal)`: 1 exactly when the string equals the literal. */
  function Flag(raw: string, literal: string): (r: int)
    ensures r == 0 || r == 1
    ensures r == 1 <==> raw == literal
  {
    if raw == literal then 1 else 0
  }

  /** The equality test is exact: a case variant of the literal gives 0. */
  lemma FlagIsCaseSensitive()
    ensures Flag("true", TrueLiteral) == 0 && Flag("True", TrueLiteral) == 0
    ensures Flag("returning_visitor", ReturningVisitor) == 0
  {
  }

  // ---------------------------------------------------------------------------
  // Numeric conversion of one cell
  // ---------------------------------------------------------------------------

  datatype NumKind = IntKind | FloatKind

  /** Python's `int(x)` on a float: truncation towards zero. `Coerce` never
      reaches it: the integer pass of shopping.py meets only raw strings and the
      integers the categorical step wrote, and the float pass only raw strings.
      It completes `Convert` for cells of every kind. */
  function Truncate(x: real): (r: int)
    ensures 0.0 <= x ==> r as real <= x < r as real + 1.0
    ensures x < 0.0 ==> r as real - 1.0 < x <= r as real
  {
    if 0.0 <= x then x.Floor else -((-x).Floor)
  }

  /** `int(cell)` or `float(cell)`: strings go through the parser, numbers are
      converted directly; None where Python raises ValueError. */
  function Convert(c: Cell, kind: NumKind, p: Parsers): (r: Option<Cell>)
    ensures r.Some? ==> (if kind == IntKind then r.value.Int? else r.value.Float?)
    ensures c.Int? && kind == IntKind ==> r == Some(c)
    ensures c.Float? && kind == FloatKind ==> r == Some(c)
  {
    match (c, kind)
    case (Text(s), IntKind) => (match p.parseInt(s) case None => None case Some(i) => Some(Int(i)))
    case (Text(s), FloatKind) => (match p.parseFloat(s) case None => None case Some(x) => Some(Float(x)))
    case (Int(i), IntKind) => Some(Int(i))
    case (Int(i), FloatKind) => Some(Float(i as real))
    case (Float(x), IntKind) => Some(Int(Truncate(x)))
    case (Float(x), FloatKind) => Some(Float(x))
  }

  predicate ValidColumns(cols: seq<nat>, width: nat)
  {
    forall j :: 0 <= j < |cols| ==> cols[j] < width
  }

  /** `for label in cols: row[label] = conv(row[label])`, stopping at the first
      conversion that raises. */
  function ConvertColumns(cells: seq<Cell>, cols: seq<nat>, kind: NumKind, p: Parsers): (r: Option<seq<Cell>>)
    requires ValidColumns(cols, |cells|)
    ensures r.Some? ==> |r.value| == |cells|
    decreases |cols|
  {
    if cols == [] then Some(cells)
    else
      var n := |cols| - 1;
      match ConvertColumns(cells, cols[..n], kind, p)
      case None => None
      case Some(prev) =>
        match Convert(prev[cols[n]], kind, p)
        case None => None
        case Some(c) => Some(prev[cols[n] := c])
  }

  /** Converting a list of distinct columns succeeds exactly when every listed
      cell converts; the listed cells are then converted and the others kept. */
  lemma {:induction false} ConvertColumnsSpec(cells: seq<Cell>, cols: seq<nat>, kind: NumKind, p: Parsers)
    requires ValidColumns(cols, |cells|)
    requires forall i, j :: 0 <= i < j < |cols| ==> cols[i] != cols[j]
    ensures ConvertColumns(cells, cols, kind, p).Some?
        <==> forall j :: 0 <= j < |cols| ==> Convert(cells[cols[j]], kind, p).Some?
    ensures ConvertColumns(cells, cols, kind, p).Some? ==>
              forall k :: 0 <= k < |cells| ==>
                ConvertColumns(cells, cols, kind, p).value[k]
                  == if k in cols then Convert(cells[k], kind, p).value else cells[k]
    decreases |cols|
  {
    if cols != [] {
      var n := |cols| - 1;
      ConvertColumnsSpec(cells, cols[..n], kind, p);
      var prev := ConvertColumns(cells, cols[..n], kind, p);
      if prev.Some? {
        assert cols[n] !in cols[..n];
        assert prev.value[cols[n]] == cells[cols[n]];
        forall k | 0 <= k < |cells|
          ensures k in cols <==> k in cols[..n] || k == cols[n]
        {
          assert cols == cols[..n] + [cols[n]];
        }
      }
    }
  }

  /** Once a prefix of the columns fails to convert, the whole list fails. */
  lemma {:induction false} ConvertColumnsFailureSticks(cells: seq<Cell>, cols: seq<nat>, m: nat, kind: NumKind, p: Parsers)
    requires ValidColumns(cols, |cells|)
    requires m <= |cols|
    requires ConvertColumns(cells, cols[..m], kind, p).None?
    ensures ConvertColumns(cells, cols, kind, p).None?
    decreases |cols| - m
  {
    if m < |cols| {
      assert cols[..m + 1][..m] == cols[..m];
      ConvertColumnsFailureSticks(cells, cols, m + 1, kind, p);
    } else {
      assert cols[..m] == cols;
    }
  }

  // ---------------------------------------------------------------------------
  // Coercion of one row
  // ---------------------------------------------------------------------------

  /** The row as the CSV reader produces it: every entry a string. */
  function TextCells(raw: seq<string>): seq<Cell>
  {
    seq(|raw|, k requires 0 <= k < |raw| => Text(raw[k]))
  }

  /** The row after the month lookup and the three flag coercions of shopping.py:
      exactly those four cells are numbers, the rest are still raw text. */
  function CategoricalStep(raw: seq<string>): (r: seq<Cell>)
    requires |raw| == ColumnCount && raw[MonthColumn] in Months
    ensures |r| == ColumnCount
    ensures forall k :: 0 <= k < ColumnCount ==>
              (r[k].Text? <==> k != MonthColumn && k != VisitorTypeColumn && k != WeekendColumn && k != RevenueColumn)
  {
    TextCells(raw)[MonthColumn := Int(Months[raw[MonthColumn]])]
                  [VisitorTypeColumn := Int(Flag(raw[VisitorTypeColumn], ReturningVisitor))]
                  [WeekendColumn := Int(Flag(raw[WeekendColumn], TrueLiteral))]
                  [RevenueColumn := Int(Flag(raw[RevenueColumn], TrueLiteral))]
  }

  /** The whole row after the categorical step and the integer and float passes
      of shopping.py, in the order the source mutates it: a full-width row, or the
      first exception raised. */
  function Coerce(raw: seq<string>, p: Parsers): (r: Result<seq<Cell>, LoadError>)
    requires |raw| == ColumnCount
    ensures r.Ok? ==> |r.value| == ColumnCount
    ensures r.Err? && r.error.UnknownMonth? ==> r.error.name == raw[MonthColumn] && raw[MonthColumn] !in Months
  {
    if raw[MonthColumn] !in Months then Err(UnknownMonth(raw[MonthColumn]))
    else
      match ConvertColumns(CategoricalStep(raw), IntColumns, IntKind, p)
      case None => Err(InvalidNumber)
      case Some(ints) =>
        match ConvertColumns(ints, FloatColumns, FloatKind, p)
        case None => Err(InvalidNumber)
        case Some(row) => Ok(row)
  }

  /** What each column of a coerced row holds, defined by column name
      independently of the order of the in-place updates. */
  function FieldValue(raw: seq<string>, p: Parsers, k: nat): (r: Option<Cell>)
    requires |raw| == ColumnCount && k < ColumnCount
    ensures r.Some? ==> !r.value.Text?
    ensures r.None? ==> k != VisitorTypeColumn && k != WeekendColumn && k != RevenueColumn
  {
    if k == MonthColumn then
      (if raw[k] in Months then Some(Int(Months[raw[k]])) else None)
    else if k == VisitorTypeColumn then Some(Int(Flag(raw[k], ReturningVisitor)))
    else if k == WeekendColumn || k == RevenueColumn then Some(Int(Flag(raw[k], TrueLiteral)))
    else if k in IntColumns then Convert(Text(raw[k]), IntKind, p)
    else Convert(Text(raw[k]), FloatKind, p)
  }

  /** Cell by cell, the row after the categorical step. */
  lemma CategoricalCells(raw: seq<string>, p: Parsers)
    requires |raw| == ColumnCount && raw[MonthColumn] in Months
    ensures |CategoricalStep(raw)| == ColumnCount
    ensures forall k :: 0 <= k < ColumnCount && k in IntColumns ==>
              Convert(CategoricalStep(raw)[k], IntKind, p) == FieldValue(raw, p, k)
    ensures forall k :: 0 <= k < ColumnCount && k !in IntColumns && k != RevenueColumn ==>
              CategoricalStep(raw)[k] == Text(raw[k])
    ensures CategoricalStep(raw)[RevenueColumn] == FieldValue(raw, p, RevenueColumn).value
  {
  }

  /** The integer pass succeeds exactly when every integer column has a value,
      and then holds those values; the other columns are left as they were. */
  lemma IntPass(raw: seq<string>, p: Parsers)
    requires |raw| == ColumnCount && raw[MonthColumn] in Months
    ensures ConvertColumns(CategoricalStep(raw), IntColumns, IntKind, p).Some?
        <==> forall j :: 0 <= j < |IntColumns| ==> FieldValue(raw, p, IntColumns[j]).Some?
    ensures ConvertColumns(CategoricalStep(raw), IntColumns, IntKind, p).Some? ==>
              forall k :: 0 <= k < ColumnCount ==>
                ConvertColumns(CategoricalStep(raw), IntColumns, IntKind, p).value[k]
                  == if k in IntColumns || k == RevenueColumn then FieldValue(raw, p, k).value
                     else Text(raw[k])
  {
    CategoricalCells(raw, p);
    ConvertColumnsSpec(CategoricalStep(raw), IntColumns, IntKind, p);
  }

  /** The float pass over the result of the integer pass. */
  lemma FloatPass(raw: seq<string>, p: Parsers, ints: seq<Cell>)
    requires |raw| == ColumnCount && |ints| == ColumnCount
    requires forall k :: 0 <= k < ColumnCount && k !in IntColumns && k != RevenueColumn ==>
               ints[k] == Text(raw[k])
    ensures ConvertColumns(ints, FloatColumns, FloatKind, p).Some?
        <==> forall j :: 0 <= j < |FloatColumns| ==> FieldValue(raw, p, FloatColumns[j]).Some?
    ensures ConvertColumns(ints, FloatColumns, FloatKind, p).Some? ==>
              forall k :: 0 <= k < ColumnCount ==>
                ConvertColumns(ints, FloatColumns, FloatKind, p).value[k]
                  == if k in FloatColumns then FieldValue(raw, p, k).value else ints[k]
  {
    ConvertColumnsSpec(ints, FloatColumns, FloatKind, p);
    assert forall j :: 0 <= j < |FloatColumns| ==>
             ints[FloatColumns[j]] == Text(raw[FloatColumns[j]]) &&
             FieldValue(raw, p, FloatColumns[j]) == Convert(Text(raw[FloatColumns[j]]), FloatKind, p);
  }

  /** Every column index is in exactly one of the conversion lists, or is Revenue. */
  lemma ColumnsCover(k: nat)
    requires k < ColumnCount
    ensures k in IntColumns || k in FloatColumns || k == RevenueColumn
    ensures !(k in IntColumns && k in FloatColumns)
  {
  }

  /** A row coerces exactly when every column has a value, and then each column
      holds its value; an unknown month is reported before any numeric error. */
  lemma CoerceByColumn(raw: seq<string>, p: Parsers)
    requires |raw| == ColumnCount
    ensures Coerce(raw, p).Ok? <==> forall k :: 0 <= k < ColumnCount ==> FieldValue(raw, p, k).Some?
    ensures Coerce(raw, p).Ok? ==>
              |Coerce(raw, p).value| == ColumnCount &&
              forall k :: 0 <= k < ColumnCount ==> Coerce(raw, p).value[k] == FieldValue(raw, p, k).value
    ensures raw[MonthColumn] !in Months ==> Coerce(raw, p) == Err(UnknownMonth(raw[MonthColumn]))
    ensures raw[MonthColumn] in Months && Coerce(raw, p).Err? ==> Coerce(raw, p) == Err(InvalidNumber)
  {
    if raw[MonthColumn] !in Months {
      assert FieldValue(raw, p, MonthColumn).None?;
      return;
    }
    IntPass(raw, p);
    var ints := ConvertColumns(CategoricalStep(raw), IntColumns, IntKind, p);
    if ints.None? {
      var j :| 0 <= j < |IntColumns| && FieldValue(raw, p, IntColumns[j]).None?;
      return;
    }
    FloatPass(raw, p, ints.value);
    var row := ConvertColumns(ints.value, FloatColumns, FloatKind, p);
    if row.None? {
      var j :| 0 <= j < |FloatColumns| && FieldValue(raw, p, FloatColumns[j]).None?;
      return;
    }
    forall k | 0 <= k < ColumnCount
      ensures FieldValue(raw, p, k).Some? && row.value[k] == FieldValue(raw, p, k).value
    {
      ColumnsCover(k);
      if k in IntColumns {
        var j :| 0 <= j < |IntColumns| && IntColumns[j] == k;
      } else if k in FloatColumns {
        var j :| 0 <= j < |FloatColumns| && FloatColumns[j] == k;
      }
    }
  }

  /** A coerced row is entirely numeric and its last cell is the Revenue flag. */
  lemma CoercedRowShape(raw: seq<string>, p: Parsers)
    requires |raw| == ColumnCount && Coerce(raw, p).Ok?
    ensures |Coerce(raw, p).value| == ColumnCount
    ensures forall k :: 0 <= k < ColumnCount ==> !Coerce(raw, p).value[k].Text?
    ensures Coerce(raw, p).value[RevenueColumn] == Int(Flag(raw[RevenueColumn], TrueLiteral))
    ensures Coerce(raw, p).value[MonthColumn] == Int(Months[raw[MonthColumn]])
  {
    CoerceByColumn(raw, p);
    forall k | 0 <= k < ColumnCount
      ensures !Coerce(raw, p).value[k].Text?
    {
      assert FieldValue(raw, p, k).Some?;
    }
  }

  // ---------------------------------------------------------------------------
  // The in-place coercion and the accumulation loop
  // ---------------------------------------------------------------------------

  /** `for label in cols: row[label] = conv(row[label])` on the row itself;
      returns false where a conversion raises. */
  method ConvertInPlace(row: array<Cell>, cols: seq<nat>, kind: NumKind, p: Parsers) returns (ok: bool)
    requires ValidColumns(cols, row.Length)
    modifies row
    ensures ok == ConvertColumns(old(row[..]), cols, kind, p).Some?
    ensures ok ==> row[..] == ConvertColumns(old(row[..]), cols, kind, p).value
  {
    ghost var before := row[..];
    var j := 0;
    while j < |cols|
      invariant 0 <= j <= |cols|
      invariant ConvertColumns(before, cols[..j], kind, p) == Some(row[..])
    {
      assert cols[..j + 1][..j] == cols[..j];
      var c := Convert(row[cols[j]], kind, p);
      if c.None? {
        ConvertColumnsFailureSticks(before, cols, j + 1, kind, p);
        return false;
      }
      row[cols[j]] := c.value;
      j := j + 1;
    }
    assert cols[..j] == cols;
    ok := true;
  }

  /** One iteration of the loop of `load_data`: the row dictionary is rewritten
      field by field, then read back. */
  method CoerceRow(raw: seq<string>, p: Parsers) returns (r: Result<seq<Cell>, LoadError>)
    requires |raw| == ColumnCount
    ensures r == Coerce(raw, p)
  {
    var row := new Cell[ColumnCount](k requires 0 <= k < ColumnCount => Text(raw[k]));
    assert row[..] == TextCells(raw);
    if raw[MonthColumn] !in Months {
      return Err(UnknownMonth(raw[MonthColumn]));
    }
    row[MonthColumn] := Int(Months[raw[MonthColumn]]);
    row[VisitorTypeColumn] := Int(Flag(raw[VisitorTypeColumn], ReturningVisitor));
    row[WeekendColumn] := Int(Flag(raw[WeekendColumn], TrueLiteral));
    row[RevenueColumn] := Int(Flag(raw[RevenueColumn], TrueLiteral));
    assert row[..] == CategoricalStep(raw);
    var ok := ConvertInPlace(row, IntColumns, IntKind, p);
    if !ok {
      return Err(InvalidNumber);
    }
    ok := ConvertInPlace(row, FloatColumns, FloatKind, p);
    if !ok {
      return Err(InvalidNumber);
    }
    r := Ok(row[..]);
  }

  /** The loop of `load_data` over the rows of the file: it stops at the first
      row that raises, and otherwise appends each row's first 17 values to the
      evidence and its Revenue flag to the labels. */
  method LoadData(rows: seq<seq<string>>, p: Parsers) returns (r: Result<Dataset, LoadError>)
    requires forall i :: 0 <= i < |rows| ==> |rows[i]| == ColumnCount
    ensures r.Ok? <==> forall i :: 0 <= i < |rows| ==> Coerce(rows[i], p).Ok?
    ensures r.Ok? ==>
              |r.value.evidence| == |r.value.labels| == |rows| &&
              forall i :: 0 <= i < |rows| ==>
                r.value.evidence[i] == Coerce(rows[i], p).value[..FeatureCount] &&
                |r.value.evidence[i]| == FeatureCount &&
                (forall k :: 0 <= k < FeatureCount ==> !r.value.evidence[i][k].Text?) &&
                r.value.labels[i] == Flag(rows[i][RevenueColumn], TrueLiteral)
    ensures r.Err? ==>
              exists i :: 0 <= i < |rows| && Coerce(rows[i], p) == Err(r.error) &&
                forall j :: 0 <= j < i ==> Coerce(rows[j], p).Ok?
  {
    var evidence: seq<seq<Cell>>, labels: seq<int> := [], [];
    var i := 0;
    while i < |rows|
      invariant 0 <= i <= |rows|
      invariant |evidence| == |labels| == i
      invariant forall j :: 0 <= j < i ==> Coerce(rows[j], p).Ok?
      invariant forall j :: 0 <= j < i ==>
                  evidence[j] == Coerce(rows[j], p).value[..FeatureCount] &&
                  |evidence[j]| == FeatureCount &&
                  (forall k :: 0 <= k < FeatureCount ==> !evidence[j][k].Text?) &&
                  labels[j] == Flag(rows[j][RevenueColumn], TrueLiteral)
    {
      var row := CoerceRow(rows[i], p);
      if row.Err? {
        return Err(row.error);
      }
      CoercedRowShape(rows[i], p);
      evidence := evidence + [row.value[..FeatureCount]];
      labels := labels + [row.value[RevenueColumn].i];
      i := i + 1;
    }
    r := Ok(Dataset(evidence, labels));
  }
}
