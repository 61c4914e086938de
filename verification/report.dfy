/** Text reports of a value (`MMReport`): the field separator, the quoting
  * of strings, the header fields, and the layout of a table's report.
  * The formatting of a number as a fixed-point decimal is not part of this
  * model: number cells reach the layout already formatted. */
module Reports {
  import opened Wrappers
  import opened Strs
  import opened Matrices

  const TypeErrorThrown := "TypeError"

  /** The report options: a separator (empty when not given), CSV, and
    * copying as a table for another application. */
  datatype Options = Options(sep: string, isCSV: bool, isTableCopy: bool)

  /** CSV or table copy: the two modes that quote strings. */
  predicate Quoting(o: Options) { o.isCSV || o.isTableCopy }

  /** `separator`: the separator given, else `,` for CSV or table copy,
    * else a space. */
  function Separator(o: Options): (r: string)
    ensures o.sep != "" ==> r == o.sep
    ensures o.sep == "" && Quoting(o) ==> r == ","
    ensures o.sep == "" && !Quoting(o) ==> r == " "
  {
    if o.sep != "" then o.sep else if Quoting(o) then "," else " "
  }

  /** `s.replace(/a/g, b)` for one character. */
  function Replaced(s: string, a: char, b: char): (r: string)
    ensures |r| == |s|
    ensures forall i :: 0 <= i < |s| ==> r[i] == if s[i] == a then b else s[i]
  {
    if s == [] then [] else Replaced(s[..|s| - 1], a, b) + [if s[|s| - 1] == a then b else s[|s| - 1]]
  }

  /** `padStart(width)` with spaces. */
  function PadStart(s: string, width: nat): (r: string)
    ensures |s| >= width ==> r == s
    ensures |s| < width ==> |r| == width && r[width - |s|..] == s
    ensures forall i :: 0 <= i < |r| - |s| ==> r[i] == ' '
    decreases width - |s|
  {
    if |s| >= width then s else PadStart([' '] + s, width)
  }

  /** `string`: nothing for an empty string; in CSV and table copy the
    * double quotes turned into single ones, newlines into spaces unless
    * copying as a table, and the whole in double quotes. */
  function ReportString(s: string, o: Options): (r: string)
  {
    if s == [] then []
    else if Quoting(o) then
      var t := Replaced(s, '"', '\'');
      var u := if o.isTableCopy then t else Replaced(t, '\n', ' ');
      "\"" + u + "\""
    else s
  }

  /** In CSV and table copy a string comes out between double quotes with
    * none inside, and, in CSV, on one line; otherwise it is unchanged. */
  lemma ReportStringQuoted(s: string, o: Options)
    ensures !Quoting(o) ==> ReportString(s, o) == s
    ensures s == [] ==> ReportString(s, o) == []
    ensures Quoting(o) && s != [] ==>
              var r := ReportString(s, o);
              && |r| == |s| + 2 && r[0] == '"' && r[|r| - 1] == '"'
              && (forall i :: 1 <= i < |r| - 1 ==> r[i] != '"' && (r[i] == s[i - 1] || s[i - 1] == '"' || s[i - 1] == '\n'))
              && (!o.isTableCopy ==> forall i :: 0 <= i < |r| ==> r[i] != '\n')
  {
  }

  /** `headerString`: quoted as `string` does in CSV and table copy;
    * otherwise its first 14 characters (a space when empty), padded to 14
    * and put in double quotes. */
  function HeaderString(s: string, o: Options): (r: string)
    ensures Quoting(o) ==> r == ReportString(s, o)
  {
    if Quoting(o) then ReportString(s, o)
    else
      var t := if s == [] then " " else s;
      "\"" + PadStart(t[..if |t| < 14 then |t| else 14], 14) + "\""
  }

  /** Outside CSV and table copy every header field is 16 characters wide,
    * and ends with the name's first 14 characters before its closing
    * quote. */
  lemma HeaderStringWidth(s: string, o: Options)
    requires !Quoting(o) && s != []
    ensures var r := HeaderString(s, o);
            var k := if |s| < 14 then |s| else 14;
            |r| == 16 && r[0] == '"' && r[15] == '"' && r[15 - k..15] == s[..k]
  {
    var k := if |s| < 14 then |s| else 14;
    var p := PadStart(s[..k], 14);
    assert HeaderString(s, o) == "\"" + p + "\"";
    assert p[14 - k..] == s[..k];
  }

  /** `headerInteger`: the decimal digits, padded to 14 outside CSV and
    * table copy. */
  function HeaderInteger(n: nat, o: Options): (r: string)
  {
    if Quoting(o) then NatToString(n) else PadStart(NatToString(n), 14)
  }

  /** A header number reads back as the number it shows. */
  lemma HeaderIntegerReadsBack(n: nat, o: Options)
    ensures var r := HeaderInteger(n, o);
            var d := NatToString(n);
            |r| >= |d| && r[|r| - |d|..] == d && DigitsValue(r[|r| - |d|..]) == n
            && (Quoting(o) ==> r == d)
            && (!Quoting(o) ==> |r| >= 14 && forall i :: 0 <= i < |r| - |d| ==> r[i] == ' ')
  {
    NatToStringRoundTrip(n);
  }

  /** `parts.join(sep)`. */
  function JoinWith(parts: seq<string>, sep: string): (r: string)
  {
    if parts == [] then []
    else if |parts| == 1 then parts[0]
    else JoinWith(parts[..|parts| - 1], sep) + sep + parts[|parts| - 1]
  }

  /** A column of a table as the report sees it: its name, whether it
    * holds strings, the name of the unit it is shown in (empty for none),
    * and its cells, number cells already formatted. */
  datatype ReportColumn = ReportColumn(name: string, isString: bool, unitName: string, cells: seq<string>)

  /** The header of a column. */
  function NameField(c: ReportColumn, o: Options): string
  {
    HeaderString(c.name, o)
  }

  /** The unit field of a column: `string` for a string column. */
  function UnitField(c: ReportColumn, o: Options): string
  {
    HeaderString(if c.isString then "string" else c.unitName, o)
  }

  /** Cell i of a column: strings as `string` quotes them, numbers trimmed
    * in CSV and table copy. */
  function CellField(c: ReportColumn, i: nat, o: Options): string
    requires i < |c.cells|
  {
    if c.isString then ReportString(c.cells[i], o)
    else if Quoting(o) then Trim(c.cells[i])
    else c.cells[i]
  }

  /** Each column's header. */
  function NameFields(cols: seq<ReportColumn>, o: Options): (r: seq<string>)
    ensures |r| == |cols| && forall j :: 0 <= j < |cols| ==> r[j] == NameField(cols[j], o)
  {
    if cols == [] then [] else NameFields(cols[..|cols| - 1], o) + [NameField(cols[|cols| - 1], o)]
  }

  /** Each column's unit field. */
  function UnitFields(cols: seq<ReportColumn>, o: Options): (r: seq<string>)
    ensures |r| == |cols| && forall j :: 0 <= j < |cols| ==> r[j] == UnitField(cols[j], o)
  {
    if cols == [] then [] else UnitFields(cols[..|cols| - 1], o) + [UnitField(cols[|cols| - 1], o)]
  }

  /** Every column has at least `n` cells. */
  predicate HasRows(cols: seq<ReportColumn>, n: nat)
  {
    forall j :: 0 <= j < |cols| ==> n <= |cols[j].cells|
  }

  /** Each column's cell i. */
  function CellFields(cols: seq<ReportColumn>, i: nat, o: Options): (r: seq<string>)
    requires HasRows(cols, i + 1)
    ensures |r| == |cols| && forall j :: 0 <= j < |cols| ==> r[j] == CellField(cols[j], i, o)
  {
    if cols == [] then [] else CellFields(cols[..|cols| - 1], i, o) + [CellField(cols[|cols| - 1], i, o)]
  }

  /** The label of row i: its number from 0, padded to 5 and quoted as a
    * string; table copies have none. */
  function RowLabel(i: nat, o: Options): (r: seq<string>)
    ensures o.isTableCopy <==> r == []
  {
    if o.isTableCopy then [] else [ReportString(PadStart(NatToString(i), 5), o)]
  }

  /** The line of row i. */
  function RowLine(cols: seq<ReportColumn>, i: nat, o: Options): string
    requires HasRows(cols, i + 1)
  {
    JoinWith(RowLabel(i, o) + CellFields(cols, i, o), Separator(o))
  }

  /** The lines of rows 0 to n - 1. */
  function RowLines(cols: seq<ReportColumn>, n: nat, o: Options): (r: seq<string>)
    requires HasRows(cols, n)
    ensures |r| == n && forall i :: 0 <= i < n ==> r[i] == RowLine(cols, i, o)
  {
    if n == 0 then [] else RowLines(cols, n - 1, o) + [RowLine(cols, n - 1, o)]
  }

  /** The lines before the rows: `table,en` for a table copy, then the
    * names, then the units. */
  function HeadLines(cols: seq<ReportColumn>, o: Options): (r: seq<string>)
    ensures |r| == if o.isTableCopy then 3 else 2
    ensures o.isTableCopy ==> r[0] == "table,en"
    ensures r[|r| - 2] == JoinWith(NameFields(cols, o), Separator(o))
    ensures r[|r| - 1] == JoinWith(UnitFields(cols, o), Separator(o))
  {
    (if o.isTableCopy then ["table,en"] else [])
      + [JoinWith(NameFields(cols, o), Separator(o)), JoinWith(UnitFields(cols, o), Separator(o))]
  }

  /** The lines of the report of a table of `rowCount` rows. */
  function TableLines(cols: seq<ReportColumn>, rowCount: nat, o: Options): (r: seq<string>)
    requires HasRows(cols, rowCount)
  {
    HeadLines(cols, o) + RowLines(cols, rowCount, o)
  }

  /** A table's report: a `table,en` line for a table copy, one line of
    * names, one of units, then exactly one line per row. */
  lemma TableLinesLayout(cols: seq<ReportColumn>, rowCount: nat, o: Options)
    requires HasRows(cols, rowCount)
    ensures var r := TableLines(cols, rowCount, o);
            var h := if o.isTableCopy then 3 else 2;
            && |r| == h + rowCount
            && (o.isTableCopy ==> r[0] == "table,en")
            && r[h - 2] == JoinWith(NameFields(cols, o), Separator(o))
            && r[h - 1] == JoinWith(UnitFields(cols, o), Separator(o))
            && forall i :: 0 <= i < rowCount ==> r[h + i] == RowLine(cols, i, o)
  {
  }

  /** The fields of one row, as the inner loop of `forToolValue` pushes
    * them. */
  method RowFieldsOf(cols: seq<ReportColumn>, i: nat, o: Options) returns (fields: seq<string>)
    requires HasRows(cols, i + 1)
    ensures fields == RowLabel(i, o) + CellFields(cols, i, o)
  {
    var cells: seq<string> := [];
    var j := 0;
    while j < |cols|
      invariant 0 <= j <= |cols| && |cells| == j
      invariant forall k :: 0 <= k < j ==> cells[k] == CellField(cols[k], i, o)
    {
      cells := cells + [CellField(cols[j], i, o)];
      j := j + 1;
    }
    assert cells == CellFields(cols, i, o);
    fields := [];
    if !o.isTableCopy {
      fields := fields + [ReportString(PadStart(NatToString(i), 5), o)];
    }
    fields := fields + cells;
  }

  /** The rows of the table branch of `forToolValue`, one line each. */
  method RowLinesOf(cols: seq<ReportColumn>, rowCount: nat, o: Options) returns (rows: seq<string>)
    requires HasRows(cols, rowCount)
    ensures rows == RowLines(cols, rowCount, o)
  {
    rows := [];
    var i := 0;
    while i < rowCount
      invariant 0 <= i <= rowCount && |rows| == i
      invariant forall k :: 0 <= k < i ==> rows[k] == RowLine(cols, k, o)
    {
      var fields := RowFieldsOf(cols, i, o);
      rows := rows + [JoinWith(fields, Separator(o))];
      i := i + 1;
    }
  }

  /** The header lines of the table branch of `forToolValue`. */
  method HeadLinesOf(cols: seq<ReportColumn>, o: Options) returns (lines: seq<string>)
    ensures lines == HeadLines(cols, o)
  {
    lines := [];
    if o.isTableCopy {
      lines := lines + ["table,en"];
    }
    var headers: seq<string> := [];
    var units: seq<string> := [];
    var j := 0;
    while j < |cols|
      invariant 0 <= j <= |cols| && |headers| == j && |units| == j
      invariant forall k :: 0 <= k < j ==> headers[k] == NameField(cols[k], o) && units[k] == UnitField(cols[k], o)
    {
      headers := headers + [NameField(cols[j], o)];
      units := units + [UnitField(cols[j], o)];
      j := j + 1;
    }
    assert headers == NameFields(cols, o) && units == UnitFields(cols, o);
    lines := lines + [JoinWith(headers, Separator(o)), JoinWith(units, Separator(o))];
  }

  /** The table branch of `forToolValue`: the lines built one by one and
    * joined with newlines. */
  method TableReport(cols: seq<ReportColumn>, rowCount: nat, o: Options) returns (text: string)
    requires HasRows(cols, rowCount)
    ensures text == JoinWith(TableLines(cols, rowCount, o), "\n")
  {
    var head := HeadLinesOf(cols, o);
    var rows := RowLinesOf(cols, rowCount, o);
    text := JoinWith(head + rows, "\n");
  }

  /** The cell `forToolValue` reads for row i and column j (both from 1) of
    * a number value, as written: `values[i * columnCount + j]`. */
  function NumberCellIndexAsWritten(i: nat, j: nat, columnCount: nat): nat
  {
    i * columnCount + j
  }

  /** For a value of one cell, the single data line reads past the cell:
    * index 2 of a value holding one. */
  lemma NumberCellIndexPastEnd()
    ensures NumberCellIndexAsWritten(1, 1, 1) == 2 && !(NumberCellIndexAsWritten(1, 1, 1) < 1 * 1)
  {
  }

  /** The cell of row i and column j (both from 1) in row-major order. */
  function NumberCellIndex(i: nat, j: nat, columnCount: nat): (r: nat)
    requires 1 <= i && 1 <= j <= columnCount
  {
    Flat(i - 1, j - 1, columnCount)
  }

  /** Every row and column of a value names one of its cells, and the
    * cell gives the row and column back, so no two name the same one. */
  lemma NumberCellIndexInRange(i: nat, j: nat, rowCount: nat, columnCount: nat)
    requires 1 <= i <= rowCount && 1 <= j <= columnCount
    ensures NumberCellIndex(i, j, columnCount) < rowCount * columnCount
    ensures NumberCellIndex(i, j, columnCount) / columnCount == i - 1
    ensures NumberCellIndex(i, j, columnCount) % columnCount == j - 1
  {
    FlatInRange(i - 1, j - 1, rowCount, columnCount);
    FlatDivMod(i - 1, j - 1, columnCount);
  }

  /** `string` called without the options, as the row labels of a string
    * value's report do: an empty string comes back, any other reads a
    * property of the missing options and throws. */
  function StringWithoutOptions(s: string): (r: Result<string>)
  {
    if s == [] then Ok([]) else Err(TypeErrorThrown)
  }

  /** Every row label of a string value's report, as written, throws. */
  lemma StringRowLabelThrows(i: nat)
    ensures StringWithoutOptions(PadStart(NatToString(i), 5)) == Err(TypeErrorThrown)
  {
    assert |PadStart(NatToString(i), 5)| >= 5;
  }

  /** The row label of a string value's report with the options passed:
    * row i (from 1) padded to 5 and quoted in CSV. */
  function StringRowLabel(i: nat, o: Options): (r: string)
    ensures Quoting(o) ==> |r| == |PadStart(NatToString(i), 5)| + 2 && r[0] == '"'
    ensures !Quoting(o) ==> r == PadStart(NatToString(i), 5)
  {
    ReportStringQuoted(PadStart(NatToString(i), 5), o);
    ReportString(PadStart(NatToString(i), 5), o)
  }
}
