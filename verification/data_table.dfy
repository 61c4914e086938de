/** MMDataTable: a tool holding an ordered list of columns and a row count.
  * Columns are added, removed and moved; rows are added to and removed from
  * every column together. */
module DataTables {
  import opened Wrappers
  import opened Strs
  import opened Matrices
  import opened UnitDims
  import NumberValues
  import opened TableValues

  /** One column of the table: its name, its value and its display
    * dimensions. */
  datatype Column = Column(name: string, value: ColumnValue, displayDims: Option<seq<int>>)

  /** The display unit a new column is given, already looked up: `string`,
    * the dimensions of a known unit, or a name no unit has. */
  datatype DisplayUnit = StringUnit | UnitDimensions(dims: seq<int>) | UnknownUnit

  /** The name of the formula child every table owns. */
  const InsertFormulaName := "insertformula"

  /** What JavaScript throws when a method that does not exist is called or
    * a member of `undefined` is read. */
  const TypeErrorThrown := "TypeError"

  // ------------------------------------------------------------ addColumn

  /** The name `addColumn` uses: the given one, or `Field_n` with n one more
    * than the column count. */
  function ColumnName(name: string, columnCount: nat): (r: string)
    ensures name != "" ==> r == name
    ensures name == "" ==> r == "Field_" + NatToString(columnCount + 1)
  {
    if name == "" then "Field_" + NatToString(columnCount + 1) else name
  }

  /** Differently many columns give different fabricated names. */
  lemma FabricatedNamesDiffer(m: nat, n: nat)
    requires m != n
    ensures ColumnName("", m) != ColumnName("", n)
  {
    var a, b := NatToString(m + 1), NatToString(n + 1);
    if "Field_" + a == "Field_" + b {
      assert a == ("Field_" + a)[6..] && b == ("Field_" + b)[6..];
      NatToStringRoundTrip(m + 1);
      NatToStringRoundTrip(n + 1);
    }
  }

  /** The empty value a new column starts with. */
  function EmptyValue(unit: DisplayUnit): (r: ColumnValue)
    requires !unit.UnknownUnit?
    ensures r.Count() == 0 && (r.Strings? <==> unit.StringUnit?)
  {
    if unit.StringUnit? then Strings([]) else Numbers([], unit.dims)
  }

  /** The display dimensions a new column starts with. */
  function EmptyDisplayDims(unit: DisplayUnit): Option<seq<int>>
  {
    if unit.UnitDimensions? then Some(unit.dims) else None
  }

  /** The zero-filled number value `addColumn` hands to `updateAllRows`, with
    * the new column's dimensions (none for a string column, which read as
    * zeros). */
  function ZeroSource(value: ColumnValue, rowCount: nat): (r: Source)
    requires rowCount > 0
    ensures r.NumberSource? && r.n.m.rowCount == rowCount
  {
    NumberSource(NumberValues.NumberValue(Matrix(rowCount, 1, seq(rowCount, _ => 0)),
                                          if value.Numbers? then value.dims else Zero()))
  }

  /** The column `addColumn` appends, as written: in a table with rows every
    * new column is refilled from a number value, so a string column turns
    * into a column of numbers. */
  function NewColumnAsWritten(name: string, unit: DisplayUnit, rowCount: nat, missing: int): (r: Column)
    requires !unit.UnknownUnit?
    ensures r.name == name && r.value.Count() == rowCount
  {
    var empty := EmptyValue(unit);
    if rowCount == 0 then Column(name, empty, EmptyDisplayDims(unit))
    else
      var filled := UpdateAllRowsResult(Some(empty), rowCount, Some(ZeroSource(empty, rowCount)), missing);
      Column(name, filled.value.value, EmptyDisplayDims(unit))
  }

  /** The column `addColumn` evidently means to append: as many rows as the
    * table, zeros in a number column and empty strings in a string column. */
  function NewColumn(name: string, unit: DisplayUnit, rowCount: nat, missing: int): (r: Column)
    requires !unit.UnknownUnit?
    ensures r.name == name && r.value.Count() == rowCount
    ensures r.value.Strings? <==> unit.StringUnit?
    ensures r.value.Numbers? ==> r.value.dims == unit.dims && forall i :: 0 <= i < rowCount ==> r.value.numbers[i] == 0
    ensures r.value.Strings? ==> forall i :: 0 <= i < rowCount ==> r.value.strings[i] == ""
  {
    if unit.StringUnit? then Column(name, Strings(seq(rowCount, _ => "")), None)
    else NewColumnAsWritten(name, unit, rowCount, missing)
  }

  /** A string column added to a table with one row comes out, as written,
    * as a column holding the number 0. */
  lemma StringColumnCounterexample()
    ensures NewColumnAsWritten("s", StringUnit, 1, 0).value == Numbers([0], Zero())
    ensures NewColumn("s", StringUnit, 1, 0).value == Strings([""])
  {
    assert seq(1, _ => 0) == [0];
    assert seq(1, _ => "") == [""];
    assert Repeated([0], 1, 1, 0) == [0];
  }

  // ------------------------------------------------------------ moveColumn

  /** The columns after `moveColumn(from, to)`: the column taken out and put
    * back at position `to`, or at the end when `to` is past it. */
  function Moved<T>(s: seq<T>, from: nat, to: nat): (r: seq<T>)
    requires 1 <= from <= |s| && to >= 1
    ensures |r| == |s|
  {
    var rest := s[..from - 1] + s[from..];
    var at := if to - 1 < |rest| then to - 1 else |rest|;
    rest[..at] + [s[from - 1]] + rest[at..]
  }

  /** Moving a column keeps the same columns. */
  lemma MovedPermutes<T>(s: seq<T>, from: nat, to: nat)
    requires 1 <= from <= |s| && to >= 1
    ensures multiset(Moved(s, from, to)) == multiset(s)
  {
    var rest := s[..from - 1] + s[from..];
    var at := if to - 1 < |rest| then to - 1 else |rest|;
    assert s == s[..from - 1] + [s[from - 1]] + s[from..];
    assert multiset(s) == multiset(s[..from - 1]) + multiset{s[from - 1]} + multiset(s[from..]);
    assert multiset(rest) == multiset(s[..from - 1]) + multiset(s[from..]);
    assert rest == rest[..at] + rest[at..];
    assert multiset(rest) == multiset(rest[..at]) + multiset(rest[at..]);
    var m := Moved(s, from, to);
    assert m == rest[..at] + [s[from - 1]] + rest[at..];
    assert multiset(m) == multiset(rest[..at]) + multiset{s[from - 1]} + multiset(rest[at..]);
    assert multiset(m) == multiset(rest) + multiset{s[from - 1]};
  }

  /** Where the moved column lands. */
  function Landing(count: nat, to: nat): nat
  {
    if to < count then to else count
  }

  /** The moved column is at its landing place. */
  lemma MovedLands<T>(s: seq<T>, from: nat, to: nat)
    requires 1 <= from <= |s| && to >= 1
    ensures Moved(s, from, to)[Landing(|s|, to) - 1] == s[from - 1]
  {
  }

  /** Moving the column back from where it landed restores the order. */
  lemma MoveBackRestores<T>(s: seq<T>, from: nat, to: nat)
    requires 1 <= from <= |s| && to >= 1
    ensures Moved(Moved(s, from, to), Landing(|s|, to), from) == s
  {
    var m := Moved(s, from, to);
    var at := Landing(|s|, to);
    var rest := s[..from - 1] + s[from..];
    assert m == rest[..at - 1] + [s[from - 1]] + rest[at - 1..];
    assert m[..at - 1] + m[at..] == rest;
    assert m[at - 1] == s[from - 1];
    assert rest[..from - 1] == s[..from - 1];
    assert rest[from - 1..] == s[from..];
    assert s == s[..from - 1] + [s[from - 1]] + s[from..];
  }

  /** The undo command `moveColumnCommand` records, as written: the same
    * move again. */
  function MoveUndoAsWritten(from: nat, to: nat): (nat, nat)
  {
    (from, to)
  }

  /** The undo command that reverses a move: from the landing place back to
    * where the column came from. */
  function MoveUndo(count: nat, from: nat, to: nat): (r: (nat, nat))
    ensures r.0 >= 1 <==> count >= 1 && to >= 1
  {
    (Landing(count, to), from)
  }

  /** Replaying the corrected undo restores the columns. */
  lemma MoveUndoRestores<T>(s: seq<T>, from: nat, to: nat)
    requires 1 <= from <= |s| && to >= 1
    ensures var u := MoveUndo(|s|, from, to); Moved(Moved(s, from, to), u.0, u.1) == s
  {
    MoveBackRestores(s, from, to);
  }

  /** Three columns moved from 1 to 3 and "undone" as written end up
    * rotated twice instead of restored. */
  lemma MoveUndoCounterexample()
    ensures var u := MoveUndoAsWritten(1, 3); Moved(Moved("abc", 1, 3), u.0, u.1) == "cab"
    ensures var u := MoveUndo(3, 1, 3); Moved(Moved("abc", 1, 3), u.0, u.1) == "abc"
  {
    var s := "abc";
    assert s[..0] + s[1..] == "bc";
    assert Moved(s, 1, 3) == "bca";
    var t := "bca";
    assert t[..0] + t[1..] == "ca";
    assert Moved(t, 1, 3) == "cab";
    MoveUndoRestores(s, 1, 3);
  }

  // ---------------------------------------------------------------- addRow

  /** How the column loop of `addRow` ends: every column grew, one threw, or
    * one did not reach the expected row count after `successCount` did. */
  datatype AddRowStop = Completed | Thrown(error: string) | Broke(successCount: nat)

  /** The column loop of `addRow` from column `i` on: each column gets its
    * new row in turn, the columns changed so far staying changed when a
    * later one throws or breaks the loop. */
  function AddRowPass(columns: seq<Column>, rowCount: nat, rowNumber: int, inserts: seq<Option<Insert>>,
                      missing: int, i: nat): (r: (seq<Column>, AddRowStop))
    requires |inserts| == |columns| && i <= |columns|
    ensures |r.0| == |columns|
    ensures r.1.Broke? ==> r.1.successCount < |columns|
    decreases |columns| - i
  {
    if i == |columns| then (columns, Completed)
    else
      var c := columns[i];
      var added := AddRowResult(Some(c.value), c.displayDims, rowNumber, inserts[i], missing);
      if added.Err? then (columns, Thrown(added.error))
      else
        var next := columns[i := Column(c.name, added.value.0, added.value.1)];
        if added.value.0.Count() != rowCount + 1 then (next, Broke(i))
        else AddRowPass(next, rowCount, rowNumber, inserts, missing, i + 1)
  }

  /** Every column of the table has the table's row count. */
  predicate Consistent(columns: seq<Column>, rowCount: nat)
  {
    forall k :: 0 <= k < |columns| ==> columns[k].value.Count() == rowCount
  }

  /** In a consistent table the loop never breaks, and when every column
    * took its row the table is consistent again with one more row. */
  lemma {:induction false} AddRowPassConsistent(columns: seq<Column>, rowCount: nat, rowNumber: int,
                                                inserts: seq<Option<Insert>>, missing: int, i: nat)
    requires |inserts| == |columns| && i <= |columns|
    requires forall k :: 0 <= k < i ==> columns[k].value.Count() == rowCount + 1
    requires forall k :: i <= k < |columns| ==> columns[k].value.Count() == rowCount
    ensures var r := AddRowPass(columns, rowCount, rowNumber, inserts, missing, i);
      !r.1.Broke? && (r.1.Completed? ==> Consistent(r.0, rowCount + 1))
    decreases |columns| - i
  {
    if i < |columns| {
      var c := columns[i];
      var added := AddRowResult(Some(c.value), c.displayDims, rowNumber, inserts[i], missing);
      if added.Ok? {
        AddRowGrowsByOne(Some(c.value), c.displayDims, rowNumber, inserts[i], missing);
        var next := columns[i := Column(c.name, added.value.0, added.value.1)];
        AddRowPassConsistent(next, rowCount, rowNumber, inserts, missing, i + 1);
      }
    }
  }

  /** The column loop of `addRow`. */
  method AddRowToColumns(columns: seq<Column>, rowCount: nat, rowNumber: int, inserts: seq<Option<Insert>>, missing: int)
    returns (cols: seq<Column>, stop: AddRowStop)
    requires |inserts| == |columns|
    ensures (cols, stop) == AddRowPass(columns, rowCount, rowNumber, inserts, missing, 0)
  {
    cols := columns;
    var i := 0;
    while i < |cols|
      invariant 0 <= i <= |cols| == |columns|
      invariant AddRowPass(columns, rowCount, rowNumber, inserts, missing, 0)
        == AddRowPass(cols, rowCount, rowNumber, inserts, missing, i)
    {
      var c := cols[i];
      var added := AddRowTo(Some(c.value), c.displayDims, rowNumber, inserts[i], missing);
      if added.Err? {
        return cols, Thrown(added.error);
      }
      cols := cols[i := Column(c.name, added.value.0, added.value.1)];
      if added.value.0.Count() != rowCount + 1 {
        return cols, Broke(i);
      }
      i := i + 1;
    }
    stop := Completed;
  }

  /** A table of two number columns with one row each. */
  function TwoColumnTable(): seq<Column>
  {
    [Column("a", Numbers([1], Zero()), None), Column("b", Numbers([2], Zero()), None)]
  }

  /** How a failed `addRow` leaves the columns apart: a row of other units
    * throws at the second column after the first took the row; with the
    * columns then swapped, the next `addRow` breaks after one column took
    * the row, the case where the code as written calls a column method
    * that does not exist. */
  lemma AddRowTypeErrorCounterexample()
    ensures var first := AddRowPass(TwoColumnTable(), 1, 1, [None, Some(NumberInsert(0, Zero()[0 := 1], "0"))], 0, 0);
      first.1 == Thrown("mmcmd:tableAddRowUnitMismatch")
      && AddRowPass(Moved(first.0, 1, 2), 1, 1, [None, None], 0, 0).1 == Broke(1)
  {
    var start := TwoColumnTable();
    var inserts := [None, Some(NumberInsert(0, Zero()[0 := 1], "0"))];
    assert Zero()[0 := 1] != Zero() by { assert Zero()[0] == 0; }
    var a := AddRowResult(Some(start[0].value), None, 1, None, 0);
    assert a == Ok((Numbers([0, 1], Zero()), None)) by { assert Inserted([1], 1, 0) == [0, 1]; }
    var afterA := start[0 := Column("a", Numbers([0, 1], Zero()), None)];
    assert AddRowPass(start, 1, 1, inserts, 0, 0) == AddRowPass(afterA, 1, 1, inserts, 0, 1);
    var first := AddRowPass(afterA, 1, 1, inserts, 0, 1);
    assert first == (afterA, Thrown("mmcmd:tableAddRowUnitMismatch"));
    var swapped := Moved(afterA, 1, 2);
    assert swapped == [afterA[1], afterA[0]];
    var b := AddRowResult(Some(swapped[0].value), None, 1, None, 0);
    assert b == Ok((Numbers([0, 2], Zero()), None)) by { assert Inserted([2], 1, 0) == [0, 2]; }
    var afterB := swapped[0 := Column("b", Numbers([0, 2], Zero()), None)];
    assert AddRowPass(swapped, 1, 1, [None, None], 0, 0) == AddRowPass(afterB, 1, 1, [None, None], 0, 1);
    assert AddRowResult(Some(afterB[1].value), None, 1, None, 0).value.0.Count() == 3;
  }

  /** The row number `addRow` reports once every column took the row: 0 and
    * numbers past the new count mean the last row. */
  function AddedRowNumber(rowNumber: int, newRowCount: nat): (r: int)
    ensures rowNumber == 0 || rowNumber > newRowCount ==> r == newRowCount
    ensures rowNumber != 0 && rowNumber <= newRowCount ==> r == rowNumber
  {
    if rowNumber == 0 || rowNumber > newRowCount then newRowCount else rowNumber
  }

  // ------------------------------------------------------------ removeRows

  predicate Descending(s: seq<int>)
  {
    forall i, j :: 0 <= i < j < |s| ==> s[i] >= s[j]
  }

  /** `x` put into a descending list before the first smaller number. */
  function InsertDescending(x: int, s: seq<int>): (r: seq<int>)
    requires Descending(s)
    ensures Descending(r) && multiset(r) == multiset(s) + multiset{x}
    ensures |r| == |s| + 1
    ensures forall k :: 0 <= k < |r| ==> r[k] == x || r[k] in s
  {
    if s == [] || x >= s[0] then
      assert Descending([x] + s) by {
        forall i, j | 0 <= i < j < |[x] + s| ensures ([x] + s)[i] >= ([x] + s)[j] {
          if i == 0 { assert s[0] >= s[j - 1]; }
        }
      }
      [x] + s
    else
      var tail := InsertDescending(x, s[1..]);
      ConsDescending(x, s, tail);
      [s[0]] + tail
  }

  /** The head of a descending list stays in front of `x`, smaller than it,
    * inserted into the rest. */
  lemma ConsDescending(x: int, s: seq<int>, tail: seq<int>)
    requires Descending(s) && s != [] && x < s[0]
    requires Descending(tail) && multiset(tail) == multiset(s[1..]) + multiset{x}
    requires |tail| == |s|
    requires forall k :: 0 <= k < |tail| ==> tail[k] == x || tail[k] in s[1..]
    ensures Descending([s[0]] + tail) && multiset([s[0]] + tail) == multiset(s) + multiset{x}
    ensures forall k :: 0 <= k < |[s[0]] + tail| ==> ([s[0]] + tail)[k] == x || ([s[0]] + tail)[k] in s
  {
    assert s == [s[0]] + s[1..];
    var r := [s[0]] + tail;
    forall i, j | 0 <= i < j < |r| ensures r[i] >= r[j] {
      if i == 0 {
        assert r[j] == tail[j - 1];
        if tail[j - 1] != x {
          var k :| 0 <= k < |s[1..]| && s[1..][k] == tail[j - 1];
          assert s[0] >= s[k + 1];
        }
      }
    }
    forall k | 0 <= k < |r| ensures r[k] == x || r[k] in s {
      if k > 0 && r[k] != x { assert r[k] == tail[k - 1] && tail[k - 1] in s[1..]; }
    }
  }

  /** The row numbers in descending order, as `removeRows` sorts them. */
  function SortDescending(s: seq<int>): (r: seq<int>)
    ensures Descending(r) && multiset(r) == multiset(s)
  {
    if s == [] then []
    else
      assert s == [s[0]] + s[1..];
      InsertDescending(s[0], SortDescending(s[1..]))
  }

  /** The column loop of `removeRows` for one row number from column `i` on;
    * a column that throws ends the pass with the earlier columns changed. */
  function RemovePass(columns: seq<Column>, rowNumber: int, i: nat): (r: (seq<Column>, Option<string>))
    requires i <= |columns|
    ensures |r.0| == |columns|
    decreases |columns| - i
  {
    if i == |columns| then (columns, None)
    else
      var removed := RemoveRowResult(Some(columns[i].value), rowNumber);
      if removed.Err? then (columns, Some(removed.error))
      else RemovePass(columns[i := columns[i].(value := removed.value.value)], rowNumber, i + 1)
  }

  /** What `removeRows` leaves: the columns, the row count, the row numbers
    * removed (the keys of the returned inputs) and the error thrown, if any. */
  datatype RemoveRowsOutcome = RemoveRowsOutcome(columns: seq<Column>, rowCount: nat, removed: seq<int>, error: Option<string>)

  /** The row loop of `removeRows` from sorted entry `j` on: a row number in
    * 1..rowCount is removed from every column and lowers the row count. */
  function RemoveRowsPass(columns: seq<Column>, rowCount: nat, sorted: seq<int>, j: nat, removed: seq<int>): (r: RemoveRowsOutcome)
    requires j <= |sorted|
    ensures |r.columns| == |columns|
    decreases |sorted| - j
  {
    if j == |sorted| then RemoveRowsOutcome(columns, rowCount, removed, None)
    else
      var rowNumber := sorted[j];
      if 0 < rowNumber <= rowCount then
        var pass := RemovePass(columns, rowNumber, 0);
        if pass.1.Some? then RemoveRowsOutcome(pass.0, rowCount, removed, pass.1)
        else RemoveRowsPass(pass.0, rowCount - 1, sorted, j + 1, removed + [rowNumber])
      else RemoveRowsPass(columns, rowCount, sorted, j + 1, removed)
  }

  /** In a consistent table one in-range row comes out of every column
    * without an error, leaving the table consistent with one row fewer. */
  lemma {:induction false} RemovePassConsistent(columns: seq<Column>, rowCount: nat, rowNumber: int, i: nat)
    requires 1 <= rowNumber <= rowCount && i <= |columns|
    requires forall k :: 0 <= k < i ==> columns[k].value.Count() == rowCount - 1
    requires forall k :: i <= k < |columns| ==> columns[k].value.Count() == rowCount
    ensures RemovePass(columns, rowNumber, i).1.None?
    ensures Consistent(RemovePass(columns, rowNumber, i).0, rowCount - 1)
    decreases |columns| - i
  {
    if i < |columns| {
      RemoveRowShrinksByOne(columns[i].value, rowNumber);
      var removed := RemoveRowResult(Some(columns[i].value), rowNumber);
      RemovePassConsistent(columns[i := columns[i].(value := removed.value.value)], rowCount, rowNumber, i + 1);
    }
  }

  /** In a consistent table `removeRows` throws nothing, keeps the table
    * consistent, lowers the row count once per removed row, and removes
    * only listed numbers in 1..rowCount, largest first. */
  lemma {:induction false} RemoveRowsConsistent(columns: seq<Column>, rowCount: nat, sorted: seq<int>, j: nat,
                                                removed: seq<int>)
    requires j <= |sorted| && Consistent(columns, rowCount)
    ensures var r := RemoveRowsPass(columns, rowCount, sorted, j, removed);
      r.error.None? && Consistent(r.columns, r.rowCount)
      && r.rowCount + |r.removed| == rowCount + |removed|
      && |removed| <= |r.removed| && r.removed[..|removed|] == removed
      && forall k :: |removed| <= k < |r.removed| ==> 0 < r.removed[k] <= rowCount && r.removed[k] in sorted[j..]
    decreases |sorted| - j
  {
    if j < |sorted| {
      var rowNumber := sorted[j];
      if 0 < rowNumber <= rowCount {
        RemovePassConsistent(columns, rowCount, rowNumber, 0);
        var pass := RemovePass(columns, rowNumber, 0);
        RemoveRowsConsistent(pass.0, rowCount - 1, sorted, j + 1, removed + [rowNumber]);
        var r := RemoveRowsPass(pass.0, rowCount - 1, sorted, j + 1, removed + [rowNumber]);
        assert r.removed[..|removed| + 1][..|removed|] == r.removed[..|removed|];
      } else {
        RemoveRowsConsistent(columns, rowCount, sorted, j + 1, removed);
      }
    }
  }

  /** The column loop of `removeRows` for one row number. */
  method RemoveRowFromColumns(columns: seq<Column>, rowNumber: int) returns (cols: seq<Column>, error: Option<string>)
    ensures (cols, error) == RemovePass(columns, rowNumber, 0)
  {
    cols := columns;
    var i := 0;
    while i < |cols|
      invariant 0 <= i <= |cols| == |columns|
      invariant RemovePass(columns, rowNumber, 0) == RemovePass(cols, rowNumber, i)
    {
      var removed := RemoveRowFrom(Some(cols[i].value), rowNumber);
      if removed.Err? {
        return cols, Some(removed.error);
      }
      cols := cols[i := cols[i].(value := removed.value.value)];
      i := i + 1;
    }
    error := None;
  }

  /** The row loop of `removeRows` over the sorted row numbers. */
  method RemoveRowsFromColumns(columns: seq<Column>, rowCount: nat, sorted: seq<int>) returns (r: RemoveRowsOutcome)
    ensures r == RemoveRowsPass(columns, rowCount, sorted, 0, [])
  {
    var cols, count, removed := columns, rowCount, [];
    for j := 0 to |sorted|
      invariant RemoveRowsPass(columns, rowCount, sorted, 0, []) == RemoveRowsPass(cols, count, sorted, j, removed)
    {
      var rowNumber := sorted[j];
      if 0 < rowNumber <= count {
        var error;
        cols, error := RemoveRowFromColumns(cols, rowNumber);
        if error.Some? {
          return RemoveRowsOutcome(cols, count, removed, error);
        }
        removed := removed + [rowNumber];
        count := count - 1;
      }
    }
    r := RemoveRowsOutcome(cols, count, removed, None);
  }

  // ------------------------------------------------------ removeChildNamed

  /** The position of the first column from `i` on named `lcName` when
    * lower-cased, or the column count when there is none. */
  function FirstNamedFrom(columns: seq<Column>, lcName: string, i: nat): (r: nat)
    requires i <= |columns|
    ensures i <= r <= |columns|
    ensures forall k :: i <= k < r ==> Lower(columns[k].name) != lcName
    ensures r < |columns| ==> Lower(columns[r].name) == lcName
    decreases |columns| - i
  {
    if i == |columns| || Lower(columns[i].name) == lcName then i else FirstNamedFrom(columns, lcName, i + 1)
  }

  /** The columns with the first one named `name` (ignoring case) taken out. */
  function WithoutColumn(columns: seq<Column>, name: string): (r: seq<Column>)
  {
    var k := FirstNamedFrom(columns, Lower(name), 0);
    if k < |columns| then columns[..k] + columns[k + 1..] else columns
  }

  /** Taking a column out removes exactly the first one of that name and
    * keeps the others in order; without one of that name nothing changes. */
  lemma WithoutColumnRemovesFirst(columns: seq<Column>, name: string)
    ensures var k := FirstNamedFrom(columns, Lower(name), 0);
      var r := WithoutColumn(columns, name);
      (k < |columns| ==> |r| == |columns| - 1 && multiset(r) + multiset{columns[k]} == multiset(columns))
      && (k == |columns| ==> r == columns)
  {
    var k := FirstNamedFrom(columns, Lower(name), 0);
    if k < |columns| {
      SpliceMultiset(columns, k);
    }
  }

  /** Cutting one element out of a sequence takes exactly that element out of its multiset. */
  lemma SpliceMultiset<T>(s: seq<T>, k: nat)
    requires k < |s|
    ensures multiset(s[..k] + s[k + 1..]) + multiset{s[k]} == multiset(s)
  {
    assert s == s[..k] + [s[k]] + s[k + 1..];
  }

  /** The splice loop of `removeChildNamed`. */
  method RemoveColumnNamed(columns: seq<Column>, name: string) returns (r: seq<Column>)
    ensures r == WithoutColumn(columns, name)
  {
    var lcName := Lower(name);
    for i := 0 to |columns|
      invariant FirstNamedFrom(columns, lcName, 0) == FirstNamedFrom(columns, lcName, i)
    {
      if lcName == Lower(columns[i].name) {
        return columns[..i] + columns[i + 1..];
      }
    }
    r := columns;
  }

  // ------------------------------------------------------------- the table

  class DataTable {
    /** `columnArray`. */
    var columns: seq<Column>
    var rowCount: nat
    /** The keys of the children dictionary (lower-cased names). */
    var childNames: set<string>

    /** A new table: no columns, no rows, only the insert formula child. */
    constructor()
      ensures columns == [] && rowCount == 0 && childNames == {InsertFormulaName}
    {
      columns := [];
      rowCount := 0;
      childNames := {InsertFormulaName};
    }

    /** `addColumn`, with the new column filled as evidently intended. The
      * child is registered under the lower-cased name before the unit is
      * checked, so an unknown unit leaves the name behind. */
    method AddColumn(unit: DisplayUnit, name: string, missing: int) returns (r: Result<string>)
      modifies this
      ensures var n := ColumnName(name, |old(columns)|);
        childNames == old(childNames) + {Lower(n)} && rowCount == old(rowCount)
        && (unit.UnknownUnit? ==> r == Err("mmcmd:tableBadUnit") && columns == old(columns))
        && (!unit.UnknownUnit? ==> r == Ok(n) && columns == old(columns) + [NewColumn(n, unit, old(rowCount), missing)])
    {
      var n := if name == "" then "Field_" + NatToString(|columns| + 1) else name;
      childNames := childNames + {Lower(n)};
      if unit.UnknownUnit? {
        return Err("mmcmd:tableBadUnit");
      }
      var column := MakeColumn(n, unit, rowCount, missing);
      columns := columns + [column];
      r := Ok(n);
    }

    /** `addColumn` as written: a string column in a table with rows is
      * refilled with numbers. */
    method AddColumnAsWritten(unit: DisplayUnit, name: string, missing: int) returns (r: Result<string>)
      modifies this
      ensures var n := ColumnName(name, |old(columns)|);
        childNames == old(childNames) + {Lower(n)} && rowCount == old(rowCount)
        && (unit.UnknownUnit? ==> r == Err("mmcmd:tableBadUnit") && columns == old(columns))
        && (!unit.UnknownUnit? ==> r == Ok(n) && columns == old(columns) + [NewColumnAsWritten(n, unit, old(rowCount), missing)])
    {
      var n := if name == "" then "Field_" + NatToString(|columns| + 1) else name;
      childNames := childNames + {Lower(n)};
      if unit.UnknownUnit? {
        return Err("mmcmd:tableBadUnit");
      }
      var column := MakeColumnAsWritten(n, unit, rowCount, missing);
      columns := columns + [column];
      r := Ok(n);
    }

    /** `moveColumn`: acts only for a column that exists and a positive
      * target. */
    method MoveColumn(from: int, to: int)
      modifies this
      ensures rowCount == old(rowCount) && childNames == old(childNames)
      ensures 1 <= from <= |old(columns)| && to >= 1 ==> columns == Moved(old(columns), from, to)
      ensures !(1 <= from <= |old(columns)| && to >= 1) ==> columns == old(columns)
    {
      if from > 0 && from <= |columns| && to > 0 {
        var column := columns[from - 1];
        var rest := columns[..from - 1] + columns[from..];
        var at := if to - 1 < |rest| then to - 1 else |rest|;
        columns := rest[..at] + [column] + rest[at..];
      }
    }

    /** `addRow`, with a failed attempt undone as evidently intended: the
      * columns that took the row get their previous values back and -1 is
      * returned. A column that throws leaves the earlier ones changed. */
    method AddRow(rowNumber: int, inserts: seq<Option<Insert>>, missing: int) returns (r: Result<int>)
      requires |inserts| == |columns|
      modifies this
      ensures childNames == old(childNames)
      ensures var pass := AddRowPass(old(columns), old(rowCount), rowNumber, inserts, missing, 0);
        match pass.1
        case Completed => columns == pass.0 && rowCount == old(rowCount) + 1
          && r == Ok(AddedRowNumber(rowNumber, old(rowCount) + 1))
        case Thrown(e) => columns == pass.0 && rowCount == old(rowCount) && r == Err(e)
        case Broke(k) => columns == old(columns)[..k] + pass.0[k..] && rowCount == old(rowCount) && r == Ok(-1)
    {
      var before := columns;
      var cols, stop := AddRowToColumns(columns, rowCount, rowNumber, inserts, missing);
      match stop {
        case Completed =>
          columns := cols;
          rowCount := rowCount + 1;
          r := Ok(if rowNumber == 0 || rowNumber > rowCount then rowCount else rowNumber);
        case Thrown(e) =>
          columns := cols;
          r := Err(e);
        case Broke(k) =>
          columns := before[..k] + cols[k..];
          r := Ok(-1);
      }
    }

    /** `addRow` as written: on a failed attempt it calls a column method
      * that does not exist, which throws as soon as one column took the
      * row. */
    method AddRowAsWritten(rowNumber: int, inserts: seq<Option<Insert>>, missing: int) returns (r: Result<int>)
      requires |inserts| == |columns|
      modifies this
      ensures childNames == old(childNames)
      ensures var pass := AddRowPass(old(columns), old(rowCount), rowNumber, inserts, missing, 0);
        columns == pass.0
        && match pass.1
           case Completed => rowCount == old(rowCount) + 1 && r == Ok(AddedRowNumber(rowNumber, old(rowCount) + 1))
           case Thrown(e) => rowCount == old(rowCount) && r == Err(e)
           case Broke(k) => rowCount == old(rowCount) && r == (if k > 0 then Err(TypeErrorThrown) else Ok(-1))
    {
      var cols, stop := AddRowToColumns(columns, rowCount, rowNumber, inserts, missing);
      columns := cols;
      match stop {
        case Completed =>
          rowCount := rowCount + 1;
          r := Ok(if rowNumber == 0 || rowNumber > rowCount then rowCount else rowNumber);
        case Thrown(e) =>
          r := Err(e);
        case Broke(k) =>
          r := if k > 0 then Err(TypeErrorThrown) else Ok(-1);
      }
    }

    /** `removeRows`: the row numbers largest first, each in 1..rowCount
      * removed from every column; the result lists the removed numbers. */
    method RemoveRows(rowNumbers: seq<int>) returns (r: Result<seq<int>>)
      modifies this
      ensures childNames == old(childNames)
      ensures var outcome := RemoveRowsPass(old(columns), old(rowCount), SortDescending(rowNumbers), 0, []);
        columns == outcome.columns && rowCount == outcome.rowCount
        && r == (if outcome.error.Some? then Err(outcome.error.value) else Ok(outcome.removed))
    {
      var sorted := SortDescending(rowNumbers);
      var outcome := RemoveRowsFromColumns(columns, rowCount, sorted);
      columns := outcome.columns;
      rowCount := outcome.rowCount;
      r := if outcome.error.Some? then Err(outcome.error.value) else Ok(outcome.removed);
    }

    /** `removeChildNamed`, with the parent's removal by name as the
      * override evidently expects: a removed child's column leaves
      * `columnArray`, and the last column going resets the row count. */
    method RemoveChildNamed(name: string) returns (removed: bool)
      modifies this
      ensures removed <==> Lower(name) in old(childNames)
      ensures childNames == old(childNames) - {Lower(name)}
      ensures removed ==> (columns == WithoutColumn(old(columns), name)
        && rowCount == (if columns == [] then 0 else old(rowCount)))
      ensures !removed ==> columns == old(columns) && rowCount == old(rowCount)
    {
      if Lower(name) !in childNames {
        return false;
      }
      childNames := childNames - {Lower(name)};
      columns := RemoveColumnNamed(columns, name);
      if columns == [] {
        rowCount := 0;
      }
      removed := true;
    }

    /** `removeChildNamed` as written, reached from the `removechild`
      * verb with a command: the parent's method unfiles a known child and
      * returns nothing, so the override reports false and its column and
      * the row count stay; an unknown name throws. */
    method RemoveChildVerbAsWritten(name: string) returns (r: Result<bool>)
      modifies this
      ensures Lower(name) in old(childNames) ==> r == Ok(false) && childNames == old(childNames) - {Lower(name)}
      ensures Lower(name) !in old(childNames) ==> r == Err("cmd:childNotFound") && childNames == old(childNames)
      ensures columns == old(columns) && rowCount == old(rowCount)
    {
      if Lower(name) !in childNames {
        return Err("cmd:childNotFound");
      }
      childNames := childNames - {Lower(name)};
      r := Ok(false);
    }

    /** `removeChildNamed` as written, called with a bare name (the preview
      * formula's removal): the parent's method reads the `args` of the
      * string it is handed, which is undefined, so every call throws and
      * nothing is removed. */
    method RemoveChildNamedAsWritten(name: string) returns (r: Result<bool>)
      ensures r == Err(TypeErrorThrown)
    {
      r := Err(TypeErrorThrown);
    }

    /** The range check of `setCellCommand`. */
    function CheckCell(rowNumber: int, columnNumber: int): (r: Result<()>)
      reads this
      ensures r.Ok? <==> 1 <= rowNumber <= rowCount && 1 <= columnNumber <= |columns|
      ensures r.Err? ==> r.error == "mmcmd:tableRowColumnError"
    {
      if rowNumber < 1 || rowNumber > rowCount || columnNumber < 1 || columnNumber > |columns|
      then Err("mmcmd:tableRowColumnError") else Ok(())
    }

    /** The `nrow` and `ncol` descriptions, ignoring case. */
    function CountDescribedBy(description: string): (r: Option<nat>)
      reads this
      ensures Lower(description) == "nrow" ==> r == Some(rowCount)
      ensures Lower(description) == "ncol" ==> r == Some(|columns|)
      ensures Lower(description) != "nrow" && Lower(description) != "ncol" ==> r.None?
    {
      var lc := Lower(description);
      if lc == "nrow" then Option<nat>.Some(rowCount) else if lc == "ncol" then Option<nat>.Some(|columns|) else None
    }
  }

  /** A cell the range check accepts exists in a consistent table. */
  lemma CheckedCellExists(columns: seq<Column>, rowCount: nat, rowNumber: int, columnNumber: int)
    requires Consistent(columns, rowCount)
    requires 1 <= rowNumber <= rowCount && 1 <= columnNumber <= |columns|
    ensures rowNumber <= columns[columnNumber - 1].value.Count()
  {
  }

  /** The column `addColumn` builds. */
  method MakeColumn(name: string, unit: DisplayUnit, rowCount: nat, missing: int) returns (r: Column)
    requires !unit.UnknownUnit?
    ensures r == NewColumn(name, unit, rowCount, missing)
  {
    if unit.StringUnit? {
      return Column(name, Strings(seq(rowCount, _ => "")), None);
    }
    r := MakeColumnAsWritten(name, unit, rowCount, missing);
  }

  /** How `removechild` on a table's only column leaves it: the verb's
    * removal unfiles the child but keeps its column and rows, where the
    * intended removal drops the column and resets the row count. */
  method RemoveChildVerbCounterexample() returns (verb: Result<bool>, kept: seq<Column>, intended: bool, left: seq<Column>, rows: nat)
    ensures verb == Ok(false) && |kept| == 1 && kept[0].name == "a"
    ensures intended && left == [] && rows == 0
  {
    var column := Column("a", Numbers([7], []), None);
    assert Lower("a") == "a" by { assert LowerChar('a') == 'a'; }
    var asWritten := new DataTable();
    asWritten.columns, asWritten.rowCount, asWritten.childNames := [column], 1, {"a"};
    verb := asWritten.RemoveChildVerbAsWritten("a");
    kept := asWritten.columns;
    var corrected := new DataTable();
    corrected.columns, corrected.rowCount, corrected.childNames := [column], 1, {"a"};
    intended := corrected.RemoveChildNamed("a");
    assert WithoutColumn([column], "a") == [];
    left, rows := corrected.columns, corrected.rowCount;
  }

  /** The column `addColumn` builds, as written. */
  method MakeColumnAsWritten(name: string, unit: DisplayUnit, rowCount: nat, missing: int) returns (r: Column)
    requires !unit.UnknownUnit?
    ensures r == NewColumnAsWritten(name, unit, rowCount, missing)
  {
    var empty := if unit.StringUnit? then Strings([]) else Numbers([], unit.dims);
    var displayDims := if unit.UnitDimensions? then Some(unit.dims) else None;
    if rowCount == 0 {
      return Column(name, empty, displayDims);
    }
    var filled := UpdateRowsOf(Some(empty), rowCount, Some(ZeroSource(empty, rowCount)), missing);
    r := Column(name, filled.value.value, displayDims);
  }
}
