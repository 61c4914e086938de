/** MMTableValue: a table of named columns, each a one-column number or
  * string value, with row insertion, removal, selection and broadcast. */
module TableValues {
  import opened Wrappers
  import opened Strs
  import opened Matrices
  import opened UnitDims
  import NumberValues
  import IndexSelect

  /** The value a column holds: one column of numbers with their unit
    * dimensions, or one column of strings. */
  datatype ColumnValue = Numbers(numbers: seq<int>, dims: seq<int>) | Strings(strings: seq<string>)
  {
    function Count(): nat { if Numbers? then |numbers| else |strings| }
  }

  /** What `addRow` is handed: a number value (its first value and its
    * dimensions), a string value or another value; `text` is the value's
    * string for row 1, column 1. */
  datatype Insert =
    | NumberInsert(first: int, dims: seq<int>, text: string)
    | StringInsert(text: string)
    | OtherInsert(text: string)

  /** What `updateAllRows` is handed. */
  datatype Source = NumberSource(n: NumberValues.NumberValue) | StringSource(s: Matrix<string>) | OtherSource

  // ------------------------------------------------------------ row lists

  /** The rows after inserting `x` as 1-based row `rowNumber`. */
  function Inserted<T>(s: seq<T>, rowNumber: nat, x: T): (r: seq<T>)
    requires 1 <= rowNumber <= |s| + 1
    ensures |r| == |s| + 1
  {
    s[..rowNumber - 1] + [x] + s[rowNumber - 1..]
  }

  /** Inserting keeps the earlier rows, puts `x` at the row and moves the
    * later rows down by one. */
  lemma InsertedRows<T>(s: seq<T>, rowNumber: nat, x: T)
    requires 1 <= rowNumber <= |s| + 1
    ensures Inserted(s, rowNumber, x)[rowNumber - 1] == x
    ensures forall i :: 0 <= i < rowNumber - 1 ==> Inserted(s, rowNumber, x)[i] == s[i]
    ensures forall i :: rowNumber <= i <= |s| ==> Inserted(s, rowNumber, x)[i] == s[i - 1]
  {
  }

  /** The rows after removing 1-based row `rowNumber`. */
  function Removed<T>(s: seq<T>, rowNumber: nat): (r: seq<T>)
    requires 1 <= rowNumber <= |s|
    ensures |r| == |s| - 1
  {
    s[..rowNumber - 1] + s[rowNumber..]
  }

  /** Removing keeps the earlier rows and moves the later rows up by one. */
  lemma RemovedRows<T>(s: seq<T>, rowNumber: nat)
    requires 1 <= rowNumber <= |s|
    ensures forall i :: 0 <= i < rowNumber - 1 ==> Removed(s, rowNumber)[i] == s[i]
    ensures forall i :: rowNumber - 1 <= i < |s| - 1 ==> Removed(s, rowNumber)[i] == s[i + 1]
  {
  }

  /** Removing the row just inserted restores the column. */
  lemma RemoveUndoesInsert<T>(s: seq<T>, rowNumber: nat, x: T)
    requires 1 <= rowNumber <= |s| + 1
    ensures Removed(Inserted(s, rowNumber, x), rowNumber) == s
  {
    var r := Removed(Inserted(s, rowNumber, x), rowNumber);
    InsertedRows(s, rowNumber, x);
    RemovedRows(Inserted(s, rowNumber, x), rowNumber);
    assert forall i :: 0 <= i < |s| ==> r[i] == s[i];
  }

  /** Inserting the removed row where it was restores the column. */
  lemma InsertUndoesRemove<T>(s: seq<T>, rowNumber: nat)
    requires 1 <= rowNumber <= |s|
    ensures Inserted(Removed(s, rowNumber), rowNumber, s[rowNumber - 1]) == s
  {
    var r := Inserted(Removed(s, rowNumber), rowNumber, s[rowNumber - 1]);
    RemovedRows(s, rowNumber);
    InsertedRows(Removed(s, rowNumber), rowNumber, s[rowNumber - 1]);
    assert forall i :: 0 <= i < |s| ==> r[i] == s[i];
  }

  /** The copy loops of `addRow`: earlier rows stay, later rows move down one
    * and the new row holds `x`. */
  method InsertRow<T>(s: seq<T>, rowNumber: nat, x: T, fill: T) returns (r: seq<T>)
    requires 1 <= rowNumber <= |s| + 1
    ensures r == Inserted(s, rowNumber, x)
  {
    var total := |s| + 1;
    var a := new T[total](_ => fill);
    var i := 0;
    while i < rowNumber - 1
      invariant 0 <= i <= rowNumber - 1
      invariant forall k :: 0 <= k < i ==> a[k] == s[k]
    {
      a[i] := s[i];
      i := i + 1;
    }
    i := rowNumber;
    while i < total
      invariant rowNumber <= i <= total
      invariant forall k :: 0 <= k < rowNumber - 1 ==> a[k] == s[k]
      invariant forall k :: rowNumber <= k < i ==> a[k] == s[k - 1]
    {
      a[i] := s[i - 1];
      i := i + 1;
    }
    a[rowNumber - 1] := x;
    r := a[..];
    InsertedRows(s, rowNumber, x);
    assert forall k :: 0 <= k < total ==> r[k] == Inserted(s, rowNumber, x)[k];
  }

  /** The copy loops of `removeRowNumber`. */
  method RemoveRow<T>(s: seq<T>, rowNumber: nat, fill: T) returns (r: seq<T>)
    requires 1 <= rowNumber <= |s|
    ensures r == Removed(s, rowNumber)
  {
    var a := new T[|s| - 1](_ => fill);
    var i := 0;
    while i < rowNumber - 1
      invariant 0 <= i <= rowNumber - 1
      invariant forall k :: 0 <= k < i ==> a[k] == s[k]
    {
      a[i] := s[i];
      i := i + 1;
    }
    i := rowNumber;
    while i < |s|
      invariant rowNumber <= i <= |s|
      invariant forall k :: 0 <= k < rowNumber - 1 ==> a[k] == s[k]
      invariant forall k :: rowNumber - 1 <= k < i - 1 ==> a[k] == s[k + 1]
    {
      a[i - 1] := s[i];
      i := i + 1;
    }
    r := a[..];
    RemovedRows(s, rowNumber);
    assert forall k :: 0 <= k < |s| - 1 ==> r[k] == Removed(s, rowNumber)[k];
  }

  /** The row a row number picks when a column is copied by row numbers:
    * 1-based from the start; 0 or less counts back from the end (-1 is the
    * last row); a row past the end keeps the cell's `fill`, one before the
    * start reads undefined (`missing`). */
  function PickedCell<T>(values: seq<T>, rowNumber: int, fill: T, missing: T): T
  {
    var index := if rowNumber - 1 < 0 then |values| + rowNumber else rowNumber - 1;
    if index >= |values| then fill else if index < 0 then missing else values[index]
  }

  function Picked<T>(values: seq<T>, rowNumbers: seq<int>, fill: T, missing: T): (r: seq<T>)
    ensures |r| == |rowNumbers|
    ensures forall i :: 0 <= i < |r| ==> r[i] == PickedCell(values, rowNumbers[i], fill, missing)
  {
    seq(|rowNumbers|, i requires 0 <= i < |rowNumbers| => PickedCell(values, rowNumbers[i], fill, missing))
  }

  /** What a row number picks: 1..n the row itself, -n..-1 counted back from
    * the end, 0 and numbers past the end nothing. */
  lemma PickedCellCases<T>(values: seq<T>, rowNumber: int, fill: T, missing: T)
    ensures 1 <= rowNumber <= |values| ==> PickedCell(values, rowNumber, fill, missing) == values[rowNumber - 1]
    ensures -|values| <= rowNumber <= -1 ==>
      PickedCell(values, rowNumber, fill, missing) == values[|values| + rowNumber]
    ensures rowNumber == 0 || rowNumber > |values| ==> PickedCell(values, rowNumber, fill, missing) == fill
    ensures rowNumber < -|values| ==> PickedCell(values, rowNumber, fill, missing) == missing
  {
  }

  /** Picking rows 1..n in order copies the column. */
  lemma {:induction false} PickingEveryRow<T>(values: seq<T>, fill: T, missing: T)
    ensures Picked(values, seq(|values|, i => i + 1), fill, missing) == values
  {
    var rows := seq(|values|, i => i + 1);
    forall i | 0 <= i < |values|
      ensures Picked(values, rows, fill, missing)[i] == values[i]
    {
      PickedCellCases(values, rows[i], fill, missing);
    }
  }

  /** The copy loop of the row-number constructor. */
  method PickRows<T>(values: seq<T>, rowNumbers: seq<int>, fill: T, missing: T) returns (r: seq<T>)
    ensures r == Picked(values, rowNumbers, fill, missing)
  {
    var a := new T[|rowNumbers|](_ => fill);
    var count := |values|;
    for i := 1 to |rowNumbers| + 1
      invariant forall k :: 0 <= k < i - 1 ==> a[k] == PickedCell(values, rowNumbers[k], fill, missing)
      invariant forall k :: i - 1 <= k < a.Length ==> a[k] == fill
    {
      var rowIndex := rowNumbers[i - 1] - 1;
      if rowIndex < 0 {
        rowIndex := count + rowIndex + 1;
      }
      if rowIndex < count {
        a[i - 1] := if rowIndex >= 0 then values[rowIndex] else missing;
      }
    }
    r := a[..];
  }

  /** The column a row-number selection makes: the scalar 0 keeps the whole
    * column. */
  function PickedValue(v: ColumnValue, rowNumbers: seq<int>, missing: int): (r: ColumnValue)
    ensures rowNumbers == [0] ==> r == v
    ensures rowNumbers != [0] ==> r.Count() == |rowNumbers|
    ensures r.Numbers? <==> v.Numbers?
    ensures r.Numbers? ==> r.dims == v.dims
  {
    if rowNumbers == [0] then v
    else match v
      case Numbers(numbers, dims) => Numbers(Picked(numbers, rowNumbers, 0, missing), dims)
      case Strings(strings) => Strings(Picked(strings, rowNumbers, "", ""))
  }

  /** The row kept for a listed 0-based position: undefined before the start;
    * past the end `pastEnd` (the number column reads undefined, the string
    * column ''). */
  function KeptCell<T>(values: seq<T>, position: int, pastEnd: T, missing: T): T
  {
    if position >= |values| then pastEnd else if position < 0 then missing else values[position]
  }

  function Kept<T>(values: seq<T>, positions: seq<int>, pastEnd: T, missing: T): (r: seq<T>)
    ensures |r| == |positions|
    ensures forall i :: 0 <= i < |r| && 0 <= positions[i] < |values| ==> r[i] == values[positions[i]]
  {
    seq(|positions|, i requires 0 <= i < |positions| => KeptCell(values, positions[i], pastEnd, missing))
  }

  /** The copy loop of `keepRowNumbers`. */
  method KeepRows<T>(values: seq<T>, positions: seq<int>, pastEnd: T, missing: T) returns (r: seq<T>)
    ensures r == Kept(values, positions, pastEnd, missing)
  {
    var a := new T[|positions|](_ => pastEnd);
    for i := 0 to |positions|
      invariant forall k :: 0 <= k < i ==> a[k] == KeptCell(values, positions[k], pastEnd, missing)
    {
      var p := positions[i];
      a[i] := if p >= |values| then pastEnd else if p < 0 then missing else values[p];
    }
    r := a[..];
  }

  /** Keeping positions 0..n-1 in order keeps the column. */
  lemma {:induction false} KeepingEveryRow<T>(values: seq<T>, pastEnd: T, missing: T)
    ensures Kept(values, seq(|values|, i => i), pastEnd, missing) == values
  {
    var positions := seq(|values|, i => i);
    assert forall i :: 0 <= i < |values| ==> positions[i] == i;
  }

  /** The rows `updateAllRows` writes: row i repeats source value
    * i mod period; a source value that does not exist reads undefined. */
  function Repeated<T>(values: seq<T>, period: nat, n: nat, missing: T): (r: seq<T>)
    requires period > 0
    ensures |r| == n
    ensures forall i :: 0 <= i < n && i % period < |values| ==> r[i] == values[i % period]
    ensures forall i :: 0 <= i < n && i % period >= |values| ==> r[i] == missing
  {
    seq(n, i requires 0 <= i < n => if i % period < |values| then values[i % period] else missing)
  }

  /** Repeating is periodic: row i + period equals row i. */
  lemma RepeatedIsPeriodic<T>(values: seq<T>, period: nat, n: nat, missing: T, i: nat)
    requires period > 0 && i + period < n
    ensures Repeated(values, period, n, missing)[i + period] == Repeated(values, period, n, missing)[i]
  {
    assert (i + period) % period == i % period by { ModShift(i, period); }
  }

  lemma ModShift(i: nat, period: nat)
    requires period > 0
    ensures (i + period) % period == i % period
  {
    DivModUnique(i + period, period, i / period + 1, i % period);
  }

  /** Repeating a source over its own length copies it. */
  lemma RepeatedOwnLength<T>(values: seq<T>, missing: T)
    requires |values| > 0
    ensures Repeated(values, |values|, |values|, missing) == values
  {
    var r := Repeated(values, |values|, |values|, missing);
    forall i | 0 <= i < |values| ensures r[i] == values[i] {
      assert i % |values| == i;
    }
  }

  /** The first column of a string value, top to bottom. */
  function FirstColumn(m: Matrix<string>): (r: seq<string>)
    requires m.Valid() && m.columnCount > 0
    ensures |r| == m.rowCount
    ensures forall i :: 0 <= i < m.rowCount ==> r[i] == At(m, i, 0)
  {
    seq(m.rowCount, i requires 0 <= i < m.rowCount => At(m, i, 0))
  }

  /** The copy loop of `updateAllRows`. */
  method RepeatRows<T>(values: seq<T>, period: nat, n: nat, missing: T) returns (r: seq<T>)
    requires period > 0
    ensures r == Repeated(values, period, n, missing)
  {
    var a := new T[n](_ => missing);
    for i := 0 to n
      invariant forall k :: 0 <= k < i ==> a[k] == Repeated(values, period, n, missing)[k]
      invariant forall k :: i <= k < n ==> a[k] == missing
    {
      var j := i % period;
      if j < |values| {
        a[i] := values[j];
      }
    }
    r := a[..];
  }

  // ------------------------------------------------- whole-operation results

  function OldStrings(value: Option<ColumnValue>): seq<string>
  {
    if value.Some? && value.value.Strings? then value.value.strings else []
  }

  function OldNumbers(value: Option<ColumnValue>): seq<int>
  {
    if value.Some? && value.value.Numbers? then value.value.numbers else []
  }

  function RowCountOf(value: Option<ColumnValue>): nat
  {
    if value.Some? then value.value.Count() else 0
  }

  /** Where `addRow` puts the new row: 0 and numbers past the end append. */
  function InsertPosition(value: Option<ColumnValue>, rowNumber: int): int
  {
    var total := RowCountOf(value) + 1;
    if rowNumber > total || rowNumber == 0 then total else rowNumber
  }

  /** Whether `addRow` builds a string column: the column's own kind, or the
    * inserted value's kind for a column without a value. */
  predicate InsertsString(value: Option<ColumnValue>, insert: Option<Insert>)
  {
    if value.Some? then value.value.Strings? else insert.Some? && insert.value.StringInsert?
  }

  /** The dimensions a numeric `addRow` starts from: the column's, the display
    * unit's, the inserted value's, or none. */
  function StartDims(value: Option<ColumnValue>, displayDims: Option<seq<int>>, insert: Option<Insert>): Option<seq<int>>
  {
    if value.Some? && value.value.Numbers? then Some(value.value.dims)
    else if displayDims.Some? then displayDims
    else if insert.Some? && insert.value.NumberInsert? then Some(insert.value.dims)
    else None
  }

  predicate UnitMismatch(value: Option<ColumnValue>, displayDims: Option<seq<int>>, insert: Option<Insert>)
  {
    insert.Some? && insert.value.NumberInsert? && StartDims(value, displayDims, insert) != Some(insert.value.dims)
  }

  /** The column value and display dimensions after `addRow`. */
  function AddRowResult(value: Option<ColumnValue>, displayDims: Option<seq<int>>, rowNumber: int,
                        insert: Option<Insert>, missing: int): (r: Result<(ColumnValue, Option<seq<int>>)>)
    ensures r.Err? <==> !InsertsString(value, insert) && UnitMismatch(value, displayDims, insert) && RowCountOf(value) > 0
    ensures r.Err? ==> r.error == "mmcmd:tableAddRowUnitMismatch"
    ensures r.Ok? ==> r.value.0.Count() == RowCountOf(value) + 1 && (r.value.0.Strings? <==> InsertsString(value, insert))
  {
    var row := InsertPosition(value, rowNumber);
    if InsertsString(value, insert) then StringRowResult(value, displayDims, row, insert)
    else NumberRowResult(value, displayDims, row, insert, missing)
  }

  /** `addRow` on a string column: the inserted value's text at the row. A
    * row before the start passes the bounds check, which refuses only 0
    * and rows past the end: the copy loop then puts an empty first row
    * before the old ones, and the text goes to a negative index, which is
    * no cell. */
  function StringRowResult(value: Option<ColumnValue>, displayDims: Option<seq<int>>, row: int,
                           insert: Option<Insert>): Result<(ColumnValue, Option<seq<int>>)>
    requires row <= |OldStrings(value)| + 1
  {
    if row < 1 then Ok((Strings([""] + OldStrings(value)), displayDims))
    else Ok((Strings(Inserted(OldStrings(value), row, if insert.Some? then insert.value.text else "")), displayDims))
  }

  /** `addRow` on a numeric column: the inserted value's first number at the
    * row; an empty column adopts the inserted dimensions, a non-empty one
    * refuses different ones. */
  function NumberRowResult(value: Option<ColumnValue>, displayDims: Option<seq<int>>, row: int,
                           insert: Option<Insert>, missing: int): Result<(ColumnValue, Option<seq<int>>)>
  {
    if UnitMismatch(value, displayDims, insert) && RowCountOf(value) > 0 then
      Err("mmcmd:tableAddRowUnitMismatch")
    else
      var dims := StartDims(value, displayDims, insert);
      var newDims := if UnitMismatch(value, displayDims, insert) then insert.value.dims
                     else if dims.Some? then dims.value else Zero();
      var x := if insert.Some? && insert.value.NumberInsert? then insert.value.first else 0;
      var olds := OldNumbers(value);
      var cells := if 1 <= row <= |olds| + 1 then Inserted(olds, row, x) else [missing] + olds;
      Ok((Numbers(cells, newDims), if UnitMismatch(value, displayDims, insert) then Some(insert.value.dims) else displayDims))
  }

  /** The column value after `removeRowNumber`; a row number past the end
    * changes nothing. */
  function RemoveRowResult(value: Option<ColumnValue>, rowNumber: int): (r: Result<Option<ColumnValue>>)
    ensures value.Some? && r.Ok? ==> r.value.Some?
  {
    if value.None? || rowNumber > value.value.Count() then Ok(value)
    else if value.value.Count() == 0 then Err("invalidArrayLength")
    else if rowNumber >= 1 then
      match value.value
      case Numbers(numbers, dims) => Ok(Some(Numbers(Removed(numbers, rowNumber), dims)))
      case Strings(strings) => Ok(Some(Strings(Removed(strings, rowNumber))))
    else if value.value.Strings? then Err("valueMatrixBoundsError")
    else Ok(Some(Numbers(value.value.numbers[1..], value.value.dims)))
  }

  /** The column value after `keepRowNumbers` as evidently intended: row i
    * holds the row at 0-based position positions[i]. */
  function KeepResult(value: Option<ColumnValue>, positions: seq<int>, missing: int): (r: Option<ColumnValue>)
    ensures r.None? <==> value.None?
    ensures r.Some? ==> r.value.Count() == |positions| && (r.value.Strings? <==> value.value.Strings?)
    ensures r.Some? && r.value.Numbers? ==> r.value.dims == value.value.dims
  {
    match value
    case None => None
    case Some(Numbers(numbers, dims)) => Some(Numbers(Kept(numbers, positions, missing, missing), dims))
    case Some(Strings(strings)) => Some(Strings(Kept(strings, positions, "", "")))
  }

  /** `keepRowNumbers` as written: the string branch writes row i through
    * the 1-based setter with the 0-based i, so the bounds check refuses the
    * first kept row. */
  function KeepResultAsWritten(value: Option<ColumnValue>, positions: seq<int>, missing: int): (r: Result<Option<ColumnValue>>)
    ensures r.Err? <==> value.Some? && value.value.Strings? && |positions| > 0
    ensures r.Ok? ==> r.value == KeepResult(value, positions, missing)
  {
    if value.Some? && value.value.Strings? && |positions| > 0 then Err("valueMatrixBoundsError")
    else Ok(KeepResult(value, positions, missing))
  }

  /** The column value after `updateAllRows(n, source)`. */
  function UpdateAllRowsResult(value: Option<ColumnValue>, n: nat, source: Option<Source>, missing: int): Result<Option<ColumnValue>>
    requires source.Some? && source.value.NumberSource? && n > 0 ==> source.value.n.m.rowCount > 0
    requires source.Some? && source.value.StringSource? && n > 0 ==> source.value.s.Valid() && source.value.s.rowCount > 0
  {
    if source.None? || n == 0 then Ok(value)
    else match source.value
      case NumberSource(v) => Ok(Some(Numbers(Repeated(v.m.cells, v.m.rowCount, n, missing), v.dims)))
      case StringSource(m) =>
        if m.columnCount == 0 then Err("valueMatrixBoundsError")
        else Ok(Some(Strings(Repeated(FirstColumn(m), m.rowCount, n, ""))))
      case OtherSource => Ok(value)
  }

  /** An added row makes a column one row longer. */
  lemma AddRowGrowsByOne(value: Option<ColumnValue>, displayDims: Option<seq<int>>, rowNumber: int,
                         insert: Option<Insert>, missing: int)
    requires AddRowResult(value, displayDims, rowNumber, insert, missing).Ok?
    ensures AddRowResult(value, displayDims, rowNumber, insert, missing).value.0.Count() == RowCountOf(value) + 1
  {
  }

  /** A column with rows keeps its units: a number of other dimensions is
    * refused, and a row that is accepted leaves the dimensions alone. */
  lemma AddRowKeepsUnits(numbers: seq<int>, dims: seq<int>, displayDims: Option<seq<int>>, rowNumber: int,
                         insert: Insert, missing: int)
    requires |numbers| > 0 && insert.NumberInsert?
    ensures var r := AddRowResult(Some(Numbers(numbers, dims)), displayDims, rowNumber, Some(insert), missing);
      (r.Err? <==> insert.dims != dims)
      && (r.Err? ==> r.error == "mmcmd:tableAddRowUnitMismatch")
      && (r.Ok? ==> r.value.0.Numbers? && r.value.0.dims == dims && r.value.1 == displayDims)
  {
  }

  /** Removing, at the row `addRow` chose, the row it added gives back the
    * column; a row number before the start puts a new row first, and on a
    * numeric column removing before the start drops the first row again,
    * while a string column refuses that removal. */
  lemma RemoveUndoesAddRow(value: ColumnValue, displayDims: Option<seq<int>>, rowNumber: int,
                           insert: Option<Insert>, missing: int)
    requires value.Count() > 0
    requires AddRowResult(Some(value), displayDims, rowNumber, insert, missing).Ok?
    ensures value.Numbers? || InsertPosition(Some(value), rowNumber) >= 1 ==>
              RemoveRowResult(Some(AddRowResult(Some(value), displayDims, rowNumber, insert, missing).value.0),
                              InsertPosition(Some(value), rowNumber)) == Ok(Some(value))
    ensures value.Strings? && InsertPosition(Some(value), rowNumber) < 1 ==>
              RemoveRowResult(Some(AddRowResult(Some(value), displayDims, rowNumber, insert, missing).value.0),
                              InsertPosition(Some(value), rowNumber)) == Err("valueMatrixBoundsError")
  {
    var row := InsertPosition(Some(value), rowNumber);
    match value
    case Strings(strings) =>
      if 1 <= row {
        RemoveUndoesInsert(strings, row, if insert.Some? then insert.value.text else "");
      }
    case Numbers(numbers, dims) =>
      var x := if insert.Some? && insert.value.NumberInsert? then insert.value.first else 0;
      if 1 <= row {
        RemoveUndoesInsert(numbers, row, x);
      } else {
        assert ([missing] + numbers)[1..] == numbers;
      }
  }

  /** A removed row in range makes a column one row shorter and keeps its
    * kind and units. */
  lemma RemoveRowShrinksByOne(value: ColumnValue, rowNumber: int)
    requires value.Count() > 0 && rowNumber <= value.Count()
    requires value.Numbers? || rowNumber >= 1
    ensures var r := RemoveRowResult(Some(value), rowNumber);
      r.Ok? && r.value.Some? && r.value.value.Count() == value.Count() - 1
      && (r.value.value.Numbers? <==> value.Numbers?)
      && (value.Numbers? ==> r.value.value.dims == value.dims)
  {
  }

  /** `updateAllRows` writes exactly `n` rows of the source's kind. */
  lemma UpdateAllRowsCount(value: Option<ColumnValue>, n: nat, source: Source, missing: int)
    requires n > 0
    requires source.NumberSource? ==> source.n.m.rowCount > 0
    requires source.StringSource? ==> source.s.Valid() && source.s.rowCount > 0 && source.s.columnCount > 0
    ensures var r := UpdateAllRowsResult(value, n, Some(source), missing);
      (source.OtherSource? ==> r == Ok(value))
      && (source.NumberSource? ==> (r.Ok? && r.value.Some? && r.value.value.Numbers? && r.value.value.Count() == n
            && r.value.value.dims == source.n.dims))
      && (source.StringSource? ==> r.Ok? && r.value.Some? && r.value.value.Strings? && r.value.value.Count() == n)
  {
  }

  /** The string branch of `keepRowNumbers` as written refuses to keep even
    * the first row of a one-row column, where the intended result is that
    * column unchanged. */
  lemma KeepRowNumbersCounterexample()
    ensures KeepResultAsWritten(Some(Strings(["a"])), [0], 0) == Err("valueMatrixBoundsError")
    ensures KeepResult(Some(Strings(["a"])), [0], 0) == Some(Strings(["a"]))
  {
    KeepingEveryRow(["a"], "", "");
    assert seq(1, i => i) == [0];
  }

  /** Keeping every position in order keeps a column as it is. */
  lemma KeepResultEveryRow(value: ColumnValue, missing: int)
    ensures KeepResult(Some(value), seq(value.Count(), i => i), missing) == Some(value)
  {
    match value
    case Numbers(numbers, dims) => KeepingEveryRow(numbers, missing, missing);
    case Strings(strings) => KeepingEveryRow(strings, "", "");
  }

  // ---------------------------------------------- the operations on values

  /** `addRow` on a column value: the copy loops and the unit rules. */
  method AddRowTo(value: Option<ColumnValue>, displayDims: Option<seq<int>>, rowNumber: int,
                  insert: Option<Insert>, missing: int) returns (r: Result<(ColumnValue, Option<seq<int>>)>)
    ensures r == AddRowResult(value, displayDims, rowNumber, insert, missing)
  {
    var total := RowCountOf(value) + 1;
    var row := rowNumber;
    if row > total || row == 0 {
      row := total;
    }
    var isString := if value.Some? then value.value.Strings? else insert.Some? && insert.value.StringInsert?;
    if isString {
      r := AddStringRow(value, displayDims, row, insert);
    } else {
      r := AddNumberRow(value, displayDims, row, insert, missing);
    }
  }

  /** The string branch of `addRow`: the inserted text copied in at the row. */
  method AddStringRow(value: Option<ColumnValue>, displayDims: Option<seq<int>>, row: int,
                      insert: Option<Insert>) returns (r: Result<(ColumnValue, Option<seq<int>>)>)
    requires row <= |OldStrings(value)| + 1
    ensures r == StringRowResult(value, displayDims, row, insert)
  {
    if row < 1 {
      return Ok((Strings([""] + OldStrings(value)), displayDims));
    }
    var text := if insert.Some? then insert.value.text else "";
    var cells := InsertRow(OldStrings(value), row, text, "");
    r := Ok((Strings(cells), displayDims));
  }

  /** The numeric branch of `addRow`: the unit check, then the first number
    * of the inserted value copied in at the row. */
  method AddNumberRow(value: Option<ColumnValue>, displayDims: Option<seq<int>>, row: int,
                      insert: Option<Insert>, missing: int) returns (r: Result<(ColumnValue, Option<seq<int>>)>)
    requires row <= |OldNumbers(value)| + 1
    ensures r == NumberRowResult(value, displayDims, row, insert, missing)
  {
    var dims := StartDims(value, displayDims, insert);
    var newDisplay := displayDims;
    if insert.Some? && insert.value.NumberInsert? && dims != Some(insert.value.dims) {
      if RowCountOf(value) == 0 {
        newDisplay := Some(insert.value.dims);
        dims := Some(insert.value.dims);
      } else {
        return Err("mmcmd:tableAddRowUnitMismatch");
      }
    }
    var x := if insert.Some? && insert.value.NumberInsert? then insert.value.first else 0;
    var cells;
    if row >= 1 {
      cells := InsertRow(OldNumbers(value), row, x, 0);
    } else {
      cells := [missing] + OldNumbers(value);
    }
    r := Ok((Numbers(cells, if dims.Some? then dims.value else Zero()), newDisplay));
  }

  /** `removeRowNumber` on a column value. */
  method RemoveRowFrom(value: Option<ColumnValue>, rowNumber: int) returns (r: Result<Option<ColumnValue>>)
    ensures r == RemoveRowResult(value, rowNumber)
  {
    if value.None? || rowNumber > value.value.Count() {
      return Ok(value);
    }
    if value.value.Count() == 0 {
      return Err("invalidArrayLength");
    }
    if rowNumber < 1 {
      if value.value.Strings? {
        return Err("valueMatrixBoundsError");
      }
      return Ok(Some(Numbers(value.value.numbers[1..], value.value.dims)));
    }
    match value.value {
      case Numbers(numbers, dims) =>
        var cells := RemoveRow(numbers, rowNumber, 0);
        r := Ok(Some(Numbers(cells, dims)));
      case Strings(strings) =>
        var cells := RemoveRow(strings, rowNumber, "");
        r := Ok(Some(Strings(cells)));
    }
  }

  /** `keepRowNumbers` on a column value, as evidently intended. */
  method KeepRowsOf(value: Option<ColumnValue>, positions: seq<int>, missing: int) returns (r: Option<ColumnValue>)
    ensures r == KeepResult(value, positions, missing)
  {
    match value {
      case None => r := None;
      case Some(Numbers(numbers, dims)) =>
        var cells := KeepRows(numbers, positions, missing, missing);
        r := Some(Numbers(cells, dims));
      case Some(Strings(strings)) =>
        var cells := KeepRows(strings, positions, "", "");
        r := Some(Strings(cells));
    }
  }

  /** `updateAllRows` on a column value. */
  method UpdateRowsOf(value: Option<ColumnValue>, n: nat, source: Option<Source>, missing: int) returns (r: Result<Option<ColumnValue>>)
    requires source.Some? && source.value.NumberSource? && n > 0 ==> source.value.n.m.rowCount > 0
    requires source.Some? && source.value.StringSource? && n > 0 ==> source.value.s.Valid() && source.value.s.rowCount > 0
    ensures r == UpdateAllRowsResult(value, n, source, missing)
  {
    if source.None? || n == 0 {
      return Ok(value);
    }
    match source.value {
      case NumberSource(v) =>
        var cells := RepeatRows(v.m.cells, v.m.rowCount, n, missing);
        r := Ok(Some(Numbers(cells, v.dims)));
      case StringSource(m) =>
        if m.columnCount == 0 {
          return Err("valueMatrixBoundsError");
        }
        var cells := RepeatRows(FirstColumn(m), m.rowCount, n, "");
        r := Ok(Some(Strings(cells)));
      case OtherSource =>
        r := Ok(value);
    }
  }

  /** The row-number copy of a column value. */
  method PickRowsOf(v: ColumnValue, rowNumbers: seq<int>, missing: int) returns (r: ColumnValue)
    ensures r == PickedValue(v, rowNumbers, missing)
  {
    if rowNumbers == [0] {
      return v;
    }
    match v {
      case Strings(strings) =>
        var cells := PickRows(strings, rowNumbers, "", "");
        r := Strings(cells);
      case Numbers(numbers, dims) =>
        var cells := PickRows(numbers, rowNumbers, 0, missing);
        r := Numbers(cells, dims);
    }
  }

  // ------------------------------------------------------------- the column

  class TableValueColumn {
    const name: string
    var value: Option<ColumnValue>
    /** The dimensions of the display unit, when the column has one. */
    var displayDims: Option<seq<int>>

    /** A column with a name and a value (for no value, an empty value of the
      * display unit's kind, already resolved by the caller). */
    constructor (name: string, value: Option<ColumnValue>, displayDims: Option<seq<int>>)
      ensures this.name == name && this.value == value && this.displayDims == displayDims
    {
      this.name := name;
      this.value := value;
      this.displayDims := displayDims;
    }

    /** The row-number constructor: a copy of `column` holding just the listed
      * rows. */
    constructor FromRowNumbers(rowNumbers: seq<int>, column: TableValueColumn, missing: int)
      requires column.value.Some?
      ensures name == column.name && displayDims == column.displayDims
      ensures value == Some(PickedValue(column.value.value, rowNumbers, missing))
    {
      name := column.name;
      displayDims := column.displayDims;
      var v := PickRowsOf(column.value.value, rowNumbers, missing);
      value := Some(v);
    }

    function RowCount(): (n: nat)
      reads this
      ensures value.None? ==> n == 0
    {
      RowCountOf(value)
    }

    /** `addRow`: a new row at `rowNumber` holding the inserted value (its
      * string for a string column, its first number for a numeric one). */
    method AddRow(rowNumber: int, insert: Option<Insert>, missing: int) returns (r: Result<()>)
      modifies this
      ensures var a := AddRowResult(old(value), old(displayDims), rowNumber, insert, missing);
        (r.Ok? <==> a.Ok?)
        && (a.Ok? ==> value == Some(a.value.0) && displayDims == a.value.1)
        && (a.Err? ==> r.error == a.error && value == old(value) && displayDims == old(displayDims))
    {
      var a := AddRowTo(value, displayDims, rowNumber, insert, missing);
      if a.Err? {
        return Err(a.error);
      }
      value := Some(a.value.0);
      displayDims := a.value.1;
      r := Ok(());
    }

    /** `removeRowNumber`. */
    method RemoveRowNumber(rowNumber: int) returns (r: Result<()>)
      modifies this
      ensures var a := RemoveRowResult(old(value), rowNumber);
        (r.Ok? <==> a.Ok?)
        && (a.Ok? ==> value == a.value)
        && (a.Err? ==> r.error == a.error && value == old(value))
      ensures displayDims == old(displayDims)
    {
      var a := RemoveRowFrom(value, rowNumber);
      if a.Err? {
        return Err(a.error);
      }
      value := a.value;
      r := Ok(());
    }

    /** `keepRowNumbers` as written. */
    method KeepRowNumbersAsWritten(positions: seq<int>, missing: int) returns (r: Result<()>)
      modifies this
      ensures var a := KeepResultAsWritten(old(value), positions, missing);
        (r.Ok? <==> a.Ok?) && (a.Ok? ==> value == a.value) && (a.Err? ==> value == old(value))
      ensures displayDims == old(displayDims)
    {
      if value.Some? && value.value.Strings? && |positions| > 0 {
        return Err("valueMatrixBoundsError");
      }
      value := KeepRowsOf(value, positions, missing);
      r := Ok(());
    }

    /** `keepRowNumbers` as evidently intended: the kept rows in the listed
      * order. */
    method KeepRowNumbers(positions: seq<int>, missing: int)
      modifies this
      ensures value == KeepResult(old(value), positions, missing)
      ensures displayDims == old(displayDims)
    {
      value := KeepRowsOf(value, positions, missing);
    }

    /** `updateAllRows`: n rows repeating the source's rows. */
    method UpdateAllRows(n: nat, source: Option<Source>, missing: int) returns (r: Result<()>)
      requires source.Some? && source.value.NumberSource? && n > 0 ==> source.value.n.m.rowCount > 0
      requires source.Some? && source.value.StringSource? && n > 0 ==> source.value.s.Valid() && source.value.s.rowCount > 0
      modifies this
      ensures var a := UpdateAllRowsResult(old(value), n, source, missing);
        (r.Ok? <==> a.Ok?) && (a.Ok? ==> value == a.value) && (a.Err? ==> value == old(value))
      ensures displayDims == old(displayDims)
    {
      var a := UpdateRowsOf(value, n, source, missing);
      if a.Err? {
        return Err(a.error);
      }
      value := a.value;
      r := Ok(());
    }
  }

  // -------------------------------------------------------------- the table

  /** The case-insensitive name dictionary: lower-cased name to column; of two
    * columns whose names differ only in case the later one is kept. */
  function NameDictionary(columns: seq<TableValueColumn>): (d: map<string, TableValueColumn>)
    ensures forall c :: c in columns ==> Lower(c.name) in d
    ensures forall k :: k in d ==> d[k] in columns && Lower(d[k].name) == k
    decreases |columns|
  {
    if columns == [] then map[]
    else
      var prefix := columns[..|columns| - 1];
      assert columns == prefix + [columns[|columns| - 1]];
      NameDictionary(prefix)[Lower(columns[|columns| - 1].name) := columns[|columns| - 1]]
  }

  /** The loop that fills `_nameDictionary`. */
  method MakeNameDictionary(columns: seq<TableValueColumn>) returns (d: map<string, TableValueColumn>)
    ensures d == NameDictionary(columns)
  {
    d := map[];
    for i := 0 to |columns|
      invariant d == NameDictionary(columns[..i])
    {
      ghost var next := columns[..i + 1];
      assert next[..|next| - 1] == columns[..i] && next[|next| - 1] == columns[i];
      d := d[Lower(columns[i].name) := columns[i]];
    }
    assert columns[..|columns|] == columns;
  }

  /** The columns' values, in column order. */
  function ValuesOf(columns: seq<TableValueColumn>): (r: seq<Option<ColumnValue>>)
    reads set c | c in columns
    ensures |r| == |columns|
    ensures forall k :: 0 <= k < |columns| ==> r[k] == columns[k].value
    decreases |columns|
  {
    if columns == [] then []
    else ValuesOf(columns[..|columns| - 1]) + [columns[|columns| - 1].value]
  }

  /** The numeric column values, in column order. */
  function Numeric(values: seq<Option<ColumnValue>>): (r: seq<ColumnValue>)
    ensures forall k :: 0 <= k < |r| ==> r[k].Numbers?
    ensures |r| <= |values|
    decreases |values|
  {
    if values == [] then []
    else
      var last := values[|values| - 1];
      Numeric(values[..|values| - 1]) + (if last.Some? && last.value.Numbers? then [last.value] else [])
  }

  /** The numeric columns of a prefix are a prefix of the numeric columns. */
  lemma {:induction false} NumericPrefix(values: seq<Option<ColumnValue>>, i: nat)
    requires i <= |values|
    ensures Numeric(values[..i]) <= Numeric(values)
    decreases |values| - i
  {
    if i < |values| {
      NumericPrefix(values, i + 1);
      assert values[..i + 1][..i] == values[..i];
    } else {
      assert values[..i] == values;
    }
  }

  predicate SameNumericDims(numeric: seq<ColumnValue>)
    requires forall k :: 0 <= k < |numeric| ==> numeric[k].Numbers?
  {
    forall k :: 0 <= k < |numeric| ==> numeric[k].dims == numeric[0].dims
  }

  /** The first loop of `numberValue`: counts the numeric columns and
    * refuses numeric columns whose dimensions differ from the first one's. */
  method CheckNumericColumns(values: seq<Option<ColumnValue>>) returns (r: Result<nat>)
    ensures r.Err? <==> !SameNumericDims(Numeric(values))
    ensures r.Err? ==> r.error == "mmcmd:tableNumberValueUnits"
    ensures r.Ok? ==> r.value == |Numeric(values)|
  {
    var numericCount := 0;
    var firstDims: Option<seq<int>> := None;
    for i := 0 to |values|
      invariant numericCount == |Numeric(values[..i])|
      invariant firstDims.None? <==> numericCount == 0
      invariant firstDims.Some? ==> firstDims.value == Numeric(values[..i])[0].dims
      invariant SameNumericDims(Numeric(values[..i]))
    {
      assert values[..i + 1][..i] == values[..i];
      var v := values[i];
      if v.Some? && v.value.Numbers? {
        assert Numeric(values[..i + 1]) == Numeric(values[..i]) + [v.value];
        if firstDims.Some? && v.value.dims != firstDims.value {
          NumericPrefix(values, i + 1);
          assert Numeric(values)[numericCount] == v.value;
          return Err("mmcmd:tableNumberValueUnits");
        }
        if firstDims.None? {
          firstDims := Some(v.value.dims);
        }
        numericCount := numericCount + 1;
      }
    }
    assert values[..|values|] == values;
    r := Ok(numericCount);
  }

  /** The fill loops of `numberValue`: row by row, the numeric columns'
    * values side by side; a numeric column shorter than the table fails the
    * bounds check. */
  method FillNumericRows(numeric: seq<ColumnValue>, rowCount: nat) returns (r: Result<Matrix<int>>)
    requires forall k :: 0 <= k < |numeric| ==> numeric[k].Numbers?
    ensures r.Err? <==> exists k :: 0 <= k < |numeric| && |numeric[k].numbers| < rowCount
    ensures r.Err? ==> r.error == "valueMatrixBoundsError"
    ensures r.Ok? ==> r.value.Valid() && r.value.rowCount == rowCount && r.value.columnCount == |numeric|
    ensures r.Ok? ==> forall i: nat, k: nat :: i < rowCount && k < |numeric| ==> At(r.value, i, k) == numeric[k].numbers[i]
  {
    var count := |numeric|;
    var cells := new int[rowCount * count];
    var row := 0;
    while row < rowCount
      invariant 0 <= row <= rowCount
      invariant forall k :: 0 <= k < count ==> |numeric[k].numbers| >= row
      invariant forall i: nat, k: nat :: i < row && k < count ==>
        Flat(i, k, count) < cells.Length && cells[Flat(i, k, count)] == numeric[k].numbers[i]
    {
      var ok := FillNumericRow(cells, numeric, rowCount, row);
      if !ok {
        return Err("valueMatrixBoundsError");
      }
      row := row + 1;
    }
    r := Ok(Matrix(rowCount, count, cells[..]));
    forall i: nat, k: nat | i < rowCount && k < count
      ensures At(r.value, i, k) == numeric[k].numbers[i]
    {
      assert At(r.value, i, k) == cells[Flat(i, k, count)];
    }
  }

  /** One pass of the inner fill loop: row `row` of every numeric column
    * goes into row `row` of the result, or the bounds check fails when a
    * column is too short. Every other row is left as it was. */
  method FillNumericRow(cells: array<int>, numeric: seq<ColumnValue>, rowCount: nat, row: nat) returns (ok: bool)
    requires forall k :: 0 <= k < |numeric| ==> numeric[k].Numbers?
    requires row < rowCount && cells.Length == rowCount * |numeric|
    modifies cells
    ensures ok <==> forall k :: 0 <= k < |numeric| ==> |numeric[k].numbers| > row
    ensures ok ==> forall k :: 0 <= k < |numeric| ==>
      Flat(row, k, |numeric|) < cells.Length && cells[Flat(row, k, |numeric|)] == numeric[k].numbers[row]
    ensures forall i: nat, k: nat :: i < rowCount && i != row && k < |numeric| ==>
      Flat(i, k, |numeric|) < cells.Length && cells[Flat(i, k, |numeric|)] == old(cells[Flat(i, k, |numeric|)])
  {
    var count := |numeric|;
    forall i: nat, k: nat | i < rowCount && k < count
      ensures Flat(i, k, count) < cells.Length
    {
      FlatInRange(i, k, rowCount, count);
    }
    var k := 0;
    while k < count
      invariant 0 <= k <= count
      invariant forall k' :: 0 <= k' < k ==> |numeric[k'].numbers| > row
      invariant forall k' :: 0 <= k' < k ==> cells[Flat(row, k', count)] == numeric[k'].numbers[row]
      invariant forall i: nat, k': nat :: i < rowCount && i != row && k' < count ==>
        cells[Flat(i, k', count)] == old(cells[Flat(i, k', count)])
    {
      if row >= |numeric[k].numbers| {
        return false;
      }
      SlotsDistinct(row, k, rowCount, count);
      cells[Flat(row, k, count)] := numeric[k].numbers[row];
      k := k + 1;
    }
    ok := true;
  }

  /** `numberValue` over the table's column values: the numeric columns side
    * by side as one number value, string columns skipped; nothing when no
    * column is numeric. */
  method NumberValueOf(values: seq<Option<ColumnValue>>, rowCount: nat)
    returns (r: Result<Option<NumberValues.NumberValue>>)
    ensures var numeric := Numeric(values);
      (|numeric| == 0 ==> r == Ok(None))
      && (|numeric| > 0 && !SameNumericDims(numeric) ==> r == Err("mmcmd:tableNumberValueUnits"))
      && ((|numeric| > 0 && SameNumericDims(numeric) && exists k :: 0 <= k < |numeric| && |numeric[k].numbers| < rowCount)
          ==> r == Err("valueMatrixBoundsError"))
    ensures var numeric := Numeric(values);
      |numeric| > 0 && SameNumericDims(numeric) && (forall k :: 0 <= k < |numeric| ==> |numeric[k].numbers| >= rowCount)
      ==> (r.Ok? && r.value.Some? && r.value.value.dims == numeric[0].dims && r.value.value.m.Valid()
           && r.value.value.m.rowCount == rowCount && r.value.value.m.columnCount == |numeric|
           && forall i: nat, k: nat :: i < rowCount && k < |numeric| ==> At(r.value.value.m, i, k) == numeric[k].numbers[i])
  {
    var checked := CheckNumericColumns(values);
    if checked.Err? {
      return Err(checked.error);
    }
    var numeric := Numeric(values);
    if |numeric| == 0 {
      return Ok(None);
    }
    var m := FillNumericRows(numeric, rowCount);
    if m.Err? {
      return Err(m.error);
    }
    r := Ok(Some(NumberValues.NumberValue(m.value, numeric[0].dims)));
  }

  /** What indexing one column by `rowIndex` gives: the column as a
    * one-column matrix indexed like any matrix, keeping its kind (and, for
    * numbers, its dimensions); `r` is that selection or the bounds error. */
  ghost predicate SelectedFromColumn(c: ColumnValue, rowIndex: seq<int>, missing: int, r: Result<Selection>)
  {
    match c
    case Numbers(numbers, dims) =>
      var m := Matrix(|numbers|, 1, numbers);
      var n := IndexSelect.SelectedRowCount(m, rowIndex);
      ((forall i: nat :: i < n ==> IndexSelect.GridCell(m, rowIndex, [1], i, 0, missing).Ok?) <==> r.Ok?)
      && (r.Err? ==> r.error == "valueMatrixBoundsError")
      && (r.Ok? ==> (r.value.NumberSelection? && r.value.v.dims == dims && r.value.v.m.Valid()
            && r.value.v.m.rowCount == n && r.value.v.m.columnCount == 1
            && forall i: nat :: i < n ==> At(r.value.v.m, i, 0) == IndexSelect.GridCell(m, rowIndex, [1], i, 0, missing).value))
    case Strings(strings) =>
      var m := Matrix(|strings|, 1, strings);
      var n := IndexSelect.SelectedRowCount(m, rowIndex);
      ((forall i: nat :: i < n ==> IndexSelect.GridCell(m, rowIndex, [1], i, 0, "").Ok?) <==> r.Ok?)
      && (r.Err? ==> r.error == "valueMatrixBoundsError")
      && (r.Ok? ==> (r.value.StringSelection? && r.value.s.Valid()
            && r.value.s.rowCount == n && r.value.s.columnCount == 1
            && forall i: nat :: i < n ==> At(r.value.s, i, 0) == IndexSelect.GridCell(m, rowIndex, [1], i, 0, "").value))
  }

  /** `valueForIndexRowColumn` with a single selected column: the column's
    * value indexed by `rowIndex` through the matrix indexing rules. */
  method SelectFromColumn(c: ColumnValue, rowIndex: seq<int>, missing: int) returns (r: Result<Selection>)
    ensures SelectedFromColumn(c, rowIndex, missing, r)
  {
    match c {
      case Numbers(numbers, dims) =>
        var g := IndexSelect.SelectGrid(Matrix(|numbers|, 1, numbers), rowIndex, [1], missing);
        if g.Err? {
          return Err(g.error);
        }
        r := Ok(NumberSelection(NumberValues.NumberValue(g.value, dims)));
      case Strings(strings) =>
        var g := IndexSelect.SelectGrid(Matrix(|strings|, 1, strings), rowIndex, [1], "");
        if g.Err? {
          return Err(g.error);
        }
        r := Ok(StringSelection(g.value));
    }
  }

  /** `valueForIndexRowColumn` once the columns are chosen: one column is
    * indexed like a matrix, several become a new table of their selected
    * rows, and every chosen column must hold a value. */
  method SelectionOf(cs: seq<TableValueColumn>, rowIndex: seq<int>, missing: int) returns (r: Result<Selection>)
    ensures SelectionFrom(cs, rowIndex, missing, r)
    ensures r.Ok? && r.value.TableSelection? ==> fresh(r.value.t)
  {
    if |cs| == 1 {
      r := ColumnSelectionOf(cs, rowIndex, missing);
    } else if |cs| > 1 {
      r := TableSelectionOf(cs, rowIndex, missing);
    } else {
      r := Ok(NoSelection);
    }
  }

  method ColumnSelectionOf(cs: seq<TableValueColumn>, rowIndex: seq<int>, missing: int) returns (r: Result<Selection>)
    requires |cs| == 1
    ensures SelectionFrom(cs, rowIndex, missing, r)
    ensures r.Ok? ==> !r.value.TableSelection?
  {
    if cs[0].value.None? {
      return Err("undefinedValue");
    }
    r := SelectFromColumn(cs[0].value.value, rowIndex, missing);
  }

  method TableSelectionOf(cs: seq<TableValueColumn>, rowIndex: seq<int>, missing: int) returns (r: Result<Selection>)
    requires |cs| > 1
    ensures SelectionFrom(cs, rowIndex, missing, r)
    ensures r.Ok? && r.value.TableSelection? ==> fresh(r.value.t)
  {
    for k := 0 to |cs|
      invariant forall k' :: 0 <= k' < k ==> cs[k'].value.Some?
    {
      if cs[k].value.None? {
        return Err("undefinedValue");
      }
    }
    var t := new TableValue.WithRowNumbers(cs, rowIndex, missing);
    r := Ok(TableSelection(t));
  }

  /** What `valueForIndexRowColumn` returns once the columns are chosen:
    * nothing for no column; one column indexed like a matrix; for several,
    * a table of the selected rows of each. A chosen column without a value
    * gives `undefinedValue`. */
  ghost predicate SelectionFrom(cs: seq<TableValueColumn>, rowIndex: seq<int>, missing: int, r: Result<Selection>)
    reads set k | 0 <= k < |cs| :: cs[k]
    reads if r.Ok? && r.value.TableSelection? then set k | 0 <= k < |r.value.t.columns| :: r.value.t.columns[k] else {}
  {
    && (|cs| == 0 ==> r == Ok(NoSelection))
    && (|cs| == 1 && cs[0].value.None? ==> r == Err("undefinedValue"))
    && (|cs| == 1 && cs[0].value.Some? ==> SelectedFromColumn(cs[0].value.value, rowIndex, missing, r))
    && (|cs| > 1 && (exists k :: 0 <= k < |cs| && cs[k].value.None?) ==> r == Err("undefinedValue"))
    && (|cs| > 1 && (forall k :: 0 <= k < |cs| ==> cs[k].value.Some?) ==>
         (r.Ok? && r.value.TableSelection? && r.value.t.Valid() && |r.value.t.columns| == |cs|
          && forall k :: 0 <= k < |cs| ==> r.value.t.columns[k].value == Some(PickedValue(cs[k].value.value, rowIndex, missing))))
  }

  /** What selects a table's columns: column numbers (0 for all, negative
    * from the end), column names, or a value of another kind. */
  datatype ColumnIndex = NumberIndex(numbers: seq<int>) | NameIndex(names: seq<string>) | OtherIndex

  /** The value `valueForIndexRowColumn` returns. */
  datatype Selection =
    | NoSelection
    | NumberSelection(v: NumberValues.NumberValue)
    | StringSelection(s: Matrix<string>)
    | TableSelection(t: TableValue)

  class TableValue {
    const rowCount: nat
    const columnCount: nat
    const columns: seq<TableValueColumn>
    const nameDictionary: map<string, TableValueColumn>

    ghost predicate Valid()
    {
      columnCount == |columns| && nameDictionary == NameDictionary(columns)
    }

    /** A table of the given columns; its row count is the first column's. */
    constructor (columns: seq<TableValueColumn>)
      requires |columns| > 0 ==> columns[0].value.Some?
      ensures Valid() && this.columns == columns
      ensures rowCount == (if |columns| > 0 then columns[0].RowCount() else 0)
    {
      var d := MakeNameDictionary(columns);
      rowCount := if |columns| > 0 then columns[0].value.value.Count() else 0;
      columnCount := |columns|;
      this.columns := columns;
      nameDictionary := d;
    }

    /** A table of copies of the given columns holding just the listed rows;
      * a first row number 0 keeps the first column's row count. */
    constructor WithRowNumbers(columns: seq<TableValueColumn>, rowNumbers: seq<int>, missing: int)
      requires forall c :: c in columns ==> c.value.Some?
      ensures Valid() && |this.columns| == |columns|
      ensures rowCount == (if |rowNumbers| > 0 && rowNumbers[0] == 0 && |columns| > 0
        then columns[0].RowCount() else |rowNumbers|)
      ensures forall k :: 0 <= k < |columns| ==> (fresh(this.columns[k]) && this.columns[k].name == columns[k].name
        && this.columns[k].value == Some(PickedValue(columns[k].value.value, rowNumbers, missing)))
    {
      var made: seq<TableValueColumn> := [];
      for i := 0 to |columns|
        invariant |made| == i
        invariant forall k :: 0 <= k < i ==> (fresh(made[k]) && made[k].name == columns[k].name
          && made[k].value == Some(PickedValue(columns[k].value.value, rowNumbers, missing)))
      {
        var c := new TableValueColumn.FromRowNumbers(rowNumbers, columns[i], missing);
        made := made + [c];
      }
      var d := MakeNameDictionary(made);
      rowCount := if |rowNumbers| > 0 && rowNumbers[0] == 0 && |columns| > 0
        then columns[0].value.value.Count() else |rowNumbers|;
      columnCount := |made|;
      this.columns := made;
      nameDictionary := d;
    }

    /** `columnNamed`: the column whose name matches ignoring case. */
    function ColumnNamed(name: string): (r: Option<TableValueColumn>)
      requires Valid()
      ensures r.Some? <==> exists c :: c in columns && Lower(c.name) == Lower(name)
      ensures r.Some? ==> r.value in columns && Lower(r.value.name) == Lower(name)
    {
      if Lower(name) in nameDictionary then Some(nameDictionary[Lower(name)]) else None
    }

    /** `stringWithUnit`. */
    function StringWithUnit(): (r: string)
      ensures r == "Table [ " + NatToString(rowCount) + ", " + NatToString(columnCount) + " ]"
    {
      "Table [ " + NatToString(rowCount) + ", " + NatToString(columnCount) + " ]"
    }

    /** The columns listed by number, the first unusable number deciding
      * the error: above the count the index error, 0 or below after
      * counting back an undefined column. */
    function ColumnsByNumber(numbers: seq<int>): (r: Result<seq<TableValueColumn>>)
      requires Valid()
      ensures r.Ok? <==> forall k :: 0 <= k < |numbers| ==> 1 <= IndexSelect.Mapped(numbers[k], columnCount) <= columnCount
      ensures r.Ok? ==> |r.value| == |numbers| && forall k :: 0 <= k < |numbers| ==>
        r.value[k] == columns[IndexSelect.Mapped(numbers[k], columnCount) - 1]
      ensures r.Err? ==> r.error == "mmcmd:tableValueIndexError" || r.error == "undefinedColumn"
      decreases |numbers|
    {
      if numbers == [] then Ok([])
      else
        var prefix := ColumnsByNumber(numbers[..|numbers| - 1]);
        var n := IndexSelect.Mapped(numbers[|numbers| - 1], columnCount);
        if prefix.Err? then prefix
        else if n > columnCount then Err("mmcmd:tableValueIndexError")
        else if n < 1 then Err("undefinedColumn")
        else Ok(prefix.value + [columns[n - 1]])
    }

    /** The columns listed by name, ignoring case. */
    function ColumnsByName(names: seq<string>): (r: Result<seq<TableValueColumn>>)
      requires Valid()
      ensures r.Ok? <==> forall k :: 0 <= k < |names| ==> ColumnNamed(names[k]).Some?
      ensures r.Ok? ==> |r.value| == |names| && forall k :: 0 <= k < |names| ==> Some(r.value[k]) == ColumnNamed(names[k])
      ensures r.Err? ==> r.error == "mmcmd:tableValueIndexError"
      decreases |names|
    {
      if names == [] then Ok([])
      else
        var prefix := ColumnsByName(names[..|names| - 1]);
        var column := ColumnNamed(names[|names| - 1]);
        if prefix.Err? then prefix
        else if column.None? then Err("mmcmd:tableValueIndexError")
        else Ok(prefix.value + [column.value])
    }

    /** The columns a column index selects: all of them with no index or the
      * scalar 0, none for an index of another kind. */
    function SelectedColumns(columnIndex: Option<ColumnIndex>): (r: Result<seq<TableValueColumn>>)
      requires Valid()
      ensures columnIndex.None? || columnIndex == Some(NumberIndex([0])) ==> r == Ok(columns)
      ensures columnIndex == Some(OtherIndex) ==> r == Ok([])
    {
      match columnIndex
      case None => Ok(columns)
      case Some(NumberIndex(numbers)) => if numbers == [0] then Ok(columns) else ColumnsByNumber(numbers)
      case Some(NameIndex(names)) => ColumnsByName(names)
      case Some(OtherIndex) => Ok([])
    }

    /** The selection loops of `valueForIndexRowColumn`. */
    method SelectColumns(columnIndex: Option<ColumnIndex>) returns (r: Result<seq<TableValueColumn>>)
      requires Valid()
      ensures r == SelectedColumns(columnIndex)
    {
      if columnIndex.None? {
        return Ok(columns);
      }
      match columnIndex.value {
        case OtherIndex =>
          return Ok([]);
        case NumberIndex(numbers) =>
          if numbers == [0] {
            return Ok(columns);
          }
          r := SelectByNumber(numbers);
        case NameIndex(names) =>
          r := SelectByName(names);
      }
    }

    /** The loop over column numbers: a negative number counts from the end,
      * and the first unusable number ends the selection. */
    method SelectByNumber(numbers: seq<int>) returns (r: Result<seq<TableValueColumn>>)
      requires Valid()
      ensures r == ColumnsByNumber(numbers)
    {
      var picked: seq<TableValueColumn> := [];
      for i := 0 to |numbers|
        invariant ColumnsByNumber(numbers[..i]) == Ok(picked)
      {
        assert numbers[..i + 1][..i] == numbers[..i];
        var columnNumber := numbers[i];
        if columnNumber < 0 {
          columnNumber := columnNumber + columnCount + 1;
        }
        if columnNumber > columnCount {
          assert ColumnsByNumber(numbers[..i + 1]).Err?;
          ErrorPersists(numbers, i + 1);
          return Err("mmcmd:tableValueIndexError");
        }
        if columnNumber < 1 {
          ErrorPersists(numbers, i + 1);
          return Err("undefinedColumn");
        }
        picked := picked + [columns[columnNumber - 1]];
      }
      assert numbers[..|numbers|] == numbers;
      r := Ok(picked);
    }

    /** The loop over column names: the first name no column has ends the
      * selection. */
    method SelectByName(names: seq<string>) returns (r: Result<seq<TableValueColumn>>)
      requires Valid()
      ensures r == ColumnsByName(names)
    {
      var picked: seq<TableValueColumn> := [];
      for i := 0 to |names|
        invariant ColumnsByName(names[..i]) == Ok(picked)
      {
        assert names[..i + 1][..i] == names[..i];
        var column := ColumnNamed(names[i]);
        if column.None? {
          NameErrorPersists(names, i + 1);
          return Err("mmcmd:tableValueIndexError");
        }
        picked := picked + [column.value];
      }
      assert names[..|names|] == names;
      r := Ok(picked);
    }

    /** Once a listed column number fails, the whole list fails the same way. */
    lemma {:induction false} ErrorPersists(numbers: seq<int>, i: nat)
      requires Valid() && 1 <= i <= |numbers| && ColumnsByNumber(numbers[..i]).Err?
      ensures ColumnsByNumber(numbers) == ColumnsByNumber(numbers[..i])
      decreases |numbers| - i
    {
      if i < |numbers| {
        assert numbers[..i + 1][..i] == numbers[..i];
        ErrorPersists(numbers, i + 1);
      } else {
        assert numbers[..i] == numbers;
      }
    }

    lemma {:induction false} NameErrorPersists(names: seq<string>, i: nat)
      requires Valid() && 1 <= i <= |names| && ColumnsByName(names[..i]).Err?
      ensures ColumnsByName(names) == ColumnsByName(names[..i])
      decreases |names| - i
    {
      if i < |names| {
        assert names[..i + 1][..i] == names[..i];
        NameErrorPersists(names, i + 1);
      } else {
        assert names[..i] == names;
      }
    }

    /** `valueForIndexRowColumn`: nothing unless the row index is a number
      * value; one selected column gives that column's rows, several a table
      * of their rows. */
    method ValueForIndexRowColumn(rowIndex: Option<seq<int>>, columnIndex: Option<ColumnIndex>, missing: int)
      returns (r: Result<Selection>)
      requires Valid()
      ensures rowIndex.None? ==> r == Ok(NoSelection)
      ensures rowIndex.Some? && SelectedColumns(columnIndex).Err? ==> r == Err(SelectedColumns(columnIndex).error)
      ensures rowIndex.Some? && SelectedColumns(columnIndex).Ok? ==>
                SelectionFrom(SelectedColumns(columnIndex).value, rowIndex.value, missing, r)
      ensures r.Ok? && r.value.TableSelection? ==> fresh(r.value.t)
    {
      if rowIndex.None? {
        return Ok(NoSelection);
      }
      var selected := SelectColumns(columnIndex);
      if selected.Err? {
        return Err(selected.error);
      }
      r := SelectionOf(selected.value, rowIndex.value, missing);
    }

    /** `numberValue`: the numeric columns side by side as one number value,
      * string columns skipped; nothing for a table without numeric columns. */
    method NumberValue() returns (r: Result<Option<NumberValues.NumberValue>>)
      requires Valid()
      ensures var numeric := Numeric(ValuesOf(columns));
        (|numeric| == 0 ==> r == Ok(None))
        && (|numeric| > 0 && !SameNumericDims(numeric) ==> r == Err("mmcmd:tableNumberValueUnits"))
        && ((|numeric| > 0 && SameNumericDims(numeric) && exists k :: 0 <= k < |numeric| && |numeric[k].numbers| < rowCount)
            ==> r == Err("valueMatrixBoundsError"))
      ensures var numeric := Numeric(ValuesOf(columns));
        |numeric| > 0 && SameNumericDims(numeric) && (forall k :: 0 <= k < |numeric| ==> |numeric[k].numbers| >= rowCount)
        ==> (r.Ok? && r.value.Some? && r.value.value.dims == numeric[0].dims && r.value.value.m.Valid()
             && r.value.value.m.rowCount == rowCount && r.value.value.m.columnCount == |numeric|
             && forall i: nat, k: nat :: i < rowCount && k < |numeric| ==> At(r.value.value.m, i, k) == numeric[k].numbers[i])
    {
      r := NumberValueOf(ValuesOf(columns), rowCount);
    }
  }
}
