/** `valueForIndexRowColumnFactory` of MMValue: selecting rows and columns of
  * a value with number values as index lists. A scalar row index 0 means
  * every row, a negative index counts back from the end, and with no column
  * index every column of the selected rows is copied. */
module IndexSelect {
  import opened Wrappers
  import opened Matrices

  /** A negative index k stands for `count + k + 1`. */
  function Mapped(k: int, count: nat): (r: int)
    ensures k >= 0 ==> r == k
    ensures k < 0 ==> r == count + k + 1 && r <= count
  {
    if k < 0 then count + k + 1 else k
  }

  /** -1 is the last row or column and -count the first. */
  lemma MappedFromEnd(count: nat, k: int)
    requires -(count as int) <= k <= -1
    ensures 1 <= Mapped(k, count) <= count
    ensures k == -1 ==> Mapped(k, count) == count
    ensures k == -(count as int) ==> Mapped(k, count) == 1
  {
  }

  /** Whether the row index is the scalar 0 that selects every row. */
  predicate AllRows(rowIndex: seq<int>) { |rowIndex| == 1 && rowIndex[0] == 0 }

  /** The 1-based source row for result row i when a column index is given. */
  function SourceRow(rowIndex: seq<int>, i: nat, rowCount: nat): int
    requires AllRows(rowIndex) || i < |rowIndex|
  {
    if AllRows(rowIndex) then i + 1 else Mapped(rowIndex[i], rowCount)
  }

  /** The read behind result cell (i, j) when both indices are given. */
  function GridCell<T>(m: Matrix<T>, rowIndex: seq<int>, columnIndex: seq<int>, i: nat, j: nat, missing: T): Result<T>
    requires m.Valid() && (AllRows(rowIndex) || i < |rowIndex|) && j < |columnIndex|
  {
    ValueAtRowColumn(m, SourceRow(rowIndex, i, m.rowCount), Mapped(columnIndex[j], m.columnCount), missing)
  }

  function GridValue<T>(m: Matrix<T>, rowIndex: seq<int>, columnIndex: seq<int>, i: nat, j: nat, missing: T): T
    requires m.Valid() && (AllRows(rowIndex) || i < |rowIndex|) && j < |columnIndex|
  {
    var c := GridCell(m, rowIndex, columnIndex, i, j, missing);
    if c.Ok? then c.value else missing
  }

  function SelectedRowCount<T>(m: Matrix<T>, rowIndex: seq<int>): (n: nat)
    ensures AllRows(rowIndex) ==> n == m.rowCount
    ensures !AllRows(rowIndex) ==> n == |rowIndex|
  {
    if AllRows(rowIndex) then m.rowCount else |rowIndex|
  }

  /** The selection both indices describe, every cell as read (or `missing`
    * where the read fails). */
  ghost function GridSpec<T>(m: Matrix<T>, rowIndex: seq<int>, columnIndex: seq<int>, missing: T): (r: Matrix<T>)
    requires m.Valid()
    ensures r.Valid() && r.rowCount == SelectedRowCount(m, rowIndex) && r.columnCount == |columnIndex|
    ensures forall i: nat, j: nat :: i < r.rowCount && j < r.columnCount ==>
      At(r, i, j) == GridValue(m, rowIndex, columnIndex, i, j, missing)
  {
    var nRows, nColumns := SelectedRowCount(m, rowIndex), |columnIndex|;
    Build(nRows, nColumns, (i: nat, j: nat) requires i < nRows && j < nColumns =>
      GridValue(m, rowIndex, columnIndex, i, j, missing))
  }

  /** Both indices given: rows × columns of the indices (all rows for a scalar 0),
    * every cell read through the bounds check. */
  method SelectGrid<T(0)>(m: Matrix<T>, rowIndex: seq<int>, columnIndex: seq<int>, missing: T)
    returns (r: Result<Matrix<T>>)
    requires m.Valid()
    ensures r.Ok? <==> forall i: nat, j: nat :: i < SelectedRowCount(m, rowIndex) && j < |columnIndex| ==>
      GridCell(m, rowIndex, columnIndex, i, j, missing).Ok?
    ensures r.Err? ==> r.error == "valueMatrixBoundsError"
    ensures r.Ok? ==> (r.value.Valid() && r.value.rowCount == SelectedRowCount(m, rowIndex)
      && r.value.columnCount == |columnIndex|)
    ensures r.Ok? ==> forall i: nat, j: nat :: i < r.value.rowCount && j < r.value.columnCount ==>
      At(r.value, i, j) == GridCell(m, rowIndex, columnIndex, i, j, missing).value
  {
    var nRows, nColumns := SelectedRowCount(m, rowIndex), |columnIndex|;
    ghost var spec := GridSpec(m, rowIndex, columnIndex, missing);
    var rv := new T[nRows * nColumns];
    var i := 0;
    while i < nRows
      invariant 0 <= i <= nRows
      invariant Flat(i, 0, nColumns) <= rv.Length
      invariant rv[..Flat(i, 0, nColumns)] == spec.cells[..Flat(i, 0, nColumns)]
      invariant forall i': nat, j': nat :: i' < i && j' < nColumns ==> GridCell(m, rowIndex, columnIndex, i', j', missing).Ok?
    {
      var ok := FillGridRow(m, rowIndex, columnIndex, missing, rv, i);
      if !ok {
        return Err("valueMatrixBoundsError");
      }
      i := i + 1;
    }
    assert rv[..] == rv[..Flat(nRows, 0, nColumns)] by { MulIsProduct(nRows, nColumns); }
    r := Ok(Matrix(nRows, nColumns, rv[..]));
    assert r.value == spec;
    forall i: nat, j: nat | i < nRows && j < nColumns
      ensures At(r.value, i, j) == GridCell(m, rowIndex, columnIndex, i, j, missing).value
    {
      assert At(spec, i, j) == GridValue(m, rowIndex, columnIndex, i, j, missing);
    }
  }

  /** The inner loop of the selection: row i of the result, cell by cell,
    * stopping at the first read out of bounds. */
  method FillGridRow<T(0)>(m: Matrix<T>, rowIndex: seq<int>, columnIndex: seq<int>, missing: T, rv: array<T>, i: nat)
    returns (ok: bool)
    requires m.Valid() && i < SelectedRowCount(m, rowIndex)
    requires rv.Length == SelectedRowCount(m, rowIndex) * |columnIndex|
    requires Flat(i, 0, |columnIndex|) <= rv.Length
    requires rv[..Flat(i, 0, |columnIndex|)] == GridSpec(m, rowIndex, columnIndex, missing).cells[..Flat(i, 0, |columnIndex|)]
    modifies rv
    ensures ok <==> forall j: nat :: j < |columnIndex| ==> GridCell(m, rowIndex, columnIndex, i, j, missing).Ok?
    ensures ok ==> Flat(i + 1, 0, |columnIndex|) <= rv.Length
    ensures ok ==> rv[..Flat(i + 1, 0, |columnIndex|)] == GridSpec(m, rowIndex, columnIndex, missing).cells[..Flat(i + 1, 0, |columnIndex|)]
  {
    ghost var spec := GridSpec(m, rowIndex, columnIndex, missing);
    var nRows, nColumns := SelectedRowCount(m, rowIndex), |columnIndex|;
    var row := if AllRows(rowIndex) then i + 1 else Mapped(rowIndex[i], m.rowCount);
    var j := 0;
    while j < nColumns
      invariant 0 <= j <= nColumns
      invariant Flat(i, j, nColumns) <= rv.Length
      invariant rv[..Flat(i, j, nColumns)] == spec.cells[..Flat(i, j, nColumns)]
      invariant forall j': nat :: j' < j ==> GridCell(m, rowIndex, columnIndex, i, j', missing).Ok?
    {
      var column := Mapped(columnIndex[j], m.columnCount);
      var v := ValueAtRowColumn(m, row, column, missing);
      if v.Err? {
        assert !GridCell(m, rowIndex, columnIndex, i, j, missing).Ok?;
        return false;
      }
      FlatInRange(i, j, nRows, nColumns);
      rv[Flat(i, j, nColumns)] := v.value;
      assert At(spec, i, j) == rv[Flat(i, j, nColumns)];
      j := j + 1;
    }
    return true;
  }

  /** No column index: the selected rows with every column; a mapped row
    * outside 1..rowCount is refused. */
  method SelectRows<T(0)>(m: Matrix<T>, rowIndex: seq<int>) returns (r: Result<Matrix<T>>)
    requires m.Valid()
    ensures r.Ok? <==> forall i :: 0 <= i < |rowIndex| ==> 1 <= Mapped(rowIndex[i], m.rowCount) <= m.rowCount
    ensures r.Err? ==> r.error == "valueRowBoundError"
    ensures r.Ok? ==> r.value.Valid() && r.value.rowCount == |rowIndex| && r.value.columnCount == m.columnCount
    ensures r.Ok? ==> forall i: nat, j: nat :: i < r.value.rowCount && j < r.value.columnCount ==>
      1 <= Mapped(rowIndex[i], m.rowCount) <= m.rowCount &&
      At(r.value, i, j) == At(m, Mapped(rowIndex[i], m.rowCount) - 1, j)
  {
    var nRows, nColumns := |rowIndex|, m.columnCount;
    var rv := new T[nRows * nColumns];
    ghost var rows: seq<int> := [];
    var i := 0;
    while i < nRows
      invariant 0 <= i <= nRows
      invariant forall i' :: 0 <= i' < i ==> 1 <= Mapped(rowIndex[i'], m.rowCount) <= m.rowCount
      invariant forall i': nat, j': nat :: i' < i && j' < nColumns ==>
        Flat(i', j', nColumns) < rv.Length &&
        rv[Flat(i', j', nColumns)] == At(m, Mapped(rowIndex[i'], m.rowCount) - 1, j')
    {
      var row := Mapped(rowIndex[i], m.rowCount);
      if row < 1 || row > m.rowCount {
        return Err("valueRowBoundError");
      }
      CopyRow(m, rv, i, nRows, row);
      i := i + 1;
    }
    r := Ok(Matrix(nRows, nColumns, rv[..]));
    forall i: nat, j: nat | i < nRows && j < nColumns
      ensures At(r.value, i, j) == At(m, Mapped(rowIndex[i], m.rowCount) - 1, j)
    {
      assert At(r.value, i, j) == rv[Flat(i, j, nColumns)];
    }
  }

  /** The inner loop of `SelectRows`: source row `row` copied into result
    * row i, the rows before it left as they were. */
  method CopyRow<T>(m: Matrix<T>, rv: array<T>, i: nat, nRows: nat, row: int)
    requires m.Valid() && i < nRows && rv.Length == nRows * m.columnCount && 1 <= row <= m.rowCount
    modifies rv
    ensures forall j': nat :: j' < m.columnCount ==>
      Flat(i, j', m.columnCount) < rv.Length && rv[Flat(i, j', m.columnCount)] == At(m, row - 1, j')
    ensures forall i': nat, j': nat :: i' < i && j' < m.columnCount ==>
      Flat(i', j', m.columnCount) < rv.Length && rv[Flat(i', j', m.columnCount)] == old(rv[Flat(i', j', m.columnCount)])
  {
    var nColumns := m.columnCount;
    forall i': nat, j': nat | i' < i && j' < nColumns
      ensures Flat(i', j', nColumns) < rv.Length
    {
      FlatInRange(i', j', nRows, nColumns);
    }
    var j := 0;
    while j < nColumns
      invariant 0 <= j <= nColumns
      invariant forall i': nat, j': nat :: i' < i && j' < nColumns ==>
        Flat(i', j', nColumns) < rv.Length && rv[Flat(i', j', nColumns)] == old(rv[Flat(i', j', nColumns)])
      invariant forall j': nat :: j' < j ==>
        Flat(i, j', nColumns) < rv.Length && rv[Flat(i, j', nColumns)] == At(m, row - 1, j')
    {
      FlatInRange(i, j, nRows, nColumns);
      FlatInRange(row - 1, j, m.rowCount, m.columnCount);
      SlotsDistinct(i, j, nRows, nColumns);
      rv[Flat(i, j, nColumns)] := m.cells[Flat(row - 1, j, m.columnCount)];
      j := j + 1;
    }
  }

  /** `SelectRows` as written: the arguments of the bound error read
    * `nCols`, which is not declared, so a row out of bounds throws a
    * `ReferenceError` instead of `valueRowBoundError`. */
  method SelectRowsAsWritten<T(0)>(m: Matrix<T>, rowIndex: seq<int>) returns (r: Result<Matrix<T>>)
    requires m.Valid()
    ensures r.Ok? <==> forall i :: 0 <= i < |rowIndex| ==> 1 <= Mapped(rowIndex[i], m.rowCount) <= m.rowCount
    ensures r.Err? ==> r.error == "ReferenceError"
    ensures r.Ok? ==> r.value.Valid() && r.value.rowCount == |rowIndex| && r.value.columnCount == m.columnCount
    ensures r.Ok? ==> forall i: nat, j: nat :: i < r.value.rowCount && j < r.value.columnCount ==>
      1 <= Mapped(rowIndex[i], m.rowCount) <= m.rowCount &&
      At(r.value, i, j) == At(m, Mapped(rowIndex[i], m.rowCount) - 1, j)
  {
    r := SelectRows(m, rowIndex);
    if r.Err? {
      r := Err("ReferenceError");
    }
  }

  /** Row 2 of a one-row value: the engine as written throws a
    * `ReferenceError`, where the bound error was meant. */
  method RowBoundCounterexample() returns (asWritten: Result<Matrix<int>>, intended: Result<Matrix<int>>)
    ensures asWritten == Err("ReferenceError")
    ensures intended == Err("valueRowBoundError")
  {
    var m := Matrix(1, 1, [7]);
    assert Mapped([2][0], m.rowCount) == 2;
    asWritten := SelectRowsAsWritten(m, [2]);
    intended := SelectRows(m, [2]);
  }

  /** A scalar 0 row index with column index [c] selects the whole column c. */
  lemma ZeroRowSelectsColumn<T>(m: Matrix<T>, c: nat, i: nat, missing: T)
    requires m.Valid() && 1 <= c <= m.columnCount && i < m.rowCount
    ensures SelectedRowCount(m, [0]) == m.rowCount
    ensures GridCell(m, [0], [c], i, 0, missing) == Ok(At(m, i, c - 1))
  {
  }
}
