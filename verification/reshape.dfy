/** Reshaping operations shared by number, string and tool values:
  * transpose, concat, append, redimension and column extraction. Each value
  * class runs the same copy loops over its own `_values`; here they are
  * written once over `Matrix<T>`. */
module Reshape {
  import opened Wrappers
  import opened Matrices

  /** A flat read that yields `missing` (JavaScript undefined) outside the storage. */
  function RawAt<T>(m: Matrix<T>, k: int, missing: T): (r: T)
    ensures 0 <= k < |m.cells| ==> r == m.cells[k]
    ensures !(0 <= k < |m.cells|) ==> r == missing
  {
    if 0 <= k < |m.cells| then m.cells[k] else missing
  }

  // ---------------------------------------------------------------- transpose

  /** The transpose: cell (j, i) of the result is cell (i, j) of `m`. */
  function Transposed<T>(m: Matrix<T>): (r: Matrix<T>)
    requires m.Valid()
    ensures r.Valid() && r.rowCount == m.columnCount && r.columnCount == m.rowCount
  {
    Build(m.columnCount, m.rowCount, (i: nat, j: nat) requires i < m.columnCount && j < m.rowCount => At(m, j, i))
  }

  lemma TransposedAt<T>(m: Matrix<T>, i: nat, j: nat)
    requires m.Valid() && i < m.rowCount && j < m.columnCount
    ensures At(Transposed(m), j, i) == At(m, i, j)
  {
  }

  /** Transposing twice restores shape and values. */
  lemma TransposeTwice<T>(m: Matrix<T>)
    requires m.Valid()
    ensures Transposed(Transposed(m)) == m
  {
    var t := Transposed(m);
    var tt := Transposed(t);
    forall i: nat, j: nat | i < m.rowCount && j < m.columnCount
      ensures At(tt, i, j) == At(m, i, j)
    {
      TransposedAt(t, j, i);
      TransposedAt(m, i, j);
    }
    Extensional(tt, m);
  }

  /** `transpose`: `rv[j*rowCount+i] = v[i*columnCount+j]` over every cell. */
  method Transpose<T(0)>(m: Matrix<T>) returns (r: Matrix<T>)
    requires m.Valid()
    ensures r.Valid() && r.rowCount == m.columnCount && r.columnCount == m.rowCount
    ensures forall i: nat, j: nat :: i < m.rowCount && j < m.columnCount ==> At(r, j, i) == At(m, i, j)
    ensures r == Transposed(m)
  {
    var rowCount, columnCount := m.rowCount, m.columnCount;
    var rv := new T[columnCount * rowCount];
    var i := 0;
    while i < rowCount
      invariant 0 <= i <= rowCount
      invariant forall j': nat, i': nat :: j' < columnCount && i' < i ==>
        Flat(j', i', rowCount) < rv.Length && rv[Flat(j', i', rowCount)] == At(m, i', j')
    {
      // row i of the value becomes column i of the result
      FillColumn(rv, columnCount, rowCount, i, (j: nat) requires j < columnCount => At(m, i, j));
      i := i + 1;
    }
    r := Matrix(columnCount, rowCount, rv[..]);
    forall i: nat, j: nat | i < m.rowCount && j < m.columnCount
      ensures At(r, j, i) == At(m, i, j) && At(r, j, i) == At(Transposed(m), j, i)
    {
      assert At(r, j, i) == rv[Flat(j, i, rowCount)];
      TransposedAt(m, i, j);
    }
    Extensional(r, Transposed(m));
  }

  /** One column of a row-major array written row by row with `value(row)`;
    * every other column is left as it was. */
  method FillColumn<T>(rv: array<T>, rowCount: nat, columnCount: nat, column: nat, value: nat --> T)
    requires rv.Length == rowCount * columnCount && column < columnCount
    requires forall i: nat :: i < rowCount ==> value.requires(i)
    modifies rv
    ensures forall i: nat :: i < rowCount ==>
      Flat(i, column, columnCount) < rv.Length && rv[Flat(i, column, columnCount)] == value(i)
    ensures forall i: nat, j: nat :: i < rowCount && j < columnCount && j != column ==>
      Flat(i, j, columnCount) < rv.Length && rv[Flat(i, j, columnCount)] == old(rv[Flat(i, j, columnCount)])
  {
    forall i: nat, j: nat | i < rowCount && j < columnCount
      ensures Flat(i, j, columnCount) < rv.Length
    {
      FlatInRange(i, j, rowCount, columnCount);
    }
    var row := 0;
    while row < rowCount
      invariant 0 <= row <= rowCount
      invariant forall i: nat :: i < row ==>
        Flat(i, column, columnCount) < rv.Length && rv[Flat(i, column, columnCount)] == value(i)
      invariant forall i: nat, j: nat :: i < rowCount && j < columnCount && j != column ==>
        Flat(i, j, columnCount) < rv.Length && rv[Flat(i, j, columnCount)] == old(rv[Flat(i, j, columnCount)])
    {
      FlatInRange(row, column, rowCount, columnCount);
      SlotsDistinct(row, column, rowCount, columnCount);
      rv[Flat(row, column, columnCount)] := value(row);
      row := row + 1;
    }
  }

  /** Writing slot (j, i) of the transpose never overwrites another written slot. */
  lemma TransposeSlotsDistinct(i: nat, j: nat, rowCount: nat, columnCount: nat)
    requires i < rowCount && j < columnCount
    ensures forall i': nat, j': nat :: i' < rowCount && j' < columnCount && (i', j') != (i, j) ==>
      Flat(j', i', rowCount) != Flat(j, i, rowCount)
  {
    forall i': nat, j': nat | i' < rowCount && j' < columnCount && (i', j') != (i, j)
      ensures Flat(j', i', rowCount) != Flat(j, i, rowCount)
    {
      FlatDivMod(j', i', rowCount);
      FlatDivMod(j, i, rowCount);
    }
  }

  // ------------------------------------------------------------------- concat

  /** `concat`: one column holding this value's cells, then the other's. */
  method Concat<T(0)>(a: Matrix<T>, b: Matrix<T>) returns (r: Matrix<T>)
    requires a.Valid() && b.Valid()
    ensures r.Valid() && r.columnCount == 1 && r.rowCount == |a.cells| + |b.cells|
    ensures r.cells == a.cells + b.cells
  {
    var na, nb := |a.cells|, |b.cells|;
    var rv := new T[na + nb];
    var i := 0;
    while i < na
      invariant 0 <= i <= na
      invariant rv[..i] == a.cells[..i]
    {
      rv[i] := a.cells[i];
      i := i + 1;
    }
    i := 0;
    while i < nb
      invariant 0 <= i <= nb
      invariant rv[..na] == a.cells
      invariant rv[na..na + i] == b.cells[..i]
    {
      rv[i + na] := b.cells[i];
      i := i + 1;
    }
    assert rv[..] == rv[..na] + rv[na..na + nb];
    r := Matrix(na + nb, 1, rv[..]);
  }

  // ------------------------------------------------------------------- append

  /** Cell (i, j) of `append(a, b)`: this value's columns first, then the
    * addition's, whose rows wrap modulo its row count. */
  function AppendedAt<T>(a: Matrix<T>, b: Matrix<T>, i: nat, j: nat, missing: T): T
    requires a.Valid() && b.Valid() && j < a.columnCount + b.columnCount
  {
    if j < a.columnCount then
      (if i < a.rowCount then At(a, i, j) else missing)
    else if b.rowCount == 0 then missing
    else At(b, i % b.rowCount, j - a.columnCount)
  }

  /** The column-by-column copy of `append`; the result keeps this value's row count. */
  method Append<T(0)>(a: Matrix<T>, b: Matrix<T>, missing: T) returns (r: Matrix<T>)
    requires a.Valid() && b.Valid()
    ensures r.Valid() && r.rowCount == a.rowCount && r.columnCount == a.columnCount + b.columnCount
    ensures forall i: nat, j: nat :: i < r.rowCount && j < r.columnCount ==> At(r, i, j) == AppendedAt(a, b, i, j, missing)
  {
    var thisColumnCount, addColumnCount, addRowCount := a.columnCount, b.columnCount, b.rowCount;
    var columnCount := thisColumnCount + addColumnCount;
    var rowCount := a.rowCount;
    var rv := new T[rowCount * columnCount];
    var column := 0;
    var thisColumn := 0;
    while thisColumn < thisColumnCount
      invariant 0 <= thisColumn <= thisColumnCount && column == thisColumn
      invariant forall i: nat, j: nat :: i < rowCount && j < column ==>
        Flat(i, j, columnCount) < rv.Length && rv[Flat(i, j, columnCount)] == AppendedAt(a, b, i, j, missing)
    {
      FillColumn(rv, rowCount, columnCount, column, (row: nat) requires row < rowCount => At(a, row, thisColumn));
      column := column + 1;
      thisColumn := thisColumn + 1;
    }
    var addColumn := 0;
    while addColumn < addColumnCount
      invariant 0 <= addColumn <= addColumnCount && column == thisColumnCount + addColumn
      invariant forall i: nat, j: nat :: i < rowCount && j < column ==>
        Flat(i, j, columnCount) < rv.Length && rv[Flat(i, j, columnCount)] == AppendedAt(a, b, i, j, missing)
    {
      // the rows of the addition wrap modulo its row count
      FillColumn(rv, rowCount, columnCount, column,
        (row: nat) => if addRowCount == 0 then missing else At(b, row % addRowCount, addColumn));
      column := column + 1;
      addColumn := addColumn + 1;
    }
    r := Matrix(rowCount, columnCount, rv[..]);
    forall i: nat, j: nat | i < rowCount && j < columnCount
      ensures At(r, i, j) == AppendedAt(a, b, i, j, missing)
    {
      assert At(r, i, j) == rv[Flat(i, j, columnCount)];
    }
  }

  /** With equal row counts (the string and tool rule) append places the two
    * values side by side without wrapping. */
  lemma AppendSideBySide<T>(a: Matrix<T>, b: Matrix<T>, i: nat, j: nat, missing: T)
    requires a.Valid() && b.Valid() && a.rowCount == b.rowCount
    requires i < a.rowCount && j < a.columnCount + b.columnCount
    ensures j < a.columnCount ==> AppendedAt(a, b, i, j, missing) == At(a, i, j)
    ensures j >= a.columnCount ==> AppendedAt(a, b, i, j, missing) == At(b, i, j - a.columnCount)
  {
    assert i % b.rowCount == i;
  }

  // -------------------------------------------------------------- redimension

  /** `redimension(nColumns)`: the same flat cells regrouped into `columnCount`
    * columns; refused unless the value count divides evenly. */
  function Redimension<T>(m: Matrix<T>, columnCount: int): (r: Result<Matrix<T>>)
    requires m.Valid()
    ensures r.Ok? <==> columnCount > 0 && m.ValueCount() % columnCount == 0
    ensures r.Err? ==> r.error == "formulaRedimCountError"
    ensures r.Ok? ==> (r.value.Valid() && r.value.columnCount == columnCount
      && r.value.rowCount == m.ValueCount() / columnCount && r.value.cells == m.cells)
  {
    if columnCount <= 0 || m.ValueCount() % columnCount != 0 then Err("formulaRedimCountError")
    else
      var rows := m.ValueCount() / columnCount;
      assert rows * columnCount == m.ValueCount();
      Ok(Matrix(rows, columnCount, m.cells))
  }

  /** Redimensioning back to the original column count restores the value. */
  lemma RedimensionRoundTrip<T>(m: Matrix<T>, columnCount: int)
    requires m.Valid() && m.columnCount > 0
    requires Redimension(m, columnCount).Ok?
    ensures Redimension(Redimension(m, columnCount).value, m.columnCount) == Ok(m)
  {
    var r := Redimension(m, columnCount).value;
    var k := |r.cells|;
    assert k == m.rowCount * m.columnCount + 0;
    DivModUnique(k, m.columnCount, m.rowCount, 0);
  }

  // ------------------------------------------------------------ column number

  /** `columnNumber(number)`: the value itself when it has one column, else a
    * rowCount × 1 copy of that column, read at `r*columnCount + number - 1`. */
  method ColumnNumber<T(0)>(m: Matrix<T>, number: int, missing: T) returns (r: Matrix<T>)
    requires m.Valid()
    ensures r.Valid()
    ensures m.columnCount == 1 ==> r == m
    ensures m.columnCount != 1 ==> (r.rowCount == m.rowCount && r.columnCount == 1
      && forall row :: 0 <= row < m.rowCount ==> r.cells[row] == RawAt(m, row * m.columnCount + number - 1, missing))
  {
    if m.columnCount == 1 {
      return m;
    }
    var rv := new T[m.rowCount];
    var row := 0;
    while row < m.rowCount
      invariant 0 <= row <= m.rowCount
      invariant forall k :: 0 <= k < row ==> rv[k] == RawAt(m, k * m.columnCount + number - 1, missing)
    {
      rv[row] := RawAt(m, row * m.columnCount + number - 1, missing);
      row := row + 1;
    }
    r := Matrix(m.rowCount, 1, rv[..]);
  }

  /** For a column inside the value, `columnNumber` copies exactly that column. */
  lemma ColumnNumberInRange<T>(m: Matrix<T>, number: int, row: nat, missing: T)
    requires m.Valid() && 1 <= number <= m.columnCount && row < m.rowCount
    ensures RawAt(m, row * m.columnCount + number - 1, missing) == At(m, row, number - 1)
  {
    MulIsProduct(row, m.columnCount);
    FlatInRange(row, number - 1, m.rowCount, m.columnCount);
  }
}
