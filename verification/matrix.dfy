/** The storage shared by every MMValue: `rowCount` × `columnCount` cells kept
  * row-major in one flat sequence, addressed from outside with 1-based
  * (row, column) pairs. */
module Matrices {
  import opened Wrappers

  datatype Matrix<T> = Matrix(rowCount: nat, columnCount: nat, cells: seq<T>)
  {
    /** `valueCount` is `rowCount * columnCount` for every value. */
    predicate Valid() { |cells| == rowCount * columnCount }

    function ValueCount(): nat { rowCount * columnCount }
  }

  /** `a * b`, written so that the solver only multiplies through `MulIsProduct`. */
  function Mul(a: nat, b: nat): nat
  {
    if a == 0 then 0 else Mul(a - 1, b) + b
  }

  lemma {:induction false} MulIsProduct(a: nat, b: nat)
    ensures Mul(a, b) == a * b
  {
    if a != 0 { MulIsProduct(a - 1, b); }
  }

  /** Index of the 0-based cell (i, j) in a row-major layout with `columnCount` columns. */
  function Flat(i: nat, j: nat, columnCount: nat): nat { Mul(i, columnCount) + j }

  lemma FlatInRange(i: nat, j: nat, rowCount: nat, columnCount: nat)
    requires i < rowCount && j < columnCount
    ensures Flat(i, j, columnCount) < rowCount * columnCount
  {
    MulIsProduct(i, columnCount);
    calc {
      i * columnCount + j;
    <
      i * columnCount + columnCount;
    ==
      (i + 1) * columnCount;
    <=  { MulMonotone(i + 1, rowCount, columnCount); }
      rowCount * columnCount;
    }
  }

  lemma MulMonotone(a: nat, b: nat, c: nat)
    requires a <= b
    ensures a * c <= b * c
  {
  }

  /** Euclidean division recovers the row and column of a flat index. */
  lemma FlatDivMod(i: nat, j: nat, columnCount: nat)
    requires j < columnCount
    ensures Flat(i, j, columnCount) / columnCount == i
    ensures Flat(i, j, columnCount) % columnCount == j
  {
    MulIsProduct(i, columnCount);
    DivModUnique(i * columnCount + j, columnCount, i, j);
  }

  lemma DivModUnique(k: nat, d: nat, q: nat, r: nat)
    requires r < d && k == q * d + r
    ensures k / d == q && k % d == r
  {
    var q', r' := k / d, k % d;
    assert k == q' * d + r';
    if q' > q {
      MulMonotone(q + 1, q', d);
      assert false;
    } else if q' < q {
      MulMonotone(q' + 1, q, d);
      assert false;
    }
  }

  lemma DivInRange(k: nat, rowCount: nat, columnCount: nat)
    requires k < rowCount * columnCount
    ensures columnCount > 0
    ensures k / columnCount < rowCount && k % columnCount < columnCount
    ensures Flat(k / columnCount, k % columnCount, columnCount) == k
  {
    MulIsProduct(k / columnCount, columnCount);
    if k / columnCount >= rowCount {
      MulMonotone(rowCount, k / columnCount, columnCount);
      assert false;
    }
  }

  /** Writing slot (i, j) never overwrites another slot of the same shape. */
  lemma SlotsDistinct(i: nat, j: nat, rowCount: nat, columnCount: nat)
    requires i < rowCount && j < columnCount
    ensures forall i': nat, j': nat :: i' < rowCount && j' < columnCount && (i', j') != (i, j) ==>
      Flat(i', j', columnCount) != Flat(i, j, columnCount)
  {
    forall i': nat, j': nat | i' < rowCount && j' < columnCount && (i', j') != (i, j)
      ensures Flat(i', j', columnCount) != Flat(i, j, columnCount)
    {
      FlatDivMod(i', j', columnCount);
      FlatDivMod(i, j, columnCount);
    }
  }

  /** The cell at 0-based row `i` and column `j`. */
  function At<T>(m: Matrix<T>, i: nat, j: nat): T
    requires m.Valid() && i < m.rowCount && j < m.columnCount
  {
    FlatInRange(i, j, m.rowCount, m.columnCount);
    m.cells[Flat(i, j, m.columnCount)]
  }

  /** The matrix whose cell (i, j) is `f(i, j)`. */
  function Build<T>(rowCount: nat, columnCount: nat, f: (nat, nat) --> T): (r: Matrix<T>)
    requires forall i: nat, j: nat :: i < rowCount && j < columnCount ==> f.requires(i, j)
    ensures r.Valid() && r.rowCount == rowCount && r.columnCount == columnCount
    ensures forall i: nat, j: nat :: i < rowCount && j < columnCount ==> At(r, i, j) == f(i, j)
  {
    var cells := seq(rowCount * columnCount, (k: nat) requires k < rowCount * columnCount =>
      DivInRange(k, rowCount, columnCount); f(k / columnCount, k % columnCount));
    var r := Matrix(rowCount, columnCount, cells);
    assert forall i: nat, j: nat :: i < rowCount && j < columnCount ==> At(r, i, j) == f(i, j) by {
      forall i: nat, j: nat | i < rowCount && j < columnCount
        ensures At(r, i, j) == f(i, j)
      {
        FlatInRange(i, j, rowCount, columnCount);
        FlatDivMod(i, j, columnCount);
      }
    }
    r
  }

  /** Two values of the same shape with the same cells are the same value. */
  lemma Extensional<T>(a: Matrix<T>, b: Matrix<T>)
    requires a.Valid() && b.Valid()
    requires a.rowCount == b.rowCount && a.columnCount == b.columnCount
    requires forall i: nat, j: nat :: i < a.rowCount && j < a.columnCount ==> At(a, i, j) == At(b, i, j)
    ensures a == b
  {
    forall k | 0 <= k < |a.cells|
      ensures a.cells[k] == b.cells[k]
    {
      DivInRange(k, a.rowCount, a.columnCount);
      assert At(a, k / a.columnCount, k % a.columnCount) == At(b, k / a.columnCount, k % a.columnCount);
    }
  }

  /** `offsetFor(row, column)` of MMValue: the flat index of a 1-based (row, column). */
  function OffsetFor(row: int, column: int, columnCount: nat): (r: int)
    ensures 1 <= row && 1 <= column ==> r == Flat(row - 1, column - 1, columnCount)
  {
    if 1 <= row then MulIsProduct(row - 1, columnCount); (row - 1) * columnCount + column - 1
    else (row - 1) * columnCount + column - 1
  }

  /** The offsets of the cells of a value are exactly 0 .. valueCount-1, in row-major order. */
  lemma OffsetForLayout(rowCount: nat, columnCount: nat, row: int, column: int)
    requires 1 <= row <= rowCount && 1 <= column <= columnCount
    ensures 0 <= OffsetFor(row, column, columnCount) < rowCount * columnCount
    ensures column < columnCount ==> OffsetFor(row, column + 1, columnCount) == OffsetFor(row, column, columnCount) + 1
    ensures row < rowCount ==> OffsetFor(row + 1, 1, columnCount) == OffsetFor(row, columnCount, columnCount) + 1
  {
    FlatInRange(row - 1, column - 1, rowCount, columnCount);
  }

  lemma OffsetForInjective(columnCount: nat, r1: int, c1: int, r2: int, c2: int)
    requires 1 <= r1 && 1 <= c1 <= columnCount && 1 <= r2 && 1 <= c2 <= columnCount
    requires OffsetFor(r1, c1, columnCount) == OffsetFor(r2, c2, columnCount)
    ensures r1 == r2 && c1 == c2
  {
    FlatDivMod(r1 - 1, c1 - 1, columnCount);
    FlatDivMod(r2 - 1, c2 - 1, columnCount);
  }

  /** `checkBounds`: only a zero index or one past the count is refused. */
  function CheckBounds<T>(m: Matrix<T>, row: int, column: int): (r: Result<()>)
    ensures r.Ok? <==> !(row == 0 || column == 0 || row > m.rowCount || column > m.columnCount)
    ensures r.Err? ==> r.error == "valueMatrixBoundsError"
  {
    if row == 0 || column == 0 || row > m.rowCount as int || column > m.columnCount as int
    then Err("valueMatrixBoundsError")
    else Ok(())
  }

  /** For indices that are not negative the check accepts exactly the cells of the value. */
  lemma CheckBoundsNonNegative<T>(m: Matrix<T>, row: nat, column: nat)
    ensures CheckBounds(m, row, column).Ok? <==> 1 <= row <= m.rowCount && 1 <= column <= m.columnCount
  {
  }

  /** `valueAtRowColumn`: bounds check, then the cell at `offsetFor`. A negative
    * index passes the check; its offset may still land on a cell (a negative
    * column reads back into the previous row) or fall outside the storage,
    * where JavaScript yields undefined, here `missing`. */
  function ValueAtRowColumn<T>(m: Matrix<T>, row: int, column: int, missing: T): (r: Result<T>)
    requires m.Valid()
    ensures r.Err? <==> CheckBounds(m, row, column).Err?
    ensures r.Err? ==> r.error == "valueMatrixBoundsError"
    ensures 1 <= row <= m.rowCount && 1 <= column <= m.columnCount ==> r == Ok(At(m, row - 1, column - 1))
    ensures r.Ok? && !(0 <= OffsetFor(row, column, m.columnCount) < |m.cells|) ==> r.value == missing
  {
    if CheckBounds(m, row, column).Err? then Err("valueMatrixBoundsError")
    else if 1 <= row && 1 <= column then
      OffsetForLayout(m.rowCount, m.columnCount, row, column);
      Ok(m.cells[OffsetFor(row, column, m.columnCount)])
    else
      var k := OffsetFor(row, column, m.columnCount);
      if 0 <= k < |m.cells| then Ok(m.cells[k]) else Ok(missing)
  }

  function Max(a: nat, b: nat): nat { if a > b then a else b }

  /** `dyadicNumberResult` / `dyadicStringResult`: the shape of an elementwise result. */
  function DyadicShape<T, U>(a: Matrix<T>, b: Matrix<U>): (r: (nat, nat))
    ensures r.0 >= a.rowCount && r.0 >= b.rowCount && (r.0 == a.rowCount || r.0 == b.rowCount)
    ensures r.1 >= a.columnCount && r.1 >= b.columnCount && (r.1 == a.columnCount || r.1 == b.columnCount)
  {
    (Max(a.rowCount, b.rowCount), Max(a.columnCount, b.columnCount))
  }

  /** A fresh value of the given shape with every cell set to `init` (the constructors). */
  function Filled<T>(rowCount: nat, columnCount: nat, init: T): (r: Matrix<T>)
    ensures r.Valid() && r.rowCount == rowCount && r.columnCount == columnCount
    ensures forall k :: 0 <= k < |r.cells| ==> r.cells[k] == init
  {
    Matrix(rowCount, columnCount, seq(rowCount * columnCount, _ => init))
  }
}
