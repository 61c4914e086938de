/** Elementwise dyadic operations (`processDyadic`, string `add`, the older
  * `mod`): the result takes the larger row and column counts of the two
  * operands and each operand is read with its indices wrapped modulo its own
  * counts, so a scalar or a single row or column is repeated. */
module Broadcast {
  import opened Matrices

  /** The operand cell read for result cell (i, j): row `i mod rowCount`,
    * column `j mod columnCount`. An operand without cells reads `missing`
    * (JavaScript's `i % 0` is NaN and the read is undefined). */
  function WrapAt<T>(m: Matrix<T>, i: nat, j: nat, missing: T): T
    requires m.Valid()
  {
    if m.rowCount == 0 || m.columnCount == 0 then missing
    else At(m, i % m.rowCount, j % m.columnCount)
  }

  /** The elementwise result: cell (i, j) combines the wrapped cells of both operands. */
  function DyadicOf<A, B, C>(a: Matrix<A>, b: Matrix<B>, f: (A, B) -> C, missingA: A, missingB: B): (r: Matrix<C>)
    requires a.Valid() && b.Valid()
    ensures r.Valid() && (r.rowCount, r.columnCount) == DyadicShape(a, b)
    ensures forall i: nat, j: nat :: i < r.rowCount && j < r.columnCount ==>
      At(r, i, j) == f(WrapAt(a, i, j, missingA), WrapAt(b, i, j, missingB))
  {
    var shape := DyadicShape(a, b);
    Build(shape.0, shape.1, (i: nat, j: nat) => f(WrapAt(a, i, j, missingA), WrapAt(b, i, j, missingB)))
  }

  /** `processDyadic`'s loop: `v1[i*columnCount+j] = func(this[i mod rows, j mod cols],
    * value[i mod rows, j mod cols])` over a (max rows × max columns) result. */
  method Dyadic<A, B, C(0)>(a: Matrix<A>, b: Matrix<B>, f: (A, B) -> C, missingA: A, missingB: B)
    returns (r: Matrix<C>)
    requires a.Valid() && b.Valid()
    ensures r == DyadicOf(a, b, f, missingA, missingB)
    ensures r.Valid() && (r.rowCount, r.columnCount) == DyadicShape(a, b)
    ensures forall i: nat, j: nat :: i < r.rowCount && j < r.columnCount ==>
      At(r, i, j) == f(WrapAt(a, i, j, missingA), WrapAt(b, i, j, missingB))
  {
    ghost var spec := DyadicOf(a, b, f, missingA, missingB);
    var shape := DyadicShape(a, b);
    var rowCount, columnCount := shape.0, shape.1;
    var v1 := new C[rowCount * columnCount];
    var i := 0;
    while i < rowCount
      invariant 0 <= i <= rowCount
      invariant Flat(i, 0, columnCount) <= v1.Length
      invariant v1[..Flat(i, 0, columnCount)] == spec.cells[..Flat(i, 0, columnCount)]
    {
      var j := 0;
      while j < columnCount
        invariant 0 <= j <= columnCount
        invariant Flat(i, j, columnCount) <= v1.Length
        invariant v1[..Flat(i, j, columnCount)] == spec.cells[..Flat(i, j, columnCount)]
      {
        FlatInRange(i, j, rowCount, columnCount);
        v1[Flat(i, j, columnCount)] := f(WrapAt(a, i, j, missingA), WrapAt(b, i, j, missingB));
        assert At(spec, i, j) == v1[Flat(i, j, columnCount)];
        j := j + 1;
      }
      i := i + 1;
    }
    r := Matrix(rowCount, columnCount, v1[..]);
    assert v1[..] == v1[..Flat(rowCount, 0, columnCount)] by { MulIsProduct(rowCount, columnCount); }
  }

  /** Operands of equal shape combine cell by cell. */
  lemma SameShapeIsCellwise<A, B>(a: Matrix<A>, b: Matrix<B>, i: nat, j: nat, missingA: A, missingB: B)
    requires a.Valid() && b.Valid()
    requires a.rowCount == b.rowCount && a.columnCount == b.columnCount
    requires i < a.rowCount && j < a.columnCount
    ensures WrapAt(a, i, j, missingA) == At(a, i, j) && WrapAt(b, i, j, missingB) == At(b, i, j)
  {
    assert i % a.rowCount == i && j % a.columnCount == j;
  }

  /** A scalar operand is combined with every cell of the other. */
  lemma ScalarIsRepeated<A, B>(a: Matrix<A>, b: Matrix<B>, i: nat, j: nat, missingA: A, missingB: B)
    requires a.Valid() && b.Valid() && b.rowCount == 1 && b.columnCount == 1
    requires i < a.rowCount && j < a.columnCount
    ensures DyadicShape(a, b) == (a.rowCount, a.columnCount)
    ensures WrapAt(a, i, j, missingA) == At(a, i, j) && WrapAt(b, i, j, missingB) == b.cells[0]
  {
    assert i % a.rowCount == i && j % a.columnCount == j;
    assert i % 1 == 0 && j % 1 == 0;
  }

  /** A single column operand is repeated across the columns of the other. */
  lemma ColumnIsRepeated<A, B>(a: Matrix<A>, b: Matrix<B>, i: nat, j: nat, missingA: A, missingB: B)
    requires a.Valid() && b.Valid() && b.rowCount == a.rowCount && b.columnCount == 1
    requires i < a.rowCount && j < a.columnCount
    ensures WrapAt(b, i, j, missingB) == At(b, i, 0)
  {
    assert i % b.rowCount == i && j % 1 == 0;
  }
}
