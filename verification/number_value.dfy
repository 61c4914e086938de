/** MMNumberValue: a matrix of numbers with unit dimensions. Element values
  * are modelled as integers; every property here is about shape, index
  * mapping, copying and dimension bookkeeping. */
module NumberValues {
  import opened Wrappers
  import opened Matrices
  import opened UnitDims
  import Reshape
  import Broadcast
  import QuickSelect

  datatype NumberValue = NumberValue(m: Matrix<int>, dims: seq<int>)
  {
    predicate Valid() { m.Valid() && IsDims(dims) }
  }

  /** The constructor: every cell 0, dimensions copied or all zero when absent. */
  function NewNumberValue(rowCount: nat, columnCount: nat, dims: Option<seq<int>>): (r: NumberValue)
    requires dims.Some? ==> IsDims(dims.value)
    ensures r.Valid() && r.m.rowCount == rowCount && r.m.columnCount == columnCount
    ensures forall k :: 0 <= k < |r.m.cells| ==> r.m.cells[k] == 0
    ensures r.dims == (if dims.Some? then dims.value else Zero())
  {
    NumberValue(Filled(rowCount, columnCount, 0), if dims.Some? then dims.value else Zero())
  }

  /** `checkUnitDimensionsAreEqualTo`. */
  function CheckUnitDimensionsAreEqualTo(a: seq<int>, b: seq<int>): (r: Result<()>)
    ensures r.Ok? <==> a == b
    ensures r.Err? ==> r.error == "valueUnequalUnitDimensions"
  {
    if a == b then Ok(()) else Err("valueUnequalUnitDimensions")
  }

  /** MMDyadicUnitAction: how the operands' dimensions combine. */
  datatype UnitAction = NoUnits | Equal | MultiplyUnits | DivideUnits | PowerUnits

  /** `processDyadic`: the unit rule of the action, then the elementwise
    * combination over the (max rows × max columns) result. `missing` stands
    * for the undefined read of an operand without cells. */
  method ProcessDyadic(a: NumberValue, b: NumberValue, action: UnitAction, f: (int, int) -> int, missing: int)
    returns (r: Result<NumberValue>)
    requires a.Valid() && b.Valid()
    ensures action == NoUnits ==> (r.Ok? <==> !HasUnitDimensions(a.dims) && !HasUnitDimensions(b.dims))
    ensures action == NoUnits && r.Err? ==> r.error == "formulaFunctionUnitsNone"
    ensures action == Equal ==> (r.Ok? <==> a.dims == b.dims)
    ensures action == Equal && r.Err? ==> r.error == "valueUnequalUnitDimensions"
    ensures action == MultiplyUnits ==> r.Ok? && r.value.dims == DimSum(a.dims, b.dims)
    ensures action == DivideUnits ==> r.Ok? && r.value.dims == DimDiff(a.dims, b.dims)
    ensures action == PowerUnits ==> (
      (r.Ok? <==> !HasUnitDimensions(b.dims) && !(b.m.ValueCount() > 1 && HasUnitDimensions(a.dims))))
    ensures action == PowerUnits && r.Err? ==> (
      r.error == (if HasUnitDimensions(b.dims) then "valuePowerHasUnits" else "valuePowerOfArrayWithUnits"))
    ensures action == PowerUnits && r.Ok? ==> (
      r.value.dims == DimScale(a.dims, if |b.m.cells| > 0 then b.m.cells[0] else missing))
    ensures (action == NoUnits || action == Equal) && r.Ok? ==> r.value.dims == a.dims
    ensures r.Ok? ==> r.value.Valid() && r.value.m == Broadcast.DyadicOf(a.m, b.m, f, missing, missing)
  {
    var d := CopyDims(a.dims);
    match action {
      case NoUnits =>
        if HasUnitDimensions(a.dims) || HasUnitDimensions(b.dims) {
          return Err("formulaFunctionUnitsNone");
        }
      case Equal =>
        var check := CheckUnitDimensionsAreEqualTo(a.dims, b.dims);
        if check.Err? {
          return Err(check.error);
        }
      case MultiplyUnits =>
        AddUnitDimensions(d, b.dims);
      case DivideUnits =>
        SubtractUnitDimensions(d, b.dims);
      case PowerUnits =>
        if HasUnitDimensions(b.dims) {
          return Err("valuePowerHasUnits");
        }
        if b.m.ValueCount() > 1 && HasUnitDimensions(a.dims) {
          return Err("valuePowerOfArrayWithUnits");
        }
        MultiplyUnitDimensions(d, if |b.m.cells| > 0 then b.m.cells[0] else missing);
    }
    var cells := Broadcast.Dyadic(a.m, b.m, f, missing, missing);
    r := Ok(NumberValue(cells, d[..]));
  }

  /** `add`: dimensions must be equal, cells are summed with wrap-around. */
  method Add(a: NumberValue, b: NumberValue) returns (r: Result<NumberValue>)
    requires a.Valid() && b.Valid()
    ensures r.Ok? <==> a.dims == b.dims
    ensures r.Ok? ==> (r.value.Valid() && r.value.dims == a.dims
      && (r.value.m.rowCount, r.value.m.columnCount) == DyadicShape(a.m, b.m))
    ensures r.Ok? && a.m.rowCount == b.m.rowCount && a.m.columnCount == b.m.columnCount ==> (
      forall i: nat, j: nat :: i < a.m.rowCount && j < a.m.columnCount ==>
        At(r.value.m, i, j) == At(a.m, i, j) + At(b.m, i, j))
  {
    r := ProcessDyadic(a, b, Equal, (x, y) => x + y, 0);
    if r.Ok? && a.m.rowCount == b.m.rowCount && a.m.columnCount == b.m.columnCount {
      forall i: nat, j: nat | i < a.m.rowCount && j < a.m.columnCount
        ensures At(r.value.m, i, j) == At(a.m, i, j) + At(b.m, i, j)
      {
        Broadcast.SameShapeIsCellwise(a.m, b.m, i, j, 0, 0);
      }
    }
  }

  /** `multiply`: dimensions add. */
  method Multiply(a: NumberValue, b: NumberValue) returns (r: Result<NumberValue>)
    requires a.Valid() && b.Valid()
    ensures r.Ok? && r.value.Valid() && r.value.dims == DimSum(a.dims, b.dims)
    ensures (r.value.m.rowCount, r.value.m.columnCount) == DyadicShape(a.m, b.m)
  {
    r := ProcessDyadic(a, b, MultiplyUnits, (x, y) => x * y, 0);
  }

  /** `divideBy`: dimensions subtract. The quotient of doubles is not an
    * integer operation, so the element operation is a parameter. */
  method DivideBy(a: NumberValue, b: NumberValue, quotient: (int, int) -> int) returns (r: Result<NumberValue>)
    requires a.Valid() && b.Valid()
    ensures r.Ok? && r.value.Valid() && r.value.dims == DimDiff(a.dims, b.dims)
    ensures (r.value.m.rowCount, r.value.m.columnCount) == DyadicShape(a.m, b.m)
  {
    r := ProcessDyadic(a, b, DivideUnits, quotient, 0);
  }

  /** A product divided by one factor has the dimensions of the other factor. */
  lemma ProductQuotientDims(a: NumberValue, b: NumberValue)
    requires a.Valid() && b.Valid()
    ensures DimDiff(DimSum(a.dims, b.dims), b.dims) == a.dims
  {
    DiffUndoesSum(a.dims, b.dims);
  }

  /** `power`: the exponent must be unitless, and a base with units only takes
    * a scalar exponent; the result dimensions are the base's times the
    * exponent's first value. `Math.pow` on doubles is the parameter `pow`. */
  method Power(a: NumberValue, b: NumberValue, pow: (int, int) -> int, missing: int) returns (r: Result<NumberValue>)
    requires a.Valid() && b.Valid()
    ensures r.Err? <==> HasUnitDimensions(b.dims) || (b.m.ValueCount() > 1 && HasUnitDimensions(a.dims))
    ensures r.Err? && HasUnitDimensions(b.dims) ==> r.error == "valuePowerHasUnits"
    ensures r.Err? && !HasUnitDimensions(b.dims) ==> r.error == "valuePowerOfArrayWithUnits"
    ensures r.Ok? ==> r.value.Valid() && r.value.dims == DimScale(a.dims, if |b.m.cells| > 0 then b.m.cells[0] else missing)
    ensures r.Ok? ==> (r.value.m.rowCount, r.value.m.columnCount) == DyadicShape(a.m, b.m)
  {
    if HasUnitDimensions(b.dims) {
      return Err("valuePowerHasUnits");
    }
    if b.m.ValueCount() > 1 && HasUnitDimensions(a.dims) {
      return Err("valuePowerOfArrayWithUnits");
    }
    r := ProcessDyadic(a, b, PowerUnits, pow, missing);
  }

  function Abs(x: int): nat { if x < 0 then -x else x }

  /** `mod`: dimensions subtract (the divide rule) and each cell is
    * ⌊|a|+0.1⌋ % ⌊|b|+0.1⌋, which for integers is |a| % |b|; a zero divisor
    * gives NaN, here `missing`. */
  method Mod(a: NumberValue, b: NumberValue, missing: int) returns (r: Result<NumberValue>)
    requires a.Valid() && b.Valid()
    ensures r.Ok? && r.value.Valid() && r.value.dims == DimDiff(a.dims, b.dims)
    ensures (r.value.m.rowCount, r.value.m.columnCount) == DyadicShape(a.m, b.m)
    ensures forall i: nat, j: nat :: i < r.value.m.rowCount && j < r.value.m.columnCount ==> (
      At(r.value.m, i, j) == ModOrMissing(Broadcast.WrapAt(a.m, i, j, missing), Broadcast.WrapAt(b.m, i, j, missing), missing))
  {
    r := ProcessDyadic(a, b, DivideUnits, (x, y) => ModOrMissing(x, y, missing), missing);
  }

  function ModOrMissing(x: int, y: int, missing: int): (r: int)
    ensures y != 0 ==> 0 <= r < Abs(y)
  {
    if y == 0 then missing else Abs(x) % Abs(y)
  }

  /** The older `mod` (in MMValue.js): the same remainders, but it gives null
    * as soon as a divisor ⌊|b|+0.1⌋ is not positive, which for an integer b
    * means b = 0. A cell with an operand that has no cells reads `missing`. */
  function OlderModCell(a: Matrix<int>, b: Matrix<int>, i: nat, j: nat, missing: int): int
    requires a.Valid() && b.Valid()
  {
    if a.ValueCount() == 0 || b.ValueCount() == 0 then missing
    else ModOrMissing(Broadcast.WrapAt(a, i, j, missing), Broadcast.WrapAt(b, i, j, missing), missing)
  }

  function OlderModOf(a: Matrix<int>, b: Matrix<int>, missing: int): (r: Matrix<int>)
    requires a.Valid() && b.Valid()
    ensures r.Valid() && (r.rowCount, r.columnCount) == DyadicShape(a, b)
    ensures forall i: nat, j: nat :: i < r.rowCount && j < r.columnCount ==> (
      At(r, i, j) == OlderModCell(a, b, i, j, missing))
  {
    var shape := DyadicShape(a, b);
    Build(shape.0, shape.1, (i: nat, j: nat) => OlderModCell(a, b, i, j, missing))
  }

  /** The divisor read for result cell (i, j), or None where the divisor has no cells. */
  function Divisor(b: Matrix<int>, i: nat, j: nat): Option<int>
    requires b.Valid()
  {
    if b.rowCount == 0 || b.columnCount == 0 then None
    else Some(At(b, i % b.rowCount, j % b.columnCount))
  }

  method OlderMod(a: NumberValue, b: NumberValue, missing: int) returns (r: Option<NumberValue>)
    requires a.Valid() && b.Valid()
    ensures r.None? <==> exists k :: 0 <= k < |b.m.cells| && b.m.cells[k] == 0
    ensures r.Some? ==> (r.value.Valid() && r.value.dims == DimDiff(a.dims, b.dims)
      && r.value.m == OlderModOf(a.m, b.m, missing))
  {
    ghost var spec := OlderModOf(a.m, b.m, missing);
    var shape := DyadicShape(a.m, b.m);
    var rowCount, columnCount := shape.0, shape.1;
    var v1 := new int[rowCount * columnCount];
    var i := 0;
    while i < rowCount
      invariant 0 <= i <= rowCount
      invariant Flat(i, 0, columnCount) <= v1.Length
      invariant v1[..Flat(i, 0, columnCount)] == spec.cells[..Flat(i, 0, columnCount)]
      invariant forall i': nat, j': nat :: i' < i && j' < columnCount ==> Divisor(b.m, i', j') != Some(0)
    {
      var j := 0;
      while j < columnCount
        invariant 0 <= j <= columnCount
        invariant Flat(i, j, columnCount) <= v1.Length
        invariant v1[..Flat(i, j, columnCount)] == spec.cells[..Flat(i, j, columnCount)]
        invariant forall i': nat, j': nat :: i' < i && j' < columnCount ==> Divisor(b.m, i', j') != Some(0)
        invariant forall j': nat :: j' < j ==> Divisor(b.m, i, j') != Some(0)
      {
        if Divisor(b.m, i, j) == Some(0) {
          DivisorZeroIsCell(b.m, i, j);
          return None;
        }
        FlatInRange(i, j, rowCount, columnCount);
        v1[Flat(i, j, columnCount)] := OlderModCell(a.m, b.m, i, j, missing);
        assert At(spec, i, j) == v1[Flat(i, j, columnCount)];
        j := j + 1;
      }
      i := i + 1;
    }
    NoZeroDivisor(b.m, rowCount, columnCount);
    var d := CopyDims(a.dims);
    SubtractUnitDimensions(d, b.dims);
    assert v1[..] == v1[..Flat(rowCount, 0, columnCount)] by { MulIsProduct(rowCount, columnCount); }
    r := Some(NumberValue(Matrix(rowCount, columnCount, v1[..]), d[..]));
  }

  lemma DivisorZeroIsCell(b: Matrix<int>, i: nat, j: nat)
    requires b.Valid() && Divisor(b, i, j) == Some(0)
    ensures exists k :: 0 <= k < |b.cells| && b.cells[k] == 0
  {
    var i', j' := i % b.rowCount, j % b.columnCount;
    FlatInRange(i', j', b.rowCount, b.columnCount);
    assert b.cells[Flat(i', j', b.columnCount)] == 0;
  }

  /** Every cell of the divisor is read by some cell of a result at least as large. */
  lemma NoZeroDivisor(b: Matrix<int>, rowCount: nat, columnCount: nat)
    requires b.Valid() && b.rowCount <= rowCount && b.columnCount <= columnCount
    requires forall i': nat, j': nat :: i' < rowCount && j' < columnCount ==> Divisor(b, i', j') != Some(0)
    ensures forall k :: 0 <= k < |b.cells| ==> b.cells[k] != 0
  {
    forall k | 0 <= k < |b.cells|
      ensures b.cells[k] != 0
    {
      DivInRange(k, b.rowCount, b.columnCount);
      var i, j := k / b.columnCount, k % b.columnCount;
      ModSmall(i, b.rowCount);
      ModSmall(j, b.columnCount);
      assert Divisor(b, i, j) == Some(b.cells[k]);
    }
  }

  lemma ModSmall(x: nat, n: nat)
    requires x < n
    ensures x % n == x
  {
  }

  /** Where no divisor is 0 the older `mod` reads a nonzero divisor for every
    * cell, so each cell is a true remainder, below the divisor's magnitude. */
  lemma OlderModIsRemainder(a: Matrix<int>, b: Matrix<int>, missing: int, i: nat, j: nat)
    requires a.Valid() && b.Valid() && a.ValueCount() > 0 && b.ValueCount() > 0
    requires forall k :: 0 <= k < |b.cells| ==> b.cells[k] != 0
    ensures Broadcast.WrapAt(b, i, j, missing) != 0
    ensures 0 <= OlderModCell(a, b, i, j, missing) < Abs(Broadcast.WrapAt(b, i, j, missing))
  {
    var i', j' := i % b.rowCount, j % b.columnCount;
    FlatInRange(i', j', b.rowCount, b.columnCount);
    assert Broadcast.WrapAt(b, i, j, missing) == b.cells[Flat(i', j', b.columnCount)];
  }

  // ----------------------------------------------------------- reshaping

  /** `transpose`: shape swapped, dimensions kept. */
  method Transpose(v: NumberValue) returns (r: NumberValue)
    requires v.Valid()
    ensures r.Valid() && r.dims == v.dims && r.m == Reshape.Transposed(v.m)
  {
    var t := Reshape.Transpose(v.m);
    r := NumberValue(t, v.dims);
  }

  /** `concat`: only with another number value (None stands for any other
    * kind of value, which gives undefined), dimensions must be equal, one
    * column of this value's cells followed by the other's. */
  method Concat(v: NumberValue, other: Option<NumberValue>) returns (r: Option<Result<NumberValue>>)
    requires v.Valid() && (other.Some? ==> other.value.Valid())
    ensures other.None? ==> r.None?
    ensures other.Some? ==> r.Some? && (r.value.Ok? <==> v.dims == other.value.dims)
    ensures other.Some? && r.value.Ok? ==> (r.value.value.Valid() && r.value.value.dims == v.dims
      && r.value.value.m.columnCount == 1
      && r.value.value.m.rowCount == v.m.ValueCount() + other.value.m.ValueCount()
      && r.value.value.m.cells == v.m.cells + other.value.m.cells)
  {
    if other.None? {
      return None;
    }
    var check := CheckUnitDimensionsAreEqualTo(v.dims, other.value.dims);
    if check.Err? {
      return Some(Err(check.error));
    }
    var c := Reshape.Concat(v.m, other.value.m);
    r := Some(Ok(NumberValue(c, v.dims)));
  }

  /** `append`: a null addition returns this value unchanged; otherwise the
    * dimensions must be equal and the addition's columns follow this value's,
    * its rows wrapping modulo its row count. */
  method Append(v: NumberValue, additions: Option<NumberValue>, missing: int) returns (r: Result<NumberValue>)
    requires v.Valid() && (additions.Some? ==> additions.value.Valid())
    ensures additions.None? ==> r == Ok(v)
    ensures additions.Some? ==> (r.Ok? <==> v.dims == additions.value.dims)
    ensures additions.Some? && r.Ok? ==> (r.value.Valid() && r.value.dims == v.dims
      && r.value.m.rowCount == v.m.rowCount
      && r.value.m.columnCount == v.m.columnCount + additions.value.m.columnCount
      && forall i: nat, j: nat :: i < r.value.m.rowCount && j < r.value.m.columnCount ==>
        At(r.value.m, i, j) == Reshape.AppendedAt(v.m, additions.value.m, i, j, missing))
  {
    if additions.None? {
      return Ok(v);
    }
    var check := CheckUnitDimensionsAreEqualTo(v.dims, additions.value.dims);
    if check.Err? {
      return Err(check.error);
    }
    var a := Reshape.Append(v.m, additions.value.m, missing);
    r := Ok(NumberValue(a, v.dims));
  }

  /** `redimension`: only for a number value with at least one value (None
    * otherwise, the source's undefined); the first value is the column count. */
  function Redimension(v: NumberValue, nColumns: Option<NumberValue>): (r: Option<Result<NumberValue>>)
    requires v.Valid() && (nColumns.Some? ==> nColumns.value.Valid())
    ensures r.Some? <==> nColumns.Some? && nColumns.value.m.ValueCount() > 0
    ensures r.Some? ==> (r.value.Ok? <==> nColumns.value.m.cells[0] > 0 && v.m.ValueCount() % nColumns.value.m.cells[0] == 0)
    ensures r.Some? && r.value.Ok? ==> (r.value.value.Valid() && r.value.value.dims == v.dims
      && r.value.value.m.cells == v.m.cells
      && r.value.value.m.columnCount == nColumns.value.m.cells[0]
      && r.value.value.m.rowCount * r.value.value.m.columnCount == v.m.ValueCount())
  {
    if nColumns.None? || nColumns.value.m.ValueCount() == 0 then None
    else
      var m := Reshape.Redimension(v.m, nColumns.value.m.cells[0]);
      if m.Err? then Some(Err(m.error)) else Some(Ok(NumberValue(m.value, v.dims)))
  }

  /** `columnNumber`. */
  method ColumnNumber(v: NumberValue, number: int, missing: int) returns (r: NumberValue)
    requires v.Valid()
    ensures r.Valid() && r.dims == v.dims
    ensures v.m.columnCount == 1 ==> r == v
    ensures v.m.columnCount != 1 ==> r.m.rowCount == v.m.rowCount && r.m.columnCount == 1
    ensures v.m.columnCount != 1 && 1 <= number <= v.m.columnCount ==> (
      forall row: nat :: row < v.m.rowCount ==> r.m.cells[row] == At(v.m, row, number - 1))
  {
    var c := Reshape.ColumnNumber(v.m, number, missing);
    r := NumberValue(c, v.dims);
    if v.m.columnCount != 1 && 1 <= number <= v.m.columnCount {
      forall row: nat | row < v.m.rowCount
        ensures r.m.cells[row] == At(v.m, row, number - 1)
      {
        Reshape.ColumnNumberInRange(v.m, number, row, missing);
      }
    }
  }

  // ------------------------------------------------------- matrix multiply

  /** Σ_{k < n} a[i, k] · b[k, j]. */
  function DotPrefix(a: Matrix<int>, b: Matrix<int>, i: nat, j: nat, n: nat): int
    requires a.Valid() && b.Valid() && a.columnCount == b.rowCount
    requires i < a.rowCount && j < b.columnCount && n <= a.columnCount
  {
    if n == 0 then 0 else DotPrefix(a, b, i, j, n - 1) + At(a, i, n - 1) * At(b, n - 1, j)
  }

  /** Row i of the product, the middle loop of `matrixMultiply`; the rows
    * before it are left as they were. */
  method ProductRow(a: Matrix<int>, b: Matrix<int>, rValues: array<int>, i: nat)
    requires a.Valid() && b.Valid() && a.columnCount == b.rowCount && i < a.rowCount
    requires rValues.Length == a.rowCount * b.columnCount
    modifies rValues
    ensures forall j': nat :: j' < b.columnCount ==>
      Flat(i, j', b.columnCount) < rValues.Length && rValues[Flat(i, j', b.columnCount)] == DotPrefix(a, b, i, j', a.columnCount)
    ensures forall i': nat, j': nat :: i' < i && j' < b.columnCount ==>
      Flat(i', j', b.columnCount) < rValues.Length && rValues[Flat(i', j', b.columnCount)] == old(rValues[Flat(i', j', b.columnCount)])
  {
    var nRows, nColumns := a.rowCount, b.columnCount;
    forall i': nat, j': nat | i' < i && j' < nColumns
      ensures Flat(i', j', nColumns) < rValues.Length
    {
      FlatInRange(i', j', nRows, nColumns);
    }
    var j := 0;
    while j < nColumns
      invariant 0 <= j <= nColumns
      invariant forall i': nat, j': nat :: i' < i && j' < nColumns ==>
        Flat(i', j', nColumns) < rValues.Length && rValues[Flat(i', j', nColumns)] == old(rValues[Flat(i', j', nColumns)])
      invariant forall j': nat :: j' < j ==>
        Flat(i, j', nColumns) < rValues.Length && rValues[Flat(i, j', nColumns)] == DotPrefix(a, b, i, j', a.columnCount)
    {
      var sum := Dot(a, b, i, j);
      FlatInRange(i, j, nRows, nColumns);
      SlotsDistinct(i, j, nRows, nColumns);
      rValues[Flat(i, j, nColumns)] := sum;
      j := j + 1;
    }
  }

  /** The inner loop of `matrixMultiply`: the sum of products for cell (i, j). */
  method Dot(a: Matrix<int>, b: Matrix<int>, i: nat, j: nat) returns (sum: int)
    requires a.Valid() && b.Valid() && a.columnCount == b.rowCount
    requires i < a.rowCount && j < b.columnCount
    ensures sum == DotPrefix(a, b, i, j, a.columnCount)
  {
    sum := 0;
    var k := 0;
    while k < a.columnCount
      invariant 0 <= k <= a.columnCount
      invariant sum == DotPrefix(a, b, i, j, k)
    {
      sum := sum + At(a, i, k) * At(b, k, j);
      k := k + 1;
    }
  }

  /** `matrixMultiply`: refused unless this value's column count equals the
    * other's row count; rows × other's columns of sums of products, with the
    * dimensions added. */
  method MatrixMultiply(a: NumberValue, b: NumberValue) returns (r: Result<NumberValue>)
    requires a.Valid() && b.Valid()
    ensures r.Ok? <==> a.m.columnCount == b.m.rowCount
    ensures r.Err? ==> r.error == "matrixMultiplyeColsNeRows"
    ensures r.Ok? ==> (r.value.Valid() && r.value.dims == DimSum(a.dims, b.dims)
      && r.value.m.rowCount == a.m.rowCount && r.value.m.columnCount == b.m.columnCount)
    ensures r.Ok? ==> forall i: nat, j: nat :: i < a.m.rowCount && j < b.m.columnCount ==> (
      At(r.value.m, i, j) == DotPrefix(a.m, b.m, i, j, a.m.columnCount))
  {
    if a.m.columnCount != b.m.rowCount {
      return Err("matrixMultiplyeColsNeRows");
    }
    var nRows, nColumns, myColumnCount := a.m.rowCount, b.m.columnCount, a.m.columnCount;
    var rValues := new int[nRows * nColumns];
    var i := 0;
    while i < nRows
      invariant 0 <= i <= nRows
      invariant forall i': nat, j': nat :: i' < i && j' < nColumns ==>
        Flat(i', j', nColumns) < rValues.Length && rValues[Flat(i', j', nColumns)] == DotPrefix(a.m, b.m, i', j', myColumnCount)
    {
      ghost var before := rValues[..];
      ProductRow(a.m, b.m, rValues, i);
      forall i': nat, j': nat | i' < i && j' < nColumns
        ensures rValues[Flat(i', j', nColumns)] == DotPrefix(a.m, b.m, i', j', myColumnCount)
      {
        assert rValues[Flat(i', j', nColumns)] == before[Flat(i', j', nColumns)];
      }
      i := i + 1;
    }
    var d := CopyDims(a.dims);
    AddUnitDimensions(d, b.dims);
    var rv := NumberValue(Matrix(nRows, nColumns, rValues[..]), d[..]);
    forall i: nat, j: nat | i < nRows && j < nColumns
      ensures At(rv.m, i, j) == DotPrefix(a.m, b.m, i, j, myColumnCount)
    {
      assert At(rv.m, i, j) == rValues[Flat(i, j, nColumns)];
    }
    r := Ok(rv);
  }

  /** Multiplying by an identity matrix gives back the value. */
  lemma DotWithIdentity(a: Matrix<int>, e: Matrix<int>, i: nat, j: nat, n: nat)
    requires a.Valid() && e.Valid() && a.columnCount == e.rowCount == e.columnCount
    requires forall p: nat, q: nat :: p < e.rowCount && q < e.columnCount ==> At(e, p, q) == (if p == q then 1 else 0)
    requires i < a.rowCount && j < e.columnCount && n <= a.columnCount
    ensures DotPrefix(a, e, i, j, n) == (if j < n then At(a, i, j) else 0)
    decreases n
  {
    if n > 0 {
      DotWithIdentity(a, e, i, j, n - 1);
    }
  }

  // ------------------------------------------------------------- median

  /** `medianOf` over all values: quickselect on a copy of the values, giving
    * a scalar with this value's dimensions; None where there are no values
    * (the source reads an undefined cell). */
  method MedianOfAll(v: NumberValue) returns (r: Option<NumberValue>)
    requires v.Valid()
    ensures r.None? <==> v.m.ValueCount() == 0
    ensures r.Some? ==> (r.value.Valid() && r.value.dims == v.dims
      && r.value.m.rowCount == 1 && r.value.m.columnCount == 1)
    ensures r.Some? ==> forall t :: QuickSelect.Sorted(t) && multiset(t) == multiset(v.m.cells) ==>
      |t| == |v.m.cells| && r.value.m.cells == [t[(|t| - 1) / 2]]
  {
    var values := new int[|v.m.cells|](k requires 0 <= k < |v.m.cells| => v.m.cells[k]);
    assert values[..] == v.m.cells;
    var x := QuickSelect.Select(values);
    if x.None? {
      return None;
    }
    forall t | QuickSelect.Sorted(t) && multiset(t) == multiset(v.m.cells)
      ensures |t| == |v.m.cells| && [x.value] == [t[(|t| - 1) / 2]]
    {
      QuickSelect.SelectedIsSortedElement(values[..], t, (values.Length - 1) / 2);
    }
    r := Some(NumberValue(Matrix(1, 1, [x.value]), v.dims));
  }
}
