/** MMStringValue: a row-major matrix of strings whose cells are written in
  * place. Results of the reshaping and elementwise operations are fresh
  * values filled by the generic loops of Reshape and Broadcast. */
module StringValues {
  import opened Wrappers
  import opened Matrices
  import opened Strs
  import Reshape
  import Broadcast
  import NumberValues
  import UnitDims

  class StringValue {
    const rowCount: nat
    const columnCount: nat
    const values: array<string>

    ghost predicate Valid()
      reads this
    {
      values.Length == rowCount * columnCount
    }

    /** The value as a matrix of its current cells. */
    function Value(): (m: Matrix<string>)
      reads this, values
      requires Valid()
      ensures m.Valid() && m.rowCount == rowCount && m.columnCount == columnCount
      ensures m.cells == values[..]
    {
      Matrix(rowCount, columnCount, values[..])
    }

    /** A new value has every cell set to ''. */
    constructor (rowCount: nat, columnCount: nat)
      ensures Valid() && fresh(values)
      ensures this.rowCount == rowCount && this.columnCount == columnCount
      ensures forall k :: 0 <= k < values.Length ==> values[k] == ""
    {
      this.rowCount := rowCount;
      this.columnCount := columnCount;
      values := new string[rowCount * columnCount](_ => "");
    }

    /** A value holding the cells of `m`, as the operations below return. */
    constructor FromMatrix(m: Matrix<string>)
      requires m.Valid()
      ensures Valid() && fresh(values) && Value() == m
    {
      rowCount := m.rowCount;
      columnCount := m.columnCount;
      values := new string[|m.cells|](k requires 0 <= k < |m.cells| => m.cells[k]);
    }

    /** `stringArrayValue`: an n × 1 value holding the strings in order. */
    static method StringArrayValue(strings: seq<string>) returns (r: StringValue)
      ensures fresh(r) && fresh(r.values) && r.Valid()
      ensures r.rowCount == |strings| && r.columnCount == 1 && r.values[..] == strings
    {
      r := new StringValue.FromMatrix(Matrix(|strings|, 1, strings));
    }

    /** `setAllValuesTo`. */
    method SetAllValuesTo(value: string)
      requires Valid()
      modifies values
      ensures forall k :: 0 <= k < values.Length ==> values[k] == value
    {
      var k := 0;
      while k < values.Length
        invariant 0 <= k <= values.Length
        invariant forall k' :: 0 <= k' < k ==> values[k'] == value
      {
        values[k] := value;
        k := k + 1;
      }
    }

    /** `setValue`: bounds check, then the cell at `offsetFor`. An offset that
      * a negative index puts outside the storage writes no cell. */
    method SetValue(value: string, row: int, column: int) returns (r: Result<()>)
      requires Valid()
      modifies values
      ensures r.Err? <==> CheckBounds(Value(), row, column).Err?
      ensures r.Err? ==> r.error == "valueMatrixBoundsError" && values[..] == old(values[..])
      ensures r.Ok? ==> (values[..] ==
        (var k := OffsetFor(row, column, columnCount);
         if 0 <= k < values.Length then old(values[..])[k := value] else old(values[..])))
    {
      r := CheckBounds(Value(), row, column);
      if r.Err? {
        return;
      }
      var k := OffsetFor(row, column, columnCount);
      if 0 <= k < values.Length {
        values[k] := value;
      }
    }

    /** `setValueAtCount`: a missing (falsy) value is stored as ''; a count
      * outside the cells writes no cell. */
    method SetValueAtCount(value: Option<string>, count: int)
      requires Valid()
      modifies values
      ensures 0 <= count < values.Length ==> values[..] == old(values[..])[count := OrDefault(value, "")]
      ensures !(0 <= count < values.Length) ==> values[..] == old(values[..])
    {
      if 0 <= count < values.Length {
        values[count] := OrDefault(value, "");
      }
    }

    /** `valueAtCount`: '' from the value count on; a negative count reads
      * undefined (None). */
    function ValueAtCount(count: int): (r: Option<string>)
      reads this, values
      requires Valid()
      ensures r.None? <==> count < 0
      ensures 0 <= count < values.Length ==> r == Some(values[count])
      ensures count >= values.Length ==> r == Some("")
    {
      if count >= values.Length then Some("") else if count < 0 then None else Some(values[count])
    }

    /** `stringWithUnit`: the unit is ignored. */
    function StringWithUnit(): (r: string)
      reads this, values
      requires Valid()
    {
      if values.Length == 1 then values[0]
      else if values.Length > 1 then values[0] + "...[" + NatToString(rowCount) + ", " + NatToString(columnCount) + "]"
      else "---"
    }

    /** `columnNumber`: this value itself when it has one column, else a
      * rowCount × 1 copy of column `number` read through `valueAtRowColumn`,
      * which rejects a column of 0 or past the end as soon as there is a row. */
    method ColumnNumber(number: int, missing: string) returns (r: Result<StringValue>)
      requires Valid()
      ensures columnCount == 1 ==> r == Ok(this)
      ensures columnCount != 1 ==> (r.Err? <==> rowCount > 0 && (number == 0 || number > columnCount))
      ensures columnCount != 1 && r.Ok? ==> (fresh(r.value) && r.value.Valid()
        && r.value.rowCount == rowCount && r.value.columnCount == 1
        && forall row :: 0 <= row < rowCount ==>
             Ok(r.value.values[row]) == ValueAtRowColumn(Value(), row + 1, number, missing))
      ensures columnCount != 1 && r.Ok? && 1 <= number <= columnCount ==>
        forall row :: 0 <= row < rowCount ==> r.value.values[row] == At(Value(), row, number - 1)
    {
      if columnCount == 1 {
        return Ok(this);
      }
      var rv := new StringValue(rowCount, 1);
      var row := 1;
      while row <= rowCount
        invariant 1 <= row <= rowCount + 1
        invariant rv.Valid() && rv.rowCount == rowCount && rv.columnCount == 1
        invariant forall k :: 0 <= k < row - 1 ==> Ok(rv.values[k]) == ValueAtRowColumn(Value(), k + 1, number, missing)
        invariant row > 1 ==> !(number == 0 || number > columnCount)
      {
        var v := ValueAtRowColumn(Value(), row, number, missing);
        if v.Err? {
          return Err(v.error);
        }
        OffsetForLayout(rowCount, 1, row, 1);
        var written := rv.SetValue(v.value, row, 1);
        assert OffsetFor(row, 1, 1) == row - 1;
        row := row + 1;
      }
      r := Ok(rv);
    }

    /** `append`: null unless the addition is a string value with the same
      * row count; then this value's columns followed by the addition's. */
    method Append(additions: Option<StringValue>) returns (r: Option<StringValue>)
      requires Valid() && (additions.Some? ==> additions.value.Valid())
      ensures r.Some? <==> additions.Some? && additions.value.rowCount == rowCount
      ensures r.Some? ==> (fresh(r.value) && r.value.Valid()
        && r.value.rowCount == rowCount && r.value.columnCount == columnCount + additions.value.columnCount
        && forall i: nat, j: nat :: i < rowCount && j < r.value.columnCount ==>
             At(r.value.Value(), i, j) ==
               (if j < columnCount then At(Value(), i, j) else At(additions.value.Value(), i, j - columnCount)))
    {
      if additions.None? || additions.value.rowCount != rowCount {
        return None;
      }
      var a, b := Value(), additions.value.Value();
      var m := Reshape.Append(a, b, "");
      forall i: nat, j: nat | i < rowCount && j < m.columnCount
        ensures At(m, i, j) == (if j < columnCount then At(a, i, j) else At(b, i, j - columnCount))
      {
        Reshape.AppendSideBySide(a, b, i, j, "");
      }
      var rv := new StringValue.FromMatrix(m);
      r := Some(rv);
    }

    /** `transpose`. */
    method Transpose() returns (r: StringValue)
      requires Valid()
      ensures fresh(r) && r.Valid() && r.Value() == Reshape.Transposed(Value())
      ensures r.rowCount == columnCount && r.columnCount == rowCount
    {
      var m := Reshape.Transpose(Value());
      r := new StringValue.FromMatrix(m);
    }

    /** `add`: elementwise concatenation over the (max rows × max columns)
      * shape, each operand's indices wrapped by its own counts. */
    method Add(value: StringValue, missing: string) returns (r: StringValue)
      requires Valid() && value.Valid()
      ensures fresh(r) && r.Valid()
      ensures r.Value() == Broadcast.DyadicOf(Value(), value.Value(), (x: string, y: string) => x + y, missing, missing)
    {
      var m := Broadcast.Dyadic(Value(), value.Value(), (x: string, y: string) => x + y, missing, missing);
      r := new StringValue.FromMatrix(m);
    }

    /** `concat`: with another string value, one column holding this value's
      * strings and then the other's; with anything else, undefined (None). */
    method Concat(other: Option<StringValue>) returns (r: Option<StringValue>)
      requires Valid() && (other.Some? ==> other.value.Valid())
      ensures r.Some? <==> other.Some?
      ensures r.Some? ==> (fresh(r.value) && r.value.Valid() && r.value.columnCount == 1
        && r.value.values[..] == values[..] + other.value.values[..])
    {
      if other.None? {
        return None;
      }
      var m := Reshape.Concat(Value(), other.value.Value());
      var rv := new StringValue.FromMatrix(m);
      r := Some(rv);
    }

    /** `numberValue` as written: it parses every cell but stores the parsed
      * numbers back into this value's own cells, so the number value it
      * returns keeps the zeros it was created with. A stored number is
      * written as its decimal text, the cells holding strings. */
    method NumberValueAsWritten(parse: string -> Option<int>) returns (r: NumberValues.NumberValue)
      requires Valid()
      modifies values
      ensures r.Valid() && r.m.rowCount == rowCount && r.m.columnCount == columnCount
      ensures r.dims == UnitDims.Zero()
      ensures r.m.cells == seq(values.Length, _ => 0)
      ensures forall k :: 0 <= k < values.Length ==> values[k] == IntToString(ParsedOrZero(parse, old(values[k])))
    {
      r := NumberValues.NewNumberValue(rowCount, columnCount, None);
      var i := 0;
      while i < values.Length
        invariant 0 <= i <= values.Length
        invariant forall k :: 0 <= k < i ==> values[k] == IntToString(ParsedOrZero(parse, old(values[k])))
        invariant forall k :: i <= k < values.Length ==> values[k] == old(values[k])
      {
        values[i] := IntToString(ParsedOrZero(parse, values[i]));
        i := i + 1;
      }
    }

    /** `numberValue` as intended: each cell parsed, 0 where it is not a
      * finite nonzero number. */
    method NumberValue(parse: string -> Option<int>) returns (r: NumberValues.NumberValue)
      requires Valid()
      ensures r.Valid() && r.m.rowCount == rowCount && r.m.columnCount == columnCount
      ensures r.dims == UnitDims.Zero()
      ensures r.m.cells == ParsedCells(values[..], parse)
    {
      var rv := new int[values.Length];
      var i := 0;
      while i < values.Length
        invariant 0 <= i <= values.Length
        invariant forall k :: 0 <= k < i ==> rv[k] == ParsedOrZero(parse, values[k])
      {
        rv[i] := ParsedOrZero(parse, values[i]);
        i := i + 1;
      }
      r := NumberValues.NumberValue(Matrix(rowCount, columnCount, rv[..]), UnitDims.Zero());
      assert rv[..] == ParsedCells(values[..], parse);
    }
  }

  /** `parseFloat` is a parameter: None stands for NaN or an infinite result. */
  function ParsedOrZero(parse: string -> Option<int>, s: string): int
  {
    if parse(s).Some? then parse(s).value else 0
  }

  /** Each cell parsed, 0 where it is not a finite nonzero number. */
  function ParsedCells(cells: seq<string>, parse: string -> Option<int>): (r: seq<int>)
    ensures |r| == |cells|
    ensures forall k :: 0 <= k < |cells| && parse(cells[k]).Some? ==> r[k] == parse(cells[k]).value
    ensures forall k :: 0 <= k < |cells| && parse(cells[k]).None? ==> r[k] == 0
  {
    seq(|cells|, k requires 0 <= k < |cells| => ParsedOrZero(parse, cells[k]))
  }

  /** A one-cell string value holding "5": the intended conversion gives 5,
    * the value as written gives 0. */
  lemma NumberValueCounterexample()
    ensures var parse := (s: string) => if s == "5" then Some(5) else None;
      ParsedCells(["5"], parse) == [5] && ParsedCells(["5"], parse) != seq(1, _ => 0)
  {
    var parse := (s: string) => if s == "5" then Some(5) else None;
    var r := ParsedCells(["5"], parse);
    assert r[0] == 5;
    assert r == [5];
    assert seq(1, _ => 0)[0] == 0;
  }

  /** `stringWithUnit` of a single value is that value; of none it is '---'. */
  lemma StringWithUnitCases(v: StringValue)
    requires v.Valid()
    ensures v.values.Length == 0 ==> v.StringWithUnit() == "---"
    ensures v.values.Length == 1 ==> v.StringWithUnit() == v.values[0]
    ensures v.values.Length > 1 ==> (v.StringWithUnit()[..|v.values[0]|] == v.values[0]
      && v.StringWithUnit()[|v.StringWithUnit()| - 1] == ']')
  {
  }
}
