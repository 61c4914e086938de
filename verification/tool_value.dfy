/** MMToolValue: a row-major matrix of tool references. A cell is a tool or
  * empty (the '' or undefined a fresh or padded cell holds). */
module ToolValues {
  import opened Wrappers
  import opened Matrices
  import Reshape
  import NumberValues

  /** The identity of a tool as far as a value holding it is concerned. */
  datatype Tool = Tool(typeName: string, name: string)

  datatype Cell = ToolCell(tool: Tool) | Empty

  class ToolValue {
    const rowCount: nat
    const columnCount: nat
    const values: array<Cell>

    ghost predicate Valid()
      reads this
    {
      values.Length == rowCount * columnCount
    }

    function Value(): (m: Matrix<Cell>)
      reads this, values
      requires Valid()
      ensures m.Valid() && m.rowCount == rowCount && m.columnCount == columnCount
      ensures m.cells == values[..]
    {
      Matrix(rowCount, columnCount, values[..])
    }

    /** A new value has no tools in its cells. */
    constructor (rowCount: nat, columnCount: nat)
      ensures Valid() && fresh(values)
      ensures this.rowCount == rowCount && this.columnCount == columnCount
      ensures forall k :: 0 <= k < values.Length ==> values[k] == Empty
    {
      this.rowCount := rowCount;
      this.columnCount := columnCount;
      values := new Cell[rowCount * columnCount](_ => Empty);
    }

    constructor FromMatrix(m: Matrix<Cell>)
      requires m.Valid()
      ensures Valid() && fresh(values) && Value() == m
    {
      rowCount := m.rowCount;
      columnCount := m.columnCount;
      values := new Cell[|m.cells|](k requires 0 <= k < |m.cells| => m.cells[k]);
    }

    /** `toolArrayValue`: an n × 1 value holding the tools in order. */
    static method ToolArrayValue(tools: seq<Tool>) returns (r: ToolValue)
      ensures fresh(r) && fresh(r.values) && r.Valid()
      ensures r.rowCount == |tools| && r.columnCount == 1
      ensures forall k :: 0 <= k < |tools| ==> r.values[k] == ToolCell(tools[k])
    {
      r := new ToolValue.FromMatrix(Matrix(|tools|, 1, seq(|tools|, k requires 0 <= k < |tools| => ToolCell(tools[k]))));
    }

    /** `setValueAtCount`: a count outside the cells writes no cell. */
    method SetValueAtCount(value: Cell, count: int)
      requires Valid()
      modifies values
      ensures 0 <= count < values.Length ==> values[..] == old(values[..])[count := value]
      ensures !(0 <= count < values.Length) ==> values[..] == old(values[..])
    {
      if 0 <= count < values.Length {
        values[count] := value;
      }
    }

    /** `valueAtCount`: '' (empty) from the value count on; a negative count
      * reads undefined (None). */
    function ValueAtCount(count: int): (r: Option<Cell>)
      reads this, values
      requires Valid()
      ensures r.None? <==> count < 0
      ensures 0 <= count < values.Length ==> r == Some(values[count])
      ensures count >= values.Length ==> r == Some(Empty)
    {
      if count >= values.Length then Some(Empty) else if count < 0 then None else Some(values[count])
    }

    /** `stringWithUnit`: the tool's name for a single value, '---' otherwise;
      * reading the name of an empty single cell throws (None). */
    function StringWithUnit(): (r: Option<string>)
      reads this, values
      requires Valid()
      ensures values.Length != 1 ==> r == Some("---")
      ensures values.Length == 1 ==> (r.Some? <==> values[0].ToolCell?)
      ensures values.Length == 1 && values[0].ToolCell? ==> r == Some(values[0].tool.name)
    {
      if values.Length == 1 then
        (if values[0].ToolCell? then Some(values[0].tool.name) else None)
      else Some("---")
    }

    /** `concat`: with another tool value, one column of this value's tools
      * and then the other's; otherwise undefined (None). */
    method Concat(other: Option<ToolValue>) returns (r: Option<ToolValue>)
      requires Valid() && (other.Some? ==> other.value.Valid())
      ensures r.Some? <==> other.Some?
      ensures r.Some? ==> (fresh(r.value) && r.value.Valid() && r.value.columnCount == 1
        && r.value.rowCount == values.Length + other.value.values.Length
        && r.value.values[..] == values[..] + other.value.values[..])
    {
      if other.None? {
        return None;
      }
      var m := Reshape.Concat(Value(), other.value.Value());
      var rv := new ToolValue.FromMatrix(m);
      r := Some(rv);
    }

    /** `append`: null unless the addition is a tool value with the same row
      * count; then this value's columns followed by the addition's. */
    method Append(additions: Option<ToolValue>) returns (r: Option<ToolValue>)
      requires Valid() && (additions.Some? ==> additions.value.Valid())
      ensures r.Some? <==> additions.Some? && additions.value.rowCount == rowCount
      ensures r.Some? ==> (fresh(r.value) && r.value.Valid()
        && r.value.rowCount == rowCount && r.value.columnCount == columnCount + additions.value.columnCount
        && forall i: nat, j: nat :: i < rowCount && j < r.value.columnCount ==>
             At(r.value.Value(), i, j) ==
               (if j < columnCount then At(Value(), i, j) else At(additions.value.Value(), i, j - columnCount)))
    {
      if additions.None? || additions.value.rowCount != rowCount {
        return None;
      }
      var a, b := Value(), additions.value.Value();
      var m := Reshape.Append(a, b, Empty);
      forall i: nat, j: nat | i < rowCount && j < m.columnCount
        ensures At(m, i, j) == (if j < columnCount then At(a, i, j) else At(b, i, j - columnCount))
      {
        Reshape.AppendSideBySide(a, b, i, j, Empty);
      }
      var rv := new ToolValue.FromMatrix(m);
      r := Some(rv);
    }

    /** `redimension`: only for a number value with values (None otherwise);
      * refused unless the value count divides by its first value; the cells
      * are copied unchanged. */
    method Redimension(nColumns: Option<NumberValues.NumberValue>) returns (r: Option<Result<ToolValue>>)
      requires Valid() && (nColumns.Some? ==> nColumns.value.Valid())
      ensures r.Some? <==> nColumns.Some? && nColumns.value.m.ValueCount() > 0
      ensures r.Some? ==> (r.value.Ok? <==>
        nColumns.value.m.cells[0] > 0 && values.Length % nColumns.value.m.cells[0] == 0)
      ensures r.Some? && r.value.Err? ==> r.value.error == "formulaRedimCountError"
      ensures r.Some? && r.value.Ok? ==> (fresh(r.value.value) && r.value.value.Valid()
        && r.value.value.columnCount == nColumns.value.m.cells[0]
        && r.value.value.rowCount * r.value.value.columnCount == values.Length
        && r.value.value.values[..] == values[..])
    {
      if nColumns.None? || nColumns.value.m.ValueCount() == 0 {
        return None;
      }
      var m := Reshape.Redimension(Value(), nColumns.value.m.cells[0]);
      if m.Err? {
        return Some(Err(m.error));
      }
      var rv := new ToolValue.FromMatrix(m.value);
      r := Some(Ok(rv));
    }

    /** `transpose`. */
    method Transpose() returns (r: ToolValue)
      requires Valid()
      ensures fresh(r) && r.Valid() && r.Value() == Reshape.Transposed(Value())
      ensures r.rowCount == columnCount && r.columnCount == rowCount
    {
      var m := Reshape.Transpose(Value());
      r := new ToolValue.FromMatrix(m);
    }
  }

  // --------------------------------------------------- valueDescribedBy

  /** What a tool's own `valueDescribedBy` returns, as far as gathering is
    * concerned: a number, string or tool value, or some other value. */
  datatype Described =
    | DNumber(n: NumberValues.NumberValue)
    | DString(s: Matrix<string>)
    | DTool(t: Matrix<Cell>)
    | DOther

  predicate SameKind(a: Described, b: Described)
  {
    (a.DNumber? && b.DNumber?) || (a.DString? && b.DString?) || (a.DTool? && b.DTool?) || (a.DOther? && b.DOther?)
  }

  predicate WellFormed(d: Described)
  {
    match d
    case DNumber(n) => n.Valid()
    case DString(s) => s.Valid()
    case DTool(t) => t.Valid()
    case DOther => true
  }

  /** `concat` of two described values of one kind: one column of both cell
    * lists; numbers must have equal unit dimensions. */
  function ConcatDescribed(a: Described, b: Described): (r: Result<Described>)
    requires SameKind(a, b) && !a.DOther? && WellFormed(a) && WellFormed(b)
    ensures r.Err? <==> a.DNumber? && a.n.dims != b.n.dims
    ensures r.Ok? ==> SameKind(r.value, a) && WellFormed(r.value)
    ensures r.Ok? && a.DNumber? ==> r.value.n.m.cells == a.n.m.cells + b.n.m.cells && r.value.n.dims == a.n.dims
  {
    match a
    case DNumber(n) =>
      if n.dims != b.n.dims then Err("valueUnequalUnitDimensions")
      else Ok(DNumber(NumberValues.NumberValue(Matrix(|n.m.cells| + |b.n.m.cells|, 1, n.m.cells + b.n.m.cells), n.dims)))
    case DString(s) => Ok(DString(Matrix(|s.cells| + |b.s.cells|, 1, s.cells + b.s.cells)))
    case DTool(t) => Ok(DTool(Matrix(|t.cells| + |b.t.cells|, 1, t.cells + b.t.cells)))
  }

  /** The gathering after the first tool, over cells[1..i): an empty cell ends
    * everything with null; a value of the first value's kind is concatenated;
    * anything else is skipped. */
  function Gathered(cells: seq<Cell>, describe: Tool -> Option<Described>, first: Described, i: nat): (r: Result<Option<Described>>)
    requires 1 <= i <= |cells| && !first.DOther? && WellFormed(first)
    requires forall t :: describe(t).Some? ==> WellFormed(describe(t).value)
    ensures r.Ok? && r.value.Some? ==> SameKind(r.value.value, first) && WellFormed(r.value.value)
    decreases i
  {
    if i == 1 then Ok(Some(first))
    else
      var prev := Gathered(cells, describe, first, i - 1);
      if prev.Err? || prev.value.None? then prev
      else if cells[i - 1].Empty? then Ok(None)
      else
        var value := describe(cells[i - 1].tool);
        if value.Some? && SameKind(value.value, first) then
          var c := ConcatDescribed(prev.value.value, value.value);
          if c.Err? then Err(c.error) else Ok(Some(c.value))
        else prev
  }

  /** `valueDescribedBy` of a tool value: one tool answers for itself; for
    * several, the first tool's answer must be a number, string or tool value
    * and the answers of the same kind from the others are concatenated. */
  method ValueDescribedBy(v: ToolValue, describe: Tool -> Option<Described>) returns (r: Result<Option<Described>>)
    requires v.Valid()
    requires forall t :: describe(t).Some? ==> WellFormed(describe(t).value)
    ensures v.values.Length == 0 ==> r == Ok(None)
    ensures v.values.Length == 1 ==> r == Ok(if v.values[0].Empty? then None else describe(v.values[0].tool))
    ensures (v.values.Length > 1 && (v.values[0].Empty? || describe(v.values[0].tool).None?
      || describe(v.values[0].tool).value.DOther?)) ==> r == Ok(None)
    ensures (v.values.Length > 1 && v.values[0].ToolCell? && describe(v.values[0].tool).Some?
      && !describe(v.values[0].tool).value.DOther?) ==>
        r == Gathered(v.values[..], describe, describe(v.values[0].tool).value, v.values.Length)
  {
    var n := v.values.Length;
    if n == 0 {
      return Ok(None);
    }
    if n == 1 {
      var tool := v.values[0];
      return Ok(if tool.Empty? then None else describe(tool.tool));
    }
    var firstTool := v.values[0];
    if firstTool.Empty? {
      return Ok(None);
    }
    var firstValue := describe(firstTool.tool);
    if firstValue.None? || firstValue.value.DOther? {
      return Ok(None);
    }
    var rv := firstValue.value;
    var i := 1;
    while i < n
      invariant 1 <= i <= n
      invariant Gathered(v.values[..], describe, firstValue.value, i) == Ok(Some(rv))
    {
      var tool := v.ValueAtCount(i);
      if tool.value.Empty? {
        r := Ok(None);
        NoneStaysNone(v.values[..], describe, firstValue.value, i + 1, n);
        return;
      }
      var value := describe(tool.value.tool);
      if value.Some? && SameKind(value.value, firstValue.value) {
        var c := ConcatDescribed(rv, value.value);
        if c.Err? {
          r := Err(c.error);
          NoneStaysNone(v.values[..], describe, firstValue.value, i + 1, n);
          return;
        }
        rv := c.value;
      }
      i := i + 1;
    }
    r := Ok(Some(rv));
  }

  /** Once the gathering has ended (null or an error), it stays ended. */
  lemma {:induction false} NoneStaysNone(cells: seq<Cell>, describe: Tool -> Option<Described>, first: Described, i: nat, j: nat)
    requires 1 <= i <= j <= |cells| && !first.DOther? && WellFormed(first)
    requires forall t :: describe(t).Some? ==> WellFormed(describe(t).value)
    requires Gathered(cells, describe, first, i).Err? || Gathered(cells, describe, first, i).value.None?
    ensures Gathered(cells, describe, first, j) == Gathered(cells, describe, first, i)
    decreases j - i
  {
    if i < j {
      NoneStaysNone(cells, describe, first, i, j - 1);
    }
  }

  /** When every tool answers with a number value of the first one's
    * dimensions, the gathered value is one column of all their cells in
    * order. */
  lemma {:induction false} GatheredNumbers(cells: seq<Cell>, describe: Tool -> Option<Described>, first: Described, i: nat)
    requires 1 <= i <= |cells| && first.DNumber? && first.n.Valid()
    requires forall t :: describe(t).Some? ==> WellFormed(describe(t).value)
    requires forall k :: 1 <= k < i ==> IsNumberTool(cells[k], describe) && describe(cells[k].tool).value.n.dims == first.n.dims
    ensures Gathered(cells, describe, first, i).Ok? && Gathered(cells, describe, first, i).value.Some?
    ensures Gathered(cells, describe, first, i).value.value.n.dims == first.n.dims
    ensures Gathered(cells, describe, first, i).value.value.n.m.cells ==
      first.n.m.cells + NumberCells(cells, describe, 1, i)
    decreases i
  {
    if i > 1 {
      GatheredNumbers(cells, describe, first, i - 1);
    }
  }

  /** The number cells the tools at [lo, hi) answer with, in order. */
  function NumberCells(cells: seq<Cell>, describe: Tool -> Option<Described>, lo: nat, hi: nat): seq<int>
    requires lo <= hi <= |cells|
    requires forall k :: lo <= k < hi ==> IsNumberTool(cells[k], describe)
    decreases hi
  {
    if lo == hi then [] else
      assert IsNumberTool(cells[hi - 1], describe);
      NumberCells(cells, describe, lo, hi - 1) + describe(cells[hi - 1].tool).value.n.m.cells
  }

  predicate IsNumberTool(c: Cell, describe: Tool -> Option<Described>)
  {
    c.ToolCell? && describe(c.tool).Some? && describe(c.tool).value.DNumber?
  }
}
