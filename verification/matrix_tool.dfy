/** The matrix tool (`MMMatrix`): a grid whose cells take their values from
  * the cell inputs, calculated row by row, with as many rows and columns as
  * its two count formulas give. */
module MatrixTools {
  import opened Wrappers
  import opened Matrices
  import opened CommandTrees
  import opened CommandReading
  import opened Tools
  import opened MatrixCells

  /** The value of a count formula: its first number and whether it has a
    * unit. It is absent when the formula gives no number or no element. */
  datatype CountValue = CountValue(first: int, hasUnit: bool)

  /** The row or column count the getter leaves cached: the one cached
    * already, else the formula's number when it is positive and has no
    * unit, else none. */
  function Recounted(cached: Option<nat>, count: Option<CountValue>): (r: Option<nat>)
    ensures cached.Some? ==> r == cached
    ensures cached.None? ==>
              (r.Some? <==> count.Some? && !count.value.hasUnit && count.value.first > 0)
              && (r.Some? ==> r.value == count.value.first)
  {
    if cached.Some? then cached
    else if count.Some? && !count.value.hasUnit && count.value.first > 0 then Some(count.value.first as nat)
    else None
  }

  /** Once a count is cached, no later value of its formula changes it. */
  lemma RecountedIsStable(cached: Option<nat>, count: Option<CountValue>, later: Option<CountValue>)
    requires Recounted(cached, count).Some?
    ensures Recounted(Recounted(cached, count), later) == Recounted(cached, count)
  {
  }

  /** A cached count is positive when the one before was. */
  lemma RecountedIsPositive(cached: Option<nat>, count: Option<CountValue>)
    requires cached.Some? ==> cached.value > 0
    ensures Recounted(cached, count).Some? ==> Recounted(cached, count).value > 0
  {
  }

  /** The warning a count formula with a unit gives when it is evaluated. */
  function CountWarnings(cached: Option<nat>, count: Option<CountValue>, key: string, formula: string): (r: seq<Message>)
    ensures |r| <= 1 && (|r| == 1 <==> cached.None? && count.Some? && count.value.hasUnit)
  {
    if cached.None? && count.Some? && count.value.hasUnit then [Message(key, [formula])] else []
  }

  class MatrixTool {
    /** The tool every matrix also is. */
    const base: Tool
    /** `getPath()` of the matrix. */
    const path: string
    var cellInputs: seq<Entry>
    var displayUnit: Option<Unit>
    var value: Option<Matrix<int>>
    /** The cached counts; a count that is not positive is never cached. */
    var calculatedRowCount: Option<nat>
    var calculatedColumnCount: Option<nat>
    var rowCountFormula: string
    var columnCountFormula: string
    var recursionCount: int
    /** The offsets of the cells calculated so far. */
    var knowns: set<nat>
    var currentRow: int
    var currentColumn: int

    ghost predicate Valid()
      reads this`cellInputs, this`calculatedRowCount, this`calculatedColumnCount, this`value
    {
      && DistinctKeys(cellInputs)
      && (calculatedRowCount.Some? ==> calculatedRowCount.value > 0)
      && (calculatedColumnCount.Some? ==> calculatedColumnCount.value > 0)
      && (value.Some? ==> value.value.Valid())
    }

    /** A new matrix: one row and one column, and the input `0` in cell
      * `0_0`; setting it made the matrix forget its counts. */
    constructor(name: string, path: string, position: (int, int))
      ensures Valid() && fresh(base) && this.path == path
      ensures cellInputs == [Entry(CellKey(0, 0), CellInput(0, 0, Typed("0"), 0))]
      ensures displayUnit.None? && value.None? && calculatedRowCount.None? && calculatedColumnCount.None?
      ensures rowCountFormula == "1" && columnCountFormula == "1" && knowns == {}
      ensures base.State() == ToolState(name, "", position, Flags(false, false, false, false), map[], {}, [], 1, 0)
    {
      base := new Tool(name, position);
      this.path := path;
      cellInputs := [];
      displayUnit := None;
      value := None;
      calculatedRowCount := Some(1);
      calculatedColumnCount := Some(1);
      rowCountFormula := "1";
      columnCountFormula := "1";
      recursionCount := 0;
      knowns := {};
      currentRow := 0;
      currentColumn := 0;
      new;
      // `setCellInput(0, 0, '0')` on no inputs, whose outcome `DefaultInput` states
      cellInputs := [Entry(CellKey(0, 0), CellInput(0, 0, Typed("0"), 0))];
      ForgetCalculated();
    }

    /** `forgetCalculated`: the value and both counts are dropped and every
      * requestor is told to forget. */
    method ForgetCalculated()
      modifies this`value, this`calculatedRowCount, this`calculatedColumnCount, base
      ensures value.None? && calculatedRowCount.None? && calculatedColumnCount.None?
      ensures base.State() == old(base.State()).(requestors := {}, forgets := old(base.forgets) + 1)
    {
      value := None;
      calculatedRowCount := None;
      calculatedColumnCount := None;
      base.valueRequestors := {};
      base.ForgetCalculated();
    }

    /** The resetting of every input after cell `0_0` changed. */
    method ResetAll(ctx: Context) returns (r: Option<Failure>)
      modifies this`cellInputs, this`displayUnit
      ensures (cellInputs, displayUnit, r) == ResetFrom(old(cellInputs), 0, old(displayUnit), path, ctx)
    {
      var i := 0;
      while i < |cellInputs|
        invariant 0 <= i <= |cellInputs|
        invariant ResetFrom(cellInputs, i, displayUnit, path, ctx) == ResetFrom(old(cellInputs), 0, old(displayUnit), path, ctx)
        decreases |cellInputs| - i
      {
        var cell := cellInputs[i].cell;
        var text := InputOf(cell.held);
        if text.None? {
          return Some(InternalError);
        }
        var reset := Reset(cell, text.value, displayUnit, path, ctx);
        cellInputs := cellInputs[i := Entry(cellInputs[i].key, reset.0)];
        displayUnit := reset.1;
        if reset.2.Some? {
          return reset.2;
        }
        i := i + 1;
      }
      r := None;
    }

    /** `setCellInput` for a non-empty input, as `Placed` says; the matrix
      * forgets its values when that says so, and otherwise keeps them. */
    method Place(row: int, column: int, inputString: string, ctx: Context) returns (r: Option<Failure>, forgot: bool)
      requires inputString != []
      modifies this`cellInputs, this`displayUnit, this`value, this`calculatedRowCount, this`calculatedColumnCount, base
      ensures (cellInputs, displayUnit, r, forgot) == Placed(old(cellInputs), old(displayUnit), row, column, inputString, path, ctx)
      ensures forgot ==> value.None? && calculatedRowCount.None? && calculatedColumnCount.None?
                         && base.State() == old(base.State()).(requestors := {}, forgets := old(base.forgets) + 1)
      ensures !forgot ==> value == old(value) && calculatedRowCount == old(calculatedRowCount)
                          && calculatedColumnCount == old(calculatedColumnCount) && base.State() == old(base.State())
    {
      var key := CellKey(row, column);
      var found := Find(cellInputs, key);
      var i: nat;
      if found.None? {
        cellInputs := cellInputs + [Entry(key, CellInput(row, column, Unset, 0))];
        i := |cellInputs| - 1;
      } else {
        i := found.value;
      }
      assert (cellInputs, i) == WithEntry(old(cellInputs), row, column);
      var cell := cellInputs[i].cell;
      if !NeedsReset(cell.held, inputString) {
        return None, false;
      }
      var reset := Reset(cell, inputString, displayUnit, path, ctx);
      cellInputs := cellInputs[i := Entry(key, reset.0)];
      displayUnit := reset.1;
      if reset.2.Some? {
        return reset.2, false;
      }
      if row == 0 && column == 0 {
        r := ResetAll(ctx);
        if r.Some? {
          return r, false;
        }
      }
      ForgetCalculated();
      return None, true;
    }

    /** `setCellInput`: the inputs, the display unit and what it throws are
      * `AfterSetCell`'s; the matrix forgets its values when that says so,
      * and otherwise keeps them. */
    method SetCellInput(row: int, column: int, inputString: string, ctx: Context) returns (r: Option<Failure>)
      requires Valid()
      modifies this`cellInputs, this`displayUnit, this`value, this`calculatedRowCount, this`calculatedColumnCount, base
      ensures Valid()
      ensures var after := AfterSetCell(old(cellInputs), old(displayUnit), row, column, inputString, path, ctx);
              && cellInputs == after.0 && displayUnit == after.1 && r == after.2
              && (after.3 ==> value.None? && calculatedRowCount.None? && calculatedColumnCount.None?
                              && base.State() == old(base.State()).(requestors := {}, forgets := old(base.forgets) + 1))
              && (!after.3 ==> value == old(value) && calculatedRowCount == old(calculatedRowCount)
                               && calculatedColumnCount == old(calculatedColumnCount) && base.State() == old(base.State()))
    {
      SetCellKeepsKeysDistinct(cellInputs, displayUnit, row, column, inputString, path, ctx);
      if inputString == "" {
        var found := Find(cellInputs, CellKey(row, column));
        if found.Some? {
          cellInputs := cellInputs[..found.value] + cellInputs[found.value + 1..];
          ForgetCalculated();
        }
        return None;
      }
      var forgot;
      r, forgot := Place(row, column, inputString, ctx);
    }

    /** The `rowCount` getter: the cached count, else the formula's value,
      * cached when positive and without a unit; a unit gives a warning. */
    method RowCount(count: Option<CountValue>) returns (r: Option<nat>)
      modifies this`calculatedRowCount, base`errors
      ensures r == calculatedRowCount == Recounted(old(calculatedRowCount), count)
      ensures base.errors == old(base.errors)
                + CountWarnings(old(calculatedRowCount), count, "mmcmd:matrixRowCountHasUnit", rowCountFormula)
      ensures base.State() == old(base.State()).(errors := base.errors)
    {
      if calculatedRowCount.None? {
        var countValue := count;
        if countValue.Some? && countValue.value.hasUnit {
          base.errors := base.errors + [Message("mmcmd:matrixRowCountHasUnit", [rowCountFormula])];
          countValue := None;
        }
        if countValue.Some? && countValue.value.first > 0 {
          calculatedRowCount := Some(countValue.value.first as nat);
        }
      }
      r := calculatedRowCount;
    }

    /** The `columnCount` getter, as `rowCount`. */
    method ColumnCount(count: Option<CountValue>) returns (r: Option<nat>)
      modifies this`calculatedColumnCount, base`errors
      ensures r == calculatedColumnCount == Recounted(old(calculatedColumnCount), count)
      ensures base.errors == old(base.errors)
                + CountWarnings(old(calculatedColumnCount), count, "mmcmd:matrixColumnCountHasUnit", columnCountFormula)
      ensures base.State() == old(base.State()).(errors := base.errors)
    {
      if calculatedColumnCount.None? {
        var countValue := count;
        if countValue.Some? && countValue.value.hasUnit {
          base.errors := base.errors + [Message("mmcmd:matrixColumnCountHasUnit", [columnCountFormula])];
          countValue := None;
        }
        if countValue.Some? && countValue.value.first > 0 {
          calculatedColumnCount := Some(countValue.value.first as nat);
        }
      }
      r := calculatedColumnCount;
    }

    /** `calculateValue` once both counts are known: the sweep of every
      * cell, whose values become the matrix's value; a cell without a value
      * makes the matrix forget instead. The knowns are cleared either way. */
    method SweepCells(rows: nat, columns: nat, ctx: Context) returns (aborted: bool)
      requires rows >= 1 && columns >= 1 && DistinctKeys(cellInputs)
      modifies this`cellInputs, this`value, this`knowns, this`recursionCount,
               this`calculatedRowCount, this`calculatedColumnCount, base
      ensures var sw := SweepFrom(Sweep(old(cellInputs), [], [], false), 1, 1, rows, columns, old(displayUnit), path, ctx);
              && aborted == sw.aborted && cellInputs == sw.cells
              && (!aborted ==> value == Some(Matrix(rows, columns, sw.values))
                               && calculatedRowCount == old(calculatedRowCount) && calculatedColumnCount == old(calculatedColumnCount)
                               && base.State() == old(base.State()).(errors := old(base.errors) + sw.messages))
              && (aborted ==> value.None? && calculatedRowCount.None? && calculatedColumnCount.None?
                              && base.State() == old(base.State()).(errors := old(base.errors) + sw.messages, requestors := {},
                                                                    forgets := old(base.forgets) + 1))
      ensures knowns == {} && recursionCount == 0 && DistinctKeys(cellInputs)
      ensures value.Some? ==> value.value.Valid()
    {
      var sw := SweepGrid(cellInputs, rows, columns, displayUnit, path, ctx);
      SweepKeepsKeys(cellInputs, rows, columns, displayUnit, path, ctx);
      RemainingFromStart(rows, columns);
      Finish(sw, rows, columns);
      aborted := sw.aborted;
    }

    /** What the sweep `sw` leaves in the matrix: its inputs and messages,
      * and its values as the value, or a matrix that forgot when the sweep
      * stopped early. */
    method Finish(sw: Sweep, rows: nat, columns: nat)
      modifies this`cellInputs, this`value, this`knowns, this`recursionCount,
               this`calculatedRowCount, this`calculatedColumnCount, base
      ensures cellInputs == sw.cells
      ensures !sw.aborted ==> value == Some(Matrix(rows, columns, sw.values))
                               && calculatedRowCount == old(calculatedRowCount) && calculatedColumnCount == old(calculatedColumnCount)
                               && base.State() == old(base.State()).(errors := old(base.errors) + sw.messages)
      ensures sw.aborted ==> value.None? && calculatedRowCount.None? && calculatedColumnCount.None?
                              && base.State() == old(base.State()).(errors := old(base.errors) + sw.messages, requestors := {},
                                                                    forgets := old(base.forgets) + 1)
      ensures knowns == {} && recursionCount == 0
    {
      recursionCount := 0;
      cellInputs := sw.cells;
      base.errors := base.errors + sw.messages;
      knowns := {};
      if sw.aborted {
        ForgetCalculated();
      } else {
        value := Some(Matrix(rows, columns, sw.values));
      }
    }

    /** `calculateValue`: the counts are asked for (the row count first);
      * when either has no value, only the knowns are cleared; otherwise the
      * sweep of every cell, whose values make a matrix with as many cells
      * as the counts say. */
    method CalculateValue(rowCount: Option<CountValue>, columnCount: Option<CountValue>, ctx: Context)
      requires Valid()
      modifies this`cellInputs, this`value, this`knowns, this`recursionCount,
               this`calculatedRowCount, this`calculatedColumnCount, base
      ensures Valid()
      ensures knowns == {}
      ensures var rows := Recounted(old(calculatedRowCount), rowCount);
              var columns := Recounted(old(calculatedColumnCount), columnCount);
              && (rows.None? ==> calculatedRowCount == old(calculatedRowCount) && calculatedColumnCount == old(calculatedColumnCount))
              && (rows.Some? && columns.None? ==> calculatedRowCount == rows && calculatedColumnCount == old(calculatedColumnCount))
              && (rows.None? || columns.None? ==> cellInputs == old(cellInputs) && value == old(value)
                                                  && recursionCount == old(recursionCount))
              && (rows.Some? && columns.Some? ==>
                    var sw := SweepFrom(Sweep(old(cellInputs), [], [], false), 1, 1, rows.value, columns.value, old(displayUnit), path, ctx);
                    && cellInputs == sw.cells && recursionCount == 0
                    && (sw.aborted ==> value.None? && calculatedRowCount.None? && calculatedColumnCount.None?)
                    && (!sw.aborted ==> value == Some(Matrix(rows.value, columns.value, sw.values))
                                        && value.value.Valid()
                                        && calculatedRowCount == rows && calculatedColumnCount == columns))
      ensures var warned := old(base.errors) + CountsWarnings(old(calculatedRowCount), rowCount, old(calculatedColumnCount), columnCount);
              var rows := Recounted(old(calculatedRowCount), rowCount);
              var columns := Recounted(old(calculatedColumnCount), columnCount);
              && (rows.None? || columns.None? ==> base.State() == old(base.State()).(errors := warned))
              && (rows.Some? && columns.Some? ==>
                    var sw := SweepFrom(Sweep(old(cellInputs), [], [], false), 1, 1, rows.value, columns.value, old(displayUnit), path, ctx);
                    && (!sw.aborted ==> base.State() == old(base.State()).(errors := warned + sw.messages))
                    && (sw.aborted ==> base.State() == old(base.State()).(errors := warned + sw.messages, requestors := {},
                                                                          forgets := old(base.forgets) + 1)))
    {
      var rows, columns := Counts(rowCount, columnCount);
      SweepWhenCounted(rows, columns, ctx);
    }

    /** The part of `calculateValue` after the counts: the sweep when both
      * have a value, and the knowns cleared either way. */
    method SweepWhenCounted(rows: Option<nat>, columns: Option<nat>, ctx: Context)
      requires Valid() && calculatedRowCount == rows && (columns.Some? ==> calculatedColumnCount == columns)
      modifies this`cellInputs, this`value, this`knowns, this`recursionCount,
               this`calculatedRowCount, this`calculatedColumnCount, base
      ensures Valid() && knowns == {}
      ensures rows.None? || columns.None? ==>
                && cellInputs == old(cellInputs) && value == old(value) && recursionCount == old(recursionCount)
                && calculatedRowCount == old(calculatedRowCount) && calculatedColumnCount == old(calculatedColumnCount)
                && base.State() == old(base.State())
      ensures rows.Some? && columns.Some? ==>
                var sw := SweepFrom(Sweep(old(cellInputs), [], [], false), 1, 1, rows.value, columns.value, old(displayUnit), path, ctx);
                && cellInputs == sw.cells && recursionCount == 0
                && (sw.aborted ==> value.None? && calculatedRowCount.None? && calculatedColumnCount.None?
                                   && base.State() == old(base.State()).(errors := old(base.errors) + sw.messages, requestors := {},
                                                                         forgets := old(base.forgets) + 1))
                && (!sw.aborted ==> value == Some(Matrix(rows.value, columns.value, sw.values))
                                    && value.value.Valid()
                                    && calculatedRowCount == rows && calculatedColumnCount == columns
                                    && base.State() == old(base.State()).(errors := old(base.errors) + sw.messages))
    {
      if rows.Some? && columns.Some? {
        var aborted := SweepCells(rows.value, columns.value, ctx);
      } else {
        knowns := {};
      }
    }

    /** The warnings `calculateValue` gives while it asks for the counts:
      * the row count's, then, when there is a row count, the column count's. */
    function CountsWarnings(cachedRows: Option<nat>, rowCount: Option<CountValue>,
                            cachedColumns: Option<nat>, columnCount: Option<CountValue>): seq<Message>
      reads this`rowCountFormula, this`columnCountFormula
    {
      CountWarnings(cachedRows, rowCount, "mmcmd:matrixRowCountHasUnit", rowCountFormula)
      + if Recounted(cachedRows, rowCount).None? then []
        else CountWarnings(cachedColumns, columnCount, "mmcmd:matrixColumnCountHasUnit", columnCountFormula)
    }

    /** The counts `calculateValue` asks for: the row count, then, when it
      * has one, the column count. */
    method Counts(rowCount: Option<CountValue>, columnCount: Option<CountValue>) returns (rows: Option<nat>, columns: Option<nat>)
      requires Valid()
      modifies this`calculatedRowCount, this`calculatedColumnCount, base`errors
      ensures Valid()
      ensures rows == Recounted(old(calculatedRowCount), rowCount)
      ensures columns == if rows.None? then None else Recounted(old(calculatedColumnCount), columnCount)
      ensures calculatedRowCount == rows && (rows.Some? ==> rows.value >= 1)
      ensures columns.Some? ==> columns.value >= 1 && calculatedColumnCount == columns
      ensures rows.None? ==> calculatedColumnCount == old(calculatedColumnCount)
      ensures rows.Some? && columns.None? ==> calculatedColumnCount == old(calculatedColumnCount)
      ensures base.State() == old(base.State()).(errors := old(base.errors)
                                + CountsWarnings(old(calculatedRowCount), rowCount, old(calculatedColumnCount), columnCount))
    {
      RecountedIsPositive(calculatedRowCount, rowCount);
      RecountedIsPositive(calculatedColumnCount, columnCount);
      rows := RowCount(rowCount);
      if rows.None? {
        return rows, None;
      }
      columns := ColumnCount(columnCount);
    }

    /** `numberValue` while the matrix calculates, for a cell in the grid
      * within the nesting limit that is not yet known: the number of the
      * input the cell resolves to, with the cell current. */
    method EvaluateCell(row: int, column: int, ctx: Context) returns (r: Attempt<Option<int>>)
      requires DistinctKeys(cellInputs)
      modifies this`cellInputs, this`recursionCount, this`currentRow, this`currentColumn, base`errors
      ensures DistinctKeys(cellInputs) && currentRow == row && currentColumn == column
      ensures var found := Resolve(old(cellInputs), row, column);
              && (found.None? ==>
                    r == Threw(InternalError) && recursionCount == old(recursionCount) + 1
                    && cellInputs == old(cellInputs) && base.errors == old(base.errors))
              && (found.Some? ==>
                    var entry := old(cellInputs)[found.value];
                    var c := CellNumber(entry.cell, row, column, displayUnit, path, ctx);
                    && r == Done(c.0) && recursionCount == old(recursionCount)
                    && cellInputs == old(cellInputs)[found.value := Entry(entry.key, c.1)]
                    && base.errors == old(base.errors) + c.2)
    {
      recursionCount := recursionCount + 1;
      currentRow := row;
      currentColumn := column;
      var found := Resolve(cellInputs, row, column);
      if found.None? {
        return Threw(InternalError);
      }
      var entry := cellInputs[found.value];
      var c := CellNumber(entry.cell, row, column, displayUnit, path, ctx);
      cellInputs := cellInputs[found.value := Entry(entry.key, c.1)];
      base.errors := base.errors + c.2;
      recursionCount := recursionCount - 1;
      r := Done(c.0);
    }

    /** `numberValue` while the matrix calculates, when both counts are
      * cached (as `calculateValue` leaves them): nothing outside the grid,
      * nothing and a warning past the nesting limit, the value of a cell
      * already known, and otherwise the number of the input the cell
      * resolves to, which may put that input in error. */
    method NumberValueWhileCalculating(row: int, column: int, ctx: Context) returns (r: Attempt<Option<int>>)
      requires Valid() && calculatedRowCount.Some? && calculatedColumnCount.Some?
      modifies this`cellInputs, this`recursionCount, this`currentRow, this`currentColumn, base`errors
      ensures Valid()
      ensures var rows := old(calculatedRowCount).value;
              var columns := old(calculatedColumnCount).value;
              var evaluates := 1 <= row <= rows && 1 <= column <= columns && old(recursionCount) <= rows + columns
                               && value.Some? && Flat(row - 1, column - 1, value.value.columnCount) !in old(knowns);
              && (!evaluates ==> cellInputs == old(cellInputs) && recursionCount == old(recursionCount)
                                 && currentRow == old(currentRow) && currentColumn == old(currentColumn))
              && (evaluates ==> currentRow == row && currentColumn == column
                                && recursionCount == old(recursionCount) + (if Resolve(old(cellInputs), row, column).None? then 1 else 0))
      ensures var rows := old(calculatedRowCount).value;
              var columns := old(calculatedColumnCount).value;
              var inGrid := 1 <= row <= rows && 1 <= column <= columns;
              && (!inGrid ==> r == Done(None) && base.errors == old(base.errors))
              && (inGrid && old(recursionCount) > rows + columns ==>
                    r == Done(None) && base.errors == old(base.errors) + [Message("mmcmd:matrixNestingError", [path])])
              && (inGrid && old(recursionCount) <= rows + columns && value.None? ==>
                    r == Threw(InternalError) && base.errors == old(base.errors))
              && (inGrid && old(recursionCount) <= rows + columns && value.Some?
                  && Flat(row - 1, column - 1, value.value.columnCount) in old(knowns) ==>
                    base.errors == old(base.errors)
                    && r == if row <= value.value.rowCount && column <= value.value.columnCount
                            then Done(Some(At(value.value, row - 1, column - 1))) else Threw(InternalError))
              && (inGrid && old(recursionCount) <= rows + columns && value.Some?
                  && Flat(row - 1, column - 1, value.value.columnCount) !in old(knowns) ==>
                    var found := Resolve(old(cellInputs), row, column);
                    && (found.None? ==> r == Threw(InternalError) && base.errors == old(base.errors) && cellInputs == old(cellInputs))
                    && (found.Some? ==>
                          var entry := old(cellInputs)[found.value];
                          var c := CellNumber(entry.cell, row, column, displayUnit, path, ctx);
                          && r == Done(c.0)
                          && cellInputs == old(cellInputs)[found.value := Entry(entry.key, c.1)]
                          && base.errors == old(base.errors) + c.2))
    {
      var rows := calculatedRowCount.value;
      var columns := calculatedColumnCount.value;
      if row < 1 || row > rows || column < 1 || column > columns {
        return Done(None);
      }
      if recursionCount > rows + columns {
        base.errors := base.errors + [Message("mmcmd:matrixNestingError", [path])];
        return Done(None);
      }
      if value.None? {
        return Threw(InternalError);
      }
      var offset := Flat(row - 1, column - 1, value.value.columnCount);
      if offset in knowns {
        if row <= value.value.rowCount && column <= value.value.columnCount {
          return Done(Some(At(value.value, row - 1, column - 1)));
        }
        return Threw(InternalError);
      }
      r := EvaluateCell(row, column, ctx);
    }
  }

  /** One row of the two loops of `calculateValue`: each column in turn,
    * until a cell has no value. */
  method SweepRow(sw: Sweep, row: nat, rows: nat, columns: nat, display: Option<Unit>, path: string, ctx: Context)
    returns (r: Sweep)
    requires 1 <= row <= rows && !sw.aborted
    ensures r.aborted ==> r == SweepFrom(sw, row, 1, rows, columns, display, path, ctx)
    ensures !r.aborted ==> SweepFrom(r, row + 1, 1, rows, columns, display, path, ctx) == SweepFrom(sw, row, 1, rows, columns, display, path, ctx)
  {
    r := sw;
    var column := 1;
    while column <= columns
      invariant 1 <= column <= columns + 1 && !r.aborted
      invariant SweepFrom(r, row, column, rows, columns, display, path, ctx) == SweepFrom(sw, row, 1, rows, columns, display, path, ctx)
      decreases columns + 1 - column
    {
      var found := FloatAt(r.cells, row, column, display, path, ctx);
      SweepCellStep(r, row, column, rows, columns, display, path, ctx);
      if found.0.None? {
        return Sweep(found.1, r.values, r.messages + found.2, true);
      }
      r := Sweep(found.1, r.values + [found.0.value], r.messages + found.2, false);
      column := column + 1;
    }
    SweepNextRow(r, row, rows, columns, display, path, ctx);
  }

  /** The two loops of `calculateValue`: `SweepRow` for every row in turn,
    * until a cell has no value. */
  method SweepGrid(cells: seq<Entry>, rows: nat, columns: nat, display: Option<Unit>, path: string, ctx: Context)
    returns (r: Sweep)
    ensures r == SweepFrom(Sweep(cells, [], [], false), 1, 1, rows, columns, display, path, ctx)
  {
    r := Sweep(cells, [], [], false);
    var row := 1;
    while row <= rows
      invariant 1 <= row <= rows + 1
      invariant !r.aborted
      invariant SweepFrom(r, row, 1, rows, columns, display, path, ctx) == SweepFrom(Sweep(cells, [], [], false), 1, 1, rows, columns, display, path, ctx)
      decreases rows + 1 - row
    {
      r := SweepRow(r, row, rows, columns, display, path, ctx);
      if r.aborted {
        return;
      }
      row := row + 1;
    }
  }

  /** The sweep keeps the keys of the inputs, so they stay distinct. */
  lemma SweepKeepsKeys(cells: seq<Entry>, rows: nat, columns: nat, display: Option<Unit>, path: string, ctx: Context)
    requires DistinctKeys(cells)
    ensures DistinctKeys(SweepFrom(Sweep(cells, [], [], false), 1, 1, rows, columns, display, path, ctx).cells)
  {
    var sw := SweepFrom(Sweep(cells, [], [], false), 1, 1, rows, columns, display, path, ctx);
    DistinctSameKeys(sw.cells, cells);
  }
}
