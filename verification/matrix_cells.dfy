/** The cell inputs of a matrix tool (`MatrixInputValue`): what a typed input
  * becomes (a number, a number with a unit, or a formula), the fallback from
  * a cell to the inputs of its row, its column and the whole matrix, and the
  * row-major sweep `calculateValue` makes over them. */
module MatrixCells {
  import opened Wrappers
  import opened Strs
  import opened CommandTrees
  import opened CommandReading
  import opened Matrices

  /** What a cell input holds: nothing yet (state `?`), a number with the
    * text it was typed as (`s`), the text of an input in error (`e`), or a
    * formula (`f`). */
  datatype Held = Unset | Typed(text: string) | Errored(text: string) | FormulaOf(formula: string)

  /** One cell input: where it was typed, what it holds and, for a number,
    * its value. */
  datatype CellInput = CellInput(row: int, column: int, held: Held, value: int)

  /** An entry of `cellInputs`, in insertion order. */
  datatype Entry = Entry(key: string, cell: CellInput)

  /** A unit: its name and its dimension exponents. */
  datatype Unit = Unit(name: string, dimensions: seq<int>)

  /** What a cell formula evaluates to: a number with the dimensions of its
    * unit, a number value with other than one element, or no number. */
  datatype Evaluated = Scalar(number: int, dimensions: Option<seq<int>>) | NotScalar | NoNumber

  /** What the matrix uses but does not define: the unit system's
    * `unitNamed` and `areDimensionsEqual`, and the value of a formula while
    * the given row and column are current. */
  datatype Context = Context(
    unitNamed: string -> Option<Unit>,
    sameDimensions: (Option<seq<int>>, Option<seq<int>>) -> bool,
    evaluate: (string, int, int) -> Evaluated)

  /** The key `${row}_${column}` of a cell input. */
  function CellKey(row: int, column: int): (r: string)
    ensures Split(r, '_') == [IntToString(row), IntToString(column)]
  {
    var a := IntToString(row);
    var b := IntToString(column);
    SplitNoSep(b, '_');
    SplitPrefix(a, b, '_');
    a + "_" + b
  }

  /** Different cells have different keys. */
  lemma CellKeyInjective(row: int, column: int, row2: int, column2: int)
    requires CellKey(row, column) == CellKey(row2, column2)
    ensures row == row2 && column == column2
  {
    IntToStringRoundTrip(row);
    IntToStringRoundTrip(row2);
    IntToStringRoundTrip(column);
    IntToStringRoundTrip(column2);
  }

  /** The `input` getter: the text the cell was given, or nothing yet. */
  function InputOf(held: Held): (r: Option<string>)
    ensures r.None? <==> held.Unset?
  {
    match held
    case Unset => None
    case Typed(text) => Some(text)
    case Errored(text) => Some(text)
    case FormulaOf(formula) => Some(formula)
  }

  function NonEmpty(parts: seq<string>): (r: seq<string>)
    ensures |r| <= |parts|
    ensures forall k :: 0 <= k < |r| ==> r[k] != []
  {
    if parts == [] then []
    else (if parts[0] == [] then [] else [parts[0]]) + NonEmpty(parts[1..])
  }

  /** `s.split(/\s+/)`: a run of white space separates once, so an empty
    * part stands only at either end. */
  function Tokens(s: string): (r: seq<string>)
    ensures |r| >= 1
    ensures forall k :: 0 < k < |r| - 1 ==> r[k] != []
  {
    var parts := SplitSpace(s);
    if |parts| == 1 then parts
    else [parts[0]] + NonEmpty(parts[1..|parts| - 1]) + [parts[|parts| - 1]]
  }

  function Spaces(n: nat): (r: string)
    ensures |r| == n && forall i :: 0 <= i < n ==> r[i] == ' '
  {
    if n == 0 then "" else " " + Spaces(n - 1)
  }

  function Empties(n: nat): (r: seq<string>)
    ensures |r| == n && forall i :: 0 <= i < n ==> r[i] == []
  {
    if n == 0 then [] else [""] + Empties(n - 1)
  }

  lemma {:induction false} SplitAfterSpaces(n: nat, b: string)
    requires forall i :: 0 <= i < |b| ==> !IsSpace(b[i])
    ensures SplitSpace(Spaces(n) + b) == Empties(n) + [b]
  {
    if n == 0 {
      assert Spaces(n) + b == b;
      SplitSpaceNone(b);
    } else {
      SplitAfterSpaces(n - 1, b);
      assert Spaces(n) + b == "" + " " + (Spaces(n - 1) + b);
      SplitSpacePrefix("", Spaces(n - 1) + b);
    }
  }

  lemma {:induction false} NonEmptyOfEmpties(n: nat)
    ensures NonEmpty(Empties(n)) == []
  {
    if n > 0 {
      assert Empties(n)[1..] == Empties(n - 1);
      NonEmptyOfEmpties(n - 1);
    }
  }

  /** A number and a unit apart by any run of spaces are two tokens. */
  lemma {:induction false} TokensOfQuantity(a: string, n: nat, b: string)
    requires n >= 1
    requires forall i :: 0 <= i < |a| ==> !IsSpace(a[i])
    requires forall i :: 0 <= i < |b| ==> !IsSpace(b[i])
    ensures Tokens(a + Spaces(n) + b) == [a, b]
  {
    SplitAfterSpaces(n - 1, b);
    assert a + Spaces(n) + b == a + " " + (Spaces(n - 1) + b);
    SplitSpacePrefix(a, Spaces(n - 1) + b);
    var parts := SplitSpace(a + Spaces(n) + b);
    assert parts == [a] + Empties(n - 1) + [b];
    assert parts[1..|parts| - 1] == Empties(n - 1);
    NonEmptyOfEmpties(n - 1);
  }

  predicate AllDigits(d: string)
  {
    forall i :: 0 <= i < |d| ==> IsDigit(d[i])
  }

  /** `Number(s)` for integer numerals: white space around the numeral is
    * ignored, an optional sign may lead, no text at all is 0, and anything
    * else is not a number. */
  function NumberOf(s: string): (r: Option<int>)
    ensures Trim(s) == [] ==> r == Some(0)
    ensures AllDigits(Trim(s)) ==> r == Some(DigitsValue(Trim(s)))
  {
    var t := Trim(s);
    if t == [] then Some(0)
    else
      var signed := t[0] == '-' || t[0] == '+';
      var d := if signed then t[1..] else t;
      if d == [] || !AllDigits(d) then None
      else if t[0] == '-' then Some(-(DigitsValue(d) as int))
      else Some(DigitsValue(d) as int)
  }

  /** The text of an integer reads back as that integer. */
  lemma {:induction false} NumberOfIntToString(n: int)
    ensures NumberOf(IntToString(n)) == Some(n)
  {
    if n < 0 {
      var d := NatToString(-n);
      NatToStringRoundTrip(-n);
      assert DigitsValue(d) == -n;
      NumberOfSigned(d);
      assert NumberOf("-" + d) == Some(n);
      assert IntToString(n) == "-" + d;
    } else {
      var d := NatToString(n);
      NatToStringRoundTrip(n);
      assert DigitsValue(d) == n;
      NumberOfDigits(d);
      assert NumberOf(d) == Some(n);
      assert IntToString(n) == d;
    }
  }

  lemma NumberOfDigits(d: string)
    requires d != [] && AllDigits(d)
    ensures NumberOf(d) == Some(DigitsValue(d) as int)
  {
    assert IsDigit(d[|d| - 1]) && IsDigit(d[0]);
    TrimKeepsInner(d);
  }

  lemma NumberOfSigned(d: string)
    requires d != [] && AllDigits(d)
    ensures NumberOf("-" + d) == Some(-(DigitsValue(d) as int))
  {
    var s := "-" + d;
    assert s[|s| - 1] == d[|d| - 1];
    TrimKeepsInner(s);
    assert s[1..] == d;
  }

  /** Text made only of a letter is not a number, so it is read as a formula. */
  lemma NameIsNotNumber(s: string)
    requires s != [] && IsLetter(s[0]) && !IsSpace(s[|s| - 1])
    ensures NumberOf(s).None?
  {
    TrimKeepsInner(s);
  }

  /** The unit name of a quantity, without the quotes around it. */
  function UnitNameOf(token: string): string
  {
    if |token| > 1 && token[0] == '"' then token[1..|token| - 1] else token
  }

  /** The shape `resetInput` reads first: exactly two white-space separated
    * tokens, the first a number. */
  predicate IsQuantity(s: string)
  {
    var tokens := Tokens(s);
    |tokens| == 2 && NumberOf(tokens[0]).Some?
  }

  function DimensionsOf(display: Option<Unit>): Option<seq<int>>
  {
    if display.Some? then Some(display.value.dimensions) else None
  }

  /** `resetInput`: the cell afterwards, the owner's display unit afterwards,
    * and what it throws. A quantity (a number and a unit) keeps its text;
    * an unknown unit throws; a unit whose dimensions differ from the
    * display unit's becomes the display unit in cell `0_0` and an error
    * elsewhere. A plain number gets the display unit's name appended, and
    * anything else is a formula. */
  function Reset(cell: CellInput, s: string, display: Option<Unit>, path: string, ctx: Context)
    : (r: (CellInput, Option<Unit>, Option<Failure>))
    ensures r.0.row == cell.row && r.0.column == cell.column && !r.0.held.Unset?
    ensures r.1 != display ==> cell.row == 0 && cell.column == 0 && r.2.None? && r.0.held == Typed(s)
    ensures r.0.held.FormulaOf? <==> !IsQuantity(s) && NumberOf(s).None?
    ensures r.0.held.FormulaOf? ==> r.0.held.formula == s && r.2.None?
    ensures !IsQuantity(s) && NumberOf(s).Some? ==>
              r.0.held == Typed(if display.Some? then s + " " + display.value.name else s)
              && r.0.value == NumberOf(s).value && r.1 == display && r.2.None?
    ensures r.2.Some? ==> IsQuantity(s)
    ensures IsQuantity(s) ==> r.0.held == Typed(s) || r.0.held == Errored(s)
    ensures r.0.held.Errored? <==> r.2 == Some(Thrown("mmcmd:matrixWrongUnitType", [path, s]))
    ensures r.0.held.Errored? ==>
              r.0.held.text == s && r.0.value == 0 && !(cell.row == 0 && cell.column == 0)
              && ctx.unitNamed(UnitNameOf(Tokens(s)[1])).Some?
              && !ctx.sameDimensions(Some(ctx.unitNamed(UnitNameOf(Tokens(s)[1])).value.dimensions), DimensionsOf(display))
  {
    var tokens := Tokens(s);
    if |tokens| == 2 && NumberOf(tokens[0]).Some? then
      var number := NumberOf(tokens[0]).value;
      var unitName := UnitNameOf(tokens[1]);
      var typed := cell.(held := Typed(s));
      match ctx.unitNamed(unitName)
      case None => (typed, display, Some(Thrown("mmunit:unknownUnit", [unitName])))
      case Some(unit) =>
        if ctx.sameDimensions(Some(unit.dimensions), DimensionsOf(display)) then
          (typed.(value := number), display, None)
        else if cell.row == 0 && cell.column == 0 then
          (typed.(value := number), Some(unit), None)
        else
          (cell.(held := Errored(s), value := 0), display, Some(Thrown("mmcmd:matrixWrongUnitType", [path, s])))
    else if NumberOf(s).Some? then
      var text := if display.Some? then s + " " + display.value.name else s;
      (cell.(held := Typed(text), value := NumberOf(s).value), display, None)
    else
      (cell.(held := FormulaOf(s)), display, None)
  }

  /** The display-unit rule: a quantity in a unit of other dimensions than
    * the display unit's becomes the display unit when typed in cell `0_0`
    * and is an error in any other cell. */
  lemma DisplayUnitRule(cell: CellInput, s: string, display: Option<Unit>, path: string, ctx: Context)
    requires IsQuantity(s)
    requires ctx.unitNamed(UnitNameOf(Tokens(s)[1])).Some?
    requires !ctx.sameDimensions(Some(ctx.unitNamed(UnitNameOf(Tokens(s)[1])).value.dimensions), DimensionsOf(display))
    ensures var r := Reset(cell, s, display, path, ctx);
            if cell.row == 0 && cell.column == 0 then r.1 == ctx.unitNamed(UnitNameOf(Tokens(s)[1])) && r.2.None?
            else r.0.held.Errored? && r.1 == display
  {
  }

  /** The `inputString !== this._input` test of `setInput`: a formula is
    * held as an object, so it always differs from the text. */
  predicate SetInputResets(held: Held, s: string)
  {
    match held
    case Unset => true
    case Typed(text) => text != s
    case Errored(text) => text != s
    case FormulaOf(_) => true
  }

  /** The test of `setCellInput` before it calls `setInput`: the cell is in
    * error or its input differs. */
  predicate NeedsReset(held: Held, s: string)
  {
    held.Errored? || InputOf(held) != Some(s)
  }

  /** As written, `setCellInput` resets a cell only when both its own test
    * and the one `setInput` repeats hold; the second blocks the retry of a
    * cell in error typed again with the same text. */
  predicate ResetsAsWritten(held: Held, s: string)
  {
    NeedsReset(held, s) && SetInputResets(held, s)
  }

  /** A cell in error whose text is typed again is not read again as
    * written, though `setCellInput` singles out the error state to do so. */
  lemma ErrorRetryBlocked(s: string)
    ensures NeedsReset(Errored(s), s) && !ResetsAsWritten(Errored(s), s)
  {
  }

  /** Outside the error state the two tests agree: the change only reaches
    * cells in error. */
  lemma RetryOnlyForErrors(held: Held, s: string)
    requires !held.Errored?
    ensures ResetsAsWritten(held, s) == NeedsReset(held, s)
  {
  }

  /** The first index holding `key`, if any. */
  function Find(cells: seq<Entry>, key: string): (r: Option<nat>)
    ensures r.Some? ==> r.value < |cells| && cells[r.value].key == key
                        && forall i :: 0 <= i < r.value ==> cells[i].key != key
    ensures r.None? <==> forall i :: 0 <= i < |cells| ==> cells[i].key != key
  {
    if cells == [] then None
    else if cells[0].key == key then Some(0)
    else
      var rest := Find(cells[1..], key);
      if rest.Some? then Some(rest.value + 1) else None
  }

  /** The keys looked up for a cell, most specific first. */
  function Fallbacks(row: int, column: int): seq<string>
  {
    [CellKey(row, column), CellKey(row, 0), CellKey(0, column), CellKey(0, 0)]
  }

  /** The first of `keys` that has an entry. */
  function FirstFound(cells: seq<Entry>, keys: seq<string>): (r: Option<nat>)
    ensures r.Some? ==> r.value < |cells|
    ensures r.Some? ==> exists j :: 0 <= j < |keys| && r == Find(cells, keys[j])
                                    && forall k :: 0 <= k < j ==> Find(cells, keys[k]).None?
    ensures r.None? <==> forall j :: 0 <= j < |keys| ==> Find(cells, keys[j]).None?
  {
    if keys == [] then None
    else
      var here := Find(cells, keys[0]);
      if here.Some? then here
      else
        var rest := FirstFound(cells, keys[1..]);
        assert forall j :: 1 <= j < |keys| ==> keys[j] == keys[1..][j - 1];
        rest
  }

  /** The input a cell is calculated from: its own, else its row's
    * (`r_0`), else its column's (`0_c`), else the matrix's (`0_0`). */
  function Resolve(cells: seq<Entry>, row: int, column: int): (r: Option<nat>)
    ensures r.Some? ==> r.value < |cells|
  {
    FirstFound(cells, Fallbacks(row, column))
  }

  /** A cell's own input takes precedence over every fallback. */
  lemma OwnInputFirst(cells: seq<Entry>, row: int, column: int)
    requires Find(cells, CellKey(row, column)).Some?
    ensures Resolve(cells, row, column) == Find(cells, CellKey(row, column))
  {
  }

  /** The row's input precedes the column's. */
  lemma RowBeforeColumn(cells: seq<Entry>, row: int, column: int)
    requires Find(cells, CellKey(row, column)).None? && Find(cells, CellKey(row, 0)).Some?
    ensures Resolve(cells, row, column) == Find(cells, CellKey(row, 0))
  {
    var keys := Fallbacks(row, column);
    assert Find(cells, keys[0]).None?;
    assert keys[1..][0] == CellKey(row, 0);
  }

  /** While the matrix's input `0_0` is there, every cell resolves to some
    * input; without any of the four, none. */
  lemma DefaultCoversAll(cells: seq<Entry>, row: int, column: int)
    ensures Find(cells, CellKey(0, 0)).Some? ==> Resolve(cells, row, column).Some?
    ensures Resolve(cells, row, column).None? <==>
              Find(cells, CellKey(row, column)).None? && Find(cells, CellKey(row, 0)).None?
              && Find(cells, CellKey(0, column)).None? && Find(cells, CellKey(0, 0)).None?
  {
    var keys := Fallbacks(row, column);
    assert keys[0] == CellKey(row, column) && keys[1] == CellKey(row, 0);
    assert keys[2] == CellKey(0, column) && keys[3] == CellKey(0, 0);
  }

  /** The cell input's `numberValue` while its matrix calculates: a formula
    * is evaluated; a value with other than one element puts the cell in
    * error with its formula's text and gives nothing, a number in other
    * dimensions than the display unit's puts it in error but is still
    * given. Any other input gives its number. */
  function CellNumber(cell: CellInput, row: int, column: int, display: Option<Unit>, path: string, ctx: Context)
    : (r: (Option<int>, CellInput, seq<Message>))
    ensures !cell.held.FormulaOf? ==> r == (Some(cell.value), cell, [])
    ensures cell.held.FormulaOf? ==>
              (r.1 == cell || r.1 == cell.(held := Errored(cell.held.formula)))
              && (r.1 != cell <==>
                    (ctx.evaluate(cell.held.formula, row, column).NotScalar?
                     || (ctx.evaluate(cell.held.formula, row, column).Scalar?
                         && !ctx.sameDimensions(ctx.evaluate(cell.held.formula, row, column).dimensions, DimensionsOf(display)))))
              && (r.0.Some? <==> ctx.evaluate(cell.held.formula, row, column).Scalar?)
              && |r.2| == (if r.1 == cell then 0 else 1)
  {
    match cell.held
    case FormulaOf(formula) =>
      (match ctx.evaluate(formula, row, column)
       case NotScalar =>
         (None, cell.(held := Errored(formula)),
          [Message("mmcmd:matrixCellValueNotScalar", [path, IntToString(cell.row), IntToString(cell.column), formula])])
       case NoNumber => (None, cell, [])
       case Scalar(number, dimensions) =>
         if ctx.sameDimensions(dimensions, DimensionsOf(display)) then (Some(number), cell, [])
         else (Some(number), cell.(held := Errored(formula)), [Message("mmcmd:matrixWrongUnitType", [path, formula])]))
    case _ => (Some(cell.value), cell, [])
  }

  /** The cell input's `floatValue`: a formula's number, a typed number's
    * value, and nothing for an input that is unset or in error. */
  function CellFloat(cell: CellInput, row: int, column: int, display: Option<Unit>, path: string, ctx: Context)
    : (r: (Option<int>, CellInput, seq<Message>))
    ensures cell.held.Typed? ==> r == (Some(cell.value), cell, [])
    ensures cell.held.Unset? || cell.held.Errored? ==> r == (None, cell, [])
    ensures cell.held.FormulaOf? ==> r == CellNumber(cell, row, column, display, path, ctx)
  {
    match cell.held
    case FormulaOf(_) => CellNumber(cell, row, column, display, path, ctx)
    case Typed(_) => (Some(cell.value), cell, [])
    case _ => (None, cell, [])
  }

  /** The matrix's `floatValue` while it calculates: the value of the input
    * the cell resolves to, which may change that input's state. */
  function FloatAt(cells: seq<Entry>, row: int, column: int, display: Option<Unit>, path: string, ctx: Context)
    : (r: (Option<int>, seq<Entry>, seq<Message>))
    ensures |r.1| == |cells| && forall i :: 0 <= i < |cells| ==> r.1[i].key == cells[i].key
    ensures Resolve(cells, row, column).None? ==> r == (None, cells, [])
    ensures Resolve(cells, row, column).Some? ==>
              var i := Resolve(cells, row, column).value;
              var c := CellFloat(cells[i].cell, row, column, display, path, ctx);
              r == (c.0, cells[i := Entry(cells[i].key, c.1)], c.2)
  {
    var found := Resolve(cells, row, column);
    if found.None? then (None, cells, [])
    else
      var i := found.value;
      var c := CellFloat(cells[i].cell, row, column, display, path, ctx);
      (c.0, cells[i := Entry(cells[i].key, c.1)], c.2)
  }

  /** Every input is a typed number. */
  predicate AllTyped(cells: seq<Entry>)
  {
    forall i :: 0 <= i < |cells| ==> cells[i].cell.held.Typed?
  }

  /** The state of the sweep of `calculateValue`: the inputs, the values of
    * the cells done so far in row-major order, the messages, and whether a
    * cell without a value stopped it. */
  datatype Sweep = Sweep(cells: seq<Entry>, values: seq<int>, messages: seq<Message>, aborted: bool)

  /** How many cells the sweep has left from (row, column). */
  function Remaining(row: nat, column: nat, rows: nat, columns: nat): nat
  {
    if row > rows then 0
    else (if column <= columns then columns - column + 1 else 0) + Mul(rows - row, columns)
  }

  lemma RemainingFromStart(rows: nat, columns: nat)
    ensures Remaining(1, 1, rows, columns) == rows * columns
  {
    MulIsProduct(rows, columns);
  }

  /** The sweep from (row, column) on: every cell in turn, row by row, stopping
    * at the first cell without a value. */
  function SweepFrom(sw: Sweep, row: nat, column: nat, rows: nat, columns: nat, display: Option<Unit>, path: string, ctx: Context)
    : (r: Sweep)
    requires row >= 1 && column >= 1 && !sw.aborted
    ensures |r.cells| == |sw.cells| && forall i :: 0 <= i < |sw.cells| ==> r.cells[i].key == sw.cells[i].key
    ensures !r.aborted ==> |r.values| == |sw.values| + Remaining(row, column, rows, columns)
    ensures r.aborted ==> |r.values| < |sw.values| + Remaining(row, column, rows, columns)
    ensures Find(sw.cells, CellKey(0, 0)).Some? && AllTyped(sw.cells) ==> !r.aborted
    decreases (if row <= rows then rows - row + 1 else 0), (if column <= columns then columns - column + 1 else 0)
  {
    if row > rows then sw
    else if column > columns then
      assert Remaining(row, column, rows, columns) == Remaining(row + 1, 1, rows, columns) by {
        if row + 1 <= rows {
          assert Mul(rows - row, columns) == Mul(rows - row - 1, columns) + columns;
        }
      }
      SweepFrom(sw, row + 1, 1, rows, columns, display, path, ctx)
    else
      TypedFloat(sw.cells, row, column, display, path, ctx);
      var f := FloatAt(sw.cells, row, column, display, path, ctx);
      if f.0.None? then Sweep(f.1, sw.values, sw.messages + f.2, true)
      else SweepFrom(Sweep(f.1, sw.values + [f.0.value], sw.messages + f.2, false), row, column + 1, rows, columns, display, path, ctx)
  }

  /** One step of the sweep: the cell at (row, column) takes its value,
    * which stops the sweep when it has none. */
  lemma SweepCellStep(sw: Sweep, row: nat, column: nat, rows: nat, columns: nat, display: Option<Unit>, path: string, ctx: Context)
    requires 1 <= row <= rows && 1 <= column <= columns && !sw.aborted
    ensures var f := FloatAt(sw.cells, row, column, display, path, ctx);
            SweepFrom(sw, row, column, rows, columns, display, path, ctx)
            == if f.0.None? then Sweep(f.1, sw.values, sw.messages + f.2, true)
               else SweepFrom(Sweep(f.1, sw.values + [f.0.value], sw.messages + f.2, false), row, column + 1, rows, columns, display, path, ctx)
  {
  }

  /** Past the last column the sweep goes on from the next row. */
  lemma SweepNextRow(sw: Sweep, row: nat, rows: nat, columns: nat, display: Option<Unit>, path: string, ctx: Context)
    requires 1 <= row <= rows && !sw.aborted
    ensures SweepFrom(sw, row, columns + 1, rows, columns, display, path, ctx)
            == SweepFrom(sw, row + 1, 1, rows, columns, display, path, ctx)
    ensures Remaining(row, columns + 1, rows, columns) == Remaining(row + 1, 1, rows, columns)
  {
    if row + 1 <= rows {
      assert Mul(rows - row, columns) == Mul(rows - row - 1, columns) + columns;
    }
  }

  /** A cell resolving to a typed number has its value, and nothing changes. */
  lemma TypedFloat(cells: seq<Entry>, row: int, column: int, display: Option<Unit>, path: string, ctx: Context)
    ensures Find(cells, CellKey(0, 0)).Some? && AllTyped(cells) ==>
              var f := FloatAt(cells, row, column, display, path, ctx);
              f.0.Some? && f.1 == cells && f.2 == []
  {
    if Find(cells, CellKey(0, 0)).Some? && AllTyped(cells) {
      DefaultCoversAll(cells, row, column);
      var i := Resolve(cells, row, column).value;
      assert cells[i := Entry(cells[i].key, cells[i].cell)] == cells;
    }
  }

  /** The reset of every input that `setCellInput` makes after cell `0_0`
    * changed, in insertion order from index `i`, stopping at the first
    * that throws. */
  function ResetFrom(cells: seq<Entry>, i: nat, display: Option<Unit>, path: string, ctx: Context)
    : (r: (seq<Entry>, Option<Unit>, Option<Failure>))
    requires i <= |cells|
    ensures |r.0| == |cells| && forall k :: 0 <= k < |cells| ==> r.0[k].key == cells[k].key
    ensures forall k :: 0 <= k < i ==> r.0[k] == cells[k]
    ensures r.2.None? ==> forall k :: i <= k < |cells| ==> !r.0[k].cell.held.Unset?
    decreases |cells| - i
  {
    if i == |cells| then (cells, display, None)
    else
      var c := cells[i].cell;
      match InputOf(c.held)
      case None => (cells, display, Some(InternalError))
      case Some(text) =>
        var reset := Reset(c, text, display, path, ctx);
        var next := cells[i := Entry(cells[i].key, reset.0)];
        if reset.2.Some? then (next, reset.1, reset.2)
        else ResetFrom(next, i + 1, reset.1, path, ctx)
  }

  /** No two entries share a key, as in a JavaScript object. */
  predicate DistinctKeys(cells: seq<Entry>)
  {
    forall i, j :: 0 <= i < j < |cells| ==> cells[i].key != cells[j].key
  }

  /** Two entry sequences with the same keys at the same places. */
  predicate SameKeys(a: seq<Entry>, b: seq<Entry>)
  {
    |a| == |b| && forall k :: 0 <= k < |a| ==> a[k].key == b[k].key
  }

  lemma {:induction false} FindSameKeys(a: seq<Entry>, b: seq<Entry>, key: string)
    requires SameKeys(a, b)
    ensures Find(a, key) == Find(b, key)
  {
    if a != [] {
      FindSameKeys(a[1..], b[1..], key);
    }
  }

  lemma DistinctSameKeys(a: seq<Entry>, b: seq<Entry>)
    requires SameKeys(a, b) && DistinctKeys(b)
    ensures DistinctKeys(a)
  {
  }

  /** The inputs without the entry of `key`, the others in order. */
  function Removed(cells: seq<Entry>, key: string): (r: seq<Entry>)
  {
    var found := Find(cells, key);
    if found.None? then cells else cells[..found.value] + cells[found.value + 1..]
  }

  /** Removing an entry keeps the keys distinct and leaves every other key
    * found exactly when it was. */
  lemma RemovedKeys(cells: seq<Entry>, key: string)
    requires DistinctKeys(cells)
    ensures DistinctKeys(Removed(cells, key))
    ensures Find(Removed(cells, key), key).None?
    ensures forall k :: k != key ==> (Find(cells, k).Some? <==> Find(Removed(cells, key), k).Some?)
  {
    var found := Find(cells, key);
    if found.Some? {
      var i := found.value;
      var rest := Removed(cells, key);
      assert forall a :: 0 <= a < |rest| ==> rest[a] == cells[if a < i then a else a + 1];
      forall k | k != key ensures Find(cells, k).Some? <==> Find(rest, k).Some? {
        if Find(cells, k).Some? {
          var j := Find(cells, k).value;
          assert rest[if j < i then j else j - 1] == cells[j];
        }
      }
    }
  }

  /** The inputs with an entry for the cell, a new one at the end when
    * missing, and where that entry is. */
  function WithEntry(cells: seq<Entry>, row: int, column: int): (r: (seq<Entry>, nat))
    ensures r.1 < |r.0| && r.0[r.1].key == CellKey(row, column)
    ensures Find(r.0, CellKey(row, column)) == Some(r.1)
    ensures Find(cells, CellKey(row, column)).Some? ==> r == (cells, Find(cells, CellKey(row, column)).value)
    ensures Find(cells, CellKey(row, column)).None? ==>
              r == (cells + [Entry(CellKey(row, column), CellInput(row, column, Unset, 0))], |cells|)
  {
    var key := CellKey(row, column);
    var found := Find(cells, key);
    if found.None? then (cells + [Entry(key, CellInput(row, column, Unset, 0))], |cells|)
    else (cells, found.value)
  }

  lemma WithEntryDistinct(cells: seq<Entry>, row: int, column: int)
    requires DistinctKeys(cells)
    ensures DistinctKeys(WithEntry(cells, row, column).0)
  {
  }

  /** `setCellInput` for a non-empty input: the inputs afterwards, the
    * display unit afterwards, what it throws, and whether the matrix forgets
    * its values. The entry is created when missing and, when `NeedsReset`,
    * its input read again, after which a change to cell `0_0` reads every
    * input again in insertion order. */
  function Placed(cells: seq<Entry>, display: Option<Unit>, row: int, column: int, s: string, path: string, ctx: Context)
    : (r: (seq<Entry>, Option<Unit>, Option<Failure>, bool))
    ensures SameKeys(r.0, WithEntry(cells, row, column).0)
    ensures r.3 ==> r.2.None?
  {
    var (added, i) := WithEntry(cells, row, column);
    var cell := added[i].cell;
    if !NeedsReset(cell.held, s) then (added, display, None, false)
    else
      var reset := Reset(cell, s, display, path, ctx);
      var placed := added[i := Entry(added[i].key, reset.0)];
      if reset.2.Some? then (placed, reset.1, reset.2, false)
      else if row == 0 && column == 0 then
        var all := ResetFrom(placed, 0, reset.1, path, ctx);
        (all.0, all.1, all.2, all.2.None?)
      else (placed, reset.1, None, true)
  }

  /** `setCellInput`: an empty input deletes the cell's entry, making the
    * matrix forget when there was one; any other is `Placed`. */
  function AfterSetCell(cells: seq<Entry>, display: Option<Unit>, row: int, column: int, s: string, path: string, ctx: Context)
    : (r: (seq<Entry>, Option<Unit>, Option<Failure>, bool))
    ensures r.3 ==> r.2.None?
  {
    if s == [] then
      (Removed(cells, CellKey(row, column)), display, None, Find(cells, CellKey(row, column)).Some?)
    else Placed(cells, display, row, column, s, path, ctx)
  }

  /** Setting a cell keeps the keys distinct. */
  lemma SetCellKeepsKeysDistinct(cells: seq<Entry>, display: Option<Unit>, row: int, column: int, s: string, path: string, ctx: Context)
    requires DistinctKeys(cells)
    ensures DistinctKeys(AfterSetCell(cells, display, row, column, s, path, ctx).0)
  {
    if s == [] {
      RemovedKeys(cells, CellKey(row, column));
    } else {
      WithEntryDistinct(cells, row, column);
      DistinctSameKeys(Placed(cells, display, row, column, s, path, ctx).0, WithEntry(cells, row, column).0);
    }
  }

  /** A non-empty input always leaves an entry for the cell. */
  lemma InputHasEntry(cells: seq<Entry>, display: Option<Unit>, row: int, column: int, s: string, path: string, ctx: Context)
    requires s != []
    ensures Find(AfterSetCell(cells, display, row, column, s, path, ctx).0, CellKey(row, column))
            == Some(WithEntry(cells, row, column).1)
  {
    FindSameKeys(Placed(cells, display, row, column, s, path, ctx).0, WithEntry(cells, row, column).0, CellKey(row, column));
  }

  /** A non-empty input typed in a cell other than `0_0` that does not throw
    * leaves the cell's entry holding that input, the display unit's name
    * appended to a plain number. */
  lemma InputIsPlaced(cells: seq<Entry>, display: Option<Unit>, row: int, column: int, s: string, path: string, ctx: Context)
    requires s != [] && !(row == 0 && column == 0)
    requires Find(cells, CellKey(row, column)).Some? ==>
               var c := cells[Find(cells, CellKey(row, column)).value].cell;
               c.row == row && c.column == column
    requires AfterSetCell(cells, display, row, column, s, path, ctx).2.None?
    ensures var r := AfterSetCell(cells, display, row, column, s, path, ctx);
            var cell := r.0[WithEntry(cells, row, column).1].cell;
            && r.1 == display
            && (InputOf(cell.held) == Some(s)
                || (display.Some? && cell.held == Typed(s + " " + display.value.name)))
  {
    var (added, i) := WithEntry(cells, row, column);
    var cell := added[i].cell;
    assert AfterSetCell(cells, display, row, column, s, path, ctx) == Placed(cells, display, row, column, s, path, ctx);
    if NeedsReset(cell.held, s) {
      var reset := Reset(cell, s, display, path, ctx);
      assert Placed(cells, display, row, column, s, path, ctx)
          == (added[i := Entry(added[i].key, reset.0)], reset.1, reset.2, reset.2.None?);
      assert reset.2.None? && reset.1 == display;
      if IsQuantity(s) {
        assert reset.0.held == Typed(s);
      } else if NumberOf(s).Some? {
        assert reset.0.held.Typed?;
      } else {
        assert reset.0.held == FormulaOf(s);
      }
    } else {
      assert Placed(cells, display, row, column, s, path, ctx) == (added, display, None, false);
    }
  }

  /** Correction of the retry: a cell in error typed again with the same
    * text is read again. */
  lemma RetypedErrorIsReread(cells: seq<Entry>, display: Option<Unit>, row: int, column: int, s: string, path: string, ctx: Context)
    requires s != [] && !(row == 0 && column == 0)
    requires Find(cells, CellKey(row, column)).Some?
    requires cells[Find(cells, CellKey(row, column)).value].cell.held == Errored(s)
    ensures var i := Find(cells, CellKey(row, column)).value;
            var reset := Reset(cells[i].cell, s, display, path, ctx);
            AfterSetCell(cells, display, row, column, s, path, ctx).0 == cells[i := Entry(CellKey(row, column), reset.0)]
  {
  }

  lemma ResetToZero(cell: CellInput, path: string, ctx: Context)
    ensures Reset(cell, "0", None, path, ctx) == (cell.(held := Typed("0"), value := 0), None, None)
  {
    SplitSpaceNone("0");
    assert Tokens("0") == ["0"];
    NumberOfDigits("0");
    assert DigitsValue("0") == 0;
  }

  /** What a new matrix holds: the input `0` in cell `0_0`. */
  lemma DefaultInput(path: string, ctx: Context)
    ensures AfterSetCell([], None, 0, 0, "0", path, ctx)
            == ([Entry(CellKey(0, 0), CellInput(0, 0, Typed("0"), 0))], None, None, true)
  {
    var cell := CellInput(0, 0, Typed("0"), 0);
    ResetToZero(CellInput(0, 0, Unset, 0), path, ctx);
    ResetToZero(cell, path, ctx);
    assert cell.(held := Typed("0"), value := 0) == cell;
    FirstCellPlaced("0", 0, path, ctx);
  }

  /** Typing a text into cell `0_0` of an empty matrix, when the text sets
    * the cell without error and setting it again changes nothing: the
    * matrix holds that one cell. */
  lemma FirstCellPlaced(text: string, value: int, path: string, ctx: Context)
    requires text != []
    requires Reset(CellInput(0, 0, Unset, 0), text, None, path, ctx) == (CellInput(0, 0, Typed(text), value), None, None)
    requires Reset(CellInput(0, 0, Typed(text), value), text, None, path, ctx) == (CellInput(0, 0, Typed(text), value), None, None)
    ensures AfterSetCell([], None, 0, 0, text, path, ctx)
            == ([Entry(CellKey(0, 0), CellInput(0, 0, Typed(text), value))], None, None, true)
  {
    var cell := CellInput(0, 0, Typed(text), value);
    var once := [Entry(CellKey(0, 0), cell)];
    var created := [Entry(CellKey(0, 0), CellInput(0, 0, Unset, 0))];
    assert WithEntry([], 0, 0) == (created, 0) by {
      assert Find([], CellKey(0, 0)).None?;
      assert [] + created == created;
    }
    assert NeedsReset(Unset, text);
    assert created[0 := Entry(CellKey(0, 0), cell)] == once;
    assert ResetFrom(once, 0, None, path, ctx) == (once, None, None) by {
      assert once[0 := Entry(CellKey(0, 0), cell)] == once;
      assert ResetFrom(once, 1, None, path, ctx) == (once, None, None);
    }
  }

}
