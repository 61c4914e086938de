/** What an HTML page's script posts back to its tool (`MMHtmlPage.action`)
  * and what the tool makes of it: the inputs it keeps by lower-cased name,
  * the values it answers from them, the replies to the formulas the page
  * asks for, and the `mm_` actions it collects. */
module HtmlInputs {
  import opened Wrappers
  import opened Strs
  import opened Matrices

  /** One value inside an array the page posts: a string, a number, or
    * anything else (`undefined` for a cell past the end of a short row). */
  datatype Cell = TextCell(text: string) | NumberCell(n: int) | MissingCell

  /** A posted input: a string, a number, an array of values, or an array
    * of rows. */
  datatype Input = TextInput(text: string) | NumberInput(n: int) | ListInput(items: seq<Cell>) | TableInput(rows: seq<seq<Cell>>)

  /** A value of the model's kind: `rowCount` × `columnCount` cells. */
  type CellMatrix = m: Matrix<Cell> | m.Valid() witness Matrix(0, 0, [])

  /** A value the page tool answers from an input. */
  datatype InputAnswer = StringAnswer(m: CellMatrix) | NumberAnswer(m: CellMatrix)

  // ---------------------------------------------------------------------
  // Inputs

  predicate AllDigits(s: string)
  {
    forall i :: 0 <= i < |s| ==> IsDigit(s[i])
  }

  /** The number a posted text stands for when both `Number(text)` and
    * `parseFloat(text)` read it: an integer numeral, with an optional sign
    * and white space around it. */
  function NumberText(s: string): (r: Option<int>)
    ensures r.Some? ==> Trim(s) != []
  {
    var t := Trim(s);
    var signed := t != [] && (t[0] == '-' || t[0] == '+');
    var digits := if signed then t[1..] else t;
    if digits == [] || !AllDigits(digits) then None
    else if t[0] == '-' then Some(-(DigitsValue(digits) as int))
    else Some(DigitsValue(digits) as int)
  }

  /** A number posted as its decimal text is read back as that number. */
  lemma NumberTextRoundTrip(n: int)
    ensures NumberText(IntToString(n)) == Some(n)
  {
    var s := IntToString(n);
    var m: nat := if n < 0 then -n else n;
    NatToStringRoundTrip(m);
    assert !IsSpace(s[0]) && !IsSpace(s[|s| - 1]);
    TrimKeepsInner(s);
    if n < 0 {
      assert s[1..] == NatToString(m);
    } else {
      assert s[0] != '-' && s[0] != '+';
    }
  }

  /** A text with a letter in it is not a numeral: it stays a text. */
  lemma NumberTextOfWord(s: string, i: nat)
    requires i < |s| && IsLetter(s[i])
    ensures NumberText(s) == None
  {
    var t := Trim(s);
    var k := TrimKeepsLetter(s, i);
    var signed := t != [] && (t[0] == '-' || t[0] == '+');
    var digits := if signed then t[1..] else t;
    assert k != 0 || !signed;
    var at := if signed then k - 1 else k;
    assert digits[at] == t[k];
    assert !AllDigits(digits);
  }

  /** Trimming keeps every letter. */
  lemma TrimKeepsLetter(s: string, i: nat) returns (k: nat)
    requires i < |s| && IsLetter(s[i])
    ensures k < |Trim(s)| && IsLetter(Trim(s)[k])
  {
    var a := TrimStart(s);
    var d := |s| - |a|;
    assert !IsSpace(s[i]);
    assert i >= d;
    assert a[i - d] == s[i];
    var t := TrimEnd(a);
    assert i - d < |t|;
    assert t[i - d] == a[i - d];
    k := i - d;
  }

  /** The value an input is kept as: a text that reads as a number becomes
    * that number, anything else is kept as posted. */
  function Converted(v: Input): (r: Input)
    ensures v.TextInput? && NumberText(v.text).Some? ==> r == NumberInput(NumberText(v.text).value)
    ensures !(v.TextInput? && NumberText(v.text).Some?) ==> r == v
  {
    if v.TextInput? && NumberText(v.text).Some? then NumberInput(NumberText(v.text).value) else v
  }

  /** `Number(text)` for a text kept as a text: 0 for a blank one (the only
    * numeric texts that are not converted), otherwise not a number. */
  function LooseNumber(text: string): (r: Option<int>)
  {
    if Trim(text) == [] then Some(0) else NumberText(text)
  }

  /** `newValue != this.inputs[name]` with JavaScript's loose equality: an
    * absent input always differs; a number and a text compare as numbers;
    * arrays never equal a value kept before. */
  function Differs(newValue: Input, stored: Option<Input>): (r: bool)
    ensures stored.None? ==> r
    ensures newValue.ListInput? || newValue.TableInput? ==> r
    ensures stored.Some? && stored.value == newValue && (newValue.TextInput? || newValue.NumberInput?) ==> !r
  {
    if stored.None? then true
    else
      match (newValue, stored.value)
      case (NumberInput(a), NumberInput(b)) => a != b
      case (TextInput(a), TextInput(b)) => a != b
      case (NumberInput(a), TextInput(b)) => LooseNumber(b) != Some(a)
      case (TextInput(a), NumberInput(b)) => LooseNumber(a) != Some(b)
      case _ => true
  }

  function Stored(inputs: Option<map<string, Input>>, key: string): Option<Input>
  {
    if inputs.Some? && key in inputs.value then Some(inputs.value[key]) else None
  }

  /** One posted input: kept under its lower-cased name, the inputs being
    * created if there were none, when it differs from what was kept; the
    * flag says whether it did. */
  function InputStep(inputs: Option<map<string, Input>>, name: string, v: Input): (r: (Option<map<string, Input>>, bool))
    ensures r.0.Some?
    ensures r.1 <==> Differs(Converted(v), Stored(inputs, Lower(name)))
    ensures r.1 ==> r.0.value == (if inputs.Some? then inputs.value else map[])[Lower(name) := Converted(v)]
    ensures !r.1 ==> r.0 == inputs
  {
    var key := Lower(name);
    var newValue := Converted(v);
    var current := if inputs.Some? then inputs.value else map[];
    if Differs(newValue, Stored(inputs, key)) then (Some(current[key := newValue]), true)
    else (Some(current), false)
  }

  /** The inputs after the posted ones were taken in order, and whether
    * any of them changed what was kept. */
  function InputsAfter(inputs: Option<map<string, Input>>, posted: seq<(string, Input)>): (r: (Option<map<string, Input>>, bool))
    ensures posted == [] ==> r == (inputs, false)
  {
    if posted == [] then (inputs, false)
    else
      var before := InputsAfter(inputs, posted[..|posted| - 1]);
      var (name, v) := posted[|posted| - 1];
      var step := InputStep(before.0, name, v);
      (step.0, before.1 || step.1)
  }

  /** The loop of `action` over the posted inputs. */
  method ApplyInputs(inputs: Option<map<string, Input>>, posted: seq<(string, Input)>)
    returns (after: Option<map<string, Input>>, changed: bool)
    ensures (after, changed) == InputsAfter(inputs, posted)
  {
    after, changed := inputs, false;
    var i := 0;
    while i < |posted|
      invariant 0 <= i <= |posted|
      invariant (after, changed) == InputsAfter(inputs, posted[..i])
    {
      assert posted[..i + 1][..i] == posted[..i];
      var (name, v) := posted[i];
      var key := Lower(name);
      var newValue := Converted(v);
      var kept := Stored(after, key);
      if after.None? {
        after := Some(map[]);
      }
      if Differs(newValue, kept) {
        after := Some(after.value[key := newValue]);
        changed := true;
      }
      i := i + 1;
    }
    assert posted[..i] == posted;
  }

  /** When no posted input differed from what was kept, the inputs are as
    * they were. */
  lemma {:induction false} UnchangedInputsKept(inputs: Option<map<string, Input>>, posted: seq<(string, Input)>)
    requires !InputsAfter(inputs, posted).1
    ensures InputsAfter(inputs, posted).0 == inputs
  {
    if posted != [] {
      UnchangedInputsKept(inputs, posted[..|posted| - 1]);
    }
  }

  /** Posting changes only the inputs named (in lower case) in the message. */
  lemma {:induction false} UnpostedInputsKept(inputs: Option<map<string, Input>>, posted: seq<(string, Input)>, key: string)
    requires forall i :: 0 <= i < |posted| ==> Lower(posted[i].0) != key
    ensures Stored(InputsAfter(inputs, posted).0, key) == Stored(inputs, key)
  {
    if posted != [] {
      UnpostedInputsKept(inputs, posted[..|posted| - 1], key);
    }
  }

  /** One posted input leaves its own key holding it, or a value loosely
    * equal to it, and every other key as it was. */
  lemma InputStepKeeps(inputs: Option<map<string, Input>>, name: string, v: Input, other: string)
    ensures var kept := Stored(InputStep(inputs, name, v).0, Lower(name));
            kept.Some? && (kept.value == Converted(v) || !Differs(Converted(v), kept))
    ensures other != Lower(name) ==> Stored(InputStep(inputs, name, v).0, other) == Stored(inputs, other)
  {
  }

  /** After posting, the last input posted under a name is what the tool
    * keeps under the lower-cased name, up to JavaScript's loose equality:
    * either that value itself, or one it counts as equal. */
  lemma {:induction false} LastPostedKept(inputs: Option<map<string, Input>>, posted: seq<(string, Input)>, i: nat)
    requires i < |posted|
    requires forall j :: i < j < |posted| ==> Lower(posted[j].0) != Lower(posted[i].0)
    ensures var kept := Stored(InputsAfter(inputs, posted).0, Lower(posted[i].0));
            kept.Some? && (kept.value == Converted(posted[i].1) || !Differs(Converted(posted[i].1), kept))
  {
    var front := posted[..|posted| - 1];
    var (name, v) := posted[|posted| - 1];
    var before := InputsAfter(inputs, front).0;
    assert InputsAfter(inputs, posted).0 == InputStep(before, name, v).0;
    InputStepKeeps(before, name, v, Lower(posted[i].0));
    if i < |posted| - 1 {
      LastPostedKept(inputs, front, i);
      assert front[i] == posted[i];
    }
  }

  // ---------------------------------------------------------------------
  // Values answered from the inputs

  /** Cell j of a posted row: `undefined` past its end. */
  function CellAt(row: seq<Cell>, j: nat): Cell
  {
    if j < |row| then row[j] else MissingCell
  }

  /** The first c cells of a row, padded with `undefined`. */
  function RowCells(row: seq<Cell>, c: nat): (r: seq<Cell>)
    ensures |r| == c
    ensures forall j :: 0 <= j < c ==> r[j] == CellAt(row, j)
  {
    if c == 0 then [] else RowCells(row, c - 1) + [CellAt(row, c - 1)]
  }

  /** The cells of a posted table in row-major order, c to a row. */
  function TableCells(rows: seq<seq<Cell>>, c: nat): (r: seq<Cell>)
    ensures |r| == Mul(|rows|, c)
  {
    if rows == [] then [] else TableCells(rows[..|rows| - 1], c) + RowCells(rows[|rows| - 1], c)
  }

  lemma {:induction false} FlatBelow(i: nat, j: nat, n: nat, c: nat)
    requires i < n && j < c
    ensures Flat(i, j, c) < Mul(n, c)
  {
    if i < n - 1 {
      FlatBelow(i, j, n - 1, c);
    }
  }

  /** Cell (i, j) of the table is at `i * c + j`, as the source's
    * `v[r*columnCount + c]` puts it. */
  lemma {:induction false} TableCellsAt(rows: seq<seq<Cell>>, c: nat, i: nat, j: nat)
    requires i < |rows| && j < c
    ensures Flat(i, j, c) < |TableCells(rows, c)|
    ensures TableCells(rows, c)[Flat(i, j, c)] == CellAt(rows[i], j)
  {
    FlatBelow(i, j, |rows|, c);
    var front := rows[..|rows| - 1];
    if i < |rows| - 1 {
      TableCellsAt(front, c, i, j);
      assert front[i] == rows[i];
    }
  }

  /** The nested loop that copies a posted table into a value's cells. */
  method FlattenTable(rows: seq<seq<Cell>>, c: nat) returns (cells: seq<Cell>)
    ensures cells == TableCells(rows, c)
  {
    cells := [];
    var r := 0;
    while r < |rows|
      invariant 0 <= r <= |rows|
      invariant cells == TableCells(rows[..r], c)
    {
      var j := 0;
      while j < c
        invariant 0 <= j <= c
        invariant cells == TableCells(rows[..r], c) + RowCells(rows[r], j)
      {
        cells := cells + [CellAt(rows[r], j)];
        j := j + 1;
      }
      assert rows[..r + 1][..r] == rows[..r];
      r := r + 1;
    }
    assert rows[..r] == rows;
  }

  function ColumnMatrix(items: seq<Cell>): CellMatrix
  {
    Matrix(|items|, 1, items)
  }

  function TableMatrix(rows: seq<seq<Cell>>, c: nat): CellMatrix
  {
    MulIsProduct(|rows|, c);
    Matrix(|rows|, c, TableCells(rows, c))
  }

  /** The value of a posted array: its first element says whether it is a
    * column of values (strings or numbers, as the first one is) or a table
    * as wide as its first row. */
  function ArrayAnswer(v: Input): (r: Option<InputAnswer>)
    requires v.ListInput? || v.TableInput?
    ensures v.ListInput? && r.Some? ==> r.value.m == ColumnMatrix(v.items)
    ensures v.TableInput? && r.Some? ==> v.rows != [] && r.value.m == TableMatrix(v.rows, |v.rows[0]|)
    ensures r.Some? ==> r.value.m.rowCount >= 1 && r.value.m.columnCount >= 1
  {
    match v
    case ListInput(items) =>
      if items == [] then None
      else if items[0].TextCell? then Some(StringAnswer(ColumnMatrix(items)))
      else if items[0].NumberCell? then Some(NumberAnswer(ColumnMatrix(items)))
      else None
    case TableInput(rows) =>
      if rows == [] || rows[0] == [] then None
      else if rows[0][0].TextCell? then Some(StringAnswer(TableMatrix(rows, |rows[0]|)))
      else if rows[0][0].NumberCell? then Some(NumberAnswer(TableMatrix(rows, |rows[0]|)))
      else None
  }

  function Scalar(c: Cell): CellMatrix
  {
    Matrix(1, 1, [c])
  }

  /** The value `valueDescribedBy` gives for a kept input as written: the
    * input is skipped when it is falsy, so an empty text and the number 0
    * give no value at all. */
  function AnswerOfAsWritten(v: Input): (r: Option<InputAnswer>)
    ensures v.TextInput? ==> (r.None? <==> v.text == "")
    ensures v.NumberInput? ==> (r.None? <==> v.n == 0)
  {
    match v
    case TextInput(s) => if s == "" then None else Some(StringAnswer(Scalar(TextCell(s))))
    case NumberInput(n) => if n == 0 then None else Some(NumberAnswer(Scalar(NumberCell(n))))
    case _ => ArrayAnswer(v)
  }

  /** An input of 0 (posted as the text "0", say) is unknown to formulas
    * that ask for it. */
  lemma ZeroInputUnanswered()
    ensures Converted(TextInput("0")) == NumberInput(0)
    ensures AnswerOfAsWritten(NumberInput(0)) == None
    ensures AnswerOf(NumberInput(0)) == Some(NumberAnswer(Scalar(NumberCell(0))))
  {
    assert Trim("0") == "0" by { TrimKeepsInner("0"); }
    assert AllDigits("0");
    assert DigitsValue("0") == 10 * DigitsValue("") + 0;
  }

  /** The value for a kept input, every kept input being answered: a text
    * or a number as a single value, an array as above. */
  function AnswerOf(v: Input): (r: Option<InputAnswer>)
    ensures v.TextInput? ==> r == Some(StringAnswer(Scalar(TextCell(v.text))))
    ensures v.NumberInput? ==> r == Some(NumberAnswer(Scalar(NumberCell(v.n))))
    ensures !(v.TextInput? || v.NumberInput?) ==> r == ArrayAnswer(v)
    ensures AnswerOfAsWritten(v).Some? ==> r == AnswerOfAsWritten(v)
  {
    match v
    case TextInput(s) => Some(StringAnswer(Scalar(TextCell(s))))
    case NumberInput(n) => Some(NumberAnswer(Scalar(NumberCell(n))))
    case _ => ArrayAnswer(v)
  }

  /** The value for a kept input, the table's cells copied by the loop. */
  method AnswerFor(v: Input) returns (r: Option<InputAnswer>)
    ensures r == AnswerOf(v)
  {
    match v {
      case TextInput(s) =>
        r := Some(StringAnswer(Scalar(TextCell(s))));
      case NumberInput(n) =>
        r := Some(NumberAnswer(Scalar(NumberCell(n))));
      case ListInput(items) =>
        r := ArrayAnswer(v);
      case TableInput(rows) =>
        if rows == [] || rows[0] == [] || rows[0][0].MissingCell? {
          r := None;
        } else {
          var c := |rows[0]|;
          var cells := FlattenTable(rows, c);
          MulIsProduct(|rows|, c);
          var m: CellMatrix := Matrix(|rows|, c, cells);
          r := if rows[0][0].TextCell? then Some(StringAnswer(m)) else Some(NumberAnswer(m));
        }
    }
  }

  // ---------------------------------------------------------------------
  // Replies to the formulas the page asks for

  /** What a request formula gave: a value, or something else (a tool). */
  datatype Evaluation = ValueResult(m: CellMatrix) | OtherResult

  /** A reply sent back for one request: `''` when the formula gave nothing,
    * `undefined` (dropped from the reply) for a result that is not a value
    * or has no cells, a single cell, rows of cells, or a list of cells. */
  datatype Reply = Blank | Undefined | ScalarReply(c: Cell) | RowsReply(rows: seq<seq<Cell>>) | ListReply(items: seq<Cell>)

  /** Row i of a value's cells. */
  function RowAt(cells: seq<Cell>, i: nat, c: nat, n: nat): (r: seq<Cell>)
    requires i < n && |cells| == Mul(n, c)
    ensures |r| == c
  {
    FlatBelowEnd(i, n, c);
    cells[Mul(i, c)..Mul(i, c) + c]
  }

  lemma {:induction false} FlatBelowEnd(i: nat, n: nat, c: nat)
    requires i < n
    ensures Mul(i, c) + c <= Mul(n, c)
  {
    if i < n - 1 {
      FlatBelowEnd(i, n - 1, c);
    }
  }

  /** The first n rows of a value's cells. */
  function RowsOf(cells: seq<Cell>, n: nat, c: nat, total: nat): (r: seq<seq<Cell>>)
    requires n <= total && |cells| == Mul(total, c)
    ensures |r| == n
    ensures forall i :: 0 <= i < n ==> r[i] == RowAt(cells, i, c, total)
  {
    if n == 0 then [] else RowsOf(cells, n - 1, c, total) + [RowAt(cells, n - 1, c, total)]
  }

  function Rows(m: CellMatrix): (r: seq<seq<Cell>>)
  {
    MulIsProduct(m.rowCount, m.columnCount);
    RowsOf(m.cells, m.rowCount, m.columnCount, m.rowCount)
  }

  /** Cell (i, j) of the rows is cell `i * columnCount + j` of the value. */
  lemma RowsAt(m: CellMatrix, i: nat, j: nat)
    requires i < m.rowCount && j < m.columnCount
    ensures Flat(i, j, m.columnCount) < |m.cells|
    ensures |Rows(m)| == m.rowCount && |Rows(m)[i]| == m.columnCount
    ensures Rows(m)[i][j] == m.cells[Flat(i, j, m.columnCount)]
  {
    MulIsProduct(m.rowCount, m.columnCount);
    FlatBelow(i, j, m.rowCount, m.columnCount);
    var row := RowAt(m.cells, i, m.columnCount, m.rowCount);
    assert Rows(m)[i] == row;
    FlatBelowEnd(i, m.rowCount, m.columnCount);
    assert row == m.cells[Mul(i, m.columnCount)..Mul(i, m.columnCount) + m.columnCount];
    assert row[j] == m.cells[Mul(i, m.columnCount) + j];
  }

  /** The reply for a request as written: a single cell, rows when there
    * is more than one row and more than one column, otherwise the first
    * `rowCount` cells. */
  function RequestReplyAsWritten(e: Option<Evaluation>): (r: Reply)
    ensures var oneRow := e.Some? && e.value.ValueResult? && e.value.m.rowCount == 1 && e.value.m.columnCount > 1;
            && (!oneRow ==> r == RequestReply(e))
            && (oneRow ==> |e.value.m.cells| > 1 && r == ListReply(e.value.m.cells[..1]))
  {
    if e.None? then Blank
    else if e.value.OtherResult? then Undefined
    else
      var m := e.value.m;
      MulIsProduct(m.rowCount, m.columnCount);
      if |m.cells| == 1 then ScalarReply(m.cells[0])
      else if m.rowCount > 1 && m.columnCount > 1 then RowsReply(Rows(m))
      else if |m.cells| > 1 then
        assert m.rowCount <= |m.cells|;
        ListReply(m.cells[..m.rowCount])
      else Undefined
  }

  /** A value of one row and three columns comes back as a list of one
    * cell: the loop runs over the rows where the value has columns. */
  lemma RowVectorReplyLosesCells()
    ensures var m: CellMatrix := Matrix(1, 3, [NumberCell(1), NumberCell(2), NumberCell(3)]);
            RequestReplyAsWritten(Some(ValueResult(m))) == ListReply([NumberCell(1)])
            && RequestReply(Some(ValueResult(m))) == ListReply([NumberCell(1), NumberCell(2), NumberCell(3)])
  {
  }

  /** The reply for a request, a one-row or one-column value coming back
    * as the list of all its cells. */
  function RequestReply(e: Option<Evaluation>): (r: Reply)
    ensures e.None? <==> r.Blank?
    ensures r.Undefined? <==> e.Some? && (e.value.OtherResult? || |e.value.m.cells| == 0)
  {
    if e.None? then Blank
    else if e.value.OtherResult? then Undefined
    else
      var m := e.value.m;
      if |m.cells| == 1 then ScalarReply(m.cells[0])
      else if m.rowCount > 1 && m.columnCount > 1 then RowsReply(Rows(m))
      else if |m.cells| > 1 then ListReply(m.cells)
      else Undefined
  }

  /** The nested loop that builds the rows of a reply. */
  method RowsReplyOf(m: CellMatrix) returns (rows: seq<seq<Cell>>)
    ensures rows == Rows(m)
  {
    MulIsProduct(m.rowCount, m.columnCount);
    var c := m.columnCount;
    rows := [];
    var r := 0;
    while r < m.rowCount
      invariant 0 <= r <= m.rowCount
      invariant rows == RowsOf(m.cells, r, c, m.rowCount)
    {
      var row: seq<Cell> := [];
      var j := 0;
      FlatBelowEnd(r, m.rowCount, c);
      while j < c
        invariant 0 <= j <= c
        invariant row == m.cells[Mul(r, c)..Mul(r, c) + j]
      {
        row := row + [m.cells[Flat(r, j, c)]];
        j := j + 1;
      }
      rows := rows + [row];
      r := r + 1;
    }
  }

  /** A rectangular table posted as an input comes back, when asked for,
    * as the same rows. */
  lemma TableRoundTrip(rows: seq<seq<Cell>>, c: nat)
    requires forall i :: 0 <= i < |rows| ==> |rows[i]| == c
    ensures Rows(TableMatrix(rows, c)) == rows
  {
    var m := TableMatrix(rows, c);
    MulIsProduct(|rows|, c);
    forall i | 0 <= i < |rows|
      ensures Rows(m)[i] == rows[i]
    {
      forall j | 0 <= j < c
        ensures Rows(m)[i][j] == rows[i][j]
      {
        RowsAt(m, i, j);
        TableCellsAt(rows, c, i, j);
      }
    }
  }

  /** The cells a reply carries, in row-major order. */
  function ReplyCells(r: Reply): seq<Cell>
  {
    match r
    case ScalarReply(c) => [c]
    case RowsReply(rows) => if rows == [] then [] else TableCells(rows, |rows[0]|)
    case ListReply(items) => items
    case _ => []
  }

  /** Every cell of a value comes back in the reply, in order. */
  lemma ReplyKeepsCells(m: CellMatrix)
    ensures ReplyCells(RequestReply(Some(ValueResult(m)))) == m.cells
  {
    MulIsProduct(m.rowCount, m.columnCount);
    if |m.cells| != 1 && m.rowCount > 1 && m.columnCount > 1 {
      var rows := Rows(m);
      var c := m.columnCount;
      RowsAt(m, 0, 0);
      var flat := TableCells(rows, c);
      MulIsProduct(|rows|, c);
      forall k | 0 <= k < |m.cells|
        ensures flat[k] == m.cells[k]
      {
        DivInRange(k, m.rowCount, c);
        var i, j := k / c, k % c;
        RowsAt(m, i, j);
        TableCellsAt(rows, c, i, j);
      }
    }
  }

  // ---------------------------------------------------------------------
  // Requests and actions

  /** `object[key] = value` on an object kept as its entries in insertion
    * order: a key already there keeps its place. */
  function Put<V>(entries: seq<(string, V)>, key: string, value: V): (r: seq<(string, V)>)
  {
    if entries == [] then [(key, value)]
    else if entries[0].0 == key then [(key, value)] + entries[1..]
    else [entries[0]] + Put(entries[1..], key, value)
  }

  /** `object[key]`. */
  function Lookup<V>(entries: seq<(string, V)>, key: string): (r: Option<V>)
  {
    if entries == [] then None
    else if entries[0].0 == key then Some(entries[0].1)
    else Lookup(entries[1..], key)
  }

  /** After `Put`, the key gives the value put and every other key what it
    * gave before. */
  lemma {:induction false} PutThenLookup<V>(entries: seq<(string, V)>, key: string, value: V, other: string)
    ensures Lookup(Put(entries, key, value), key) == Some(value)
    ensures other != key ==> Lookup(Put(entries, key, value), other) == Lookup(entries, other)
  {
    if entries != [] && entries[0].0 != key {
      PutThenLookup(entries[1..], key, value, other);
    }
  }

  /** A request name that asks for an action rather than a formula. */
  predicate IsActionName(name: string)
  {
    |name| >= 3 && name[..3] == "mm_"
  }

  /** The requests sorted in order: a name beginning `mm_` is an action
    * kept under its lower-cased name with its argument; any other is a
    * formula whose reply is kept under the name. */
  function SortedRequests(requests: seq<(string, string)>, evaluate: string -> Option<Evaluation>)
    : (r: (seq<(string, Reply)>, seq<(string, string)>))
  {
    if requests == [] then ([], [])
    else
      var (results, actions) := SortedRequests(requests[..|requests| - 1], evaluate);
      var (name, text) := requests[|requests| - 1];
      if IsActionName(name) then (results, Put(actions, Lower(name), text))
      else (Put(results, name, RequestReply(evaluate(text))), actions)
  }

  /** The loop of `action` over the requests. */
  method SortRequests(requests: seq<(string, string)>, evaluate: string -> Option<Evaluation>)
    returns (results: seq<(string, Reply)>, actions: seq<(string, string)>)
    ensures (results, actions) == SortedRequests(requests, evaluate)
  {
    results, actions := [], [];
    var i := 0;
    while i < |requests|
      invariant 0 <= i <= |requests|
      invariant (results, actions) == SortedRequests(requests[..i], evaluate)
    {
      assert requests[..i + 1][..i] == requests[..i];
      var (name, text) := requests[i];
      if IsActionName(name) {
        actions := Put(actions, Lower(name), text);
      } else {
        results := Put(results, name, RequestReply(evaluate(text)));
      }
      i := i + 1;
    }
    assert requests[..i] == requests;
  }

  /** The last formula request under a name gets its formula's reply. */
  lemma {:induction false} RequestAnswered(requests: seq<(string, string)>, evaluate: string -> Option<Evaluation>, i: nat)
    requires i < |requests| && !IsActionName(requests[i].0)
    requires forall j :: i < j < |requests| ==> requests[j].0 != requests[i].0
    ensures Lookup(SortedRequests(requests, evaluate).0, requests[i].0) == Some(RequestReply(evaluate(requests[i].1)))
  {
    var front := requests[..|requests| - 1];
    var (name, text) := requests[|requests| - 1];
    var before := SortedRequests(front, evaluate);
    if i == |requests| - 1 {
      PutThenLookup(before.0, name, RequestReply(evaluate(text)), name);
    } else {
      RequestAnswered(front, evaluate, i);
      assert front[i] == requests[i];
      if !IsActionName(name) {
        PutThenLookup(before.0, name, RequestReply(evaluate(text)), requests[i].0);
      }
    }
  }

  /** The last action request under a lower-cased name is kept with its
    * argument. */
  lemma {:induction false} ActionCollected(requests: seq<(string, string)>, evaluate: string -> Option<Evaluation>, i: nat)
    requires i < |requests| && IsActionName(requests[i].0)
    requires forall j :: i < j < |requests| ==> Lower(requests[j].0) != Lower(requests[i].0)
    ensures Lookup(SortedRequests(requests, evaluate).1, Lower(requests[i].0)) == Some(requests[i].1)
  {
    var front := requests[..|requests| - 1];
    var (name, text) := requests[|requests| - 1];
    var before := SortedRequests(front, evaluate);
    if i == |requests| - 1 {
      PutThenLookup(before.1, Lower(name), text, Lower(name));
    } else {
      ActionCollected(front, evaluate, i);
      assert front[i] == requests[i];
      if IsActionName(name) {
        PutThenLookup(before.1, Lower(name), text, Lower(requests[i].0));
      }
    }
  }

  /** A name that is not an action's gets no action. */
  lemma {:induction false} FormulaNotAction(requests: seq<(string, string)>, evaluate: string -> Option<Evaluation>, key: string)
    requires !IsActionName(key)
    ensures Lookup(SortedRequests(requests, evaluate).1, key) == None
  {
    if requests != [] {
      var front := requests[..|requests| - 1];
      var (name, text) := requests[|requests| - 1];
      FormulaNotAction(front, evaluate, key);
      if IsActionName(name) {
        assert Lower(name)[..3] == "mm_";
        PutThenLookup(SortedRequests(front, evaluate).1, Lower(name), text, key);
      }
    }
  }
}
