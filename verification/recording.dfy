/** The recorded values an ODE solver (`MMOde`) and an iterator
  * (`MMIterator`) keep: one formula per recorded value, named `r1`, `r2`, …
  * from a counter that only grows, and beside each formula the list of the
  * values it had at every recorded step. */
module Recording {
  import opened Wrappers
  import opened Strs
  import opened Matrices
  import opened NumberValues
  import opened Splices
  import ColumnNames

  /** A recorded-value formula: its name and its text. */
  datatype RecordedFormula = RecordedFormula(name: string, formula: string)

  /** The values of one recorded formula laid out as a matrix. */
  datatype RecordedResult = NoValue | LengthMismatch | Recorded(value: NumberValue)

  /** The cells of the values one after the other. */
  function Flatten(a: seq<NumberValue>): seq<int>
  {
    if a == [] then [] else a[0].m.cells + Flatten(a[1..])
  }

  /** Every value has `n` cells. */
  predicate AllLength(a: seq<NumberValue>, n: nat)
  {
    forall k :: 0 <= k < |a| ==> |a[k].m.cells| == n
  }

  lemma {:induction false} FlattenLength(a: seq<NumberValue>, n: nat)
    requires AllLength(a, n)
    ensures |Flatten(a)| == Mul(|a|, n)
  {
    if a != [] {
      FlattenLength(a[1..], n);
      MulIsProduct(|a|, n);
      MulIsProduct(|a| - 1, n);
    }
  }

  lemma {:induction false} FlattenSnoc(a: seq<NumberValue>, v: NumberValue)
    ensures Flatten(a + [v]) == Flatten(a) + v.m.cells
  {
    if a == [] {
      assert [v][1..] == [];
    } else {
      assert (a + [v])[1..] == a[1..] + [v];
      FlattenSnoc(a[1..], v);
    }
  }

  /** Row `row` of the flattened values is the row-th value's cells. */
  lemma {:induction false} FlattenAt(a: seq<NumberValue>, n: nat, row: nat, column: nat)
    requires AllLength(a, n) && row < |a| && column < n
    ensures Flat(row, column, n) < |Flatten(a)|
    ensures Flatten(a)[Flat(row, column, n)] == a[row].m.cells[column]
  {
    FlattenLength(a, n);
    FlattenLength(a[1..], n);
    if row > 0 {
      FlattenAt(a[1..], n, row - 1, column);
    }
  }

  /** `valueForRecorded` on one list: nothing for an empty list, a
    * mismatch when the values differ in length from the first, and
    * otherwise a matrix with a row per value, in the first value's units. */
  function RecordedMatrix(a: seq<NumberValue>): (r: RecordedResult)
    ensures r.NoValue? <==> a == []
    ensures r.LengthMismatch? <==> a != [] && !AllLength(a, |a[0].m.cells|)
    ensures r.Recorded? ==> && r.value.m.rowCount == |a| && r.value.m.columnCount == |a[0].m.cells|
                            && r.value.dims == a[0].dims && r.value.m.Valid()
  {
    if a == [] then NoValue
    else if !AllLength(a, |a[0].m.cells|) then LengthMismatch
    else
      FlattenLength(a, |a[0].m.cells|);
      MulIsProduct(|a|, |a[0].m.cells|);
      Recorded(NumberValue(Matrix(|a|, |a[0].m.cells|, Flatten(a)), a[0].dims))
  }

  /** The matrix of recorded values is row-major: its cell (row, column)
    * is cell `column` of the row-th recorded value. */
  lemma RecordedRowMajor(a: seq<NumberValue>, row: nat, column: nat)
    requires RecordedMatrix(a).Recorded?
    requires row < |a| && column < |a[0].m.cells|
    ensures At(RecordedMatrix(a).value.m, row, column) == a[row].m.cells[column]
  {
    FlattenAt(a, |a[0].m.cells|, row, column);
  }

  /** The loops of `valueForRecorded`: a zero-filled matrix, then each row
    * checked against the first row's length and copied in. */
  method RecordedValue(a: seq<NumberValue>) returns (r: RecordedResult)
    ensures r == RecordedMatrix(a)
  {
    if |a| == 0 {
      return NoValue;
    }
    var n := |a[0].m.cells|;
    var cells := seq(Mul(|a|, n), _ => 0);
    var row := 0;
    while row < |a|
      invariant 0 <= row <= |a| && |cells| == Mul(|a|, n)
      invariant AllLength(a[..row], n)
      invariant Mul(row, n) <= |cells| && cells[..Mul(row, n)] == Flatten(a[..row])
    {
      var v := a[row];
      if |v.m.cells| != n {
        return LengthMismatch;
      }
      MulMonotone(row + 1, |a|, n);
      var column := 0;
      while column < n
        invariant 0 <= column <= n && |cells| == Mul(|a|, n)
        invariant cells[..Mul(row, n) + column] == Flatten(a[..row]) + v.m.cells[..column]
      {
        cells := cells[Mul(row, n) + column := v.m.cells[column]];
        column := column + 1;
        assert v.m.cells[..column] == v.m.cells[..column - 1] + [v.m.cells[column - 1]];
      }
      assert a[..row + 1] == a[..row] + [v];
      FlattenSnoc(a[..row], v);
      assert v.m.cells[..n] == v.m.cells;
      row := row + 1;
    }
    assert a[..row] == a;
    assert cells[..Mul(row, n)] == cells;
    FlattenLength(a, n);
    MulIsProduct(|a|, n);
    r := Recorded(NumberValue(Matrix(|a|, n, cells), a[0].dims));
  }

  lemma {:induction false} MulMonotone(a: nat, b: nat, n: nat)
    requires a <= b
    ensures Mul(a, n) <= Mul(b, n)
  {
    if a < b {
      MulMonotone(a, b - 1, n);
    }
  }

  /** The position of the first value not available, or the count when
    * every value is. */
  function FirstMissing(values: seq<Option<NumberValue>>): (r: nat)
    ensures r <= |values| && forall k :: 0 <= k < r ==> values[k].Some?
    ensures r < |values| ==> values[r].None?
  {
    if values == [] || values[0].None? then 0 else 1 + FirstMissing(values[1..])
  }

  /** The lists with the values before position `upTo` appended, one to
    * each list. */
  function AppendedUpTo(records: seq<seq<NumberValue>>, values: seq<Option<NumberValue>>, upTo: nat): (r: seq<seq<NumberValue>>)
    requires |values| == |records| && upTo <= |values| && forall k :: 0 <= k < upTo ==> values[k].Some?
    ensures |r| == |records|
    ensures forall k :: 0 <= k < upTo ==> r[k] == records[k] + [values[k].value]
    ensures forall k :: upTo <= k < |records| ==> r[k] == records[k]
  {
    seq(|records|, k requires 0 <= k < |records| => if k < upTo then records[k] + [values[k].value] else records[k])
  }

  /** The loop of `recordCurrentValues`: each list gets its formula's
    * value until the first one not available; the lists before it keep
    * their new value. The result is where it stopped, or the count. */
  method RecordValues(records: seq<seq<NumberValue>>, values: seq<Option<NumberValue>>) returns (r: seq<seq<NumberValue>>, stop: nat)
    requires |values| == |records|
    ensures stop == FirstMissing(values) && r == AppendedUpTo(records, values, stop)
  {
    r := records;
    var i := 0;
    while i < |values|
      invariant 0 <= i <= |values| && i <= FirstMissing(values)
      invariant r == AppendedUpTo(records, values, i)
    {
      if values[i].None? {
        return r, i;
      }
      r := r[i := r[i] + [values[i].value]];
      i := i + 1;
    }
    return r, i;
  }

  /** Every list emptied, their number kept. */
  function Emptied(records: seq<seq<NumberValue>>): (r: seq<seq<NumberValue>>)
    ensures |r| == |records| && forall k :: 0 <= k < |r| ==> r[k] == []
  {
    seq(|records|, _ => [])
  }

  /** `columnNameForRecorded(n, commentOnly)`: for `n` from 1 to the
    * number of formulas, the n-th formula's column name; otherwise
    * nothing. */
  function ColumnNameFor(formulas: seq<RecordedFormula>, n: int, commentOnly: bool): (r: Option<string>)
    ensures !(1 <= n <= |formulas|) ==> r.None?
    ensures 1 <= n <= |formulas| ==>
              (r.None? <==> commentOnly && '\'' !in formulas[n - 1].formula)
              && ('\'' !in formulas[n - 1].formula && !commentOnly ==> r == Some(formulas[n - 1].formula))
  {
    if 1 <= n <= |formulas| then ColumnNames.ColumnName(formulas[n - 1].formula, commentOnly) else None
  }

  /** A recorded formula with a comment is named by it; one without is
    * named by its text unless only a comment will do. */
  lemma ColumnNameForComment(formulas: seq<RecordedFormula>, n: int, code: string, comment: string)
    requires 1 <= n <= |formulas| && formulas[n - 1].formula == code + "'" + comment
    requires '\'' !in code && '\'' !in comment
    ensures ColumnNameFor(formulas, n, false) == Some(ColumnNames.Underscored(Trim(comment)))
    ensures ColumnNameFor(formulas, n, true) == Some(ColumnNames.Underscored(Trim(comment)))
  {
    assert code + "'" + comment == code + "'" + comment + [];
    ColumnNames.CommentBetweenQuotes(code, comment, []);
  }

  /** The lists of recorded formulas and values. */
  class Recorder {
    var formulas: seq<RecordedFormula>
    var records: seq<seq<NumberValue>>
    /** The number the next added formula is named with. */
    var lastRecordedFormula: nat

    /** A formula for every list. */
    predicate Valid()
      reads this`formulas, this`records
    {
      |formulas| == |records|
    }

    constructor()
      ensures formulas == [] && records == [] && lastRecordedFormula == 1 && Valid()
    {
      formulas := [];
      records := [];
      lastRecordedFormula := 1;
    }

    /** `addRecordedValue` on the lists: a formula `r{k}` with the given
      * text, `k` taken from the counter, and an empty list. */
    method Add(text: string) returns (f: RecordedFormula)
      modifies this
      ensures f == RecordedFormula("r" + NatToString(old(lastRecordedFormula)), text)
      ensures formulas == old(formulas) + [f] && records == old(records) + [[]]
      ensures lastRecordedFormula == old(lastRecordedFormula) + 1
      ensures old(Valid()) ==> Valid()
    {
      f := RecordedFormula("r" + NatToString(lastRecordedFormula), text);
      lastRecordedFormula := lastRecordedFormula + 1;
      formulas := formulas + [f];
      records := records + [[]];
    }

    /** `removeRecordedValue(n)` on the lists: position n - 1 removed from
      * both when n is from 1 to the number of formulas. */
    method Remove(n: int) returns (removed: bool)
      modifies this`formulas, this`records
      ensures removed <==> 1 <= n <= |old(formulas)|
      ensures removed ==> formulas == Removed(old(formulas), n - 1) && records == Removed(old(records), n - 1)
      ensures !removed ==> formulas == old(formulas) && records == old(records)
      ensures old(Valid()) ==> Valid()
    {
      removed := 1 <= n <= |formulas|;
      if removed {
        formulas := Removed(formulas, n - 1);
        records := Removed(records, n - 1);
      }
    }

    /** `restoreRecordedCommand` on the lists: a formula `r{n}` with the
      * saved text and an empty list, both spliced in at n - 1. */
    method Restore(n: int, text: string)
      modifies this`formulas, this`records
      ensures formulas == Inserted(old(formulas), n - 1, RecordedFormula("r" + IntToString(n), text))
      ensures records == Inserted(old(records), n - 1, [])
      ensures old(Valid()) ==> Valid()
    {
      formulas := Inserted(formulas, n - 1, RecordedFormula("r" + IntToString(n), text));
      records := Inserted(records, n - 1, []);
    }

    /** `resetRecordedValues`: as many empty lists as before. */
    method ResetRecordedValues()
      modifies this`records
      ensures records == Emptied(old(records))
    {
      var count := |records|;
      var lists: seq<seq<NumberValue>> := [];
      var i := 0;
      while i < count
        invariant 0 <= i <= count && |lists| == i && forall k :: 0 <= k < i ==> lists[k] == []
      {
        lists := lists + [[]];
        i := i + 1;
      }
      records := lists;
    }

    /** The recording part of `recordCurrentValues`, given the value of
      * each formula (nothing for one not available): the result is where
      * it stopped, or the count when every value was recorded. */
    method Record(values: seq<Option<NumberValue>>) returns (stop: nat)
      requires |values| == |records|
      modifies this`records
      ensures stop == FirstMissing(values) && records == AppendedUpTo(old(records), values, stop)
    {
      var r;
      r, stop := RecordValues(records, values);
      records := r;
    }

    /** `valueForRecorded(n)` before any error is reported. */
    function ValueFor(n: int): (r: RecordedResult)
      reads this`records
      ensures !(1 <= n <= |records|) ==> r.NoValue?
      ensures 1 <= n <= |records| ==> (r.NoValue? <==> records[n - 1] == [])
      ensures r.Recorded? ==> r.value.m.rowCount == |records[n - 1]| && r.value.m.Valid()
                              && r.value.m.columnCount == |records[n - 1][0].m.cells| && r.value.dims == records[n - 1][0].dims
    {
      if 1 <= n <= |records| then RecordedMatrix(records[n - 1]) else NoValue
    }
  }
}
