/** The equation solver tool (`MMSolver`): its list of functions, each an
  * error formula `formula_n`, a count formula `count_n` and the outputs the
  * solver varies; the commands that add, remove and restore a function;
  * the resizing of the outputs to the count; and which value a description
  * asks for. Finding the outputs that zero the error formulas is not part
  * of this model. */
module Solvers {
  import opened Wrappers
  import opened Strs
  import opened NumberValues
  import opened CommandReading
  import opened Tools
  import opened Splices

  const TypeErrorThrown := "TypeError"
  /** `Array(n)` with a negative length. */
  const RangeErrorThrown := "RangeError"

  /** One function: the `n` in the names of its formulas `formula_n` and
    * `count_n`, the two formulas' texts and the outputs. */
  datatype SolverFunction = SolverFunction(number: int, error: string, count: string, outputs: seq<int>)

  /** The function `addFunction` makes at row n. */
  function NewFunction(n: int): SolverFunction
  {
    SolverFunction(n, "", "1", [1])
  }

  /** Each function's formulas are numbered by its row. */
  predicate WellNamed(fs: seq<SolverFunction>)
  {
    forall i :: 0 <= i < |fs| ==> fs[i].number == i + 1
  }

  /** The functions with those from position `from` on numbered by their
    * position plus `delta + 1`. */
  function Renumbered(fs: seq<SolverFunction>, from: nat, delta: int): (r: seq<SolverFunction>)
    ensures |r| == |fs|
    ensures forall k :: 0 <= k < |fs| ==> r[k] == if k >= from then fs[k].(number := k + 1 + delta) else fs[k]
  {
    if fs == [] then []
    else
      var last := fs[|fs| - 1];
      Renumbered(fs[..|fs| - 1], from, delta) + [if |fs| - 1 >= from then last.(number := |fs| + delta) else last]
  }

  /** The row `addFunction(rowNumber)` inserts at: the row given when it is
    * not missing, not 0 and not past the end, else the end. */
  function AddedRow(row: Option<int>, len: nat): (r: int)
    ensures r <= len + 1
    ensures row.Some? && 1 <= row.value <= len ==> r == row.value
    ensures (row.None? || row.value == 0 || row.value > len) ==> r == len + 1
    ensures r < 1 <==> row.Some? && row.value < 0
  {
    if row.Some? && row.value != 0 && row.value < len + 1 then row.value else len + 1
  }

  /** `addFunction(rowNumber)` on the list: the functions from the new row
    * on renamed one up, then the new one spliced in. A negative row renames
    * every function and then fails on the missing function before the
    * first. */
  function Added(fs: seq<SolverFunction>, row: Option<int>): (r: (seq<SolverFunction>, Result<int>))
    ensures r.1.Ok? <==> !(row.Some? && row.value < 0)
    ensures r.1.Ok? ==> 1 <= r.1.value <= |fs| + 1 && |r.0| == |fs| + 1
    ensures r.1.Err? ==> r.1.error == TypeErrorThrown && r.0 == Renumbered(fs, 0, 1)
  {
    var n := AddedRow(row, |fs|);
    if n < 1 then (Renumbered(fs, 0, 1), Err(TypeErrorThrown))
    else (Inserted(Renumbered(fs, n - 1, 1), n - 1, NewFunction(n)), Ok(n))
  }

  /** An added function sits at its row; the ones before it are unchanged,
    * the ones after it keep their formulas and are numbered by their new
    * row. */
  lemma AddedPlacesFunction(fs: seq<SolverFunction>, row: Option<int>, k: int)
    requires Added(fs, row).1.Ok? && 0 <= k <= |fs|
    ensures var n := Added(fs, row).1.value;
            var r := Added(fs, row).0;
            && r[n - 1] == NewFunction(n)
            && (k < n - 1 ==> r[k] == fs[k])
            && (k > n - 1 ==> r[k] == fs[k - 1].(number := k + 1))
  {
    var n := Added(fs, row).1.value;
    var t := Renumbered(fs, n - 1, 1);
    assert Added(fs, row).0 == Inserted(t, n - 1, NewFunction(n));
    if k > n - 1 {
      assert Inserted(t, n - 1, NewFunction(n))[k] == t[k - 1];
    }
  }

  /** Adding keeps every function numbered by its row. */
  lemma AddedKeepsNames(fs: seq<SolverFunction>, row: Option<int>)
    requires WellNamed(fs) && Added(fs, row).1.Ok?
    ensures WellNamed(Added(fs, row).0)
  {
    var r := Added(fs, row).0;
    forall k | 0 <= k < |r|
      ensures r[k].number == k + 1
    {
      AddedPlacesFunction(fs, row, k);
    }
  }

  /** The renaming loop of `addFunction`, from the last function down to
    * the new row; it fails when it reaches the position before the first
    * function. */
  method ShiftNumbersUp(fs: seq<SolverFunction>, n: int) returns (r: seq<SolverFunction>, thrown: bool)
    requires n <= |fs| + 1
    ensures thrown <==> n < 1
    ensures r == Renumbered(fs, if n < 1 then 0 else n - 1, 1)
  {
    r := fs;
    var i := |fs| - 1;
    while i >= n - 1
      invariant -1 <= i < |fs| && i >= n - 2
      invariant |r| == |fs| && forall k :: 0 <= k < |fs| ==> r[k] == if k > i then fs[k].(number := k + 2) else fs[k]
      decreases i + 1
    {
      if i < 0 {
        return r, true;
      }
      r := r[i := r[i].(number := i + 2)];
      i := i - 1;
    }
    thrown := false;
  }

  /** `removeFunction(rowNumber)` on the list as written: the function is
    * spliced out (a row below 1 counting from the end), and then the call
    * that removes its formulas fails, as it is handed a name where it
    * expects a command, before any function is renamed. */
  function RemovedAsWritten(fs: seq<SolverFunction>, row: int): (r: (seq<SolverFunction>, Result<()>))
    ensures row - 1 < |fs| ==> r.1 == Err(TypeErrorThrown)
    ensures 0 < |fs| && row - 1 < |fs| ==> |r.0| == |fs| - 1
    ensures row - 1 >= |fs| ==> r == (fs, Ok(()))
  {
    if row - 1 < |fs| then (Removed(fs, row - 1), Err(TypeErrorThrown)) else (fs, Ok(()))
  }

  /** Removing the first of two functions as written fails, and leaves the
    * other one named for row 2 at row 1. */
  lemma RemovedAsWrittenBreaksNames(fs: seq<SolverFunction>)
    requires WellNamed(fs) && |fs| == 2
    ensures RemovedAsWritten(fs, 1) == ([fs[1]], Err(TypeErrorThrown))
    ensures !WellNamed(RemovedAsWritten(fs, 1).0)
  {
    assert Removed(fs, 0) == [fs[1]];
  }

  /** `removeFunction(rowNumber)` as intended: for a row from 1 to the
    * number of functions, that function removed and the ones after it
    * numbered by their new row; any other row changes nothing. */
  function FunctionRemoved(fs: seq<SolverFunction>, row: int): (r: seq<SolverFunction>)
    ensures 1 <= row <= |fs| ==> |r| == |fs| - 1
    ensures !(1 <= row <= |fs|) ==> r == fs
  {
    if 1 <= row <= |fs| then Renumbered(Removed(fs, row - 1), row - 1, 0) else fs
  }

  /** Removing keeps every function numbered by its row, and keeps the
    * other functions' formulas in order. */
  lemma RemovedKeepsNames(fs: seq<SolverFunction>, row: int)
    requires WellNamed(fs) && 1 <= row <= |fs|
    ensures WellNamed(FunctionRemoved(fs, row))
    ensures forall k :: 0 <= k < |fs| - 1 ==>
              FunctionRemoved(fs, row)[k] == (if k < row - 1 then fs[k] else fs[k + 1].(number := k + 1))
  {
    forall k | 0 <= k < |fs| - 1
      ensures FunctionRemoved(fs, row)[k] == (if k < row - 1 then fs[k] else fs[k + 1].(number := k + 1))
    {
      RemovedFunctionAt(fs, row, k);
    }
  }

  /** One function of the list after a removal. */
  lemma RemovedFunctionAt(fs: seq<SolverFunction>, row: int, k: nat)
    requires WellNamed(fs) && 1 <= row <= |fs| && k < |fs| - 1
    ensures FunctionRemoved(fs, row)[k] == (if k < row - 1 then fs[k] else fs[k + 1].(number := k + 1))
    ensures FunctionRemoved(fs, row)[k].number == k + 1
  {
    var t := Removed(fs, row - 1);
    assert FunctionRemoved(fs, row) == Renumbered(t, row - 1, 0);
    RemovedAt(fs, row - 1, k);
  }

  /** Removing the function just added at a row gives the list back. */
  lemma RemoveUndoesAdd(fs: seq<SolverFunction>, n: int)
    requires WellNamed(fs) && 1 <= n <= |fs| + 1
    ensures Added(fs, Some(n)).1 == Ok(n)
    ensures FunctionRemoved(Added(fs, Some(n)).0, n) == fs
  {
    var t := Renumbered(fs, n - 1, 1);
    var a := Inserted(t, n - 1, NewFunction(n));
    assert Added(fs, Some(n)) == (a, Ok(n));
    RemovedInserted(t, n - 1, NewFunction(n));
    assert FunctionRemoved(a, n) == Renumbered(t, n - 1, 0);
    RenumberedBack(fs, n - 1);
  }

  /** Renumbering up by one and back gives a well-named list back. */
  lemma RenumberedBack(fs: seq<SolverFunction>, from: nat)
    requires WellNamed(fs)
    ensures Renumbered(Renumbered(fs, from, 1), from, 0) == fs
  {
    var t := Renumbered(Renumbered(fs, from, 1), from, 0);
    forall k | 0 <= k < |fs|
      ensures t[k] == fs[k]
    {
    }
  }

  /** What `removefunction` keeps for its undo. */
  datatype FunctionJson = FunctionJson(number: int, error: string, count: string)

  /** `restoreFunctionCommand` on the list: the function added back at its
    * number with its formulas' texts. */
  function Restored(fs: seq<SolverFunction>, json: FunctionJson): (r: (seq<SolverFunction>, Result<int>))
    ensures r.1 == Added(fs, Some(json.number)).1
  {
    var a := Added(fs, Some(json.number));
    if a.1.Err? then a
    else (a.0[a.1.value - 1 := a.0[a.1.value - 1].(error := json.error, count := json.count)], a.1)
  }

  /** Restoring a removed function from its undo gives the list back, with
    * the outputs of that function reset to `[1]`. */
  lemma RestoreUndoesRemove(fs: seq<SolverFunction>, row: int)
    requires WellNamed(fs) && 1 <= row <= |fs|
    ensures Restored(FunctionRemoved(fs, row), FunctionJson(row, fs[row - 1].error, fs[row - 1].count))
            == (fs[row - 1 := fs[row - 1].(outputs := [1])], Ok(row))
  {
    var t := FunctionRemoved(fs, row);
    RemovedKeepsNames(fs, row);
    var a := Added(t, Some(row));
    assert a.1 == Ok(row);
    var expected := fs[row - 1 := fs[row - 1].(outputs := [1])];
    var restored := a.0[row - 1 := a.0[row - 1].(error := fs[row - 1].error, count := fs[row - 1].count)];
    forall k | 0 <= k < |fs|
      ensures restored[k] == expected[k]
    {
      AddedPlacesFunction(t, Some(row), k);
    }
    assert restored == expected;
  }

  /** The undo of `addfunction` is `removefunction {row}}`: the stray brace
    * is harmless, as `parseInt` still reads the row. */
  lemma AddUndoRowParses(row: int)
    ensures ParseInt(IntToString(row) + "}") == Some(row)
  {
    var m: nat := if row < 0 then -row else row;
    var d := NatToString(m);
    NatToStringRoundTrip(m);
    LeadingDigitsThenOther(d, "}");
    assert ParseUnsigned(d + "}") == Some(m);
    if row < 0 {
      assert IntToString(row) + "}" == "-" + (d + "}");
      ParseNegativeDigits(d + "}", m);
    } else {
      ParseDigits(d + "}", m);
    }
  }

  lemma {:induction false} LeadingDigitsThenOther(d: string, rest: string)
    requires forall i :: 0 <= i < |d| ==> IsDigit(d[i])
    requires rest != [] && !IsDigit(rest[0])
    ensures LeadingDigits(d + rest) == d
  {
    if d == [] {
      assert d + rest == rest;
    } else {
      assert (d + rest)[1..] == d[1..] + rest;
      LeadingDigitsThenOther(d[1..], rest);
    }
  }

  /** `Array(n).fill(0)`. */
  function Zeros(n: nat): (r: seq<int>)
    ensures |r| == n && forall i :: 0 <= i < n ==> r[i] == 0
  {
    if n == 0 then [] else Zeros(n - 1) + [0]
  }

  /** `getOutputs` on one function's outputs, given the value of its count
    * formula: `[0]` when it is not a number; kept when the count is their
    * number; otherwise that many zeros, and a `RangeError` for a negative
    * count. */
  function OutputsFor(outputs: seq<int>, count: Option<NumberValue>): (r: Result<seq<int>>)
    ensures count.None? ==> r == Ok([0])
    ensures r.Err? <==> count.Some? && |count.value.m.cells| > 0 && count.value.m.cells[0] < 0 && count.value.m.cells[0] != |outputs|
    ensures r.Ok? && count.Some? && |count.value.m.cells| > 0 ==> |r.value| == count.value.m.cells[0]
    ensures r.Ok? && r.value != outputs ==> forall i :: 0 <= i < |r.value| ==> r.value[i] == 0
  {
    if count.None? then Ok([0])
    // `values[0]` of an empty value is undefined, and `Array(undefined)` has one element
    else if |count.value.m.cells| == 0 then Ok([0])
    else
      var c := count.value.m.cells[0];
      if c == |outputs| then Ok(outputs)
      else if c < 0 then Err(RangeErrorThrown)
      else Ok(Zeros(c))
  }

  /** The position of the first function whose count cannot size its
    * outputs, or the number of functions. */
  function FirstBadCount(counts: seq<Option<NumberValue>>): (r: nat)
    ensures r <= |counts|
    ensures forall k :: 0 <= k < r ==> OutputsFor([0], counts[k]).Ok?
    ensures r < |counts| ==> OutputsFor([0], counts[r]).Err?
  {
    if counts == [] then 0
    else if OutputsFor([0], counts[0]).Err? then 0
    else 1 + FirstBadCount(counts[1..])
  }

  /** Function k after `resetOutputs`, which stopped at position `stop`. */
  function ResetEntry(fs: seq<SolverFunction>, counts: seq<Option<NumberValue>>, k: nat): SolverFunction
    requires k < |fs| == |counts|
  {
    var stop := FirstBadCount(counts);
    if k < stop then fs[k].(outputs := OutputsFor([0], counts[k]).value)
    else if k == stop then fs[k].(outputs := [0])
    else fs[k]
  }

  /** The loop of `resetOutputs`: each function's outputs set to `[0]` and
    * then sized by its count, until a count fails. */
  method ResetLoop(fs: seq<SolverFunction>, counts: seq<Option<NumberValue>>) returns (r: seq<SolverFunction>, stop: nat)
    requires |counts| == |fs|
    ensures stop == FirstBadCount(counts)
    ensures |r| == |fs| && forall k :: 0 <= k < |fs| ==> r[k] == ResetEntry(fs, counts, k)
  {
    r := fs;
    var i := 0;
    while i < |fs|
      invariant 0 <= i <= FirstBadCount(counts) && |r| == |fs|
      invariant forall k :: 0 <= k < |fs| ==> r[k] == if k < i then ResetEntry(fs, counts, k) else fs[k]
    {
      r := r[i := r[i].(outputs := [0])];
      var sized := OutputsFor([0], counts[i]);
      if sized.Err? {
        return r, i;
      }
      r := r[i := r[i].(outputs := sized.value)];
      i := i + 1;
    }
    stop := i;
  }

  /** After a `resetOutputs` that did not fail, every function keeps its
    * formulas and its number, and all its outputs are zero. */
  lemma ResetZeroesOutputs(fs: seq<SolverFunction>, counts: seq<Option<NumberValue>>, k: nat)
    requires k < |fs| == |counts| && FirstBadCount(counts) == |counts|
    ensures var e := ResetEntry(fs, counts, k);
            e.(outputs := fs[k].outputs) == fs[k]
            && (e.outputs != [] ==> forall i :: 0 <= i < |e.outputs| ==> e.outputs[i] == 0)
  {
  }

  /** What a description asks a solver for: the tool's own answer, the
    * solved flag, count formula k, error formula k or outputs k, or
    * nothing. */
  datatype Described = ToolDescribed | SolvedFlag | CountOf(k: int) | ErrorOf(k: int) | OutputsOf(k: int) | NothingDescribed

  /** The index checks of `valueDescribedBy` for a solver of `count`
    * functions: `c<n>`, `f<n>` and `<n>` with n from 1 to `count`. */
  function DescribedBy(description: string, count: nat): (r: Described)
    ensures r.CountOf? || r.ErrorOf? || r.OutputsOf? ==> 1 <= r.k <= count
    ensures r == ToolDescribed <==> description == [] || count == 0
  {
    var lc := Lower(description);
    if lc == [] || count == 0 then ToolDescribed
    else if lc == "solved" then SolvedFlag
    else if lc[0] == 'c' || lc[0] == 'f' then
      var n := ParseInt(lc[1..]);
      if n.None? || n.value < 1 || n.value > count then NothingDescribed
      else if lc[0] == 'c' then CountOf(n.value) else ErrorOf(n.value)
    else
      var n := ParseInt(lc);
      if n.None? || n.value < 1 || n.value > count then NothingDescribed
      else OutputsOf(n.value)
  }

  lemma {:induction false} LowerDigits(s: string)
    requires forall i :: 0 <= i < |s| ==> IsDigit(s[i]) || s[i] == '-'
    ensures Lower(s) == s
  {
    if s != [] {
      LowerDigits(s[1..]);
      assert s == [s[0]] + s[1..];
    }
  }

  /** `c{k}` names count formula k for every k from 1 to the number of
    * functions, and nothing for any other k. */
  lemma DescribedByCount(k: int, count: nat)
    requires count > 0
    ensures DescribedBy("c" + IntToString(k), count) == if 1 <= k <= count then CountOf(k) else NothingDescribed
  {
    var d := IntToString(k);
    var s := "c" + d;
    LowerDigits(d);
    LowerConcat("c", d);
    assert Lower(s) == s && s[0] == 'c' && s != "solved";
    assert s[1..] == d;
    IntToStringRoundTrip(k);
  }

  /** `f{k}` names error formula k in the same way. */
  lemma DescribedByError(k: int, count: nat)
    requires count > 0
    ensures DescribedBy("f" + IntToString(k), count) == if 1 <= k <= count then ErrorOf(k) else NothingDescribed
  {
    var d := IntToString(k);
    var s := "f" + d;
    LowerDigits(d);
    LowerConcat("f", d);
    assert Lower(s) == s && s[0] == 'f' && s != "solved";
    assert s[1..] == d;
    IntToStringRoundTrip(k);
  }

  /** `{k}` names the outputs of function k in the same way. */
  lemma DescribedByOutputs(k: int, count: nat)
    requires count > 0
    ensures DescribedBy(IntToString(k), count) == if 1 <= k <= count then OutputsOf(k) else NothingDescribed
  {
    var d := IntToString(k);
    LowerDigits(d);
    assert d[0] != 'c' && d[0] != 'f' && d != "solved";
    IntToStringRoundTrip(k);
  }

  class Solver {
    /** The tool every solver also is. */
    const base: Tool
    /** `getPath()`. */
    const path: string
    var functions: seq<SolverFunction>
    var isEnabled: bool
    var isConverged: bool
    var isInError: bool

    /** A new solver: disabled, with one function. */
    constructor(name: string, path: string, position: (int, int))
      ensures fresh(base) && this.path == path
      ensures functions == [NewFunction(1)] && WellNamed(functions)
      ensures !isEnabled && !isConverged && !isInError
      ensures base.State() == ToolState(name, "", position, Flags(false, false, false, false), map[], {}, [], 0, 0)
    {
      base := new Tool(name, position);
      this.path := path;
      functions := [NewFunction(1)];
      isEnabled := false;
      isConverged := false;
      isInError := false;
    }

    /** `setEnabled(newState)`: a change to enabled while not converged
      * clears the error (and starts a calculation). */
    method SetEnabled(newState: bool)
      modifies this`isEnabled, this`isInError
      ensures isEnabled == newState
      ensures isInError == if old(isEnabled) != newState && newState && !isConverged then false else old(isInError)
    {
      if isEnabled != newState {
        isEnabled := newState;
        if newState && !isConverged {
          isInError := false;
        }
      }
    }

    /** `forgetCalculated` of a disabled solver: its requestors forget and
      * are dropped, it forgets its values, is no longer converged and is
      * no longer in error. */
    method ForgetWhileDisabled()
      requires !isEnabled
      modifies base, this`isConverged, this`isInError
      ensures base.State() == old(base.State()).(requestors := {}, forgets := old(base.forgets) + 1)
      ensures !isConverged && !isInError
    {
      base.valueRequestors := {};
      base.ForgetCalculated();
      isConverged := false;
      isInError := false;
    }

    /** `addFunction(rowNumber)`: the solver disabled, then the function
      * added as `Added` says. */
    method AddFunction(row: Option<int>) returns (r: Result<int>)
      modifies this`functions, this`isEnabled, this`isInError
      ensures (functions, r) == Added(old(functions), row)
      ensures !isEnabled && isInError == old(isInError)
    {
      SetEnabled(false);
      var n := AddedRow(row, |functions|);
      var shifted, thrown := ShiftNumbersUp(functions, n);
      functions := shifted;
      if thrown {
        return Err(TypeErrorThrown);
      }
      functions := Inserted(functions, n - 1, NewFunction(n));
      r := Ok(n);
    }

    /** `removeFunction(rowNumber)` as written. */
    method RemoveFunctionAsWritten(row: int) returns (r: Result<()>)
      modifies this`functions, this`isEnabled, this`isInError
      ensures (functions, r) == RemovedAsWritten(old(functions), row)
      ensures !isEnabled && isInError == old(isInError)
    {
      SetEnabled(false);
      if row - 1 < |functions| {
        functions := Removed(functions, row - 1);
        return Err(TypeErrorThrown);
      }
      r := Ok(());
    }

    /** `removeFunction(rowNumber)` as intended: the solver disabled, the
      * function removed and the ones after it renamed, then the solver
      * forgets its values. */
    method RemoveFunction(row: int)
      modifies this`functions, this`isEnabled, this`isInError, this`isConverged, base
      ensures functions == FunctionRemoved(old(functions), row) && !isEnabled
      ensures 1 <= row <= |old(functions)| ==>
                base.State() == old(base.State()).(requestors := {}, forgets := old(base.forgets) + 1) && !isConverged && !isInError
      ensures !(1 <= row <= |old(functions)|) ==>
                base.State() == old(base.State()) && isConverged == old(isConverged) && isInError == old(isInError)
    {
      SetEnabled(false);
      if 1 <= row <= |functions| {
        var t := Removed(functions, row - 1);
        var renamed := RenumberFrom(t, row - 1);
        functions := renamed;
        ForgetWhileDisabled();
      }
    }

    /** `addfunction [row]`: the row the function went to and the undo
      * `removefunction {row}}`. */
    method AddFunctionCommand(args: string) returns (r: Result<(int, string)>)
      modifies this`functions, this`isEnabled, this`isInError
      ensures var a := Added(old(functions), ParseInt(args));
              functions == a.0
              && (a.1.Ok? ==> r == Ok((a.1.value, path + " removefunction " + IntToString(a.1.value) + "}")))
              && (a.1.Err? ==> r == Err(a.1.error))
      ensures !isEnabled && isInError == old(isInError)
    {
      var row := AddFunction(ParseInt(args));
      if row.Err? {
        return Err(row.error);
      }
      r := Ok((row.value, path + " removefunction " + IntToString(row.value) + "}"));
    }

    /** `removefunction row`: nothing when only one function is left; the
      * error `mmcmd:solverRemoveRowError` for a row that names no function;
      * otherwise the function removed and its undo returned. */
    method RemoveFunctionCommand(args: string) returns (undo: Option<FunctionJson>)
      modifies this`functions, this`isEnabled, this`isInError, this`isConverged, base
      ensures var n := ParseInt(args);
              |old(functions)| < 2 ==> undo.None? && functions == old(functions) && base.State() == old(base.State())
                                       && isEnabled == old(isEnabled) && isInError == old(isInError) && isConverged == old(isConverged)
      ensures var n := ParseInt(args);
              |old(functions)| >= 2 && !(n.Some? && 1 <= n.value <= |old(functions)|) ==>
                undo.None? && functions == old(functions)
                && base.State() == old(base.State()).(errors := old(base.errors) + [Message("mmcmd:solverRemoveRowError", [args, path])])
                && isEnabled == old(isEnabled) && isInError == old(isInError) && isConverged == old(isConverged)
      ensures var n := ParseInt(args);
              |old(functions)| >= 2 && n.Some? && 1 <= n.value <= |old(functions)| ==>
                undo == Some(FunctionJson(n.value, old(functions)[n.value - 1].error, old(functions)[n.value - 1].count))
                && functions == FunctionRemoved(old(functions), n.value) && !isEnabled
                && base.State() == old(base.State()).(requestors := {}, forgets := old(base.forgets) + 1) && !isConverged && !isInError
    {
      if |functions| < 2 {
        return None;
      }
      var n := ParseInt(args);
      if n.None? || n.value < 1 || n.value > |functions| {
        base.errors := base.errors + [Message("mmcmd:solverRemoveRowError", [args, path])];
        return None;
      }
      undo := Some(FunctionJson(n.value, functions[n.value - 1].error, functions[n.value - 1].count));
      RemoveFunction(n.value);
    }

    /** `restorefunction`: the function added back at its number with its
      * formulas' texts, or `mmcmd:solverRestoreError` when that fails. */
    method RestoreFunctionCommand(json: FunctionJson)
      modifies this`functions, this`isEnabled, this`isInError, base`errors
      ensures var r := Restored(old(functions), json);
              functions == r.0
              && base.errors == old(base.errors) + (if r.1.Err? then [Message("mmcmd:solverRestoreError", [path])] else [])
      ensures !isEnabled && isInError == old(isInError)
    {
      var row := AddFunction(Some(json.number));
      if row.Err? {
        base.errors := base.errors + [Message("mmcmd:solverRestoreError", [path])];
        return;
      }
      var k := row.value - 1;
      functions := functions[k := functions[k].(error := json.error, count := json.count)];
    }

    /** `getOutputs(n)` given the value of function n's count formula. */
    method GetOutputs(n: nat, count: Option<NumberValue>) returns (r: Result<seq<int>>)
      requires n < |functions|
      modifies this`functions
      ensures r == OutputsFor(old(functions)[n].outputs, count)
      ensures r.Ok? ==> functions == old(functions)[n := old(functions)[n].(outputs := r.value)]
      ensures r.Err? ==> functions == old(functions)
    {
      r := OutputsFor(functions[n].outputs, count);
      if r.Ok? {
        functions := functions[n := functions[n].(outputs := r.value)];
      }
    }

    /** `resetOutputs` given the value of each count formula: the solver
      * disabled, every function's outputs back to zeros, then it forgets;
      * a negative count stops it with a `RangeError`. */
    method ResetOutputs(counts: seq<Option<NumberValue>>) returns (r: Result<()>)
      requires |counts| == |functions|
      modifies this`functions, this`isEnabled, this`isInError, this`isConverged, base
      ensures |functions| == |old(functions)| && forall k :: 0 <= k < |functions| ==> functions[k] == ResetEntry(old(functions), counts, k)
      ensures r.Ok? <==> FirstBadCount(counts) == |counts|
      ensures r.Ok? ==> base.State() == old(base.State()).(requestors := {}, forgets := old(base.forgets) + 1) && !isConverged && !isInError
      ensures r.Err? ==> r.error == RangeErrorThrown && base.State() == old(base.State())
                         && isConverged == old(isConverged) && isInError == old(isInError)
      ensures !isEnabled
    {
      SetEnabled(false);
      var fs, stop := ResetLoop(functions, counts);
      functions := fs;
      if stop < |fs| {
        return Err(RangeErrorThrown);
      }
      ForgetWhileDisabled();
      r := Ok(());
    }
  }

  /** The renaming loop that `removeFunction` means: every function from
    * position `from` on numbered by its new row. */
  method RenumberFrom(fs: seq<SolverFunction>, from: nat) returns (r: seq<SolverFunction>)
    ensures r == Renumbered(fs, from, 0)
  {
    r := fs;
    var i := from;
    while i < |fs|
      invariant |r| == |fs|
      invariant forall k :: 0 <= k < |fs| ==> r[k] == if from <= k < i then fs[k].(number := k + 1) else fs[k]
    {
      r := r[i := r[i].(number := i + 1)];
      i := i + 1;
    }
  }
}
