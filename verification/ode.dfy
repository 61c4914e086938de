/** The bookkeeping of an ODE solver tool (`MMOde`): its recorded-value
  * formulas and lists, the commands that remove and restore one, its reset,
  * and the cached y values it saves. The integration itself is not part of
  * this model. */
module Odes {
  import opened Wrappers
  import opened Strs
  import opened NumberValues
  import opened CommandReading
  import opened Tools
  import opened Splices
  import opened Recording

  /** What `removerecorded` keeps for its undo: the number and the text of
    * the formula removed. */
  datatype RecordedUndo = RecordedUndo(n: int, f: string)

  /** The outcome of `removerecorded`: the undo of a removal, or the
    * results text when there was nothing to remove. */
  datatype RemoveOutcome = RemovedRecorded(undo: RecordedUndo) | NoRecordedValue(results: string)

  /** The results text for a number that names no recorded value (JS
    * `parseInt` giving `NaN` when the argument is not a number). */
  function NoRecordedText(n: Option<int>): (r: string)
    ensures n.None? ==> r == "No recorded value NaN"
    ensures n.Some? ==> r == "No recorded value " + IntToString(n.value)
  {
    "No recorded value " + (if n.None? then "NaN" else IntToString(n.value))
  }

  /** Removing formula n and putting it back from its undo gives the same
    * list of formulas, except that the one put back is named `r{n}`. */
  lemma RestoreAfterRemove(formulas: seq<RecordedFormula>, n: int)
    requires 1 <= n <= |formulas|
    ensures var back := RecordedFormula("r" + IntToString(n), formulas[n - 1].formula);
            Inserted(Removed(formulas, n - 1), n - 1, back) == formulas[n - 1 := back]
  {
    var back := RecordedFormula("r" + IntToString(n), formulas[n - 1].formula);
    var renamed := formulas[n - 1 := back];
    assert Removed(renamed, n - 1) == Removed(formulas, n - 1);
    InsertedRemoved(renamed, n - 1);
  }

  /** A removal and its restore keep every formula's text and position. */
  lemma RestoreAfterRemoveKeepsTexts(formulas: seq<RecordedFormula>, n: int)
    requires 1 <= n <= |formulas|
    ensures var after := Inserted(Removed(formulas, n - 1), n - 1, RecordedFormula("r" + IntToString(n), formulas[n - 1].formula));
            |after| == |formulas| && forall k :: 0 <= k < |formulas| ==> after[k].formula == formulas[k].formula
  {
    RestoreAfterRemove(formulas, n);
  }

  /** The lists of recorded values after the same removal and restore: as
    * many as before, all empty, since both commands reset the solver. */
  lemma RestoreAfterRemoveRecords(records: seq<seq<NumberValue>>, n: int)
    requires 1 <= n <= |records|
    ensures Emptied(Inserted(Emptied(Removed(records, n - 1)), n - 1, [])) == Emptied(records)
  {
  }

  /** The cached y values as `saveObject` writes them: a value that is
    * not a number (`None` here) is written as 0. */
  function SavedYsOf(ys: seq<Option<int>>): (r: seq<int>)
    ensures |r| == |ys|
    ensures forall i :: 0 <= i < |ys| ==> r[i] == if ys[i].Some? then ys[i].value else 0
  {
    if ys == [] then [] else SavedYsOf(ys[..|ys| - 1]) + [if ys[|ys| - 1].Some? then ys[|ys| - 1].value else 0]
  }

  /** The loop of `saveObject` over the cached y values. */
  method SavedYs(ys: seq<Option<int>>) returns (a: seq<int>)
    ensures a == SavedYsOf(ys)
  {
    a := [];
    var i := 0;
    while i < |ys|
      invariant 0 <= i <= |ys| && a == SavedYsOf(ys[..i])
    {
      assert ys[..i + 1][..i] == ys[..i];
      a := a + [if ys[i].Some? then ys[i].value else 0];
      i := i + 1;
    }
    assert ys[..i] == ys;
  }

  class Ode {
    /** The tool every ODE solver also is. */
    const base: Tool
    /** `getPath()`. */
    const path: string
    const recorder: Recorder
    var nextRecordNumber: nat
    var isSolved: bool
    /** The y values of the last step, a cell that is not a number being
      * `None`. */
    var cachedY: Option<seq<Option<int>>>
    var isLoadingCase: bool

    /** A new solver: no recorded values, nothing cached. */
    constructor(name: string, path: string, position: (int, int))
      ensures fresh(base) && fresh(recorder) && this.path == path
      ensures nextRecordNumber == 0 && !isSolved && cachedY.None? && !isLoadingCase
      ensures recorder.formulas == [] && recorder.records == [] && recorder.lastRecordedFormula == 1
      ensures base.State() == ToolState(name, "", position, Flags(false, false, false, false), map[], {}, [], 0, 0)
    {
      base := new Tool(name, position);
      recorder := new Recorder();
      this.path := path;
      nextRecordNumber := 0;
      isSolved := false;
      cachedY := None;
      isLoadingCase := false;
    }

    /** `forgetStep`: the requestors are told to forget and dropped. */
    method ForgetStep()
      modifies base
      ensures base.State() == old(base.State()).(requestors := {}, forgets := old(base.forgets) + 1)
    {
      base.valueRequestors := {};
      base.ForgetCalculated();
    }

    /** `reset`: nothing cached, the lists emptied, back to the first
      * record, not solved. */
    method Reset()
      modifies recorder`records, this`cachedY, this`nextRecordNumber, this`isSolved, base
      ensures recorder.records == Emptied(old(recorder.records))
      ensures cachedY.None? && nextRecordNumber == 0 && !isSolved
      ensures base.State() == old(base.State()).(requestors := {}, forgets := old(base.forgets) + 1)
    {
      cachedY := None;
      recorder.ResetRecordedValues();
      nextRecordNumber := 0;
      isSolved := false;
      ForgetStep();
    }

    /** `addRecordedValue`: a formula `r{k}` recording `$.t`, then a reset
      * unless a case is being loaded. */
    method AddRecordedValue() returns (f: RecordedFormula)
      modifies recorder, this`cachedY, this`nextRecordNumber, this`isSolved, base
      ensures f == RecordedFormula("r" + NatToString(old(recorder.lastRecordedFormula)), "$.t")
      ensures recorder.formulas == old(recorder.formulas) + [f]
      ensures recorder.lastRecordedFormula == old(recorder.lastRecordedFormula) + 1
      ensures !isLoadingCase ==> recorder.records == Emptied(old(recorder.records) + [[]])
                                 && !isSolved && cachedY.None? && nextRecordNumber == 0
                                 && base.State() == old(base.State()).(requestors := {}, forgets := old(base.forgets) + 1)
      ensures isLoadingCase ==> recorder.records == old(recorder.records) + [[]]
                                && isSolved == old(isSolved) && cachedY == old(cachedY) && nextRecordNumber == old(nextRecordNumber)
                                && base.State() == old(base.State())
      ensures old(recorder.Valid()) ==> recorder.Valid()
    {
      f := recorder.Add("$.t");
      if !isLoadingCase {
        Reset();
      }
    }

    /** `removeRecordedValue(n)`: formula and list n gone and the solver
      * reset when n is from 1 to the number of formulas; otherwise nothing
      * changes. */
    method RemoveRecordedValue(n: int)
      modifies recorder`formulas, recorder`records, this`cachedY, this`nextRecordNumber, this`isSolved, base
      ensures 1 <= n <= |old(recorder.formulas)| ==>
                recorder.formulas == Removed(old(recorder.formulas), n - 1)
                && recorder.records == Emptied(Removed(old(recorder.records), n - 1))
                && !isSolved && cachedY.None? && nextRecordNumber == 0
                && base.State() == old(base.State()).(requestors := {}, forgets := old(base.forgets) + 1)
      ensures !(1 <= n <= |old(recorder.formulas)|) ==>
                recorder.formulas == old(recorder.formulas) && recorder.records == old(recorder.records)
                && isSolved == old(isSolved) && cachedY == old(cachedY) && nextRecordNumber == old(nextRecordNumber)
                && base.State() == old(base.State())
      ensures old(recorder.Valid()) ==> recorder.Valid()
    {
      var removed := recorder.Remove(n);
      if removed {
        Reset();
      }
    }

    /** `removerecorded n`: the undo keeps the number and the formula's
      * text; a number that names no formula changes nothing. */
    method RemoveRecordedCommand(args: string) returns (outcome: RemoveOutcome)
      modifies recorder`formulas, recorder`records, this`cachedY, this`nextRecordNumber, this`isSolved, base
      ensures var n := ParseInt(args);
              n.Some? && 1 <= n.value <= |old(recorder.formulas)| ==>
                outcome == RemovedRecorded(RecordedUndo(n.value, old(recorder.formulas)[n.value - 1].formula))
                && recorder.formulas == Removed(old(recorder.formulas), n.value - 1)
                && recorder.records == Emptied(Removed(old(recorder.records), n.value - 1))
                && !isSolved && cachedY.None? && nextRecordNumber == 0
                && base.State() == old(base.State()).(requestors := {}, forgets := old(base.forgets) + 1)
      ensures var n := ParseInt(args);
              !(n.Some? && 1 <= n.value <= |old(recorder.formulas)|) ==>
                outcome == NoRecordedValue(NoRecordedText(n))
                && recorder.formulas == old(recorder.formulas) && recorder.records == old(recorder.records)
                && isSolved == old(isSolved) && cachedY == old(cachedY) && nextRecordNumber == old(nextRecordNumber)
                && base.State() == old(base.State())
      ensures old(recorder.Valid()) ==> recorder.Valid()
    {
      var n := ParseInt(args);
      if n.Some? && 1 <= n.value <= |recorder.formulas| {
        ghost var formulas, records := recorder.formulas, recorder.records;
        var undo := RecordedUndo(n.value, recorder.formulas[n.value - 1].formula);
        RemoveRecordedValue(n.value);
        assert recorder.formulas == Removed(formulas, n.value - 1);
        assert recorder.records == Emptied(Removed(records, n.value - 1));
        outcome := RemovedRecorded(undo);
      } else {
        outcome := NoRecordedValue(NoRecordedText(n));
      }
    }

    /** `restorerecorded`: formula `r{n}` with the saved text and an empty
      * list spliced in at n - 1, then a reset. */
    method RestoreRecordedCommand(undo: RecordedUndo)
      modifies recorder`formulas, recorder`records, this`cachedY, this`nextRecordNumber, this`isSolved, base
      ensures recorder.formulas == Inserted(old(recorder.formulas), undo.n - 1, RecordedFormula("r" + IntToString(undo.n), undo.f))
      ensures recorder.records == Emptied(Inserted(old(recorder.records), undo.n - 1, []))
      ensures !isSolved && cachedY.None? && nextRecordNumber == 0
      ensures base.State() == old(base.State()).(requestors := {}, forgets := old(base.forgets) + 1)
      ensures old(recorder.Valid()) ==> recorder.Valid()
    {
      recorder.Restore(undo.n, undo.f);
      Reset();
    }

    /** `valueForRecorded(n)`: the recorded values of formula n as a matrix,
      * with `mmcmd:recordLengthError` when their lengths differ. */
    method ValueForRecorded(n: int) returns (r: Option<NumberValue>)
      modifies base`errors
      ensures var result := recorder.ValueFor(n);
              && (result.Recorded? ==> r == Some(result.value))
              && (!result.Recorded? ==> r.None?)
              && base.errors == old(base.errors) + (if result.LengthMismatch? then [Message("mmcmd:recordLengthError", [path])] else [])
    {
      if !(1 <= n <= |recorder.records|) {
        return None;
      }
      var result := RecordedValue(recorder.records[n - 1]);
      if result.Recorded? {
        r := Some(result.value);
      } else {
        if result.LengthMismatch? {
          base.errors := base.errors + [Message("mmcmd:recordLengthError", [path])];
        }
        r := None;
      }
    }

    /** `columnNameForRecorded(n, commentOnly)`. */
    function ColumnNameForRecorded(n: int, commentOnly: bool): (r: Option<string>)
      reads recorder`formulas
      ensures r.Some? ==> 1 <= n <= |recorder.formulas|
      ensures 1 <= n <= |recorder.formulas| && !commentOnly ==> r.Some?
    {
      ColumnNameFor(recorder.formulas, n, commentOnly)
    }

    /** The `cachedYs` that `saveObject` writes when the solver is not set
      * to run by itself and has cached values. */
    method SavedCachedYs() returns (a: Option<seq<int>>)
      ensures cachedY.None? ==> a.None?
      ensures cachedY.Some? ==> a == Some(SavedYsOf(cachedY.value))
    {
      if cachedY.None? {
        return None;
      }
      var ys := SavedYs(cachedY.value);
      a := Some(ys);
    }
  }
}
