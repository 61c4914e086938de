/** An iterator tool (`MMIterator`): a counter `i`, a value `x` that the
  * `nextX` formula advances, and recorded values taken at every pass of
  * its loop for as long as the `while` formula holds. The formulas'
  * values are inputs here; what the loop does with them is modelled. */
module Iterators {
  import opened Wrappers
  import opened Strs
  import opened NumberValues
  import opened CommandReading
  import opened Tools
  import opened Recording

  /** What the formulas give during one pass of the loop of `solve`: each
    * recorded formula's value (nothing when not available), then `nextX`,
    * then `while`. */
  datatype Pass = Pass(values: seq<Option<NumberValue>>, nextX: Option<NumberValue>, test: Option<NumberValue>)

  /** The end of a run of `solve`'s loop: the lists, the passes that
    * recorded every value, `x`, the last test (nothing once recording
    * failed), where recording failed, and the passes started. */
  datatype Run = Run(records: seq<seq<NumberValue>>, count: nat, x: Option<NumberValue>,
                     test: Option<NumberValue>, failedAt: Option<nat>, passes: nat)

  /** The loop test `test && test.valueCount && test.values[0]`. */
  predicate Continues(test: Option<NumberValue>)
  {
    test.Some? && |test.value.m.cells| > 0 && test.value.m.cells[0] != 0
  }

  /** Every pass gives a value for each of `n` formulas. */
  predicate PassesFit(passes: seq<Pass>, n: nat)
  {
    forall k :: 0 <= k < |passes| ==> |passes[k].values| == n
  }

  /** The loop of `solve` from the given lists, `x` and test: nothing when
    * the passes given run out before it stops. */
  function RunOf(records: seq<seq<NumberValue>>, x: Option<NumberValue>, test: Option<NumberValue>, passes: seq<Pass>): (r: Option<Run>)
    requires PassesFit(passes, |records|)
    ensures r.Some? ==> |r.value.records| == |records| && r.value.count <= r.value.passes <= |passes|
    ensures r.Some? ==> (r.value.failedAt.None? <==> r.value.count == r.value.passes)
    ensures r.Some? && r.value.failedAt.None? ==> !Continues(r.value.test)
    decreases |passes|
  {
    if !Continues(test) then Some(Run(records, 0, x, test, None, 0))
    else if passes == [] then None
    else
      var p := passes[0];
      var stop := FirstMissing(p.values);
      var recs := AppendedUpTo(records, p.values, stop);
      if stop < |p.values| then Some(Run(recs, 0, x, None, Some(stop), 1))
      else
        var rest := RunOf(recs, p.nextX, p.test, passes[1..]);
        if rest.None? then None
        else Some(rest.value.(count := rest.value.count + 1, passes := rest.value.passes + 1))
  }

  /** A run in which every value was available adds exactly one value to
    * every list per pass, that is, as many as `i` went up by. */
  lemma {:induction false} RunRecordsOnePerPass(records: seq<seq<NumberValue>>, x: Option<NumberValue>, test: Option<NumberValue>, passes: seq<Pass>)
    requires PassesFit(passes, |records|)
    requires RunOf(records, x, test, passes).Some? && RunOf(records, x, test, passes).value.failedAt.None?
    ensures var run := RunOf(records, x, test, passes).value;
            forall k :: 0 <= k < |records| ==> |run.records[k]| == |records[k]| + run.count
    decreases |passes|
  {
    if Continues(test) {
      var p := passes[0];
      var recs := AppendedUpTo(records, p.values, FirstMissing(p.values));
      RunRecordsOnePerPass(recs, p.nextX, p.test, passes[1..]);
    }
  }

  /** A run that stops at once changes nothing. */
  lemma RunStopsAtOnce(records: seq<seq<NumberValue>>, x: Option<NumberValue>, test: Option<NumberValue>, passes: seq<Pass>)
    requires PassesFit(passes, |records|) && !Continues(test)
    ensures RunOf(records, x, test, passes) == Some(Run(records, 0, x, test, None, 0))
  {
  }

  /** The loop of `solve`, one pass at a time. */
  method RunLoop(records: seq<seq<NumberValue>>, x: Option<NumberValue>, test: Option<NumberValue>, passes: seq<Pass>) returns (run: Run)
    requires PassesFit(passes, |records|) && RunOf(records, x, test, passes).Some?
    ensures run == RunOf(records, x, test, passes).value
  {
    var recs, curX, curTest, j := records, x, test, 0;
    var count := 0;
    while Continues(curTest)
      invariant 0 <= j <= |passes| && count == j && |recs| == |records|
      invariant PassesFit(passes[j..], |recs|) && RunOf(recs, curX, curTest, passes[j..]).Some?
      invariant var rest := RunOf(recs, curX, curTest, passes[j..]).value;
                RunOf(records, x, test, passes).value == rest.(count := rest.count + count, passes := rest.passes + j)
      decreases |passes| - j
    {
      var p := passes[j];
      assert passes[j..][0] == p && passes[j..][1..] == passes[j + 1..];
      var r, stop := RecordValues(recs, p.values);
      if stop < |p.values| {
        return Run(r, count, curX, None, Some(stop), j + 1);
      }
      recs, curX, curTest := r, p.nextX, p.test;
      count := count + 1;
      j := j + 1;
    }
    run := Run(recs, count, curX, curTest, None, j);
  }

  /** The error `solve` reports when recording stopped at a formula. */
  function RecordError(failedAt: Option<nat>, path: string): (r: seq<Message>)
    ensures |r| <= 1 && (r == [] <==> failedAt.None?)
  {
    if failedAt.Some? then [Message("mmcmd:recordValueError", [IntToString(failedAt.value + 1), path])] else []
  }

  class Iterator {
    /** The tool every iterator also is. */
    const base: Tool
    /** `getPath()`. */
    const path: string
    const recorder: Recorder
    /** The counter `i`. */
    var i: int
    var x: Option<NumberValue>
    var isSolved: bool
    var shouldAutoRun: bool
    var isLoadingCase: bool

    /** A new iterator: `i` is 1, no `x`, no recorded values. */
    constructor(name: string, path: string, position: (int, int))
      ensures fresh(base) && fresh(recorder) && this.path == path
      ensures i == 1 && x.None? && !isSolved && !shouldAutoRun && !isLoadingCase
      ensures recorder.formulas == [] && recorder.records == [] && recorder.lastRecordedFormula == 1
      ensures base.State() == ToolState(name, "", position, Flags(false, false, false, false), map[], {}, [], 0, 0)
    {
      base := new Tool(name, position);
      recorder := new Recorder();
      this.path := path;
      i := 1;
      x := None;
      isSolved := false;
      shouldAutoRun := false;
      isLoadingCase := false;
    }

    /** `forgetStep`: the requestors are told to forget and dropped. */
    method ForgetStep()
      modifies base
      ensures base.State() == old(base.State()).(requestors := {}, forgets := old(base.forgets) + 1)
    {
      base.valueRequestors := {};
      base.ForgetCalculated();
    }

    /** `reset`: the lists emptied, `i` back to 0, not solved, no `x`. */
    method Reset()
      modifies recorder`records, this`i, this`x, this`isSolved, base
      ensures recorder.records == Emptied(old(recorder.records))
      ensures i == 0 && x.None? && !isSolved
      ensures base.State() == old(base.State()).(requestors := {}, forgets := old(base.forgets) + 1)
    {
      recorder.ResetRecordedValues();
      i := 0;
      ForgetStep();
      isSolved := false;
      x := None;
    }

    /** `addRecordedValue`: a formula `r{k}` recording `$.i`, then a reset
      * unless a case is being loaded. */
    method AddRecordedValue() returns (f: RecordedFormula)
      modifies recorder, this`i, this`x, this`isSolved, base
      ensures f == RecordedFormula("r" + NatToString(old(recorder.lastRecordedFormula)), "$.i")
      ensures recorder.formulas == old(recorder.formulas) + [f]
      ensures recorder.lastRecordedFormula == old(recorder.lastRecordedFormula) + 1
      ensures !isLoadingCase ==> recorder.records == Emptied(old(recorder.records) + [[]]) && i == 0 && x.None? && !isSolved
                                 && base.State() == old(base.State()).(requestors := {}, forgets := old(base.forgets) + 1)
      ensures isLoadingCase ==> recorder.records == old(recorder.records) + [[]] && i == old(i) && x == old(x)
                                && isSolved == old(isSolved) && base.State() == old(base.State())
      ensures old(recorder.Valid()) ==> recorder.Valid()
    {
      f := recorder.Add("$.i");
      if !isLoadingCase {
        Reset();
      }
    }

    /** `recordCurrentValues`, given each recorded formula's value: false,
      * with `mmcmd:recordValueError` for the first value not available,
      * after the lists before it were appended to. */
    method RecordCurrentValues(values: seq<Option<NumberValue>>) returns (ok: bool)
      requires |values| == |recorder.records|
      modifies recorder`records, base`errors
      ensures recorder.records == AppendedUpTo(old(recorder.records), values, FirstMissing(values))
      ensures ok <==> FirstMissing(values) == |values|
      ensures ok ==> base.errors == old(base.errors)
      ensures !ok ==> base.errors == old(base.errors) + [Message("mmcmd:recordValueError", [IntToString(FirstMissing(values) + 1), path])]
    {
      var stop := recorder.Record(values);
      ok := stop == |values|;
      if !ok {
        base.errors := base.errors + [Message("mmcmd:recordValueError", [IntToString(stop + 1), path])];
      }
    }

    /** `valueForRecorded(n)`: the recorded values of formula n as a matrix,
      * with `mmcmd:recordLengthError` when their lengths differ. */
    method ValueForRecorded(n: int) returns (r: Option<NumberValue>)
      modifies base`errors
      ensures var result := recorder.ValueFor(n);
              && (result.Recorded? ==> r == Some(result.value))
              && (!result.Recorded? ==> r.None?)
              && base.errors == old(base.errors) + (if result.LengthMismatch? then [Message("mmcmd:recordLengthError", [path])] else [])
    {
      if !(1 <= n <= |recorder.records|) {
        return None;
      }
      var result := RecordedValue(recorder.records[n - 1]);
      if result.Recorded? {
        r := Some(result.value);
      } else {
        if result.LengthMismatch? {
          base.errors := base.errors + [Message("mmcmd:recordLengthError", [path])];
        }
        r := None;
      }
    }

    /** `columnNameForRecorded(n)`: the formula's comment, else its text. */
    function ColumnNameForRecorded(n: int): (r: Option<string>)
      reads recorder`formulas
      ensures r.None? <==> !(1 <= n <= |recorder.formulas|)
    {
      ColumnNameFor(recorder.formulas, n, false)
    }

    /** `solve`, given `initialX`'s value, the first value of `while` and
      * what the formulas give at each pass: `i` goes up once per pass that
      * recorded every value; a pass that cannot record stops the loop,
      * reports the error and turns auto-run off; the iterator is solved
      * when the last test had a value and auto-run is still on. */
    method Solve(initialX: Option<NumberValue>, firstTest: Option<NumberValue>, passes: seq<Pass>)
      requires PassesFit(passes, |recorder.records|)
      requires RunOf(recorder.records, initialX, firstTest, passes).Some?
      modifies recorder`records, this`i, this`x, this`isSolved, this`shouldAutoRun, base
      ensures var run := RunOf(old(recorder.records), initialX, firstTest, passes).value;
              recorder.records == run.records && i == old(i) + run.count && x == run.x
      ensures var run := RunOf(old(recorder.records), initialX, firstTest, passes).value;
              shouldAutoRun == (old(shouldAutoRun) && run.failedAt.None?) && isSolved == (run.test.Some? && shouldAutoRun)
      ensures var run := RunOf(old(recorder.records), initialX, firstTest, passes).value;
              base.State() == old(base.State()).(requestors := {}, forgets := old(base.forgets) + 1 + run.passes,
                errors := old(base.errors) + RecordError(run.failedAt, path))
    {
      ghost var expected := RunOf(recorder.records, initialX, firstTest, passes).value;
      ghost var before := base.State();
      ForgetStep();
      x := initialX;
      var run := RunLoop(recorder.records, initialX, firstTest, passes);
      assert run == expected;
      recorder.records := run.records;
      i := i + run.count;
      x := run.x;
      base.forgets, base.errors := base.forgets + run.passes, base.errors + RecordError(run.failedAt, path);
      assert base.State() == before.(requestors := {}, forgets := before.forgets + 1 + run.passes,
        errors := before.errors + RecordError(run.failedAt, path));
      if run.failedAt.Some? {
        shouldAutoRun := false;
      }
      isSolved := run.test.Some? && shouldAutoRun;
    }
  }
}
