/** A graph tool (`MMGraph`): a list of x axes (`MMGraphX`), each with its
  * y lines and, in a 3D graph, a z line (`MMGraphY`). Every axis is named by
  * its position: the n-th x axis is `xn`, its i-th y line `yn_i` and its z
  * line `zn`, and the graph's formulas for the axis values, minimum and
  * maximum carry those names. */
module Graphs {
  import opened Wrappers
  import opened Strs
  import opened CommandReading
  import opened Tools
  import ColumnNames

  /** The exception a call on `undefined` raises. */
  const TypeErrorThrown := "TypeError"

  /** An axis: its name and the text of its value, minimum and maximum
    * formulas. */
  datatype Axis = Axis(name: AxisName, formula: string, minFormula: string, maxFormula: string)

  /** A y or z line: an axis drawn as line type 0 to 3 (line, scatter, bar,
    * bar+dot); a loaded file may hold any number. */
  datatype Line = Line(axis: Axis, lineType: int)

  /** An x axis: its number, its y lines and its z line. */
  datatype XAxis = XAxis(axis: Axis, number: int, yLines: seq<Line>, z: Option<Line>)

  /** An axis of the graph by position: an x axis, one of its y lines or its
    * z line. */
  datatype AxisRef = XRef(x: nat) | YRef(x: nat, y: nat) | ZRef(x: nat)

  /** The names the graph gives its axes: `xn`, `yn_i` and `zn`. */
  datatype AxisName = XName(n: int) | YName(n: int, i: int) | ZName(n: int)

  /** A name as the graph writes it. */
  function Text(a: AxisName): (r: string)
    ensures |r| >= 2 && r[0] == (match a case XName(_) => 'x' case YName(_, _) => 'y' case ZName(_) => 'z')
  {
    match a
    case XName(n) => "x" + IntToString(n)
    case YName(n, i) => "y" + IntToString(n) + "_" + IntToString(i)
    case ZName(n) => "z" + IntToString(n)
  }

  /** A new line: empty formulas, drawn as a line. */
  function NewLine(name: AxisName): Line { Line(Axis(name, "", "", ""), 0) }

  /** `new MMGraphX(graph, n)`: one y line, and a z line when the graph's
    * first x axis has one. */
  function NewX(n: int, threeD: bool): XAxis
  {
    XAxis(Axis(XName(n), "", "", ""), n, [NewLine(YName(n, 1))], if threeD then Some(NewLine(ZName(n))) else None)
  }

  /** Whether the graph is 3D: its first x axis has a z line. */
  predicate ThreeD(xs: seq<XAxis>) { |xs| > 0 && xs[0].z.Some? }

  /** How often building an x axis makes the graph forget: once for its y
    * line and once more for its z line. */
  function CreationForgets(threeD: bool): nat { if threeD then 2 else 1 }

  function Renamed(l: Line, name: AxisName): Line { l.(axis := l.axis.(name := name)) }

  /** Every axis of `x` carries the name its number gives it. */
  predicate XNamed(x: XAxis, n: int)
  {
    && x.number == n && x.axis.name == XName(n)
    && (forall j :: 0 <= j < |x.yLines| ==> x.yLines[j].axis.name == YName(n, j + 1))
    && (x.z.Some? ==> x.z.value.axis.name == ZName(n))
  }

  /** Every axis of the graph carries the name its position gives it. */
  predicate WellNamed(xs: seq<XAxis>)
  {
    forall i :: 0 <= i < |xs| ==> XNamed(xs[i], i + 1)
  }

  /** At least one x axis, and at least one y line on every x axis. */
  predicate Shaped(xs: seq<XAxis>)
  {
    |xs| >= 1 && forall i :: 0 <= i < |xs| ==> |xs[i].yLines| >= 1
  }

  /** Two lines that differ at most in their names. */
  predicate SameLine(a: Line, b: Line) { Renamed(a, b.axis.name) == b }

  /** Two x axes that differ at most in their names and numbers. */
  predicate SameContent(x: XAxis, y: XAxis)
  {
    && x.axis.(name := y.axis.name) == y.axis
    && |x.yLines| == |y.yLines| && (forall j :: 0 <= j < |x.yLines| ==> SameLine(x.yLines[j], y.yLines[j]))
    && x.z.Some? == y.z.Some? && (x.z.Some? ==> SameLine(x.z.value, y.z.value))
  }

  // ---------------------------------------------------------------------
  // Renaming

  /** The lines from position `from` on renamed for x axis `n`, the first of
    * them to line number `first`, the next to `first + 1`, and so on. */
  function RenamedLinesFrom(lines: seq<Line>, from: nat, n: int, first: int): (r: seq<Line>)
    requires from <= |lines|
    ensures |r| == |lines| && r[..from] == lines[..from]
    ensures forall k :: 0 <= k < from ==> r[k] == lines[k]
    ensures forall k :: from <= k < |lines| ==> r[k] == Renamed(lines[k], YName(n, first + k - from))
  {
    lines[..from] + RenamedLines(lines[from..], n, first)
  }

  /** The lines renamed for x axis `n`, to line numbers `first`,
    * `first + 1`, … */
  function RenamedLines(lines: seq<Line>, n: int, first: int): (r: seq<Line>)
    ensures |r| == |lines| && forall k :: 0 <= k < |lines| ==> r[k] == Renamed(lines[k], YName(n, first + k))
  {
    if lines == [] then [] else [Renamed(lines[0], YName(n, first))] + RenamedLines(lines[1..], n, first + 1)
  }

  /** `renumberTo(n)`: the axis becomes `xn`, its lines `yn_1`, `yn_2`, …
    * and its z line `zn`. */
  function Renumbered(x: XAxis, n: int): (r: XAxis)
    ensures r.number == n && |r.yLines| == |x.yLines| && r.z.Some? == x.z.Some?
  {
    XAxis(x.axis.(name := XName(n)), n, RenamedLines(x.yLines, n, 1),
          if x.z.Some? then Some(Renamed(x.z.value, ZName(n))) else None)
  }

  /** Renumbering names every axis after the new number and changes nothing
    * else. */
  lemma RenumberedNamesOnly(x: XAxis, n: int)
    ensures XNamed(Renumbered(x, n), n)
    ensures SameContent(Renumbered(x, n), x)
  {
  }

  lemma RenamedSame(l: Line, name: AxisName)
    requires l.axis.name == name
    ensures Renamed(l, name) == l
  {
  }

  /** An x axis already named after its number is its own renumbering. */
  lemma RenumberedNamed(x: XAxis, n: int)
    requires XNamed(x, n)
    ensures Renumbered(x, n) == x
  {
    var r := Renumbered(x, n);
    forall j | 0 <= j < |x.yLines| ensures r.yLines[j] == x.yLines[j] {
      RenamedSame(x.yLines[j], YName(n, j + 1));
    }
    assert r.yLines == x.yLines;
  }

  /** Renumbering twice is renumbering once to the second number. */
  lemma RenumberedTwice(x: XAxis, a: int, b: int)
    ensures Renumbered(Renumbered(x, a), b) == Renumbered(x, b)
  {
    var r := Renumbered(Renumbered(x, a), b);
    assert forall j :: 0 <= j < |x.yLines| ==> r.yLines[j] == Renumbered(x, b).yLines[j];
    assert r.yLines == Renumbered(x, b).yLines;
  }

  /** The loop of `renumberTo`, one y line at a time. */
  method RenumberTo(x: XAxis, n: int) returns (r: XAxis)
    ensures r == Renumbered(x, n)
  {
    var lines := x.yLines;
    var i := 0;
    while i < |lines|
      invariant 0 <= i <= |lines| == |x.yLines|
      invariant forall j :: 0 <= j < i ==> lines[j] == Renamed(x.yLines[j], YName(n, j + 1))
      invariant forall j :: i <= j < |lines| ==> lines[j] == x.yLines[j]
    {
      lines := lines[i := Renamed(lines[i], YName(n, i + 1))];
      i := i + 1;
    }
    assert lines == RenamedLines(x.yLines, n, 1);
    var z := x.z;
    if z.Some? {
      z := Some(Renamed(z.value, ZName(n)));
    }
    r := XAxis(x.axis.(name := XName(n)), n, lines, z);
  }

  // ---------------------------------------------------------------------
  // The list of x axes

  /** The x axes renumbered to `first`, `first + 1`, … */
  function Renumbering(xs: seq<XAxis>, first: int): (r: seq<XAxis>)
    ensures |r| == |xs| && forall k :: 0 <= k < |xs| ==> r[k] == Renumbered(xs[k], first + k)
  {
    if xs == [] then [] else [Renumbered(xs[0], first)] + Renumbering(xs[1..], first + 1)
  }

  /** The x axes from position `from` on, renumbered to `first`,
    * `first + 1`, … */
  function RenumberedFrom(xs: seq<XAxis>, from: nat, first: int): (r: seq<XAxis>)
    requires from <= |xs|
    ensures |r| == |xs|
    ensures forall k :: 0 <= k < from ==> r[k] == xs[k]
    ensures forall k :: from <= k < |xs| ==> r[k] == Renumbered(xs[k], first + k - from)
  {
    xs[..from] + Renumbering(xs[from..], first)
  }

  /** `addXValue`: a new x axis, numbered after the last. */
  function XAdded(xs: seq<XAxis>): seq<XAxis>
  {
    xs + [NewX(|xs| + 1, ThreeD(xs))]
  }

  /** `addXValueAtIndex(index)`, `index` counted from 1: the axes from that
    * position on move up one number, and a new axis takes the position. */
  function XInserted(xs: seq<XAxis>, index: int): (r: seq<XAxis>)
    requires 1 <= index <= |xs| + 1
    ensures |r| == |xs| + 1 && r[index - 1] == NewX(index, ThreeD(xs))
    ensures forall k :: 0 <= k < index - 1 ==> r[k] == xs[k]
    ensures forall k :: index - 1 <= k < |xs| ==> r[k + 1] == Renumbered(xs[k], k + 2)
  {
    xs[..index - 1] + [NewX(index, ThreeD(xs))] + Renumbering(xs[index - 1..], index + 1)
  }

  /** `removeXValueAtIndex(index)`, `index` counted from 0, once the axis is
    * gone: the axes after it move down one number. */
  function XRemoved(xs: seq<XAxis>, index: nat): (r: seq<XAxis>)
    requires index < |xs|
    ensures |r| == |xs| - 1
    ensures forall k :: 0 <= k < index ==> r[k] == xs[k]
    ensures forall k :: index <= k < |xs| - 1 ==> r[k] == Renumbered(xs[k + 1], k + 1)
  {
    xs[..index] + Renumbering(xs[index + 1..], index + 1)
  }

  lemma NewXNamed(n: int, threeD: bool)
    ensures XNamed(NewX(n, threeD), n) && |NewX(n, threeD).yLines| == 1
    ensures NewX(n, threeD).z.Some? == threeD
  {
  }

  /** Renumbering the axes from `from` on after their positions keeps a
    * well-named prefix well named. */
  /** Adding an x axis keeps the graph well named and shaped. */
  lemma XAddedKeepsNames(xs: seq<XAxis>)
    requires WellNamed(xs)
    ensures WellNamed(XAdded(xs)) && |XAdded(xs)| == |xs| + 1
    ensures Shaped(xs) ==> Shaped(XAdded(xs))
  {
    NewXNamed(|xs| + 1, ThreeD(xs));
  }

  /** Inserting an x axis keeps the graph well named. */
  lemma XInsertedKeepsNames(xs: seq<XAxis>, index: int)
    requires WellNamed(xs) && 1 <= index <= |xs| + 1
    ensures WellNamed(XInserted(xs, index))
  {
    var r := XInserted(xs, index);
    NewXNamed(index, ThreeD(xs));
    forall k | 0 <= k < |r| ensures XNamed(r[k], k + 1) {
      if k > index - 1 {
        var j := k - 1;
        assert r[k] == Renumbered(xs[j], k + 1);
        RenumberedNamesOnly(xs[j], k + 1);
      }
    }
  }

  /** Inserting an x axis keeps the graph shaped, and the axes after the
    * new one keep their content, in order. */
  lemma XInsertedKeepsContent(xs: seq<XAxis>, index: int)
    requires 1 <= index <= |xs| + 1
    ensures Shaped(xs) ==> Shaped(XInserted(xs, index))
    ensures forall k :: index - 1 <= k < |xs| ==> SameContent(XInserted(xs, index)[k + 1], xs[k])
  {
    var r := XInserted(xs, index);
    NewXNamed(index, ThreeD(xs));
    forall k | index - 1 <= k < |xs| ensures SameContent(r[k + 1], xs[k]) {
      RenumberedNamesOnly(xs[k], k + 2);
    }
    if Shaped(xs) {
      forall k | 0 <= k < |r| ensures |r[k].yLines| >= 1 {
        if k > index - 1 {
          assert r[(k - 1) + 1] == Renumbered(xs[k - 1], k + 1);
        }
      }
    }
  }

  /** Removing an x axis keeps the graph well named, and shaped when another
    * axis is left; the other axes keep their content, in order. */
  lemma XRemovedKeepsNames(xs: seq<XAxis>, index: nat)
    requires WellNamed(xs) && index < |xs|
    ensures WellNamed(XRemoved(xs, index))
    ensures Shaped(xs) && |xs| > 1 ==> Shaped(XRemoved(xs, index))
    ensures forall k :: index <= k < |xs| - 1 ==> SameContent(XRemoved(xs, index)[k], xs[k + 1])
  {
    var r := XRemoved(xs, index);
    forall k | index <= k < |xs| - 1 ensures XNamed(r[k], k + 1) && SameContent(r[k], xs[k + 1]) && |r[k].yLines| == |xs[k + 1].yLines| {
      RenumberedNamesOnly(xs[k + 1], k + 1);
    }
  }

  /** Removing the axis `restoreaxis` puts back at position `index` gives the
    * graph back. */
  lemma RemoveUndoesInsert(xs: seq<XAxis>, index: int)
    requires WellNamed(xs) && 1 <= index <= |xs| + 1
    ensures XRemoved(XInserted(xs, index), index - 1) == xs
  {
    var q := XRemoved(XInserted(xs, index), index - 1);
    forall k | 0 <= k < |xs|
      ensures q[k] == xs[k]
    {
      RemoveUndoesInsertAt(xs, index, k);
    }
    assert |q| == |xs|;
  }

  lemma RemoveUndoesInsertAt(xs: seq<XAxis>, index: int, k: nat)
    requires WellNamed(xs) && 1 <= index <= |xs| + 1 && k < |xs|
    ensures XRemoved(XInserted(xs, index), index - 1)[k] == xs[k]
  {
    var r := XInserted(xs, index);
    var q := XRemoved(r, index - 1);
    if k >= index - 1 {
      assert q[k] == Renumbered(r[k + 1], k + 1);
      assert r[k + 1] == Renumbered(xs[k], k + 2);
      RenumberedBack(xs[k], k + 1);
    } else {
      assert q[k] == r[k];
    }
  }

  lemma RenumberedBack(x: XAxis, n: int)
    requires XNamed(x, n)
    ensures Renumbered(Renumbered(x, n + 1), n) == x
  {
    RenumberedTwice(x, n + 1, n);
    RenumberedNamed(x, n);
  }

  /** `addXValueAtIndex` on the list: the shift, then the new axis spliced
    * in (built after the shift, which leaves the first axis's z line
    * alone). */
  method InsertX(xs: seq<XAxis>, index: int) returns (r: seq<XAxis>)
    requires 1 <= index <= |xs| + 1
    ensures r == XInserted(xs, index)
  {
    var shifted := ShiftXUp(xs, index);
    assert ThreeD(shifted) == ThreeD(xs) by {
      if index == 1 && |xs| > 0 {
        assert shifted[0] == Renumbered(xs[0], 2);
      }
    }
    r := shifted[..index - 1] + [NewX(index, ThreeD(shifted))] + shifted[index - 1..];
    var want := XInserted(xs, index);
    forall k | 0 <= k < |r|
      ensures r[k] == want[k]
    {
      if k < index - 1 {
        assert r[k] == shifted[k];
      } else if k > index - 1 {
        assert r[k] == shifted[k - 1];
      }
    }
    assert |r| == |want|;
  }

  /** `removeXValueAtIndex` on the list: the splice, then the renumbering
    * loop. */
  method RemoveX(xs: seq<XAxis>, index: nat) returns (r: seq<XAxis>)
    requires index < |xs|
    ensures r == XRemoved(xs, index)
  {
    var rest := xs[..index] + xs[index + 1..];
    assert forall k :: index <= k < |rest| ==> rest[k] == xs[k + 1];
    r := RenumberXFrom(rest, index);
    assert r == XRemoved(xs, index);
  }

  /** The loop of `addXValueAtIndex`: from the last axis down to position
    * `index`, each renumbered to its position plus one. */
  method ShiftXUp(xs: seq<XAxis>, index: int) returns (r: seq<XAxis>)
    requires 1 <= index <= |xs| + 1
    ensures r == RenumberedFrom(xs, index - 1, index + 1)
  {
    r := xs;
    var i := |xs| - 1;
    while i >= index - 1
      invariant index - 2 <= i <= |xs| - 1 && |r| == |xs|
      invariant forall k :: 0 <= k <= i ==> r[k] == xs[k]
      invariant forall k :: i < k < |xs| ==> r[k] == Renumbered(xs[k], k + 2)
      decreases i
    {
      var x := RenumberTo(r[i], i + 2);
      r := r[i := x];
      i := i - 1;
    }
    assert forall k :: 0 <= k < |r| ==> r[k] == RenumberedFrom(xs, index - 1, index + 1)[k];
  }

  /** The loop of `removeXValueAtIndex`: from position `from` on, each axis
    * renumbered to its position. */
  method RenumberXFrom(xs: seq<XAxis>, from: nat) returns (r: seq<XAxis>)
    requires from <= |xs|
    ensures r == RenumberedFrom(xs, from, from + 1)
  {
    r := xs;
    var i := from;
    while i < |xs|
      invariant from <= i <= |xs| == |r|
      invariant forall k :: 0 <= k < from ==> r[k] == xs[k]
      invariant forall k :: from <= k < i ==> r[k] == Renumbered(xs[k], k + 1)
      invariant forall k :: i <= k < |xs| ==> r[k] == xs[k]
    {
      var x := RenumberTo(r[i], i + 1);
      r := r[i := x];
      i := i + 1;
    }
    assert forall k :: 0 <= k < |r| ==> r[k] == RenumberedFrom(xs, from, from + 1)[k];
  }

  // ---------------------------------------------------------------------
  // The y lines of one x axis

  /** `addYLine`: a new line numbered after the last. */
  function YAdded(x: XAxis): XAxis
  {
    x.(yLines := x.yLines + [NewLine(YName(x.number, |x.yLines| + 1))])
  }

  /** `addYLineAtIndex(index)` as written, `index` counted from 1: the lines
    * from that position on move up one number, but the new line is named
    * `yn_{index+1}`, the name the line it pushes along was just given. */
  function YInsertedAsWritten(x: XAxis, index: int): (r: XAxis)
    requires 1 <= index <= |x.yLines| + 1
    ensures |r.yLines| == |x.yLines| + 1 && r.z == x.z && r.number == x.number
    ensures r.yLines[index - 1].axis.name == YName(x.number, index + 1)
    ensures index <= |x.yLines| ==> r.yLines[index].axis.name == YName(x.number, index + 1)
  {
    var s := RenamedLinesFrom(x.yLines, index - 1, x.number, index + 1);
    x.(yLines := s[..index - 1] + [NewLine(YName(x.number, index + 1))] + s[index - 1..])
  }

  /** `addYLineAtIndex(index)` with the new line named after its position. */
  function YInserted(x: XAxis, index: int): (r: XAxis)
    requires 1 <= index <= |x.yLines| + 1
    ensures |r.yLines| == |x.yLines| + 1 && r.z == x.z
  {
    var s := RenamedLinesFrom(x.yLines, index - 1, x.number, index + 1);
    x.(yLines := s[..index - 1] + [NewLine(YName(x.number, index))] + s[index - 1..])
  }

  /** `removeYLineAtIndex(index)`, `index` counted from 1, once the line is
    * gone: the lines after it move down one number. */
  function YRemoved(x: XAxis, index: int): (r: XAxis)
    requires 1 <= index <= |x.yLines|
    ensures |r.yLines| == |x.yLines| - 1 && r.z == x.z
  {
    var t := x.yLines[..index - 1] + x.yLines[index..];
    x.(yLines := RenamedLinesFrom(t, index - 1, x.number, index))
  }

  /** The splice and renaming loop of `removeYLineAtIndex` as written, were
    * the removal to go through: the loop starts one line late, so when it
    * runs its first rename asks for the name the line just before still
    * has, which `renameChild` refuses; when it does not run, the line that
    * moved up keeps its old name. */
  function LinesAfterRemovalAsWritten(x: XAxis, index: int): (r: Result<seq<Line>>)
    requires 1 <= index <= |x.yLines|
    ensures r.Ok? <==> index + 1 >= |x.yLines|
    ensures r.Ok? ==> |r.value| == |x.yLines| - 1
    ensures r.Ok? && index < |x.yLines| ==> r.value[index - 1] == x.yLines[index]
  {
    var t := x.yLines[..index - 1] + x.yLines[index..];
    if index < |t| then Err("nameAlreadyUsed") else Ok(t)
  }

  /** Adding a y line keeps the axis named after its number. */
  lemma YAddedKeepsNames(x: XAxis, n: int)
    requires XNamed(x, n)
    ensures XNamed(YAdded(x), n) && |YAdded(x).yLines| == |x.yLines| + 1
  {
  }

  /** Inserting a y line keeps the axis named after its number, and the
    * other lines keep their content, in order. */
  lemma YInsertedKeepsNames(x: XAxis, n: int, index: int)
    requires XNamed(x, n) && 1 <= index <= |x.yLines| + 1
    ensures XNamed(YInserted(x, index), n)
    ensures forall k :: 0 <= k < |x.yLines| ==>
              SameLine(YInserted(x, index).yLines[if k < index - 1 then k else k + 1], x.yLines[k])
  {
    var r := YInserted(x, index);
    forall k | 0 <= k < |r.yLines| ensures r.yLines[k].axis.name == YName(n, k + 1) {
      YInsertedAt(x, index, k);
    }
    forall k | 0 <= k < |x.yLines| ensures SameLine(r.yLines[if k < index - 1 then k else k + 1], x.yLines[k]) {
      YInsertedAt(x, index, if k < index - 1 then k else k + 1);
    }
  }

  /** One line of the axis after an insertion: the lines before the index
    * as they were, the new line at it, the later ones moved up a number. */
  lemma YInsertedAt(x: XAxis, index: int, k: nat)
    requires 1 <= index <= |x.yLines| + 1 && k <= |x.yLines|
    ensures YInserted(x, index).yLines[k]
            == if k < index - 1 then x.yLines[k]
               else if k == index - 1 then NewLine(YName(x.number, index))
               else Renamed(x.yLines[k - 1], YName(x.number, k + 1))
  {
    var s := RenamedLinesFrom(x.yLines, index - 1, x.number, index + 1);
    var lines := s[..index - 1] + [NewLine(YName(x.number, index))] + s[index - 1..];
    assert YInserted(x, index).yLines == lines;
    if k > index - 1 {
      assert lines[k] == s[k - 1];
    } else if k < index - 1 {
      assert lines[k] == s[k];
    }
  }

  /** Removing a y line keeps the axis named after its number, and the
    * other lines keep their content, in order. */
  lemma YRemovedKeepsNames(x: XAxis, n: int, index: int)
    requires XNamed(x, n) && 1 <= index <= |x.yLines|
    ensures XNamed(YRemoved(x, index), n)
    ensures forall k :: 0 <= k < |x.yLines| - 1 ==>
              SameLine(YRemoved(x, index).yLines[k], x.yLines[if k < index - 1 then k else k + 1])
  {
    var t := x.yLines[..index - 1] + x.yLines[index..];
    assert forall k :: 0 <= k < index - 1 ==> t[k] == x.yLines[k];
    assert forall k :: index - 1 <= k < |t| ==> t[k] == x.yLines[k + 1];
  }

  /** With one line already there, inserting at position 1 as written gives
    * the new line and the old one the same name. */
  lemma InsertedLineNameClash(x: XAxis)
    requires XNamed(x, 1) && |x.yLines| == 1
    ensures YInsertedAsWritten(x, 1).yLines[0].axis.name == YInsertedAsWritten(x, 1).yLines[1].axis.name
    ensures !XNamed(YInsertedAsWritten(x, 1), 1)
  {
    var r := YInsertedAsWritten(x, 1);
    assert r.yLines[0].axis.name == YName(1, 2);
  }

  /** Removing the first of two lines, were the removal to go through as
    * written, leaves the remaining line named `y1_2` at position 1; with
    * three lines the renaming asks for a name already used. */
  lemma RemovedLineKeepsOldName(x: XAxis, y: XAxis)
    requires XNamed(x, 1) && |x.yLines| == 2
    requires XNamed(y, 1) && |y.yLines| == 3
    ensures LinesAfterRemovalAsWritten(x, 1).Ok?
    ensures LinesAfterRemovalAsWritten(x, 1).value[0].axis.name == YName(1, 2)
    ensures YRemoved(x, 1).yLines[0].axis.name == YName(1, 1)
    ensures LinesAfterRemovalAsWritten(y, 1) == Err("nameAlreadyUsed")
  {
    var t := x.yLines[..0] + x.yLines[1..];
    assert t[0] == x.yLines[1];
  }

  lemma NoUnderscore(n: int)
    ensures '_' !in IntToString(n)
  {
    var s := IntToString(n);
    assert forall i :: 0 <= i < |s| ==> IsDigit(s[i]) || s[i] == '-';
  }

  // ---------------------------------------------------------------------
  // Finding an axis by name

  /** The axis `ref` names exists in the graph. */
  predicate Refers(xs: seq<XAxis>, ref: AxisRef)
  {
    match ref
    case XRef(i) => i < |xs|
    case YRef(i, j) => i < |xs| && j < |xs[i].yLines|
    case ZRef(i) => i < |xs| && xs[i].z.Some?
  }

  /** The name of the axis `ref` names. */
  function NameOf(xs: seq<XAxis>, ref: AxisRef): AxisName
    requires Refers(xs, ref)
  {
    match ref
    case XRef(i) => xs[i].axis.name
    case YRef(i, j) => xs[i].yLines[j].axis.name
    case ZRef(i) => xs[i].z.value.axis.name
  }

  /** `axisFromName`: a name of at least two characters, a prefix letter and
    * `_`-separated numbers counted from 1; `x` and `z` take the first
    * number, `y` the first two; anything outside the graph is nothing. */
  function AxisFromName(xs: seq<XAxis>, name: string): (r: Option<AxisRef>)
    ensures r.Some? ==> Refers(xs, r.value)
    ensures |name| < 2 ==> r.None?
    ensures r.Some? ==> (r.value.XRef? <==> name[0] == 'x') && (r.value.YRef? <==> name[0] == 'y')
                        && (r.value.ZRef? <==> name[0] == 'z')
  {
    if |name| < 2 then None else AxisFromParts(xs, name[0], Split(name[1..], '_'))
  }

  /** `axisFromName` once the name is cut into its prefix and numbers. */
  function AxisFromParts(xs: seq<XAxis>, prefix: char, parts: seq<string>): (r: Option<AxisRef>)
    requires |parts| >= 1
    ensures r.Some? ==> Refers(xs, r.value)
    ensures r.Some? ==> (r.value.XRef? <==> prefix == 'x') && (r.value.YRef? <==> prefix == 'y')
                        && (r.value.ZRef? <==> prefix == 'z')
  {
    var xNumber := ParseInt(parts[0]);
    if xNumber.None? || !(1 <= xNumber.value <= |xs|) then None
    else
      var i := xNumber.value - 1;
      if prefix == 'x' then Some(XRef(i))
      else if prefix == 'z' then (if xs[i].z.Some? then Some(ZRef(i)) else None)
      else if prefix == 'y' && |parts| > 1 then
        var yNumber := ParseInt(parts[1]);
        if yNumber.Some? && 1 <= yNumber.value <= |xs[i].yLines| then Some(YRef(i, yNumber.value - 1)) else None
      else None
  }

  /** The `_`-separated numbers after the prefix of an x or z name. */
  lemma XNameNumbers(n: int)
    ensures Text(XName(n))[1..] == IntToString(n) && Text(ZName(n))[1..] == IntToString(n)
    ensures Split(IntToString(n), '_') == [IntToString(n)]
  {
    NoUnderscore(n);
    SplitNoSep(IntToString(n), '_');
  }

  /** The `_`-separated numbers after the prefix of a y name. */
  lemma YNameNumbers(n: int, i: int)
    ensures Split(Text(YName(n, i))[1..], '_') == [IntToString(n), IntToString(i)]
  {
    NoUnderscore(n);
    NoUnderscore(i);
    SplitNoSep(IntToString(i), '_');
    assert Text(YName(n, i))[1..] == IntToString(n) + ['_'] + IntToString(i);
    SplitPrefix(IntToString(n), IntToString(i), '_');
  }

  /** Different names are written differently. */
  lemma TextInjective(a: AxisName, b: AxisName)
    requires Text(a) == Text(b)
    ensures a == b
  {
    match a
    case XName(n) =>
      XNameNumbers(n);
      XNameNumbers(b.n);
      IntToStringRoundTrip(n);
      IntToStringRoundTrip(b.n);
    case ZName(n) =>
      XNameNumbers(n);
      XNameNumbers(b.n);
      IntToStringRoundTrip(n);
      IntToStringRoundTrip(b.n);
    case YName(n, i) =>
      YNameNumbers(n, i);
      YNameNumbers(b.n, b.i);
      IntToStringRoundTrip(n);
      IntToStringRoundTrip(i);
      IntToStringRoundTrip(b.n);
      IntToStringRoundTrip(b.i);
  }

  /** In a well-named graph the name of every axis finds that axis. */
  lemma AxisFromNameFindsAxis(xs: seq<XAxis>, ref: AxisRef)
    requires WellNamed(xs) && Refers(xs, ref)
    ensures AxisFromName(xs, Text(NameOf(xs, ref))) == Some(ref)
  {
    var i := ref.x;
    assert XNamed(xs[i], i + 1);
    match ref
    case XRef(_) => XNameFound(xs, i);
    case ZRef(_) => ZNameFound(xs, i);
    case YRef(_, j) =>
      assert xs[i].yLines[j].axis.name == YName(i + 1, j + 1);
      YNameFound(xs, i, j);
  }

  lemma XNameFound(xs: seq<XAxis>, i: nat)
    requires i < |xs|
    ensures AxisFromName(xs, Text(XName(i + 1))) == Some(XRef(i))
  {
    var name := Text(XName(i + 1));
    XNameNumbers(i + 1);
    IntToStringRoundTrip(i + 1);
    assert AxisFromName(xs, name) == AxisFromParts(xs, 'x', [IntToString(i + 1)]);
  }

  lemma ZNameFound(xs: seq<XAxis>, i: nat)
    requires i < |xs| && xs[i].z.Some?
    ensures AxisFromName(xs, Text(ZName(i + 1))) == Some(ZRef(i))
  {
    var name := Text(ZName(i + 1));
    XNameNumbers(i + 1);
    IntToStringRoundTrip(i + 1);
    assert AxisFromName(xs, name) == AxisFromParts(xs, 'z', [IntToString(i + 1)]);
  }

  lemma YNameFound(xs: seq<XAxis>, i: nat, j: nat)
    requires i < |xs| && j < |xs[i].yLines|
    ensures AxisFromName(xs, Text(YName(i + 1, j + 1))) == Some(YRef(i, j))
  {
    var name := Text(YName(i + 1, j + 1));
    YNameNumbers(i + 1, j + 1);
    IntToStringRoundTrip(i + 1);
    IntToStringRoundTrip(j + 1);
    assert AxisFromName(xs, name) == AxisFromParts(xs, 'y', [IntToString(i + 1), IntToString(j + 1)]);
  }

  /** Two graphs with the same axes in the same places. */
  predicate SameShape(xs: seq<XAxis>, ys: seq<XAxis>)
  {
    |xs| == |ys| && forall i :: 0 <= i < |xs| ==> |xs[i].yLines| == |ys[i].yLines| && xs[i].z.Some? == ys[i].z.Some?
  }

  lemma AxisFromNameShape(xs: seq<XAxis>, ys: seq<XAxis>, name: string)
    requires SameShape(xs, ys)
    ensures AxisFromName(xs, name) == AxisFromName(ys, name)
  {
  }

  // ---------------------------------------------------------------------
  // Line types

  const LineTypeNames: seq<string> := ["line", "scatter", "bar", "bar+dot"]

  /** `typeNames.indexOf(name)`. */
  function LineTypeIndex(name: string): (r: int)
    ensures -1 <= r < |LineTypeNames|
    ensures r >= 0 ==> LineTypeNames[r] == name
    ensures r == -1 <==> name !in LineTypeNames
  {
    if name == "line" then 0 else if name == "scatter" then 1 else if name == "bar" then 2
    else if name == "bar+dot" then 3 else -1
  }

  /** `typeNames[t]` as a template literal writes it. */
  function LineTypeName(t: int): string
  {
    if 0 <= t < |LineTypeNames| then LineTypeNames[t] else "undefined"
  }

  /** The line type of a y or z line. */
  function LineTypeOf(xs: seq<XAxis>, ref: AxisRef): int
    requires Refers(xs, ref) && !ref.XRef?
  {
    if ref.YRef? then xs[ref.x].yLines[ref.y].lineType else xs[ref.x].z.value.lineType
  }

  /** The graph with the line type of a y or z line set. */
  function WithLineType(xs: seq<XAxis>, ref: AxisRef, t: int): (r: seq<XAxis>)
    requires Refers(xs, ref) && !ref.XRef?
    ensures SameShape(xs, r) && Refers(r, ref) && LineTypeOf(r, ref) == t
    ensures forall i :: 0 <= i < |xs| && i != ref.x ==> r[i] == xs[i]
  {
    var x := xs[ref.x];
    if ref.YRef? then
      xs[ref.x := x.(yLines := x.yLines[ref.y := x.yLines[ref.y].(lineType := t)])]
    else
      xs[ref.x := x.(z := Some(x.z.value.(lineType := t)))]
  }

  /** Setting a line's type back to what it was gives the graph back. */
  lemma WithLineTypeUndone(xs: seq<XAxis>, ref: AxisRef, t: int)
    requires Refers(xs, ref) && !ref.XRef?
    ensures WithLineType(WithLineType(xs, ref, t), ref, LineTypeOf(xs, ref)) == xs
  {
    var x := xs[ref.x];
    var changed := WithLineType(xs, ref, t);
    if ref.YRef? {
      var lines := changed[ref.x].yLines;
      assert lines[ref.y := x.yLines[ref.y]] == x.yLines;
      assert changed[ref.x].(yLines := x.yLines) == x;
    } else {
      assert changed[ref.x].(z := x.z) == x;
    }
    assert xs[ref.x := x] == xs;
  }

  /** What `setlinetype` asks for: the axis its first word names, a y or z
    * line, and the type its second word names; nothing when either is
    * wrong or missing. */
  function LineTypeRequest(xs: seq<XAxis>, args: string): (r: Option<(AxisRef, int)>)
    ensures r.Some? ==> Refers(xs, r.value.0) && !r.value.0.XRef? && 0 <= r.value.1 < |LineTypeNames|
    ensures r.Some? ==> |SplitSpaces(args)| > 1 && AxisFromName(xs, SplitSpaces(args)[0]) == Some(r.value.0)
                        && LineTypeNames[r.value.1] == SplitSpaces(args)[1]
  {
    var words := SplitSpaces(args);
    if |words| > 1 then
      var ref := AxisFromName(xs, words[0]);
      var t := LineTypeIndex(words[1]);
      if ref.Some? && !ref.value.XRef? && t >= 0 then Some((ref.value, t)) else None
    else None
  }

  /** The arguments of the undo command `setlinetype` records. */
  function LineTypeUndoArgs(xs: seq<XAxis>, args: string): string
    requires LineTypeRequest(xs, args).Some?
  {
    SplitSpaces(args)[0] + " " + LineTypeName(LineTypeOf(xs, LineTypeRequest(xs, args).value.0))
  }

  /** Running the undo of `setlinetype` on a line whose type was one of the
    * four gives the graph back. */
  lemma LineTypeUndoRestores(xs: seq<XAxis>, args: string)
    requires LineTypeRequest(xs, args).Some?
    requires var ref := LineTypeRequest(xs, args).value.0; 0 <= LineTypeOf(xs, ref) < |LineTypeNames|
    ensures var (ref, t) := LineTypeRequest(xs, args).value;
            var changed := WithLineType(xs, ref, t);
            && LineTypeRequest(changed, LineTypeUndoArgs(xs, args)) == Some((ref, LineTypeOf(xs, ref)))
            && WithLineType(changed, ref, LineTypeOf(xs, ref)) == xs
  {
    var (ref, t) := LineTypeRequest(xs, args).value;
    var changed := WithLineType(xs, ref, t);
    var word := SplitSpaces(args)[0];
    var before := LineTypeOf(xs, ref);
    var name := LineTypeName(before);
    LineTypeNameWord(before);
    SplitSpacesPrefix(word, name);
    assert LineTypeUndoArgs(xs, args) == word + " " + name;
    assert SplitSpaces(LineTypeUndoArgs(xs, args)) == [word, name];
    AxisFromNameShape(xs, changed, word);
    WithLineTypeUndone(xs, ref, t);
  }

  /** Each line type's name is one word, and names that type. */
  lemma LineTypeNameWord(t: int)
    requires 0 <= t < |LineTypeNames|
    ensures var name := LineTypeName(t);
            && name != [] && (forall k :: 0 <= k < |name| ==> !IsSpace(name[k]))
            && SplitSpaces(name) == [name] && LineTypeIndex(name) == t
  {
    var name := LineTypeName(t);
    if t == 0 {
      assert name == "line";
    } else if t == 1 {
      assert name == "scatter";
    } else if t == 2 {
      assert name == "bar";
    } else {
      assert name == "bar+dot";
    }
    assert forall k :: 0 <= k < |name| ==> !IsSpace(name[k]);
    SplitSpacesNone(name);
  }

  // ---------------------------------------------------------------------
  // Descriptions

  /** The x and y numbers of a lower-cased `y…` description: `y` alone is
    * `y1`; `yn_i` is line i of x axis n; `yn` alone is line 1 of x axis n in
    * a 3D graph and line n of the first x axis otherwise. */
  function YNumbers(d: string, threeD: bool): (r: (Option<int>, Option<int>))
    requires |d| >= 1 && d[0] == 'y'
  {
    var name := if d == "y" then "y1" else d;
    var parts := Split(name[1..], '_');
    if |parts| > 1 then (ParseInt(parts[0]), ParseInt(parts[1]))
    else if threeD then (ParseInt(parts[0]), Some(1))
    else (Some(1), ParseInt(parts[0]))
  }

  /** Line `i` of x axis `n`, both counted from 1, when both are in range. */
  function LineNumbered(xs: seq<XAxis>, n: int, i: int): (r: Option<AxisRef>)
    ensures r.Some? <==> 1 <= n <= |xs| && 1 <= i <= |xs[n - 1].yLines|
    ensures r.Some? ==> r.value == YRef(n - 1, i - 1) && Refers(xs, r.value)
  {
    if 1 <= n <= |xs| && 1 <= i <= |xs[n - 1].yLines| then Some(YRef(n - 1, i - 1)) else None
  }

  /** The y line a `y…` description selects, when both numbers are in
    * range. */
  function YLineDescribed(xs: seq<XAxis>, d: string): (r: Option<AxisRef>)
    requires |d| >= 1 && d[0] == 'y'
    ensures r.Some? ==> r.value.YRef? && Refers(xs, r.value)
  {
    var numbers := YNumbers(d, ThreeD(xs));
    if numbers.0.Some? && numbers.1.Some? then LineNumbered(xs, numbers.0.value, numbers.1.value) else None
  }

  /** `yk` counts lines of the first x axis in a 2D graph, and x axes in a
    * 3D one, where it selects the first line. */
  lemma YDescriptionWithoutUnderscore(xs: seq<XAxis>, k: int)
    requires k >= 1
    ensures !ThreeD(xs) && |xs| >= 1 && k <= |xs[0].yLines| ==> YLineDescribed(xs, "y" + IntToString(k)) == Some(YRef(0, k - 1))
    ensures ThreeD(xs) && k <= |xs| && |xs[k - 1].yLines| >= 1 ==> YLineDescribed(xs, "y" + IntToString(k)) == Some(YRef(k - 1, 0))
  {
    YNumbersWithoutUnderscore(k);
    if ThreeD(xs) {
      YLineOfNumbers(xs, "y" + IntToString(k), k, 1);
    } else {
      YLineOfNumbers(xs, "y" + IntToString(k), 1, k);
    }
  }

  /** A description whose numbers are in range selects that line. */
  lemma YLineOfNumbers(xs: seq<XAxis>, d: string, n: int, i: int)
    requires |d| >= 1 && d[0] == 'y' && YNumbers(d, ThreeD(xs)) == (Some(n), Some(i))
    ensures YLineDescribed(xs, d) == LineNumbered(xs, n, i)
  {
  }

  lemma YNumbersWithoutUnderscore(k: int)
    ensures YNumbers("y" + IntToString(k), false) == (Some(1), Some(k))
    ensures YNumbers("y" + IntToString(k), true) == (Some(k), Some(1))
  {
    var d := "y" + IntToString(k);
    assert d[1..] == IntToString(k);
    assert d != "y";
    XNameNumbers(k);
    IntToStringRoundTrip(k);
  }

  /** A full line name selects that line whether or not the graph is 3D. */
  lemma YDescriptionOfName(xs: seq<XAxis>, i: nat, j: nat)
    requires i < |xs| && j < |xs[i].yLines|
    ensures YLineDescribed(xs, Text(YName(i + 1, j + 1))) == Some(YRef(i, j))
  {
    var d := Text(YName(i + 1, j + 1));
    YNameNumbers(i + 1, j + 1);
    assert d != "y" by {
      assert |d| > 2;
    }
    IntToStringRoundTrip(i + 1);
    IntToStringRoundTrip(j + 1);
    assert YNumbers(d, ThreeD(xs)) == (Some(i + 1), Some(j + 1));
    YLineOfNumbers(xs, d, i + 1, j + 1);
  }

  /** `columnNameForAxis`: the axis formula's comment name, else its text. */
  function ColumnNameForAxis(a: Axis): (r: string)
    ensures '\'' !in a.formula ==> r == a.formula
    ensures '\'' in a.formula ==> Some(r) == ColumnNames.CommentName(a.formula)
  {
    ColumnNames.ColumnName(a.formula, false).value
  }

  // ---------------------------------------------------------------------
  // The graph

  class Graph {
    /** The tool every graph also is. */
    const base: Tool
    /** `getPath()`. */
    const path: string
    var xValues: seq<XAxis>

    /** A new graph: axis `x1` with line `y1_1`; building the axis and
      * adding it made the graph forget twice. */
    constructor(name: string, path: string, position: (int, int))
      ensures fresh(base) && this.path == path
      ensures xValues == [NewX(1, false)] && WellNamed(xValues) && Shaped(xValues)
      ensures base.State() == ToolState(name, "", position, Flags(false, false, false, false), map[], {}, [], 2, 0)
    {
      base := new Tool(name, position);
      this.path := path;
      xValues := [NewX(1, false)];
      new;
      NewXNamed(1, false);
      base.ForgetCalculated();
      base.ForgetCalculated();
    }

    /** `forgetCalculated`: the requestors are told to forget and dropped. */
    method ForgetCalculated()
      modifies base
      ensures base.State() == old(base.State()).(requestors := {}, forgets := old(base.forgets) + 1)
    {
      base.valueRequestors := {};
      base.ForgetCalculated();
    }

    /** What building a new x axis makes the graph forget: its y line,
      * and its z line in a 3D graph. */
    method ForgetCreation(threeD: bool)
      modifies base
      ensures base.State() == old(base.State()).(requestors := {}, forgets := old(base.forgets) + CreationForgets(threeD))
    {
      ForgetCalculated();
      if threeD {
        ForgetCalculated();
      }
    }

    /** `addXValue`. */
    method AddXValue() returns (newX: XAxis)
      modifies this`xValues, base
      ensures xValues == XAdded(old(xValues)) && newX == xValues[|xValues| - 1]
      ensures newX == NewX(|old(xValues)| + 1, ThreeD(old(xValues)))
      ensures base.State() == old(base.State()).(requestors := {}, forgets := old(base.forgets) + CreationForgets(ThreeD(old(xValues))) + 1)
    {
      newX := NewX(|xValues| + 1, ThreeD(xValues));
      ForgetCreation(ThreeD(xValues));
      xValues := xValues + [newX];
      ForgetCalculated();
    }

    /** `addXValueAtIndex(index)`, `index` counted from 1. The index is
      * required to be in range: the only caller that could pass another,
      * `restoreAxisCommand`, is not part of this model. */
    method AddXValueAtIndex(index: int) returns (newX: XAxis)
      requires 1 <= index <= |xValues| + 1
      modifies this`xValues, base
      ensures xValues == XInserted(old(xValues), index) && newX == xValues[index - 1]
      ensures base.State() == old(base.State()).(requestors := {}, forgets := old(base.forgets) + CreationForgets(ThreeD(old(xValues))) + 1)
    {
      var threeD := ThreeD(xValues);
      xValues := InsertX(xValues, index);
      newX := xValues[index - 1];
      ForgetCreation(threeD);
      ForgetCalculated();
    }

    /** `removeXValueAtIndex(index)` as written: once the guard lets it
      * through, the axis's `removeChildren` hands a name to the parent's
      * `removeChildNamed`, which reads the `args` of a command, and throws
      * before anything is removed. */
    method RemoveXValueAtIndexAsWritten(index: int) returns (r: Result<()>)
      modifies base`errors
      ensures index >= 0 && |old(xValues)| > 1 ==> r == Err(TypeErrorThrown) && base.errors == old(base.errors)
      ensures !(index >= 0 && |old(xValues)| > 1) ==>
                r == Ok(()) && base.errors == old(base.errors) + [Message("mmcmd:graphCantDeleteLast", [path, "X"])]
    {
      if index >= 0 && |xValues| > 1 {
        r := Err(TypeErrorThrown);
      } else {
        base.errors := base.errors + [Message("mmcmd:graphCantDeleteLast", [path, "X"])];
        r := Ok(());
      }
    }

    /** `removeXValueAtIndex(index)`, `index` counted from 0, with the
      * axis's formulas removed: refused with a warning when only one axis
      * is left; an index past the last axis throws. */
    method RemoveXValueAtIndex(index: int) returns (r: Result<()>)
      modifies this`xValues, base
      ensures index >= 0 && |old(xValues)| > 1 && index < |old(xValues)| ==>
                r == Ok(()) && xValues == XRemoved(old(xValues), index)
                && base.State() == old(base.State()).(requestors := {}, forgets := old(base.forgets) + 1)
      ensures index >= 0 && |old(xValues)| > 1 && index >= |old(xValues)| ==>
                r == Err(TypeErrorThrown) && xValues == old(xValues) && base.State() == old(base.State())
      ensures !(index >= 0 && |old(xValues)| > 1) ==>
                r == Ok(()) && xValues == old(xValues)
                && base.State() == old(base.State()).(errors := old(base.errors) + [Message("mmcmd:graphCantDeleteLast", [path, "X"])])
    {
      if index >= 0 && |xValues| > 1 {
        if index >= |xValues| {
          return Err(TypeErrorThrown);
        }
        xValues := RemoveX(xValues, index);
        ForgetCalculated();
        r := Ok(());
      } else {
        base.errors := base.errors + [Message("mmcmd:graphCantDeleteLast", [path, "X"])];
        r := Ok(());
      }
    }

    /** `addYLine` on x axis `xIndex` (counted from 0). */
    method AddYLine(xIndex: nat) returns (line: Line)
      requires xIndex < |xValues|
      modifies this`xValues, base
      ensures xValues == old(xValues)[xIndex := YAdded(old(xValues)[xIndex])]
      ensures line == NewLine(YName(old(xValues)[xIndex].number, |old(xValues)[xIndex].yLines| + 1))
      ensures base.State() == old(base.State()).(requestors := {}, forgets := old(base.forgets) + 1)
    {
      var x := xValues[xIndex];
      line := NewLine(YName(x.number, |x.yLines| + 1));
      xValues := xValues[xIndex := x.(yLines := x.yLines + [line])];
      ForgetCalculated();
    }

    /** `addYLineAtIndex(index)` on x axis `xIndex`, with the new line named
      * after its position. The index is required to be in range: the only
      * caller that could pass another, `restoreAxisCommand`, is not part of
      * this model. */
    method AddYLineAtIndex(xIndex: nat, index: int) returns (line: Line)
      requires xIndex < |xValues| && 1 <= index <= |xValues[xIndex].yLines| + 1
      modifies this`xValues, base
      ensures xValues == old(xValues)[xIndex := YInserted(old(xValues)[xIndex], index)]
      ensures line == xValues[xIndex].yLines[index - 1]
      ensures base.State() == old(base.State()).(requestors := {}, forgets := old(base.forgets) + 1)
    {
      var x := xValues[xIndex];
      var lines := ShiftLinesUp(x.yLines, index, x.number);
      line := NewLine(YName(x.number, index));
      xValues := xValues[xIndex := x.(yLines := lines[..index - 1] + [line] + lines[index - 1..])];
      ForgetCalculated();
    }

    /** `removeYLineAtIndex` as written: with the guard passed, the line's
      * `removeChildren` throws as in `RemoveXValueAtIndexAsWritten` (and
      * index 0 reads the line before the first); with the guard failed, the
      * warning asks the x axis for a path it does not have. Every call
      * throws and nothing changes. */
    method RemoveYLineAtIndexAsWritten(xIndex: nat, index: int) returns (r: Result<()>)
      requires xIndex < |xValues|
      ensures r == Err(TypeErrorThrown)
    {
      r := Err(TypeErrorThrown);
    }

    /** `removeYLineAtIndex(index)` on x axis `xIndex`, `index` counted from
      * 1, with the line's formulas removed and the lines after it renamed
      * from its position on; refused with the graph's warning when it is
      * out of range or the only line. */
    method RemoveYLineAtIndex(xIndex: nat, index: int)
      requires xIndex < |xValues|
      modifies this`xValues, base
      ensures var x := old(xValues)[xIndex];
              1 <= index <= |x.yLines| && |x.yLines| > 1 ==>
                xValues == old(xValues)[xIndex := YRemoved(x, index)]
                && base.State() == old(base.State()).(requestors := {}, forgets := old(base.forgets) + 1)
      ensures var x := old(xValues)[xIndex];
              !(1 <= index <= |x.yLines| && |x.yLines| > 1) ==>
                xValues == old(xValues)
                && base.State() == old(base.State()).(errors := old(base.errors) + [Message("mmcmd:graphCantDeleteLast", [path, "Y"])])
    {
      var x := xValues[xIndex];
      if 1 <= index <= |x.yLines| && |x.yLines| > 1 {
        var t := x.yLines[..index - 1] + x.yLines[index..];
        var lines := RenameLinesFrom(t, index - 1, x.number, index);
        xValues := xValues[xIndex := x.(yLines := lines)];
        ForgetCalculated();
      } else {
        base.errors := base.errors + [Message("mmcmd:graphCantDeleteLast", [path, "Y"])];
      }
    }

    /** `addZLine` on x axis `xIndex`: a new `zn` line, replacing any. */
    method AddZLine(xIndex: nat) returns (line: Line)
      requires xIndex < |xValues|
      modifies this`xValues, base
      ensures line == NewLine(ZName(old(xValues)[xIndex].number))
      ensures xValues == old(xValues)[xIndex := old(xValues)[xIndex].(z := Some(line))]
      ensures base.State() == old(base.State()).(requestors := {}, forgets := old(base.forgets) + 1)
    {
      var x := xValues[xIndex];
      line := NewLine(ZName(x.number));
      xValues := xValues[xIndex := x.(z := Some(line))];
      ForgetCalculated();
    }

    /** `removeZLine` on x axis `xIndex` as written: with a z line, the
      * line's `removeChildren` throws as in `RemoveXValueAtIndexAsWritten`
      * before the line is dropped; without one nothing happens. Either way
      * nothing changes. */
    method RemoveZLineAsWritten(xIndex: nat) returns (r: Result<()>)
      requires xIndex < |xValues|
      ensures r.Err? <==> xValues[xIndex].z.Some?
      ensures r.Err? ==> r.error == TypeErrorThrown
    {
      if xValues[xIndex].z.Some? {
        r := Err(TypeErrorThrown);
      } else {
        r := Ok(());
      }
    }

    /** `removeZLine` on x axis `xIndex` as evidently intended, with the
      * line's formulas removed; nothing happens without a z line. */
    method RemoveZLine(xIndex: nat)
      requires xIndex < |xValues|
      modifies this`xValues, base
      ensures old(xValues)[xIndex].z.Some? ==>
                xValues == old(xValues)[xIndex := old(xValues)[xIndex].(z := None)]
                && base.State() == old(base.State()).(requestors := {}, forgets := old(base.forgets) + 1)
      ensures old(xValues)[xIndex].z.None? ==> xValues == old(xValues) && base.State() == old(base.State())
    {
      var x := xValues[xIndex];
      if x.z.Some? {
        xValues := xValues[xIndex := x.(z := None)];
        ForgetCalculated();
      }
    }

    /** `setLineTypeCommand`: the line type set and the undo command
      * recorded, or the usage error. */
    method SetLineTypeCommand(args: string) returns (undo: Option<string>)
      modifies this`xValues, base`errors
      ensures var request := LineTypeRequest(old(xValues), args);
              request.Some? ==>
                && xValues == WithLineType(old(xValues), request.value.0, request.value.1)
                && undo == Some(path + " setlinetype " + LineTypeUndoArgs(old(xValues), args))
                && base.errors == old(base.errors)
      ensures LineTypeRequest(old(xValues), args).None? ==>
                xValues == old(xValues) && undo.None? && base.errors == old(base.errors) + [Message("mmcmd:?graphSetLineType", [])]
    {
      var request := LineTypeRequest(xValues, args);
      if request.Some? {
        undo := Some(path + " setlinetype " + LineTypeUndoArgs(xValues, args));
        xValues := WithLineType(xValues, request.value.0, request.value.1);
      } else {
        base.errors := base.errors + [Message("mmcmd:?graphSetLineType", [])];
        undo := None;
      }
    }
  }

  /** The loop of `addYLineAtIndex`: from the last line down to position
    * `index`, each renamed to its position plus one. */
  method ShiftLinesUp(lines: seq<Line>, index: int, n: int) returns (r: seq<Line>)
    requires 1 <= index <= |lines| + 1
    ensures r == RenamedLinesFrom(lines, index - 1, n, index + 1)
  {
    r := lines;
    var i := |lines| - 1;
    while i >= index - 1
      invariant index - 2 <= i <= |lines| - 1 && |r| == |lines|
      invariant forall k :: 0 <= k <= i ==> r[k] == lines[k]
      invariant forall k :: i < k < |lines| ==> r[k] == Renamed(lines[k], YName(n, k + 2))
      decreases i
    {
      r := r[i := Renamed(r[i], YName(n, i + 2))];
      i := i - 1;
    }
    assert forall k :: 0 <= k < |r| ==> r[k] == RenamedLinesFrom(lines, index - 1, n, index + 1)[k];
  }

  /** The renaming loop of `removeYLineAtIndex`, started at the removed
    * line's position: each line from `from` on renamed to its position. */
  method RenameLinesFrom(lines: seq<Line>, from: nat, n: int, first: int) returns (r: seq<Line>)
    requires from <= |lines| && first == from + 1
    ensures r == RenamedLinesFrom(lines, from, n, first)
  {
    r := lines;
    var i := from;
    while i < |lines|
      invariant from <= i <= |lines| == |r|
      invariant forall k :: 0 <= k < from ==> r[k] == lines[k]
      invariant forall k :: from <= k < i ==> r[k] == Renamed(lines[k], YName(n, k + 1))
      invariant forall k :: i <= k < |lines| ==> r[k] == lines[k]
    {
      r := r[i := Renamed(r[i], YName(n, i + 1))];
      i := i + 1;
    }
    assert forall k :: 0 <= k < |r| ==> r[k] == RenamedLinesFrom(lines, from, n, first)[k];
  }

  /** Every graph method keeps a well-named, shaped graph so. */
  lemma GraphOperationsKeepNames(xs: seq<XAxis>, i: nat, index: int)
    requires WellNamed(xs) && Shaped(xs) && i < |xs|
    ensures WellNamed(xs[i := YAdded(xs[i])]) && Shaped(xs[i := YAdded(xs[i])])
    ensures 1 <= index <= |xs[i].yLines| + 1 ==> WellNamed(xs[i := YInserted(xs[i], index)]) && Shaped(xs[i := YInserted(xs[i], index)])
    ensures 1 <= index <= |xs[i].yLines| && |xs[i].yLines| > 1 ==>
              WellNamed(xs[i := YRemoved(xs[i], index)]) && Shaped(xs[i := YRemoved(xs[i], index)])
    ensures WellNamed(xs[i := xs[i].(z := Some(NewLine(ZName(xs[i].number))))])
    ensures WellNamed(xs[i := xs[i].(z := None)])
  {
    assert XNamed(xs[i], i + 1);
    YAddedKeepsNames(xs[i], i + 1);
    ReplacedKeepsNames(xs, i, YAdded(xs[i]));
    if 1 <= index <= |xs[i].yLines| + 1 {
      YInsertedKeepsNames(xs[i], i + 1, index);
      ReplacedKeepsNames(xs, i, YInserted(xs[i], index));
    }
    if 1 <= index <= |xs[i].yLines| && |xs[i].yLines| > 1 {
      YRemovedKeepsNames(xs[i], i + 1, index);
      ReplacedKeepsNames(xs, i, YRemoved(xs[i], index));
    }
    ReplacedKeepsNames(xs, i, xs[i].(z := Some(NewLine(ZName(xs[i].number)))));
    ReplacedKeepsNames(xs, i, xs[i].(z := None));
  }

  /** Replacing one x axis by another named after the same number keeps
    * the graph well named, and shaped when the new axis has a y line. */
  lemma ReplacedKeepsNames(xs: seq<XAxis>, i: nat, x: XAxis)
    requires WellNamed(xs) && i < |xs| && XNamed(x, i + 1)
    ensures WellNamed(xs[i := x])
    ensures Shaped(xs) && |x.yLines| >= 1 ==> Shaped(xs[i := x])
  {
  }
}
