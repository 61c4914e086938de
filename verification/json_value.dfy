/** MMJsonValue: a value holding parsed JSON, and the path descriptions that
  * select parts of it (`*` for the keys, `:*` for the values, `:key` for a
  * member of every element, any other part for one member). A number or
  * string reached becomes a scalar value, and a column of numbers or of
  * strings becomes a column value. */
module JsonValues {
  import opened Wrappers
  import opened Matrices
  import opened Strs
  import NumberValues
  import UnitDims

  /** Parsed JSON. An object's members are kept in order, one per key, as
    * `JSON.parse` leaves them; numbers are integers. */
  datatype Json =
    | JNull
    | JBool(b: bool)
    | JNum(n: int)
    | JStr(s: string)
    | JArr(items: seq<Json>)
    | JObj(members: seq<(string, Json)>)

  /** What reading a member gives: a value, `undefined`, or the type error
    * of reading a member of `null`. */
  datatype Got = Reached(j: Json) | Undefined | Raised

  /** `typeof`. */
  function TypeOf(j: Json): string
  {
    match j
    case JBool(_) => "boolean"
    case JNum(_) => "number"
    case JStr(_) => "string"
    case _ => "object"
  }

  /** Whether JavaScript treats the value as true. */
  predicate Truthy(j: Json)
  {
    match j
    case JNull => false
    case JBool(b) => b
    case JNum(n) => n != 0
    case JStr(s) => s != ""
    case _ => true
  }

  // ---------------------------------------------------------------------
  // Array indices as member names

  predicate IsDigit(c: char) { '0' <= c <= '9' }

  predicate AllDigits(s: string)
  {
    forall i :: 0 <= i < |s| ==> IsDigit(s[i])
  }

  function DigitChar(d: nat): (c: char)
    requires d < 10
    ensures IsDigit(c) && c as int - '0' as int == d
  {
    ('0' as int + d) as char
  }

  /** The decimal numeral of `n`, as JavaScript writes an array index. */
  function NatToString(n: nat): (r: string)
    ensures |r| >= 1 && AllDigits(r) && (|r| == 1 || r[0] != '0')
    decreases n
  {
    if n < 10 then [DigitChar(n)] else NatToString(n / 10) + [DigitChar(n % 10)]
  }

  function DecimalValue(s: string): (r: nat)
    requires AllDigits(s)
    decreases |s|
  {
    if s == [] then 0 else DecimalValue(s[..|s| - 1]) * 10 + (s[|s| - 1] as int - '0' as int)
  }

  /** The index a member name stands for on an array or string: a numeral
    * without leading zeros. */
  function ArrayIndex(key: string): (r: Option<nat>)
    ensures r.Some? <==> key != [] && AllDigits(key) && (|key| == 1 || key[0] != '0')
  {
    if key != [] && AllDigits(key) && (|key| == 1 || key[0] != '0') then Some(DecimalValue(key)) else None
  }

  /** The name of an index reads back as that index. */
  lemma {:induction false} IndexRoundTrip(n: nat)
    ensures ArrayIndex(NatToString(n)) == Some(n)
    decreases n
  {
    var s := NatToString(n);
    if n >= 10 {
      IndexRoundTrip(n / 10);
      assert s[..|s| - 1] == NatToString(n / 10) && s[|s| - 1] == DigitChar(n % 10);
      assert DecimalValue(s) == (n / 10) * 10 + n % 10;
    } else {
      assert s[..|s| - 1] == [];
    }
  }

  /** A numeral without leading zeros has a first digit that is not `0`,
    * so its value is not 0 unless it is `0`. */
  lemma {:induction false} DecimalPositive(s: string)
    requires s != [] && AllDigits(s) && s[0] != '0'
    ensures DecimalValue(s) >= 1
    decreases |s|
  {
    if |s| > 1 {
      DecimalPositive(s[..|s| - 1]);
    }
  }

  /** Every index name is the name of its index: no other text reads as an
    * index. */
  lemma {:induction false} IndexCanonical(key: string)
    requires ArrayIndex(key).Some?
    ensures NatToString(ArrayIndex(key).value) == key
    decreases |key|
  {
    var n := DecimalValue(key);
    var last := key[|key| - 1];
    if |key| > 1 {
      var front := key[..|key| - 1];
      assert front[0] == key[0];
      DecimalPositive(front);
      IndexCanonical(front);
      assert n == DecimalValue(front) * 10 + (last as int - '0' as int);
      assert n / 10 == DecimalValue(front) && n % 10 == last as int - '0' as int;
      assert DigitChar(n % 10) == last;
      assert key == front + [last];
    } else {
      assert key[..0] == [];
      assert DigitChar(n) == last;
      assert key == [last];
    }
  }

  // ---------------------------------------------------------------------
  // Members, keys and values

  function Lookup(members: seq<(string, Json)>, key: string): (r: Got)
    ensures r.Raised? == false
    ensures r.Reached? <==> exists i :: 0 <= i < |members| && members[i].0 == key
  {
    if members == [] then Undefined
    else if members[0].0 == key then Reached(members[0].1)
    else
      var r := Lookup(members[1..], key);
      assert forall i :: 1 <= i < |members| ==> members[i] == members[1..][i - 1];
      r
  }

  /** `obj[key]`: a member of an object, an element (or `length`) of an
    * array, a character (or `length`) of a string; numbers and booleans
    * have no members, and `null` raises. */
  function Get(j: Json, key: string): (r: Got)
  {
    match j
    case JNull => Raised
    case JObj(members) => Lookup(members, key)
    case JArr(items) =>
      if key == "length" then Reached(JNum(|items|))
      else (match ArrayIndex(key)
        case Some(k) => if k < |items| then Reached(items[k]) else Undefined
        case None => Undefined)
    case JStr(s) =>
      if key == "length" then Reached(JNum(|s|))
      else (match ArrayIndex(key)
        case Some(k) => if k < |s| then Reached(JStr([s[k]])) else Undefined
        case None => Undefined)
    case _ => Undefined
  }

  /** The element of an array at an index is its member of the index's name. */
  lemma ElementByIndex(items: seq<Json>, k: nat)
    requires k < |items|
    ensures Get(JArr(items), NatToString(k)) == Reached(items[k])
  {
    IndexRoundTrip(k);
  }

  function IndexNames(n: nat): (r: seq<Json>)
    ensures |r| == n && forall k :: 0 <= k < n ==> r[k] == JStr(NatToString(k))
  {
    seq(n, k requires 0 <= k < n => JStr(NatToString(k)))
  }

  /** `Object.keys`: `None` for `null`, which raises. */
  function Keys(j: Json): (r: Option<seq<Json>>)
    ensures r.None? <==> j.JNull?
  {
    match j
    case JNull => None
    case JObj(members) => Some(seq(|members|, i requires 0 <= i < |members| => JStr(members[i].0)))
    case JArr(items) => Some(IndexNames(|items|))
    case JStr(s) => Some(IndexNames(|s|))
    case _ => Some([])
  }

  /** `Object.values`: `None` for `null`, which raises. */
  function Values(j: Json): (r: Option<seq<Json>>)
    ensures r.None? <==> j.JNull?
  {
    match j
    case JNull => None
    case JObj(members) => Some(seq(|members|, i requires 0 <= i < |members| => members[i].1))
    case JArr(items) => Some(items)
    case JStr(s) => Some(seq(|s|, i requires 0 <= i < |s| => JStr([s[i]])))
    case _ => Some([])
  }

  /** The keys and the values of a value match one for one: the member of
    * each key is the value at its place. */
  lemma KeysMatchValues(j: Json, i: nat)
    requires !j.JNull? && i < |Values(j).value|
    requires j.JObj? ==> forall a, b :: 0 <= a < b < |j.members| ==> j.members[a].0 != j.members[b].0
    ensures |Keys(j).value| == |Values(j).value|
    ensures Keys(j).value[i].JStr? && Get(j, Keys(j).value[i].s) == Reached(Values(j).value[i])
  {
    match j
    case JObj(members) => FirstMember(members, i);
    case JArr(items) => IndexRoundTrip(i);
    case JStr(s) => IndexRoundTrip(i);
  }

  lemma {:induction false} FirstMember(members: seq<(string, Json)>, i: nat)
    requires i < |members|
    requires forall a, b :: 0 <= a < b < |members| ==> members[a].0 != members[b].0
    ensures Lookup(members, members[i].0) == Reached(members[i].1)
    decreases i
  {
    if i > 0 {
      FirstMember(members[1..], i - 1);
    }
  }

  // ---------------------------------------------------------------------
  // `:key`

  /** The type every missing member of `:key` defaults to: that of the first
    * element that has the member, or `undefined`. */
  function DefaultType(elements: seq<Json>, key: string): string
    requires forall e :: e in elements ==> !e.JNull?
    decreases |elements|
  {
    if elements == [] then "undefined"
    else match Get(elements[0], key)
      case Reached(m) => TypeOf(m)
      case _ => DefaultType(elements[1..], key)
  }

  /** One entry of `:key`: the member when it is truthy, otherwise 0 when
    * the members are numbers and empty text otherwise. */
  function Picked(m: Got, defaultType: string): (r: Json)
    ensures m.Reached? && Truthy(m.j) ==> r == m.j
    ensures !(m.Reached? && Truthy(m.j)) ==> r == (if defaultType == "number" then JNum(0) else JStr(""))
  {
    if m.Reached? && Truthy(m.j) then m.j else if defaultType == "number" then JNum(0) else JStr("")
  }

  /** `:key` over the elements: one entry per element; an element that is
    * `null` raises. */
  function Plucked(elements: seq<Json>, key: string): (r: Got)
    ensures r.Raised? <==> exists i :: 0 <= i < |elements| && elements[i].JNull?
    ensures r.Reached? ==> r.j.JArr? && |r.j.items| == |elements|
  {
    if exists i :: 0 <= i < |elements| && elements[i].JNull? then Raised
    else
      var t := DefaultType(elements, key);
      Reached(JArr(seq(|elements|, i requires 0 <= i < |elements| => Picked(Get(elements[i], key), t))))
  }

  /** The two loops of `:key`: the first finds the default type, the second
    * collects the entries. */
  method Pluck(elements: seq<Json>, key: string) returns (r: Got)
    ensures r == Plucked(elements, key)
  {
    var t := "undefined";
    var i := 0;
    while i < |elements|
      invariant 0 <= i <= |elements|
      invariant forall k :: 0 <= k < i ==> !elements[k].JNull? && Get(elements[k], key).Undefined?
    {
      var m := Get(elements[i], key);
      if m.Raised? {
        return Raised;
      }
      if m.Reached? {
        t := TypeOf(m.j);
        break;
      }
      i := i + 1;
    }
    ghost var found := i;
    assert forall k :: 0 <= k < found ==> !elements[k].JNull? && Get(elements[k], key).Undefined?;
    var picked: seq<Json> := [];
    i := 0;
    while i < |elements|
      invariant 0 <= i <= |elements| && |picked| == i
      invariant forall k :: 0 <= k < i ==> !elements[k].JNull?
      invariant forall k :: 0 <= k < i ==> picked[k] == Picked(Get(elements[k], key), t)
    {
      var m := Get(elements[i], key);
      if m.Raised? {
        return Raised;
      }
      picked := picked + [Picked(m, t)];
      i := i + 1;
    }
    DefaultTypeFound(elements, key, found, t);
    r := Reached(JArr(picked));
  }

  /** The default type is that of the first member present. */
  lemma {:induction false} DefaultTypeFound(elements: seq<Json>, key: string, found: nat, t: string)
    requires forall e :: e in elements ==> !e.JNull?
    requires found <= |elements|
    requires forall k :: 0 <= k < found ==> Get(elements[k], key).Undefined?
    requires found < |elements| ==> Get(elements[found], key).Reached? && t == TypeOf(Get(elements[found], key).j)
    requires found == |elements| ==> t == "undefined"
    ensures DefaultType(elements, key) == t
    decreases found
  {
    if found > 0 {
      DefaultTypeFound(elements[1..], key, found - 1, t);
    }
  }

  // ---------------------------------------------------------------------
  // Descriptions

  /** One part of a description applied to the value reached so far. */
  function ApplyPart(j: Json, part: string): (r: Got)
  {
    if part == "*" then (if j.JNull? then Raised else Reached(JArr(Keys(j).value)))
    else if part == ":*" then (if j.JNull? then Raised else Reached(JArr(Values(j).value)))
    else if |part| > 0 && part[0] == ':' then
      if part[1..] == "" then Reached(JArr([]))
      else if j.JNull? then Raised
      else Plucked(Values(j).value, part[1..])
    else Get(j, part)
  }

  /** The parts of a description applied in order; `undefined` ends the walk
    * with null. */
  function Walk(j: Json, parts: seq<string>): (r: Got)
    decreases |parts|
  {
    if parts == [] then Reached(j)
    else match ApplyPart(j, parts[0])
      case Reached(next) => Walk(next, parts[1..])
      case other => other
  }

  /** Walking two lists of parts is walking the first, then the second from
    * where it ends. */
  lemma {:induction false} WalkAppend(j: Json, p: seq<string>, q: seq<string>)
    ensures Walk(j, p + q) == (match Walk(j, p) case Reached(o) => Walk(o, q) case other => other)
    decreases |p|
  {
    if p != [] {
      assert (p + q)[0] == p[0] && (p + q)[1..] == p[1..] + q;
      match ApplyPart(j, p[0])
      case Reached(next) => WalkAppend(next, p[1..], q);
      case _ =>
    } else {
      assert p + q == q;
    }
  }

  /** What a description yields, as an MMValue: a number or string value,
    * or JSON. */
  datatype Found =
    | FNumber(v: NumberValues.NumberValue)
    | FString(m: Matrix<string>)
    | FJson(j: Json)

  /** The outcome of `valueForDescription`: a value, null, or the type error
    * of reading a member of `null`. */
  datatype Described = Value(f: Found) | Null | TypeError

  predicate AllOfType(items: seq<Json>, t: string)
  {
    forall i :: 0 <= i < |items| ==> TypeOf(items[i]) == t
  }

  /** The value a description ends at, as an MMValue: a number or a string
    * is a scalar, a non-empty array all of numbers or all of strings a
    * column, anything else stays JSON. */
  function Converted(j: Json): (r: Found)
    ensures j.JNum? ==> r == FNumber(NumberValues.NumberValue(Matrix(1, 1, [j.n]), UnitDims.Zero()))
    ensures j.JStr? ==> r == FString(Matrix(1, 1, [j.s]))
    ensures j.JArr? && |j.items| > 0 && AllOfType(j.items, "number") ==>
              r.FNumber? && r.v.m.rowCount == |j.items| && r.v.m.columnCount == 1 && |r.v.m.cells| == |j.items|
              && forall i :: 0 <= i < |j.items| ==> r.v.m.cells[i] == j.items[i].n
    ensures j.JArr? && |j.items| > 0 && AllOfType(j.items, "string") ==>
              r.FString? && r.m.rowCount == |j.items| && r.m.columnCount == 1 && |r.m.cells| == |j.items|
              && forall i :: 0 <= i < |j.items| ==> r.m.cells[i] == j.items[i].s
    ensures (!j.JNum? && !j.JStr? && !(j.JArr? && |j.items| > 0 && (AllOfType(j.items, "number") || AllOfType(j.items, "string"))))
            ==> r == FJson(j)
  {
    match j
    case JNum(n) => FNumber(NumberValues.NumberValue(Matrix(1, 1, [n]), UnitDims.Zero()))
    case JStr(s) => FString(Matrix(1, 1, [s]))
    case JArr(items) =>
      if |items| > 0 && AllOfType(items, "number") then
        assert TypeOf(items[0]) != "string";
        FNumber(NumberValues.NumberValue(Matrix(|items|, 1, seq(|items|, i requires 0 <= i < |items| => items[i].n)), UnitDims.Zero()))
      else if |items| > 0 && AllOfType(items, "string") then
        FString(Matrix(|items|, 1, seq(|items|, i requires 0 <= i < |items| => items[i].s)))
      else FJson(j)
    case _ => FJson(j)
  }

  /** `valueForDescription` as a function of the JSON and the description. */
  function DescriptionOf(j: Json, description: string): (r: Described)
  {
    match Walk(j, Split(description, '.'))
    case Reached(o) => Value(Converted(o))
    case Undefined => Null
    case Raised => TypeError
  }

  /** The closing conversion of `valueForDescription`, with its loop over
    * the elements of an array. */
  method ToValue(j: Json) returns (r: Found)
    ensures r == Converted(j)
  {
    if j.JNum? {
      return FNumber(NumberValues.NumberValue(Matrix(1, 1, [j.n]), UnitDims.Zero()));
    }
    if j.JStr? {
      return FString(Matrix(1, 1, [j.s]));
    }
    if j.JArr? && |j.items| > 0 {
      var items := j.items;
      var t := TypeOf(items[0]);
      if t == "number" || t == "string" {
        var i := 0;
        while i < |items|
          invariant 0 <= i <= |items|
          invariant t == "object" || forall k :: 0 <= k < i ==> TypeOf(items[k]) == t
          invariant t == "object" ==> !AllOfType(items, "number") && !AllOfType(items, "string")
        {
          if TypeOf(items[i]) != t {
            assert TypeOf(items[0]) != TypeOf(items[i]);
            t := "object";
            break;
          }
          i := i + 1;
        }
        if t == "number" {
          return FNumber(NumberValues.NumberValue(Matrix(|items|, 1, seq(|items|, k requires 0 <= k < |items| => items[k].n)), UnitDims.Zero()));
        }
        if t == "string" {
          return FString(Matrix(|items|, 1, seq(|items|, k requires 0 <= k < |items| => items[k].s)));
        }
      }
      assert TypeOf(items[0]) != "number" || TypeOf(items[0]) != "string" || t == "object";
    }
    r := FJson(j);
  }

  /** One pass of the loop of `valueForDescription`. */
  method Apply(j: Json, part: string) returns (r: Got)
    ensures r == ApplyPart(j, part)
  {
    if part == "*" {
      r := if j.JNull? then Raised else Reached(JArr(Keys(j).value));
    } else if part == ":*" {
      r := if j.JNull? then Raised else Reached(JArr(Values(j).value));
    } else if |part| > 0 && part[0] == ':' {
      if part[1..] == "" {
        r := Reached(JArr([]));
      } else if j.JNull? {
        r := Raised;
      } else {
        r := Pluck(Values(j).value, part[1..]);
      }
    } else {
      r := Get(j, part);
    }
  }

  /** `valueForDescription`: the description is split on `.` and each part
    * applied in turn; reaching `undefined` gives null. */
  method ValueForDescription(j: Json, description: string) returns (r: Described)
    ensures r == DescriptionOf(j, description)
  {
    var parts := Split(description, '.');
    var obj := j;
    var i := 0;
    while i < |parts|
      invariant 0 <= i <= |parts|
      invariant Walk(j, parts) == Walk(obj, parts[i..])
    {
      assert parts[i..][0] == parts[i] && parts[i..][1..] == parts[i + 1..];
      var next := Apply(obj, parts[i]);
      if next.Undefined? {
        return Null;
      }
      if next.Raised? {
        return TypeError;
      }
      obj := next.j;
      i := i + 1;
    }
    var f := ToValue(obj);
    r := Value(f);
  }

  /** An index value for `valueForIndexRowColumn`: a string value with its
    * cells, or any other value. */
  datatype Index = StringIndex(cells: seq<string>) | OtherIndex

  /** `valueForIndexRowColumn`: the description is the first cell of the
    * row index when it is a non-empty string value, else that of the column
    * index; null without one, and nothing (`undefined`, here `Null`) when
    * the JSON itself is false. */
  function ValueForIndexRowColumn(j: Json, row: Index, column: Index): (r: Described)
    ensures !Truthy(j) ==> r == Null
    ensures Truthy(j) && row.StringIndex? && |row.cells| > 0 ==> r == DescriptionOf(j, row.cells[0])
    ensures Truthy(j) && !(row.StringIndex? && |row.cells| > 0) && column.StringIndex? && |column.cells| > 0 ==>
              r == DescriptionOf(j, column.cells[0])
    ensures !(row.StringIndex? && |row.cells| > 0) && !(column.StringIndex? && |column.cells| > 0) ==> r == Null
  {
    if !Truthy(j) then Null
    else if row.StringIndex? && |row.cells| > 0 then DescriptionOf(j, row.cells[0])
    else if column.StringIndex? && |column.cells| > 0 then DescriptionOf(j, column.cells[0])
    else Null
  }

  /** `concat`: the array of both values, when the other is a JSON value and
    * both are true (`None` for an other that is no JSON value). */
  function Concat(a: Json, other: Option<Json>): (r: Option<Json>)
    ensures r.Some? <==> other.Some? && Truthy(a) && Truthy(other.value)
    ensures r.Some? ==> r.value.JArr? && |r.value.items| == 2
  {
    if other.Some? && Truthy(a) && Truthy(other.value) then Some(JArr([a, other.value])) else None
  }

  /** The two values of a concatenation are its members `0` and `1`. */
  lemma ConcatParts(a: Json, b: Json)
    requires Concat(a, Some(b)).Some?
    ensures DescriptionOf(Concat(a, Some(b)).value, "0") == Value(Converted(a))
    ensures DescriptionOf(Concat(a, Some(b)).value, "1") == Value(Converted(b))
  {
    var c := Concat(a, Some(b)).value;
    SplitNoSep("0", '.');
    SplitNoSep("1", '.');
    ElementByIndex([a, b], 0);
    ElementByIndex([a, b], 1);
    assert NatToString(0) == "0" && NatToString(1) == "1";
    assert ApplyPart(c, "0") == Get(c, "0") && ApplyPart(c, "1") == Get(c, "1");
    assert ["0"][1..] == [] && ["1"][1..] == [];
  }
}
