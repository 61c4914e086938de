/** Units of the unit system. Every unit has a calc type, seven exponents of the
  * base dimensions (length, mass, time, current, temperature, amount, luminous
  * intensity) and a conversion. A compound unit such as `kg-m/s^2` takes its
  * exponents from the units it names: at most one `/` separates numerator and
  * denominator, `-` separates the factors of each, and `^` raises one factor to
  * a power. The dimension string (the exponents joined with spaces) keys the
  * unit-set dictionaries. Scale factors and offsets are floating point and are
  * kept as the text that gives them. */
module Units {
  import opened Wrappers
  import opened Strs
  import opened UnitDims

  /** `MMUnitCalcType.COMPOUND`: exponents and scale come from the named parts. */
  const COMPOUND: int := 0
  /** `MMUnitCalcType.SCALE`: a base unit converted by a scale factor alone. */
  const SCALE: int := 1

  const TypeErrorThrown := "TypeError"
  const ExponentError := "mmcmd:unitExponentError"
  const PartInvalid := "mmcmd:unitPartInvalid"
  /** An exponent that is not an integer; the engine would use a fractional power. */
  const NonIntegerExponent := "nonIntegerExponent"
  const SlashError := "mmcmd:unitSlashError"
  const DefinitionInvalid := "mmcmd:unitDefinitionInvalid"
  const ExponentZero := "mmcmd:unitExponentZero"
  const NoOpInCompound := "mmcmd:noOpInCompoundUnit"
  const UnitParseError := "mmcmd:unitParseError"
  const OperatorInBase := "mmcmd:operatorInBase"
  const BadDescription := "mmcmd:badUnitDescription"
  const DuplicateUnit := "mmcmd:duplicateUnit"

  /** A unit. `scale` is the text of a base unit's scale factor, or `None` for a
    * compound unit, whose scale is the product of its parts' scales. */
  datatype Unit = Unit(name: string, calcType: int, dims: seq<int>,
                       scale: Option<string>, offset: string, isMaster: bool)

  /** The units container's children, keyed by lower-case name. */
  type UnitTable = map<string, Unit>

  /** Every unit of the table has the seven exponents. */
  predicate WellFormed(units: UnitTable)
  {
    forall u :: u in units.Values ==> IsDims(u.dims)
  }

  /** `MMUnit.compoundRegex` matches: the name holds `/`, `-` or `^`. */
  predicate HasOperator(name: string)
  {
    '/' in name || '-' in name || '^' in name
  }

  // ----- dimension strings -----

  function IntStrings(dims: seq<int>): (r: seq<string>)
    ensures |r| == |dims|
    ensures forall i :: 0 <= i < |dims| ==> r[i] == IntToString(dims[i])
  {
    seq(|dims|, i requires 0 <= i < |dims| => IntToString(dims[i]))
  }

  /** `MMUnit.stringFromDimensions`: the exponents joined with single spaces. */
  function DimensionString(dims: seq<int>): (r: string)
    ensures r == [] <==> dims == []
  {
    if dims == [] then "" else
      var parts := IntStrings(dims);
      assert Join(parts, ' ') == parts[0] + Join(parts, ' ')[|parts[0]|..] by {
        if |parts| > 1 { assert Join(parts, ' ') == parts[0] + ([' '] + Join(parts[1..], ' ')); }
      }
      Join(parts, ' ')
  }

  /** `parseInt` applied to each text; `None` when one of them is NaN. */
  function ParseInts(parts: seq<string>): (r: Option<seq<int>>)
    ensures r.Some? ==> |r.value| == |parts|
  {
    if parts == [] then Some([])
    else
      match (ParseInt(parts[0]), ParseInts(parts[1..]))
      case (Some(x), Some(xs)) => Some([x] + xs)
      case _ => None
  }

  /** Reading a dimension string back into exponents. */
  function DimensionsOf(s: string): Option<seq<int>>
  {
    ParseInts(Split(s, ' '))
  }

  lemma {:induction false} ParseIntStrings(dims: seq<int>)
    ensures ParseInts(IntStrings(dims)) == Some(dims)
  {
    if dims != [] {
      ParseIntStrings(dims[1..]);
      IntToStringRoundTrip(dims[0]);
      assert IntStrings(dims)[1..] == IntStrings(dims[1..]);
      assert [dims[0]] + dims[1..] == dims;
    }
  }

  /** The dimension string of a unit can be read back into its exponents. */
  lemma {:induction false} DimensionStringRoundTrip(dims: seq<int>)
    requires dims != []
    ensures DimensionsOf(DimensionString(dims)) == Some(dims)
  {
    var parts := IntStrings(dims);
    assert forall k :: 0 <= k < |parts| ==> ' ' !in parts[k];
    SplitJoin(parts, ' ');
    ParseIntStrings(dims);
  }

  /** Units share a dimension string exactly when they have the same exponents,
    * so the unit-set dictionaries keyed by it hold one entry per dimension. */
  lemma {:induction false} DimensionStringInjective(a: seq<int>, b: seq<int>)
    ensures DimensionString(a) == DimensionString(b) <==> a == b
  {
    if DimensionString(a) == DimensionString(b) && a != [] && b != [] {
      DimensionStringRoundTrip(a);
      DimensionStringRoundTrip(b);
    }
  }

  // ----- findNamePartsInString -----

  /** A factor of a compound unit: a unit raised to an exponent. */
  datatype Part = Part(unit: Unit, exponent: int)

  /** A factor the parser keeps: a COMPOUND or SCALE unit of the table. */
  predicate Accepted(units: UnitTable, p: Part)
  {
    p.unit in units.Values && (p.unit.calcType == COMPOUND || p.unit.calcType == SCALE)
  }

  /** The exponent after `^`: an optionally signed decimal integer. */
  function ParseExponent(text: string): (r: Option<int>)
  {
    var digits := if text != [] && (text[0] == '-' || text[0] == '+') then text[1..] else text;
    if digits != [] && LeadingDigits(digits) == digits then ParseInt(text) else None
  }

  lemma {:induction false} ExponentRoundTrip(e: int)
    ensures ParseExponent(IntToString(e)) == Some(e)
  {
    IntToStringRoundTrip(e);
    var t := IntToString(e);
    var m: nat := if e < 0 then -e else e;
    LeadingDigitsOfDigits(NatToString(m));
    if e < 0 {
      assert t[1..] == NatToString(m);
    } else {
      assert t == NatToString(m) && IsDigit(t[0]);
    }
  }

  /** One `-`-separated token, `name` or `name^exponent`. `Ok(None)` for the
    * placeholder `1` (as in `1/s`), which contributes no factor. A name that is
    * no unit reads a property of `undefined`, which throws a TypeError. */
  function TokenPart(units: UnitTable, token: string): (r: Result<Option<Part>>)
    ensures r.Ok? && r.value.Some? ==> Accepted(units, r.value.value)
  {
    var pieces := Split(token, '^');
    if |pieces| > 2 then Err(ExponentError)
    else
      var key := Lower(pieces[0]);
      if key in units then
        var u := units[key];
        if u.calcType == COMPOUND || u.calcType == SCALE then
          if |pieces| == 2 then
            match ParseExponent(pieces[1])
            case None => Err(NonIntegerExponent)
            case Some(e) => Ok(Some(Part(u, e)))
          else Ok(Some(Part(u, 1)))
        else Err(PartInvalid)
      else if pieces[0] != "1" then Err(TypeErrorThrown)
      else Ok(None)
  }

  /** Every token's outcome, in order. */
  function TokenResults(units: UnitTable, tokens: seq<string>): (r: seq<Result<Option<Part>>>)
    ensures |r| == |tokens|
    ensures forall k :: 0 <= k < |tokens| ==> r[k] == TokenPart(units, tokens[k])
  {
    seq(|tokens|, k requires 0 <= k < |tokens| => TokenPart(units, tokens[k]))
  }

  /** The first error among the outcomes, or the parts they yield in order. */
  function Collect(rs: seq<Result<Option<Part>>>): (r: Result<seq<Part>>)
    ensures r.Ok? ==> |r.value| <= |rs|
  {
    if rs == [] then Ok([]) else Prepend(rs[0], Collect(rs[1..]))
  }

  /** One token's outcome in front of the outcome of the tokens after it. */
  function Prepend(h: Result<Option<Part>>, rest: Result<seq<Part>>): (r: Result<seq<Part>>)
    ensures r.Ok? && rest.Ok? ==> |r.value| <= |rest.value| + 1
  {
    match h
    case Err(e) => Err(e)
    case Ok(None) => rest
    case Ok(Some(p)) => if rest.Err? then rest else Ok([p] + rest.value)
  }

  /** The first error of two runs, or both lists of parts one after the other. */
  function Then(a: Result<seq<Part>>, b: Result<seq<Part>>): Result<seq<Part>>
  {
    if a.Err? then a else if b.Err? then b else Ok(a.value + b.value)
  }

  /** `findNamePartsInString(term)`: the factors of a numerator or denominator. */
  function NameParts(units: UnitTable, term: string): (r: Result<seq<Part>>)
    ensures r.Ok? ==> forall k :: 0 <= k < |r.value| ==> Accepted(units, r.value[k])
  {
    if term == [] then Ok([])
    else
      var rs := TokenResults(units, Split(term, '-'));
      CollectAccepted(units, rs);
      Collect(rs)
  }

  /** Outcomes whose parts are all accepted factors. */
  predicate AllAccepted(units: UnitTable, rs: seq<Result<Option<Part>>>)
  {
    forall k :: 0 <= k < |rs| && rs[k].Ok? && rs[k].value.Some? ==> Accepted(units, rs[k].value.value)
  }

  lemma {:induction false} CollectAccepted(units: UnitTable, rs: seq<Result<Option<Part>>>)
    requires AllAccepted(units, rs)
    ensures Collect(rs).Ok? ==> forall k :: 0 <= k < |Collect(rs).value| ==> Accepted(units, Collect(rs).value[k])
  {
    if rs != [] {
      assert AllAccepted(units, rs[1..]) by {
        forall k | 0 <= k < |rs[1..]| && rs[1..][k].Ok? && rs[1..][k].value.Some?
          ensures Accepted(units, rs[1..][k].value.value)
        {
          assert rs[1..][k] == rs[k + 1];
        }
      }
      CollectAccepted(units, rs[1..]);
    }
  }

  lemma {:induction false} CollectConcat(a: seq<Result<Option<Part>>>, b: seq<Result<Option<Part>>>)
    ensures Collect(a + b) == Then(Collect(a), Collect(b))
  {
    if a == [] {
      assert a + b == b;
      if Collect(b).Ok? {
        assert [] + Collect(b).value == Collect(b).value;
      }
    } else {
      CollectConcat(a[1..], b);
      assert (a + b)[0] == a[0] && (a + b)[1..] == a[1..] + b;
      PrependThen(a[0], Collect(a[1..]), Collect(b));
    }
  }

  lemma {:induction false} PrependThen(h: Result<Option<Part>>, x: Result<seq<Part>>, y: Result<seq<Part>>)
    ensures Prepend(h, Then(x, y)) == Then(Prepend(h, x), y)
  {
    if h.Ok? && h.value.Some? && x.Ok? && y.Ok? {
      var p := h.value.value;
      assert [p] + (x.value + y.value) == ([p] + x.value) + y.value;
    }
  }

  /** `findNamePartsInString`, as the loop over the `-`-separated tokens that it is. */
  method FindNamePartsInString(units: UnitTable, term: string) returns (r: Result<seq<Part>>)
    ensures r == NameParts(units, term)
  {
    if term == [] {
      return Ok([]);
    }
    var tokens := Split(term, '-');
    ghost var rs := TokenResults(units, tokens);
    var parts: seq<Part> := [];
    var i := 0;
    while i < |tokens|
      invariant 0 <= i <= |tokens|
      invariant Collect(rs[..i]) == Ok(parts)
    {
      var p := TokenPart(units, tokens[i]);
      CollectStep(rs, i, parts);
      if p.Err? {
        return Err(p.error);
      }
      if p.value.Some? {
        parts := parts + [p.value.value];
      }
      i := i + 1;
    }
    assert rs[..i] == rs;
    return Ok(parts);
  }

  /** One iteration of the token loop: an error ends the whole run with that
    * error, a part is appended, a bare `1` adds nothing. */
  lemma {:induction false} CollectStep(rs: seq<Result<Option<Part>>>, i: nat, parts: seq<Part>)
    requires i < |rs| && Collect(rs[..i]) == Ok(parts)
    ensures rs[i].Err? ==> Collect(rs) == Err(rs[i].error)
    ensures rs[i] == Ok(None) ==> Collect(rs[..i + 1]) == Ok(parts)
    ensures rs[i].Ok? && rs[i].value.Some? ==> Collect(rs[..i + 1]) == Ok(parts + [rs[i].value.value])
  {
    var p := rs[i];
    assert rs[..i + 1] == rs[..i] + [p];
    assert [p][1..] == [];
    assert Collect([p]) == Prepend(p, Ok([]));
    CollectConcat(rs[..i], [p]);
    if p.Err? {
      assert Collect(rs[..i + 1]) == Err(p.error);
      CollectConcat(rs[..i + 1], rs[i + 1..]);
      assert rs[..i + 1] + rs[i + 1..] == rs;
    } else if p.value.None? {
      assert parts + [] == parts;
    } else {
      var x := p.value.value;
      assert [x] + [] == [x];
      assert Prepend(p, Ok([])) == Ok([x]);
    }
  }

  /** A term without `-` is a single token. */
  lemma {:induction false} SingleTokenParts(units: UnitTable, term: string)
    requires term != [] && '-' !in term
    ensures NameParts(units, term) == Prepend(TokenPart(units, term), Ok([]))
  {
    SplitNoSep(term, '-');
    var rs := TokenResults(units, [term]);
    assert rs == [TokenPart(units, term)];
    assert rs[1..] == [];
    assert Collect(rs) == Prepend(rs[0], Collect([]));
    assert NameParts(units, term) == Collect(rs);
  }

  /** A token with more than one `^` throws `unitExponentError`. */
  lemma {:induction false} TokenExponentError(units: UnitTable, token: string)
    requires Count(token, '^') > 1
    ensures TokenPart(units, token) == Err(ExponentError)
  {
    SplitLength(token, '^');
  }

  /** A token without `^` raises its unit to the power 1. */
  lemma {:induction false} TokenDefaultExponent(units: UnitTable, name: string)
    requires '^' !in name && Lower(name) in units
    requires units[Lower(name)].calcType in {COMPOUND, SCALE}
    ensures TokenPart(units, name) == Ok(Some(Part(units[Lower(name)], 1)))
  {
    SplitNoSep(name, '^');
  }

  /** `name^e` raises the unit to the power e. */
  lemma {:induction false} TokenPower(units: UnitTable, name: string, e: int)
    requires '^' !in name && Lower(name) in units
    requires units[Lower(name)].calcType in {COMPOUND, SCALE}
    ensures TokenPart(units, name + "^" + IntToString(e)) == Ok(Some(Part(units[Lower(name)], e)))
  {
    var t := IntToString(e);
    assert '^' !in t;
    SplitPrefix(name, t, '^');
    SplitNoSep(t, '^');
    ExponentRoundTrip(e);
  }

  /** A bare `1` (with or without an exponent) contributes no factor. */
  lemma {:induction false} TokenOne(units: UnitTable, token: string)
    requires "1" !in units
    requires token == "1" || (|token| > 2 && token[..2] == "1^" && '^' !in token[2..])
    ensures TokenPart(units, token) == Ok(None)
  {
    if token == "1" {
      SplitNoSep(token, '^');
    } else {
      assert token == "1" + "^" + token[2..];
      SplitPrefix("1", token[2..], '^');
      SplitNoSep(token[2..], '^');
    }
    assert Lower("1") == "1";
  }

  /** Units that are neither COMPOUND nor SCALE cannot be factors of a compound unit. */
  lemma {:induction false} TokenRejectsOtherTypes(units: UnitTable, name: string)
    requires '^' !in name && Lower(name) in units
    requires units[Lower(name)].calcType !in {COMPOUND, SCALE}
    ensures TokenPart(units, name) == Err(PartInvalid)
  {
    SplitNoSep(name, '^');
  }

  /** The parts of `a-b` are the parts of `a` followed by the parts of `b`. */
  lemma {:induction false} NamePartsProduct(units: UnitTable, a: string, b: string)
    requires a != [] && b != []
    ensures NameParts(units, a + "-" + b) == Then(NameParts(units, a), NameParts(units, b))
  {
    SplitConcat(a, b, '-');
    var ta := Split(a, '-');
    var tb := Split(b, '-');
    assert TokenResults(units, ta + tb) == TokenResults(units, ta) + TokenResults(units, tb);
    CollectConcat(TokenResults(units, ta), TokenResults(units, tb));
  }

  // ----- parseDefinition -----

  /** What `parseDefinition` leaves: nothing to parse for a base unit (`true`),
    * a factor that threw (`false`), or the exponents it accumulated. */
  datatype Definition = NotCompound | Unparsed | Parsed(dims: seq<int>)

  predicate PartsWellFormed(parts: seq<Part>)
  {
    forall k :: 0 <= k < |parts| ==> IsDims(parts[k].unit.dims)
  }

  /** Σ exponent · exponents-of-unit over the parts. */
  function PartsDims(parts: seq<Part>): (r: seq<int>)
    requires PartsWellFormed(parts)
    ensures IsDims(r)
  {
    if parts == [] then Zero()
    else
      var last := parts[|parts| - 1];
      DimSum(PartsDims(parts[..|parts| - 1]), DimScale(last.unit.dims, last.exponent))
  }

  predicate HasZeroExponent(parts: seq<Part>)
  {
    exists k :: 0 <= k < |parts| && parts[k].exponent == 0
  }

  lemma {:induction false} AcceptedWellFormed(units: UnitTable, parts: seq<Part>)
    requires WellFormed(units)
    requires forall k :: 0 <= k < |parts| ==> Accepted(units, parts[k])
    ensures PartsWellFormed(parts)
  {
  }

  /** `parseDefinition(definition)` of a unit with the given calc type. */
  function DefinitionOf(units: UnitTable, calcType: int, definition: string): (r: Result<Definition>)
    requires WellFormed(units)
    ensures r.Ok? && r.value.Parsed? ==> IsDims(r.value.dims)
    ensures r.Err? ==> r.error in {SlashError, DefinitionInvalid, ExponentZero}
  {
    if calcType != COMPOUND then Ok(NotCompound)
    else
      var halves := Split(definition, '/');
      if |halves| > 2 then Err(SlashError)
      else DefinitionFromParts(units, NameParts(units, halves[0]),
                               NameParts(units, if |halves| == 2 then halves[1] else ""))
  }

  /** The rest of `parseDefinition` once both sides have been parsed: a side that
    * threw gives `false`, no factor at all and a zero exponent throw, and the
    * exponents are the numerator's sum minus the denominator's. */
  function DefinitionFromParts(units: UnitTable, num: Result<seq<Part>>, den: Result<seq<Part>>): (r: Result<Definition>)
    requires WellFormed(units)
    requires num.Ok? ==> forall k :: 0 <= k < |num.value| ==> Accepted(units, num.value[k])
    requires den.Ok? ==> forall k :: 0 <= k < |den.value| ==> Accepted(units, den.value[k])
    ensures r.Ok? && r.value.Parsed? ==> IsDims(r.value.dims)
    ensures r.Err? ==> r.error in {DefinitionInvalid, ExponentZero}
  {
    if num.Err? || den.Err? then Ok(Unparsed)
    else if num.value == [] && den.value == [] then Err(DefinitionInvalid)
    else if HasZeroExponent(num.value) || HasZeroExponent(den.value) then Err(ExponentZero)
    else
      AcceptedWellFormed(units, num.value);
      AcceptedWellFormed(units, den.value);
      Ok(Parsed(DimDiff(PartsDims(num.value), PartsDims(den.value))))
  }

  /** `d[k] += dims[k] * exponent` (or `-=`) for the seven exponents. */
  method AddScaledDims(d: array<int>, dims: seq<int>, exponent: int, add: bool)
    requires d.Length == NUMDIMS && IsDims(dims)
    modifies d
    ensures add ==> d[..] == DimSum(old(d[..]), DimScale(dims, exponent))
    ensures !add ==> d[..] == DimDiff(old(d[..]), DimScale(dims, exponent))
  {
    var i := 0;
    while i < NUMDIMS
      invariant 0 <= i <= NUMDIMS
      invariant add ==> forall k :: 0 <= k < i ==> d[k] == old(d[k]) + dims[k] * exponent
      invariant !add ==> forall k :: 0 <= k < i ==> d[k] == old(d[k]) - dims[k] * exponent
      invariant forall k :: i <= k < NUMDIMS ==> d[k] == old(d[k])
    {
      if add {
        d[i] := d[i] + dims[i] * exponent;
      } else {
        d[i] := d[i] - dims[i] * exponent;
      }
      i := i + 1;
    }
  }

  function Combine(base: seq<int>, delta: seq<int>, add: bool): seq<int>
    requires IsDims(base) && IsDims(delta)
  {
    if add then DimSum(base, delta) else DimDiff(base, delta)
  }

  /** The loop over one side's parts: stops at a zero exponent, otherwise adds
    * (numerator) or subtracts (denominator) every part's exponents. */
  method AccumulateParts(d: array<int>, parts: seq<Part>, add: bool) returns (ok: bool)
    requires d.Length == NUMDIMS && PartsWellFormed(parts)
    modifies d
    ensures ok <==> !HasZeroExponent(parts)
    ensures ok ==> d[..] == Combine(old(d[..]), PartsDims(parts), add)
  {
    var i := 0;
    while i < |parts|
      invariant 0 <= i <= |parts|
      invariant forall k :: 0 <= k < i ==> parts[k].exponent != 0
      invariant d[..] == Combine(old(d[..]), PartsDims(parts[..i]), add)
    {
      if parts[i].exponent == 0 {
        assert parts[i].exponent == 0;
        return false;
      }
      AddScaledDims(d, parts[i].unit.dims, parts[i].exponent, add);
      assert parts[..i + 1][..i] == parts[..i];
      i := i + 1;
    }
    assert parts[..i] == parts;
    return true;
  }

  /** `parseDefinition`: splits at `/`, finds the factors of each side and
    * accumulates their exponents. */
  method ParseDefinition(units: UnitTable, calcType: int, definition: string) returns (r: Result<Definition>)
    requires WellFormed(units)
    ensures r == DefinitionOf(units, calcType, definition)
  {
    if calcType != COMPOUND {
      return Ok(NotCompound);
    }
    var halves := Split(definition, '/');
    if |halves| > 2 {
      return Err(SlashError);
    }
    var numerator := halves[0];
    var denominator := if |halves| == 2 then halves[1] else "";
    var num := FindNamePartsInString(units, numerator);
    if num.Err? {
      return Ok(Unparsed);
    }
    var den := FindNamePartsInString(units, denominator);
    r := DimensionsFromParts(units, num, den);
  }

  /** The two accumulation loops of `parseDefinition`. */
  method DimensionsFromParts(units: UnitTable, num: Result<seq<Part>>, den: Result<seq<Part>>) returns (r: Result<Definition>)
    requires WellFormed(units) && num.Ok?
    requires forall k :: 0 <= k < |num.value| ==> Accepted(units, num.value[k])
    requires den.Ok? ==> forall k :: 0 <= k < |den.value| ==> Accepted(units, den.value[k])
    ensures r == DefinitionFromParts(units, num, den)
  {
    if den.Err? {
      return Ok(Unparsed);
    }
    if |num.value| == 0 && |den.value| == 0 {
      return Err(DefinitionInvalid);
    }
    AcceptedWellFormed(units, num.value);
    AcceptedWellFormed(units, den.value);
    var d := new int[NUMDIMS](_ => 0);
    assert d[..] == Zero();
    var ok := AccumulateParts(d, num.value, true);
    if !ok {
      return Err(ExponentZero);
    }
    ok := AccumulateParts(d, den.value, false);
    if !ok {
      return Err(ExponentZero);
    }
    ZeroThenDiff(PartsDims(num.value), PartsDims(den.value));
    return Ok(Parsed(d[..]));
  }

  /** Adding to zero and then subtracting is the difference. */
  lemma ZeroThenDiff(a: seq<int>, b: seq<int>)
    requires IsDims(a) && IsDims(b)
    ensures Combine(Combine(Zero(), a, true), b, false) == DimDiff(a, b)
  {
    var c := Combine(Combine(Zero(), a, true), b, false);
    forall i | 0 <= i < NUMDIMS
      ensures c[i] == DimDiff(a, b)[i]
    {
    }
  }

  /** More than one `/` in a compound definition throws `unitSlashError`, and no
    * other failure of the definition reports that message. */
  lemma {:induction false} SlashErrorIff(units: UnitTable, definition: string)
    requires WellFormed(units)
    ensures DefinitionOf(units, COMPOUND, definition) == Err(SlashError) <==> Count(definition, '/') > 1
  {
    SplitLength(definition, '/');
  }

  /** A definition without `/` is all numerator. */
  lemma {:induction false} DefinitionOfNumerator(units: UnitTable, s: string)
    requires WellFormed(units) && '/' !in s
    ensures DefinitionOf(units, COMPOUND, s) == DefinitionFromParts(units, NameParts(units, s), Ok([]))
  {
    SplitNoSep(s, '/');
    assert Split(s, '/') == [s];
    assert NameParts(units, "") == Ok([]);
  }

  /** A definition with one `/` has its two sides as numerator and denominator. */
  lemma {:induction false} DefinitionOfQuotient(units: UnitTable, a: string, b: string)
    requires WellFormed(units) && '/' !in a && '/' !in b
    ensures DefinitionOf(units, COMPOUND, a + "/" + b) == DefinitionFromParts(units, NameParts(units, a), NameParts(units, b))
  {
    SplitPrefix(a, b, '/');
    SplitNoSep(b, '/');
    assert Split(a + "/" + b, '/') == [a, b];
  }

  /** The digits of a natural number contain no `/` and no `-`. */
  lemma {:induction false} PowerTermNoSeparator(name: string, e: nat)
    requires '-' !in name && '/' !in name
    ensures '/' !in name + "^" + IntToString(e) && '-' !in name + "^" + IntToString(e)
  {
    var t := IntToString(e);
    var term := name + "^" + t;
    assert t == NatToString(e);
    forall j | 0 <= j < |term| ensures term[j] != '/' && term[j] != '-' {
      if j > |name| { assert term[j] == t[j - |name| - 1]; assert IsDigit(t[j - |name| - 1]); }
      else if j < |name| { assert term[j] == name[j]; }
    }
  }

  /** A single factor `name^e` gives the unit's exponents times e, and e = 0
    * throws. (A negative exponent cannot be written: `-` separates factors.) */
  lemma {:induction false} DefinitionOfPower(units: UnitTable, name: string, e: nat)
    requires WellFormed(units)
    requires '^' !in name && '-' !in name && '/' !in name && name != []
    requires Lower(name) in units && units[Lower(name)].calcType in {COMPOUND, SCALE}
    ensures e == 0 ==> DefinitionOf(units, COMPOUND, name + "^" + IntToString(e)) == Err(ExponentZero)
    ensures e != 0 ==>
              DefinitionOf(units, COMPOUND, name + "^" + IntToString(e)) == Ok(Parsed(DimScale(units[Lower(name)].dims, e)))
  {
    var u := units[Lower(name)];
    var term := name + "^" + IntToString(e);
    PowerTermNoSeparator(name, e);
    DefinitionOfNumerator(units, term);
    SingleTokenParts(units, term);
    TokenPower(units, name, e);
    PrependOne(Part(u, e));
    SinglePartDefinition(units, u, e);
  }

  lemma PrependOne(p: Part)
    ensures Prepend(Ok(Some(p)), Ok([])) == Ok([p])
  {
    assert [p] + [] == [p];
  }

  lemma {:induction false} SinglePartDefinition(units: UnitTable, u: Unit, e: int)
    requires WellFormed(units) && Accepted(units, Part(u, e))
    ensures e == 0 ==> DefinitionFromParts(units, Ok([Part(u, e)]), Ok([])) == Err(ExponentZero)
    ensures e != 0 ==> DefinitionFromParts(units, Ok([Part(u, e)]), Ok([])) == Ok(Parsed(DimScale(u.dims, e)))
  {
    if e != 0 {
      assert [Part(u, e)][..0] == [];
      assert PartsDims([Part(u, e)]) == DimSum(Zero(), DimScale(u.dims, e));
      assert DimDiff(DimSum(Zero(), DimScale(u.dims, e)), Zero()) == DimScale(u.dims, e);
    } else {
      assert [Part(u, e)][0].exponent == 0;
    }
  }

  /** `1/s`-style reciprocal: exchanging numerator and denominator negates the exponents. */
  function Reciprocal(r: Result<Definition>): Result<Definition>
  {
    if r.Ok? && r.value.Parsed? && IsDims(r.value.dims) then Ok(Parsed(DimDiff(Zero(), r.value.dims)))
    else r
  }

  lemma {:induction false} DefinitionReciprocal(units: UnitTable, a: string, b: string)
    requires WellFormed(units)
    requires '/' !in a && '/' !in b
    ensures DefinitionOf(units, COMPOUND, b + "/" + a) == Reciprocal(DefinitionOf(units, COMPOUND, a + "/" + b))
  {
    DefinitionOfQuotient(units, a, b);
    DefinitionOfQuotient(units, b, a);
    FromPartsSwap(units, NameParts(units, a), NameParts(units, b));
  }

  lemma {:induction false} FromPartsSwap(units: UnitTable, na: Result<seq<Part>>, nb: Result<seq<Part>>)
    requires WellFormed(units)
    requires na.Ok? ==> forall k :: 0 <= k < |na.value| ==> Accepted(units, na.value[k])
    requires nb.Ok? ==> forall k :: 0 <= k < |nb.value| ==> Accepted(units, nb.value[k])
    ensures DefinitionFromParts(units, nb, na) == Reciprocal(DefinitionFromParts(units, na, nb))
  {
    if na.Ok? && nb.Ok? && !HasZeroExponent(na.value) && !HasZeroExponent(nb.value)
       && (na.value != [] || nb.value != []) {
      AcceptedWellFormed(units, na.value);
      AcceptedWellFormed(units, nb.value);
      var pa := PartsDims(na.value);
      var pb := PartsDims(nb.value);
      assert DimDiff(pb, pa) == DimDiff(Zero(), DimDiff(pa, pb));
    }
  }

  lemma {:induction false} PartsDimsConcat(a: seq<Part>, b: seq<Part>)
    requires PartsWellFormed(a) && PartsWellFormed(b)
    ensures PartsWellFormed(a + b)
    ensures PartsDims(a + b) == DimSum(PartsDims(a), PartsDims(b))
  {
    assert PartsWellFormed(a + b) by {
      forall k | 0 <= k < |a + b| ensures IsDims((a + b)[k].unit.dims) {
        if k >= |a| { assert (a + b)[k] == b[k - |a|]; }
      }
    }
    if b == [] {
      assert a + b == a;
      assert DimSum(PartsDims(a), Zero()) == PartsDims(a);
    } else {
      var b' := b[..|b| - 1];
      var last := b[|b| - 1];
      PartsDimsConcat(a, b');
      assert (a + b)[..|a + b| - 1] == a + b';
      assert (a + b)[|a + b| - 1] == last;
      var x := DimScale(last.unit.dims, last.exponent);
      assert DimSum(DimSum(PartsDims(a), PartsDims(b')), x) == DimSum(PartsDims(a), DimSum(PartsDims(b'), x));
    }
  }

  /** The exponents of a product `a-b` are the sums of those of `a` and of `b`. */
  lemma {:induction false} DefinitionProduct(units: UnitTable, a: string, b: string, da: seq<int>, db: seq<int>)
    requires WellFormed(units)
    requires a != [] && b != [] && '/' !in a && '/' !in b
    requires DefinitionOf(units, COMPOUND, a) == Ok(Parsed(da))
    requires DefinitionOf(units, COMPOUND, b) == Ok(Parsed(db))
    ensures DefinitionOf(units, COMPOUND, a + "-" + b) == Ok(Parsed(DimSum(da, db)))
  {
    var ab := a + "-" + b;
    assert '/' !in ab by {
      forall j | 0 <= j < |ab| ensures ab[j] != '/' {
        if j < |a| { assert ab[j] == a[j]; } else if j > |a| { assert ab[j] == b[j - |a| - 1]; }
      }
    }
    DefinitionOfNumerator(units, a);
    DefinitionOfNumerator(units, b);
    DefinitionOfNumerator(units, ab);
    NamePartsProduct(units, a, b);
    ProductFromParts(units, NameParts(units, a), NameParts(units, b), da, db);
  }

  lemma {:induction false} ProductFromParts(units: UnitTable, na: Result<seq<Part>>, nb: Result<seq<Part>>, da: seq<int>, db: seq<int>)
    requires WellFormed(units)
    requires na.Ok? ==> forall k :: 0 <= k < |na.value| ==> Accepted(units, na.value[k])
    requires nb.Ok? ==> forall k :: 0 <= k < |nb.value| ==> Accepted(units, nb.value[k])
    requires DefinitionFromParts(units, na, Ok([])) == Ok(Parsed(da))
    requires DefinitionFromParts(units, nb, Ok([])) == Ok(Parsed(db))
    ensures Then(na, nb).Ok? && forall k :: 0 <= k < |Then(na, nb).value| ==> Accepted(units, Then(na, nb).value[k])
    ensures DefinitionFromParts(units, Then(na, nb), Ok([])) == Ok(Parsed(DimSum(da, db)))
  {
    var pa := na.value;
    var pb := nb.value;
    AcceptedWellFormed(units, pa);
    AcceptedWellFormed(units, pb);
    PartsDimsConcat(pa, pb);
    assert Then(na, nb) == Ok(pa + pb);
    assert forall k :: 0 <= k < |pa + pb| ==> Accepted(units, (pa + pb)[k]) by {
      forall k | 0 <= k < |pa + pb| ensures Accepted(units, (pa + pb)[k]) {
        if k < |pa| { assert (pa + pb)[k] == pa[k]; } else { assert (pa + pb)[k] == pb[k - |pa|]; }
      }
    }
    assert !HasZeroExponent(pa + pb) by {
      forall k | 0 <= k < |pa + pb| ensures (pa + pb)[k].exponent != 0 {
        if k < |pa| { assert (pa + pb)[k] == pa[k]; } else { assert (pa + pb)[k] == pb[k - |pa|]; }
      }
    }
    assert DimDiff(PartsDims(pa), Zero()) == PartsDims(pa);
    assert DimDiff(PartsDims(pb), Zero()) == PartsDims(pb);
    assert DimDiff(PartsDims(pa + pb), Zero()) == PartsDims(pa + pb);
  }

  // ----- unit descriptions -----

  /** `parseInt(parts[i])`; a missing part is `undefined`, which parses to NaN. */
  function Field(parts: seq<string>, i: nat): Option<int>
  {
    if i < |parts| then ParseInt(parts[i]) else None
  }

  /** The seven exponent fields that follow the ct type. */
  function ExponentFields(parts: seq<string>): (r: seq<Option<int>>)
    ensures |r| == NUMDIMS
    ensures forall k :: 0 <= k < NUMDIMS ==> r[k] == Field(parts, k + 1)
  {
    seq(NUMDIMS, k requires 0 <= k < NUMDIMS => Field(parts, k + 1))
  }

  /** `initCompoundWithDescription(name)`: a compound unit is its own definition. */
  function CompoundUnit(units: UnitTable, name: string, isMaster: bool): (r: Result<Unit>)
    requires WellFormed(units)
    ensures r.Ok? ==> r.value == Unit(name, COMPOUND, r.value.dims, None, "0", isMaster) && IsDims(r.value.dims)
    ensures !HasOperator(name) ==> r == Err(NoOpInCompound)
    ensures r.Err? ==> r.error in {NoOpInCompound, UnitParseError, SlashError, DefinitionInvalid, ExponentZero}
  {
    if !HasOperator(name) then Err(NoOpInCompound)
    else
      match DefinitionOf(units, COMPOUND, name)
      case Err(e) => Err(e)
      case Ok(Parsed(d)) => Ok(Unit(name, COMPOUND, d, None, "0", isMaster))
      case Ok(_) => Err(UnitParseError)
  }

  /** `initWithDescription(isMaster, description)` of a unit called `name`: the
    * calc type, then for a base unit seven exponents, an optional scale (1 by
    * default) and an optional offset (0 by default). */
  function UnitFromDescription(units: UnitTable, name: string, isMaster: bool, description: string): (r: Result<Unit>)
    requires WellFormed(units)
    ensures r.Ok? ==> r.value.name == name && r.value.isMaster == isMaster && IsDims(r.value.dims)
    ensures r.Err? ==> r.error != DuplicateUnit
  {
    var parts := Split(description, ' ');
    var ct := ParseInt(parts[0]);
    if ct == Some(COMPOUND) then CompoundUnit(units, name, isMaster)
    else if HasOperator(name) then Err(OperatorInBase)
    else BaseUnit(name, isMaster, ct, parts)
  }

  /** The base-unit branch of `initWithDescription`, from the split description. */
  function BaseUnit(name: string, isMaster: bool, ct: Option<int>, parts: seq<string>): (r: Result<Unit>)
    ensures r.Ok? ==> r.value.name == name && r.value.isMaster == isMaster && IsDims(r.value.dims)
    ensures r.Err? ==> r.error == BadDescription
  {
    var fields := ExponentFields(parts);
    if ct.None? || exists k :: 0 <= k < NUMDIMS && fields[k].None? then Err(BadDescription)
    else
      var dims := seq(NUMDIMS, k requires 0 <= k < NUMDIMS => fields[k].value);
      Ok(Unit(name, ct.value, dims, Some(ScaleField(parts)), OffsetField(parts), isMaster))
  }

  /** `Number(parts[8])` when present, otherwise the default scale 1. */
  function ScaleField(parts: seq<string>): string
  {
    if |parts| > NUMDIMS + 1 then parts[NUMDIMS + 1] else "1"
  }

  /** `Number(parts[9])` when present, otherwise the default offset 0. */
  function OffsetField(parts: seq<string>): string
  {
    if |parts| > NUMDIMS + 2 then parts[NUMDIMS + 2] else "0"
  }

  /** `initCompoundWithDescription`. */
  method InitCompound(units: UnitTable, name: string, isMaster: bool) returns (r: Result<Unit>)
    requires WellFormed(units)
    ensures r == CompoundUnit(units, name, isMaster)
  {
    if !HasOperator(name) {
      return Err(NoOpInCompound);
    }
    var d := ParseDefinition(units, COMPOUND, name);
    if d.Err? {
      return Err(d.error);
    }
    if !d.value.Parsed? {
      return Err(UnitParseError);
    }
    return Ok(Unit(name, COMPOUND, d.value.dims, None, "0", isMaster));
  }

  /** `initWithDescription`. */
  method InitWithDescription(units: UnitTable, name: string, isMaster: bool, description: string) returns (r: Result<Unit>)
    requires WellFormed(units)
    ensures r == UnitFromDescription(units, name, isMaster, description)
  {
    var parts := Split(description, ' ');
    var ct := ParseInt(parts[0]);
    if ct == Some(COMPOUND) {
      r := InitCompound(units, name, isMaster);
      return;
    }
    if HasOperator(name) {
      return Err(OperatorInBase);
    }
    r := InitBase(name, isMaster, ct, parts);
  }

  /** The base-unit branch: the exponents are pushed one field at a time. */
  method InitBase(name: string, isMaster: bool, ct: Option<int>, parts: seq<string>) returns (r: Result<Unit>)
    ensures r == BaseUnit(name, isMaster, ct, parts)
  {
    ghost var fields := ExponentFields(parts);
    var dims: seq<int> := [];
    var allNumbers := true;
    var i := 1;
    while i <= NUMDIMS
      invariant 1 <= i <= NUMDIMS + 1
      invariant !allNumbers ==> exists k :: 0 <= k < i - 1 && fields[k].None?
      invariant allNumbers ==> |dims| == i - 1 && forall k :: 0 <= k < i - 1 ==> Some(dims[k]) == fields[k]
    {
      var f := Field(parts, i);
      assert f == fields[i - 1];
      if f.None? {
        allNumbers := false;
      } else if allNumbers {
        ghost var before := dims;
        dims := dims + [f.value];
        forall k | 0 <= k < i
          ensures Some(dims[k]) == fields[k]
        {
          if k < i - 1 {
            assert dims[k] == before[k];
          }
        }
      }
      i := i + 1;
    }
    if ct.None? || !allNumbers {
      return Err(BadDescription);
    }
    assert dims == seq(NUMDIMS, k requires 0 <= k < NUMDIMS => fields[k].value);
    r := Ok(Unit(name, ct.value, dims, Some(ScaleField(parts)), OffsetField(parts), isMaster));
  }

  /** Seven integer fields give those exponents. */
  lemma {:induction false} BaseUnitOfFields(name: string, isMaster: bool, ct: int, dims: seq<int>, parts: seq<string>)
    requires IsDims(dims)
    requires forall k :: 0 <= k < NUMDIMS ==> Field(parts, k + 1) == Some(dims[k])
    ensures BaseUnit(name, isMaster, Some(ct), parts) == Ok(Unit(name, ct, dims, Some(ScaleField(parts)), OffsetField(parts), isMaster))
  {
    var fields := ExponentFields(parts);
    assert forall k :: 0 <= k < NUMDIMS ==> fields[k] == Some(dims[k]);
    assert seq(NUMDIMS, k requires 0 <= k < NUMDIMS => fields[k].value) == dims;
  }

  /** The fields of a base description `ct e1 ... e7` followed by `extra`. */
  lemma {:induction false} DescriptionFields(ct: int, dims: seq<int>)
    requires IsDims(dims)
    ensures Split(IntToString(ct) + " " + DimensionString(dims), ' ') == [IntToString(ct)] + IntStrings(dims)
  {
    var c := IntToString(ct);
    assert ' ' !in c;
    SplitNoSep(c, ' ');
    var parts := IntStrings(dims);
    assert forall k :: 0 <= k < |parts| ==> ' ' !in parts[k];
    SplitJoin(parts, ' ');
    SplitConcat(c, DimensionString(dims), ' ');
  }

  lemma {:induction false} BaseFields(units: UnitTable, name: string, isMaster: bool, ct: int, dims: seq<int>, parts: seq<string>)
    requires WellFormed(units) && IsDims(dims) && |parts| > NUMDIMS
    requires ct != COMPOUND && !HasOperator(name)
    requires parts[..NUMDIMS + 1] == [IntToString(ct)] + IntStrings(dims)
    ensures ParseInt(parts[0]) == Some(ct)
    ensures BaseUnit(name, isMaster, Some(ct), parts) == Ok(Unit(name, ct, dims, Some(ScaleField(parts)), OffsetField(parts), isMaster))
  {
    assert parts[0] == parts[..NUMDIMS + 1][0];
    IntToStringRoundTrip(ct);
    forall k | 0 <= k < NUMDIMS ensures Field(parts, k + 1) == Some(dims[k]) {
      assert parts[k + 1] == parts[..NUMDIMS + 1][k + 1] == IntToString(dims[k]);
      IntToStringRoundTrip(dims[k]);
    }
    BaseUnitOfFields(name, isMaster, ct, dims, parts);
  }

  /** A base description with the calc type and the dimension string alone
    * gives that unit with scale 1 and offset 0. */
  lemma {:induction false} BaseDescription(units: UnitTable, name: string, isMaster: bool, ct: int, dims: seq<int>)
    requires WellFormed(units) && IsDims(dims)
    requires ct != COMPOUND && !HasOperator(name)
    ensures UnitFromDescription(units, name, isMaster, IntToString(ct) + " " + DimensionString(dims))
            == Ok(Unit(name, ct, dims, Some("1"), "0", isMaster))
  {
    var parts := Split(IntToString(ct) + " " + DimensionString(dims), ' ');
    DescriptionFields(ct, dims);
    assert |parts| == NUMDIMS + 1;
    assert parts[..NUMDIMS + 1] == parts;
    BaseFields(units, name, isMaster, ct, dims, parts);
  }

  /** Scale and offset given after the exponents are kept. */
  lemma {:induction false} ScaledDescription(units: UnitTable, name: string, isMaster: bool, ct: int, dims: seq<int>,
                                             scale: string, offset: string)
    requires WellFormed(units) && IsDims(dims)
    requires ct != COMPOUND && !HasOperator(name)
    requires ' ' !in scale && ' ' !in offset
    ensures UnitFromDescription(units, name, isMaster, IntToString(ct) + " " + DimensionString(dims) + " " + scale + " " + offset)
            == Ok(Unit(name, ct, dims, Some(scale), offset, isMaster))
  {
    var head := [IntToString(ct)] + IntStrings(dims);
    ScaledFields(ct, dims, scale, offset);
    var parts := Split(IntToString(ct) + " " + DimensionString(dims) + " " + scale + " " + offset, ' ');
    assert |parts| == NUMDIMS + 3;
    assert parts[..NUMDIMS + 1] == head;
    assert ScaleField(parts) == scale && OffsetField(parts) == offset;
    BaseFields(units, name, isMaster, ct, dims, parts);
  }

  /** The fields of a base description followed by a scale and an offset. */
  lemma {:induction false} ScaledFields(ct: int, dims: seq<int>, scale: string, offset: string)
    requires IsDims(dims)
    requires ' ' !in scale && ' ' !in offset
    ensures Split(IntToString(ct) + " " + DimensionString(dims) + " " + scale + " " + offset, ' ')
            == [IntToString(ct)] + IntStrings(dims) + [scale] + [offset]
  {
    var base := IntToString(ct) + " " + DimensionString(dims);
    DescriptionFields(ct, dims);
    SplitNoSep(scale, ' ');
    SplitNoSep(offset, ' ');
    SplitConcat(base, scale, ' ');
    SplitConcat(base + " " + scale, offset, ' ');
  }

  /** A base unit may not carry an operator in its name; this is the only way
    * to get `operatorInBase`. */
  lemma {:induction false} OperatorInBaseIff(units: UnitTable, name: string, isMaster: bool, description: string)
    requires WellFormed(units)
    ensures UnitFromDescription(units, name, isMaster, description) == Err(OperatorInBase)
            <==> ParseInt(Split(description, ' ')[0]) != Some(COMPOUND) && HasOperator(name)
  {
    OperatorInBaseDistinct();
    var ct := ParseInt(Split(description, ' ')[0]);
    if ct == Some(COMPOUND) {
      var c := CompoundUnit(units, name, isMaster);
      assert c.Err? ==> c.error != OperatorInBase;
    } else if !HasOperator(name) {
      var b := BaseUnit(name, isMaster, ct, Split(description, ' '));
      assert b.Err? ==> b.error != OperatorInBase;
    }
  }

  /** `operatorInBase` is none of the other messages of `initWithDescription`. */
  lemma OperatorInBaseDistinct()
    ensures OperatorInBase !in {NoOpInCompound, UnitParseError, SlashError, DefinitionInvalid, ExponentZero, BadDescription}
  {
    assert OperatorInBase[6] == 'o';
    assert NoOpInCompound[6] == 'n' && BadDescription[6] == 'b';
    assert UnitParseError[6] == SlashError[6] == DefinitionInvalid[6] == ExponentZero[6] == 'u';
  }

  /** The compound unit `name^e`, e >= 1, has e times the exponents of `name`. */
  lemma {:induction false} CompoundPowerUnit(units: UnitTable, name: string, e: nat, isMaster: bool)
    requires WellFormed(units)
    requires '^' !in name && '-' !in name && '/' !in name && name != []
    requires Lower(name) in units && units[Lower(name)].calcType in {COMPOUND, SCALE}
    requires e >= 1
    ensures UnitFromDescription(units, name + "^" + IntToString(e), isMaster, "0")
            == Ok(Unit(name + "^" + IntToString(e), COMPOUND, DimScale(units[Lower(name)].dims, e), None, "0", isMaster))
  {
    var n := name + "^" + IntToString(e);
    assert n[|name|] == '^';
    SplitNoSep("0", ' ');
    IntToStringRoundTrip(0);
    assert IntToString(0) == "0";
    DefinitionOfPower(units, name, e);
  }
}
