/** The units container of the unit system: every unit by lower-case name, and
  * the units of each dimension string in the order they were added. */
module UnitRegistry {
  import opened Wrappers
  import opened Strs
  import opened UnitDims
  import opened Units

  /** Units by dimension string (`dimensionsDictionary`). */
  type DimensionIndex = map<string, seq<Unit>>

  /** The container's consistency: every unit is filed under its lower-case name
    * and listed under its dimension string, and every listed unit is the one
    * filed under its name. */
  ghost predicate Consistent(units: UnitTable, index: DimensionIndex)
  {
    WellFormed(units) && FiledByName(units) && Listed(units, index) && Filed(units, index)
  }

  ghost predicate FiledByName(units: UnitTable)
  {
    forall k :: k in units ==> Lower(units[k].name) == k
  }

  /** Every unit is listed under its dimension string. */
  ghost predicate Listed(units: UnitTable, index: DimensionIndex)
  {
    forall k :: k in units ==> DimensionString(units[k].dims) in index
                               && units[k] in index[DimensionString(units[k].dims)]
  }

  /** Every listed unit is filed under its name and has that dimension string. */
  ghost predicate Filed(units: UnitTable, index: DimensionIndex)
  {
    forall ds, u :: ds in index && u in index[ds] ==>
      Lower(u.name) in units && units[Lower(u.name)] == u && DimensionString(u.dims) == ds
  }

  /** `registerDimensionsOfUnit`: the unit is appended to its dimension string's list. */
  function Register(index: DimensionIndex, u: Unit): (r: DimensionIndex)
    ensures r.Keys == index.Keys + {DimensionString(u.dims)}
    ensures r[DimensionString(u.dims)] == (if DimensionString(u.dims) in index then index[DimensionString(u.dims)] else []) + [u]
    ensures forall ds :: ds in index && ds != DimensionString(u.dims) ==> r[ds] == index[ds]
  {
    var ds := DimensionString(u.dims);
    index[ds := (if ds in index then index[ds] else []) + [u]]
  }

  /** `childNamed(name)`: names are matched without regard to case. */
  function Lookup(units: UnitTable, name: string): (r: Option<Unit>)
    ensures r.Some? <==> Lower(name) in units
    ensures r.Some? ==> r.value == units[Lower(name)]
  {
    if Lower(name) in units then Some(units[Lower(name)]) else None
  }

  /** What `addUnit(name, description, isMaster)` returns or throws. */
  function AddResult(units: UnitTable, name: string, isMaster: bool, description: string): (r: Result<Unit>)
    requires WellFormed(units)
    ensures r == Err(DuplicateUnit) <==> Lower(name) in units
    ensures r.Ok? ==> Lower(name) !in units && r.value.name == name && r.value.isMaster == isMaster && IsDims(r.value.dims)
  {
    if Lower(name) in units then Err(DuplicateUnit)
    else UnitFromDescription(units, name, isMaster, description)
  }

  /** The table after `addUnit`, with a failed call leaving it as it was. */
  function UnitsAfterAdd(units: UnitTable, name: string, isMaster: bool, description: string): (r: UnitTable)
    requires WellFormed(units)
    ensures WellFormed(r)
  {
    match AddResult(units, name, isMaster, description)
    case Ok(u) => units[Lower(name) := u]
    case Err(_) => units
  }

  /** The half-built unit that the engine has already filed when
    * `initWithDescription` throws: its flag and calc type are set (NaN is
    * written -1), its exponents are not. */
  function Stub(name: string, isMaster: bool, description: string): (r: Unit)
    ensures r.dims == []
    ensures r.name == name && r.isMaster == isMaster
  {
    var ct := ParseInt(Split(description, ' ')[0]);
    Unit(name, if ct.Some? then ct.value else -1, [], Some("1"), "0", isMaster)
  }

  /** The table after `addUnit` as the engine has it: the `MMUnit` constructor
    * files the new unit before it is initialised, so a failed initialisation
    * leaves the stub in the table. */
  function UnitsAfterAddAsWritten(units: UnitTable, name: string, isMaster: bool, description: string): (r: UnitTable)
    requires WellFormed(units)
    ensures Lower(name) in r
  {
    if Lower(name) in units then units
    else
      match UnitFromDescription(units, name, isMaster, description)
      case Ok(u) => units[Lower(name) := u]
      case Err(_) => units[Lower(name) := Stub(name, isMaster, description)]
  }

  /** `addUnit` throws `duplicateUnit` exactly when the name is taken, whatever its case. */
  lemma DuplicateIff(units: UnitTable, name: string, isMaster: bool, description: string)
    requires WellFormed(units)
    ensures AddResult(units, name, isMaster, description) == Err(DuplicateUnit) <==> Lookup(units, name).Some?
  {
  }

  /** A successful `addUnit` files the new unit under its name and changes no
    * other name; a failed one changes nothing. */
  lemma {:induction false} AddThenLookup(units: UnitTable, name: string, isMaster: bool, description: string, other: string)
    requires WellFormed(units)
    ensures AddResult(units, name, isMaster, description).Ok? ==>
              Lookup(UnitsAfterAdd(units, name, isMaster, description), name) == Some(AddResult(units, name, isMaster, description).value)
    ensures Lower(other) != Lower(name) ==>
              Lookup(UnitsAfterAdd(units, name, isMaster, description), other) == Lookup(units, other)
    ensures AddResult(units, name, isMaster, description).Err? ==> UnitsAfterAdd(units, name, isMaster, description) == units
  {
  }

  /** Adding a unit keeps the container consistent. */
  lemma {:induction false} AddKeepsConsistent(units: UnitTable, index: DimensionIndex, name: string, isMaster: bool, description: string)
    requires Consistent(units, index)
    ensures AddResult(units, name, isMaster, description).Ok? ==>
              Consistent(UnitsAfterAdd(units, name, isMaster, description),
                         Register(index, AddResult(units, name, isMaster, description).value))
  {
    var r := AddResult(units, name, isMaster, description);
    if r.Ok? {
      assert Lower(name) !in units;
      InsertKeepsConsistent(units, index, r.value);
    }
  }

  /** Filing a new unit under its own lower-case name and registering its
    * dimensions keeps the container consistent. */
  lemma {:induction false} InsertKeepsConsistent(units: UnitTable, index: DimensionIndex, u: Unit)
    requires Consistent(units, index) && IsDims(u.dims) && Lower(u.name) !in units
    ensures Consistent(units[Lower(u.name) := u], Register(index, u))
  {
    InsertListsEveryUnit(units, index, u);
    InsertFilesEveryListed(units, index, u);
    assert FiledByName(units[Lower(u.name) := u]);
  }

  lemma {:induction false} InsertListsEveryUnit(units: UnitTable, index: DimensionIndex, u: Unit)
    requires Consistent(units, index) && Lower(u.name) !in units
    ensures Listed(units[Lower(u.name) := u], Register(index, u))
  {
    var lc := Lower(u.name);
    var units' := units[lc := u];
    var index' := Register(index, u);
    var ds := DimensionString(u.dims);
    forall k | k in units'
      ensures DimensionString(units'[k].dims) in index' && units'[k] in index'[DimensionString(units'[k].dims)]
    {
      if k != lc {
        var dk := DimensionString(units[k].dims);
        if dk == ds {
          assert index'[dk] == index[dk] + [u];
        }
      } else {
        assert index'[ds][|index'[ds]| - 1] == u;
      }
    }
  }

  lemma {:induction false} InsertFilesEveryListed(units: UnitTable, index: DimensionIndex, u: Unit)
    requires Consistent(units, index) && Lower(u.name) !in units
    ensures Filed(units[Lower(u.name) := u], Register(index, u))
  {
    var lc := Lower(u.name);
    var units' := units[lc := u];
    var index' := Register(index, u);
    var ds := DimensionString(u.dims);
    forall d, v: Unit | d in index' && v in index'[d]
      ensures Lower(v.name) in units' && units'[Lower(v.name)] == v && DimensionString(v.dims) == d
    {
      if d == ds {
        var old_ := if ds in index then index[ds] else [];
        assert index'[d] == old_ + [u];
        if v != u {
          assert v in old_;
        }
      }
      if v != u {
        assert v in index[d];
        assert Lower(v.name) != lc;
      }
    }
  }

  /** A compound name one of whose denominator factors is not a unit cannot
    * be built: `parseDefinition` returns false and `unitParseError` is thrown. */
  lemma {:induction false} UnknownFactorFails(units: UnitTable, a: string, b: string, isMaster: bool)
    requires WellFormed(units)
    requires '/' !in a && '/' !in b && '-' !in b && '^' !in b && b != [] && b != "1"
    requires Lower(b) !in units
    ensures UnitFromDescription(units, a + "/" + b, isMaster, "0") == Err(UnitParseError)
  {
    var name := a + "/" + b;
    assert name[|a|] == '/';
    SplitNoSep("0", ' ');
    assert ParseUnsigned("0") == Some(0);
    ParseDigits("0", 0);
    DefinitionOfQuotient(units, a, b);
    SplitNoSep(b, '^');
    SingleTokenParts(units, b);
    assert TokenPart(units, b) == Err(TypeErrorThrown);
  }

  /** A new name whose description throws: `addUnit` throws that error and
    * the table is unchanged, while the engine as written leaves the stub
    * filed under the name, which breaks the table's well-formedness. */
  lemma FailedAddLeavesStub(units: UnitTable, name: string, isMaster: bool, description: string)
    requires WellFormed(units) && Lower(name) !in units
    requires UnitFromDescription(units, name, isMaster, description).Err?
    ensures AddResult(units, name, isMaster, description) == UnitFromDescription(units, name, isMaster, description)
    ensures UnitsAfterAdd(units, name, isMaster, description) == units
    ensures Lookup(UnitsAfterAddAsWritten(units, name, isMaster, description), name) == Some(Stub(name, isMaster, description))
    ensures !WellFormed(UnitsAfterAddAsWritten(units, name, isMaster, description))
  {
    var after := UnitsAfterAddAsWritten(units, name, isMaster, description);
    assert after[Lower(name)] in after.Values;
  }

  /** Adding a unit whose description throws leaves a stub behind: the name is
    * taken, so a second attempt is refused, and the table is no longer well
    * formed. */
  lemma FailedAddCounterexample()
    ensures var meter := Unit("m", SCALE, [1, 0, 0, 0, 0, 0, 0], Some("1"), "0", true);
            var units := map["m" := meter];
            WellFormed(units)
            && AddResult(units, "m/xyz", true, "0") == Err(UnitParseError)
            && UnitsAfterAdd(units, "m/xyz", true, "0") == units
            && Lookup(UnitsAfterAddAsWritten(units, "m/xyz", true, "0"), "m/xyz") == Some(Stub("m/xyz", true, "0"))
            && !WellFormed(UnitsAfterAddAsWritten(units, "m/xyz", true, "0"))
  {
    var meter := Unit("m", SCALE, [1, 0, 0, 0, 0, 0, 0], Some("1"), "0", true);
    var units := map["m" := meter];
    assert IsDims(meter.dims);
    assert Lower("xyz") == "xyz";
    assert Lower("m/xyz") == "m/xyz";
    assert "m" + "/" + "xyz" == "m/xyz";
    UnknownFactorFails(units, "m", "xyz", true);
    FailedAddLeavesStub(units, "m/xyz", true, "0");
  }

  /** `MMUnitsContainer`: the units and their dimension index. */
  class UnitsContainer {
    var units: UnitTable
    var dimensionsDictionary: DimensionIndex

    ghost predicate Valid()
      reads this
    {
      Consistent(units, dimensionsDictionary)
    }

    /** An empty container; the master units are data loaded afterwards. */
    constructor()
      ensures Valid() && units == map[] && dimensionsDictionary == map[]
    {
      units := map[];
      dimensionsDictionary := map[];
    }

    /** `childNamed(name)`. */
    function ChildNamed(name: string): (r: Option<Unit>)
      reads this
      ensures r == Lookup(units, name)
    {
      if Lower(name) in units then Some(units[Lower(name)]) else None
    }

    /** `addUnit(name, description, isMaster)`, leaving the container as it
      * was when the unit cannot be built. */
    method AddUnit(name: string, description: string, isMaster: bool) returns (r: Result<Unit>)
      requires Valid()
      modifies this
      ensures Valid()
      ensures r == AddResult(old(units), name, isMaster, description)
      ensures units == UnitsAfterAdd(old(units), name, isMaster, description)
      ensures dimensionsDictionary == (if r.Ok? then Register(old(dimensionsDictionary), r.value) else old(dimensionsDictionary))
    {
      var lc := Lower(name);
      if lc in units {
        return Err(DuplicateUnit);
      }
      r := InitWithDescription(units, name, isMaster, description);
      if r.Ok? {
        AddKeepsConsistent(units, dimensionsDictionary, name, isMaster, description);
        units := units[lc := r.value];
        dimensionsDictionary := Register(dimensionsDictionary, r.value);
      }
    }

    /** `addUnit` as the engine runs it: the unit is filed before it is
      * initialised and stays filed when initialisation throws. */
    method AddUnitAsWritten(name: string, description: string, isMaster: bool) returns (r: Result<Unit>)
      requires WellFormed(units)
      modifies this
      ensures r == AddResult(old(units), name, isMaster, description)
      ensures units == UnitsAfterAddAsWritten(old(units), name, isMaster, description)
      ensures dimensionsDictionary == (if r.Ok? then Register(old(dimensionsDictionary), r.value) else old(dimensionsDictionary))
    {
      var lc := Lower(name);
      if lc in units {
        return Err(DuplicateUnit);
      }
      r := InitWithDescription(units, name, isMaster, description);
      assert r == AddResult(units, name, isMaster, description);
      if r.Ok? {
        assert UnitsAfterAddAsWritten(units, name, isMaster, description) == units[lc := r.value];
        units := units[lc := r.value];
        dimensionsDictionary := Register(dimensionsDictionary, r.value);
      } else {
        assert UnitsAfterAddAsWritten(units, name, isMaster, description) == units[lc := Stub(name, isMaster, description)];
        units := units[lc := Stub(name, isMaster, description)];
      }
    }

    /** `unitNamed(name)`: a known unit, or a compound unit built on demand.
      * (The engine's check of each part against NaN compares with `==` and
      * never holds, so every unknown name goes to `addUnit`.) */
    method UnitNamed(name: string) returns (r: Result<Option<Unit>>)
      requires Valid()
      modifies this
      ensures Valid()
      ensures name == [] ==> r == Ok(None) && units == old(units) && dimensionsDictionary == old(dimensionsDictionary)
      ensures name != [] && Lower(name) in old(units) ==>
                r == Ok(Some(old(units)[Lower(name)])) && units == old(units) && dimensionsDictionary == old(dimensionsDictionary)
      ensures name != [] && Lower(name) !in old(units) ==>
                var added := AddResult(old(units), name, true, "0");
                && units == UnitsAfterAdd(old(units), name, true, "0")
                && dimensionsDictionary == (if added.Ok? then Register(old(dimensionsDictionary), added.value) else old(dimensionsDictionary))
                && r == (match added
                         case Ok(u) => Ok(Some(u))
                         case Err(e) => Err(e))
    {
      if name == [] {
        return Ok(None);
      }
      var found := ChildNamed(name);
      if found.Some? {
        return Ok(found);
      }
      var added := AddUnit(name, "0", true);
      if added.Err? {
        return Err(added.error);
      }
      return Ok(Some(added.value));
    }
  }
}
