/** Unit sets: for each type of quantity (Length, Pressure, ...) the unit a set
  * displays it in. A set keeps three dictionaries that must agree: dimension
  * string to unit, dimension string to type name, and lower-case type name to
  * dimension string. */
module UnitSets {
  import opened Wrappers
  import opened Strs
  import opened UnitDims
  import opened Units

  const DuplicateDimensions := "mmcmd:unitSetDuplicateDimensions"
  const DuplicateTypeName := "mmcmd:duplicateUnitTypeName"
  const UnknownTypeName := "mmcmd:unitUnknownTypeName"
  const UnknownType := "Unknown type"

  /** The three dictionaries of a unit set. */
  datatype TypeTables = TypeTables(units: map<string, Unit>, types: map<string, string>, dims: map<string, string>)

  /** A dictionary entry the engine treats as present: JavaScript tests the value
    * for truth, so an empty string counts as missing. */
  function Present(m: map<string, string>, k: string): (r: Option<string>)
    ensures r.Some? <==> k in m && m[k] != ""
    ensures r.Some? ==> r.value == m[k]
  {
    if k in m && m[k] != "" then Some(m[k]) else None
  }

  /** The dictionaries agree: types and dimension strings are mutually inverse
    * (through lower-case type names), every typed dimension string has its unit,
    * and every unit has the dimensions it is filed under. */
  ghost predicate ValidTables(t: TypeTables)
  {
    t.units.Keys == t.types.Keys && TypesIndexed(t) && NamesIndexed(t) && UnitsMatch(t)
  }

  /** Every dimension string's type name leads back to it. */
  ghost predicate TypesIndexed(t: TypeTables)
  {
    forall ds :: ds in t.types ==>
      ds != "" && t.types[ds] != "" && Lower(t.types[ds]) in t.dims && t.dims[Lower(t.types[ds])] == ds
  }

  /** Every lower-case type name's dimension string leads back to it. */
  ghost predicate NamesIndexed(t: TypeTables)
  {
    forall lc :: lc in t.dims ==> t.dims[lc] in t.types && Lower(t.types[t.dims[lc]]) == lc
  }

  /** Every unit is filed under its own dimension string. */
  ghost predicate UnitsMatch(t: TypeTables)
  {
    forall ds :: ds in t.units ==> IsDims(t.units[ds].dims) && DimensionString(t.units[ds].dims) == ds
  }

  /** `setUnitForTypeNamed(unit, typeName)`: the type's previous dimensions are
    * dropped and the unit files under its own; dimensions owned by a type of
    * another name throw. */
  function WithUnitForType(t: TypeTables, unit: Unit, typeName: string): (r: Result<TypeTables>)
  {
    var ds := DimensionString(unit.dims);
    var lc := Lower(typeName);
    var oldType := Present(t.types, ds);
    var oldDs := Present(t.dims, lc);
    if oldType.Some? && oldType.value != typeName then Err(DuplicateDimensions)
    else
      var units := if oldDs.Some? then t.units - {oldDs.value} else t.units;
      var types := if oldDs.Some? then t.types - {oldDs.value} else t.types;
      Ok(TypeTables(units[ds := unit], types[ds := typeName], t.dims[lc := ds]))
  }

  /** `renameType(fromName, toName)`: `false` when the names are equal; throws
    * when the new name is taken (in any case) or the old one is unknown. */
  function RenameIn(t: TypeTables, fromName: string, toName: string): (r: Result<(TypeTables, bool)>)
  {
    var lcFrom := Lower(fromName);
    var lcTo := Lower(toName);
    if toName == fromName then Ok((t, false))
    else if Present(t.dims, lcTo).Some? then Err(DuplicateTypeName)
    else if Present(t.dims, lcFrom).None? then Err(UnknownTypeName)
    else
      var ds := t.dims[lcFrom];
      Ok((TypeTables(t.units, t.types[ds := toName], t.dims[lcTo := ds] - {lcFrom}), true))
  }

  /** `removeType(name)`: the type leaves all three dictionaries; the unit it
    * had (if any) is returned for the undo command. */
  function RemoveFrom(t: TypeTables, name: string): (r: Result<(TypeTables, Option<Unit>)>)
  {
    var lc := Lower(name);
    match Present(t.dims, lc)
    case None => Err(UnknownTypeName)
    case Some(ds) =>
      Ok((TypeTables(t.units - {ds}, t.types - {ds}, t.dims - {lc}),
          if ds in t.units then Some(t.units[ds]) else None))
  }

  /** `unitForDimensions(dimensions)`. */
  function UnitForDimensions(t: TypeTables, dims: seq<int>): (r: Option<Unit>)
    ensures r.Some? ==> DimensionString(dims) in t.units && r.value == t.units[DimensionString(dims)]
  {
    var ds := DimensionString(dims);
    if ds != "" && ds in t.units then Some(t.units[ds]) else None
  }

  /** `typeNameForDimensions(dimensions)`: `Unknown type` when no type has them. */
  function TypeNameForDimensions(t: TypeTables, dims: seq<int>): (r: string)
    ensures r == UnknownType || (DimensionString(dims) in t.types && r == t.types[DimensionString(dims)])
  {
    var ds := DimensionString(dims);
    if ds != "" && Present(t.types, ds).Some? then t.types[ds] else UnknownType
  }

  /** `dimensionStringForTypeName(typeName)`, case-insensitive. */
  function DimensionStringForTypeName(t: TypeTables, typeName: string): (r: Option<string>)
    ensures r.Some? <==> Lower(typeName) in t.dims
  {
    if Lower(typeName) in t.dims then Some(t.dims[Lower(typeName)]) else None
  }

  /** `unitNameForType(typeName)`: the name of the type's unit, or `unitUnknownTypeName`. */
  function UnitNameForType(t: TypeTables, typeName: string): (r: Result<string>)
    ensures Present(t.dims, Lower(typeName)).None? ==> r == Err(UnknownTypeName)
    ensures r.Ok? ==> Lower(typeName) in t.dims && t.dims[Lower(typeName)] in t.units
                      && r.value == t.units[t.dims[Lower(typeName)]].name
  {
    match Present(t.dims, Lower(typeName))
    case None => Err(UnknownTypeName)
    case Some(ds) => if ds in t.units then Ok(t.units[ds].name) else Err(TypeErrorThrown)
  }

  /** In consistent dictionaries every known type has a unit. */
  lemma UnitNameForKnownType(t: TypeTables, typeName: string)
    requires ValidTables(t)
    ensures UnitNameForType(t, typeName).Err? <==> Present(t.dims, Lower(typeName)).None?
  {
  }

  /** `allTypeNames`: the type names of the set (their order is not modelled). */
  function AllTypeNames(t: TypeTables): (r: set<string>)
    requires ValidTables(t)
    ensures forall n :: n in r ==> DimensionStringForTypeName(t, n).Some?
  {
    t.types.Values
  }

  // ----- setUnitForTypeNamed -----

  /** The call throws exactly when another type owns the unit's dimensions. */
  lemma SetErrorIff(t: TypeTables, unit: Unit, typeName: string)
    ensures WithUnitForType(t, unit, typeName).Err? <==>
              (DimensionString(unit.dims) in t.types && t.types[DimensionString(unit.dims)] != ""
               && t.types[DimensionString(unit.dims)] != typeName)
  {
  }

  /** After the call the type, its unit and its dimensions look each other up. */
  lemma {:induction false} SetThenLookup(t: TypeTables, unit: Unit, typeName: string)
    requires IsDims(unit.dims) && typeName != ""
    requires WithUnitForType(t, unit, typeName).Ok?
    ensures var t' := WithUnitForType(t, unit, typeName).value;
            TypeNameForDimensions(t', unit.dims) == typeName
            && UnitForDimensions(t', unit.dims) == Some(unit)
            && DimensionStringForTypeName(t', typeName) == Some(DimensionString(unit.dims))
            && UnitNameForType(t', typeName) == Ok(unit.name)
  {
    var ds := DimensionString(unit.dims);
    var lc := Lower(typeName);
    var t' := WithUnitForType(t, unit, typeName).value;
    assert ds != "";
    assert t'.types[ds] == typeName && t'.units[ds] == unit && t'.dims[lc] == ds;
    assert Present(t'.types, ds) == Some(typeName);
    assert Present(t'.dims, lc) == Some(ds);
  }

  /** Setting a unit keeps the three dictionaries consistent. */
  lemma {:induction false} SetKeepsValid(t: TypeTables, unit: Unit, typeName: string)
    requires ValidTables(t) && IsDims(unit.dims) && typeName != ""
    ensures WithUnitForType(t, unit, typeName).Ok? ==> ValidTables(WithUnitForType(t, unit, typeName).value)
  {
    if WithUnitForType(t, unit, typeName).Ok? {
      SetTypesIndexed(t, unit, typeName);
      SetNamesIndexed(t, unit, typeName);
      SetUnitsMatch(t, unit, typeName);
    }
  }

  lemma {:induction false} SetUnitsMatch(t: TypeTables, unit: Unit, typeName: string)
    requires ValidTables(t) && IsDims(unit.dims)
    requires WithUnitForType(t, unit, typeName).Ok?
    ensures var t' := WithUnitForType(t, unit, typeName).value;
            t'.units.Keys == t'.types.Keys && UnitsMatch(t')
  {
  }

  lemma {:induction false} SetTypesIndexed(t: TypeTables, unit: Unit, typeName: string)
    requires ValidTables(t) && IsDims(unit.dims) && typeName != ""
    requires WithUnitForType(t, unit, typeName).Ok?
    ensures TypesIndexed(WithUnitForType(t, unit, typeName).value)
  {
    var ds := DimensionString(unit.dims);
    var lc := Lower(typeName);
    var oldDs := Present(t.dims, lc);
    var t' := WithUnitForType(t, unit, typeName).value;
    assert ds != "";
    forall d | d in t'.types
      ensures d != "" && t'.types[d] != "" && Lower(t'.types[d]) in t'.dims && t'.dims[Lower(t'.types[d])] == d
    {
      if d != ds {
        assert d in t.types && (oldDs.None? || d != oldDs.value);
        assert Lower(t.types[d]) != lc;
      }
    }
  }

  lemma {:induction false} SetNamesIndexed(t: TypeTables, unit: Unit, typeName: string)
    requires ValidTables(t) && IsDims(unit.dims) && typeName != ""
    requires WithUnitForType(t, unit, typeName).Ok?
    ensures NamesIndexed(WithUnitForType(t, unit, typeName).value)
  {
    var ds := DimensionString(unit.dims);
    var lc := Lower(typeName);
    var oldDs := Present(t.dims, lc);
    var t' := WithUnitForType(t, unit, typeName).value;
    forall l | l in t'.dims
      ensures t'.dims[l] in t'.types && Lower(t'.types[t'.dims[l]]) == l
    {
      if l != lc {
        var d := t.dims[l];
        assert d in t.types && Lower(t.types[d]) == l;
        if oldDs.Some? {
          assert d != oldDs.value;
        }
        assert d != ds;
      }
    }
  }

  /** Giving a new type a unit and then removing the type restores the set. */
  lemma {:induction false} SetThenRemoveRestores(t: TypeTables, unit: Unit, typeName: string)
    requires ValidTables(t) && IsDims(unit.dims) && typeName != ""
    requires Lower(typeName) !in t.dims && DimensionString(unit.dims) !in t.types
    ensures WithUnitForType(t, unit, typeName).Ok?
    ensures RemoveFrom(WithUnitForType(t, unit, typeName).value, typeName) == Ok((t, Some(unit)))
  {
    var ds := DimensionString(unit.dims);
    var lc := Lower(typeName);
    assert ds != "";
    assert ds !in t.units;
    var t' := WithUnitForType(t, unit, typeName).value;
    assert t'.units - {ds} == t.units;
    assert t'.types - {ds} == t.types;
    assert t'.dims - {lc} == t.dims;
  }

  // ----- renameType -----

  /** The call throws `duplicateUnitTypeName` exactly when the names differ and
    * the new one is taken, and `unitUnknownTypeName` exactly when the names
    * differ, the new one is free and the old one is unknown. */
  lemma RenameErrors(t: TypeTables, fromName: string, toName: string)
    ensures RenameIn(t, fromName, toName) == Err(DuplicateTypeName) <==>
              toName != fromName && Present(t.dims, Lower(toName)).Some?
    ensures RenameIn(t, fromName, toName) == Err(UnknownTypeName) <==>
              toName != fromName && Present(t.dims, Lower(toName)).None? && Present(t.dims, Lower(fromName)).None?
  {
  }

  /** A rename keeps the dictionaries consistent, moves the dimensions to the
    * new name and forgets the old one. */
  lemma {:induction false} RenameKeepsValid(t: TypeTables, fromName: string, toName: string)
    requires ValidTables(t) && toName != ""
    requires RenameIn(t, fromName, toName).Ok?
    ensures var (t', renamed) := RenameIn(t, fromName, toName).value;
            ValidTables(t')
            && (renamed ==> DimensionStringForTypeName(t', toName) == DimensionStringForTypeName(t, fromName)
                            && DimensionStringForTypeName(t', fromName).None?
                            && t'.units == t.units)
            && (!renamed ==> t' == t)
  {
    if toName == fromName {
      assert RenameIn(t, fromName, toName) == Ok((t, false));
    } else {
      var lcFrom, lcTo := Lower(fromName), Lower(toName);
      var ds := t.dims[lcFrom];
      var t' := TypeTables(t.units, t.types[ds := toName], t.dims[lcTo := ds] - {lcFrom});
      assert RenameIn(t, fromName, toName) == Ok((t', true));
      assert lcTo !in t.dims && lcTo != lcFrom;
      RenamedTypesIndexed(t, ds, lcFrom, toName);
      RenamedNamesIndexed(t, ds, lcFrom, toName);
      assert t'.units.Keys == t'.types.Keys;
      assert DimensionStringForTypeName(t', toName) == Some(ds);
    }
  }

  /** After a rename, every dimension string's type name still leads back to it. */
  lemma RenamedTypesIndexed(t: TypeTables, ds: string, lcFrom: string, toName: string)
    requires ValidTables(t) && toName != "" && lcFrom in t.dims && t.dims[lcFrom] == ds
    requires Lower(toName) !in t.dims
    ensures TypesIndexed(TypeTables(t.units, t.types[ds := toName], t.dims[Lower(toName) := ds] - {lcFrom}))
  {
    var lcTo := Lower(toName);
    var t' := TypeTables(t.units, t.types[ds := toName], t.dims[lcTo := ds] - {lcFrom});
    forall d | d in t'.types
      ensures d != "" && t'.types[d] != "" && Lower(t'.types[d]) in t'.dims && t'.dims[Lower(t'.types[d])] == d
    {
      if d != ds {
        assert Lower(t.types[d]) != lcFrom;
        assert Lower(t.types[d]) != lcTo;
      }
    }
  }

  /** After a rename, every type name's dimension string still leads back to it. */
  lemma RenamedNamesIndexed(t: TypeTables, ds: string, lcFrom: string, toName: string)
    requires ValidTables(t) && toName != "" && lcFrom in t.dims && t.dims[lcFrom] == ds
    requires Lower(toName) !in t.dims
    ensures NamesIndexed(TypeTables(t.units, t.types[ds := toName], t.dims[Lower(toName) := ds] - {lcFrom}))
  {
    var lcTo := Lower(toName);
    var t' := TypeTables(t.units, t.types[ds := toName], t.dims[lcTo := ds] - {lcFrom});
    forall l | l in t'.dims
      ensures t'.dims[l] in t'.types && Lower(t'.types[t'.dims[l]]) == l
    {
      if l != lcTo {
        assert t.dims[l] != ds;
      }
    }
  }

  /** Renaming back undoes a rename when the old name was the type's own spelling. */
  lemma {:induction false} RenameUndo(t: TypeTables, fromName: string, toName: string)
    requires ValidTables(t) && toName != ""
    requires Lower(fromName) in t.dims && t.types[t.dims[Lower(fromName)]] == fromName
    requires RenameIn(t, fromName, toName).Ok? && RenameIn(t, fromName, toName).value.1
    ensures RenameIn(RenameIn(t, fromName, toName).value.0, toName, fromName) == Ok((t, true))
  {
    var lcFrom := Lower(fromName);
    var lcTo := Lower(toName);
    var ds := t.dims[lcFrom];
    var t' := RenameIn(t, fromName, toName).value.0;
    assert lcTo != lcFrom;
    assert lcTo !in t.dims;
    assert t' == TypeTables(t.units, t.types[ds := toName], t.dims[lcTo := ds] - {lcFrom});
    MoveKeyBack(t.dims, lcFrom, lcTo);
    UpdateBack(t.types, ds, toName);
    assert t'.dims[lcTo] == ds && ds != "";
    assert Present(t'.dims, lcFrom).None?;
    assert RenameIn(t', toName, fromName)
           == Ok((TypeTables(t.units, t.types[ds := toName][ds := fromName], (t.dims[lcTo := ds] - {lcFrom})[lcFrom := ds] - {lcTo}), true));
  }

  /** Moving a key's entry to a fresh key and back restores the map. */
  lemma MoveKeyBack(m: map<string, string>, a: string, b: string)
    requires a in m && b !in m
    ensures (m[b := m[a]] - {a})[a := m[a]] - {b} == m
  {
  }

  /** Overwriting an entry and writing the old value back restores the map. */
  lemma UpdateBack(m: map<string, string>, k: string, v: string)
    requires k in m
    ensures m[k := v][k := m[k]] == m
  {
  }

  // ----- removeType -----

  /** The call throws exactly when the name is unknown, and afterwards neither
    * the name nor its dimensions are known. */
  lemma {:induction false} RemoveKeepsValid(t: TypeTables, name: string)
    requires ValidTables(t)
    ensures RemoveFrom(t, name).Err? <==> Present(t.dims, Lower(name)).None?
    ensures RemoveFrom(t, name).Ok? ==>
              var t' := RemoveFrom(t, name).value.0;
              var ds := t.dims[Lower(name)];
              ValidTables(t')
              && DimensionStringForTypeName(t', name).None?
              && ds !in t'.types && ds !in t'.units
              && RemoveFrom(t, name).value.1 == Some(t.units[ds])
  {
    if RemoveFrom(t, name).Ok? {
      RemoveTypesIndexed(t, name);
      RemoveNamesIndexed(t, name);
    }
  }

  lemma {:induction false} RemoveTypesIndexed(t: TypeTables, name: string)
    requires ValidTables(t) && RemoveFrom(t, name).Ok?
    ensures TypesIndexed(RemoveFrom(t, name).value.0)
  {
    var lc := Lower(name);
    var ds := t.dims[lc];
    var t' := TypeTables(t.units - {ds}, t.types - {ds}, t.dims - {lc});
    assert RemoveFrom(t, name).value.0 == t';
    forall d | d in t'.types
      ensures d != "" && t'.types[d] != "" && Lower(t'.types[d]) in t'.dims && t'.dims[Lower(t'.types[d])] == d
    {
      assert d in t.types && d != ds;
      assert t.dims[Lower(t.types[d])] == d;
      assert Lower(t.types[d]) != lc;
    }
  }

  lemma {:induction false} RemoveNamesIndexed(t: TypeTables, name: string)
    requires ValidTables(t) && RemoveFrom(t, name).Ok?
    ensures NamesIndexed(RemoveFrom(t, name).value.0)
  {
    var lc := Lower(name);
    var ds := t.dims[lc];
    var t' := RemoveFrom(t, name).value.0;
    forall l | l in t'.dims
      ensures t'.dims[l] in t'.types && Lower(t'.types[t'.dims[l]]) == l
    {
      assert t.dims[l] != ds;
    }
  }

  /** Once a type is removed, its dimensions have no type. */
  lemma {:induction false} RemoveThenUnknown(t: TypeTables, name: string, dims: seq<int>)
    requires ValidTables(t)
    requires RemoveFrom(t, name).Ok? && DimensionStringForTypeName(t, name) == Some(DimensionString(dims))
    ensures TypeNameForDimensions(RemoveFrom(t, name).value.0, dims) == UnknownType
    ensures UnitForDimensions(RemoveFrom(t, name).value.0, dims).None?
  {
    RemoveKeepsValid(t, name);
  }

  // ----- the unit set object -----

  /** `MMUnitSet`: a named set and its three dictionaries. */
  class UnitSet {
    const name: string
    const isMaster: bool
    var unitsDictionary: map<string, Unit>
    var typesDictionary: map<string, string>
    var dimensionsDictionary: map<string, string>

    function Tables(): TypeTables
      reads this
    {
      TypeTables(unitsDictionary, typesDictionary, dimensionsDictionary)
    }

    constructor(name: string, isMaster: bool)
      ensures this.name == name && this.isMaster == isMaster
      ensures Tables() == TypeTables(map[], map[], map[]) && ValidTables(Tables())
    {
      this.name := name;
      this.isMaster := isMaster;
      unitsDictionary := map[];
      typesDictionary := map[];
      dimensionsDictionary := map[];
    }

    /** `setUnitForTypeNamed(unit, typeName)`. */
    method SetUnitForTypeNamed(unit: Unit, typeName: string) returns (r: Result<()>)
      modifies this
      ensures r.Err? <==> WithUnitForType(old(Tables()), unit, typeName).Err?
      ensures r.Err? ==> r.error == DuplicateDimensions && Tables() == old(Tables())
      ensures r.Ok? ==> Tables() == WithUnitForType(old(Tables()), unit, typeName).value
    {
      var ds := DimensionString(unit.dims);
      var lcTypeName := Lower(typeName);
      var oldDimensionString := Present(dimensionsDictionary, lcTypeName);
      var oldTypeName := Present(typesDictionary, ds);
      if oldTypeName.Some? {
        if oldTypeName.value != typeName {
          return Err(DuplicateDimensions);
        }
        dimensionsDictionary := dimensionsDictionary[lcTypeName := ds];
        if oldDimensionString.Some? {
          unitsDictionary := unitsDictionary - {oldDimensionString.value};
          typesDictionary := typesDictionary - {oldDimensionString.value};
        }
        unitsDictionary := unitsDictionary[ds := unit];
        typesDictionary := typesDictionary[ds := typeName];
      } else {
        if oldDimensionString.Some? {
          unitsDictionary := unitsDictionary - {oldDimensionString.value};
          typesDictionary := typesDictionary - {oldDimensionString.value};
        }
        dimensionsDictionary := dimensionsDictionary[lcTypeName := ds];
        typesDictionary := typesDictionary[ds := typeName];
        unitsDictionary := unitsDictionary[ds := unit];
      }
      return Ok(());
    }

    /** `renameType(fromName, toName)`; the result is `command.results`. */
    method RenameType(fromName: string, toName: string) returns (r: Result<bool>)
      modifies this
      ensures RenameIn(old(Tables()), fromName, toName).Err? ==>
                r == Err(RenameIn(old(Tables()), fromName, toName).error) && Tables() == old(Tables())
      ensures RenameIn(old(Tables()), fromName, toName).Ok? ==>
                r == Ok(RenameIn(old(Tables()), fromName, toName).value.1)
                && Tables() == RenameIn(old(Tables()), fromName, toName).value.0
    {
      var lcFromName := Lower(fromName);
      var lcToName := Lower(toName);
      if toName == fromName {
        return Ok(false);
      }
      if Present(dimensionsDictionary, lcToName).Some? {
        return Err(DuplicateTypeName);
      }
      if Present(dimensionsDictionary, lcFromName).None? {
        return Err(UnknownTypeName);
      }
      var ds := dimensionsDictionary[lcFromName];
      typesDictionary := typesDictionary[ds := toName];
      dimensionsDictionary := dimensionsDictionary[lcToName := ds];
      dimensionsDictionary := dimensionsDictionary - {lcFromName};
      return Ok(true);
    }

    /** `removeType(name)`; the result is the type's unit, used for the undo command. */
    method RemoveType(name: string) returns (r: Result<Option<Unit>>)
      modifies this
      ensures RemoveFrom(old(Tables()), name).Err? ==> r == Err(UnknownTypeName) && Tables() == old(Tables())
      ensures RemoveFrom(old(Tables()), name).Ok? ==>
                r == Ok(RemoveFrom(old(Tables()), name).value.1)
                && Tables() == RemoveFrom(old(Tables()), name).value.0
    {
      var lcName := Lower(name);
      var ds := Present(dimensionsDictionary, lcName);
      if ds.None? {
        return Err(UnknownTypeName);
      }
      var definitionUnit := if ds.value in unitsDictionary then Some(unitsDictionary[ds.value]) else None;
      unitsDictionary := unitsDictionary - {ds.value};
      typesDictionary := typesDictionary - {ds.value};
      dimensionsDictionary := dimensionsDictionary - {lcName};
      return Ok(definitionUnit);
    }
  }

  // ----- the sets container -----

  const SetNotFound := "mmcmd:unitSetNotFound"
  const DuplicateUnitSet := "mmcmd:duplicateUnitSet"

  /** The name `cloneSet` tries with suffix i: `<original>_<i>`. */
  function CloneName(base: string, i: nat): (r: string)
    ensures |r| > |base|
  {
    base + "_" + NatToString(i)
  }

  /** Different suffixes give names that differ even without regard to case. */
  lemma {:induction false} CloneNameInjective(base: string, i: nat, j: nat)
    requires i != j
    ensures Lower(CloneName(base, i)) != Lower(CloneName(base, j))
  {
    var p := base + "_";
    LowerConcat(p, NatToString(i));
    LowerConcat(p, NatToString(j));
    DigitsLower(NatToString(i));
    DigitsLower(NatToString(j));
    if Lower(CloneName(base, i)) == Lower(CloneName(base, j)) {
      var a := Lower(CloneName(base, i));
      assert a[|p|..] == NatToString(i);
      assert Lower(CloneName(base, j))[|p|..] == NatToString(j);
      NatToStringInjective(i, j);
    }
  }

  lemma DigitsLower(s: string)
    requires forall k :: 0 <= k < |s| ==> IsDigit(s[k])
    ensures Lower(s) == s
  {
  }

  /** `name` is the first clone name not taken: suffixes 2, 3, ... before it
    * are all taken. */
  ghost predicate FirstFreeCloneName(taken: set<string>, base: string, name: string)
  {
    exists i: nat :: i >= 2 && name == CloneName(base, i) && Lower(name) !in taken
                     && forall j: nat :: 2 <= j < i ==> Lower(CloneName(base, j)) in taken
  }

  /** The set map after `removeSetNamed(name)`: only a non-master set is removed. */
  function SetsAfterRemove(sets: map<string, UnitSet>, name: string): (r: map<string, UnitSet>)
    ensures r.Keys <= sets.Keys
  {
    var lc := Lower(name);
    if lc in sets && !sets[lc].isMaster then sets - {lc} else sets
  }

  /** The default set after `removeSetNamed(name)` when removing it falls back
    * to the `SI` set. */
  function DefaultAfterRemove(sets: map<string, UnitSet>, defaultSet: Option<string>, name: string): (r: Option<string>)
    ensures defaultSet != Some(Lower(name)) ==> r == defaultSet
    ensures r != defaultSet ==> Lower(name) in sets && !sets[Lower(name)].isMaster && (r.Some? ==> r == Some("si") && "si" in sets)
  {
    var lc := Lower(name);
    if lc in sets && !sets[lc].isMaster && defaultSet == Some(lc) then
      (if "si" in sets && "si" != lc then Some("si") else None)
    else defaultSet
  }

  /** The default set after `removeSetNamed(name)` as the engine has it: it
    * reads `childNamed['SI']`, a property of the method, which is undefined. */
  function DefaultAfterRemoveAsWritten(sets: map<string, UnitSet>, defaultSet: Option<string>, name: string): (r: Option<string>)
    ensures defaultSet != Some(Lower(name)) ==> r == defaultSet
    ensures r != defaultSet ==> r.None? && Lower(name) in sets && !sets[Lower(name)].isMaster
  {
    var lc := Lower(name);
    if lc in sets && !sets[lc].isMaster && defaultSet == Some(lc) then None else defaultSet
  }

  /** While a master `SI` set exists, removing a set leaves a default set that
    * is still in the container. */
  lemma RemoveKeepsDefault(sets: map<string, UnitSet>, defaultSet: Option<string>, name: string)
    requires defaultSet.Some? ==> defaultSet.value in sets
    requires "si" in sets && sets["si"].isMaster
    ensures var d := DefaultAfterRemove(sets, defaultSet, name);
            d.Some? ==> d.value in SetsAfterRemove(sets, name)
    ensures defaultSet.Some? ==> DefaultAfterRemove(sets, defaultSet, name).Some?
  {
  }

  /** Removing the default set when it is a clone of `SI` leaves no default,
    * so the `default` property then throws. */
  lemma RemoveDefaultCounterexample(si: UnitSet, copy: UnitSet)
    requires si.isMaster && !copy.isMaster
    ensures var sets := map["si" := si, "si_2" := copy];
            DefaultAfterRemoveAsWritten(sets, Some("si_2"), "SI_2") == None
            && DefaultAfterRemove(sets, Some("si_2"), "SI_2") == Some("si")
  {
    assert Lower("SI_2") == "si_2";
  }

  /** `MMUnitSetsContainer`: the unit sets by lower-case name and the key of the
    * default set. */
  class UnitSetsContainer {
    var sets: map<string, UnitSet>
    var defaultSet: Option<string>

    ghost predicate Valid()
      reads this
    {
      defaultSet.Some? ==> defaultSet.value in sets
    }

    /** An empty container; the master sets are data loaded afterwards. */
    constructor()
      ensures Valid() && sets == map[] && defaultSet == None
    {
      sets := map[];
      defaultSet := None;
    }

    /** `addSet(name, isMaster)`. */
    method AddSet(name: string, isMaster: bool) returns (r: Result<UnitSet>)
      modifies this
      ensures Lower(name) in old(sets) ==> r == Err(DuplicateUnitSet) && sets == old(sets)
      ensures Lower(name) !in old(sets) ==>
                r.Ok? && fresh(r.value) && sets == old(sets)[Lower(name) := r.value]
                && r.value.name == name && r.value.isMaster == isMaster && r.value.Tables() == TypeTables(map[], map[], map[])
      ensures defaultSet == old(defaultSet)
    {
      var lc := Lower(name);
      if lc in sets {
        return Err(DuplicateUnitSet);
      }
      var s := new UnitSet(name, isMaster);
      sets := sets[lc := s];
      return Ok(s);
    }

    /** The `default` property's setter. */
    method SetDefault(name: string) returns (r: Result<()>)
      requires Valid()
      modifies this
      ensures Valid() && sets == old(sets)
      ensures Lower(name) in sets ==> r.Ok? && defaultSet == Some(Lower(name))
      ensures Lower(name) !in sets ==> r == Err(SetNotFound) && defaultSet == old(defaultSet)
    {
      var lc := Lower(name);
      if lc !in sets {
        return Err(SetNotFound);
      }
      defaultSet := Some(lc);
      return Ok(());
    }

    /** `cloneSet(originalName)`: a non-master copy of the set's dictionaries
      * under the first free name `<original>_2`, `<original>_3`, ... */
    method CloneSet(originalName: string) returns (r: Result<string>)
      modifies this
      ensures Lower(originalName) !in old(sets) ==> r == Err(SetNotFound) && sets == old(sets)
      ensures Lower(originalName) in old(sets) ==>
                r.Ok? && FirstFreeCloneName(old(sets).Keys, old(sets)[Lower(originalName)].name, r.value)
                && Lower(r.value) in sets
                && sets == old(sets)[Lower(r.value) := sets[Lower(r.value)]]
                && fresh(sets[Lower(r.value)])
                && sets[Lower(r.value)].name == r.value && !sets[Lower(r.value)].isMaster
                && sets[Lower(r.value)].Tables() == old(sets[Lower(originalName)].Tables())
      ensures defaultSet == old(defaultSet)
    {
      var lc := Lower(originalName);
      if lc !in sets {
        return Err(SetNotFound);
      }
      var original := sets[lc];
      var newName := FirstFreeName(sets.Keys, original.name);
      var clone := new UnitSet(newName, false);
      clone.unitsDictionary := original.unitsDictionary;
      clone.typesDictionary := original.typesDictionary;
      clone.dimensionsDictionary := original.dimensionsDictionary;
      sets := sets[Lower(newName) := clone];
      return Ok(newName);
    }

    /** `removeSetNamed(name)`: master sets and unknown names are ignored; a
      * removed default set is replaced by `SI`. */
    method RemoveSetNamed(name: string)
      requires Valid()
      modifies this
      ensures sets == SetsAfterRemove(old(sets), name)
      ensures defaultSet == DefaultAfterRemove(old(sets), old(defaultSet), name)
      ensures "si" in old(sets) && old(sets)["si"].isMaster ==> Valid()
    {
      var lc := Lower(name);
      if lc in sets && !sets[lc].isMaster {
        var removed := sets - {lc};
        sets := removed;
        if defaultSet == Some(lc) {
          defaultSet := if "si" in removed then Some("si") else None;
        }
      }
    }

    /** `removeSetNamed(name)` as the engine runs it: removing the default set
      * leaves no default. */
    method RemoveSetNamedAsWritten(name: string)
      modifies this
      ensures sets == SetsAfterRemove(old(sets), name)
      ensures defaultSet == DefaultAfterRemoveAsWritten(old(sets), old(defaultSet), name)
    {
      var lc := Lower(name);
      if lc in sets && !sets[lc].isMaster {
        sets := sets - {lc};
        if defaultSet == Some(lc) {
          defaultSet := None;
        }
      }
    }
  }

  /** The naming loop of `cloneSet`: suffixes from 2 upwards until the name is free. */
  method FirstFreeName(taken: set<string>, base: string) returns (name: string)
    ensures FirstFreeCloneName(taken, base, name)
  {
    var i: nat := 2;
    name := CloneName(base, i);
    ghost var tried: set<string> := {};
    while Lower(name) in taken
      invariant i >= 2 && name == CloneName(base, i)
      invariant tried == Tried(base, i)
      invariant tried <= taken
      invariant forall j: nat :: 2 <= j < i ==> Lower(CloneName(base, j)) in taken
      decreases |taken - tried|
    {
      TryNext(taken, base, i);
      tried := Tried(base, i + 1);
      i := i + 1;
      name := CloneName(base, i);
    }
    assert Lower(name) !in taken;
  }

  /** One more taken name: the tried names grow by it and stay taken. */
  lemma TryNext(taken: set<string>, base: string, i: nat)
    requires i >= 2 && Tried(base, i) <= taken && Lower(CloneName(base, i)) in taken
    ensures Tried(base, i + 1) <= taken
    ensures |taken - Tried(base, i + 1)| < |taken - Tried(base, i)|
  {
    var x := Lower(CloneName(base, i));
    NotYetTried(base, i);
    TriedStep(base, i);
    assert taken - Tried(base, i) == (taken - Tried(base, i + 1)) + {x};
  }

  /** The lower-case names tried before suffix i. */
  ghost function Tried(base: string, i: nat): set<string>
  {
    set j: nat | 2 <= j < i :: Lower(CloneName(base, j))
  }

  lemma TriedStep(base: string, i: nat)
    requires i >= 2
    ensures Tried(base, i + 1) == Tried(base, i) + {Lower(CloneName(base, i))}
  {
    var a := Tried(base, i + 1);
    var b := Tried(base, i);
    assert Lower(CloneName(base, i)) in a;
    forall x | x in a ensures x in b + {Lower(CloneName(base, i))} {
      var j: nat :| 2 <= j < i + 1 && x == Lower(CloneName(base, j));
      if j < i { assert x in b; }
    }
  }

  /** The next suffix has not been tried yet. */
  lemma NotYetTried(base: string, i: nat)
    ensures Lower(CloneName(base, i)) !in Tried(base, i)
  {
    forall j: nat | 2 <= j < i
      ensures Lower(CloneName(base, j)) != Lower(CloneName(base, i))
    {
      CloneNameInjective(base, i, j);
    }
  }
}
