/** A menu tool (`MMMenu`): a list of options, each row one option, of which
  * one is selected. Its value is the selected row's value column (the
  * second column when there is more than one) and its label the first. */
module Menus {
  import opened Wrappers
  import opened Strs
  import opened Matrices
  import opened Tools

  /** What a menu answers with: a cell of its options or, for any other
    * description, what every tool answers. */
  datatype MenuValue<T> = OptionCell(value: T) | ToolAnswer(answer: Answer)

  /** The saved form of a menu: the tool's own entries, the options formula
    * and the selected row, which older files may not have. */
  datatype SavedMenu = SavedMenu(tool: Saved, typeName: string, optionsFormula: string, selected: Option<int>)

  /** The clamp `valueDescribedBy` applies before answering: a selection past
    * the last option goes back to the first, or to -1 when there is none. */
  function Clamped(selected: int, rowCount: nat): (r: int)
    ensures r < rowCount
    ensures selected < rowCount ==> r == selected
    ensures selected >= rowCount ==> r == 0 || (rowCount == 0 && r == -1)
  {
    if selected >= rowCount then (if rowCount > 0 then 0 else -1) else selected
  }

  /** Clamping twice is clamping once. */
  lemma ClampedIdempotent(selected: int, rowCount: nat)
    ensures Clamped(Clamped(selected, rowCount), rowCount) == Clamped(selected, rowCount)
  {
  }

  /** The column the menu's value comes from. */
  function ValueColumn(columnCount: nat): (r: nat)
    ensures 1 <= r <= 2 && (r == 2 <==> columnCount > 1)
  {
    if columnCount > 1 then 2 else 1
  }

  /** `valueForIndexRowColumn` for one 0-based row and one 1-based column:
    * the cell, or nothing when either lies outside the options. */
  function OptionAt<T>(options: Matrix<T>, row: int, column: nat): (r: Option<T>)
    requires options.Valid()
    ensures r.Some? <==> 0 <= row < options.rowCount && 1 <= column <= options.columnCount
    ensures r.Some? ==> r.value == At(options, row, column - 1)
  {
    if 0 <= row < options.rowCount && 1 <= column <= options.columnCount then
      Some(At(options, row, column - 1))
    else None
  }

  /** The description a menu compares: lower-cased, `selected` when empty. */
  function MenuKey(description: Option<string>): (r: string)
    ensures Lower(r) == r
    ensures description.None? || description.value == "" ==> r == "selected"
  {
    var d := if description.None? || description.value == "" then "selected" else description.value;
    LowerIdempotent(d);
    Lower(d)
  }

  /** What a menu with the given (clamped) selection answers: `selected`,
    * the selected row's value column; `label`, its first column; either
    * nothing when no row is selected; anything else, what every tool
    * answers. */
  function MenuAnswer<T>(key: string, selected: int, options: Matrix<T>, notes: string, name: string): (r: Option<MenuValue<T>>)
    requires options.Valid()
    ensures key == "selected" ==>
              r == if 0 <= selected < options.rowCount && ValueColumn(options.columnCount) <= options.columnCount
                   then Some(OptionCell(At(options, selected, ValueColumn(options.columnCount) - 1))) else None
    ensures key == "label" ==>
              r == if 0 <= selected < options.rowCount && 0 < options.columnCount
                   then Some(OptionCell(At(options, selected, 0))) else None
    ensures key != "selected" && key != "label" ==> (r.Some? <==> Described(key, notes, name).Some?)
  {
    if key == "selected" || key == "label" then
      var found := OptionAt(options, selected, if key == "selected" then ValueColumn(options.columnCount) else 1);
      if found.Some? then Some(OptionCell(found.value)) else None
    else
      var answer := Described(key, notes, name);
      if answer.Some? then Some(ToolAnswer(answer.value)) else None
  }

  class Menu {
    /** The tool every menu also is. */
    const base: Tool
    var optionsFormula: string
    var selected: int

    /** A new menu is an output, selecting its first option; setting the
      * output flag made it and its parent forget. */
    constructor(name: string, position: (int, int))
      ensures fresh(base)
      ensures base.State() == ToolState(name, "", position, Flags(false, false, false, true), map[], {}, [], 1, 1)
      ensures optionsFormula == "" && selected == 0
    {
      base := new Tool(name, position);
      optionsFormula := "";
      selected := 0;
      new;
      base.SetIsOutput(true);
    }

    /** The `selected` setter: the menu forgets its values only when the
      * selection changes. */
    method SetSelected(newValue: int)
      modifies this, base
      ensures selected == newValue && optionsFormula == old(optionsFormula)
      ensures base.State() == old(base.State()).(forgets := old(base.forgets) + (if old(selected) != newValue then 1 else 0))
    {
      if selected != newValue {
        selected := newValue;
        base.ForgetCalculated();
      }
    }

    /** The clamp of `valueDescribedBy`, through the `selected` setter. */
    method Clamp(rowCount: nat)
      modifies this, base
      ensures selected == Clamped(old(selected), rowCount) && optionsFormula == old(optionsFormula)
      ensures base.State() == old(base.State()).(forgets := old(base.forgets) + (if old(selected) != selected then 1 else 0))
    {
      if selected >= rowCount {
        SetSelected(if rowCount > 0 then 0 else -1);
      }
    }

    /** `valueDescribedBy` with the options the formula evaluates to: none
      * gives nothing; otherwise the selection is clamped first, then the
      * answer is `MenuAnswer`. A requestor is remembered when there is an
      * answer. */
    method ValueDescribedBy<T>(description: Option<string>, requestor: Option<string>, options: Option<Matrix<T>>)
      returns (r: Option<MenuValue<T>>)
      requires options.Some? ==> options.value.Valid()
      modifies this, base
      ensures optionsFormula == old(optionsFormula)
      ensures options.None? ==> r.None? && selected == old(selected) && base.State() == old(base.State())
      ensures options.Some? ==>
                && selected == Clamped(old(selected), options.value.rowCount)
                && r == MenuAnswer(MenuKey(description), selected, options.value, old(base.notes), old(base.name))
      ensures base.valueRequestors == if r.Some? && requestor.Some? then old(base.valueRequestors) + {requestor.value}
                                      else old(base.valueRequestors)
    {
      var d := if description.None? || description.value == "" then "selected" else description.value;
      var key := Lower(d);
      if options.None? {
        return None;
      }
      var o := options.value;
      Clamp(o.rowCount);
      if key == "selected" || key == "label" {
        var column := if key == "selected" then ValueColumn(o.columnCount) else 1;
        var found := OptionAt(o, selected, column);
        if found.Some? {
          if requestor.Some? {
            base.valueRequestors := base.valueRequestors + {requestor.value};
          }
          r := Some(OptionCell(found.value));
        } else {
          r := None;
        }
      } else {
        var answer := base.ValueDescribedBy(Some(d), requestor);
        r := if answer.Some? then Some(ToolAnswer(answer.value)) else None;
      }
    }

    /** `saveObject`: the tool's entries, the type, the options formula and
      * the selection. */
    function SaveObject(): SavedMenu
      reads this, base
    {
      SavedMenu(base.SaveObject(), "Menu", optionsFormula, Some(selected))
    }

    /** `initFromSaved`: the tool's entries, the options formula, and the
      * selection, 0 when the file has none; the selection is set without
      * forgetting. */
    method InitFromSaved(saved: SavedMenu)
      modifies this, base
      ensures optionsFormula == saved.optionsFormula
      ensures selected == SelectedOf(saved)
      ensures base.State().flags == FlagsOf(saved.tool)
      ensures base.notes == saved.tool.notes && base.position == (saved.tool.x, saved.tool.y)
    {
      base.InitFromSaved(saved.tool);
      optionsFormula := saved.optionsFormula;
      selected := SelectedOf(saved);
    }
  }

  /** `saved.selected || 0`. */
  function SelectedOf(saved: SavedMenu): int
  {
    if saved.selected.Some? then saved.selected.value else 0
  }

  /** The selection survives saving and loading, and a file without one
    * selects the first option. */
  lemma SelectedRoundTrip(tool: Saved, optionsFormula: string, selected: int)
    ensures SelectedOf(SavedMenu(tool, "Menu", optionsFormula, Some(selected))) == selected
    ensures SelectedOf(SavedMenu(tool, "Menu", optionsFormula, None)) == 0
  {
  }
}
