/** A button tool (`MMButton`): an action (`addrow`, `refresh`, `push`,
  * `load`, …) and the tool or session it targets, shown as an HTML button
  * with a label from a formula. */
module Buttons {
  import opened Wrappers
  import opened Strs
  import opened CommandTrees
  import opened Tools

  /** What a button answers with: text, or what every tool answers. */
  datatype ButtonValue = ButtonText(text: string) | ToolAnswer(answer: Answer)

  /** The saved form of a button. */
  datatype SavedButton = SavedButton(tool: Saved, typeName: string, action: string, target: string, labelFormula: string)

  /** `htmlValue`: the button markup, posting the action with the target as
    * its argument; the label is `?` when the label formula has no value. */
  function ButtonHtml(name: string, action: string, target: string, labelText: Option<string>): string
  {
    ButtonHtmlPrefix(name, action, target) + (if labelText.Some? then labelText.value else "?") + "\n</button></div>"
  }

  function ButtonHtmlPrefix(name: string, action: string, target: string): string
  {
    "<div  class=\"button-tool\"><button id=\"button__" + name + "\"\nonclick=\"mmpost([], {mm_" + action
    + ": '" + target + "', mm_update: true});\">\n"
  }

  /** What a button answers for a non-empty, lower-cased description:
    * `action` and `target` their text when not empty, `html` the markup;
    * anything else nothing, not even what every tool answers. */
  function ButtonAnswer(key: string, action: string, target: string, html: string): (r: Option<ButtonValue>)
    ensures r.Some? <==> (key == "action" && action != []) || (key == "target" && target != []) || (key == "html" && html != [])
    ensures r.Some? ==> r.value == ButtonText(if key == "action" then action else if key == "target" then target else html)
  {
    if key == "action" && action != [] then Some(ButtonText(action))
    else if key == "target" && target != [] then Some(ButtonText(target))
    else if key == "html" && html != [] then Some(ButtonText(html))
    else None
  }

  /** `notes` and `myname`, which every other tool answers, a button
    * does not. */
  lemma ButtonHasNoNotes(action: string, target: string, html: string)
    ensures ButtonAnswer("notes", action, target, html).None?
    ensures ButtonAnswer("myname", action, target, html).None?
    ensures ButtonAnswer("self", action, target, html).None?
  {
  }

  /** `inputSources`: the label formula's sources and, unless the action
    * is `load`, the sibling the target names when there is one. */
  function InputSources(labelSources: set<string>, action: string, target: string, siblings: set<string>): (r: set<string>)
    ensures labelSources <= r && r - labelSources <= {Lower(target)}
    ensures Lower(target) in r - labelSources <==> action != "load" && target != [] && Lower(target) in siblings - labelSources
  {
    if action != "load" && target != [] && Lower(target) in siblings then labelSources + {Lower(target)} else labelSources
  }

  class Button {
    /** The tool every button also is. */
    const base: Tool
    var action: string
    var target: string
    var labelFormula: string
    /** The requestors told to forget, each once per time it was told. */
    var notified: multiset<string>

    /** A new button adds a row to nothing yet; it is an output. */
    constructor(name: string, position: (int, int))
      ensures fresh(base)
      ensures base.State() == ToolState(name, "", position, Flags(false, false, false, true), map[], {}, [], 1, 1)
      ensures action == "addrow" && target == "" && labelFormula == "" && notified == multiset{}
    {
      base := new Tool(name, position);
      action := "addrow";
      target := "";
      labelFormula := "";
      notified := multiset{};
      new;
      base.SetIsOutput(true);
    }

    /** `forgetCalculated`: every requestor is told to forget and then
      * dropped. */
    method ForgetCalculated()
      modifies this, base
      ensures notified == old(notified) + multiset(old(base.valueRequestors))
      ensures action == old(action) && target == old(target) && labelFormula == old(labelFormula)
      ensures base.State() == old(base.State()).(requestors := {}, forgets := old(base.forgets) + 1)
    {
      notified := notified + multiset(base.valueRequestors);
      base.valueRequestors := {};
      base.ForgetCalculated();
    }

    /** The `target` setter: only a change makes the button forget. */
    method SetTarget(newValue: string)
      modifies this, base
      ensures target == newValue && action == old(action) && labelFormula == old(labelFormula)
      ensures old(target) == newValue ==> base.State() == old(base.State()) && notified == old(notified)
      ensures old(target) != newValue ==>
                base.State() == old(base.State()).(requestors := {}, forgets := old(base.forgets) + 1)
                && notified == old(notified) + multiset(old(base.valueRequestors))
    {
      if target != newValue {
        target := newValue;
        ForgetCalculated();
      }
    }

    /** The `action` setter: a different action clears the target and makes
      * the button forget; the same action changes nothing. */
    method SetAction(newValue: string)
      modifies this, base
      ensures action == newValue && labelFormula == old(labelFormula)
      ensures old(action) == newValue ==> target == old(target) && base.State() == old(base.State()) && notified == old(notified)
      ensures old(action) != newValue ==>
                target == "" && base.State() == old(base.State()).(requestors := {}, forgets := old(base.forgets) + 1)
                && notified == old(notified) + multiset(old(base.valueRequestors))
    {
      if action != newValue {
        action := newValue;
        target := "";
        ForgetCalculated();
      }
    }

    /** `valueDescribedBy`: an empty description is what every tool answers;
      * otherwise `ButtonAnswer` on the lower-cased description, where
      * `html` always remembers the requestor and `action` and `target` do
      * when they answer. */
    method ValueDescribedBy(description: Option<string>, requestor: Option<string>, labelText: Option<string>)
      returns (r: Option<ButtonValue>)
      modifies base
      ensures description.None? || description.value == "" ==> r == Some(ToolAnswer(ToolScalar))
      ensures description.Some? && description.value != "" ==>
                r == ButtonAnswer(Lower(description.value), action, target, ButtonHtml(base.name, action, target, labelText))
      ensures base.valueRequestors ==
                if requestor.Some? && (r.Some? || (description.Some? && Lower(description.value) == "html"))
                then old(base.valueRequestors) + {requestor.value} else old(base.valueRequestors)
      ensures base.State() == old(base.State()).(requestors := base.valueRequestors)
    {
      if description.None? || description.value == "" {
        var answer := base.ValueDescribedBy(description, requestor);
        return Some(ToolAnswer(answer.value));
      }
      var key := Lower(description.value);
      var html := ButtonHtml(base.name, action, target, labelText);
      r := ButtonAnswer(key, action, target, html);
      if requestor.Some? && (r.Some? || key == "html") {
        base.valueRequestors := base.valueRequestors + {requestor.value};
      }
    }

    /** `inputSources` with the parent's children by lower-cased name. */
    function InputSourcesIn(labelSources: set<string>, siblings: set<string>): set<string>
      reads this
    {
      InputSources(labelSources, action, target, siblings)
    }

    /** Changed notes make the button forget. */
    method SetNotes(value: string)
      modifies this, base
      ensures action == old(action) && target == old(target) && labelFormula == old(labelFormula)
      ensures var changed := value != old(base.notes);
              && base.State() == old(base.State()).(notes := value,
                                                    requestors := if changed then {} else old(base.valueRequestors),
                                                    forgets := old(base.forgets) + if changed then 1 else 0)
              && notified == old(notified) + if changed then multiset(old(base.valueRequestors)) else multiset{}
    {
      if value != base.notes {
        ForgetCalculated();
      }
      base.notes := value;
    }

    /** The `htmlNotes` setter: only a change makes the button forget. */
    method SetHtmlNotes(show: bool)
      modifies this, base
      ensures action == old(action) && target == old(target) && labelFormula == old(labelFormula)
      ensures var changed := show != old(base.htmlNotes);
              && base.State() == old(base.State()).(flags := old(base.State()).flags.(htmlNotes := show),
                                                    requestors := if changed then {} else old(base.valueRequestors),
                                                    forgets := old(base.forgets) + if changed then 1 else 0)
              && notified == old(notified) + if changed then multiset(old(base.valueRequestors)) else multiset{}
    {
      var oldShow := base.htmlNotes;
      base.htmlNotes := show;
      if oldShow != show {
        ForgetCalculated();
      }
    }

    /** The `isOutput` setter: only a change makes the button and its
      * parent forget. */
    method SetIsOutput(newValue: bool)
      modifies this, base
      ensures action == old(action) && target == old(target) && labelFormula == old(labelFormula)
      ensures var changed := newValue != old(base.isOutput);
              && base.State() == old(base.State()).(flags := old(base.State()).flags.(isOutput := newValue),
                                                    requestors := if changed then {} else old(base.valueRequestors),
                                                    forgets := old(base.forgets) + (if changed then 1 else 0),
                                                    parentForgets := old(base.parentForgets) + if changed then 1 else 0)
              && notified == old(notified) + if changed then multiset(old(base.valueRequestors)) else multiset{}
    {
      var oldValue := base.isOutput;
      base.isOutput := newValue;
      if oldValue != newValue {
        ForgetCalculated();
        base.parentForgets := base.parentForgets + 1;
      }
    }

    /** `setValue`: `action` and `target` go through their setters. Changed
      * notes, and the `htmlNotes` and `isOutput` setters when the flag
      * changes, call `forgetCalculated`, which for a button is its own:
      * the requestors are told to forget and dropped. Every other property
      * is the tool's. */
    method SetValue(propertyName: string, value: string) returns (r: Option<Failure>)
      modifies this, base
      ensures labelFormula == old(labelFormula)
      ensures propertyName == "action" ==>
                r.None? && action == value
                && (old(action) == value ==> target == old(target) && base.State() == old(base.State()) && notified == old(notified))
                && (old(action) != value ==>
                      target == "" && base.State() == old(base.State()).(requestors := {}, forgets := old(base.forgets) + 1)
                      && notified == old(notified) + multiset(old(base.valueRequestors)))
      ensures propertyName == "target" ==>
                r.None? && target == value && action == old(action)
                && (old(target) == value ==> base.State() == old(base.State()) && notified == old(notified))
                && (old(target) != value ==>
                      base.State() == old(base.State()).(requestors := {}, forgets := old(base.forgets) + 1)
                      && notified == old(notified) + multiset(old(base.valueRequestors)))
      ensures propertyName != "action" && propertyName != "target" ==> action == old(action) && target == old(target)
      ensures propertyName == "notes" ==>
                var changed := value != old(base.notes);
                && r.None?
                && base.State() == old(base.State()).(notes := value,
                                                      requestors := if changed then {} else old(base.valueRequestors),
                                                      forgets := old(base.forgets) + if changed then 1 else 0)
                && notified == old(notified) + if changed then multiset(old(base.valueRequestors)) else multiset{}
      ensures propertyName == "htmlNotes" ==>
                var changed := BoolText(value) != old(base.htmlNotes);
                && r.None?
                && base.State() == old(base.State()).(flags := old(base.State()).flags.(htmlNotes := BoolText(value)),
                                                      requestors := if changed then {} else old(base.valueRequestors),
                                                      forgets := old(base.forgets) + if changed then 1 else 0)
                && notified == old(notified) + if changed then multiset(old(base.valueRequestors)) else multiset{}
      ensures propertyName == "isOutput" ==>
                var changed := BoolText(value) != old(base.isOutput);
                && r.None?
                && base.State() == old(base.State()).(flags := old(base.State()).flags.(isOutput := BoolText(value)),
                                                      requestors := if changed then {} else old(base.valueRequestors),
                                                      forgets := old(base.forgets) + (if changed then 1 else 0),
                                                      parentForgets := old(base.parentForgets) + if changed then 1 else 0)
                && notified == old(notified) + if changed then multiset(old(base.valueRequestors)) else multiset{}
      ensures propertyName !in {"action", "target", "notes", "htmlNotes", "isOutput"} ==>
                notified == old(notified) && base.valueRequestors == old(base.valueRequestors)
                && (r.Some? <==> propertyName != "diagramNotes" && (|propertyName| == 0 || propertyName[0] != '_'))
                && (r.Some? ==> r.value == Thrown("cmd:propertyNotFound", [old(base.name), propertyName])
                                && base.State() == old(base.State()))
                && (propertyName == "diagramNotes" ==>
                      base.State() == old(base.State()).(flags := old(base.State()).flags.(diagramNotes := BoolText(value))))
                && (|propertyName| > 0 && propertyName[0] == '_' ==>
                      base.State() == old(base.State()).(extras := if value != [] then old(base.extras)[propertyName[1..] := value]
                                                                   else old(base.extras) - {propertyName[1..]}))
    {
      if propertyName == "action" {
        SetAction(value);
        r := None;
      } else if propertyName == "target" {
        SetTarget(value);
        r := None;
      } else if propertyName == "notes" {
        SetNotes(value);
        r := None;
      } else if propertyName == "htmlNotes" {
        SetHtmlNotes(BoolText(value));
        r := None;
      } else if propertyName == "isOutput" {
        SetIsOutput(BoolText(value));
        r := None;
      } else {
        r := base.SetValue(propertyName, value);
      }
    }

    /** `saveObject`. */
    function SaveObject(): SavedButton
      reads this, base
    {
      SavedButton(base.SaveObject(), "Button", action, target, labelFormula)
    }

    /** `initFromSaved`: the tool's entries, then action and target set
      * directly, so loading neither clears the target nor forgets. */
    method InitFromSaved(saved: SavedButton)
      modifies this, base
      ensures action == saved.action && target == saved.target && labelFormula == saved.labelFormula
      ensures base.State().flags == FlagsOf(saved.tool) && base.notes == saved.tool.notes
      ensures notified == old(notified)
    {
      base.InitFromSaved(saved.tool);
      action := saved.action;
      target := saved.target;
      labelFormula := saved.labelFormula;
    }
  }
}
