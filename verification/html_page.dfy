/** The HTML page tool (`MMHtmlPage`): it renders its formula's text with
  * every `<mm>` tag expanded and caches the result, answers formulas from
  * the inputs its page posts, and handles the page's `htmlaction` messages. */
module HtmlPages {
  import opened Wrappers
  import opened Strs
  import opened CommandReading
  import opened Tools
  import opened HtmlTags
  import opened HtmlInputs

  /** The message the page's script posts, once read as JSON: a callback
    * number, the inputs by name and the requests by name, each present or
    * not. */
  datatype ActionMessage = ActionMessage(callBackNumber: Option<int>,
                                         inputs: Option<seq<(string, Input)>>,
                                         requests: Option<seq<(string, string)>>)

  /** What `action` answers: the callback number, the replies to the
    * formula requests, and whether the page should be rebuilt. */
  datatype Response = Response(callBackNumber: Option<int>, results: Option<seq<(string, HtmlInputs.Reply)>>, update: bool)

  /** The result of `action`: a response, or `''` when the message was not
    * JSON. */
  datatype ActionOutcome = Responded(response: Response) | NotJson

  /** What the page tool answers for a description. */
  datatype PageAnswer = ToolAnswer(a: Tools.Answer) | HtmlAnswer(html: string) | FormulaAnswer(formula: string) | FromInput(input: InputAnswer)

  /** The actions that work on another tool of the model or on the session;
    * this model records that they were asked for and nothing more. */
  predicate ActsElsewhere(key: string)
  {
    key == "mm_view" || key == "mm_push" || key == "mm_addrow" || key == "mm_deleterows"
    || key == "mm_refresh" || key == "mm_load"
  }

  predicate IsKnownAction(key: string)
  {
    ActsElsewhere(key) || key == "mm_update" || key == "mm_clear"
  }

  /** `mmcmd:htmlBadAction` for every action name the switch does not know,
    * in order. */
  function BadActions(actions: seq<(string, string)>, path: string): (r: seq<Message>)
    ensures |r| <= |actions|
    ensures forall m :: m in r ==> m.key == "mmcmd:htmlBadAction" && |m.args| == 2 && !IsKnownAction(m.args[0]) && m.args[1] == path
  {
    if actions == [] then []
    else
      var last := actions[|actions| - 1];
      BadActions(actions[..|actions| - 1], path)
        + (if IsKnownAction(last.0) then [] else [Message("mmcmd:htmlBadAction", [last.0, path])])
  }

  /** How many `mm_clear` actions have a non-empty argument. */
  function Clears(actions: seq<(string, string)>): (r: nat)
    ensures r <= |actions|
  {
    if actions == [] then 0
    else
      var last := actions[|actions| - 1];
      Clears(actions[..|actions| - 1]) + (if last.0 == "mm_clear" && last.1 != "" then 1 else 0)
  }

  /** Whether an `mm_update` action is among them. */
  function UpdateAsked(actions: seq<(string, string)>): (r: bool)
    ensures r <==> exists i :: 0 <= i < |actions| && actions[i].0 == "mm_update"
  {
    if actions == [] then false
    else
      var front := actions[..|actions| - 1];
      assert forall i :: 0 <= i < |front| ==> front[i] == actions[i];
      UpdateAsked(front) || actions[|actions| - 1].0 == "mm_update"
  }

  /** A message with only known actions records no error. */
  lemma {:induction false} KnownActionsNoError(actions: seq<(string, string)>, path: string)
    requires forall i :: 0 <= i < |actions| ==> IsKnownAction(actions[i].0)
    ensures BadActions(actions, path) == []
  {
    if actions != [] {
      KnownActionsNoError(actions[..|actions| - 1], path);
    }
  }

  /** Each unknown action gives one error. */
  lemma {:induction false} OneErrorPerUnknownAction(actions: seq<(string, string)>, path: string, key: string)
    requires !IsKnownAction(key)
    ensures BadActions(actions + [(key, "")], path) == BadActions(actions, path) + [Message("mmcmd:htmlBadAction", [key, path])]
  {
    assert (actions + [(key, "")])[..|actions|] == actions;
  }

  /** The sums over the actions grow one action at a time. */
  lemma ActionStep(actions: seq<(string, string)>, i: nat, path: string)
    requires i < |actions|
    ensures BadActions(actions[..i + 1], path) == BadActions(actions[..i], path) + BadActions([actions[i]], path)
    ensures Clears(actions[..i + 1]) == Clears(actions[..i]) + (if actions[i].0 == "mm_clear" && actions[i].1 != "" then 1 else 0)
    ensures UpdateAsked(actions[..i + 1]) == (UpdateAsked(actions[..i]) || actions[i].0 == "mm_update")
  {
    assert actions[..i + 1][..i] == actions[..i];
    assert [actions[i]][..0] == [];
  }

  /** What one action does to the tool's own state. */
  function ActionEffect(st: ToolState, action: (string, string), path: string): ToolState
  {
    if action.0 == "mm_clear" && action.1 != "" then st.(requestors := {}, forgets := st.forgets + 1)
    else st.(errors := st.errors + BadActions([action], path))
  }

  /** What the actions, in order, do to the tool's own state. */
  function ActionsEffect(st: ToolState, actions: seq<(string, string)>, path: string): ToolState
  {
    if actions == [] then st
    else ActionEffect(ActionsEffect(st, actions[..|actions| - 1], path), actions[|actions| - 1], path)
  }

  lemma ActionsEffectStep(st: ToolState, actions: seq<(string, string)>, i: nat, path: string)
    requires i < |actions|
    ensures ActionsEffect(st, actions[..i + 1], path) == ActionEffect(ActionsEffect(st, actions[..i], path), actions[i], path)
  {
    assert actions[..i + 1][..i] == actions[..i];
  }

  /** The actions together: the errors of the unknown ones recorded in
    * order, one forget per clearing `mm_clear`, the requestors dropped if
    * there was one, and nothing else changed. */
  lemma {:induction false} ActionsEffectSums(st: ToolState, actions: seq<(string, string)>, path: string)
    ensures ActionsEffect(st, actions, path)
              == st.(requestors := if Clears(actions) > 0 then {} else st.requestors,
                     errors := st.errors + BadActions(actions, path),
                     forgets := st.forgets + Clears(actions))
  {
    if actions != [] {
      var n := |actions| - 1;
      var front := actions[..n];
      ActionsEffectSums(st, front, path);
      ActionStep(actions, n, path);
      assert actions[..n + 1] == actions;
      var prev := ActionsEffect(st, front, path);
      if actions[n].0 == "mm_clear" && actions[n].1 != "" {
        assert !IsKnownAction(actions[n].0) == false;
        assert BadActions([actions[n]], path) == [];
      }
    }
  }

  /** The page's HTML source: the one kept, or else the first value of the
    * page formula (`None` when the formula has no value). */
  function RawHtml(raw: string, pageValue: Option<string>): string
  {
    if raw != "" then raw else if pageValue.Some? then pageValue.value else ""
  }

  /** The processed page: the script that posts messages back, then the
    * source with its tags expanded; nothing without a source. */
  function Processed(script: string, raw: string, valueOf: string -> Option<string>): (r: string)
    ensures raw != "" ==> r == script + Expanded(raw, 0, valueOf)
    ensures raw == "" ==> r == ""
  {
    if raw == "" then "" else script + Expanded(raw, 0, valueOf)
  }

  /** A page whose tags show themselves is the script followed by its own
    * source. */
  lemma ProcessedAsItself(script: string, raw: string)
    ensures Processed(script, raw, AsItself) == if raw == "" then "" else script + raw
  {
    ExpandedAsItself(raw, 0);
    assert raw[0..] == raw;
  }

  /** What a description asks of the inputs: the value of the kept input
    * under that (lower-cased) name. */
  function InputValue(inputs: Option<map<string, Input>>, key: string): (r: Option<PageAnswer>)
    ensures Stored(inputs, key).None? ==> r.None?
    ensures Stored(inputs, key).Some? && AnswerOf(Stored(inputs, key).value).Some? ==>
              r == Some(FromInput(AnswerOf(Stored(inputs, key).value).value))
  {
    var kept := Stored(inputs, key);
    if kept.None? then None
    else
      var a := AnswerOf(kept.value);
      if a.None? then None else Some(FromInput(a.value))
  }

  /** An input posted as a number is answered as that number. */
  lemma PostedNumberAnswered(inputs: Option<map<string, Input>>, name: string, n: int)
    ensures var after := InputsAfter(inputs, [(name, TextInput(IntToString(n)))]).0;
            InputValue(after, Lower(name)) == Some(FromInput(NumberAnswer(Scalar(NumberCell(n)))))
            || (Stored(after, Lower(name)).Some? && Stored(after, Lower(name)).value.TextInput?)
  {
    NumberTextRoundTrip(n);
    var posted := [(name, TextInput(IntToString(n)))];
    assert posted[..0] == [];
    InputStepKeeps(inputs, name, TextInput(IntToString(n)), Lower(name));
  }

  class HtmlPage {
    /** The tool every HTML page also is. */
    const base: Tool
    /** `getPath()`. */
    const path: string
    /** The script put before every processed page. */
    const script: string
    /** The text of the page formula. */
    var formula: string
    /** The texts of the tag formulas `f0`, `f1`, …. */
    var tagFormulas: seq<string>
    /** The inputs the page has posted, by lower-cased name; `None` before
      * the first. */
    var inputs: Option<map<string, Input>>
    /** The page's HTML source and the processed page; `""` stands for
      * `null` as well, both being falsy. */
    var rawHtml: string
    var processedHtml: string

    /** A new page: no formula, no tags, no inputs, nothing rendered. */
    constructor(name: string, path: string, position: (int, int), script: string)
      ensures fresh(base) && this.path == path && this.script == script
      ensures formula == "" && tagFormulas == [] && inputs.None? && rawHtml == "" && processedHtml == ""
      ensures base.State() == ToolState(name, "", position, Flags(false, false, false, false), map[], {}, [], 0, 0)
    {
      base := new Tool(name, position);
      this.path := path;
      this.script := script;
      formula := "";
      tagFormulas := [];
      inputs := None;
      rawHtml := "";
      processedHtml := "";
    }

    /** `forgetCalculated`: the requestors are told to forget and dropped,
      * the tool forgets, and the page is rendered afresh next time. */
    method ForgetCalculated()
      modifies base, this`processedHtml, this`rawHtml
      ensures base.State() == old(base.State()).(requestors := {}, forgets := old(base.forgets) + 1)
      ensures processedHtml == "" && rawHtml == ""
    {
      base.valueRequestors := {};
      base.ForgetCalculated();
      processedHtml := "";
      rawHtml := "";
    }

    /** `htmlForRequestor`: a page already processed is returned as it is;
      * otherwise the source (kept, or the page formula's value) is
      * processed, the tag formulas taking the tags' texts. The requestor is
      * remembered whenever there is a page. */
    method HtmlForRequestor(requestor: Option<string>, pageValue: Option<string>, valueOf: string -> Option<string>)
      returns (html: string)
      modifies base`valueRequestors, this`rawHtml, this`processedHtml, this`tagFormulas
      ensures old(processedHtml) != "" ==>
                processedHtml == old(processedHtml) && rawHtml == old(rawHtml) && tagFormulas == old(tagFormulas)
      ensures old(processedHtml) == "" ==>
                rawHtml == RawHtml(old(rawHtml), pageValue) && processedHtml == Processed(script, rawHtml, valueOf)
      ensures old(processedHtml) == "" && rawHtml != "" ==> tagFormulas == TagFormulasAfter(old(tagFormulas), TagTexts(rawHtml, 0))
      ensures old(processedHtml) == "" && rawHtml == "" ==> tagFormulas == old(tagFormulas)
      ensures html == processedHtml
      ensures base.valueRequestors == if processedHtml != "" && requestor.Some? then old(base.valueRequestors) + {requestor.value}
                                      else old(base.valueRequestors)
    {
      if processedHtml == "" {
        if rawHtml == "" && pageValue.Some? {
          rawHtml := pageValue.value;
        }
        if rawHtml != "" {
          var expanded, formulas := ExpandTags(rawHtml, tagFormulas, valueOf);
          tagFormulas := formulas;
          processedHtml := script + expanded;
        }
      }
      if processedHtml != "" && requestor.Some? {
        base.valueRequestors := base.valueRequestors + {requestor.value};
      }
      html := processedHtml;
    }

    /** `valueDescribedBy`: `''` goes to the tool; `html` is the processed
      * page; `myformula` the page formula's text; any other description the
      * value of the input of that lower-cased name. The requestor is
      * remembered whenever there is an answer. */
    method ValueDescribedBy(description: string, requestor: Option<string>, pageValue: Option<string>,
                            valueOf: string -> Option<string>)
      returns (r: Option<PageAnswer>)
      modifies base, this`rawHtml, this`processedHtml, this`tagFormulas
      ensures Lower(description) == "" ==> r == Some(ToolAnswer(ToolScalar))
      ensures Lower(description) == "html" ==>
                r == (if processedHtml != "" then Some(HtmlAnswer(processedHtml)) else None)
                && (old(processedHtml) != "" ==> processedHtml == old(processedHtml))
                && (old(processedHtml) == "" ==> processedHtml == Processed(script, RawHtml(old(rawHtml), pageValue), valueOf))
      ensures Lower(description) == "myformula" ==> r == (if formula != "" then Some(FormulaAnswer(formula)) else None)
      ensures Lower(description) !in {"", "html", "myformula"} ==> r == InputValue(inputs, Lower(description))
      ensures Lower(description) != "html" ==>
                processedHtml == old(processedHtml) && rawHtml == old(rawHtml) && tagFormulas == old(tagFormulas)
      ensures base.State() == old(base.State()).(requestors := if r.Some? && requestor.Some? then old(base.valueRequestors) + {requestor.value}
                                                               else old(base.valueRequestors))
    {
      var key := Lower(description);
      if key == "" {
        var answer := base.ValueDescribedBy(Some(description), requestor);
        return if answer.Some? then Some(ToolAnswer(answer.value)) else None;
      }
      if key == "html" {
        if processedHtml == "" {
          var _ := HtmlForRequestor(requestor, pageValue, valueOf);
        }
        r := if processedHtml != "" then Some(HtmlAnswer(processedHtml)) else None;
      } else if key == "myformula" {
        r := if formula != "" then Some(FormulaAnswer(formula)) else None;
      } else if inputs.Some? && key in inputs.value {
        var answer := AnswerFor(inputs.value[key]);
        r := if answer.Some? then Some(FromInput(answer.value)) else None;
      } else {
        r := None;
      }
      if r.Some? && requestor.Some? {
        base.valueRequestors := base.valueRequestors + {requestor.value};
      }
    }

    /** The inputs of a message: kept in order, and the tool forgets its
      * values when one of them changed what was kept. */
    method TakeInputs(posted: seq<(string, Input)>) returns (changed: bool)
      modifies base, this`inputs, this`processedHtml, this`rawHtml
      ensures (inputs, changed) == InputsAfter(old(inputs), posted)
      ensures changed ==> base.State() == old(base.State()).(requestors := {}, forgets := old(base.forgets) + 1)
                          && processedHtml == "" && rawHtml == ""
      ensures !changed ==> base.State() == old(base.State())
                           && processedHtml == old(processedHtml) && rawHtml == old(rawHtml)
    {
      var after;
      after, changed := ApplyInputs(inputs, posted);
      inputs := after;
      if changed {
        ForgetCalculated();
      }
    }

    /** One collected action: `mm_update` asks for a rebuilt page,
      * `mm_clear` with an argument drops the inputs and forgets, the
      * actions on other tools change nothing here, and any other name
      * records `mmcmd:htmlBadAction`. */
    method RunAction(key: string, argument: string) returns (asked: bool)
      modifies base, this`inputs, this`processedHtml, this`rawHtml
      ensures asked <==> key == "mm_update"
      ensures key == "mm_clear" && argument != "" ==>
                base.State() == old(base.State()).(requestors := {}, forgets := old(base.forgets) + 1)
                && inputs.None? && processedHtml == "" && rawHtml == ""
      ensures !(key == "mm_clear" && argument != "") ==>
                base.State() == old(base.State()).(errors := old(base.errors) + BadActions([(key, argument)], path))
                && inputs == old(inputs) && processedHtml == old(processedHtml) && rawHtml == old(rawHtml)
      ensures base.State() == ActionEffect(old(base.State()), (key, argument), path)
    {
      asked := false;
      if key == "mm_update" {
        asked := true;
      } else if key == "mm_clear" {
        if argument != "" {
          inputs := None;
          ForgetCalculated();
        }
      } else if !ActsElsewhere(key) {
        base.errors := base.errors + [Message("mmcmd:htmlBadAction", [key, path])];
      }
    }

    /** The loop of `action` over the collected actions, in order. */
    method RunActions(actions: seq<(string, string)>) returns (asked: bool)
      modifies base, this`inputs, this`processedHtml, this`rawHtml
      ensures asked == UpdateAsked(actions)
      ensures base.State() == ActionsEffect(old(base.State()), actions, path)
      ensures Clears(actions) > 0 ==> inputs.None? && processedHtml == "" && rawHtml == ""
      ensures Clears(actions) == 0 ==> inputs == old(inputs) && processedHtml == old(processedHtml) && rawHtml == old(rawHtml)
    {
      ghost var before := base.State();
      ghost var kept := (inputs, processedHtml, rawHtml);
      asked := false;
      var i := 0;
      while i < |actions|
        invariant 0 <= i <= |actions|
        invariant asked == UpdateAsked(actions[..i])
        invariant base.State() == ActionsEffect(before, actions[..i], path)
        invariant Clears(actions[..i]) > 0 ==> inputs.None? && processedHtml == "" && rawHtml == ""
        invariant Clears(actions[..i]) == 0 ==> (inputs, processedHtml, rawHtml) == kept
      {
        var (key, argument) := actions[i];
        ActionStep(actions, i, path);
        ActionsEffectStep(before, actions, i, path);
        var one := RunAction(key, argument);
        asked := asked || one;
        i := i + 1;
      }
      assert actions[..i] == actions;
    }

    /** `action`: a message that is not JSON records
      * `mmcmd:htmlBadActionJson` and answers `''`; any other is answered by
      * `Respond`. */
    method Action(parsed: Result<ActionMessage>, evaluate: string -> Option<Evaluation>) returns (outcome: ActionOutcome)
      modifies base, this`inputs, this`processedHtml, this`rawHtml
      ensures parsed.Err? ==> outcome == NotJson && inputs == old(inputs) && processedHtml == old(processedHtml) && rawHtml == old(rawHtml)
                              && base.State() == old(base.State()).(errors := old(base.errors) + [Message("mmcmd:htmlBadActionJson", [path, parsed.error])])
      ensures parsed.Ok? ==>
                var m := parsed.value;
                var sorted := SortedRequests(if m.requests.Some? then m.requests.value else [], evaluate);
                outcome == Responded(Response(m.callBackNumber,
                                              if m.requests.Some? then Some(sorted.0) else None,
                                              ((m.callBackNumber.None? || m.callBackNumber == Some(0)) && sorted.1 == [])
                                              || UpdateAsked(sorted.1)))
      ensures parsed.Ok? ==>
                var m := parsed.value;
                var taken := if m.inputs.Some? then InputsAfter(old(inputs), m.inputs.value) else (old(inputs), false);
                var actions := SortedRequests(if m.requests.Some? then m.requests.value else [], evaluate).1;
                && inputs == (if Clears(actions) > 0 then None else taken.0)
                && base.State() == old(base.State()).(requestors := if taken.1 || Clears(actions) > 0 then {} else old(base.valueRequestors),
                                                      errors := old(base.errors) + BadActions(actions, path),
                                                      forgets := old(base.forgets) + (if taken.1 then 1 else 0) + Clears(actions))
                && (taken.1 || Clears(actions) > 0 ==> processedHtml == "" && rawHtml == "")
                && (!taken.1 && Clears(actions) == 0 ==> processedHtml == old(processedHtml) && rawHtml == old(rawHtml))
    {
      if parsed.Err? {
        base.errors := base.errors + [Message("mmcmd:htmlBadActionJson", [path, parsed.error])];
        return NotJson;
      }
      var response := Respond(parsed.value, evaluate);
      outcome := Responded(response);
    }

    /** `action` on a parsed message: the inputs are taken, the formula
      * requests answered and the actions collected; the page is to be
      * rebuilt when there is no callback and no action, or when
      * `mm_update` asks for it; then the actions are run. */
    method Respond(m: ActionMessage, evaluate: string -> Option<Evaluation>) returns (response: Response)
      modifies base, this`inputs, this`processedHtml, this`rawHtml
      ensures var sorted := SortedRequests(if m.requests.Some? then m.requests.value else [], evaluate);
              response == Response(m.callBackNumber,
                                   if m.requests.Some? then Some(sorted.0) else None,
                                   ((m.callBackNumber.None? || m.callBackNumber == Some(0)) && sorted.1 == [])
                                   || UpdateAsked(sorted.1))
      ensures var taken := if m.inputs.Some? then InputsAfter(old(inputs), m.inputs.value) else (old(inputs), false);
              var actions := SortedRequests(if m.requests.Some? then m.requests.value else [], evaluate).1;
              && inputs == (if Clears(actions) > 0 then None else taken.0)
              && base.State() == old(base.State()).(requestors := if taken.1 || Clears(actions) > 0 then {} else old(base.valueRequestors),
                                                    errors := old(base.errors) + BadActions(actions, path),
                                                    forgets := old(base.forgets) + (if taken.1 then 1 else 0) + Clears(actions))
              && (taken.1 || Clears(actions) > 0 ==> processedHtml == "" && rawHtml == "")
              && (!taken.1 && Clears(actions) == 0 ==> processedHtml == old(processedHtml) && rawHtml == old(rawHtml))
    {
      if m.inputs.Some? {
        var _ := TakeInputs(m.inputs.value);
      }
      var results, actions := SortRequests(if m.requests.Some? then m.requests.value else [], evaluate);
      var update := (m.callBackNumber.None? || m.callBackNumber == Some(0)) && actions == [];
      ghost var mid := base.State();
      var asked := RunActions(actions);
      ActionsEffectSums(mid, actions, path);
      response := Response(m.callBackNumber, if m.requests.Some? then Some(results) else None, update || asked);
    }
  }
}
