/** The bookkeeping every calculation tool shares (`MMTool`): its notes and
  * their short description, display flags whose setters forget calculated
  * values only when they change, the values every tool answers for, the
  * check on a new tool name and the saved form of the flags. */
module Tools {
  import opened Wrappers
  import opened Strs
  import opened CommandTrees
  import opened CommandReading

  /** Notes up to this length are their own description. */
  const MaxDescription: nat := 50

  /** `description`: the notes when they are at most 50 characters long,
    * otherwise their first 49 characters. */
  function Description(notes: string): (r: string)
    ensures r <= notes
    ensures r == notes <==> |notes| <= MaxDescription
    ensures |notes| > MaxDescription ==> |r| == MaxDescription - 1
  {
    if |notes| <= MaxDescription then notes else notes[..MaxDescription - 1]
  }

  /** The name check of `renameto`: no character outside `[A-Za-z0-9_]`
    * and no leading digit. */
  predicate IsToolName(s: string)
  {
    (forall i :: 0 <= i < |s| ==> IsWordChar(s[i])) && !(|s| > 0 && IsDigit(s[0]))
  }

  /** A name that passes the check is one segment of a path and one term of
    * a command, so the renamed tool can be addressed by it. */
  lemma ToolNameIsSegment(s: string)
    requires IsToolName(s) && s != []
    ensures Split(s, '.') == [s]
    ensures '/' !in s && '^' !in s && '\'' !in s && '"' !in s
    ensures forall c :: c in s ==> !IsSpace(c)
  {
    assert '.' !in s by {
      forall i | 0 <= i < |s| ensures s[i] != '.' { assert IsWordChar(s[i]); }
    }
    SplitNoSep(s, '.');
    forall c | c in s ensures !IsSpace(c) && c != '/' && c != '^' && c != '\'' && c != '"' {
      var i :| 0 <= i < |s| && s[i] == c;
      assert IsWordChar(s[i]);
    }
  }

  /** How the boolean properties read text: true when it starts with `t`
    * or `T`. */
  function BoolText(value: string): (r: bool)
    ensures r <==> |value| > 0 && (value[0] == 't' || value[0] == 'T')
  {
    |value| > 0 && LowerChar(value[0]) == 't'
  }

  /** The flags a tool saves. */
  datatype Flags = Flags(hidingInfo: bool, diagramNotes: bool, htmlNotes: bool, isOutput: bool)

  /** The object `saveObject` writes; `isOutput` is present only when set. */
  datatype Saved = Saved(name: string, notes: string, x: int, y: int,
                         hideInfo: string, diagramNotes: string, htmlNotes: string,
                         isOutput: Option<string>)

  /** What a tool answers for `''`/`self` (the tool itself), `notes` and
    * `myname`. */
  datatype Answer = ToolScalar | StringScalar(text: string)

  /** The whole state of a tool: its own fields and how often it and its
    * parent model have been told to forget their calculated values. */
  datatype ToolState = ToolState(name: string, notes: string, position: (int, int), flags: Flags,
                                 extras: map<string, string>, requestors: set<string>,
                                 errors: seq<Message>, forgets: nat, parentForgets: nat)

  function YesNo(b: bool): string { if b then "y" else "n" }

  /** `saveObject` for a tool in the given state. */
  function SavedOf(s: ToolState): (r: Saved)
    ensures r.name == s.name && r.notes == s.notes && (r.x, r.y) == s.position
    ensures r.isOutput.Some? <==> s.flags.isOutput
  {
    Saved(s.name, s.notes, s.position.0, s.position.1, YesNo(s.flags.hidingInfo),
          YesNo(s.flags.diagramNotes), YesNo(s.flags.htmlNotes),
          if s.flags.isOutput then Some("y") else None)
  }

  /** The flags `initFromSaved` reads: each one is set exactly when its
    * entry is `'y'`. */
  function FlagsOf(saved: Saved): Flags
  {
    Flags(saved.hideInfo == "y", saved.diagramNotes == "y", saved.htmlNotes == "y",
          saved.isOutput == Some("y"))
  }

  /** The `'y'`/`'n'` encoding loses no flag, an absent `isOutput` reading
    * as false. */
  lemma SavedFlagsRoundTrip(s: ToolState)
    ensures FlagsOf(SavedOf(s)) == s.flags
  {
  }

  /** A flag set from a saved entry other than `'y'` is false, so a file
    * that never wrote `isOutput` loads a tool that is not an output. */
  lemma MissingFlagIsFalse(saved: Saved)
    requires saved.isOutput.None? && saved.htmlNotes != "y"
    ensures !FlagsOf(saved).isOutput && !FlagsOf(saved).htmlNotes
  {
  }

  /** `valueDescribedBy` of the tool itself, on a description already
    * lower-cased. */
  function Described(description: string, notes: string, name: string): (r: Option<Answer>)
    ensures r.None? <==> description !in {"", "self", "notes", "myname"}
    ensures r == Some(ToolScalar) <==> description == "" || description == "self"
    ensures description == "notes" ==> r == Some(StringScalar(notes))
    ensures description == "myname" ==> r == Some(StringScalar(name))
  {
    if description == "" || description == "self" then Some(ToolScalar)
    else if description == "notes" then Some(StringScalar(notes))
    else if description == "myname" then Some(StringScalar(name))
    else None
  }

  /** The description as `valueDescribedBy` compares it: lower-cased, and
    * empty when missing. */
  function DescriptionKey(raw: Option<string>): (r: string)
    ensures Lower(r) == r
    ensures raw.Some? ==> r == Lower(raw.value)
  {
    if raw.Some? then LowerIdempotent(raw.value); Lower(raw.value) else ""
  }

  /** The descriptions are compared without regard to case. */
  lemma DescribedIgnoresCase(a: string, b: string, notes: string, name: string)
    requires Lower(a) == Lower(b)
    ensures Described(DescriptionKey(Some(a)), notes, name) == Described(DescriptionKey(Some(b)), notes, name)
  {
  }

  class Tool {
    var name: string
    var notes: string
    var position: (int, int)
    var isHidingInfo: bool
    var diagramNotes: bool
    var htmlNotes: bool
    var isOutput: bool
    /** The underscore properties, by the name after the `_`. */
    var extras: map<string, string>
    /** The tools that have asked this one for a value. */
    var valueRequestors: set<string>
    /** The messages recorded by `setError`. */
    var errors: seq<Message>
    /** How many times `forgetCalculated` was called on the tool, and on its
      * parent model. */
    var forgets: nat
    var parentForgets: nat

    function State(): ToolState
      reads this
    {
      ToolState(name, notes, position, Flags(isHidingInfo, diagramNotes, htmlNotes, isOutput),
                extras, valueRequestors, errors, forgets, parentForgets)
    }

    /** A new tool: no notes, every flag off, nobody asking for its value. */
    constructor(name: string, position: (int, int))
      ensures State() == ToolState(name, "", position, Flags(false, false, false, false), map[], {}, [], 0, 0)
    {
      this.name := name;
      this.notes := "";
      this.position := position;
      isHidingInfo := false;
      diagramNotes := false;
      htmlNotes := false;
      isOutput := false;
      extras := map[];
      valueRequestors := {};
      errors := [];
      forgets := 0;
      parentForgets := 0;
    }

    /** The `isOutput` setter: the tool and its parent forget their values
      * only when the flag changes. */
    method SetIsOutput(newValue: bool)
      modifies this
      ensures State() == old(State()).(flags := old(State()).flags.(isOutput := newValue),
                                       forgets := old(forgets) + (if old(isOutput) != newValue then 1 else 0),
                                       parentForgets := old(parentForgets) + (if old(isOutput) != newValue then 1 else 0))
    {
      var oldValue := isOutput;
      isOutput := newValue;
      if oldValue != isOutput {
        forgets := forgets + 1;
        parentForgets := parentForgets + 1;
      }
    }

    /** The `htmlNotes` setter: the tool forgets its values only when the
      * flag changes. */
    method SetHtmlNotes(show: bool)
      modifies this
      ensures State() == old(State()).(flags := old(State()).flags.(htmlNotes := show),
                                       forgets := old(forgets) + (if old(htmlNotes) != show then 1 else 0))
    {
      var oldShow := htmlNotes;
      htmlNotes := show;
      if oldShow != show {
        forgets := forgets + 1;
      }
    }

    /** `forgetCalculated`: counted, since what a tool forgets is its own. */
    method ForgetCalculated()
      modifies this
      ensures State() == old(State()).(forgets := old(forgets) + 1)
    {
      forgets := forgets + 1;
    }

    /** `forgetAllCalculations`: the tool forgets its own values. */
    method ForgetAllCalculations()
      modifies this
      ensures State() == old(State()).(forgets := old(forgets) + 1)
    {
      forgets := forgets + 1;
    }

    /** `setValue`: changed notes make the tool forget; the boolean
      * properties read text starting with `t` as true and go through their
      * setters; an underscore name sets or, with empty text, removes a
      * property of its own; any other name, or a read-only one, is
      * `propertyNotFound`. */
    method SetValue(propertyName: string, value: string) returns (r: Option<Failure>)
      modifies this
      ensures r.Some? <==> (propertyName !in {"notes", "diagramNotes", "htmlNotes", "isOutput"}
                             && (|propertyName| == 0 || propertyName[0] != '_'))
      ensures r.Some? ==> r.value == Thrown("cmd:propertyNotFound", [old(name), propertyName])
                          && State() == old(State())
      ensures propertyName == "notes" ==>
                State() == old(State()).(notes := value, forgets := old(forgets) + (if value != old(notes) then 1 else 0))
      ensures propertyName == "diagramNotes" ==>
                State() == old(State()).(flags := old(State()).flags.(diagramNotes := BoolText(value)))
      ensures propertyName == "htmlNotes" ==>
                State() == old(State()).(flags := old(State()).flags.(htmlNotes := BoolText(value)),
                                         forgets := old(forgets) + (if old(htmlNotes) != BoolText(value) then 1 else 0))
      ensures propertyName == "isOutput" ==>
                State() == old(State()).(flags := old(State()).flags.(isOutput := BoolText(value)),
                                         forgets := old(forgets) + (if old(isOutput) != BoolText(value) then 1 else 0),
                                         parentForgets := old(parentForgets) + (if old(isOutput) != BoolText(value) then 1 else 0))
      ensures |propertyName| > 0 && propertyName[0] == '_' ==>
                State() == old(State()).(extras := if value != [] then old(extras)[propertyName[1..] := value]
                                                   else old(extras) - {propertyName[1..]})
    {
      r := None;
      if |propertyName| > 0 && propertyName[0] == '_' {
        var key := propertyName[1..];
        if value != [] {
          extras := extras[key := value];
        } else {
          extras := extras - {key};
        }
      } else if propertyName == "notes" {
        if value != notes {
          forgets := forgets + 1;
        }
        notes := value;
      } else if propertyName == "diagramNotes" {
        diagramNotes := BoolText(value);
      } else if propertyName == "htmlNotes" {
        SetHtmlNotes(BoolText(value));
      } else if propertyName == "isOutput" {
        SetIsOutput(BoolText(value));
      } else {
        r := Some(Thrown("cmd:propertyNotFound", [name, propertyName]));
      }
    }

    /** `valueDescribedBy`: the answer for the lower-cased description; a
      * requestor is remembered whenever there is an answer. */
    method ValueDescribedBy(rawDescription: Option<string>, requestor: Option<string>) returns (r: Option<Answer>)
      modifies this
      ensures r == Described(DescriptionKey(rawDescription), old(notes), old(name))
      ensures State() == old(State()).(requestors := if r.Some? && requestor.Some? then old(valueRequestors) + {requestor.value}
                                                     else old(valueRequestors))
    {
      var description := DescriptionKey(rawDescription);
      if description == "" || description == "self" {
        r := Some(ToolScalar);
      } else if description == "notes" {
        r := Some(StringScalar(notes));
      } else if description == "myname" {
        r := Some(StringScalar(name));
      } else {
        return None;
      }
      if requestor.Some? {
        valueRequestors := valueRequestors + {requestor.value};
      }
    }

    /** `renameto`, the tool's own part: a name with a character outside
      * `[A-Za-z0-9_]` or a leading digit records `toolBadName` and renames
      * nothing; an acceptable one makes the tool forget its values before
      * the parent renames it (`Commands.RenameTo`). A missing argument
      * throws. */
    method RenameTo(args: Option<string>) returns (r: Attempt<bool>)
      modifies this
      ensures r.Threw? <==> args.None?
      ensures r.Threw? ==> r.failure == InternalError && State() == old(State())
      ensures r.Done? ==> (r.value <==> IsToolName(args.value))
      ensures r == Done(true) ==> State() == old(State()).(forgets := old(forgets) + 1)
      ensures r == Done(false) ==>
                State() == old(State()).(errors := old(errors) + [Message("mmcmd:toolBadName", [args.value])])
    {
      if args.None? {
        return Threw(InternalError);
      }
      var s := args.value;
      var i := 0;
      var bad := false;
      while i < |s| && !bad
        invariant 0 <= i <= |s|
        invariant !bad <==> forall k :: 0 <= k < i ==> IsWordChar(s[k])
      {
        if !IsWordChar(s[i]) {
          bad := true;
        }
        i := i + 1;
      }
      if bad || (|s| > 0 && IsDigit(s[0])) {
        errors := errors + [Message("mmcmd:toolBadName", [s])];
        return Done(false);
      }
      forgets := forgets + 1;
      r := Done(true);
    }

    /** `saveObject`. */
    function SaveObject(): Saved
      reads this
    {
      SavedOf(State())
    }

    /** `initFromSaved`: the notes and position as saved, each flag set when
      * its entry is `'y'`, the `htmlNotes` and `isOutput` flags through
      * their setters. */
    method InitFromSaved(saved: Saved)
      modifies this
      ensures State().flags == FlagsOf(saved)
      ensures State() == old(State()).(notes := saved.notes, position := (saved.x, saved.y), flags := FlagsOf(saved),
                                       forgets := old(forgets) + (if old(htmlNotes) != FlagsOf(saved).htmlNotes then 1 else 0)
                                                               + (if old(isOutput) != FlagsOf(saved).isOutput then 1 else 0),
                                       parentForgets := old(parentForgets) + (if old(isOutput) != FlagsOf(saved).isOutput then 1 else 0))
    {
      notes := saved.notes;
      position := (saved.x, saved.y);
      isHidingInfo := saved.hideInfo == "y";
      diagramNotes := saved.diagramNotes == "y";
      SetHtmlNotes(saved.htmlNotes == "y");
      SetIsOutput(saved.isOutput == Some("y"));
    }
  }

  /** Loading what a tool saved restores its notes, position and flags. */
  method SaveThenLoad(source: Tool, target: Tool)
    modifies target
    ensures target.notes == source.notes && target.position == source.position
    ensures target.State().flags == source.State().flags
  {
    var saved := source.SaveObject();
    SavedFlagsRoundTrip(source.State());
    target.InitFromSaved(saved);
  }
}
