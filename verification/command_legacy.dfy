/** The earlier command interpreter, `CommandProcessor` with its
  * `CommandObject` and `CommandParent` classes. It reads commands as the
  * worker's does, but children are filed under their exact names, an
  * underscore property keeps its whole name, nothing has an undo command, a
  * command that throws is reported through the error callback and fails,
  * and a script stops with no results at its first failing command. */
module LegacyCommands {
  import opened Wrappers
  import opened Strs
  import opened CommandText
  import opened CommandTrees
  import opened CommandReading

  /** The tree after a verb and its results. */
  datatype Effect = Effect(tree: Tree, results: Reply)

  /** `Command`: every member but the expression stays undefined (`None`)
    * until `processCommand` fills it in; `results` stays undefined when the
    * verb throws. */
  datatype Command = Command(expression: string, subject: Option<string>, verb: Option<string>,
                             args: Option<string>, results: Option<Reply>)

  // ---------------------------------------------------------------------
  // Verbs

  /** The keys of `commands` of a command object, and of a command parent. */
  predicate IsVerb(isParent: bool, v: string)
  {
    match v
    case "?" | "cd" | "info" | "read" | "renameto" | "get" | "set" => true
    case "list" | "createchild" | "removechild" => isParent
    case _ => false
  }

  function Verbs(isParent: bool): (r: set<string>)
    ensures forall v :: v in r <==> IsVerb(isParent, v)
  {
    var own := {"?", "cd", "info", "read", "renameto", "get", "set"};
    if isParent then own + {"list", "createchild", "removechild"} else own
  }

  /** A line of the verb list of `help`: the usage message is an object, so
    * it shows as `[object Object]`. */
  function HelpLine(v: string): string
  {
    v + ": [object Object]"
  }

  /** The lines of the verb list of `help`, one per verb, sorted. */
  function HelpLines(isParent: bool): (r: seq<string>)
    ensures |r| >= 1 && Ascending(r)
    ensures forall v :: IsVerb(isParent, v) ==> HelpLine(v) in r
    ensures forall l :: l in r ==> exists v :: IsVerb(isParent, v) && l == HelpLine(v)
  {
    var lines := set v | v in Verbs(isParent) :: HelpLine(v);
    assert HelpLine("?") in lines;
    SortedSet(lines)
  }

  /** `help`: the usage key of any non-empty argument, lower-cased and
    * whether or not it is a verb, or the list of verbs. */
  function Help(t: Tree, s: nat, args: Option<string>): (r: Attempt<Effect>)
    requires Valid(t, false) && Object(t, s)
    ensures r.Done? ==> r.value.tree == t
    ensures r.Threw? <==> args.None?
    ensures args == Some("") ==> r.value.results == Text(Join(HelpLines(IsParent(t, s)), '\n'))
    ensures args.Some? && args.value != "" ==> r.value.results == Said(Message("usage:?" + Lower(args.value), []))
  {
    if args.None? then Threw(InternalError)
    else if args.value == [] then Done(Effect(t, Text(Join(HelpLines(IsParent(t, s)), '\n'))))
    else Done(Effect(t, Said(Message("usage:?" + Lower(args.value), []))))
  }

  /** `cd` (`changeDefaultTo` and `setDefaultToPath`): the object at the path
    * becomes the default; a path that names no object is refused with
    * `cannotChangeDefault`. */
  function ChangeDefault(t: Tree, args: Option<string>): (r: Attempt<Effect>)
    requires Valid(t, false)
    ensures r.Done? ==> Valid(r.value.tree, false) && r.value.tree == t.(defaultObject := r.value.tree.defaultObject)
    ensures r.Done? <==> args.Some? && ObjectFromPath(t, false, args.value).Some?
    ensures r.Done? ==> ObjectFromPath(t, false, args.value) == Some(r.value.tree.defaultObject)
    ensures args.Some? && ObjectFromPath(t, false, args.value).None? ==> r == Threw(Thrown("cmd:cannotChangeDefault", [args.value]))
  {
    if args.None? then Threw(InternalError)
    else match ObjectFromPath(t, false, args.value)
      case None => Threw(Thrown("cmd:cannotChangeDefault", [args.value]))
      case Some(n) =>
        var t2 := t.(defaultObject := n);
        assert Shape(t2) && ParentsOk(t2) && AllFiled(t2, false);
        Done(Effect(t2, Said(Message("cmd:changedDefault", [PathOf(t, false, n)]))))
  }

  /** `cd` as written: `setDefaultToPath` builds its message with `this.t`,
    * which the processor does not have, so a path that names no object
    * raises a type error instead of `cannotChangeDefault`. */
  function ChangeDefaultAsWritten(t: Tree, args: Option<string>): (r: Attempt<Effect>)
    requires Valid(t, false)
    ensures args.Some? && ObjectFromPath(t, false, args.value).None? ==> r == Threw(InternalError)
    ensures args.Some? && ObjectFromPath(t, false, args.value).Some? ==> r == ChangeDefault(t, args)
  {
    if args.Some? && ObjectFromPath(t, false, args.value).None? then Threw(InternalError) else ChangeDefault(t, args)
  }

  /** As written, `cd` to a missing object reports a type error rather than
    * the message the source means to throw. */
  lemma ChangeDefaultCounterexample()
    ensures Valid(NewTree("root", "CommandParent"), false)
    ensures ChangeDefaultAsWritten(NewTree("root", "CommandParent"), Some("/x")) == Threw(InternalError)
    ensures ChangeDefault(NewTree("root", "CommandParent"), Some("/x")) == Threw(Thrown("cmd:cannotChangeDefault", ["/x"]))
  {
    var t := NewTree("root", "CommandParent");
    RootChildPath(t, false, "x");
  }

  /** The properties of an object (`this.properties`) with their values: the
    * name, the class name and every underscore property. */
  function Properties(t: Tree, s: nat): (r: map<string, string>)
    requires Valid(t, false) && Object(t, s)
    ensures r.Keys == t.extras[s].Keys + {"name", "className"}
    ensures r["name"] == t.names[s] && r["className"] == t.classNames[s]
    ensures forall k :: k in t.extras[s] && k != "name" && k != "className" ==> r[k] == t.extras[s][k]
  {
    t.extras[s]["name" := t.names[s]]["className" := t.classNames[s]]
  }

  /** `info` (`getInfo`): every property for `properties` (or a dotted path
    * under it), otherwise the class name and path. */
  function Info(t: Tree, s: nat, args: Option<string>): (r: Attempt<Effect>)
    requires Valid(t, false) && Object(t, s)
    ensures r.Done? ==> r.value.tree == t
    ensures r.Threw? <==> args.None?
    ensures args.Some? && Split(args.value, '.')[0] == "properties" ==> r.value.results == FieldInfo(Properties(t, s))
    ensures args.Some? && Split(args.value, '.')[0] != "properties" ==>
              r.value.results == Said(Message("cmd:classAndPath", [t.classNames[s], PathOf(t, false, s)]))
  {
    if args.None? then Threw(InternalError)
    else if Split(args.value, '.')[0] == "properties" then Done(Effect(t, FieldInfo(Properties(t, s))))
    else Done(Effect(t, Said(Message("cmd:classAndPath", [t.classNames[s], PathOf(t, false, s)]))))
  }

  /** `renameto`: the parent refiles the child filed under the subject's
    * name, exactly as written, under the new one; the root answers that it
    * cannot be renamed. */
  function RenameTo(t: Tree, s: nat, args: Option<string>): (r: Attempt<Effect>)
    requires Valid(t, false) && Object(t, s)
    ensures r.Done? ==> Valid(r.value.tree, false)
    ensures t.parents[s].None? ==> r == Done(Effect(t, Said(Message("cmd:cannotRenameTo", [t.names[s]]))))
    ensures t.parents[s].Some? ==>
              var p := t.parents[s].value;
              && (r.Done? <==> RenameChild(t, false, p, t.names[s], Shown(args)).Ok?)
              && (r.Done? ==> r.value.tree == RenameChild(t, false, p, t.names[s], Shown(args)).value)
              && (r.Threw? ==> r.failure.Thrown? && r.failure.key == RenameChild(t, false, p, t.names[s], Shown(args)).error)
  {
    match t.parents[s]
    case None => Done(Effect(t, Said(Message("cmd:cannotRenameTo", [t.names[s]]))))
    case Some(p) =>
      var to := Shown(args);
      match RenameChild(t, false, p, t.names[s], to)
      case Err(k) =>
        Threw(Thrown(k, if k == "childNotFound" then [PathOf(t, false, p), t.names[s]] else [to, PathOf(t, false, p)]))
      case Ok(t2) => Done(Effect(t2, Said(Message("cmd:childRenamed", [PathOf(t, false, s), t2.names[s]]))))
  }

  /** Renaming back to the old name restores the tree, when the subject is
    * the child filed under its name. */
  lemma RenameToBack(t: Tree, s: nat, args: Option<string>)
    requires Valid(t, false) && Object(t, s) && t.parents[s].Some?
    requires t.names[s] in t.children[t.parents[s].value] && t.children[t.parents[s].value][t.names[s]] == s
    requires RenameTo(t, s, args).Done?
    ensures RenameChild(RenameTo(t, s, args).value.tree, false, t.parents[s].value, Shown(args), t.names[s]) == Ok(t)
  {
    var p := t.parents[s].value;
    assert ChildNamed(t, false, p, t.names[s]) == Some(s);
    RenameBack(t, false, p, t.names[s], Shown(args));
  }

  /** `getValue`: an underscore property, by its whole name, when it holds
    * non-empty text, or one of the two built-in properties. */
  function GetValue(t: Tree, s: nat, name: string): (r: Option<string>)
    requires Valid(t, false) && Object(t, s)
    ensures |name| > 0 && name[0] == '_' ==> (r.Some? <==> name in t.extras[s] && t.extras[s][name] != [])
    ensures r.Some? && |name| > 0 && name[0] == '_' ==> r.value == t.extras[s][name]
    ensures (|name| == 0 || name[0] != '_') ==> (r.Some? <==> name == "name" || name == "className")
    ensures (|name| == 0 || name[0] != '_') && r.Some? ==> r.value == Properties(t, s)[name]
  {
    if |name| > 0 && name[0] == '_' then
      if name in t.extras[s] && t.extras[s][name] != [] then Some(t.extras[s][name]) else None
    else if name == "name" then Some(t.names[s])
    else if name == "className" then Some(t.classNames[s])
    else None
  }

  /** `get`: every property for `properties`, otherwise the one named. */
  function GetProperty(t: Tree, s: nat, args: Option<string>): (r: Attempt<Effect>)
    requires Valid(t, false) && Object(t, s)
    ensures r.Done? ==> r.value.tree == t
    ensures args == Some("properties") ==> r == Done(Effect(t, Fields(Properties(t, s))))
    ensures args.Some? && args.value != "properties" ==>
              && (r.Done? <==> GetValue(t, s, args.value).Some?)
              && (r.Done? ==> r.value.results == Text(GetValue(t, s, args.value).value))
              && (r.Threw? ==> r.failure == Thrown("cmd:propertyNotFound", [t.names[s], args.value]))
  {
    if args == Some("properties") then Done(Effect(t, Fields(Properties(t, s))))
    else if args.None? then Threw(InternalError)
    else match GetValue(t, s, args.value)
      case Some(v) => Done(Effect(t, Text(v)))
      case None => Threw(Thrown("cmd:propertyNotFound", [t.names[s], args.value]))
  }

  /** `setValue`: a name starting with `_` sets the property of that whole
    * name to the text, or deletes it when the text is empty; the built-in
    * properties are read-only and there are no others. */
  function SetValue(t: Tree, s: nat, name: string, value: string): (r: Option<Tree>)
    requires Valid(t, false) && Object(t, s)
    ensures r.Some? <==> |name| > 0 && name[0] == '_'
    ensures r.Some? ==> Valid(r.value, false) && r.value == t.(extras := r.value.extras)
    ensures r.Some? ==> r.value.extras.Keys == t.extras.Keys
                        && forall o :: o in t.extras && o != s ==> r.value.extras[o] == t.extras[o]
    ensures r.Some? && value != [] ==> r.value.extras[s] == t.extras[s][name := value]
    ensures r.Some? && value == [] ==> r.value.extras[s] == t.extras[s] - {name}
  {
    if |name| > 0 && name[0] == '_' then
      var own := if |value| > 0 then t.extras[s][name := value] else t.extras[s] - {name};
      var t2 := t.(extras := t.extras[s := own]);
      assert t2.extras.Keys == t.extras.Keys;
      assert Shape(t2) && ParentsOk(t2) && AllFiled(t2, false);
      Some(t2)
    else None
  }

  /** `get` reads back what `set` stored; `set` with no value deletes. */
  lemma GetAfterSet(t: Tree, s: nat, name: string, value: string)
    requires Valid(t, false) && Object(t, s) && |name| > 0 && name[0] == '_'
    ensures var t2 := SetValue(t, s, name, value).value;
            GetValue(t2, s, name) == (if value == [] then None else Some(value))
  {
  }

  /** The property name and value of a `set` argument string: the first
    * word, and the second or else empty text. */
  function SetWords(a: string): (r: (string, string))
    ensures var w := SplitArgs(a);
            r == (w[0], if |w| == 1 then "" else w[1])
  {
    var w := SplitArgs(a);
    (w[0], if |w| == 1 then "" else w[1])
  }

  /** `set`: sets the property named by the first word to the second word.
    * `properties` with JSON text is answered without a change. */
  function SetProperty(t: Tree, s: nat, args: Option<string>): (r: Attempt<Effect>)
    requires Valid(t, false) && Object(t, s)
    ensures r.Done? ==> Valid(r.value.tree, false)
    ensures args.None? ==> r == Threw(InternalError)
    ensures args.Some? && SetWords(args.value).0 != "properties" ==>
              var (name, value) := SetWords(args.value);
              && (r.Done? <==> SetValue(t, s, name, value).Some?)
              && (r.Done? ==> r.value == Effect(SetValue(t, s, name, value).value, Text(name + " = " + value)))
              && (r.Threw? ==> r.failure == Thrown("cmd:propertyNotFound", [t.names[s], name]))
  {
    if args.None? then Threw(InternalError)
    else
      var (name, value) := SetWords(args.value);
      if name == "properties" then Done(Effect(t, Text("properties set")))
      else match SetValue(t, s, name, value)
        case None => Threw(Thrown("cmd:propertyNotFound", [t.names[s], name]))
        case Some(t2) => Done(Effect(t2, Text(name + " = " + value)))
  }

  /** The keys of the children that match the pattern (every key for an
    * empty pattern). */
  function Listed(t: Tree, matches: Matcher, s: nat, pattern: string): (r: set<string>)
    requires Valid(t, false) && IsParent(t, s)
    ensures forall k :: k in r <==> k in t.children[s] && (pattern == [] || matches(k, pattern))
  {
    set k | k in t.children[s] && (pattern == [] || matches(k, pattern))
  }

  /** `list` (`listChildNames`): the matching child keys, sorted. */
  function ListChildNames(t: Tree, matches: Matcher, s: nat, args: Option<string>): (r: Attempt<Effect>)
    requires Valid(t, false) && IsParent(t, s)
    ensures r.Done? ==> r.value.tree == t && r.value.results.Names?
    ensures args.None? ==> (r.Done? <==> t.children[s] == map[])
    ensures args.Some? ==> r.Done? && Ascending(r.value.results.names)
    ensures args.Some? ==> forall k :: k in r.value.results.names <==> k in Listed(t, matches, s, args.value)
  {
    if args.None? then
      if t.children[s] == map[] then Done(Effect(t, Names([]))) else Threw(InternalError)
    else Done(Effect(t, Names(SortedSet(Listed(t, matches, s, args.value)))))
  }

  /** With an empty pattern `list` gives every child key. */
  lemma ListAll(t: Tree, matches: Matcher, s: nat)
    requires Valid(t, false) && IsParent(t, s)
    ensures var r := ListChildNames(t, matches, s, Some(""));
            r.Done? && forall k :: k in r.value.results.names <==> k in t.children[s]
  {
  }

  /** `createchild`: a class name and a child name separated by white space;
    * only the two base classes can be created, and the new child replaces
    * any filed under the same name. */
  function CreateChild(t: Tree, s: nat, args: Option<string>): (r: Attempt<Effect>)
    requires Valid(t, false) && IsParent(t, s)
    ensures r.Done? ==> Valid(r.value.tree, false)
    ensures args.None? ==> r == Threw(InternalError)
    ensures args.Some? ==>
              var w := SplitArgs(args.value);
              && (|w| < 2 ==> r == Threw(Thrown("usage:?createChild", [])))
              && (|w| >= 2 && w[0] != "CommandObject" && w[0] != "CommandParent" ==> r == Threw(Thrown("cmd:unknownClass", [w[0]])))
              && (|w| >= 2 && (w[0] == "CommandObject" || w[0] == "CommandParent") ==>
                    r == Done(Effect(AddChild(t, false, s, w[1], w[0], w[0] == "CommandParent"),
                                     SaidAll([Message("cmd:createdChild", [w[0], w[1]])]))))
  {
    if args.None? then Threw(InternalError)
    else
      var w := SplitArgs(args.value);
      if |w| < 2 then Threw(Thrown("usage:?createChild", []))
      else if w[0] == "CommandObject" || w[0] == "CommandParent" then
        Done(Effect(AddChild(t, false, s, w[1], w[0], w[0] == "CommandParent"), SaidAll([Message("cmd:createdChild", [w[0], w[1]])])))
      else Threw(Thrown("cmd:unknownClass", [w[0]]))
  }

  /** `removechild` (`removeChildNamed`): the child filed under exactly the
    * name is unfiled. */
  function RemoveChildNamed(t: Tree, s: nat, args: Option<string>): (r: Attempt<Effect>)
    requires Valid(t, false) && IsParent(t, s)
    ensures r.Done? <==> Shown(args) in t.children[s]
    ensures r.Done? ==> r.value.tree == RemoveChild(t, false, s, Shown(args)).value
    ensures r.Threw? ==> r.failure == Thrown("cmd:childNotFound", [PathOf(t, false, s), Shown(args)])
  {
    var name := Shown(args);
    match RemoveChild(t, false, s, name)
    case Err(_) => Threw(Thrown("cmd:childNotFound", [PathOf(t, false, s), name]))
    case Ok(t2) => Done(Effect(t2, SaidAll([Message("childRemoved", [PathOf(t, false, s), name])])))
  }

  /** Removing the child just created unfiles it again. */
  lemma CreateThenRemove(t: Tree, s: nat, args: Option<string>)
    requires Valid(t, false) && IsParent(t, s) && CreateChild(t, s, args).Done?
    ensures var w := SplitArgs(args.value);
            var t2 := CreateChild(t, s, args).value.tree;
            && IsParent(t2, s) && ChildNamed(t2, false, s, w[1]) == Some(t.nextId)
            && RemoveChildNamed(t2, s, Some(w[1])).Done?
            && ChildNamed(RemoveChildNamed(t2, s, Some(w[1])).value.tree, false, s, w[1]).None?
  {
    var w := SplitArgs(args.value);
    var t2 := CreateChild(t, s, args).value.tree;
    assert ChildNamed(t2, false, s, w[1]) == Some(t.nextId);
    var t3 := RemoveChild(t2, false, s, w[1]).value;
    assert t3.children[s] == t2.children[s] - {w[1]};
  }

  /** `createchild CommandObject A` at a new root files an object `A`. */
  lemma CreateOneChild()
    ensures CreateChild(NewTree("root", "CommandParent"), 0, Some("CommandObject A"))
            == Done(Effect(AddChild(NewTree("root", "CommandParent"), false, 0, "A", "CommandObject", false),
                           SaidAll([Message("cmd:createdChild", ["CommandObject", "A"])])))
  {
    assert NoSpace("CommandObject") && NoSpace("A");
    assert "CommandObject" != "CommandParent" by {
      assert "CommandObject"[7] != "CommandParent"[7];
    }
    assert "CommandObject A" == "CommandObject" + " " + "A";
    CreatedChild(NewTree("root", "CommandParent"), 0, "CommandObject", "A");
  }

  /** `createchild` with a class and a name separated by a space files the
    * child and says so. */
  lemma CreatedChild(t: Tree, s: nat, cls: string, name: string)
    requires Valid(t, false) && IsParent(t, s)
    requires cls == "CommandObject" || cls == "CommandParent"
    requires NoSpace(cls) && name != [] && NoSpace(name)
    ensures CreateChild(t, s, Some(cls + " " + name))
            == Done(Effect(AddChild(t, false, s, name, cls, cls == "CommandParent"),
                           SaidAll([Message("cmd:createdChild", [cls, name])])))
  {
    assert IsSpace(" "[0]);
    SplitArgsGap(cls, " ", name);
  }

  /** Children are found by their exact name: a child filed as `A` is not
    * found as `a`. */
  lemma ExactNames()
    ensures var t := AddChild(NewTree("root", "CommandParent"), false, 0, "A", "CommandObject", false);
            && Valid(t, false)
            && ObjectFromPath(t, false, "/A") == Some(1)
            && ObjectFromPath(t, false, "/a").None?
  {
    var t := AddChild(NewTree("root", "CommandParent"), false, 0, "A", "CommandObject", false);
    RootChildPath(t, false, "A");
    RootChildPath(t, false, "a");
  }

  function NotFound(t: Tree, s: nat, verb: string): (r: Attempt<Effect>)
    requires Valid(t, false) && Object(t, s)
    ensures r.Threw? && r.failure.Thrown? && r.failure.key == "cmd:commandNotFound"
  {
    Threw(Thrown("cmd:commandNotFound", [t.classNames[s], PathOf(t, false, s), verb]))
  }

  /** `performCommand`: the function filed under the verb in `commands`, or
    * `commandNotFound`. `read` calls a method the processor does not have,
    * which raises a type error. */
  function Perform(t: Tree, matches: Matcher, s: nat, verb: string, args: Option<string>): (r: Attempt<Effect>)
    requires Valid(t, false) && Object(t, s)
    ensures r.Done? ==> Valid(r.value.tree, false)
    ensures !IsVerb(IsParent(t, s), verb) ==> r == NotFound(t, s, verb)
    ensures verb == "read" ==> r == Threw(InternalError)
  {
    match verb
    case "?" => Help(t, s, args)
    case "cd" => ChangeDefault(t, args)
    case "info" => Info(t, s, args)
    case "read" => Threw(InternalError)
    case "renameto" => RenameTo(t, s, args)
    case "get" => GetProperty(t, s, args)
    case "set" => SetProperty(t, s, args)
    case "list" => if IsParent(t, s) then ListChildNames(t, matches, s, args) else NotFound(t, s, verb)
    case "createchild" => if IsParent(t, s) then CreateChild(t, s, args) else NotFound(t, s, verb)
    case "removechild" => if IsParent(t, s) then RemoveChildNamed(t, s, args) else NotFound(t, s, verb)
    case _ => NotFound(t, s, verb)
  }

  // ---------------------------------------------------------------------
  // One command

  /** `processCommand`: the tree afterwards, the command as filled in, and
    * what was reported through the error callback. It returns true exactly
    * when the command has results. */
  datatype Processed = Processed(tree: Tree, command: Command, reported: Option<Failure>)

  /** `processCommand`: reads the command and performs it on its subject;
    * what the verb throws is reported and the command fails. Only an
    * unclosed quote in the subject's term escapes as an exception. */
  function Process(t: Tree, matches: Matcher, expression: string): (r: Attempt<Processed>)
    requires Valid(t, false)
    ensures r.Threw? ==> r.failure == InternalError
    ensures r.Done? ==> Valid(r.value.tree, false) && r.value.command.expression == expression
    ensures r.Done? && r.value.command.results.None? ==> r.value.tree == t
    ensures r.Done? ==> (r.value.reported.Some? <==> r.value.command.subject.Some? && r.value.command.results.None?)
    ensures r.Done? && r.value.command.subject.None? ==> r.value.command == Command(expression, None, None, None, None)
  {
    match Address(t, false, expression)
    case Threw(f) => Threw(f)
    case Done(None) => Done(Processed(t, Command(expression, None, None, None, None), None))
    case Done(Some(a)) =>
      var cmd := Command(expression, Some(t.names[a.subject]), Some(a.verb), a.args, None);
      match Perform(t, matches, a.subject, a.verb, a.args)
      case Threw(f) => Done(Processed(t, cmd, Some(f)))
      case Done(e) => Done(Processed(e.tree, cmd.(results := Some(e.results)), None))
  }

  /** A command whose first term is blank fails without a report. */
  lemma BlankCommandFails(t: Tree, matches: Matcher, expression: string)
    requires Valid(t, false) && NextTerm(expression)[0] == []
    ensures Process(t, matches, expression) == Done(Processed(t, Command(expression, None, None, None, None), None))
  {
  }

  // ---------------------------------------------------------------------
  // A script of commands

  /** Where a script stands: still going, stopped by a failed command (the
    * script returns null), or ended by an exception that escapes it. */
  datatype Status = Going | Failed | Crashed(failure: Failure)

  /** The state of `processCommandString` after some commands: the tree,
    * the commands that succeeded, the reports made through the error
    * callback, the processor's `currentExpression`, and the status. */
  datatype Run = Run(tree: Tree, results: seq<Command>, reports: seq<Failure>, last: Option<string>, status: Status)

  function Reports(reported: Option<Failure>): (r: seq<Failure>)
    ensures |r| == (if reported.Some? then 1 else 0)
  {
    if reported.Some? then [reported.value] else []
  }

  /** Runs one command of the loop unless the script has stopped; a command
    * that fails stops it. */
  function Step(run: Run, matches: Matcher, cmd: string): (r: Run)
    requires Valid(run.tree, false)
    ensures Valid(r.tree, false)
    ensures !run.status.Going? ==> r == run
    ensures run.results <= r.results && |r.results| <= |run.results| + 1
  {
    if !run.status.Going? then run
    else match Process(run.tree, matches, cmd)
      case Threw(f) => run.(last := Some(cmd), status := Crashed(f))
      case Done(p) =>
        if p.command.results.Some? then Run(p.tree, run.results + [p.command], run.reports, Some(cmd), Going)
        else Run(p.tree, run.results, run.reports + Reports(p.reported), Some(cmd), Failed)
  }

  /** The commands of the loop, in order. */
  function RunAll(start: Run, matches: Matcher, cmds: seq<string>): (r: Run)
    requires Valid(start.tree, false)
    ensures Valid(r.tree, false)
    decreases |cmds|
  {
    if cmds == [] then start else Step(RunAll(start, matches, cmds[..|cmds| - 1]), matches, cmds[|cmds| - 1])
  }

  /** The continued command left open after the last line: run, and added
    * to the results whether or not it succeeds. */
  function Finish(run: Run, matches: Matcher, cmd: string): (r: Run)
    requires Valid(run.tree, false)
    ensures Valid(r.tree, false)
    ensures !run.status.Going? ==> r == run
    ensures run.status.Going? && Process(run.tree, matches, cmd).Done? ==>
              && r.status.Going?
              && r.results == run.results + [Process(run.tree, matches, cmd).value.command]
  {
    if !run.status.Going? then run
    else match Process(run.tree, matches, cmd)
      case Threw(f) => run.(last := Some(cmd), status := Crashed(f))
      case Done(p) => Run(p.tree, run.results + [p.command], run.reports + Reports(p.reported), Some(cmd), Going)
  }

  /** `processCommandString`: the commands of the script's lines, then the
    * continued command left open, if any. */
  function RunScript(start: Run, matches: Matcher, commands: string, continuation: bool): (r: Run)
    requires Valid(start.tree, false)
    ensures Valid(r.tree, false)
  {
    var a := Assemble(ScriptLines(commands), continuation);
    var run := RunAll(start, matches, a.commands);
    if a.continued != [] then Finish(run, matches, a.continued) else run
  }

  /** What `processCommandString` returns: the commands, null once one has
    * failed, or the exception that escaped. */
  function ScriptResult(run: Run): (r: Attempt<Option<seq<Command>>>)
    ensures r.Done? && r.value.Some? <==> run.status.Going?
    ensures r.Done? && r.value.Some? ==> r.value.value == run.results
  {
    match run.status
    case Going => Done(Some(run.results))
    case Failed => Done(None)
    case Crashed(f) => Threw(f)
  }

  /** Once a command has failed or thrown, the commands after it change
    * nothing. */
  lemma {:induction false} RunStopsAtFailure(start: Run, matches: Matcher, cmds: seq<string>, more: seq<string>)
    requires Valid(start.tree, false) && cmds <= more
    requires !RunAll(start, matches, cmds).status.Going?
    ensures RunAll(start, matches, more) == RunAll(start, matches, cmds)
    decreases |more|
  {
    if |more| > |cmds| {
      var front := more[..|more| - 1];
      assert cmds <= front by {
        assert forall k :: 0 <= k < |cmds| ==> cmds[k] == more[k] == front[k];
      }
      RunStopsAtFailure(start, matches, cmds, front);
    } else {
      assert more == cmds;
    }
  }

  /** A failing command ends the script, which then returns null, unless an
    * exception escapes first. */
  lemma {:induction false} FailureIsFinal(start: Run, matches: Matcher, commands: string, continuation: bool, i: nat)
    requires Valid(start.tree, false)
    requires var cmds := Assemble(ScriptLines(commands), continuation).commands;
             i <= |cmds| && RunAll(start, matches, cmds[..i]).status.Failed?
    ensures ScriptResult(RunScript(start, matches, commands, continuation)) == Done(None)
  {
    var cmds := Assemble(ScriptLines(commands), continuation).commands;
    RunStopsAtFailure(start, matches, cmds[..i], cmds);
  }

  /** Running one more command of the loop is one more step. */
  lemma RunAllSnoc(start: Run, matches: Matcher, cmds: seq<string>, cmd: string)
    requires Valid(start.tree, false)
    ensures RunAll(start, matches, cmds + [cmd]) == Step(RunAll(start, matches, cmds), matches, cmd)
  {
    var all := cmds + [cmd];
    assert all != [] && all[..|all| - 1] == cmds && all[|all| - 1] == cmd;
  }

  /** `CommandProcessor`: the tree of command objects with the processor's
    * root and default object, line continuation, the expression last
    * processed, and the messages passed to the error callback. `matches`
    * stands for the regular expressions `list` uses. */
  class Processor {
    var tree: Tree
    var useLineContinuation: bool
    var currentExpression: Option<string>
    var reports: seq<Failure>
    const matches: Matcher

    /** A processor with a new root parent object (`setRoot`). */
    constructor (rootName: string, matches: Matcher)
      ensures tree == NewTree(rootName, "CommandParent") && Valid(tree, false)
      ensures useLineContinuation && currentExpression.None? && reports == [] && this.matches == matches
    {
      tree := NewTree(rootName, "CommandParent");
      useLineContinuation := true;
      currentExpression := None;
      reports := [];
      this.matches := matches;
    }

    /** `processCommand`: the command as filled in; it returned true when the
      * command has results. */
    method ProcessCommand(expression: string) returns (r: Attempt<Command>)
      requires Valid(tree, false)
      modifies this
      ensures Valid(tree, false)
      ensures var p := Process(old(tree), matches, expression);
              && r == (if p.Done? then Done(p.value.command) else Threw(p.failure))
              && tree == (if p.Done? then p.value.tree else old(tree))
              && reports == old(reports) + (if p.Done? then Reports(p.value.reported) else [])
      ensures currentExpression == Some(expression) && useLineContinuation == old(useLineContinuation)
    {
      currentExpression := Some(expression);
      var p := Process(tree, matches, expression);
      if p.Done? {
        tree := p.value.tree;
        reports := reports + Reports(p.value.reported);
        r := Done(p.value.command);
      } else {
        r := Threw(p.failure);
      }
    }

    /** Runs one command of the loop and records it in the run. */
    method RunCommand(cmd: string, ghost start: Run, ghost cmds: seq<string>, results: seq<Command>)
      returns (results': seq<Command>, status: Status)
      requires Valid(start.tree, false) && RunAll(start, matches, cmds) == Run(tree, results, reports, currentExpression, Going)
      modifies this
      ensures useLineContinuation == old(useLineContinuation)
      ensures RunAll(start, matches, cmds + [cmd]) == Run(tree, results', reports, currentExpression, status)
    {
      assert Valid(tree, false);
      var r := ProcessCommand(cmd);
      results' := results;
      if r.Threw? {
        status := Crashed(r.failure);
      } else if r.value.results.Some? {
        results' := results + [r.value];
        status := Going;
      } else {
        status := Failed;
      }
      RunAllSnoc(start, matches, cmds, cmd);
    }

    /** One pass of the loop of `processCommandString`: reads the line and
      * runs the command it completes, if any. */
    method RunLine(line: string, continued: string, ghost start: Run, ghost before: Script, results: seq<Command>)
      returns (results': seq<Command>, status: Status, continued': string)
      requires before.continued == continued && (!useLineContinuation ==> continued == "")
      requires Valid(start.tree, false) && RunAll(start, matches, before.commands) == Run(tree, results, reports, currentExpression, Going)
      modifies this
      ensures useLineContinuation == old(useLineContinuation)
      ensures var after := Extend(before, line, useLineContinuation);
              && continued' == after.continued
              && RunAll(start, matches, after.commands) == Run(tree, results', reports, currentExpression, status)
    {
      var cmd;
      cmd, continued' := ReadLine(line, continued, useLineContinuation, before);
      if |cmd| > 0 {
        results', status := RunCommand(cmd, start, before.commands, results);
      } else {
        assert before.commands + NonBlank(cmd) == before.commands;
        results', status := results, Going;
      }
    }

    /** The loop of `processCommandString` over the lines of a script: each
      * command is run as soon as it is complete, and the first that fails
      * ends the loop. */
    method RunLines(lines: seq<string>, ghost start: Run) returns (results: seq<Command>, status: Status, continued: string)
      requires Valid(tree, false) && start == Run(tree, [], reports, currentExpression, Going)
      modifies this
      ensures useLineContinuation == old(useLineContinuation)
      ensures status.Going? ==> continued == Assemble(lines, useLineContinuation).continued
      ensures RunAll(start, matches, Assemble(lines, useLineContinuation).commands) == Run(tree, results, reports, currentExpression, status)
    {
      results := [];
      status := Going;
      continued := "";
      var i := 0;
      while i < |lines|
        invariant 0 <= i <= |lines| && status.Going?
        invariant useLineContinuation == old(useLineContinuation)
        invariant Assemble(lines[..i], useLineContinuation).continued == continued
        invariant RunAll(start, matches, Assemble(lines[..i], useLineContinuation).commands)
                  == Run(tree, results, reports, currentExpression, Going)
      {
        AssembleNext(lines, i, useLineContinuation);
        results, status, continued := RunLine(lines[i], continued, start, Assemble(lines[..i], useLineContinuation), results);
        if !status.Going? {
          AssemblePrefix(lines, i + 1, useLineContinuation);
          RunStopsAtFailure(start, matches, Assemble(lines[..i + 1], useLineContinuation).commands,
                            Assemble(lines, useLineContinuation).commands);
          return;
        }
        i := i + 1;
      }
      assert lines[..i] == lines;
    }

    /** `processCommandString`: runs the commands of the script in order and
      * returns them, or null as soon as one fails; a continued command left
      * open after the last line is run last and returned even if it fails. */
    method ProcessCommandString(commands: string) returns (r: Attempt<Option<seq<Command>>>)
      requires Valid(tree, false)
      modifies this
      ensures var run := RunScript(Run(old(tree), [], old(reports), old(currentExpression), Going), matches,
                                   commands, old(useLineContinuation));
              && r == ScriptResult(run)
              && tree == run.tree && reports == run.reports && currentExpression == run.last
    {
      ghost var start := Run(tree, [], reports, currentExpression, Going);
      var lines := ScriptLines(commands);
      ghost var script := Assemble(lines, useLineContinuation);
      var results, status, continued := RunLines(lines, start);
      if status.Going? && |continued| > 0 {
        assert Valid(start.tree, false);
        currentExpression := Some(continued);
        var p := Process(tree, matches, continued);
        if p.Done? {
          tree := p.value.tree;
          reports := reports + Reports(p.value.reported);
          results := results + [p.value.command];
        } else {
          status := Crashed(p.failure);
        }
      }
      r := match status
        case Going => Done(Some(results))
        case Failed => Done(None)
        case Crashed(f) => Threw(f);
    }
  }
}
