/** The command interpreter of the calculation worker: a processor that
  * reads a command as a subject path, a verb and an argument string, and
  * the verbs every command object and command parent answers. Children are
  * filed under lower-cased names. A command that throws ends the script it
  * belongs to, and the processor records what was thrown. */
module Commands {
  import opened Wrappers
  import opened Strs
  import opened CommandText
  import opened CommandTrees
  import opened CommandReading

  /** The tree after a verb, its results and its undo command. */
  datatype Effect = Effect(tree: Tree, results: Reply, undo: Option<string>)

  /** `MMCommand` once processed; `args` is `None` when the source leaves it
    * undefined. */
  datatype Command = Command(expression: string, subject: string, verb: string, args: Option<string>,
                             results: Reply, undo: Option<string>)

  /** `processCommand`: the tree afterwards, and the command when it was
    * carried out (`None` when it returned false). */
  datatype Outcome = Outcome(tree: Tree, command: Option<Command>)

  /** The properties every command object has. */
  function Builtins(t: Tree, s: nat): (r: map<string, string>)
    requires Valid(t, true) && Object(t, s)
    ensures r.Keys == {"name", "className"} && r["name"] == t.names[s] && r["className"] == t.classNames[s]
  {
    map["name" := t.names[s], "className" := t.classNames[s]]
  }

  // ---------------------------------------------------------------------
  // Verbs

  /** The verbs of a command object, and of a command parent. */
  predicate IsVerb(isParent: bool, v: string)
  {
    match v
    case "help" | "cd" | "info" | "renameto" | "get" | "set" => true
    case "list" | "createchild" | "removechild" => isParent
    case _ => false
  }

  /** The verbs of the subject's class: the keys of `verbs`. */
  function Verbs(isParent: bool): (r: set<string>)
    ensures forall v :: v in r <==> IsVerb(isParent, v)
  {
    var own := {"help", "cd", "info", "renameto", "get", "set"};
    if isParent then own + {"list", "createchild", "removechild"} else own
  }

  /** `getVerbUsageKey`: the message key of a verb's usage, by the tables of
    * the object and parent classes. */
  function UsageKey(isParent: bool, v: string): (r: Option<string>)
  {
    match v
    case "help" => Some("cmd:?help")
    case "cd" => Some("cmd:?cd")
    case "info" => Some("cmd:?info")
    case "renameto" => Some("cmd:?renameto")
    case "get" => Some("cmd:?get")
    case "set" => Some("cmd:?set")
    case "list" => if isParent then Some("cmd:?list") else None
    case "createchild" => if isParent then Some("cmd:?createchild") else None
    case "removechild" => if isParent then Some("cmd:?removechild") else None
    case _ => None
  }

  /** Every verb has a usage key, `cmd:?` and its name; nothing else has one. */
  lemma UsageKeyOfVerbs(isParent: bool, v: string)
    ensures UsageKey(isParent, v).Some? <==> IsVerb(isParent, v)
    ensures UsageKey(isParent, v).Some? ==> UsageKey(isParent, v).value == "cmd:?" + v
  {
  }

  /** `help`: the usage of the named verb, whatever its case, or the sorted
    * verb list. */
  function Help(t: Tree, s: nat, args: Option<string>): (r: Attempt<Effect>)
    requires Valid(t, true) && Object(t, s)
    ensures r.Done? ==> r.value.tree == t && r.value.undo.None?
    ensures r.Threw? <==> args.None?
    ensures args == Some("") ==> && r.value.results.Names? && Ascending(r.value.results.names)
                                 && forall v :: v in r.value.results.names <==> IsVerb(IsParent(t, s), v)
    ensures args.Some? && args.value != "" && UsageKey(IsParent(t, s), Lower(args.value)).None? ==>
              r.value.results == Said(Message("cmd:unknownCommand", [args.value]))
  {
    if args.None? then Threw(InternalError)
    else if args.value == [] then Done(Effect(t, Names(SortedSet(Verbs(IsParent(t, s)))), None))
    else match UsageKey(IsParent(t, s), Lower(args.value))
      case Some(k) => Done(Effect(t, Said(Message(k, [])), None))
      case None => Done(Effect(t, Said(Message("cmd:unknownCommand", [args.value])), None))
  }

  /** `cd` (`changeDefaultTo` and `setDefaultToPath`): the object at the path
    * becomes the default; the undo command changes back. */
  function ChangeDefault(t: Tree, args: Option<string>): (r: Attempt<Effect>)
    requires Valid(t, true)
    ensures r.Done? ==> Valid(r.value.tree, true) && r.value.tree == t.(defaultObject := r.value.tree.defaultObject)
    ensures r.Done? ==> args.Some? && ObjectFromPath(t, true, args.value) == Some(r.value.tree.defaultObject)
    ensures r.Done? ==> r.value.undo == Some("cd " + PathOf(t, true, t.defaultObject))
    ensures args.Some? && ObjectFromPath(t, true, args.value).None? ==> r == Threw(Thrown("cmd:cannotChangeDefault", [args.value]))
  {
    if args.None? then Threw(InternalError)
    else match ObjectFromPath(t, true, args.value)
      case None => Threw(Thrown("cmd:cannotChangeDefault", [args.value]))
      case Some(n) =>
        var t2 := t.(defaultObject := n);
        assert Shape(t2) && ParentsOk(t2) && AllFiled(t2, true);
        Done(Effect(t2, Said(Message("cmd:changedDefault", [PathOf(t, true, n)])), Some("cd " + PathOf(t, true, t.defaultObject))))
  }

  /** `info`: the property list for `properties` (or a dotted path under
    * it), otherwise the class name and path. */
  function Info(t: Tree, s: nat, args: Option<string>): (r: Attempt<Effect>)
    requires Valid(t, true) && Object(t, s)
    ensures r.Done? ==> r.value.tree == t && r.value.undo.None?
    ensures r.Threw? <==> args.None?
    ensures r.Done? && r.value.results.Said? ==> r.value.results.message.args == [t.classNames[s], PathOf(t, true, s)]
  {
    if args.None? then Threw(InternalError)
    else if Split(args.value, '.')[0] == "properties" then Done(Effect(t, FieldInfo(Builtins(t, s)), None))
    else Done(Effect(t, Said(Message("cmd:classAndPath", [t.classNames[s], PathOf(t, true, s)])), None))
  }

  /** `renameto`: the parent refiles the child under the new name; the undo
    * command renames it back. The root cannot be renamed. */
  function RenameTo(t: Tree, s: nat, args: Option<string>): (r: Attempt<Effect>)
    requires Valid(t, true) && Object(t, s)
    ensures r.Done? ==> Valid(r.value.tree, true)
    ensures t.parents[s].None? ==> r.Done? && r.value.tree == t && r.value.undo.None?
    ensures r.Done? && t.parents[s].Some? ==>
              args.Some? && RenameChild(t, true, t.parents[s].value, t.names[s], args.value) == Ok(r.value.tree)
              && r.value.undo == Some(PathOf(r.value.tree, true, s) + " renameTo " + t.names[s])
  {
    match t.parents[s]
    case None => Done(Effect(t, Said(Message("cmd:cannotRenameTo", [t.names[s], Shown(args)])), None))
    case Some(p) =>
      if args.None? then Threw(InternalError)
      else match RenameChild(t, true, p, t.names[s], args.value)
        case Err(k) =>
          Threw(Thrown(k, if k == "childNotFound" then [PathOf(t, true, p), t.names[s]] else [args.value, PathOf(t, true, p)]))
        case Ok(t2) =>
          Done(Effect(t2, Said(Message("cmd:childRenamed", [PathOf(t, true, s), t2.names[s]])),
                      Some(PathOf(t2, true, s) + " renameTo " + t.names[s])))
  }

  /** `getValue`: an underscore property by the name after the `_` when it
    * is set to non-empty text, or one of the built-in properties. */
  function GetValue(t: Tree, s: nat, name: string): (r: Option<string>)
    requires Valid(t, true) && Object(t, s)
    ensures r.Some? && |name| > 0 && name[0] == '_' ==> name[1..] in t.extras[s] && r.value == t.extras[s][name[1..]] != []
    ensures (|name| == 0 || name[0] != '_') ==> (r.Some? <==> name in Builtins(t, s))
    ensures (|name| == 0 || name[0] != '_') && r.Some? ==> r.value == Builtins(t, s)[name]
  {
    if |name| > 0 && name[0] == '_' then
      if name[1..] in t.extras[s] && t.extras[s][name[1..]] != [] then Some(t.extras[s][name[1..]]) else None
    else if name == "name" then Some(t.names[s])
    else if name == "className" then Some(t.classNames[s])
    else None
  }

  /** `get`: every property for `properties`, otherwise the one named. */
  function GetProperty(t: Tree, s: nat, args: Option<string>): (r: Attempt<Effect>)
    requires Valid(t, true) && Object(t, s)
    ensures r.Done? ==> r.value.tree == t && r.value.undo.None?
    ensures args.Some? && args.value != "properties" ==>
              (r.Done? <==> GetValue(t, s, args.value).Some?)
  {
    if args.None? then Threw(InternalError)
    else if args.value == "properties" then Done(Effect(t, Fields(Builtins(t, s)), None))
    else match GetValue(t, s, args.value)
      case Some(v) => Done(Effect(t, Text(v), None))
      case None => Threw(Thrown("cmd:propertyNotFound", [t.names[s], args.value]))
  }

  /** `setValue`: a name starting with `_` sets the property named by the
    * rest to the text, or removes it when the text is empty; the built-in
    * properties are read-only and there are no others. */
  function SetValue(t: Tree, s: nat, name: string, value: string): (r: Option<Tree>)
    requires Valid(t, true) && Object(t, s)
    ensures r.Some? <==> |name| > 0 && name[0] == '_'
    ensures r.Some? ==> Valid(r.value, true) && r.value == t.(extras := r.value.extras)
    ensures r.Some? ==> r.value.extras.Keys == t.extras.Keys
                        && forall o :: o in t.extras && o != s ==> r.value.extras[o] == t.extras[o]
    ensures r.Some? && value != [] ==> r.value.extras[s] == t.extras[s][name[1..] := value]
    ensures r.Some? && value == [] ==> r.value.extras[s] == t.extras[s] - {name[1..]}
  {
    if |name| > 0 && name[0] == '_' then
      var own := if |value| > 0 then t.extras[s][name[1..] := value] else t.extras[s] - {name[1..]};
      var t2 := t.(extras := t.extras[s := own]);
      assert t2.extras.Keys == t.extras.Keys;
      assert Shape(t2) && ParentsOk(t2) && AllFiled(t2, true);
      Some(t2)
    else None
  }

  /** The value a property had before `set`, or empty text: an underscore
    * property is stored under the name after its `_`. */
  function OldValue(t: Tree, s: nat, name: string): (r: string)
    requires Valid(t, true) && Object(t, s)
    ensures |name| > 0 && name[0] == '_' && name[1..] in t.extras[s] ==> r == t.extras[s][name[1..]]
    ensures !(|name| > 0 && name[0] == '_' && name[1..] in t.extras[s]) ==> r == ""
  {
    if |name| > 0 && name[0] == '_' && name[1..] in t.extras[s] then t.extras[s][name[1..]] else ""
  }

  /** The value `set` reads as the old one, as written: the property is
    * looked up under the whole name, `_` included, where `setValue` never
    * stores it. */
  function OldValueAsWritten(t: Tree, s: nat, name: string): (r: string)
    requires Valid(t, true) && Object(t, s)
    ensures name in t.extras[s] ==> r == t.extras[s][name]
    ensures name !in t.extras[s] ==> r == ""
  {
    if name in t.extras[s] then t.extras[s][name] else ""
  }

  /** Setting a property back to the value it had before, as the undo of
    * `set` does, restores every property of every object, provided the
    * properties hold non-empty text as `setValue` leaves them. */
  lemma SetUndoRestores(t: Tree, s: nat, name: string, value: string)
    requires Valid(t, true) && Object(t, s) && |name| > 0 && name[0] == '_'
    requires name[1..] in t.extras[s] ==> t.extras[s][name[1..]] != []
    ensures var t2 := SetValue(t, s, name, value).value;
            SetValue(t2, s, name, OldValue(t, s, name)) == Some(t)
  {
    var t2 := SetValue(t, s, name, value).value;
    var t3 := SetValue(t2, s, name, OldValue(t, s, name)).value;
    assert t3.extras[s] == t.extras[s];
    assert t3.extras == t.extras;
  }

  /** As written, the undo of `set` on a property that had a value removes
    * it: the old value it reads is always empty. */
  lemma SetUndoAsWrittenCounterexample()
    ensures var t := NewTree("root", "MMCommandParent").(extras := map[0 := map["x" := "1"]]);
            && Valid(t, true)
            && OldValueAsWritten(t, 0, "_x") == ""
            && SetValue(SetValue(t, 0, "_x", "2").value, 0, "_x", OldValueAsWritten(t, 0, "_x")).value.extras[0] == map[]
            && OldValue(t, 0, "_x") == "1"
  {
    var t := NewTree("root", "MMCommandParent").(extras := map[0 := map["x" := "1"]]);
    assert Shape(t) && ParentsOk(t) && AllFiled(t, true);
    assert "_x"[1..] == "x";
    assert "_x" !in t.extras[0];
    var t2 := SetValue(t, 0, "_x", "2").value;
    assert t2.extras[0] == map["x" := "2"];
    assert t2.extras[0] - {"x"} == map[];
  }

  /** A `set` argument string: the property name runs to the first space
    * and the value is all that follows it. */
  function SetArgs(a: string): (r: (string, string))
    ensures Lacks(r.0, ' ')
    ensures Lacks(a, ' ') ==> r == (a, "")
    ensures !Lacks(a, ' ') ==> a == r.0 + " " + r.1
  {
    var space := IndexOf(a, ' ', 0);
    if space < 0 then (a, "")
    else
      assert a == a[..space] + " " + a[space + 1..];
      (a[..space], a[space + 1..])
  }

  /** `set`: sets the named property to the value. `properties` with JSON
    * text is answered without a change. */
  function SetProperty(t: Tree, s: nat, args: Option<string>): (r: Attempt<Effect>)
    requires Valid(t, true) && Object(t, s)
    ensures r.Done? ==> Valid(r.value.tree, true)
    ensures (args.None? || args == Some("")) ==> r == Threw(Thrown("usage:?setValue", []))
    ensures args.Some? && args.value != [] && SetArgs(args.value).0 != "properties" ==>
              var (name, value) := SetArgs(args.value);
              && (r.Done? <==> SetValue(t, s, name, value).Some?)
              && (r.Done? ==> && r.value.tree == SetValue(t, s, name, value).value
                              && r.value.undo == Some(PathOf(t, true, s) + " set " + name + " " + OldValue(t, s, name)))
              && (r.Threw? ==> r.failure == Thrown("cmd:propertyNotFound", [t.names[s], name]))
  {
    if args.None? || args.value == [] then Threw(Thrown("usage:?setValue", []))
    else
      var (name, value) := SetArgs(args.value);
      if name == "properties" then Done(Effect(t, Text("properties set"), None))
      else match SetValue(t, s, name, value)
        case None => Threw(Thrown("cmd:propertyNotFound", [t.names[s], name]))
        case Some(t2) => Done(Effect(t2, Text(name + " = " + value), Some(PathOf(t, true, s) + " set " + name + " " + OldValue(t, s, name))))
  }

  /** The names of the children whose keys match the pattern (every child
    * for an empty pattern). */
  function Listed(t: Tree, matches: Matcher, s: nat, pattern: string): (r: set<string>)
    requires Valid(t, true) && IsParent(t, s)
    ensures forall k :: k in t.children[s] && (pattern == [] || matches(k, pattern)) ==> t.names[t.children[s][k]] in r
  {
    assert Filed(t, true, s);
    set k | k in t.children[s] && (pattern == [] || matches(k, pattern)) :: t.names[t.children[s][k]]
  }

  /** `list`: the names of the matching children, sorted. */
  function ListChildNames(t: Tree, matches: Matcher, s: nat, args: Option<string>): (r: Attempt<Effect>)
    requires Valid(t, true) && IsParent(t, s)
    ensures r.Done? ==> r.value.tree == t && r.value.undo.None? && r.value.results.Names?
    ensures args.Some? ==> r.Done? && Ascending(r.value.results.names)
    ensures args.Some? ==> forall n :: n in r.value.results.names <==> n in Listed(t, matches, s, args.value)
  {
    if args.None? then
      if t.children[s] == map[] then Done(Effect(t, Names([]), None)) else Threw(InternalError)
    else Done(Effect(t, Names(SortedSet(Listed(t, matches, s, args.value))), None))
  }

  /** `createChildFromArgs`: a class name and a child name, separated by
    * white space; only the two base classes can be created. */
  function CreateChildFromArgs(t: Tree, s: nat, args: Option<string>): (r: Attempt<Effect>)
    requires Valid(t, true) && IsParent(t, s)
    ensures r.Done? ==> Valid(r.value.tree, true)
    ensures r.Done? ==> args.Some? && var w := SplitArgs(args.value);
              && |w| >= 2 && (w[0] == "MMCommandObject" || w[0] == "MMCommandParent")
              && r.value.tree == AddChild(t, true, s, w[1], w[0], w[0] == "MMCommandParent")
              && r.value.undo == Some(PathOf(t, true, s) + " removechild " + w[1])
    ensures args.Some? && |SplitArgs(args.value)| < 2 ==> r == Threw(Thrown("usage:?createChild", []))
  {
    if args.None? then Threw(InternalError)
    else
      var w := SplitArgs(args.value);
      if |w| < 2 then Threw(Thrown("usage:?createChild", []))
      else if w[0] == "MMCommandObject" || w[0] == "MMCommandParent" then
        var t2 := AddChild(t, true, s, w[1], w[0], w[0] == "MMCommandParent");
        Done(Effect(t2, SaidAll([Message("cmd:createdChild", [w[0], w[1]])]), Some(PathOf(t, true, s) + " removechild " + w[1])))
      else Threw(Thrown("cmd:unknownClass", [w[0]]))
  }

  /** `removeChildNamed`: the child filed under the name is unfiled. */
  function RemoveChildNamed(t: Tree, s: nat, args: Option<string>): (r: Attempt<Effect>)
    requires Valid(t, true) && IsParent(t, s)
    ensures r.Done? ==> args.Some? && RemoveChild(t, true, s, args.value) == Ok(r.value.tree)
    ensures args.Some? && RemoveChild(t, true, s, args.value).Err? ==>
              r == Threw(Thrown("cmd:childNotFound", [PathOf(t, true, s), args.value]))
  {
    if args.None? then Threw(InternalError)
    else match RemoveChild(t, true, s, args.value)
      case Err(_) => Threw(Thrown("cmd:childNotFound", [PathOf(t, true, s), args.value]))
      case Ok(t2) => Done(Effect(t2, Said(Message("cmd:removedChild", [args.value])), None))
  }

  /** The undo command of `renameto` files the child under its old name
    * again and restores the tree, when the subject is the child filed under
    * its name. */
  lemma RenameToUndo(t: Tree, s: nat, args: Option<string>)
    requires Valid(t, true) && Object(t, s) && t.parents[s].Some?
    requires Key(true, t.names[s]) in t.children[t.parents[s].value]
    requires t.children[t.parents[s].value][Key(true, t.names[s])] == s
    requires RenameTo(t, s, args).Done?
    ensures RenameChild(RenameTo(t, s, args).value.tree, true, t.parents[s].value, args.value, t.names[s]) == Ok(t)
  {
    var p := t.parents[s].value;
    assert ChildNamed(t, true, p, t.names[s]) == Some(s);
    RenameBack(t, true, p, t.names[s], args.value);
  }

  /** `get` reads back what `set` stored in an underscore property; `set`
    * with no value removes it. */
  lemma GetAfterSet(t: Tree, s: nat, name: string, value: string)
    requires Valid(t, true) && Object(t, s) && |name| > 0 && name[0] == '_'
    ensures var t2 := SetValue(t, s, name, value).value;
            GetValue(t2, s, name) == (if value == [] then None else Some(value))
  {
  }

  /** The undo command of `createchild` removes the child it created. */
  lemma CreateUndo(t: Tree, s: nat, args: Option<string>)
    requires Valid(t, true) && IsParent(t, s) && CreateChildFromArgs(t, s, args).Done?
    ensures var w := SplitArgs(args.value);
            var t2 := CreateChildFromArgs(t, s, args).value.tree;
            && IsParent(t2, s) && ChildNamed(t2, true, s, w[1]) == Some(t.nextId)
            && RemoveChildNamed(t2, s, Some(w[1])).Done?
            && ChildNamed(RemoveChildNamed(t2, s, Some(w[1])).value.tree, true, s, w[1]).None?
  {
    var w := SplitArgs(args.value);
    var t2 := CreateChildFromArgs(t, s, args).value.tree;
    assert ChildNamed(t2, true, s, w[1]) == Some(t.nextId);
    var t3 := RemoveChild(t2, true, s, w[1]).value;
    assert t3.children[s] == t2.children[s] - {Key(true, w[1])};
  }

  function NotFound(t: Tree, s: nat, verb: string): (r: Attempt<Effect>)
    requires Valid(t, true) && Object(t, s)
    ensures r.Threw? && r.failure.Thrown? && r.failure.key == "cmd:commandNotFound"
  {
    Threw(Thrown("cmd:commandNotFound", [t.classNames[s], PathOf(t, true, s), verb]))
  }

  /** `performCommand`: the verb's method, or `commandNotFound` for a verb
    * the subject's class does not have. */
  function Perform(t: Tree, matches: Matcher, s: nat, verb: string, args: Option<string>): (r: Attempt<Effect>)
    requires Valid(t, true) && Object(t, s)
    ensures r.Done? ==> Valid(r.value.tree, true)
    ensures !IsVerb(IsParent(t, s), verb) ==> r == NotFound(t, s, verb)
  {
    match verb
    case "help" => Help(t, s, args)
    case "cd" => ChangeDefault(t, args)
    case "info" => Info(t, s, args)
    case "renameto" => RenameTo(t, s, args)
    case "get" => GetProperty(t, s, args)
    case "set" => SetProperty(t, s, args)
    case "list" => if IsParent(t, s) then ListChildNames(t, matches, s, args) else NotFound(t, s, verb)
    case "createchild" => if IsParent(t, s) then CreateChildFromArgs(t, s, args) else NotFound(t, s, verb)
    case "removechild" => if IsParent(t, s) then RemoveChildNamed(t, s, args) else NotFound(t, s, verb)
    case _ => NotFound(t, s, verb)
  }

  // ---------------------------------------------------------------------
  // One command

  /** `processCommand`: reads the command and performs it on its subject. */
  function Process(t: Tree, matches: Matcher, expression: string): (r: Attempt<Outcome>)
    requires Valid(t, true)
    ensures r.Done? ==> Valid(r.value.tree, true)
    ensures r.Done? && r.value.command.None? ==> r.value.tree == t
    ensures r.Done? && r.value.command.Some? ==> r.value.command.value.expression == expression
  {
    match Address(t, true, expression)
    case Threw(f) => Threw(f)
    case Done(None) => Done(Outcome(t, None))
    case Done(Some(a)) =>
      match Perform(t, matches, a.subject, a.verb, a.args)
      case Threw(f) => Threw(f)
      case Done(e) => Done(Outcome(e.tree, Some(Command(expression, t.names[a.subject], a.verb, a.args, e.results, e.undo))))
  }

  /** A command whose first term is blank does nothing and returns false. */
  lemma BlankCommand(t: Tree, matches: Matcher, expression: string)
    requires Valid(t, true) && NextTerm(expression)[0] == []
    ensures Process(t, matches, expression) == Done(Outcome(t, None))
  {
  }

  /** The path of an object and whether it is reachable do not depend on
    * which object is the default. */
  lemma {:induction false} PathIgnoresDefault(t: Tree, n: nat, id: nat)
    requires Valid(t, true) && Object(t, id) && Valid(t.(defaultObject := n), true)
    ensures PathOf(t.(defaultObject := n), true, id) == PathOf(t, true, id)
    ensures Reachable(t.(defaultObject := n), true, id) == Reachable(t, true, id)
    decreases id
  {
    match t.parents[id]
    case None =>
    case Some(p) => PathIgnoresDefault(t, n, p);
  }

  /** `cd` followed by a path free of white space reads as the verb `cd`
    * for the default object, with the path as its argument. */
  lemma CdAddress(t: Tree, path: string)
    requires Valid(t, true) && path != [] && NoSpace(path)
    ensures Address(t, true, "cd " + path) == Done(Some(Target(t.defaultObject, "cd", Some(path))))
  {
    CdTerms(path);
    VerbCd();
    assert ObjectFromPath(t, true, "cd").None? by {
      assert "cd"[0] == 'c';
    }
    assert Targeted(t.defaultObject, ["cd", path]) == Target(t.defaultObject, "cd", Some(path));
  }

  lemma CdTerms(path: string)
    requires path != [] && NoSpace(path)
    ensures NextTerm("cd " + path) == ["cd", path]
  {
    assert "cd " + path == "cd" + " " + path;
    assert Trimmed(path) by {
      assert !IsSpace(path[0]) && !IsSpace(path[|path| - 1]);
    }
    assert NoSpace("cd") && !IsQuote("cd"[0]);
    NextTermOfWord("cd", path);
  }

  lemma VerbCd()
    ensures VerbOf("cd") == "cd"
  {
    assert Lower("cd") == "cd";
  }

  /** The undo command of `cd` makes the old default object the default
    * again, when its path is free of white space and leads back to it. */
  lemma CdUndo(t: Tree, matches: Matcher, n: nat)
    requires Valid(t, true) && Object(t, n) && Reachable(t, true, t.defaultObject)
    requires NoSpace(PathOf(t, true, t.defaultObject))
    ensures var t2 := t.(defaultObject := n);
            && Valid(t2, true)
            && Process(t2, matches, "cd " + PathOf(t, true, t.defaultObject)).Done?
            && Process(t2, matches, "cd " + PathOf(t, true, t.defaultObject)).value.tree == t
  {
    var t2 := t.(defaultObject := n);
    assert Shape(t2) && ParentsOk(t2) && AllFiled(t2, true);
    var d := t.defaultObject;
    var path := PathOf(t, true, d);
    PathIgnoresDefault(t, n, d);
    PathRoundTrip(t2, true, d);
    CdAddress(t2, path);
    var e := ChangeDefault(t2, Some(path));
    assert e.Done? && e.value.tree == t2.(defaultObject := d) == t;
    assert Perform(t2, matches, n, "cd", Some(path)) == e;
  }

  // ---------------------------------------------------------------------
  // A script of commands

  /** The state of `processCommandString` after some commands: the tree,
    * the commands carried out, what the last one threw, and the processor's
    * `currentExpression`. */
  datatype Run = Run(tree: Tree, results: seq<Command>, error: Option<Failure>, last: Option<string>)

  /** Runs one more command unless one has already thrown. */
  function Step(run: Run, matches: Matcher, cmd: string): (r: Run)
    requires Valid(run.tree, true)
    ensures Valid(r.tree, true)
    ensures run.error.Some? ==> r == run
    ensures run.results <= r.results && |r.results| <= |run.results| + 1
  {
    if run.error.Some? then run
    else match Process(run.tree, matches, cmd)
      case Threw(f) => run.(error := Some(f), last := Some(cmd))
      case Done(o) => Run(o.tree, run.results + (if o.command.Some? then [o.command.value] else []), None, Some(cmd))
  }

  /** The commands of a script run in order, up to the first that throws. */
  function RunAll(start: Run, matches: Matcher, cmds: seq<string>): (r: Run)
    requires Valid(start.tree, true)
    ensures Valid(r.tree, true)
    decreases |cmds|
  {
    if cmds == [] then start else Step(RunAll(start, matches, cmds[..|cmds| - 1]), matches, cmds[|cmds| - 1])
  }

  /** Once a command has thrown, the commands after it change nothing. */
  lemma {:induction false} RunStopsAtError(start: Run, matches: Matcher, cmds: seq<string>, more: seq<string>)
    requires Valid(start.tree, true) && cmds <= more
    requires RunAll(start, matches, cmds).error.Some?
    ensures RunAll(start, matches, more) == RunAll(start, matches, cmds)
    decreases |more|
  {
    if |more| > |cmds| {
      var front := more[..|more| - 1];
      assert cmds <= front by {
        assert forall k :: 0 <= k < |cmds| ==> cmds[k] == more[k] == front[k];
      }
      RunStopsAtError(start, matches, cmds, front);
    } else {
      assert more == cmds;
    }
  }

  /** The results of a run only grow, and the run keeps those before. */
  lemma {:induction false} RunKeepsResults(start: Run, matches: Matcher, cmds: seq<string>)
    requires Valid(start.tree, true)
    ensures start.results <= RunAll(start, matches, cmds).results
    ensures |RunAll(start, matches, cmds).results| <= |start.results| + |cmds|
    decreases |cmds|
  {
    if cmds != [] {
      RunKeepsResults(start, matches, cmds[..|cmds| - 1]);
    }
  }

  /** The commands of a script, with the continued command left open after
    * the last line run last. */
  function ScriptCommands(commands: string, continuation: bool): (r: seq<string>)
    ensures NoBlank(r)
  {
    var a := Assemble(ScriptLines(commands), continuation);
    a.commands + NonBlank(a.continued)
  }

  /** The commands of the first lines of a script come first among all its
    * commands. */
  lemma ScriptPrefix(commands: string, continuation: bool, i: nat)
    requires i <= |ScriptLines(commands)|
    ensures Assemble(ScriptLines(commands)[..i], continuation).commands <= ScriptCommands(commands, continuation)
  {
    AssemblePrefix(ScriptLines(commands), i, continuation);
  }

  /** Running one more command is one more step. */
  lemma RunAllSnoc(start: Run, matches: Matcher, cmds: seq<string>, cmd: string)
    requires Valid(start.tree, true)
    ensures RunAll(start, matches, cmds + [cmd]) == Step(RunAll(start, matches, cmds), matches, cmd)
  {
    var all := cmds + [cmd];
    assert all != [] && all[..|all| - 1] == cmds && all[|all| - 1] == cmd;
  }

  /** `MMCommandProcessor`: the tree of command objects with the processor's
    * root and default object, line continuation, and the expression last
    * processed. `matches` stands for the regular expressions `list` uses. */
  class Processor {
    var tree: Tree
    var useLineContinuation: bool
    var currentExpression: Option<string>
    const matches: Matcher

    /** A processor with a new root parent object. */
    constructor (rootName: string, rootClass: string, matches: Matcher)
      ensures tree == NewTree(rootName, rootClass) && Valid(tree, true)
      ensures useLineContinuation && currentExpression.None? && this.matches == matches
    {
      tree := NewTree(rootName, rootClass);
      useLineContinuation := true;
      currentExpression := None;
      this.matches := matches;
    }

    /** `processCommand`: true with the command carried out, false for a
      * blank command, or what it threw; a command that throws leaves the
      * tree as it was. */
    method ProcessCommand(expression: string) returns (r: Attempt<Option<Command>>)
      requires Valid(tree, true)
      modifies this
      ensures Valid(tree, true)
      ensures var p := Process(old(tree), matches, expression);
              && r == (if p.Done? then Done(p.value.command) else Threw(p.failure))
              && tree == (if p.Done? then p.value.tree else old(tree))
      ensures currentExpression == Some(expression) && useLineContinuation == old(useLineContinuation)
    {
      currentExpression := Some(expression);
      var p := Process(tree, matches, expression);
      if p.Done? {
        tree := p.value.tree;
        r := Done(p.value.command);
      } else {
        r := Threw(p.failure);
      }
    }

    /** Runs one command of a script and records it in the run. */
    method RunCommand(cmd: string, ghost start: Run, ghost cmds: seq<string>, results: seq<Command>)
      returns (results': seq<Command>, error: Option<Failure>)
      requires Valid(start.tree, true) && RunAll(start, matches, cmds) == Run(tree, results, None, currentExpression)
      modifies this
      ensures useLineContinuation == old(useLineContinuation)
      ensures RunAll(start, matches, cmds + [cmd]) == Run(tree, results', error, currentExpression)
    {
      assert Valid(tree, true);
      var r := ProcessCommand(cmd);
      error := None;
      results' := results;
      if r.Threw? {
        error := Some(r.failure);
      } else if r.value.Some? {
        results' := results + [r.value.value];
      }
      RunAllSnoc(start, matches, cmds, cmd);
    }

    /** One pass of the loop of `processCommandString`: reads the line and
      * runs the command it completes, if any. */
    method RunLine(line: string, continued: string, ghost start: Run, ghost before: Script, results: seq<Command>)
      returns (results': seq<Command>, error: Option<Failure>, continued': string)
      requires before.continued == continued && (!useLineContinuation ==> continued == "")
      requires Valid(start.tree, true) && RunAll(start, matches, before.commands) == Run(tree, results, None, currentExpression)
      modifies this
      ensures useLineContinuation == old(useLineContinuation)
      ensures var after := Extend(before, line, useLineContinuation);
              && continued' == after.continued
              && RunAll(start, matches, after.commands) == Run(tree, results', error, currentExpression)
    {
      var cmd;
      cmd, continued' := ReadLine(line, continued, useLineContinuation, before);
      if |cmd| > 0 {
        results', error := RunCommand(cmd, start, before.commands, results);
      } else {
        assert before.commands + NonBlank(cmd) == before.commands;
        results', error := results, None;
      }
    }

    /** The loop of `processCommandString` over the lines of a script: each
      * command made of the lines is run as soon as it is complete, and the
      * first command that throws ends the loop. */
    method RunLines(lines: seq<string>, ghost start: Run) returns (results: seq<Command>, error: Option<Failure>, continued: string)
      requires Valid(tree, true) && start == Run(tree, [], None, currentExpression)
      modifies this
      ensures useLineContinuation == old(useLineContinuation)
      ensures error.None? ==> continued == Assemble(lines, useLineContinuation).continued
      ensures RunAll(start, matches, Assemble(lines, useLineContinuation).commands) == Run(tree, results, error, currentExpression)
    {
      results := [];
      error := None;
      continued := "";
      var i := 0;
      while i < |lines|
        invariant 0 <= i <= |lines| && error.None?
        invariant useLineContinuation == old(useLineContinuation)
        invariant Assemble(lines[..i], useLineContinuation).continued == continued
        invariant RunAll(start, matches, Assemble(lines[..i], useLineContinuation).commands)
                  == Run(tree, results, None, currentExpression)
      {
        AssembleNext(lines, i, useLineContinuation);
        results, error, continued := RunLine(lines[i], continued, start, Assemble(lines[..i], useLineContinuation), results);
        if error.Some? {
          AssemblePrefix(lines, i + 1, useLineContinuation);
          RunStopsAtError(start, matches, Assemble(lines[..i + 1], useLineContinuation).commands,
                          Assemble(lines, useLineContinuation).commands);
          return;
        }
        i := i + 1;
      }
      assert lines[..i] == lines;
    }

    /** `processCommandString`: trims the script, separates its commands,
      * joins continued lines and runs the commands in order; what a command
      * throws is recorded in `error` and ends the script. */
    method ProcessCommandString(commands: string) returns (results: seq<Command>, error: Option<Failure>)
      requires Valid(tree, true)
      modifies this
      ensures RunAll(Run(old(tree), [], None, old(currentExpression)), matches, ScriptCommands(commands, old(useLineContinuation)))
              == Run(tree, results, error, currentExpression)
    {
      ghost var start := Run(tree, [], None, currentExpression);
      var lines := ScriptLines(commands);
      ghost var script := Assemble(lines, useLineContinuation);
      ghost var all := ScriptCommands(commands, useLineContinuation);
      assert all == script.commands + NonBlank(script.continued);
      var continued;
      results, error, continued := RunLines(lines, start);
      if error.Some? {
        RunStopsAtError(start, matches, script.commands, all);
      } else if |continued| > 0 {
        assert all == script.commands + [continued];
        results, error := RunCommand(continued, start, script.commands, results);
      } else {
        assert all == script.commands;
      }
    }
  }
}
