/** How both command interpreters read a command: a subject path, a verb
  * and an argument string, and what a verb answers with. */
module CommandReading {
  import opened Wrappers
  import opened Strs
  import opened CommandText
  import opened CommandTrees

  /** `MMCommandMessage`: a message key and the values it is formatted with,
    * in the order the source names them. */
  datatype Message = Message(key: string, args: seq<string>)

  /** What a verb leaves in `command.results`. `Fields` is the value of each
    * property by name; `FieldInfo` the properties `info properties`
    * describes, by name, with their values; the type and read-only flag of
    * each description are not kept. */
  datatype Reply =
    | Said(message: Message)
    | SaidAll(messages: seq<Message>)
    | Names(names: seq<string>)
    | Text(text: string)
    | Fields(fields: map<string, string>)
    | FieldInfo(fields: map<string, string>)

  /** The regular-expression search of `listChildNames`: does the key match
    * the pattern. */
  type Matcher = (string, string) -> bool

  /** The text JavaScript shows for a missing argument. */
  function Shown(args: Option<string>): string
  {
    if args.Some? then args.value else "undefined"
  }

  /** What `processCommand` reads from a command: the subject, the
    * lower-cased verb and the argument string (`None` when an unclosed quote
    * leaves none, as the source then leaves `command.args` undefined). */
  datatype Target = Target(subject: nat, verb: string, args: Option<string>)

  /** The verb of a command, lower-cased; `list` when blank. */
  function VerbOf(term: string): (r: string)
    ensures Lower(r) == r && |r| == (if term == [] then 4 else |term|)
    ensures term != [] ==> r == Lower(term)
  {
    LowerIdempotent(if term == [] then "list" else term);
    Lower(if term == [] then "list" else term)
  }

  /** The verb and arguments of a command for the subject. */
  function Targeted(s: nat, rest: seq<string>): (r: Target)
    requires |rest| == 1 || |rest| == 2
    ensures r.subject == s && r.verb == VerbOf(rest[0])
    ensures r.args.Some? <==> |rest| == 2
    ensures |rest| == 2 ==> r.args == Some(rest[1])
  {
    Target(s, VerbOf(rest[0]), if |rest| == 2 then Some(rest[1]) else None)
  }

  /** How `processCommand` reads a command: the subject is the object at the
    * first term's path, or else the default object, the first term then
    * being the verb. `None` when the first term is blank; `InternalError`
    * when the subject's term is an unclosed quote, as the source then trims
    * `undefined`. */
  function Address(t: Tree, caseless: bool, expression: string): (r: Attempt<Option<Target>>)
    requires Valid(t, caseless)
    ensures r.Done? && r.value.Some? ==> Object(t, r.value.value.subject) && Lower(r.value.value.verb) == r.value.value.verb
    ensures r.Threw? ==> r.failure == InternalError
  {
    var terms := NextTerm(expression);
    if terms[0] == [] then Done(None)
    else match ObjectFromPath(t, caseless, terms[0])
      case None => Done(Some(Targeted(t.defaultObject, terms)))
      case Some(s) => if |terms| == 1 then Threw(InternalError) else Done(Some(Targeted(s, NextTerm(terms[1]))))
  }

  /** A first term that is no path names the verb for the default object. */
  lemma DefaultSubject(t: Tree, caseless: bool, expression: string)
    requires Valid(t, caseless)
    requires NextTerm(expression)[0] != [] && ObjectFromPath(t, caseless, NextTerm(expression)[0]).None?
    ensures Address(t, caseless, expression) == Done(Some(Targeted(t.defaultObject, NextTerm(expression))))
    ensures Address(t, caseless, expression).value.value.verb == Lower(NextTerm(expression)[0])
  {
  }

  /** A path with nothing after it lists the object's children. */
  lemma PathAloneLists(t: Tree, caseless: bool, expression: string)
    requires Valid(t, caseless)
    requires NextTerm(expression)[0] != [] && |NextTerm(expression)| == 2
    requires ObjectFromPath(t, caseless, NextTerm(expression)[0]).Some?
    requires NextTerm(NextTerm(expression)[1])[0] == []
    ensures Address(t, caseless, expression).Done? && Address(t, caseless, expression).value.Some?
    ensures Address(t, caseless, expression).value.value.verb == "list"
  {
    assert Lower("list") == "list";
  }

  /** Assembling more lines only adds commands after those there were. */
  lemma {:induction false} AssemblePrefix(lines: seq<string>, i: nat, continuation: bool)
    requires i <= |lines|
    ensures Assemble(lines[..i], continuation).commands <= Assemble(lines, continuation).commands
    decreases |lines| - i
  {
    if i < |lines| {
      AssemblePrefix(lines, i + 1, continuation);
      AssembleNext(lines, i, continuation);
    } else {
      assert lines[..i] == lines;
    }
  }

  /** The next line of a script extends the commands of those before it. */
  lemma AssembleNext(lines: seq<string>, i: nat, continuation: bool)
    requires i < |lines|
    ensures Assemble(lines[..i + 1], continuation) == Extend(Assemble(lines[..i], continuation), lines[i], continuation)
  {
    assert lines[..i + 1][..i] == lines[..i];
  }

  /** One pass of the loop of `processCommandString` up to running the
    * command: the line joins the continued command, a line ending in `_`
    * (with line continuation) is held back, and `__` keeps one `_`. The
    * command is empty when there is nothing to run. */
  method ReadLine(line: string, continued: string, continuation: bool, ghost before: Script)
    returns (cmd: string, continued': string)
    requires before.continued == continued && (!continuation ==> continued == "")
    ensures Extend(before, line, continuation) == Script(before.commands + NonBlank(cmd), continued')
  {
    cmd := continued + Term(line);
    continued' := continued;
    if continuation {
      continued' := "";
      if EndsWithTwoUnderscores(cmd) {
        cmd := cmd[..|cmd| - 1];
      } else if EndsWithUnderscore(cmd) {
        continued' := cmd[..|cmd| - 1] + "\n";
        cmd := "";
        assert before.commands + NonBlank(cmd) == before.commands;
      }
    }
  }
}
