/** A model (`MMModel`): the tool that holds other tools. It names a new tool
  * `x1`, `x2`, … from a counter unless given a name, and passes
  * `forgetAllCalculations` on to every tool it holds. */
module Models {
  import opened Wrappers
  import opened Strs
  import opened CommandTrees

  /** The keys of `MMToolTypes`. */
  const ToolTypes: set<string> :=
    {"Model", "Expression", "Matrix", "DataTable", "Solver", "Ode", "Iterator", "Optimizer", "Graph", "HtmlPage"}

  /** A tool held by a model: its name as given, its type, and how many
    * times it was told to `forgetAllCalculations`. */
  datatype Child = Child(name: string, typeName: string, forgetAlls: nat)

  /** The name `x{n}` of an unnamed tool. */
  function AutoName(n: nat): (r: string)
    ensures |r| >= 2 && r[0] == 'x' && r[1..] == NatToString(n)
    ensures Lower(r) == r
  {
    var r := "x" + NatToString(n);
    assert forall i :: 0 <= i < |r| ==> !IsUpper(r[i]) by {
      forall i | 0 <= i < |r| ensures !IsUpper(r[i]) {
        if i > 0 { assert r[i] == NatToString(n)[i - 1]; }
      }
    }
    r
  }

  /** Different counters give different names. */
  lemma AutoNameInjective(a: nat, b: nat)
    requires AutoName(a) == AutoName(b)
    ensures a == b
  {
    assert AutoName(a)[1..] == AutoName(b)[1..];
    NatToStringInjective(a, b);
  }

  /** The names the counter has handed out below `n`. */
  ghost function Issued(n: nat): set<string>
  {
    set m | 0 <= m < n :: AutoName(m)
  }

  lemma IssuedGrows(n: nat)
    ensures AutoName(n) !in Issued(n)
    ensures Issued(n + 1) == Issued(n) + {AutoName(n)}
  {
    forall m | 0 <= m < n ensures AutoName(m) != AutoName(n) {
      if AutoName(m) == AutoName(n) { AutoNameInjective(m, n); }
    }
  }

  /** The counter value `addTool` settles on: the first one at or after `n`
    * whose name no child has. */
  function FreeNumber(keys: set<string>, n: nat): (r: nat)
    ensures n <= r && AutoName(r) !in keys
    ensures forall m :: n <= m < r ==> AutoName(m) in keys
    decreases keys - Issued(n)
  {
    if AutoName(n) in keys then
      IssuedGrows(n);
      FreeNumber(keys, n + 1)
    else n
  }

  /** Every child after `forgetAllCalculations` passed it on once. */
  function AllForgotten(children: map<string, Child>): (r: map<string, Child>)
    ensures r.Keys == children.Keys
    ensures forall k :: k in r ==> r[k] == children[k].(forgetAlls := children[k].forgetAlls + 1)
  {
    map k | k in children :: children[k].(forgetAlls := children[k].forgetAlls + 1)
  }

  class Model {
    /** `getPath()` of the model. */
    const path: string
    var nextToolNumber: nat
    /** The tools held, by lower-cased name. */
    var children: map<string, Child>
    /** How many times the model itself forgot its calculated values. */
    var forgets: nat

    /** Each child is filed under its name lower-cased. */
    ghost predicate Valid()
      reads this
    {
      forall k :: k in children ==> k == Lower(children[k].name)
    }

    /** A new model: the counter starts at 1. */
    constructor(path: string)
      ensures this.path == path && nextToolNumber == 1 && children == map[] && forgets == 0
      ensures Valid()
    {
      this.path := path;
      nextToolNumber := 1;
      children := map[];
      forgets := 0;
    }

    /** `addTool`: the arguments split at each white-space character give
      * the type and, when there is a second part, the name, used as it
      * is; without one the counter is advanced until `x{n}` names no
      * child. An unknown type throws `modelInvalidToolType` (the counter
      * stays advanced); otherwise the tool is filed under its lower-cased
      * name and the undo removes it. A missing argument throws. */
    method AddTool(args: Option<string>) returns (r: Attempt<string>)
      requires Valid()
      modifies this
      ensures Valid() && forgets == old(forgets)
      ensures args.None? ==>
                r == Threw(InternalError) && children == old(children) && nextToolNumber == old(nextToolNumber)
      ensures args.Some? ==>
                var parts := SplitSpace(args.value);
                var number := FreeNumber(old(children).Keys, old(nextToolNumber));
                var name := if |parts| > 1 then parts[1] else AutoName(number);
                && nextToolNumber == (if |parts| > 1 then old(nextToolNumber) else number + 1)
                && (parts[0] in ToolTypes ==>
                      r == Done(path + " removechild " + name)
                      && children == old(children)[Lower(name) := Child(name, parts[0], 0)])
                && (parts[0] !in ToolTypes ==>
                      r == Threw(Thrown("mmcmd:modelInvalidToolType", [name, parts[0]]))
                      && children == old(children))
    {
      if args.None? {
        return Threw(InternalError);
      }
      var parts := SplitSpace(args.value);
      var typeName := parts[0];
      var name: string;
      if |parts| > 1 {
        name := parts[1];
      } else {
        name := NextFreeName();
      }
      if typeName !in ToolTypes {
        return Threw(Thrown("mmcmd:modelInvalidToolType", [name, typeName]));
      }
      LowerIdempotent(name);
      children := children[Lower(name) := Child(name, typeName, 0)];
      r := Done(path + " removechild " + name);
    }

    /** The counter loop of `addTool`: advance the counter past every
      * `x{n}` a child already has, and one past the free one. */
    method NextFreeName() returns (name: string)
      modifies this
      ensures name == AutoName(FreeNumber(children.Keys, old(nextToolNumber)))
      ensures nextToolNumber == FreeNumber(children.Keys, old(nextToolNumber)) + 1
      ensures children == old(children) && forgets == old(forgets)
    {
      name := AutoName(nextToolNumber);
      nextToolNumber := nextToolNumber + 1;
      while Lower(name) in children
        invariant children == old(children) && forgets == old(forgets)
        invariant old(nextToolNumber) < nextToolNumber && name == AutoName(nextToolNumber - 1)
        invariant FreeNumber(children.Keys, old(nextToolNumber)) == FreeNumber(children.Keys, nextToolNumber - 1)
        decreases children.Keys - Issued(nextToolNumber - 1)
      {
        IssuedGrows(nextToolNumber - 1);
        name := AutoName(nextToolNumber);
        nextToolNumber := nextToolNumber + 1;
      }
    }

    /** `forgetAllCalculations`: the model forgets its own values and
      * passes the call on to every tool it holds. */
    method ForgetAllCalculations()
      requires Valid()
      modifies this
      ensures Valid()
      ensures forgets == old(forgets) + 1 && nextToolNumber == old(nextToolNumber)
      ensures children == AllForgotten(old(children))
    {
      forgets := forgets + 1;
      var keys := children.Keys;
      while keys != {}
        invariant keys <= children.Keys && children.Keys == old(children).Keys
        invariant forgets == old(forgets) + 1 && nextToolNumber == old(nextToolNumber)
        invariant forall k :: k in children ==>
                    children[k] == if k in keys then old(children)[k] else AllForgotten(old(children))[k]
        decreases keys
      {
        var k :| k in keys;
        children := children[k := children[k].(forgetAlls := children[k].forgetAlls + 1)];
        keys := keys - {k};
      }
    }
  }

  /** A tool added without a name never replaces one the model holds. */
  lemma AutoNamedIsNew(children: map<string, Child>, next: nat)
    ensures Lower(AutoName(FreeNumber(children.Keys, next))) !in children
  {
  }
}
