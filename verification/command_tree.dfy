/** The tree of named command objects both command interpreters keep: each
  * object has a name, a class name and a parent; a parent object files its
  * children in a dictionary. Objects are identified by number, and each of
  * their fields is a map from that number, so that renaming a child or
  * removing it from its parent leaves every other reference to it (the
  * default object, a parent link) as the engine leaves it. `caseless`
  * selects the dictionary keys: lower-cased names in the worker's
  * interpreter, exact names in the older one. */
module CommandTrees {
  import opened Wrappers
  import opened Strs
  import opened CommandText

  /** The command objects of one interpreter: `parents` holds every object,
    * `children` only the command parents, `extras` the properties created
    * with a leading `_`; `nextId` numbers the next new object. */
  datatype Tree = Tree(names: map<nat, string>, classNames: map<nat, string>,
                       parents: map<nat, Option<nat>>, children: map<nat, map<string, nat>>,
                       extras: map<nat, map<string, string>>,
                       root: nat, defaultObject: nat, nextId: nat)

  /** What a command throws: a message key with its arguments, or the
    * `TypeError` of calling a string method on `undefined`. */
  datatype Failure = Thrown(key: string, args: seq<string>) | InternalError

  /** A command's outcome: its value, or what it threw. */
  datatype Attempt<T> = Done(value: T) | Threw(failure: Failure)

  function Key(caseless: bool, name: string): (k: string)
    ensures caseless ==> k == Lower(name)
    ensures !caseless ==> k == name
  {
    if caseless then Lower(name) else name
  }

  predicate Object(t: Tree, id: nat)
  {
    id in t.parents
  }

  predicate IsParent(t: Tree, id: nat)
  {
    id in t.children
  }

  /** Every object has each field; the root is a parent without a parent. */
  predicate Shape(t: Tree)
  {
    ShapeOf(t.names.Keys, t.classNames.Keys, t.extras.Keys, t.parents, t.children.Keys,
            t.root, t.defaultObject, t.nextId)
  }

  predicate ShapeOf(named: set<nat>, classed: set<nat>, extended: set<nat>, parents: map<nat, Option<nat>>,
                    parentIds: set<nat>, root: nat, defaultObject: nat, nextId: nat)
  {
    && named == parents.Keys && classed == parents.Keys && extended == parents.Keys
    && parentIds <= parents.Keys && root in parentIds && root in parents && parents[root] == None
    && defaultObject in parents
    && forall id :: id in parents ==> id < nextId
  }

  /** Parent links lead to older parent objects. */
  predicate ParentsOk(t: Tree)
  {
    ParentsIn(t.parents, t.children.Keys)
  }

  predicate ParentsIn(parents: map<nat, Option<nat>>, parentIds: set<nat>)
  {
    forall id :: id in parents && parents[id].Some? ==> parents[id].value < id && parents[id].value in parentIds
  }

  /** Every filed child exists, points back at its parent and is filed under
    * the key of its own name. */
  predicate Filed(t: Tree, caseless: bool, p: nat)
    requires p in t.children
  {
    FiledIn(t.children[p], t.parents, t.names, caseless, p)
  }

  predicate FiledIn(kids: map<string, nat>, parents: map<nat, Option<nat>>, names: map<nat, string>,
                    caseless: bool, p: nat)
  {
    forall k :: k in kids ==>
      kids[k] in parents && kids[k] in names && parents[kids[k]] == Some(p)
      && k == Key(caseless, names[kids[k]])
  }

  predicate AllFiled(t: Tree, caseless: bool)
  {
    forall p :: p in t.children ==> Filed(t, caseless, p)
  }

  predicate Valid(t: Tree, caseless: bool)
  {
    Shape(t) && ParentsOk(t) && AllFiled(t, caseless)
  }

  /** A processor whose root parent object has just been created. */
  function NewTree(rootName: string, rootClass: string): (t: Tree)
    ensures Valid(t, true) && Valid(t, false)
    ensures t.defaultObject == t.root && t.children[t.root] == map[]
  {
    Tree(map[0 := rootName], map[0 := rootClass], map[0 := None], map[0 := map[]], map[0 := map[]], 0, 0, 1)
  }

  /** `childNamed(name)`: the child filed under the key of `name`. */
  function ChildNamed(t: Tree, caseless: bool, p: nat, name: string): (r: Option<nat>)
    requires Valid(t, caseless) && IsParent(t, p)
    ensures r.Some? ==> Object(t, r.value) && t.parents[r.value] == Some(p)
                        && Key(caseless, t.names[r.value]) == Key(caseless, name)
    ensures r.None? <==> Key(caseless, name) !in t.children[p]
  {
    var k := Key(caseless, name);
    assert Filed(t, caseless, p);
    if k in t.children[p] then Some(t.children[p][k]) else None
  }

  /** The worker's dictionary ignores case. */
  lemma ChildNamedIgnoresCase(t: Tree, p: nat, name: string)
    requires Valid(t, true) && IsParent(t, p)
    ensures ChildNamed(t, true, p, name) == ChildNamed(t, true, p, Lower(name))
  {
    LowerIdempotent(name);
  }

  // ---------------------------------------------------------------------
  // Paths

  /** One pass of the loop of `followPath`: a non-empty part moves from a
    * parent to its child of that name; an empty part, or any part at an
    * object that is not a parent, stays put. */
  function FollowStep(t: Tree, caseless: bool, part: string, at: nat): (r: Option<nat>)
    requires Valid(t, caseless) && Object(t, at)
    ensures r.Some? ==> Object(t, r.value)
  {
    if |part| > 0 && IsParent(t, at) then ChildNamed(t, caseless, at, part) else Some(at)
  }

  /** `followPath` over the parts of a path: stops at the first part that
    * names no child. */
  function Follow(t: Tree, caseless: bool, parts: seq<string>, start: Option<nat>): (r: Option<nat>)
    requires Valid(t, caseless) && (start.Some? ==> Object(t, start.value))
    ensures r.Some? ==> Object(t, r.value)
    decreases |parts|
  {
    if start.None? then None
    else if parts == [] then start
    else Follow(t, caseless, parts[1..], FollowStep(t, caseless, parts[0], start.value))
  }

  /** A part that names no child ends the walk, whatever follows. */
  lemma FollowStopsAtMissingChild(t: Tree, caseless: bool, part: string, rest: seq<string>, at: nat)
    requires Valid(t, caseless) && IsParent(t, at) && |part| > 0
    requires Key(caseless, part) !in t.children[at]
    ensures Follow(t, caseless, [part] + rest, Some(at)) == None
  {
    assert ([part] + rest)[1..] == rest;
  }

  /** An object that is not a parent absorbs every further part. */
  lemma {:induction false} FollowAtLeaf(t: Tree, caseless: bool, parts: seq<string>, at: nat)
    requires Valid(t, caseless) && Object(t, at) && !IsParent(t, at)
    ensures Follow(t, caseless, parts, Some(at)) == Some(at)
    decreases |parts|
  {
    if parts != [] {
      FollowAtLeaf(t, caseless, parts[1..], at);
    }
  }

  /** Walking two paths one after the other is walking their concatenation. */
  lemma {:induction false} FollowAppend(t: Tree, caseless: bool, a: seq<string>, b: seq<string>, start: Option<nat>)
    requires Valid(t, caseless) && (start.Some? ==> Object(t, start.value))
    ensures Follow(t, caseless, a + b, start) == Follow(t, caseless, b, Follow(t, caseless, a, start))
    decreases |a|
  {
    if start.Some? && a != [] {
      assert (a + b)[1..] == a[1..] + b;
      FollowAppend(t, caseless, a[1..], b, FollowStep(t, caseless, a[0], start.value));
    } else if start.Some? {
      assert a + b == b;
    }
  }

  /** `getObjectFromPath(path)`: `.` starts at the default object, `/` at the
    * root and `^` at the default object's parent; any other path names no
    * object. */
  function ObjectFromPath(t: Tree, caseless: bool, path: string): (r: Option<nat>)
    requires Valid(t, caseless)
    ensures r.Some? ==> Object(t, r.value)
    ensures path == [] || (path[0] != '.' && path[0] != '/' && path[0] != '^') ==> r.None?
  {
    if path == [] then None
    else
      var parts := Split(path[1..], '.');
      if path[0] == '.' then Follow(t, caseless, parts, Some(t.defaultObject))
      else if path[0] == '/' then Follow(t, caseless, parts, Some(t.root))
      else if path[0] == '^' then Follow(t, caseless, parts, t.parents[t.defaultObject])
      else None
  }

  /** A path of one name under the root names the root's child of that
    * name. */
  lemma RootChildPath(t: Tree, caseless: bool, name: string)
    requires Valid(t, caseless) && IsParent(t, t.root) && name != [] && '.' !in name
    ensures ObjectFromPath(t, caseless, "/" + name) == ChildNamed(t, caseless, t.root, name)
  {
    assert ("/" + name)[0] == '/' && ("/" + name)[1..] == name;
    SplitNoSep(name, '.');
    assert Follow(t, caseless, [name], Some(t.root)) == Follow(t, caseless, [], FollowStep(t, caseless, name, t.root));
  }

  /** `getPath()`: `/` for the root, otherwise the parent's path, a dot and
    * the name. */
  function PathOf(t: Tree, caseless: bool, id: nat): (r: string)
    requires Valid(t, caseless) && Object(t, id)
    ensures |r| >= 1 && r[0] == '/'
    decreases id
  {
    match t.parents[id]
    case None => "/"
    case Some(p) => PathOf(t, caseless, p) + "." + t.names[id]
  }

  /** The object is filed in its parent under a plain name (non-empty, free
    * of dots), and so on up to the root. */
  predicate Reachable(t: Tree, caseless: bool, id: nat)
    requires Valid(t, caseless) && Object(t, id)
    decreases id
  {
    match t.parents[id]
    case None => id == t.root
    case Some(p) =>
      var name := t.names[id];
      && name != [] && Lacks(name, '.')
      && Key(caseless, name) in t.children[p] && t.children[p][Key(caseless, name)] == id
      && Reachable(t, caseless, p)
  }

  /** The parts `getObjectFromPath` walks for the path of a reachable
    * object, after the leading `/`, lead from the root to it. */
  lemma {:induction false} PathParts(t: Tree, caseless: bool, id: nat)
    requires Valid(t, caseless) && Object(t, id) && Reachable(t, caseless, id)
    ensures Follow(t, caseless, Split(PathOf(t, caseless, id)[1..], '.'), Some(t.root)) == Some(id)
    decreases id
  {
    match t.parents[id]
    case None =>
      assert PathOf(t, caseless, id)[1..] == [];
      assert Follow(t, caseless, [""], Some(t.root)) == Follow(t, caseless, [], Some(t.root));
    case Some(p) =>
      PathParts(t, caseless, p);
      var name := t.names[id];
      var above := PathOf(t, caseless, p)[1..];
      PathSplit(t, caseless, id, p);
      FollowAppend(t, caseless, Split(above, '.'), [name], Some(t.root));
      FollowChild(t, caseless, p, id);
  }

  lemma PathSplit(t: Tree, caseless: bool, id: nat, p: nat)
    requires Valid(t, caseless) && Object(t, id) && t.parents[id] == Some(p)
    requires Lacks(t.names[id], '.')
    ensures Split(PathOf(t, caseless, id)[1..], '.') == Split(PathOf(t, caseless, p)[1..], '.') + [t.names[id]]
  {
    var name := t.names[id];
    var above := PathOf(t, caseless, p)[1..];
    assert PathOf(t, caseless, id)[1..] == above + ['.'] + name;
    SplitConcat(above, name, '.');
    assert '.' !in name by { assert Lacks(name, '.'); }
    SplitNoSep(name, '.');
  }

  lemma FollowChild(t: Tree, caseless: bool, p: nat, id: nat)
    requires Valid(t, caseless) && IsParent(t, p) && Object(t, id)
    requires t.names[id] != [] && Key(caseless, t.names[id]) in t.children[p]
    requires t.children[p][Key(caseless, t.names[id])] == id
    ensures Follow(t, caseless, [t.names[id]], Some(p)) == Some(id)
  {
    var name := t.names[id];
    assert Follow(t, caseless, [name], Some(p)) == Follow(t, caseless, [], FollowStep(t, caseless, name, p));
  }

  /** The path of an object filed all the way up under plain names leads
    * back to it. */
  lemma PathRoundTrip(t: Tree, caseless: bool, id: nat)
    requires Valid(t, caseless) && Object(t, id) && Reachable(t, caseless, id)
    ensures ObjectFromPath(t, caseless, PathOf(t, caseless, id)) == Some(id)
  {
    PathParts(t, caseless, id);
  }

  // ---------------------------------------------------------------------
  // Changing the tree

  function FileUnder(kids: map<string, nat>, k: string, c: nat): (r: map<string, nat>)
    ensures r.Keys == kids.Keys + {k} && r[k] == c
    ensures forall j :: j in kids && j != k ==> r[j] == kids[j]
  {
    kids[k := c]
  }

  /** The constructor of a command object with a parent: a new object filed
    * in the parent under the key of its name, replacing any child filed
    * there before. */
  function AddChild(t: Tree, caseless: bool, p: nat, name: string, className: string, isParent: bool): (r: Tree)
    requires Valid(t, caseless) && IsParent(t, p)
    ensures Valid(r, caseless) && IsParent(r, p)
    ensures !Object(t, t.nextId) && Object(r, t.nextId) && r.nextId == t.nextId + 1
    ensures r.names == t.names[t.nextId := name] && r.classNames == t.classNames[t.nextId := className]
    ensures r.parents == t.parents[t.nextId := Some(p)]
    ensures r.extras == t.extras[t.nextId := map[]]
    ensures r.children == (var c := if isParent then t.children[t.nextId := map[]] else t.children;
                           c[p := FileUnder(t.children[p], Key(caseless, name), t.nextId)])
    ensures r.root == t.root && r.defaultObject == t.defaultObject
    ensures ChildNamed(r, caseless, p, name) == Some(t.nextId)
  {
    var a := Adopt(t, caseless, p, name, className, isParent);
    assert a.children[p] == t.children[p];
    FileChild(a, caseless, p, t.nextId)
  }

  /** A new object with parent `p`, not yet filed in it. */
  function Adopt(t: Tree, caseless: bool, p: nat, name: string, className: string, isParent: bool): (r: Tree)
    requires Valid(t, caseless) && IsParent(t, p)
    ensures Valid(r, caseless) && IsParent(r, p) && !Object(t, t.nextId)
    ensures r == Tree(t.names[t.nextId := name], t.classNames[t.nextId := className],
                      t.parents[t.nextId := Some(p)],
                      if isParent then t.children[t.nextId := map[]] else t.children,
                      t.extras[t.nextId := map[]], t.root, t.defaultObject, t.nextId + 1)
  {
    var r := Tree(t.names[t.nextId := name], t.classNames[t.nextId := className],
                  t.parents[t.nextId := Some(p)],
                  if isParent then t.children[t.nextId := map[]] else t.children,
                  t.extras[t.nextId := map[]], t.root, t.defaultObject, t.nextId + 1);
    AdoptKeepsValid(t, r, caseless, p, name, className, isParent);
    r
  }

  lemma AdoptKeepsValid(t: Tree, r: Tree, caseless: bool, p: nat, name: string, className: string, isParent: bool)
    requires Valid(t, caseless) && IsParent(t, p)
    requires r == Tree(t.names[t.nextId := name], t.classNames[t.nextId := className],
                       t.parents[t.nextId := Some(p)],
                       if isParent then t.children[t.nextId := map[]] else t.children,
                       t.extras[t.nextId := map[]], t.root, t.defaultObject, t.nextId + 1)
    ensures Valid(r, caseless) && !Object(t, t.nextId)
  {
    var id := t.nextId;
    assert id !in t.parents;
    assert r.names.Keys == t.names.Keys + {id} && r.classNames.Keys == t.classNames.Keys + {id};
    assert r.extras.Keys == t.extras.Keys + {id};
    ShapeAdopt(t.names.Keys, t.classNames.Keys, t.extras.Keys, t.parents, t.children.Keys,
               t.root, t.defaultObject, id, p, r.children.Keys);
    assert Shape(r);
    assert p < id;
    ParentsAdopt(t.parents, t.children.Keys, r.children.Keys, id, p);
    assert ParentsOk(r);
    AdoptFiled(t, r, caseless, p, name, id);
  }

  lemma AdoptFiled(t: Tree, r: Tree, caseless: bool, p: nat, name: string, id: nat)
    requires AllFiled(t, caseless) && id !in t.parents && id !in t.children
    requires r.names == t.names[id := name] && r.parents == t.parents[id := Some(p)]
    requires r.children == t.children || r.children == t.children[id := map[]]
    ensures AllFiled(r, caseless)
  {
    forall q | q in r.children ensures Filed(r, caseless, q) {
      if q != id {
        assert Filed(t, caseless, q);
        FiledAdopt(t.children[q], t.parents, t.names, caseless, q, id, Some(p), name);
      }
    }
  }

  /** Files a child of `p` under the key of its name. */
  function FileChild(t: Tree, caseless: bool, p: nat, id: nat): (r: Tree)
    requires Valid(t, caseless) && IsParent(t, p) && Object(t, id) && t.parents[id] == Some(p)
    ensures Valid(r, caseless) && IsParent(r, p)
    ensures r == t.(children := t.children[p := FileUnder(t.children[p], Key(caseless, t.names[id]), id)])
    ensures ChildNamed(r, caseless, p, t.names[id]) == Some(id)
  {
    var r := t.(children := t.children[p := FileUnder(t.children[p], Key(caseless, t.names[id]), id)]);
    FileKeepsValid(t, r, caseless, p, id);
    r
  }

  lemma FileKeepsValid(t: Tree, r: Tree, caseless: bool, p: nat, id: nat)
    requires Valid(t, caseless) && IsParent(t, p) && Object(t, id) && t.parents[id] == Some(p)
    requires r == t.(children := t.children[p := FileUnder(t.children[p], Key(caseless, t.names[id]), id)])
    ensures Valid(r, caseless)
  {
    assert r.children.Keys == t.children.Keys;
    assert Shape(r);
    FileFiled(t, r, caseless, p, id);
  }

  lemma FileFiled(t: Tree, r: Tree, caseless: bool, p: nat, id: nat)
    requires AllFiled(t, caseless) && IsParent(t, p)
    requires id in t.parents && id in t.names && t.parents[id] == Some(p)
    requires r.parents == t.parents && r.names == t.names
    requires r.children == t.children[p := FileUnder(t.children[p], Key(caseless, t.names[id]), id)]
    ensures AllFiled(r, caseless)
  {
    forall q | q in r.children ensures Filed(r, caseless, q) {
      assert Filed(t, caseless, q);
      if q == p {
        FiledNew(t.children[p], t.parents, t.names, caseless, p, Key(caseless, t.names[id]), id);
      }
    }
  }

  /** `renameChild(fromName, toName)`: fails when no child is filed under
    * the old name or one is filed under the new name (so in the worker a
    * change of case alone is refused); otherwise the child takes the new
    * name and is filed under it instead. */
  function RenameChild(t: Tree, caseless: bool, p: nat, fromName: string, toName: string): (r: Result<Tree>)
    requires Valid(t, caseless) && IsParent(t, p)
    ensures r.Ok? <==> ChildNamed(t, caseless, p, fromName).Some? && ChildNamed(t, caseless, p, toName).None?
    ensures r.Err? ==> r == (if ChildNamed(t, caseless, p, fromName).None? then Err("childNotFound") else Err("nameAlreadyUsed"))
    ensures r.Ok? ==> Valid(r.value, caseless)
    ensures r.Ok? ==> RenamedAs(t, r.value, caseless, p, fromName, toName)
  {
    var kids := t.children[p];
    var fromKey := Key(caseless, fromName);
    var toKey := Key(caseless, toName);
    if fromKey !in kids then Err("childNotFound")
    else if toKey in kids then Err("nameAlreadyUsed")
    else
      var c := kids[fromKey];
      var r := t.(names := t.names[c := toName], children := t.children[p := (kids - {fromKey})[toKey := c]]);
      RenameKeepsValid(t, r, caseless, p, c, fromKey, toName);
      Ok(r)
  }

  /** The child filed under `fromName` is filed under `toName` instead and
    * carries that name; nothing else changes. */
  predicate RenamedAs(t: Tree, r: Tree, caseless: bool, p: nat, fromName: string, toName: string)
    requires IsParent(t, p)
  {
    var fromKey := Key(caseless, fromName);
    fromKey in t.children[p] &&
    var c := t.children[p][fromKey];
    && r == t.(names := t.names[c := toName],
               children := t.children[p := (t.children[p] - {fromKey})[Key(caseless, toName) := c]])
  }

  lemma RenameKeepsValid(t: Tree, r: Tree, caseless: bool, p: nat, c: nat, fromKey: string, toName: string)
    requires Valid(t, caseless) && IsParent(t, p)
    requires fromKey in t.children[p] && t.children[p][fromKey] == c && Key(caseless, toName) !in t.children[p]
    requires r == t.(names := t.names[c := toName],
                     children := t.children[p := (t.children[p] - {fromKey})[Key(caseless, toName) := c]])
    ensures Valid(r, caseless)
  {
    assert c in t.parents && t.parents[c] == Some(p) by { assert Filed(t, caseless, p); }
    assert r.names.Keys == t.names.Keys;
    assert r.children.Keys == t.children.Keys;
    assert Shape(r);
    RenameFiled(t, r, caseless, p, c, fromKey, toName);
  }

  lemma RenameFiled(t: Tree, r: Tree, caseless: bool, p: nat, c: nat, fromKey: string, toName: string)
    requires AllFiled(t, caseless) && IsParent(t, p)
    requires fromKey in t.children[p] && t.children[p][fromKey] == c && c in t.parents && t.parents[c] == Some(p)
    requires r.parents == t.parents && r.names == t.names[c := toName]
    requires r.children == t.children[p := (t.children[p] - {fromKey})[Key(caseless, toName) := c]]
    ensures AllFiled(r, caseless)
  {
    forall q | q in r.children ensures Filed(r, caseless, q) {
      assert Filed(t, caseless, q);
      if q == p {
        FiledRefile(t.children[p], t.parents, t.names, caseless, p, fromKey, toName);
      } else {
        FiledRenamed(t.children[q], t.parents, t.names, caseless, q, c, toName);
      }
    }
  }

  /** Renaming a child back to its old name restores the tree. */
  lemma RenameBack(t: Tree, caseless: bool, p: nat, a: string, b: string)
    requires Valid(t, caseless) && IsParent(t, p)
    requires RenameChild(t, caseless, p, a, b).Ok?
    requires t.names[ChildNamed(t, caseless, p, a).value] == a
    ensures RenameChild(RenameChild(t, caseless, p, a, b).value, caseless, p, b, a) == Ok(t)
  {
    var kids := t.children[p];
    var ka := Key(caseless, a);
    var kb := Key(caseless, b);
    var c := kids[ka];
    var t2 := RenameChild(t, caseless, p, a, b).value;
    assert RenamedAs(t, t2, caseless, p, a, b);
    var kids2 := (kids - {ka})[kb := c];
    assert t2.children[p] == kids2 && t2.names == t.names[c := b];
    assert kb in kids2 && kids2[kb] == c && ka !in kids2;
    var back := RenameChild(t2, caseless, p, b, a);
    assert back.Ok? && RenamedAs(t2, back.value, caseless, p, b, a);
    RefileBack(kids, ka, kb, c);
    assert t.names[c := b][c := a] == t.names;
    assert t.children[p := kids2][p := kids] == t.children;
  }

  lemma RefileBack(kids: map<string, nat>, ka: string, kb: string, c: nat)
    requires ka in kids && kids[ka] == c && kb !in kids
    ensures (((kids - {ka})[kb := c]) - {kb})[ka := c] == kids
  {
  }

  /** `removeChildNamed`: fails when no child is filed under the name;
    * otherwise the child is no longer filed (the object itself remains, as
    * any other reference to it does). */
  function RemoveChild(t: Tree, caseless: bool, p: nat, name: string): (r: Result<Tree>)
    requires Valid(t, caseless) && IsParent(t, p)
    ensures r.Ok? <==> ChildNamed(t, caseless, p, name).Some?
    ensures r.Err? ==> r == Err("cmd:childNotFound")
    ensures r.Ok? ==> && Valid(r.value, caseless)
                      && r.value == t.(children := t.children[p := t.children[p] - {Key(caseless, name)}])
  {
    var k := Key(caseless, name);
    if k !in t.children[p] then Err("cmd:childNotFound")
    else
      var r := t.(children := t.children[p := t.children[p] - {k}]);
      RemoveKeepsValid(t, r, caseless, p, k);
      Ok(r)
  }

  lemma RemoveKeepsValid(t: Tree, r: Tree, caseless: bool, p: nat, k: string)
    requires Valid(t, caseless) && IsParent(t, p)
    requires r == t.(children := t.children[p := t.children[p] - {k}])
    ensures Valid(r, caseless)
  {
    assert Shape(r);
    assert r.children.Keys == t.children.Keys;
    RemoveFiled(t, r, caseless, p, k);
  }

  lemma RemoveFiled(t: Tree, r: Tree, caseless: bool, p: nat, k: string)
    requires AllFiled(t, caseless) && IsParent(t, p)
    requires r.parents == t.parents && r.names == t.names
    requires r.children == t.children[p := t.children[p] - {k}]
    ensures AllFiled(r, caseless)
  {
    forall q | q in r.children ensures Filed(r, caseless, q) {
      assert Filed(t, caseless, q);
    }
  }

  // The invariant's parts, one change at a time.

  /** Adding object `id` to every field keeps the fields' domains equal. */
  lemma ShapeAdopt(named: set<nat>, classed: set<nat>, extended: set<nat>, parents: map<nat, Option<nat>>,
                   parentIds: set<nat>, root: nat, defaultObject: nat, id: nat, p: nat, parentIds2: set<nat>)
    requires ShapeOf(named, classed, extended, parents, parentIds, root, defaultObject, id)
    requires parentIds2 == parentIds || parentIds2 == parentIds + {id}
    ensures ShapeOf(named + {id}, classed + {id}, extended + {id}, parents[id := Some(p)], parentIds2,
                    root, defaultObject, id + 1)
  {
    assert id !in parents;
  }

  /** A new object whose parent is an older parent object keeps every parent
    * link in order. */
  lemma ParentsAdopt(parents: map<nat, Option<nat>>, ids: set<nat>, ids2: set<nat>, id: nat, p: nat)
    requires ParentsIn(parents, ids) && ids <= ids2 && p in ids && p < id
    ensures ParentsIn(parents[id := Some(p)], ids2)
  {
  }

  /** Adding an object to the maps leaves a parent's filing as it was. */
  lemma FiledAdopt(kids: map<string, nat>, parents: map<nat, Option<nat>>, names: map<nat, string>,
                   caseless: bool, p: nat, id: nat, v: Option<nat>, name: string)
    requires FiledIn(kids, parents, names, caseless, p) && id !in parents
    ensures FiledIn(kids, parents[id := v], names[id := name], caseless, p)
  {
  }

  /** A child of `p` may be filed under the key of its name. */
  lemma FiledNew(kids: map<string, nat>, parents: map<nat, Option<nat>>, names: map<nat, string>,
                 caseless: bool, p: nat, k: string, id: nat)
    requires FiledIn(kids, parents, names, caseless, p)
    requires id in parents && id in names && parents[id] == Some(p) && k == Key(caseless, names[id])
    ensures FiledIn(FileUnder(kids, k, id), parents, names, caseless, p)
  {
  }

  /** Renaming an object that is not a child of `p` leaves its filing. */
  lemma FiledRenamed(kids: map<string, nat>, parents: map<nat, Option<nat>>, names: map<nat, string>,
                     caseless: bool, p: nat, c: nat, name: string)
    requires FiledIn(kids, parents, names, caseless, p) && c in parents && parents[c] != Some(p)
    ensures FiledIn(kids, parents, names[c := name], caseless, p)
  {
  }

  /** Renaming a filed child and filing it under its new key. */
  lemma FiledRefile(kids: map<string, nat>, parents: map<nat, Option<nat>>, names: map<nat, string>,
                    caseless: bool, p: nat, fromKey: string, name: string)
    requires FiledIn(kids, parents, names, caseless, p) && fromKey in kids
    ensures FiledIn((kids - {fromKey})[Key(caseless, name) := kids[fromKey]], parents,
                    names[kids[fromKey] := name], caseless, p)
  {
    var c := kids[fromKey];
    forall k | k in kids && k != fromKey ensures kids[k] != c {
      assert k == Key(caseless, names[kids[k]]);
    }
  }

  /** A child removed from its parent can no longer be reached by a path
    * through that parent. */
  lemma RemovedUnreachable(t: Tree, caseless: bool, p: nat, name: string, rest: seq<string>)
    requires Valid(t, caseless) && IsParent(t, p) && |name| > 0
    requires RemoveChild(t, caseless, p, name).Ok?
    ensures Follow(RemoveChild(t, caseless, p, name).value, caseless, [name] + rest, Some(p)) == None
  {
    var r := RemoveChild(t, caseless, p, name).value;
    FollowStopsAtMissingChild(r, caseless, name, rest, p);
  }
}
