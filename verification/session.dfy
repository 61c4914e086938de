/** The session (`MMSession`): the root model, the model currently shown
  * with the stack of models it was entered from, and the storage path the
  * case is saved under. */
module Sessions {
  import opened Wrappers
  import opened Strs
  import opened Models

  /** `getPath()` of the root model, a child named `root` of the session. */
  const RootPath := "/.root"

  /** The storage path of a session started without one. */
  const Unnamed := "(unnamed)"

  /** `pushModel` on the stack and the current model. */
  function AfterPush(stack: seq<Model>, current: Model?, model: Model): (r: (seq<Model>, Model?))
    ensures r.1 == model
    ensures current != null ==> r.0 == stack + [current]
    ensures current == null ==> r.0 == stack
  {
    (if current != null then stack + [current] else stack, model)
  }

  /** `popModel(count)`: `min(count, |stack|)` models popped, the last one
    * popped becoming current; the current model is kept when nothing is
    * popped. */
  function AfterPop(stack: seq<Model>, current: Model?, count: int): (r: (seq<Model>, Model?))
    ensures var n := if count <= 0 then 0 else if count < |stack| then count else |stack|;
            && r.0 == stack[..|stack| - n]
            && r.1 == (if n == 0 then current else stack[|stack| - n])
    decreases count
  {
    if count <= 0 || |stack| == 0 then (stack, current)
    else AfterPop(stack[..|stack| - 1], stack[|stack| - 1], count - 1)
  }

  /** Popping once undoes a push onto a session that had a current model. */
  lemma PopUndoesPush(stack: seq<Model>, current: Model, model: Model)
    ensures AfterPop(AfterPush(stack, current, model).0, AfterPush(stack, current, model).1, 1) == (stack, current)
  {
    var pushed := AfterPush(stack, current, model).0;
    assert pushed[..|pushed| - 1] == stack;
  }

  /** Popping more models than the stack holds empties it, leaving its
    * bottom model current. */
  lemma PopPastBottom(stack: seq<Model>, current: Model?, count: int)
    requires |stack| > 0 && count >= |stack|
    ensures AfterPop(stack, current, count) == ([], stack[0])
  {
  }

  /** The case name `sessionAsJson` saves: the last `/`-separated segment of
    * the storage path. */
  function CaseName(storePath: string): (r: string)
    ensures '/' !in r
    ensures |r| <= |storePath| && storePath[|storePath| - |r|..] == r
    ensures |r| < |storePath| ==> storePath[|storePath| - |r| - 1] == '/'
  {
    var parts := Split(storePath, '/');
    JoinSplit(storePath, '/');
    JoinEndsWithLast(parts, '/');
    parts[|parts| - 1]
  }

  /** A path without `/` is its own case name. */
  lemma CaseNameOfPlainPath(storePath: string)
    requires '/' !in storePath
    ensures CaseName(storePath) == storePath
  {
    SplitNoSep(storePath, '/');
  }

  lemma {:induction false} JoinEndsWithLast(parts: seq<string>, sep: char)
    requires |parts| >= 1
    ensures var j := Join(parts, sep);
            var last := parts[|parts| - 1];
            |last| <= |j| && j[|j| - |last|..] == last
            && (|parts| > 1 ==> |last| < |j| && j[|j| - |last| - 1] == sep)
  {
    if |parts| > 1 {
      JoinEndsWithLast(parts[1..], sep);
      var j := Join(parts, sep);
      var rest := Join(parts[1..], sep);
      assert j == parts[0] + [sep] + rest;
      var last := parts[|parts| - 1];
      assert parts[1..][|parts[1..]| - 1] == last;
      assert j[|j| - |rest|..] == rest;
      assert j[|j| - |last|..] == rest[|rest| - |last|..];
      if |parts| == 2 {
        assert rest == last;
        assert j[|j| - |last| - 1] == sep;
      } else {
        assert j[|j| - |last| - 1] == rest[|rest| - |last| - 1];
      }
    }
  }

  class Session {
    var rootModel: Model?
    var currentModel: Model?
    var modelStack: seq<Model>
    var storePath: string
    var nextToolLocation: (int, int)
    /** The path of the processor's default object. */
    var defaultObject: string
    var selectedObject: string

    /** A session before `newSession`: no models yet. */
    constructor()
      ensures rootModel == null && currentModel == null && modelStack == []
    {
      rootModel := null;
      currentModel := null;
      modelStack := [];
      storePath := "";
      nextToolLocation := (0, 0);
      defaultObject := "";
      selectedObject := "";
    }

    /** `newSession`: a fresh root model, current and alone on the stack,
      * and the default object; the storage path is `(unnamed)` when none
      * is given. */
    method NewSession(path: Option<string>)
      modifies this
      ensures rootModel != null && fresh(rootModel) && rootModel.path == RootPath
      ensures rootModel.nextToolNumber == 1 && rootModel.children == map[] && rootModel.Valid()
      ensures currentModel == rootModel && modelStack == [rootModel]
      ensures storePath == if path.None? || path.value == "" then Unnamed else path.value
      ensures defaultObject == RootPath && selectedObject == "" && nextToolLocation == (0, 0)
    {
      storePath := if path.None? || path.value == "" then Unnamed else path.value;
      nextToolLocation := (0, 0);
      var root := new Model(RootPath);
      rootModel := root;
      currentModel := root;
      modelStack := [root];
      defaultObject := RootPath;
      selectedObject := "";
    }

    /** `pushModel`: the current model, when there is one, goes on the
      * stack and the argument becomes current. */
    method PushModel(model: Model)
      modifies this`modelStack, this`currentModel
      ensures (modelStack, currentModel) == AfterPush(old(modelStack), old(currentModel), model)
      ensures rootModel == old(rootModel) && storePath == old(storePath) && nextToolLocation == old(nextToolLocation)
              && defaultObject == old(defaultObject) && selectedObject == old(selectedObject)
    {
      if currentModel != null {
        modelStack := modelStack + [currentModel];
      }
      currentModel := model;
    }

    /** `popModel(count)`: pops while the stack is not empty and the count,
      * decremented at each test, was positive. */
    method PopModel(count: int)
      modifies this`modelStack, this`currentModel
      ensures (modelStack, currentModel) == AfterPop(old(modelStack), old(currentModel), count)
      ensures rootModel == old(rootModel) && storePath == old(storePath) && nextToolLocation == old(nextToolLocation)
              && defaultObject == old(defaultObject) && selectedObject == old(selectedObject)
    {
      var c := count;
      while |modelStack| > 0 && c > 0
        invariant AfterPop(modelStack, currentModel, c) == AfterPop(old(modelStack), old(currentModel), count)
        invariant rootModel == old(rootModel) && storePath == old(storePath)
        decreases |modelStack|
      {
        c := c - 1;
        currentModel := modelStack[|modelStack| - 1];
        modelStack := modelStack[..|modelStack| - 1];
      }
    }

    /** The case name of `sessionAsJson`, which first takes a given path
      * as the new storage path. */
    method SessionCaseName(path: Option<string>) returns (caseName: string)
      modifies this`storePath
      ensures storePath == if path.Some? && path.value != "" then path.value else old(storePath)
      ensures caseName == CaseName(storePath)
      ensures modelStack == old(modelStack) && currentModel == old(currentModel) && rootModel == old(rootModel)
      ensures nextToolLocation == old(nextToolLocation) && defaultObject == old(defaultObject) && selectedObject == old(selectedObject)
    {
      if path.Some? && path.value != "" {
        storePath := path.value;
      }
      caseName := CaseName(storePath);
    }
  }
}
