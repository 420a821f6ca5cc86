/** Node operations of `maxp/scene.py`: name lookup and the string-keyed property accessor.
    A host node is a record; the scene's name lookup is a map from name to the first node
    carrying that name (a name that is absent resolves to `None`). */
module Scene {
  import opened Wrappers

  /** A property value. Floating-point values are not part of this model. */
  datatype Value = IntValue(i: int) | BoolValue(b: bool) | StringValue(s: string)

  /** The number Python sees in a value: `bool` is a subclass of `int`, so `True` is 1. */
  function AsNumber(v: Value): (n: Option<int>)
    ensures n.Some? <==> !v.StringValue?
    ensures v.BoolValue? ==> n == Some(if v.b then 1 else 0)
  {
    match v
    case IntValue(i) => Some(i)
    case BoolValue(b) => Some(if b then 1 else 0)
    case StringValue(_) => None
  }

  /** Python's `==` on property values: numbers compare by value across `int` and `bool`,
      strings compare with strings only. */
  predicate PyEq(a: Value, b: Value)
  {
    a == b || (AsNumber(a).Some? && AsNumber(a) == AsNumber(b))
  }

  /** `==` is symmetric, and for values of the same kind it is structural equality; a
      string never equals a number. */
  lemma PyEqProperties(a: Value, b: Value)
    ensures PyEq(a, b) <==> PyEq(b, a)
    ensures (a.IntValue? && b.IntValue?) || (a.BoolValue? && b.BoolValue?) || (a.StringValue? && b.StringValue?)
      ==> (PyEq(a, b) <==> a == b)
    ensures a.StringValue? != b.StringValue? ==> !PyEq(a, b)
  {
  }

  /** `True == 1` and `False == 0`, but `True != 2`. */
  lemma BoolEqualsItsNumber(b: bool, i: int)
    ensures PyEq(BoolValue(b), IntValue(i)) <==> i == (if b then 1 else 0)
  {
  }

  /** A host node: its name, whether it is still live, whether it is a host wrapper
      object (rather than a plain Python value), and its properties. */
  datatype Node = Node(name: string, valid: bool, isWrapper: bool, props: map<string, Value>)

  /** The host's `getNodeByName`: the first node with the name, if any. */
  type Lookup = map<string, Node>

  function NodeByName(scene: Lookup, name: string): (r: Option<Node>)
    ensures r.Some? <==> name in scene
    ensures r.Some? ==> r.value == scene[name]
  {
    if name in scene then Some(scene[name]) else None
  }

  /** The nodes of the names that resolve, in the order of the names. */
  function NodesByName(scene: Lookup, names: seq<string>): (r: seq<Node>)
    ensures |r| <= |names|
    ensures |r| == |names| <==> forall i :: 0 <= i < |names| ==> names[i] in scene
  {
    if names == [] then []
    else
      var rest := NodesByName(scene, names[1..]);
      assert forall i :: 1 <= i < |names| ==> names[i] == names[1..][i - 1];
      if names[0] in scene then [scene[names[0]]] + rest else rest
  }

  /** The lookup distributes over concatenation of the name list: order is kept. */
  lemma {:induction false} NodesByNameAppend(scene: Lookup, xs: seq<string>, ys: seq<string>)
    ensures NodesByName(scene, xs + ys) == NodesByName(scene, xs) + NodesByName(scene, ys)
    decreases |xs|
  {
    if xs != [] {
      assert (xs + ys)[0] == xs[0];
      assert (xs + ys)[1..] == xs[1..] + ys;
      NodesByNameAppend(scene, xs[1..], ys);
    } else {
      assert xs + ys == ys;
    }
  }

  /** Every node returned is the node of some requested name. */
  lemma {:induction false} NodesByNameSound(scene: Lookup, names: seq<string>, k: nat)
    requires k < |NodesByName(scene, names)|
    ensures exists i :: 0 <= i < |names| && names[i] in scene && NodesByName(scene, names)[k] == scene[names[i]]
    decreases |names|
  {
    var rest := NodesByName(scene, names[1..]);
    if names[0] in scene {
      if k == 0 {
        assert names[0] in scene && NodesByName(scene, names)[0] == scene[names[0]];
      } else {
        NodesByNameSound(scene, names[1..], k - 1);
        var i :| 0 <= i < |names[1..]| && names[1..][i] in scene && rest[k - 1] == scene[names[1..][i]];
        assert names[i + 1] == names[1..][i];
      }
    } else {
      NodesByNameSound(scene, names[1..], k);
      var i :| 0 <= i < |names[1..]| && names[1..][i] in scene && rest[k] == scene[names[1..][i]];
      assert names[i + 1] == names[1..][i];
    }
  }

  /** `getNodesByName`: resolves each name and keeps the nodes found, in order. */
  method GetNodesByName(scene: Lookup, names: seq<string>) returns (nodes: seq<Node>)
    ensures nodes == NodesByName(scene, names)
  {
    nodes := [];
    for i := 0 to |names|
      invariant nodes == NodesByName(scene, names[..i])
    {
      var node := NodeByName(scene, names[i]);
      assert names[..i + 1] == names[..i] + [names[i]];
      NodesByNameAppend(scene, names[..i], [names[i]]);
      if node.None? {
        continue;
      }
      nodes := nodes + [node.value];
    }
    assert names[..|names|] == names;
  }

  /** Errors raised by the property accessor and the class queries. */
  datatype SceneError =
    | NoProperty(name: string)   // AttributeError: the node has no such property
    | ReadBackMismatch           // AssertionError: the value read back differs from the one set
    | NotMaxObject               // TypeError: not a host wrapper object
    | InvalidNode                // ValueError: the node is not valid

  /** `hasProperty`: the property lookup succeeds (both the wrapper and the plain branch
      look the name up among the node's properties). */
  predicate HasProperty(node: Node, name: string)
    ensures HasProperty(node, name) <==> name in node.props.Keys
  {
    name in node.props
  }

  /** `getProperty`: the stored value, or `AttributeError` when the property is missing. */
  function GetProperty(node: Node, name: string): (r: Result<Value, SceneError>)
    ensures r.Failure? <==> !HasProperty(node, name)
    ensures r.Failure? ==> r.error == NoProperty(name)
    ensures r.Success? ==> name in node.props && r.value == node.props[name]
  {
    if !HasProperty(node, name) then Failure(NoProperty(name))
    else Success(node.props[name])
  }

  /** What `setProperty` leaves behind: the node after the call and the error it raised. */
  datatype SetOutcome = SetOutcome(node: Node, error: Option<SceneError>)

  /** `setProperty` for a non-float value. `stored` is the value the host actually keeps
      after the write (the host may convert it or write to a temporary copy); the
      function writes it, reads the property back and fails the assertion when the
      read-back is not `==` to `value` in Python's sense. The write has happened even when
      the assertion fails. */
  function SetProperty(node: Node, name: string, value: Value, stored: Value): (r: SetOutcome)
    ensures !HasProperty(node, name) ==> r == SetOutcome(node, Some(NoProperty(name)))
    ensures HasProperty(node, name) ==>
      && r.node == node.(props := node.props[name := stored])
      && (r.error.None? <==> PyEq(stored, value))
      && (r.error.Some? ==> r.error.value == ReadBackMismatch)
  {
    if !HasProperty(node, name) then SetOutcome(node, Some(NoProperty(name)))
    else
      var written := node.(props := node.props[name := stored]);
      var readBack := GetProperty(written, name);
      if readBack.Success? && PyEq(readBack.value, value) then SetOutcome(written, None)
      else SetOutcome(written, Some(ReadBackMismatch))
  }

  /** After a `setProperty` that raised nothing, `getProperty` returns a value `==` to the
      one just set (the value itself when the host stored a value of the same kind), and
      every other property and field of the node is unchanged. */
  lemma SetThenGet(node: Node, name: string, value: Value, stored: Value, other: string)
    requires SetProperty(node, name, value, stored).error.None?
    ensures var got := GetProperty(SetProperty(node, name, value, stored).node, name);
      got.Success? && PyEq(got.value, value)
    ensures stored.IntValue? == value.IntValue? && stored.BoolValue? == value.BoolValue? ==>
      GetProperty(SetProperty(node, name, value, stored).node, name) == Success(value)
    ensures other != name ==>
      GetProperty(SetProperty(node, name, value, stored).node, other) == GetProperty(node, other)
    ensures SetProperty(node, name, value, stored).node.name == node.name
  {
  }

  /** The host turning an `int` into a `bool` passes the read-back: `True == 1`. */
  lemma IntStoredAsBool(node: Node, name: string)
    requires HasProperty(node, name)
    ensures SetProperty(node, name, IntValue(1), BoolValue(true)).error == None
    ensures SetProperty(node, name, IntValue(2), BoolValue(true)).error == Some(ReadBackMismatch)
  {
  }

  /** The shared guard of `isClass` and `isSubClass`: a non-wrapper value is a type error
      before validity is looked at; an invalid wrapper is a value error. */
  function ClassQueryGuard(node: Node): (r: Option<SceneError>)
    ensures r == None <==> node.isWrapper && node.valid
    ensures !node.isWrapper ==> r == Some(NotMaxObject)
    ensures node.isWrapper && !node.valid ==> r == Some(InvalidNode)
  {
    if !node.isWrapper then Some(NotMaxObject)
    else if !node.valid then Some(InvalidNode)
    else None
  }

  /** `isClass`: `hostClassOf` is the host's answer to `classOf`, reached only past the guard. */
  function IsClass(node: Node, hostClassOf: bool): (r: Result<bool, SceneError>)
    ensures r.Success? <==> node.isWrapper && node.valid
    ensures r.Success? ==> r.value == hostClassOf
    ensures !node.isWrapper ==> r == Failure(NotMaxObject)
    ensures node.isWrapper && !node.valid ==> r == Failure(InvalidNode)
  {
    match ClassQueryGuard(node)
    case Some(e) => Failure(e)
    case None => Success(hostClassOf)
  }

  /** `isSubClass`: the same guard in front of the host's `isKindOf`. */
  function IsSubClass(node: Node, hostIsKindOf: bool): (r: Result<bool, SceneError>)
    ensures r.Success? <==> node.isWrapper && node.valid
    ensures r.Success? ==> r.value == hostIsKindOf
    ensures !node.isWrapper ==> r == Failure(NotMaxObject)
    ensures node.isWrapper && !node.valid ==> r == Failure(InvalidNode)
  {
    match ClassQueryGuard(node)
    case Some(e) => Failure(e)
    case None => Success(hostIsKindOf)
  }
}
