/** The `When` wrapper of `maxp/callbacks.py`: it validates a change-handler request,
    renders the MAXScript `when` construct as text and records the handler the host returns
    in the module-level `HANDLERS` list. The host's `Execute` is abstracted: the handler it
    returns is represented by the script text that created it. That script calls the host
    global `_tempMethod` by name, so a handler holds no callable of its own. */
module Callbacks {
  import opened Wrappers
  import opened Text
  import opened Scene

  // Attribute kinds a change trigger can watch.
  const Topology: string := "topology"
  const Geometry: string := "geometry"
  const Names: string := "names"
  const Transform: string := "transform"
  const Select: string := "select"
  const Parameters: string := "parameters"
  const SubAnimStructure: string := "subAnimStructure"
  const Controller: string := "controller"
  const Children: string := "children"

  // Trigger kinds.
  const Changes: string := "changes"
  const Deleted: string := "deleted"

  /** The Python object passed as the handler, reduced to its identity and whether
      `callable` accepts it. */
  datatype Callback = Callback(id: string, isCallable: bool)

  /** The `objs` argument: a single node, or a list of nodes. */
  datatype Targets = Single(node: Node) | Many(nodes: seq<Node>)

  /** A constructed `When`: the fields `__init__` stores. `handleAt` is the rendering of
      the host name value it carries (`redrawViews` by default). */
  datatype When = When(objs: seq<Node>, trigger: string, handler: Callback, attr: Option<string>, handleAt: string)

  datatype WhenError =
    | InvalidObject(obj: Node)      // ValueError: an object is invalid
    | NotCallable(handler: Callback) // ValueError: the method is not callable
    | MissingAttribute              // ValueError: a change trigger needs an attribute
    | ScriptRejected                // the host's `Execute` raised on the script

  /** What the host's `Execute` returns for a `when` script: the change handler. */
  datatype ChangeHandler = ChangeHandler(script: string)

  /** A single node is wrapped into a one-element list; a list is used as given. */
  function ObjectList(targets: Targets): (objs: seq<Node>)
    ensures targets.Single? ==> objs == [targets.node]
    ensures targets.Many? ==> objs == targets.nodes
  {
    match targets
    case Single(node) => [node]
    case Many(nodes) => nodes
  }

  predicate AllValid(objs: seq<Node>)
  {
    forall i :: 0 <= i < |objs| ==> objs[i].valid
  }

  /** The first invalid object, the one the validation loop raises on. */
  function FirstInvalid(objs: seq<Node>): (r: Option<Node>)
    ensures r.None? <==> AllValid(objs)
    ensures r.Some? ==> exists k :: 0 <= k < |objs| && objs[k] == r.value && !r.value.valid && AllValid(objs[..k])
  {
    if objs == [] then None
    else if !objs[0].valid then
      assert objs[..0] == [];
      Some(objs[0])
    else
      var rest := FirstInvalid(objs[1..]);
      assert forall i :: 1 <= i < |objs| ==> objs[i] == objs[1..][i - 1];
      if rest.Some? then
        var k :| 0 <= k < |objs[1..]| && objs[1..][k] == rest.value && !rest.value.valid && AllValid(objs[1..][..k]);
        assert objs[..k + 1] == [objs[0]] + objs[1..][..k];
        rest
      else rest
  }

  /** The outcome of `When(...)`: objects are checked first, then the method, then (in
      `_exec`) that a change trigger has an attribute. */
  function Construct(targets: Targets, trigger: string, handler: Callback, attr: Option<string>, handleAt: string)
    : (r: Result<When, WhenError>)
    ensures (r.Failure? && r.error.InvalidObject?) <==> !AllValid(ObjectList(targets))
    ensures r.Failure? && r.error.InvalidObject? ==>
      exists k :: 0 <= k < |ObjectList(targets)| && ObjectList(targets)[k] == r.error.obj && !r.error.obj.valid
        && AllValid(ObjectList(targets)[..k])
    ensures (r.Failure? && r.error.NotCallable?) <==> AllValid(ObjectList(targets)) && !handler.isCallable
    ensures r == Failure(MissingAttribute) <==>
      AllValid(ObjectList(targets)) && handler.isCallable && trigger == Changes && attr.None?
    ensures r.Success? ==> r.value == When(ObjectList(targets), trigger, handler, attr, handleAt)
  {
    var objs := ObjectList(targets);
    match FirstInvalid(objs)
    case Some(obj) => Failure(InvalidObject(obj))
    case None =>
      if !handler.isCallable then Failure(NotCallable(handler))
      else if trigger == Changes && attr.None? then Failure(MissingAttribute)
      else Success(When(objs, trigger, handler, attr, handleAt))
  }

  /** A `deleted` trigger needs no attribute. */
  lemma DeletedNeedsNoAttribute(targets: Targets, handler: Callback, handleAt: string)
    requires AllValid(ObjectList(targets)) && handler.isCallable
    ensures Construct(targets, Deleted, handler, None, handleAt).Success?
  {
  }

  /** The `$name` item of each object. */
  function ArrayItems(objs: seq<Node>): (items: seq<string>)
    ensures |items| == |objs|
    ensures forall i :: 0 <= i < |objs| ==> items[i] == "$" + objs[i].name
  {
    seq(|objs|, i requires 0 <= i < |objs| => "$" + objs[i].name)
  }

  /** The MAXScript array literal of the objects, `#($a,$b)`. */
  function MxsArray(objs: seq<Node>): (r: string)
    ensures |r| >= 3 && r[..2] == "#(" && r[|r| - 1] == ')'
    ensures |r| == 3 <==> objs == []
  {
    ItemsJoinNonEmpty(objs);
    "#(" + Join(ArrayItems(objs), ",") + ")"
  }

  lemma ItemsJoinNonEmpty(objs: seq<Node>)
    ensures objs != [] ==> |Join(ArrayItems(objs), ",")| >= 1
  {
    if objs != [] {
      JoinNonEmpty(ArrayItems(objs), ",");
    }
  }

  /** The attribute as the f-string renders it: an absent attribute prints as `None`. */
  function AttrText(attr: Option<string>): string
  {
    match attr
    case Some(a) => a
    case None => "None"
  }

  /** The words of the script `_exec` runs: `when <attr> <array> <trigger>
      handleAt:#<mode> node do (_tempMethod node)`. */
  function CommandWords(w: When): (words: seq<string>)
    ensures |words| == 9
  {
    ["when", AttrText(w.attr), MxsArray(w.objs), w.trigger, "handleAt:#" + w.handleAt, "node", "do", "(_tempMethod", "node)"]
  }

  /** The attribute, object names, trigger and mode carry no space of their own. */
  predicate Spaceless(w: When)
  {
    Word(AttrText(w.attr)) && Word(w.trigger) && Word(w.handleAt)
    && forall i :: 0 <= i < |w.objs| ==> Word(w.objs[i].name)
  }

  /** The script `_exec` runs: its words separated by single spaces. Split on spaces it
      gives back exactly the nine words when its parts carry no space of their own. */
  function Command(w: When): (r: string)
    ensures Spaceless(w) ==> Split(r, ' ') == CommandWords(w)
  {
    WordsSplitBack(w);
    Join(CommandWords(w), " ")
  }

  lemma WordsSplitBack(w: When)
    ensures Spaceless(w) ==> Split(Join(CommandWords(w), " "), ' ') == CommandWords(w)
  {
    var ws := CommandWords(w);
    if Spaceless(w) {
      assert Word(MxsArray(w.objs)) by {
        ItemsHaveNoSpace(w.objs);
        JoinWords(ArrayItems(w.objs), ",");
      }
      assert Free(ws, ' ');
      SplitJoin(ws, ' ');
    }
  }

  /** Reads the object names back out of an array literal. */
  function ArrayNames(text: string): Option<seq<string>>
  {
    if |text| < 3 || text[..2] != "#(" || text[|text| - 1] != ')' then None
    else
      var body := text[2..|text| - 1];
      if body == [] then Some([])
      else
        var items := Split(body, ',');
        if forall i :: 0 <= i < |items| ==> |items[i]| >= 1 && items[i][0] == '$'
        then Some(seq(|items|, i requires 0 <= i < |items| => items[i][1..]))
        else None
  }

  function NamesOf(objs: seq<Node>): (names: seq<string>)
    ensures |names| == |objs| && forall i :: 0 <= i < |objs| ==> names[i] == objs[i].name
  {
    seq(|objs|, i requires 0 <= i < |objs| => objs[i].name)
  }

  /** The empty object list renders as `#()`. */
  lemma EmptyArray()
    ensures MxsArray([]) == "#()"
  {
  }

  /** The array literal round-trips: the names can be read back, in order, as long as no
      name contains a comma. */
  lemma ArrayRoundTrip(objs: seq<Node>)
    requires forall i :: 0 <= i < |objs| ==> ',' !in objs[i].name
    ensures ArrayNames(MxsArray(objs)) == Some(NamesOf(objs))
  {
    var items := ArrayItems(objs);
    var body := Join(items, ",");
    var text := MxsArray(objs);
    assert text[..2] == "#(" && text[|text| - 1] == ')';
    assert text[2..|text| - 1] == body;
    if objs != [] {
      assert Free(items, ',') by {
        forall i | 0 <= i < |items| ensures ',' !in items[i] {
          assert items[i] == "$" + objs[i].name;
        }
      }
      SplitJoin(items, ',');
      assert |body| > 0 by { JoinNonEmpty(items, ","); }
      assert Split(body, ',') == items;
      forall i | 0 <= i < |items| ensures |items[i]| >= 1 && items[i][0] == '$' && items[i][1..] == objs[i].name {
        assert items[i] == "$" + objs[i].name;
      }
      var names := seq(|items|, i requires 0 <= i < |items| => items[i][1..]);
      assert names == NamesOf(objs);
      assert ArrayNames(text) == Some(names);
    }
  }

  lemma {:induction false} JoinNonEmpty(parts: seq<string>, sep: string)
    requires |parts| >= 1 && |parts[0]| >= 1
    ensures |Join(parts, sep)| >= 1
  {
  }

  /** True when the string has no space. */
  predicate Word(s: string)
  {
    ' ' !in s
  }

  lemma ItemsHaveNoSpace(objs: seq<Node>)
    requires forall i :: 0 <= i < |objs| ==> Word(objs[i].name)
    ensures forall i :: 0 <= i < |ArrayItems(objs)| ==> Word(ArrayItems(objs)[i])
  {
    forall i | 0 <= i < |objs| ensures Word(ArrayItems(objs)[i]) {
      assert ArrayItems(objs)[i] == "$" + objs[i].name;
    }
  }

  lemma {:induction false} JoinWords(parts: seq<string>, sep: string)
    requires Word(sep) && forall i :: 0 <= i < |parts| ==> Word(parts[i])
    ensures Word(Join(parts, sep))
    decreases |parts|
  {
    if |parts| > 1 {
      JoinWords(parts[1..], sep);
    }
  }

  /** The module-level `HANDLERS` list, together with the host global `_tempMethod` that
      `_exec` assigns before running the script. */
  class Handlers {
    var list: seq<ChangeHandler>
    var tempMethod: Option<Callback>

    constructor ()
      ensures list == [] && tempMethod == None
    {
      list := [];
      tempMethod := None;
    }

    /** `When.__init__`: validates the objects one by one, then the method, then runs `_exec`.
        `accepted` is whether the host's `Execute` accepts the script. A Python-side error
        changes nothing; a rejected script leaves `_tempMethod` set but appends nothing; on
        success exactly one handler is appended. */
    method Subscribe(targets: Targets, trigger: string, handler: Callback, attr: Option<string>, handleAt: string,
                     accepted: bool)
      returns (r: Result<When, WhenError>)
      modifies this
      ensures Construct(targets, trigger, handler, attr, handleAt).Failure? ==>
        r == Construct(targets, trigger, handler, attr, handleAt) && list == old(list) && tempMethod == old(tempMethod)
      ensures Construct(targets, trigger, handler, attr, handleAt).Success? && !accepted ==>
        r == Failure(ScriptRejected) && list == old(list) && tempMethod == Some(handler)
      ensures Construct(targets, trigger, handler, attr, handleAt).Success? && accepted ==>
        r == Construct(targets, trigger, handler, attr, handleAt)
        && list == old(list) + [ChangeHandler(Command(r.value))] && tempMethod == Some(handler)
    {
      var objs := ObjectList(targets);
      for i := 0 to |objs|
        invariant AllValid(objs[..i])
      {
        if !objs[i].valid {
          assert FirstInvalid(objs) == Some(objs[i]) by {
            FirstInvalidIsFirst(objs, i);
          }
          return Failure(InvalidObject(objs[i]));
        }
        assert objs[..i + 1] == objs[..i] + [objs[i]];
      }
      assert objs[..|objs|] == objs;
      if !handler.isCallable {
        return Failure(NotCallable(handler));
      }
      var w := When(objs, trigger, handler, attr, handleAt);
      var done := Exec(w, accepted);
      if done.Failure? {
        return Failure(done.error);
      }
      r := Success(w);
    }

    /** `When._exec`: a change trigger without an attribute raises before anything else;
        otherwise `_tempMethod` is set and the script runs. `accepted` is whether the host's
        `Execute` accepts the script: if it raises, `_tempMethod` stays reassigned and nothing
        is appended; otherwise the handler it returns is appended. */
    method Exec(w: When, accepted: bool) returns (r: Result<(), WhenError>)
      modifies this
      ensures r.Failure? <==> (w.trigger == Changes && w.attr.None?) || !accepted
      ensures w.trigger == Changes && w.attr.None? ==>
        r == Failure(MissingAttribute) && list == old(list) && tempMethod == old(tempMethod)
      ensures !(w.trigger == Changes && w.attr.None?) && !accepted ==>
        r == Failure(ScriptRejected) && list == old(list) && tempMethod == Some(w.handler)
      ensures r.Success? ==> list == old(list) + [ChangeHandler(Command(w))] && tempMethod == Some(w.handler)
    {
      if w.trigger == Changes && w.attr.None? {
        return Failure(MissingAttribute);
      }
      tempMethod := Some(w.handler);
      var mxs := Command(w);
      if !accepted {
        return Failure(ScriptRejected);
      }
      var handler := ChangeHandler(mxs);
      list := list + [handler];
      r := Success(());
    }
  }

  /** An invalid object preceded only by valid ones is the one reported. */
  lemma {:induction false} FirstInvalidIsFirst(objs: seq<Node>, i: nat)
    requires i < |objs| && !objs[i].valid && AllValid(objs[..i])
    ensures FirstInvalid(objs) == Some(objs[i])
  {
    var r := FirstInvalid(objs);
    var k :| 0 <= k < |objs| && objs[k] == r.value && !r.value.valid && AllValid(objs[..k]);
  }
}
