/** The reference coordinate system helpers of `maxp/util/context.py`. The host's current
    reference coordinate system is a field, read and written by `getCoordsys` and
    `setCoordsys`; the `coordsys` context manager saves it, sets a new one and, when the
    `with` body finishes normally, sets the saved one again. */
module Context {
  import opened Wrappers

  /** The ten coordinate spaces `setCoordsys` accepts. */
  const CoordSpaces: seq<string> :=
    ["view", "hybrid", "screen", "world", "parent", "local", "gimbal", "grid", "working_pivot", "local_aligned"]

  /** The argument of `isValidCoordsys`: a Python string, or any other value. Host name
      values are not part of this model. */
  datatype SpaceArg = Text(s: string) | NonText

  /** `isValidCoordsys`: a string is valid exactly when it equals one of the listed spaces;
      anything that is not a string is invalid. */
  function IsValidCoordsys(space: SpaceArg): (ok: bool)
    ensures ok ==> space.Text?
    ensures space.Text? ==> (ok <==> exists i :: 0 <= i < |CoordSpaces| && CoordSpaces[i] == space.s)
  {
    space.Text? && space.s in CoordSpaces
  }

  /** The check is an exact comparison: no case folding, no trimming. */
  lemma ExactMatchOnly()
    ensures IsValidCoordsys(Text("local")) && IsValidCoordsys(Text("working_pivot"))
    ensures !IsValidCoordsys(Text("Local")) && !IsValidCoordsys(Text(" local")) && !IsValidCoordsys(Text("localaligned"))
    ensures |CoordSpaces| == 10
  {
    assert CoordSpaces[5] == "local";
    assert CoordSpaces[8] == "working_pivot";
  }

  datatype CoordError =
    | InvalidSpace(space: SpaceArg)  // ValueError raised by setCoordsys
    | BodyRaised                     // an exception raised inside a `with coordsys(...)` body

  /** Statements of a `with` body, enough to observe the coordinate system: set it, nest
      another `coordsys` block, record the current value, or raise. */
  datatype Stmt =
    | SetSpace(space: SpaceArg)
    | Within(space: SpaceArg, body: seq<Stmt>)
    | Observe
    | Raise

  /** The state after running statements: the current system, the values observed, and the
      error that escaped, if any. */
  datatype Outcome = Outcome(current: string, trace: seq<string>, error: Option<CoordError>)

  /** `setCoordsys(space)` on the current value `cur`. */
  function SetResult(cur: string, space: SpaceArg): (o: Outcome)
    ensures o.trace == []
    ensures IsValidCoordsys(space) ==> o.current == space.s && o.error == None
    ensures !IsValidCoordsys(space) ==> o.current == cur && o.error == Some(InvalidSpace(space))
  {
    if IsValidCoordsys(space) then Outcome(space.s, [], None)
    else Outcome(cur, [], Some(InvalidSpace(space)))
  }

  function Size(stmts: seq<Stmt>): nat
  {
    if stmts == [] then 0
    else
      (match stmts[0]
       case Within(_, body) => 1 + Size(body)
       case _ => 1) + Size(stmts[1..])
  }

  /** Runs statements from the current value `cur`. A `coordsys` block saves `cur`, sets its
      space (raising before the body when the space is invalid), runs the body, and only if
      the body raised nothing sets the saved value again (which validates it once more). */
  function Exec(cur: string, stmts: seq<Stmt>): (o: Outcome)
    ensures IsValidCoordsys(Text(cur)) ==>
      IsValidCoordsys(Text(o.current)) && forall i :: 0 <= i < |o.trace| ==> IsValidCoordsys(Text(o.trace[i]))
    ensures o.error.Some? && o.error.value.InvalidSpace? ==> !IsValidCoordsys(o.error.value.space)
    decreases Size(stmts)
  {
    if stmts == [] then Outcome(cur, [], None)
    else
      var first :=
        match stmts[0]
        case SetSpace(space) => SetResult(cur, space)
        case Observe => Outcome(cur, [cur], None)
        case Raise => Outcome(cur, [], Some(BodyRaised))
        case Within(space, body) =>
          var saved := cur;
          var entered := SetResult(cur, space);
          if entered.error.Some? then entered
          else
            var inner := Exec(entered.current, body);
            if inner.error.Some? then inner
            else
              var restored := SetResult(inner.current, Text(saved));
              Outcome(restored.current, inner.trace, restored.error);
      if first.error.Some? then first
      else
        var rest := Exec(first.current, stmts[1..]);
        Outcome(rest.current, first.trace + rest.trace, rest.error)
  }

  /** An invalid space raises before the body runs and changes nothing. */
  lemma InvalidSpaceSkipsBody(cur: string, space: SpaceArg, body: seq<Stmt>)
    requires !IsValidCoordsys(space)
    ensures Exec(cur, [Within(space, body)]) == Outcome(cur, [], Some(InvalidSpace(space)))
  {
  }

  /** Inside `coordsys(space)` the body runs with `space` current; after a normal exit the
      value saved on entry is current again (provided it is itself a valid space). */
  lemma WithinRunsBodyThenRestores(cur: string, space: SpaceArg, body: seq<Stmt>)
    requires IsValidCoordsys(space) && IsValidCoordsys(Text(cur))
    requires Exec(space.s, body).error.None?
    ensures Exec(cur, [Within(space, body)]) == Outcome(cur, Exec(space.s, body).trace, None)
  {
    assert [Within(space, body)][1..] == [];
  }

  /** An exception in the body skips the restore: whatever the body raised, the block ends
      exactly as the body left it. */
  lemma RaiseSkipsRestore(cur: string, space: SpaceArg, body: seq<Stmt>)
    requires IsValidCoordsys(space)
    requires Exec(space.s, body).error.Some?
    ensures Exec(cur, [Within(space, body)]) == Exec(space.s, body)
  {
    assert [Within(space, body)][1..] == [];
  }

  /** A body that sets another space and then raises leaves that other space current. */
  lemma RaiseAfterSetKeepsLastSpace(cur: string, space: SpaceArg, other: SpaceArg)
    requires IsValidCoordsys(space) && IsValidCoordsys(other)
    ensures Exec(cur, [Within(space, [SetSpace(other), Raise])]) == Outcome(other.s, [], Some(BodyRaised))
  {
    var body := [SetSpace(other), Raise];
    assert body[1..] == [Raise] && [Raise][1..] == [];
    assert Exec(space.s, body) == Outcome(other.s, [], Some(BodyRaised));
    RaiseSkipsRestore(cur, space, body);
  }

  /** The restore validates the saved value again: when it is not one of the ten spaces, a
      normal exit raises `ValueError` and the block's space stays current. */
  lemma RestoreRevalidates(cur: string, space: SpaceArg, body: seq<Stmt>)
    requires IsValidCoordsys(space) && !IsValidCoordsys(Text(cur))
    requires Exec(space.s, body).error.None?
    ensures Exec(cur, [Within(space, body)]).error == Some(InvalidSpace(Text(cur)))
    ensures Exec(cur, [Within(space, body)]).current == Exec(space.s, body).current
  {
    assert [Within(space, body)][1..] == [];
  }

  /** Bodies that only nest `coordsys` blocks on valid spaces and observe. */
  predicate Balanced(stmts: seq<Stmt>)
    decreases Size(stmts)
  {
    stmts == [] ||
    ((match stmts[0]
      case Within(space, body) => IsValidCoordsys(space) && Balanced(body)
      case Observe => true
      case _ => false)
     && Balanced(stmts[1..]))
  }

  /** Nested blocks restore in last-in, first-out order: a balanced body, run from a valid
      space, raises nothing and ends on the space it started from. */
  lemma {:induction false} BalancedRestores(cur: string, stmts: seq<Stmt>)
    requires IsValidCoordsys(Text(cur)) && Balanced(stmts)
    ensures Exec(cur, stmts).current == cur && Exec(cur, stmts).error.None?
    decreases Size(stmts)
  {
    if stmts != [] {
      match stmts[0]
      case Within(space, body) =>
        BalancedRestores(space.s, body);
        BalancedRestores(cur, stmts[1..]);
      case Observe =>
        BalancedRestores(cur, stmts[1..]);
    }
  }

  /** Two nested blocks: the inner body sees the inner space, the outer body then sees the
      outer space again, and the original space is current at the end. */
  lemma NestedExample(c: string, a: string, b: string)
    requires IsValidCoordsys(Text(c)) && IsValidCoordsys(Text(a)) && IsValidCoordsys(Text(b))
    ensures Exec(c, [Within(Text(a), [Within(Text(b), [Observe]), Observe])]) == Outcome(c, [b, a], None)
  {
    var inner := [Within(Text(b), [Observe])];
    assert [Observe][1..] == [];
    assert Exec(b, [Observe]) == Outcome(b, [b], None);
    assert inner[1..] == [];
    assert Exec(a, inner) == Outcome(a, [b], None);
    var body := [Within(Text(b), [Observe]), Observe];
    assert body[1..] == [Observe];
    assert Exec(a, body) == Outcome(a, [b, a], None);
    assert [Within(Text(a), body)][1..] == [];
  }

  lemma {:induction false} SizeSuffix(stmts: seq<Stmt>, i: nat)
    requires i <= |stmts|
    ensures Size(stmts[i..]) <= Size(stmts)
    decreases i
  {
    if i > 0 {
      SizeSuffix(stmts[1..], i - 1);
      assert stmts[1..][i - 1..] == stmts[i..];
    }
  }

  /** The host's reference coordinate system. */
  class CoordSystem {
    var current: string

    constructor (initial: string)
      ensures current == initial
    {
      current := initial;
    }

    /** `getCoordsys`. */
    method GetCoordsys() returns (space: string)
      ensures space == current
    {
      space := current;
    }

    /** `setCoordsys`: an invalid space raises and leaves the system unchanged; a valid one
        becomes current. */
    method SetCoordsys(space: SpaceArg) returns (err: Option<CoordError>)
      modifies this
      ensures !IsValidCoordsys(space) ==> err == Some(InvalidSpace(space)) && current == old(current)
      ensures IsValidCoordsys(space) ==> err == None && current == space.s
    {
      if !IsValidCoordsys(space) {
        return Some(InvalidSpace(space));
      }
      current := space.s;
      err := None;
    }

    /** Entry of `coordsys(space)`: saves the current system, then sets `space`. */
    method Enter(space: SpaceArg) returns (saved: string, err: Option<CoordError>)
      modifies this
      ensures saved == old(current)
      ensures SetResult(old(current), space) == Outcome(current, [], err)
    {
      saved := GetCoordsys();
      err := SetCoordsys(space);
    }

    /** Normal exit of `coordsys`: sets the saved system again. */
    method Exit(saved: string) returns (err: Option<CoordError>)
      modifies this
      ensures SetResult(old(current), Text(saved)) == Outcome(current, [], err)
    {
      err := SetCoordsys(Text(saved));
    }

    /** Runs a `with` body statement by statement. */
    method Run(stmts: seq<Stmt>) returns (trace: seq<string>, err: Option<CoordError>)
      modifies this
      ensures Exec(old(current), stmts) == Outcome(current, trace, err)
      decreases Size(stmts)
    {
      trace, err := [], None;
      var i := 0;
      while i < |stmts|
        invariant 0 <= i <= |stmts| && err == None
        invariant var o := Exec(current, stmts[i..]);
          Exec(old(current), stmts) == Outcome(o.current, trace + o.trace, o.error)
        decreases |stmts| - i
      {
        var rest := stmts[i..];
        assert rest[1..] == stmts[i + 1..];
        SizeSuffix(stmts, i);
        ghost var before := current;
        ghost var done := trace;
        var step: seq<string> := [];
        match stmts[i] {
          case SetSpace(space) =>
            err := SetCoordsys(space);
          case Observe =>
            step := [current];
          case Raise =>
            err := Some(BodyRaised);
          case Within(space, body) =>
            var saved;
            saved, err := Enter(space);
            if err.None? {
              step, err := Run(body);
              if err.None? {
                err := Exit(saved);
              }
            }
        }
        trace := trace + step;
        if err.Some? {
          assert Exec(before, rest) == Outcome(current, step, err);
          return;
        }
        var o' := Exec(current, stmts[i + 1..]);
        assert Exec(before, rest) == Outcome(o'.current, step + o'.trace, o'.error);
        assert done + (step + o'.trace) == trace + o'.trace;
        i := i + 1;
      }
      assert stmts[i..] == [] && trace + [] == trace;
    }
  }
}
