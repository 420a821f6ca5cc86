/** File helpers of `maxp/util/fileio.py` (and its copy `src/utils/files.py`): resolving a
    backslash-separated relative path against the caller's own file, and exporting nodes.
    The caller's file path, which the source takes from the interpreter stack, is a
    parameter; paths follow the Windows rules of Python's `os.path` (the tool runs on Windows). */
module FileIO {
  import opened Wrappers
  import opened Text
  import opened Scene

  const Backslash: char := '\\'
  const Parent: string := ".."

  predicate IsSeparator(c: char)
  {
    c == '\\' || c == '/'
  }

  /** A second path argument that `os.path.join` simply appends: it neither starts at a
      root nor carries a drive. */
  predicate PlainTail(tail: string)
  {
    tail == [] || (!IsSeparator(tail[0]) && !(|tail| >= 2 && tail[1] == ':'))
  }

  /** `s.find(sep, from)` after `/` has been replaced by `\`: the first separator at or
      after `from`, or -1. */
  function FindSeparator(s: string, from: nat): (i: int)
    ensures i == -1 || (from <= i < |s| && IsSeparator(s[i]))
    decreases |s| - from
  {
    if from >= |s| then -1
    else if IsSeparator(s[from]) then from
    else FindSeparator(s, from + 1)
  }

  /** The separator found is the first one: none stands between `from` and it. */
  lemma {:induction false} FindSeparatorFirst(s: string, from: nat, j: nat)
    requires from <= j < |s|
    requires FindSeparator(s, from) == -1 || j < FindSeparator(s, from)
    ensures !IsSeparator(s[j])
    decreases |s| - from
  {
    if j > from {
      FindSeparatorFirst(s, from + 1, j);
    }
  }

  /** The length of the drive `ntpath.splitdrive` (Python 3.7 to 3.10) finds at the start
      of `p`: a UNC prefix `\\host\share`, a letter drive `X:`, or nothing. */
  function DriveLength(p: string): (n: nat)
    ensures n <= |p|
    ensures 0 < n < |p| && p[n - 1] != ':' ==> IsSeparator(p[n])
  {
    if |p| >= 2 && IsSeparator(p[0]) && IsSeparator(p[1]) && !(|p| >= 3 && IsSeparator(p[2])) then
      var index := FindSeparator(p, 2);
      if index == -1 then 0
      else
        var index2 := FindSeparator(p, index + 1);
        if index2 == index + 1 then 0
        else if index2 == -1 then |p|
        else index2
    else if |p| >= 2 && p[1] == ':' then 2
    else 0
  }

  /** `os.path.join(root, tail)` on Windows (`ntpath.join`, Python 3.7 to 3.10) for a plain
      tail. The root splits into its drive and its path part. A backslash goes after a path
      part that is not empty and does not end with a separator. When the path part is empty,
      a backslash goes between a non-empty tail and a UNC drive (one not ending with `:`),
      and nothing is added otherwise. */
  function PathJoin(root: string, tail: string): (r: string)
    requires PlainTail(tail)
    ensures r == root + tail || r == root + [Backslash] + tail
    ensures |r| >= |tail| && r[|r| - |tail|..] == tail
    ensures |r| >= |root| && r[..|root|] == root
  {
    var n := DriveLength(root);
    if n < |root| then
      if IsSeparator(root[|root| - 1]) then root + tail else root + [Backslash] + tail
    else if tail != [] && n > 0 && root[n - 1] != ':' then root + [Backslash] + tail
    else root + tail
  }

  /** A root whose path part is not empty and does not end with a separator gets exactly
      one backslash before the tail. */
  lemma JoinOrdinary(root: string, tail: string)
    requires PlainTail(tail) && OrdinaryRoot(root)
    ensures PathJoin(root, tail) == root + [Backslash] + tail
  {
  }

  /** A UNC share root `\\host\share` is all drive: an empty tail leaves it as it is, and
      any other plain tail follows it after one backslash. */
  lemma JoinUncShare(root: string, host: string, share: string, tail: string)
    requires host != [] && share != []
    requires forall i :: 0 <= i < |host| ==> !IsSeparator(host[i])
    requires forall i :: 0 <= i < |share| ==> !IsSeparator(share[i])
    requires root == [Backslash, Backslash] + host + [Backslash] + share
    requires PlainTail(tail)
    ensures DriveLength(root) == |root|
    ensures PathJoin(root, []) == root
    ensures tail != [] && share[|share| - 1] != ':' ==> PathJoin(root, tail) == root + [Backslash] + tail
  {
    var index := 2 + |host|;
    assert root[index] == Backslash;
    var found := FindSeparator(root, 2);
    assert forall j :: 2 <= j < index ==> root[j] == host[j - 2];
    if found == -1 || index < found {
      FindSeparatorFirst(root, 2, index);
    }
    assert forall j :: index + 1 <= j < |root| ==> root[j] == share[j - index - 1];
    assert root[2] == host[0];
  }

  /** Number of `..` leaves. */
  function CountParents(leaves: seq<string>): (n: nat)
    ensures n <= |leaves|
  {
    if leaves == [] then 0
    else (if leaves[0] == Parent then 1 else 0) + CountParents(leaves[1..])
  }

  /** The leaves other than `..`, in order. */
  function DropParents(leaves: seq<string>): (r: seq<string>)
    ensures |r| + CountParents(leaves) == |leaves|
    ensures Parent !in r
  {
    if leaves == [] then []
    else if leaves[0] == Parent then DropParents(leaves[1..])
    else [leaves[0]] + DropParents(leaves[1..])
  }

  /** Python's `s[:stop]`: a negative stop counts from the end and is clipped at zero. */
  function PyPrefix<T>(s: seq<T>, stop: int): (r: seq<T>)
    ensures 0 <= stop <= |s| ==> r == s[..stop]
    ensures stop < 0 ==> r == s[..if |s| + stop < 0 then 0 else |s| + stop]
  {
    if stop >= 0 then s[..if stop <= |s| then stop else |s|]
    else if |s| + stop < 0 then []
    else s[..|s| + stop]
  }

  /** How many trailing leaves of the caller's path `relative` removes. */
  function DropCount(filename: string): nat
  {
    CountParents(Split(filename, Backslash)) + 1
  }

  /** The directory `relative` resolves against. */
  function RelativeRoot(filename: string, calledFrom: string): string
  {
    var commonLeaves := Split(calledFrom, Backslash);
    Join(PyPrefix(commonLeaves, |commonLeaves| - DropCount(filename)), [Backslash])
  }

  /** The part of `filename` that `relative` appends. */
  function RelativeTail(filename: string): string
  {
    Join(DropParents(Split(filename, Backslash)), [Backslash])
  }

  /** `relative(filename)` called from the file `calledFrom`. */
  function Relative(filename: string, calledFrom: string): (r: string)
    requires PlainTail(RelativeTail(filename))
    ensures |r| >= |RelativeRoot(filename, calledFrom)| && r[..|RelativeRoot(filename, calledFrom)|] == RelativeRoot(filename, calledFrom)
    ensures |r| >= |RelativeTail(filename)| && r[|r| - |RelativeTail(filename)|..] == RelativeTail(filename)
    ensures |r| <= |RelativeRoot(filename, calledFrom)| + 1 + |RelativeTail(filename)|
  {
    PathJoin(RelativeRoot(filename, calledFrom), RelativeTail(filename))
  }

  /** `DropParents` keeps order: it distributes over concatenation. */
  lemma {:induction false} DropParentsAppend(xs: seq<string>, ys: seq<string>)
    ensures DropParents(xs + ys) == DropParents(xs) + DropParents(ys)
    ensures CountParents(xs + ys) == CountParents(xs) + CountParents(ys)
    decreases |xs|
  {
    if xs == [] {
      assert xs + ys == ys;
    } else {
      assert (xs + ys)[0] == xs[0];
      assert (xs + ys)[1..] == xs[1..] + ys;
      DropParentsAppend(xs[1..], ys);
    }
  }

  /** `DropParents` removes `..` wherever it stands and nothing else: every other leaf keeps
      its number of occurrences. */
  lemma {:induction false} DropParentsKeeps(leaves: seq<string>, x: string)
    requires x != Parent
    ensures multiset(DropParents(leaves))[x] == multiset(leaves)[x]
    decreases |leaves|
  {
    if leaves != [] {
      DropParentsKeeps(leaves[1..], x);
      assert leaves == [leaves[0]] + leaves[1..];
    }
  }

  /** The root is the caller's leaves with `DropCount` of them removed from the end, when
      the caller's path has more leaves than that. */
  lemma RootLeaves(filename: string, calledFrom: string)
    requires DropCount(filename) < |Split(calledFrom, Backslash)|
    ensures Split(RelativeRoot(filename, calledFrom), Backslash)
         == Split(calledFrom, Backslash)[..|Split(calledFrom, Backslash)| - DropCount(filename)]
  {
    var commonLeaves := Split(calledFrom, Backslash);
    var kept := commonLeaves[..|commonLeaves| - DropCount(filename)];
    assert Free(kept, Backslash) by {
      forall i | 0 <= i < |kept| ensures Backslash !in kept[i] {
        assert kept[i] == commonLeaves[i];
      }
    }
    SplitJoin(kept, Backslash);
  }

  /** With more `..` leaves than the caller's path has leaves, Python's negative slice
      keeps `2 * leaves - DropCount` leaves (none once that is negative). */
  lemma RootNegativeSlice(filename: string, calledFrom: string)
    requires DropCount(filename) > |Split(calledFrom, Backslash)|
    ensures var n := |Split(calledFrom, Backslash)|;
      RelativeRoot(filename, calledFrom)
      == Join(Split(calledFrom, Backslash)[..if 2 * n < DropCount(filename) then 0 else 2 * n - DropCount(filename)], [Backslash])
  {
  }

  /** With exactly as many `..` leaves as the caller's path has leaves, the root is empty
      and `relative` returns the tail alone, a path relative to the current directory. */
  lemma RootEmptied(filename: string, calledFrom: string)
    requires DropCount(filename) == |Split(calledFrom, Backslash)|
    requires PlainTail(RelativeTail(filename))
    ensures RelativeRoot(filename, calledFrom) == []
    ensures Relative(filename, calledFrom) == RelativeTail(filename)
  {
    var commonLeaves := Split(calledFrom, Backslash);
    assert PyPrefix(commonLeaves, |commonLeaves| - DropCount(filename)) == [];
  }

  /** The appended tail, split again, is exactly the input's leaves without any `..`,
      unless every leaf was `..`. */
  lemma TailLeaves(filename: string)
    requires DropParents(Split(filename, Backslash)) != []
    ensures Split(RelativeTail(filename), Backslash) == DropParents(Split(filename, Backslash))
  {
    var leaves := Split(filename, Backslash);
    DropParentsFree(leaves);
    SplitJoin(DropParents(leaves), Backslash);
  }

  lemma {:induction false} DropParentsFree(leaves: seq<string>)
    requires Free(leaves, Backslash)
    ensures Free(DropParents(leaves), Backslash)
    decreases |leaves|
  {
    if leaves != [] {
      assert Free(leaves[1..], Backslash) by {
        forall i | 0 <= i < |leaves[1..]| ensures Backslash !in leaves[1..][i] {
          assert leaves[1..][i] == leaves[i + 1];
        }
      }
      DropParentsFree(leaves[1..]);
    }
  }

  /** A root that `os.path.join` extends with one backslash: its path part (after the
      drive) is not empty and it does not end with a separator. */
  predicate OrdinaryRoot(root: string)
  {
    root != [] && !IsSeparator(root[|root| - 1]) && DriveLength(root) < |root|
  }

  /** The whole result, leaf by leaf: the caller's leaves without the last `DropCount`
      ones, followed by the input's leaves without `..`. */
  lemma RelativeLeaves(filename: string, calledFrom: string)
    requires PlainTail(RelativeTail(filename))
    requires DropCount(filename) < |Split(calledFrom, Backslash)|
    requires OrdinaryRoot(RelativeRoot(filename, calledFrom))
    requires DropParents(Split(filename, Backslash)) != []
    ensures Split(Relative(filename, calledFrom), Backslash)
         == Split(calledFrom, Backslash)[..|Split(calledFrom, Backslash)| - DropCount(filename)]
          + DropParents(Split(filename, Backslash))
  {
    var root := RelativeRoot(filename, calledFrom);
    var tail := RelativeTail(filename);
    JoinOrdinary(root, tail);
    SplitAround(root, tail, Backslash);
    RootLeaves(filename, calledFrom);
    TailLeaves(filename);
  }

  /** Without any `..`, only the caller's own file name is dropped: the path resolves
      against the caller's directory. */
  lemma NoParentsResolvesBesideCaller(filename: string, calledFrom: string)
    requires Parent !in Split(filename, Backslash)
    requires 1 < |Split(calledFrom, Backslash)|
    ensures DropCount(filename) == 1
    ensures DropParents(Split(filename, Backslash)) == Split(filename, Backslash)
    ensures Split(RelativeRoot(filename, calledFrom), Backslash)
         == Split(calledFrom, Backslash)[..|Split(calledFrom, Backslash)| - 1]
  {
    NoParentsKept(Split(filename, Backslash));
    RootLeaves(filename, calledFrom);
  }

  lemma {:induction false} NoParentsKept(leaves: seq<string>)
    requires Parent !in leaves
    ensures CountParents(leaves) == 0 && DropParents(leaves) == leaves
    decreases |leaves|
  {
    if leaves != [] {
      assert leaves[0] != Parent;
      assert Parent !in leaves[1..];
      NoParentsKept(leaves[1..]);
    }
  }

  /** The documented usage `relative('..\\..\\test.txt')`: two `..` leaves remove three
      leaves of the caller's path, and `test.txt` is appended. */
  lemma DocumentedExample(filename: string, calledFrom: string)
    requires filename == "..\\..\\test.txt"
    requires calledFrom == "C:\\tools\\maxp\\util\\fileio.py"
    ensures PlainTail(RelativeTail(filename))
    ensures Relative(filename, calledFrom) == "C:\\tools\\test.txt"
  {
    var leaves := ExampleInputLeaves(filename);
    var caller := ExampleCallerLeaves(calledFrom);
    assert PyPrefix(caller, |caller| - 3) == ["C:", "tools"];
    var root, tail := "C:\\tools", "test.txt";
    assert Join(["C:", "tools"], [Backslash]) == root;
    assert Join(["test.txt"], [Backslash]) == tail;
    assert DropCount(filename) == 3;
    assert RelativeRoot(filename, calledFrom) == root;
    assert RelativeTail(filename) == tail;
    assert root[0] == 'C' && root[1] == ':' && DriveLength(root) == 2;
    JoinOrdinary(root, tail);
    assert root + [Backslash] + tail == "C:\\tools\\test.txt";
  }

  lemma ExampleInputLeaves(filename: string) returns (leaves: seq<string>)
    requires filename == "..\\..\\test.txt"
    ensures leaves == ["..", "..", "test.txt"] && Split(filename, Backslash) == leaves
    ensures CountParents(leaves) == 2 && DropParents(leaves) == ["test.txt"]
  {
    leaves := ["..", "..", "test.txt"];
    assert leaves[1..] == ["..", "test.txt"] && leaves[1..][1..] == ["test.txt"];
    assert DropParents(leaves[2..]) == ["test.txt"] && CountParents(leaves[2..]) == 0;
    var t := "test.txt";
    assert Join(leaves[2..], [Backslash]) == t;
    assert Join(leaves[1..], [Backslash]) == ".." + [Backslash] + t;
    assert Join(leaves, [Backslash]) == ".." + [Backslash] + (".." + [Backslash] + t);
    JoinedLeaves(filename, leaves);
  }

  lemma ExampleCallerLeaves(calledFrom: string) returns (caller: seq<string>)
    requires calledFrom == "C:\\tools\\maxp\\util\\fileio.py"
    ensures caller == ["C:", "tools", "maxp", "util", "fileio.py"] && Split(calledFrom, Backslash) == caller
  {
    caller := ["C:", "tools", "maxp", "util", "fileio.py"];
    var f := "fileio.py";
    assert Join(caller[4..], [Backslash]) == f;
    assert Join(caller[3..], [Backslash]) == "util" + [Backslash] + f;
    assert Join(caller[2..], [Backslash]) == "maxp" + [Backslash] + ("util" + [Backslash] + f);
    assert Join(caller[1..], [Backslash]) == "tools" + [Backslash] + ("maxp" + [Backslash] + ("util" + [Backslash] + f));
    assert Join(caller, [Backslash]) == "C:" + [Backslash] + ("tools" + [Backslash] + ("maxp" + [Backslash] + ("util" + [Backslash] + f)));
    JoinedLeaves(calledFrom, caller);
  }

  /** A path written out as a join of separator-free leaves splits into those leaves. */
  lemma JoinedLeaves(path: string, leaves: seq<string>)
    requires |leaves| >= 1 && Free(leaves, Backslash)
    requires path == Join(leaves, [Backslash])
    ensures Split(path, Backslash) == leaves
  {
    SplitJoin(leaves, Backslash);
  }

  /** Exporter plug-ins chosen by extension. */
  datatype Exporter = FbxExporter | ObjExporter

  /** One host export: the file written and the exporter used (selected node only, no prompt). */
  datatype ExportCall = ExportCall(filename: string, exporter: Exporter)

  datatype ExportError = InvalidNodeError(node: Node) | InvalidFormat(ext: string)

  function ExporterFor(fileext: string): Option<Exporter>
  {
    if fileext == ".fbx" then Some(FbxExporter)
    else if fileext == ".obj" then Some(ObjExporter)
    else None
  }

  /** The file name `exportNode` builds: the node name, a dot, then the extension as given. */
  function ExportFileName(node: Node, fileext: string): string
  {
    node.name + "." + fileext
  }

  /** What `exportNode` does: the node the host selected, if it got that far, and the
      export performed or the error raised. */
  datatype ExportStep = ExportStep(selected: Option<Node>, result: Result<ExportCall, ExportError>)

  /** `exportNode`: an invalid node raises before anything is selected; a valid node is
      selected, then an extension other than `.fbx` or `.obj` raises before anything is
      exported; otherwise the export of `filepath` joined with the node's file name. */
  function ExportNode(node: Node, filepath: string, fileext: string): (r: ExportStep)
    requires node.valid && ExporterFor(fileext).Some? ==> PlainTail(ExportFileName(node, fileext))
    ensures r.selected == (if node.valid then Some(node) else None)
    ensures !node.valid ==> r.result == Failure(InvalidNodeError(node))
    ensures node.valid && fileext != ".fbx" && fileext != ".obj" ==> r.result == Failure(InvalidFormat(fileext))
    ensures r.result.Success? <==> node.valid && (fileext == ".fbx" || fileext == ".obj")
    ensures r.result.Success? ==> r.result.value.exporter == (if fileext == ".fbx" then FbxExporter else ObjExporter)
    ensures r.result.Success? ==> r.result.value.filename == PathJoin(filepath, ExportFileName(node, fileext))
    ensures r.result.Success? ==> var f := r.result.value.filename;
      |f| >= |filepath| && f[..|filepath|] == filepath
      && |f| >= |ExportFileName(node, fileext)| && f[|f| - |ExportFileName(node, fileext)|..] == ExportFileName(node, fileext)
  {
    if !node.valid then ExportStep(None, Failure(InvalidNodeError(node)))
    else match ExporterFor(fileext)
      case None => ExportStep(Some(node), Failure(InvalidFormat(fileext)))
      case Some(exporter) => ExportStep(Some(node), Success(ExportCall(PathJoin(filepath, ExportFileName(node, fileext)), exporter)))
  }

  /** With the dotted extension the callers pass, the file name carries a doubled dot. */
  lemma DoubledDot(name: string, filepath: string)
    requires PlainTail(name + "..fbx")
    requires OrdinaryRoot(filepath)
    ensures ExportNode(Node(name, true, true, map[]), filepath, ".fbx").result
         == Success(ExportCall(filepath + "\\" + name + "..fbx", FbxExporter))
  {
    assert ExportFileName(Node(name, true, true, map[]), ".fbx") == name + "..fbx";
    JoinOrdinary(filepath, name + "..fbx");
    assert filepath + [Backslash] + (name + "..fbx") == filepath + "\\" + name + "..fbx";
  }

  /** Every node that `exportNodes` may reach has a plain file name. */
  predicate PlainNames(nodes: seq<Node>, fileext: string)
  {
    forall i :: 0 <= i < |nodes| ==> (nodes[i].valid && ExporterFor(fileext).Some? ==> PlainTail(ExportFileName(nodes[i], fileext)))
  }

  /** `exportNode` on `node` succeeds with the export `call`. */
  predicate Exported(node: Node, filepath: string, fileext: string, call: ExportCall)
    requires node.valid && ExporterFor(fileext).Some? ==> PlainTail(ExportFileName(node, fileext))
  {
    ExportNode(node, filepath, fileext).result == Success(call)
  }

  /** `exportNodes`: exports the nodes in order, collecting one file name per node, and stops
      at the first node that raises. `exports` are the host exports performed, in order; the
      node that raised went through `ExportNode` too, so it was selected when it was valid. */
  method ExportNodes(nodes: seq<Node>, filepath: string, fileext: string)
    returns (r: Result<seq<string>, ExportError>, exports: seq<ExportCall>)
    requires PlainNames(nodes, fileext)
    ensures r.Success? ==>
      && |r.value| == |nodes| && |exports| == |nodes|
      && forall i :: 0 <= i < |nodes| ==> Exported(nodes[i], filepath, fileext, exports[i]) && r.value[i] == exports[i].filename
    ensures r.Failure? ==>
      && |exports| < |nodes|
      && ExportNode(nodes[|exports|], filepath, fileext).result == Failure(r.error)
      && forall i :: 0 <= i < |exports| ==> Exported(nodes[i], filepath, fileext, exports[i])
  {
    var filenames: seq<string> := [];
    exports := [];
    for i := 0 to |nodes|
      invariant |filenames| == i && |exports| == i
      invariant forall j :: 0 <= j < i ==> Exported(nodes[j], filepath, fileext, exports[j]) && filenames[j] == exports[j].filename
    {
      var step := ExportNode(nodes[i], filepath, fileext);
      if step.result.Failure? {
        return Failure(step.result.error), exports;
      }
      exports := exports + [step.result.value];
      filenames := filenames + [step.result.value.filename];
    }
    r := Success(filenames);
  }
}
