# maxp core, modelled in Dafny

`maxp` is a set of Python helpers for 3ds Max. Most of it passes calls straight to the
host runtime or to Qt. This project models the parts that become self-contained once each
host query is an explicit input:

- **Relative path resolution.** `relative` in `maxp/util/fileio.py` and its copy in
  `src/utils/files.py` resolve a backslash-separated path against the caller's own file.
- **Exporting.** `exportNode` and `exportNodes` check the node, select it, choose the
  exporter by extension, and build the output file name.
- **The `When` change-handler builder** (`maxp/callbacks.py`). It validates its
  arguments, renders the MAXScript `when … do (…)` construct as text, and appends the
  handler to the module-level `HANDLERS` list.
- **The reference coordinate system** (`maxp/util/context.py`). This covers the ten valid
  spaces, `getCoordsys`/`setCoordsys`, and the `coordsys` context manager that saves, sets
  and restores.
- **Scene helpers** (`maxp/scene.py`). These are `getNodesByName`, the property accessor
  `hasProperty`/`getProperty`/`setProperty` with its read-back assertion, and the guard in
  front of `isClass`/`isSubClass`.
- **The light-rig check** `doesRigExist` in `maxp/lighting.py`, and `does_rig_exist` in
  `bettermaxtools/utils/lighting.py`, which runs the same loop over a lookup helper that its
  own package does not define (see "Left out").
- **The log line** built by `log`, in `maxp/util/logger.py` and its copy `maxp/logger.py`.

Layout:

- `wrappers.dfy`: `Option` and `Result`.
- `text.dfy`: Python's `str.split` on one character and `sep.join`, with their
  round-trip lemmas.
- `scene.dfy`: nodes as records `Node(name, valid, isWrapper, props)` and the scene's name
  lookup as a `map<string, Node>`.
- `fileio.dfy`, `callbacks.dfy`, `context.dfy`, `lighting.dfy`, `logger.dfy`: one module
  per source file.

How the source's forms map onto Dafny:

- Loops that append to a list become methods with loop invariants, each proved against a
  specification function: `getNodesByName`, `exportNodes`, `doesRigExist`, and the object
  validation in `When.__init__`.
- State the source updates becomes class fields. `HANDLERS` together with the host global
  `_tempMethod` is the class `Callbacks.Handlers`. The host's reference coordinate system
  is the class `Context.CoordSystem`.

A `HANDLERS` entry is the handler the host builds from the script text, so the model
records the script alone. The script does not name the Python method: it calls the host
global `_tempMethod`, and each new `When` assigns that global again.

The `with coordsys(...)` body is modelled as a small statement language (`Context.Stmt`).
It can set the space, nest another block, observe the current space, or raise. The
function `Context.Exec` gives its meaning, and `CoordSystem.Run` executes it against the
field. The model follows the code in two places:

- The restore at the end of `coordsys` goes through `setCoordsys` again, so it re-validates
  the saved value. A saved value outside the ten spaces makes a normal exit raise
  `ValueError` (`Context.RestoreRevalidates`).
- Because there is no `try`/`finally`, a body that raises skips the restore
  (`Context.RaiseSkipsRestore`).

`os.path.join` is modelled with the Windows rules the tool runs under: `ntpath.join` and
`ntpath.splitdrive` as in Python 3.7 to 3.10 (`FileIO.PathJoin`, `FileIO.DriveLength`).
The root splits into a drive (`C:`, or a UNC share `\\host\share`) and a path part. A
backslash is added after a non-empty path part that does not already end with a separator.
With an empty path part, a backslash is added only between a UNC drive and a non-empty
tail. So `\\host\share` joined with an empty tail stays `\\host\share`.

The `..` count in `relative` can exceed the number of leaves of the caller's path. In that
case Python's negative-slice rule applies, and `FileIO.PyPrefix` models it exactly.

`exportNode` builds the file name as `name + "." + fileext`. The callers pass the extension
with its dot (`".fbx"`), which is also the only form the extension test accepts. So every
exported file name carries a doubled dot, as in `Box001..fbx`. The model keeps this
behaviour, and `FileIO.DoubledDot` states it.

`setProperty` checks the value it reads back with Python's `==`. There `True == 1` and
`False == 0`, because `bool` is a subclass of `int`. The model compares with `Scene.PyEq`,
which follows that rule.

## Model

| member | source | states |
|---|---|---|
| `Text.Split` | maxp/util/fileio.py:26 | `s.split(sep)` always has at least one piece, and no piece contains the separator |
| `Text.Join` | maxp/util/fileio.py:31 | `sep.join(parts)` of a non-empty list starts with the first part |
| `Text.JoinSplit` | maxp/util/fileio.py:34 | joining the pieces of `s.split(sep)` with `sep` gives back `s` |
| `Text.SplitJoin` | maxp/util/fileio.py:23-34 | splitting a join of separator-free pieces gives back exactly those pieces |
| `FileIO.DriveLength` | maxp/util/fileio.py:34 | the drive `splitdrive` finds is a prefix of the path, and a UNC drive is followed by a separator whenever more follows |
| `FileIO.PathJoin` | maxp/util/fileio.py:34 | the joined path is the root then the tail, with at most one backslash added between them |
| `FileIO.JoinOrdinary` | maxp/util/fileio.py:34 | a root whose path part is non-empty and does not end with a separator gets exactly one backslash before the tail |
| `FileIO.JoinUncShare` | maxp/util/fileio.py:34 | a UNC share root `\\host\share` is all drive: joined with an empty tail it is unchanged, and a non-empty tail follows one backslash |
| `FileIO.CountParents` | maxp/util/fileio.py:27 | the number of `..` leaves is at most the number of leaves |
| `FileIO.DropParents` | maxp/util/fileio.py:33 | the kept leaves contain no `..`, and kept plus counted `..` leaves add up to all leaves |
| `FileIO.PyPrefix` | maxp/util/fileio.py:30-31 | Python's `s[:stop]`: a non-negative stop takes that prefix; a negative stop counts from the end and is clipped at zero |
| `FileIO.Relative` | maxp/util/fileio.py:12-34 | `relative` returns the root resolved from the caller's path, then the kept leaves, with at most one backslash between them |
| `FileIO.DropParentsAppend` | maxp/util/fileio.py:33 | removing `..` distributes over concatenation, so the leaves that remain keep their order |
| `FileIO.DropParentsKeeps` | src/utils/files.py:26 | every leaf other than `..` occurs as often after the removal as before |
| `FileIO.RootLeaves` | src/utils/files.py:20-24 | the root's leaves are the caller's leaves without the last (number of `..` + 1) |
| `FileIO.RootNegativeSlice` | maxp/util/fileio.py:30-31 | with more `..` leaves than the caller has leaves, the root keeps `2*leaves - drop` of them (none once that is negative) |
| `FileIO.RootEmptied` | maxp/util/fileio.py:30-34 | with exactly as many `..` leaves as the caller has leaves, the root is empty and `relative` returns the tail alone, a path relative to the current directory |
| `FileIO.TailLeaves` | src/utils/files.py:26-27 | the appended tail, split again, is the input's leaves with every `..` removed, in order |
| `FileIO.RelativeLeaves` | maxp/util/fileio.py:12-34 | the whole result, leaf by leaf, is the caller's leaves minus (number of `..` + 1) from the end, followed by the input's leaves minus every `..` |
| `FileIO.NoParentsResolvesBesideCaller` | src/utils/files.py:19-27 | without `..`, only the caller's file name is dropped and the input's leaves are appended unchanged |
| `FileIO.DocumentedExample` | src/utils/files.py:10 | `relative('..\\..\\test.txt')` called from `C:\tools\maxp\util\fileio.py` gives `C:\tools\test.txt` |
| `FileIO.ExportNode` | maxp/util/fileio.py:68-81 | an invalid node fails with `InvalidNodeError` and nothing is selected; a valid node is selected, then any extension other than `.fbx`/`.obj` fails with `ValueError`; otherwise it exports with the matching exporter to `os.path.join(filepath, name + "." + fileext)` (`PathJoin`), which starts with `filepath` and ends with the file name |
| `FileIO.DoubledDot` | maxp/util/fileio.py:78-80 | with the dotted extension `.fbx`, the exported file is `filepath\name..fbx` |
| `FileIO.ExportNodes` | maxp/util/fileio.py:84-91 | on success there is one file name per node, in node order, each the node's own export; on failure it stops at the first node whose `exportNode` fails, after exporting every node before it |
| `Scene.NodeByName` | maxp/scene.py:60-65 | a name resolves exactly when the scene has a node under it, and then to that node |
| `Scene.NodesByName` | maxp/scene.py:70-76 | the result is never longer than the names, and it is exactly as long if and only if every name resolves |
| `Scene.NodesByNameAppend` | maxp/scene.py:70-76 | the lookup distributes over concatenation of the names: input order is kept |
| `Scene.NodesByNameSound` | maxp/scene.py:72-75 | every returned node is the node of some requested name |
| `Scene.GetNodesByName` | maxp/scene.py:68-76 | the loop returns exactly the specification `NodesByName` |
| `Scene.HasProperty` | maxp/scene.py:97-106 | for a wrapper and for a plain value alike, true exactly when the property lookup finds the name among the node's properties |
| `Scene.GetProperty` | maxp/scene.py:109-116 | it fails with `AttributeError` exactly when `hasProperty` is false, and otherwise returns the stored value |
| `Scene.PyEqProperties` | maxp/scene.py:152 | Python's `==` on property values is symmetric, is structural equality within one kind, and never equates a string with a number |
| `Scene.BoolEqualsItsNumber` | maxp/scene.py:152 | `True == 1` and `False == 0`, and a bool equals no other number |
| `Scene.SetProperty` | maxp/scene.py:119-152 | an absent property raises `AttributeError` and leaves the node unchanged; otherwise the property holds what the host stored, and the assertion fails exactly when that is not `==` to the value set |
| `Scene.SetThenGet` | maxp/scene.py:143-152 | after a `setProperty` that raised nothing, `getProperty` returns a value `==` to the one set (that value itself when the host kept its kind), and other properties and the name are unchanged |
| `Scene.IntStoredAsBool` | maxp/scene.py:145-152 | setting `1` where the host stores `True` passes the read-back, and setting `2` fails it |
| `Scene.ClassQueryGuard` | maxp/scene.py:29-34 | a non-wrapper value is a `TypeError` whatever its validity; an invalid wrapper is a `ValueError`; only a valid wrapper passes |
| `Scene.IsClass` | maxp/scene.py:22-39 | `TypeError` before `ValueError`; the host's answer only past both checks |
| `Scene.IsSubClass` | maxp/scene.py:42-57 | `TypeError` before `ValueError`; the host's answer only past both checks |
| `Callbacks.ObjectList` | maxp/callbacks.py:84 | a single node becomes a one-element list; a list is used as given |
| `Callbacks.FirstInvalid` | maxp/callbacks.py:85-88 | no object is reported exactly when all are valid; otherwise the reported object is invalid and every object before it is valid |
| `Callbacks.FirstInvalidIsFirst` | maxp/callbacks.py:85-88 | an invalid object preceded only by valid ones is the one reported |
| `Callbacks.Construct` | maxp/callbacks.py:76-103 | the validation order: an invalid object fails if and only if one exists, and it is the first invalid one; not callable fails if and only if all objects are valid and the method is not callable; a `changes` trigger without an attribute fails only past both checks; success stores the arguments |
| `Callbacks.DeletedNeedsNoAttribute` | maxp/callbacks.py:99-103 | a `deleted` trigger without an attribute is accepted |
| `Callbacks.MxsArray` | maxp/callbacks.py:105 | the array literal is `#(`, the items, then `)`, and it is exactly `#()` when there are no objects |
| `Callbacks.EmptyArray` | maxp/callbacks.py:105 | an empty object list renders as `#()` |
| `Callbacks.ArrayRoundTrip` | maxp/callbacks.py:105 | the array literal `#($a,$b,…)` reads back to the object names, in order, when no name contains a comma |
| `Callbacks.Command` | maxp/callbacks.py:106-111 | the script splits on spaces into exactly `when <attr> <array> <trigger> handleAt:#<mode> node do (_tempMethod node)`, with an absent attribute written `None` |
| `Callbacks.Handlers.constructor` | maxp/callbacks.py:7-10 | `HANDLERS` starts empty |
| `Callbacks.Handlers.Subscribe` | maxp/callbacks.py:76-96 | a Python-side error is `Construct`'s and leaves `HANDLERS` and `_tempMethod` unchanged; past those checks, a script the host rejects fails with `_tempMethod` already set to the method and nothing appended; an accepted script appends exactly one handler, for this script, after the earlier entries |
| `Callbacks.Handlers.Exec` | maxp/callbacks.py:98-113 | a `changes` trigger without an attribute raises and changes nothing; otherwise `_tempMethod` is the method, and one handler is appended exactly when the host accepts the script |
| `Context.IsValidCoordsys` | maxp/util/context.py:22-35 | a string is valid if and only if it equals one of the ten listed spaces; a non-string is never valid |
| `Context.ExactMatchOnly` | maxp/util/context.py:8-19 | the comparison is exact: `local` and `working_pivot` pass, `Local`, ` local` and `localaligned` do not, and there are ten spaces |
| `Context.SetResult` | maxp/util/context.py:46-55 | an invalid space raises `ValueError` and leaves the system unchanged; a valid one becomes current |
| `Context.Exec` | maxp/util/context.py:58-71 | started on a valid space, every space observed and the space left current are valid; an `InvalidSpace` error always names an invalid space |
| `Context.InvalidSpaceSkipsBody` | maxp/util/context.py:68-69 | `coordsys` on an invalid space raises before the body runs and changes nothing |
| `Context.WithinRunsBodyThenRestores` | maxp/util/context.py:68-71 | the body runs with the new space current; after a normal exit the saved space is current again |
| `Context.RaiseSkipsRestore` | maxp/util/context.py:70-71 | for every body that raises, the block ends exactly as the body left it: there is no restore |
| `Context.RaiseAfterSetKeepsLastSpace` | maxp/util/context.py:70-71 | a body that sets another space and then raises leaves that other space current |
| `Context.RestoreRevalidates` | maxp/util/context.py:71 | when the saved value is not one of the ten spaces, a normal exit raises `ValueError` and the body's last space stays current |
| `Context.BalancedRestores` | maxp/util/context.py:68-71 | nested blocks on valid spaces restore in last-in, first-out order: the run ends on the space it started from, with no error |
| `Context.NestedExample` | maxp/util/context.py:68-71 | in `coordsys(a)` around `coordsys(b)`, the inner body sees `b`, the outer body then sees `a`, and the original space is current at the end |
| `Context.CoordSystem.constructor` | maxp/util/context.py:38-43 | the field holds the host's current system |
| `Context.CoordSystem.GetCoordsys` | maxp/util/context.py:38-43 | returns the current system |
| `Context.CoordSystem.SetCoordsys` | maxp/util/context.py:46-55 | an invalid space raises and leaves the system unchanged; a valid one becomes current |
| `Context.CoordSystem.Enter` | maxp/util/context.py:68-69 | saves the current system, then sets the block's space as `setCoordsys` does |
| `Context.CoordSystem.Exit` | maxp/util/context.py:71 | sets the saved system again, as `setCoordsys` does |
| `Context.CoordSystem.Run` | maxp/util/context.py:58-71 | running a body against the field ends in the state, trace and error that `Exec` specifies |
| `Lighting.DoesRigExist` | maxp/lighting.py:16-24 | exactly three lookups, in declaration order, each result true if and only if that name resolves; the answer is true if and only if `_Dome`, `_AccentBack` and `_AccentSide` all resolve, which is `RigPresent` |
| `Lighting.RigPresentIffAllThree` | bettermaxtools/utils/lighting.py:16-24 | the rig is present if and only if all three light names resolve |
| `Lighting.OneMissingLightFails` | bettermaxtools/utils/lighting.py:20-24 | one missing light makes the answer false |
| `Lighting.OnlyRigNamesMatter` | bettermaxtools/utils/lighting.py:18 | two lookups that agree on the three names give the same answer, whatever else they hold |
| `Logger.Repeat` | maxp/util/logger.py:33 | `c * n` has length `n` and every character is `c` |
| `Logger.Indent` | maxp/logger.py:28 | `4 * level` spaces when the level is positive, empty otherwise |
| `Logger.LogLine` | maxp/util/logger.py:36 | the joined line starts with the bracketed timestamp and a space, and ends with the message unchanged |
| `Logger.LogLineLayout` | maxp/util/logger.py:27-36 | the line is `[now] [name] `, then the indent, a space, then the message |
| `Logger.NoIndentTwoSpaces` | maxp/logger.py:22-31 | with no indent, two spaces separate the name field from the message |
| `Logger.LogLineFields` | maxp/logger.py:31 | the message ends the line unchanged; the line starts with `[now] ` and then `[name] `; its length is the sum of the fields, the indent and the separators |
| `Logger.NameField` | maxp/util/logger.py:19-24 | a caller with a `self` local logs under its class name, any other under its function name |

## Left out

- Host calls become inputs:
  - `rt.IsValidNode` is the node's `valid` flag.
  - `getNodeByName` is a `map<string, Node>` (a name that is not a key resolves to `None`).
  - `Select` becomes the `selected` field of `FileIO.ExportStep`, and `ExportFile` becomes its `ExportCall` value.
  - `rt.Execute` is represented by the `ChangeHandler` it returns, which records the script it ran. Whether it accepts the script or raises is the boolean parameter `accepted`, because the MAXScript parser is not modelled. For example, the script of a `deleted` trigger without an attribute starts `when None #(...)`, and whether the host accepts that is left to the parameter.
  - `GetRefCoordSys`/`SetRefCoordSys` are the `CoordSystem.current` field.
  - `classOf`/`isKindOf` answers are boolean parameters.
- The caller's file path, which `relative` takes from `inspect.stack()`, is a parameter. The timestamp (`datetime.now()`) and the caller's frame in `log` are parameters too. Writing to the log file, the `TEMP` check and the log level are I/O and are not modelled.
- The `Name` branch of `isValidCoordsys` is not modelled. The host's `Name` values are not available, so a non-string argument is simply invalid.
- `handleAt` and the trigger are opaque strings. The rendering of the host's `HandleMode` name values is unknown.
- The floating-point `isclose` branch of `setProperty` is not modelled (floating point).
- `context.origin` depends on how the host copies transforms, so it is not modelled.
- `mergeFile`, `loadFile` and `importFile` are not modelled. They check file existence and are filesystem I/O.
- `callbacks.add`/`remove` and the `GeneralEvent` table are not modelled. They pass straight to the host's callback registry and keep no local state.
- `getNodes`, `getSelected` and `isValid` are not modelled. They are direct host queries.
- The windows, tools, installer and `maxscript`/`macros`/`values` wrappers are UI or host glue and are not modelled.
- The `with` body of `coordsys` is arbitrary Python. It is modelled as the statement language `Context.Stmt`, which covers setting the space, nesting blocks, observing the space and raising.
- `FileIO.Relative`: modelled only when the appended tail does not start with a separator or a drive (`PlainTail`). For such a tail `os.path.join` would not simply append it: a rooted tail replaces the root's path part, and a tail with a different drive replaces the whole root. That case is not modelled.
- `FileIO.ExportNode`: the same `PlainTail` requirement applies to the node's file name when the export is reached.
- `FileIO.ExportNodes`: requires `PlainTail` for every node's file name, for the same reason.
- `Scene.SetProperty`: modelled on values. The updated node is returned rather than changed in place, so aliasing of host nodes is not captured. The value the host actually stores after the write is a parameter, because host-side conversion is unknown.
- `Scene.SetThenGet`: promises a read-back that is `==` to the value set in Python's sense, not structurally equal to it, because the source's assertion only checks `==`. Setting `1` where the host stores `True` passes.
- Firing a change handler is not modelled. Every handler's script calls the host global `_tempMethod`, and each `When` assigns that global again (`Callbacks.Handlers.tempMethod`). Read as written, a handler that fires after a later `When` would call the later method. This reading rests on MAXScript global lookup at fire time and was not confirmed against the host.
- `Lighting.DoesRigExist`: as a model of `does_rig_exist` (bettermaxtools/utils/lighting.py:16-24), it assumes a working name lookup. The function calls `maxscript.get_node_by_name`, which `bettermaxtools/utils/maxscript.py` does not define; only `maxp/utils/maxscript.py:47` does. As written, `does_rig_exist` would raise `AttributeError` at its first lookup. The model uses the lookup that helper is evidently meant to be (`rt.getNodeByName`).
- Later Python versions changed `ntpath.splitdrive` (device prefixes such as `\\?\UNC\`); `FileIO.DriveLength` follows the 3.7 to 3.10 rules.
- `Scene.HasProperty`: both branches of `hasProperty` (the host's property lookup for wrappers, `hasattr` otherwise) are modelled as the name being a key of the node's properties.
