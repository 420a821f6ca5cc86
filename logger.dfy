/** The line building of `log` in `maxp/util/logger.py` (and its copy `maxp/logger.py`).
    The timestamp text and the caller's stack frame are parameters; writing the line to the
    log file is not part of this model. */
module Logger {
  import opened Text

  /** The caller's frame: whether it has a `self` local, the class of that `self`, and the
      name of the function running in it. */
  datatype Frame = Frame(hasSelf: bool, selfClass: string, funcName: string)

  /** The entry name: the caller's class when it is a method, its function name otherwise. */
  function CallerName(caller: Frame): string
  {
    if caller.hasSelf then caller.selfClass else caller.funcName
  }

  /** `c * n` for a one-character string. */
  function Repeat(c: char, n: nat): (r: string)
    ensures |r| == n
    ensures forall i :: 0 <= i < n ==> r[i] == c
  {
    if n == 0 then [] else [c] + Repeat(c, n - 1)
  }

  /** `" " * level * 4 if level > 0 else ""`. */
  function Indent(level: int): (r: string)
    ensures |r| == if level > 0 then 4 * level else 0
    ensures forall i :: 0 <= i < |r| ==> r[i] == ' '
  {
    if level > 0 then Repeat(' ', level * 4) else ""
  }

  /** The logged line: bracketed timestamp, bracketed name, indent and message, joined by
      single spaces. */
  function LogLine(now: string, caller: Frame, msg: string, indentLevel: int): (line: string)
    ensures |line| >= |msg| && line[|line| - |msg|..] == msg
    ensures |line| >= |now| + 3 && line[..|now| + 3] == "[" + now + "] "
  {
    JoinFour("[" + now + "]", "[" + CallerName(caller) + "]", Indent(indentLevel), msg, " ");
    Join(["[" + now + "]", "[" + CallerName(caller) + "]", Indent(indentLevel), msg], " ")
  }

  lemma JoinFour(a: string, b: string, c: string, d: string, sep: string)
    ensures Join([a, b, c, d], sep) == a + sep + b + sep + c + sep + d
  {
    var ws := [a, b, c, d];
    assert Join(ws[3..], sep) == d;
    assert Join(ws[2..], sep) == c + sep + d;
    assert Join(ws[1..], sep) == b + sep + (c + sep + d);
  }

  /** The line laid out: `[now] [name] ` then the indent, one more space, and the message. */
  lemma LogLineLayout(now: string, caller: Frame, msg: string, indentLevel: int)
    ensures LogLine(now, caller, msg, indentLevel)
         == "[" + now + "] [" + CallerName(caller) + "] " + Indent(indentLevel) + " " + msg
  {
    var name := CallerName(caller);
    JoinFour("[" + now + "]", "[" + name + "]", Indent(indentLevel), msg, " ");
    assert "[" + now + "]" + " " + ("[" + name + "]") == "[" + now + "] [" + name + "]";
  }

  /** With no indent the message follows the name after two spaces. */
  lemma NoIndentTwoSpaces(now: string, caller: Frame, msg: string, indentLevel: int)
    requires indentLevel <= 0
    ensures LogLine(now, caller, msg, indentLevel) == "[" + now + "] [" + CallerName(caller) + "]  " + msg
  {
    LogLineLayout(now, caller, msg, indentLevel);
    assert Indent(indentLevel) == "";
  }

  /** The message ends the line unchanged; the line starts with the bracketed timestamp,
      then the bracketed name, then `4 * indentLevel` spaces of indent when it is positive. */
  lemma LogLineFields(now: string, caller: Frame, msg: string, indentLevel: int)
    ensures var line := LogLine(now, caller, msg, indentLevel);
      && |line| == |now| + |CallerName(caller)| + |msg| + 7 + (if indentLevel > 0 then 4 * indentLevel else 0)
      && line[|line| - |msg|..] == msg
      && line[..|now| + 3] == "[" + now + "] "
      && line[|now| + 3..|now| + |CallerName(caller)| + 6] == "[" + CallerName(caller) + "] "
  {
    LogLineLayout(now, caller, msg, indentLevel);
  }

  /** A method logs under its class name, a plain function under its own name. */
  lemma NameField(now: string, caller: Frame, msg: string, indentLevel: int)
    ensures caller.hasSelf ==> var line := LogLine(now, caller, msg, indentLevel);
      |line| >= |now| + |caller.selfClass| + 5
      && line[|now| + 3..|now| + |caller.selfClass| + 5] == "[" + caller.selfClass + "]"
    ensures !caller.hasSelf ==> var line := LogLine(now, caller, msg, indentLevel);
      |line| >= |now| + |caller.funcName| + 5
      && line[|now| + 3..|now| + |caller.funcName| + 5] == "[" + caller.funcName + "]"
  {
    LogLineLayout(now, caller, msg, indentLevel);
  }
}
