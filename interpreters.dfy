/** The three plugins: `PythonInterpreter`, `OracleInterpreter` and
    `BashInterpreter`. The child process is out of the model; what it writes to
    standard output is given as the sequence of `readline()` results, and a
    read past the end of that sequence returns the empty string, as at end of
    file. */
module Interpreters {
  import opened Wrappers
  import opened Errors
  import Interpreter

  const Python := Interpreter.ClassInfo(
    "PythonInterpreter",
    [Interpreter.PythonInterpreterClass, Interpreter.InterpreterBase, Interpreter.Object],
    Interpreter.PyStr("Python"), Interpreter.PyStr(".py"), Interpreter.PythonRun)

  const Oracle := Interpreter.ClassInfo(
    "OracleInterpreter",
    [Interpreter.OracleInterpreterClass, Interpreter.InterpreterBase, Interpreter.Object],
    Interpreter.PyStr("oracle"), Interpreter.PyStr(".sql"), Interpreter.OracleRun)

  const Bash := Interpreter.ClassInfo(
    "BashInterpreter",
    [Interpreter.BashInterpreterClass, Interpreter.InterpreterBase, Interpreter.Object],
    Interpreter.PyStr("Bash"), Interpreter.PyStr(".sh"), Interpreter.BashRun)

  /** All three plugins subclass the real base and can be instantiated. */
  lemma PluginsAreInterpreters()
    ensures forall c | c in [Python, Oracle, Bash] ::
      Interpreter.IsSubclass(c, Interpreter.Base) && Interpreter.Instantiate(c) == Success(c)
  {
  }

  /** The command line `PythonInterpreter.run` starts. */
  function PythonCommand(procedurePath: string, args: seq<string>): (argv: seq<string>)
    ensures |argv| == 2 + |args| && argv[0] == "python" && argv[1] == procedurePath && argv[2..] == args
  {
    ["python", procedurePath] + args
  }

  /** The command line `OracleInterpreter.run` starts. */
  function OracleCommand(procedurePath: string, args: seq<string>): (argv: seq<string>)
    ensures |argv| == 3 + |args| && argv[0] == "sqlplus" && argv[1] == "inbound/*@s1"
    ensures argv[2] == "@" + procedurePath && argv[3..] == args
  {
    ["sqlplus", "inbound/*@s1", "@" + procedurePath] + args
  }

  /** The read loop of both interpreters: `readline()` until the first empty
      read, collecting every line before it. Nothing is handed out before the
      loop ends, and the exit status is never looked at. */
  method ReadUntilEmpty(lines: seq<string>) returns (output: seq<string>)
    ensures |output| <= |lines| && output == lines[..|output|]
    ensures forall i :: 0 <= i < |output| ==> output[i] != ""
    ensures |output| == |lines| || lines[|output|] == ""
  {
    output := [];
    var n := 0;
    while true
      invariant 0 <= n <= |lines| && output == lines[..n]
      invariant forall i :: 0 <= i < n ==> lines[i] != ""
      decreases |lines| - n
    {
      var line := if n < |lines| then lines[n] else "";
      if line == "" {
        break;
      }
      output := output + [line];
      n := n + 1;
    }
  }

  /** What calling a plugin's `run` amounts to: a child process started with
      this command line, whose output lines were collected; or nothing at all. */
  datatype Invocation = Spawned(argv: seq<string>, output: seq<string>) | NoEffect

  /** `run` of the class whose `run` is `impl`, called as `cls.run(self, *args)`
      with `self` an instance of `selfClassName` whose procedure file is
      `procedurePath`. The plugins' own `run`s are static methods (the Python and
      Oracle ones) or ignore what they get (the Bash one). */
  method Call(impl: Interpreter.RunImpl, selfClassName: string, procedurePath: string,
              args: seq<string>, lines: seq<string>) returns (r: Result<Invocation, Exception>)
    ensures impl == Interpreter.BaseRun ==> r == Failure(Interpreter.BaseRunCall(selfClassName))
    ensures impl == Interpreter.BashRun ==> r == Success(NoEffect)
    ensures impl == Interpreter.PythonRun ==> r.Success? && r.value.Spawned? && r.value.argv == PythonCommand(procedurePath, args)
    ensures impl == Interpreter.OracleRun ==> r.Success? && r.value.Spawned? && r.value.argv == OracleCommand(procedurePath, args)
    ensures r.Success? && r.value.Spawned? ==>
      |r.value.output| <= |lines| && r.value.output == lines[..|r.value.output|] &&
      (|r.value.output| == |lines| || lines[|r.value.output|] == "") &&
      forall i :: 0 <= i < |r.value.output| ==> r.value.output[i] != ""
  {
    match impl
    case BaseRun =>
      r := Failure(Interpreter.BaseRunCall(selfClassName));
    case BashRun =>
      r := Success(NoEffect);
    case PythonRun =>
      var output := ReadUntilEmpty(lines);
      r := Success(Spawned(PythonCommand(procedurePath, args), output));
    case OracleRun =>
      var output := ReadUntilEmpty(lines);
      r := Success(Spawned(OracleCommand(procedurePath, args), output));
  }
}
