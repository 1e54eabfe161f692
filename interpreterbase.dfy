/** The two `Interpreter` base classes of the plugin package: the real one in
    `_interpreter.py` and the look-alike in `interpreter.py`. Both refuse to be
    instantiated without a truthy `LANGUAGE` and `EXTENSION`, and both have a
    `run` that always raises. */
module Interpreter {
  import opened Wrappers
  import opened Errors
  import opened Text

  /** A class attribute as the code uses it: `None` or a string. */
  datatype Attr = PyNone | PyStr(s: string)

  /** Python truthiness: `None` and `''` are false. */
  predicate Truthy(a: Attr) { a.PyStr? && a.s != "" }

  /** Which `run` a class ends up with: the one inherited from a base, or one of
      the plugins' own. */
  datatype RunImpl = BaseRun | PythonRun | OracleRun | BashRun

  /** The identity of a class (Python's `is`): the classes of the plugin package
      by their qualified names, and any other class by its own. */
  datatype ClassId =
    | InterpreterBase       // loader.plugins._interpreter.Interpreter
    | LookAlikeBase         // loader.plugins.interpreter.Interpreter
    | PythonInterpreterClass  // loader.plugins.python_interpreter.PythonInterpreter
    | OracleInterpreterClass  // loader.plugins.oracle_interpreter.OracleInterpreter
    | BashInterpreterClass    // loader.plugins.bash_interpreter.BashInterpreter
    | Object
    | OtherClass(qualifiedName: string)

  /** A class as the code sees it: its name, its method resolution order (itself
      first) and the attributes it resolves. */
  datatype ClassInfo = ClassInfo(
    name: string,
    mro: seq<ClassId>,
    language: Attr,
    extension: Attr,
    run: RunImpl)

  /** `issubclass(c, b)`: `b` is on `c`'s method resolution order. */
  predicate IsSubclass(c: ClassInfo, b: ClassInfo) {
    |b.mro| > 0 && b.mro[0] in c.mro
  }

  /** `loader.plugins._interpreter.Interpreter`, the registered base. */
  const Base := ClassInfo("Interpreter", [InterpreterBase, Object], PyNone, PyNone, BaseRun)

  /** `loader.plugins.interpreter.Interpreter`: same attributes and checks, but a
      class of its own. */
  const LookAlike := ClassInfo("Interpreter", [LookAlikeBase, Object], PyNone, PyNone, BaseRun)

  function MissingPropertiesMessage(className: string): string {
    "Class " + className + " lacks the required properties."
  }

  function MissingRunMessage(className: string): string {
    "Class " + className + " lacks a run method."
  }

  /** `Interpreter.__init__` of either base, for an instance of class `c`. */
  function Instantiate(c: ClassInfo): (r: Result<ClassInfo, Exception>)
    ensures r.Success? <==> Truthy(c.language) && Truthy(c.extension)
    ensures r.Success? ==> r.value == c
    ensures r.Failure? ==> r.error == NotImplementedError(MissingPropertiesMessage(c.name))
  {
    if !(Truthy(c.language) && Truthy(c.extension)) then
      Failure(NotImplementedError(MissingPropertiesMessage(c.name)))
    else Success(c)
  }

  /** The base `run`, called with `self` an instance of the class named
      `selfClassName`: it always raises. */
  function BaseRunCall(selfClassName: string): (r: Exception)
    ensures r.NotImplementedError? && OccursAt(r.message, selfClassName, 6)
  {
    NotImplementedError(MissingRunMessage(selfClassName))
  }

  /** Both messages carry the concrete class name, right after `Class `. */
  lemma MessagesNameTheClass(className: string)
    ensures OccursAt(MissingPropertiesMessage(className), className, 6)
    ensures OccursAt(MissingRunMessage(className), className, 6)
    ensures StartsWith(MissingPropertiesMessage(className), "Class ")
  {
    var m := MissingPropertiesMessage(className);
    assert m[6..6 + |className|] == className;
    var n := MissingRunMessage(className);
    assert n[6..6 + |className|] == className;
  }

  /** Neither base can be instantiated: both default their attributes to `None`. */
  lemma BasesCannotBeInstantiated()
    ensures Instantiate(Base) == Failure(NotImplementedError(MissingPropertiesMessage("Interpreter")))
    ensures Instantiate(LookAlike) == Failure(NotImplementedError(MissingPropertiesMessage("Interpreter")))
  {
  }

  /** The look-alike base is not a subclass of the real one, nor the other way round. */
  lemma LookAlikeIsUnrelated()
    ensures !IsSubclass(LookAlike, Base) && !IsSubclass(Base, LookAlike)
  {
  }
}
