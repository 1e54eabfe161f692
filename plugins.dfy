/** Plugin discovery in `loader/plugins/__init__.py`, and the two language tables
    `Procedure` builds from its result. The file system and the import machinery
    are inputs: the directory listing is a sequence of entries in the order
    `glob` returns them, and each importable module is the sequence of values
    in its namespace, in definition order. */
module Plugins {
  import opened Wrappers
  import opened Errors
  import opened Text
  import PosixPath
  import Interpreter
  import Interpreters

  /** One entry of the plugin directory. */
  datatype Entry = Entry(name: string, isFile: bool)

  /** A value in a module's namespace: a class, or anything else. */
  datatype Value = ClassValue(cls: Interpreter.ClassInfo) | OtherValue

  /** `is_valid_plugin(path)`: a regular file whose basename does not start with `_`. */
  predicate IsValidPlugin(path: string, isFile: bool) {
    isFile && !StartsWith(PosixPath.Basename(path), "_")
  }

  /** What the glob pattern `*.py` matches of a directory entry: a `.py` name that
      does not start with a dot. */
  predicate GlobMatches(name: string) {
    EndsWith(name, ".py") && !StartsWith(name, ".")
  }

  /** Python's `s[:-3]`: everything but the last three characters, or `''`. */
  function DropLast3(s: string): (r: string)
    ensures |s| >= 3 ==> s == r + s[|s| - 3..]
    ensures |s| < 3 ==> r == ""
  {
    if |s| >= 3 then s[..|s| - 3] else ""
  }

  /** The module imported for a plugin path: its basename without `.py`. */
  function ModuleName(path: string): string {
    DropLast3(PosixPath.Basename(path))
  }

  /** `_PACKAGES_TO_IMPORT`: the paths of the valid plugin files, in listing order. */
  function Candidates(dir: string, entries: seq<Entry>): (r: seq<string>)
    ensures |r| <= |entries|
  {
    if entries == [] then []
    else
      var e := entries[0];
      var path := dir + "/" + e.name;
      (if GlobMatches(e.name) && IsValidPlugin(path, e.isFile) then [path] else [])
        + Candidates(dir, entries[1..])
  }

  /** The module names of the candidates, in order. */
  function ModuleNames(paths: seq<string>): (r: seq<string>)
    ensures |r| == |paths| && forall i :: 0 <= i < |paths| ==> r[i] == ModuleName(paths[i])
  {
    seq(|paths|, i requires 0 <= i < |paths| => ModuleName(paths[i]))
  }

  /** `_PACKAGES`: import every named module, in order; the first missing one raises. */
  function ImportAll(names: seq<string>, modules: map<string, seq<Value>>): (r: Result<seq<seq<Value>>, Exception>)
    ensures r.Success? ==> |r.value| == |names|
    ensures r.Failure? ==> r.error.ImportError? && r.error.moduleName !in modules
  {
    if names == [] then Success([])
    else if names[0] !in modules then Failure(ImportError(names[0]))
    else
      match ImportAll(names[1..], modules)
      case Failure(e) => Failure(e)
      case Success(rest) => Success([modules[names[0]]] + rest)
  }

  /** Importing succeeds exactly when every name is a module. */
  lemma {:induction false} ImportAllSucceeds(names: seq<string>, modules: map<string, seq<Value>>)
    ensures ImportAll(names, modules).Success? <==> forall i :: 0 <= i < |names| ==> names[i] in modules
    decreases |names|
  {
    if names != [] {
      ImportAllSucceeds(names[1..], modules);
      assert forall i :: 1 <= i < |names| ==> names[i] == names[1..][i - 1];
    }
  }

  /** On success the namespaces come in the order of the names. */
  lemma {:induction false} ImportAllInOrder(names: seq<string>, modules: map<string, seq<Value>>, i: int)
    requires ImportAll(names, modules).Success? && 0 <= i < |names|
    ensures names[i] in modules && ImportAll(names, modules).value[i] == modules[names[i]]
    decreases |names|
  {
    if i > 0 {
      assert names[1..][i - 1] == names[i];
      ImportAllInOrder(names[1..], modules, i - 1);
    }
  }

  /** The test in the collection loop: a class, a subclass of the real base, and
      not that base itself. */
  predicate IsPlugin(v: Value) {
    v.ClassValue? && Interpreter.IsSubclass(v.cls, Interpreter.Base) && v.cls != Interpreter.Base
  }

  /** The plugin classes of one namespace, in order. */
  function PluginsOf(namespace: seq<Value>): (r: seq<Interpreter.ClassInfo>)
    ensures |r| <= |namespace|
  {
    if namespace == [] then []
    else
      var last := namespace[|namespace| - 1];
      PluginsOf(namespace[..|namespace| - 1]) + (if IsPlugin(last) then [last.cls] else [])
  }

  /** `PLUGINS` as the nested loop leaves it: module by module, value by value. */
  function Registered(packages: seq<seq<Value>>): seq<Interpreter.ClassInfo> {
    if packages == [] then []
    else Registered(packages[..|packages| - 1]) + PluginsOf(packages[|packages| - 1])
  }

  /** The nested loop that fills `PLUGINS`. Nothing is instantiated and the
      attributes are not looked at: no validation and no duplicate check. */
  method CollectPlugins(packages: seq<seq<Value>>) returns (plugins: seq<Interpreter.ClassInfo>)
    ensures plugins == Registered(packages)
  {
    plugins := [];
    for p := 0 to |packages|
      invariant plugins == Registered(packages[..p])
    {
      var namespace := packages[p];
      for v := 0 to |namespace|
        invariant plugins == Registered(packages[..p]) + PluginsOf(namespace[..v])
      {
        assert namespace[..v + 1][..v] == namespace[..v];
        if IsPlugin(namespace[v]) {
          plugins := plugins + [namespace[v].cls];
        }
      }
      assert namespace[..|namespace|] == namespace;
      assert packages[..p + 1][..p] == packages[..p];
    }
    assert packages[..|packages|] == packages;
  }

  /** A class is collected from a namespace exactly when it passes the test. */
  lemma {:induction false} PluginsOfMembers(namespace: seq<Value>, c: Interpreter.ClassInfo)
    ensures c in PluginsOf(namespace) <==>
      exists i :: 0 <= i < |namespace| && namespace[i] == ClassValue(c) && IsPlugin(namespace[i])
    decreases |namespace|
  {
    if namespace != [] {
      var init := namespace[..|namespace| - 1];
      PluginsOfMembers(init, c);
      if c in PluginsOf(init) {
        var i :| 0 <= i < |init| && init[i] == ClassValue(c) && IsPlugin(init[i]);
        assert namespace[i] == init[i];
      }
      if exists i :: 0 <= i < |namespace| && namespace[i] == ClassValue(c) && IsPlugin(namespace[i]) {
        var i :| 0 <= i < |namespace| && namespace[i] == ClassValue(c) && IsPlugin(namespace[i]);
        if i < |init| {
          assert init[i] == namespace[i];
        }
      }
    }
  }

  /** Everything in `PLUGINS` is a strict subclass of the real base. */
  lemma {:induction false} RegisteredAreStrictSubclasses(packages: seq<seq<Value>>)
    ensures forall c | c in Registered(packages) ::
      Interpreter.IsSubclass(c, Interpreter.Base) && c != Interpreter.Base
    decreases |packages|
  {
    if packages != [] {
      RegisteredAreStrictSubclasses(packages[..|packages| - 1]);
      forall c | c in PluginsOf(packages[|packages| - 1])
        ensures Interpreter.IsSubclass(c, Interpreter.Base) && c != Interpreter.Base
      {
        PluginsOfMembers(packages[|packages| - 1], c);
      }
    }
  }

  /** Discovery as a whole: list, filter, import, collect. */
  method Discover(dir: string, entries: seq<Entry>, modules: map<string, seq<Value>>)
    returns (r: Result<seq<Interpreter.ClassInfo>, Exception>)
    ensures ImportAll(ModuleNames(Candidates(dir, entries)), modules).Failure? ==>
      r == Failure(ImportAll(ModuleNames(Candidates(dir, entries)), modules).error)
    ensures ImportAll(ModuleNames(Candidates(dir, entries)), modules).Success? ==>
      r == Success(Registered(ImportAll(ModuleNames(Candidates(dir, entries)), modules).value))
  {
    var imported := ImportAll(ModuleNames(Candidates(dir, entries)), modules);
    if imported.Failure? {
      return Failure(imported.error);
    }
    var plugins := CollectPlugins(imported.value);
    r := Success(plugins);
  }

  // ----- the repository as shipped -----

  /** The module names of the plugin files, in listing order. */
  const PluginStems := ["bash_interpreter", "interpreter", "oracle_interpreter", "python_interpreter"]

  /** The plugin directory, in name order. */
  const RepositoryEntries := [Entry("__init__.py", true), Entry("_interpreter.py", true)] + PluginEntries(PluginStems)

  /** Regular files `<stem>.py`, one per stem. */
  function PluginEntries(stems: seq<string>): (r: seq<Entry>)
    ensures |r| == |stems| && forall i :: 0 <= i < |stems| ==> r[i] == Entry(stems[i] + ".py", true)
  {
    if stems == [] then [] else [Entry(stems[0] + ".py", true)] + PluginEntries(stems[1..])
  }

  /** The namespaces of the plugin modules. Each plugin module also holds the
      base it imported; the Python and Oracle ones hold `subprocess` too. */
  const BashNamespace := [OtherValue, ClassValue(Interpreter.Base), ClassValue(Interpreters.Bash)]
  const LookAlikeNamespace := [OtherValue, ClassValue(Interpreter.LookAlike)]
  const OracleNamespace := [OtherValue, OtherValue, ClassValue(Interpreter.Base), ClassValue(Interpreters.Oracle)]
  const PythonNamespace := [OtherValue, OtherValue, ClassValue(Interpreter.Base), ClassValue(Interpreters.Python)]

  /** The importable modules of the package, by name. */
  const RepositoryModules: map<string, seq<Value>> := map[
    PluginStems[0] := BashNamespace, PluginStems[1] := LookAlikeNamespace,
    PluginStems[2] := OracleNamespace, PluginStems[3] := PythonNamespace]


  /** With a directory name and an entry name free of `/`, the basename test
      reads the entry name itself. */
  lemma CandidateTest(dir: string, e: Entry)
    requires '/' !in e.name
    ensures IsValidPlugin(dir + "/" + e.name, e.isFile) <==> e.isFile && !StartsWith(e.name, "_")
  {
    assert dir + "/" + e.name == (dir + "/") + e.name;
    PosixPath.BasenameAfterSlash(dir + "/", e.name);
  }

  /** The filter on entry names alone. */
  function Kept(e: Entry): seq<string> {
    if GlobMatches(e.name) && e.isFile && !StartsWith(e.name, "_") then [e.name] else []
  }

  function KeptNames(entries: seq<Entry>): seq<string> {
    if entries == [] then [] else Kept(entries[0]) + KeptNames(entries[1..])
  }

  function InDir(dir: string, names: seq<string>): (r: seq<string>)
    ensures |r| == |names| && forall i :: 0 <= i < |names| ==> r[i] == dir + "/" + names[i]
  {
    if names == [] then [] else [dir + "/" + names[0]] + InDir(dir, names[1..])
  }

  predicate NamesWithoutSlash(entries: seq<Entry>) {
    forall i :: 0 <= i < |entries| ==> '/' !in entries[i].name
  }

  /** With entry names free of `/`, the basename test reads the names alone. */
  lemma {:induction false} CandidatesByName(dir: string, entries: seq<Entry>)
    requires NamesWithoutSlash(entries)
    ensures Candidates(dir, entries) == InDir(dir, KeptNames(entries))
    decreases |entries|
  {
    if entries != [] {
      CandidateTest(dir, entries[0]);
      assert NamesWithoutSlash(entries[1..]) by {
        forall i | 0 <= i < |entries[1..]| ensures '/' !in entries[1..][i].name {
          assert entries[1..][i] == entries[i + 1];
        }
      }
      CandidatesByName(dir, entries[1..]);
      InDirConcat(dir, Kept(entries[0]), KeptNames(entries[1..]));
    }
  }

  lemma InDirConcat(dir: string, a: seq<string>, b: seq<string>)
    ensures InDir(dir, a + b) == InDir(dir, a) + InDir(dir, b)
  {
  }

  function WithPy(stems: seq<string>): (r: seq<string>)
    ensures |r| == |stems| && forall i :: 0 <= i < |stems| ==> r[i] == stems[i] + ".py"
  {
    if stems == [] then [] else [stems[0] + ".py"] + WithPy(stems[1..])
  }

  /** Of the six files in the plugin directory, the two whose names start with
      `_` are dropped and the other four are imported, in listing order,
      wherever the directory is. */
  lemma RepositoryCandidates(dir: string)
    ensures Candidates(dir, RepositoryEntries) == InDir(dir, WithPy(PluginStems))
  {
    assert NamesWithoutSlash(RepositoryEntries) by {
      RepositoryStems();
      forall k | 2 <= k < 6 ensures '/' !in RepositoryEntries[k].name {
        PyFile(PluginStems[k - 2]);
      }
    }
    CandidatesByName(dir, RepositoryEntries);
    RepositoryKeptNames();
  }

  /** A stem that names a plugin module: non-empty, starting with neither `_`
      nor `.`, and free of `/`. */
  predicate PluginStem(stem: string) {
    |stem| > 0 && stem[0] != '_' && stem[0] != '.' && '/' !in stem
  }

  /** A file `<stem>.py` with such a stem passes the glob and the name test. */
  lemma PyFile(stem: string)
    requires PluginStem(stem)
    ensures GlobMatches(stem + ".py") && !StartsWith(stem + ".py", "_") && '/' !in stem + ".py"
  {
    var f := stem + ".py";
    assert f[|f| - 3..] == ".py";
    StartsWithChar(f, '.');
    StartsWithChar(f, '_');
    assert f[0] == stem[0];
    forall i | 0 <= i < |f| ensures f[i] != '/' {
      if i < |stem| { assert f[i] == stem[i]; }
    }
  }

  lemma RepositoryStems()
    ensures forall i :: 0 <= i < |PluginStems| ==> PluginStem(PluginStems[i])
  {
    assert PluginStem(PluginStems[0]);
    assert PluginStem(PluginStems[1]);
    assert PluginStem(PluginStems[2]);
    assert PluginStem(PluginStems[3]);
  }

  lemma KeptNamesConcat(a: seq<Entry>, b: seq<Entry>)
    ensures KeptNames(a + b) == KeptNames(a) + KeptNames(b)
  {
    if a != [] {
      var x := Kept(a[0]);
      assert (a + b)[0] == a[0] && (a + b)[1..] == a[1..] + b;
      KeptNamesConcat(a[1..], b);
      assert x + (KeptNames(a[1..]) + KeptNames(b)) == (x + KeptNames(a[1..])) + KeptNames(b);
    } else {
      assert a + b == b;
    }
  }

  /** Plugin files are all kept, in order. */
  lemma {:induction false} KeptPluginEntries(stems: seq<string>)
    requires forall i :: 0 <= i < |stems| ==> PluginStem(stems[i])
    ensures KeptNames(PluginEntries(stems)) == WithPy(stems)
    decreases |stems|
  {
    if stems != [] {
      PyFile(stems[0]);
      assert PluginEntries(stems)[1..] == PluginEntries(stems[1..]);
      KeptPluginEntries(stems[1..]);
    }
  }

  lemma RepositoryKeptNames()
    ensures KeptNames(RepositoryEntries) == WithPy(PluginStems)
  {
    var underscored := [Entry("__init__.py", true), Entry("_interpreter.py", true)];
    assert KeptNames(underscored) == [] by {
      StartsWithChar(underscored[0].name, '_');
      StartsWithChar(underscored[1].name, '_');
      assert underscored[1..][1..] == [];
    }
    RepositoryStems();
    KeptPluginEntries(PluginStems);
    KeptNamesConcat(underscored, PluginEntries(PluginStems));
  }

  lemma ModuleNameInDir(dir: string, stem: string)
    requires '/' !in stem
    ensures ModuleName(dir + "/" + (stem + ".py")) == stem
  {
    assert '/' !in stem + ".py" by {
      assert forall i :: 0 <= i < |stem + ".py"| ==> (stem + ".py")[i] != '/' by {
        forall i | 0 <= i < |stem + ".py"| ensures (stem + ".py")[i] != '/' {
          if i < |stem| { assert (stem + ".py")[i] == stem[i]; }
        }
      }
    }
    assert dir + "/" + (stem + ".py") == (dir + "/") + (stem + ".py");
    PosixPath.BasenameAfterSlash(dir + "/", stem + ".py");
    assert (stem + ".py")[..|stem + ".py"| - 3] == stem;
  }

  /** The namespaces imported for the repository, in candidate order. */
  const RepositoryPackages := [BashNamespace, LookAlikeNamespace, OracleNamespace, PythonNamespace]

  /** Files named `<stem>.py` in a directory import as the modules `<stem>`. */
  lemma ModuleNamesOfStems(dir: string, stems: seq<string>)
    requires forall i :: 0 <= i < |stems| ==> '/' !in stems[i]
    ensures ModuleNames(InDir(dir, WithPy(stems))) == stems
  {
    var names := ModuleNames(InDir(dir, WithPy(stems)));
    forall i | 0 <= i < |stems| ensures names[i] == stems[i] {
      ModuleNameInDir(dir, stems[i]);
    }
  }

  lemma RepositoryModuleNames(dir: string)
    ensures ModuleNames(Candidates(dir, RepositoryEntries)) == PluginStems
  {
    RepositoryCandidates(dir);
    RepositoryStems();
    ModuleNamesOfStems(dir, PluginStems);
  }

  lemma RepositoryModulesLookup()
    ensures forall i :: 0 <= i < |PluginStems| ==> PluginStems[i] in RepositoryModules
    ensures RepositoryModules[PluginStems[0]] == BashNamespace
    ensures RepositoryModules[PluginStems[1]] == LookAlikeNamespace
    ensures RepositoryModules[PluginStems[2]] == OracleNamespace
    ensures RepositoryModules[PluginStems[3]] == PythonNamespace
  {
  }

  /** Names that are all modules import as their namespaces, in order. */
  lemma {:induction false} ImportAllOf(names: seq<string>, modules: map<string, seq<Value>>, packages: seq<seq<Value>>)
    requires |packages| == |names|
    requires forall i :: 0 <= i < |names| ==> names[i] in modules && modules[names[i]] == packages[i]
    ensures ImportAll(names, modules) == Success(packages)
    decreases |names|
  {
    if names != [] {
      assert forall i :: 0 <= i < |names| - 1 ==> names[1..][i] == names[i + 1] && packages[1..][i] == packages[i + 1];
      ImportAllOf(names[1..], modules, packages[1..]);
      assert [packages[0]] + packages[1..] == packages;
    }
  }

  lemma StemsImport()
    ensures ImportAll(PluginStems, RepositoryModules) == Success(RepositoryPackages)
  {
    RepositoryModulesLookup();
    assert forall i :: 0 <= i < |PluginStems| ==>
      PluginStems[i] in RepositoryModules && RepositoryModules[PluginStems[i]] == RepositoryPackages[i] by {
      forall i | 0 <= i < |PluginStems|
        ensures PluginStems[i] in RepositoryModules && RepositoryModules[PluginStems[i]] == RepositoryPackages[i]
      {
        if i == 0 { } else if i == 1 { } else if i == 2 { } else { assert i == 3; }
      }
    }
    ImportAllOf(PluginStems, RepositoryModules, RepositoryPackages);
  }

  /** Every candidate of the repository imports. */
  lemma RepositoryImports(dir: string)
    ensures ImportAll(ModuleNames(Candidates(dir, RepositoryEntries)), RepositoryModules) == Success(RepositoryPackages)
  {
    RepositoryModuleNames(dir);
    StemsImport();
  }

  lemma PluginsOfSnoc(namespace: seq<Value>, v: Value)
    ensures PluginsOf(namespace + [v]) == PluginsOf(namespace) + (if IsPlugin(v) then [v.cls] else [])
  {
    assert (namespace + [v])[..|namespace|] == namespace;
  }

  /** A plugin module's namespace: values that are not plugins, the base it
      imported, then its own class. */
  lemma {:induction false} PluginModule(others: seq<Value>, c: Interpreter.ClassInfo)
    requires forall i :: 0 <= i < |others| ==> others[i] == OtherValue
    requires Interpreter.IsSubclass(c, Interpreter.Base) && c != Interpreter.Base
    ensures PluginsOf(others + [ClassValue(Interpreter.Base)] + [ClassValue(c)]) == [c]
  {
    var prefix, own := others + [ClassValue(Interpreter.Base)], ClassValue(c);
    calc {
      PluginsOf(prefix + [own]);
    == { PluginsOfSnoc(prefix, own); }
      PluginsOf(prefix) + (if IsPlugin(own) then [own.cls] else []);
    == { OthersThenBase(others); }
      [] + [c];
    ==
      [c];
    }
  }

  /** The imported base class is not a plugin of the module that imports it. */
  lemma OthersThenBase(others: seq<Value>)
    requires forall i :: 0 <= i < |others| ==> others[i] == OtherValue
    ensures PluginsOf(others + [ClassValue(Interpreter.Base)]) == []
  {
    OthersHaveNoPlugins(others);
    PluginsOfSnoc(others, ClassValue(Interpreter.Base));
  }

  lemma {:induction false} OthersHaveNoPlugins(others: seq<Value>)
    requires forall i :: 0 <= i < |others| ==> others[i] == OtherValue
    ensures PluginsOf(others) == []
    decreases |others|
  {
    if others != [] {
      OthersHaveNoPlugins(others[..|others| - 1]);
    }
  }

  lemma RegisteredSnoc(packages: seq<seq<Value>>, namespace: seq<Value>)
    ensures Registered(packages + [namespace]) == Registered(packages) + PluginsOf(namespace)
  {
    assert (packages + [namespace])[..|packages|] == packages;
  }

  lemma BashNamespacePlugins()
    ensures PluginsOf(BashNamespace) == [Interpreters.Bash]
  {
    Interpreters.PluginsAreInterpreters();
    PluginModule([OtherValue], Interpreters.Bash);
    assert BashNamespace == [OtherValue] + [ClassValue(Interpreter.Base)] + [ClassValue(Interpreters.Bash)];
  }

  lemma LookAlikeNamespacePlugins()
    ensures PluginsOf(LookAlikeNamespace) == []
  {
    Interpreter.LookAlikeIsUnrelated();
    PluginsOfSnoc([OtherValue], ClassValue(Interpreter.LookAlike));
    OthersHaveNoPlugins([OtherValue]);
    assert LookAlikeNamespace == [OtherValue] + [ClassValue(Interpreter.LookAlike)];
  }

  lemma OracleNamespacePlugins()
    ensures PluginsOf(OracleNamespace) == [Interpreters.Oracle]
  {
    Interpreters.PluginsAreInterpreters();
    PluginModule([OtherValue, OtherValue], Interpreters.Oracle);
    assert OracleNamespace == [OtherValue, OtherValue] + [ClassValue(Interpreter.Base)] + [ClassValue(Interpreters.Oracle)];
  }

  lemma PythonNamespacePlugins()
    ensures PluginsOf(PythonNamespace) == [Interpreters.Python]
  {
    Interpreters.PluginsAreInterpreters();
    PluginModule([OtherValue, OtherValue], Interpreters.Python);
    assert PythonNamespace == [OtherValue, OtherValue] + [ClassValue(Interpreter.Base)] + [ClassValue(Interpreters.Python)];
  }

  lemma RegisteredFirstTwo()
    ensures Registered([BashNamespace, LookAlikeNamespace]) == [Interpreters.Bash]
  {
    BashNamespacePlugins();
    LookAlikeNamespacePlugins();
    var p0, p1 := BashNamespace, LookAlikeNamespace;
    RegisteredSnoc([], p0);
    RegisteredSnoc([p0], p1);
    assert [p0] == [] + [p0] && [p0, p1] == [p0] + [p1];
  }

  lemma RegisteredFirstThree()
    ensures Registered([BashNamespace, LookAlikeNamespace, OracleNamespace]) == [Interpreters.Bash, Interpreters.Oracle]
  {
    RegisteredFirstTwo();
    OracleNamespacePlugins();
    var p0, p1, p2 := BashNamespace, LookAlikeNamespace, OracleNamespace;
    RegisteredSnoc([p0, p1], p2);
    assert [p0, p1, p2] == [p0, p1] + [p2];
  }

  /** `PLUGINS` for the repository: the three plugins, in file order. The base
      each plugin module imports is skipped as the base itself, and the
      look-alike in `interpreter.py` is skipped as no subclass of it. */
  lemma RepositoryPlugins()
    ensures Registered(RepositoryPackages) == [Interpreters.Bash, Interpreters.Oracle, Interpreters.Python]
    ensures Interpreter.LookAlike !in Registered(RepositoryPackages)
  {
    RegisteredFirstThree();
    PythonNamespacePlugins();
    var p0, p1, p2, p3 := BashNamespace, LookAlikeNamespace, OracleNamespace, PythonNamespace;
    RegisteredSnoc([p0, p1, p2], p3);
    assert RepositoryPackages == [p0, p1, p2] + [p3];
    assert Interpreter.LookAlike.mro[0] != Interpreters.Bash.mro[0];
    assert Interpreter.LookAlike.mro[0] != Interpreters.Oracle.mro[0];
    assert Interpreter.LookAlike.mro[0] != Interpreters.Python.mro[0];
  }

  /** Discovery over the repository's plugin directory, wherever it is, ends
      with the three plugins in file order. */
  lemma RepositoryDiscovery(dir: string)
    ensures ImportAll(ModuleNames(Candidates(dir, RepositoryEntries)), RepositoryModules).Success?
    ensures Registered(ImportAll(ModuleNames(Candidates(dir, RepositoryEntries)), RepositoryModules).value)
      == [Interpreters.Bash, Interpreters.Oracle, Interpreters.Python]
  {
    RepositoryImports(dir);
    RepositoryPlugins();
  }

  // ----- `Procedure.LANGUAGE_EXTENSIONS` and `Procedure.LANGUAGE_INTERPRETER` -----

  /** A dict comprehension over `(key, value)` pairs: a later pair overwrites an
      earlier one with the same key. */
  function LastWins<V>(pairs: seq<(Interpreter.Attr, V)>): map<Interpreter.Attr, V> {
    if pairs == [] then map[]
    else LastWins(pairs[..|pairs| - 1])[pairs[|pairs| - 1].0 := pairs[|pairs| - 1].1]
  }

  /** The keys are exactly the keys of the pairs. */
  lemma {:induction false} LastWinsKeys<V>(pairs: seq<(Interpreter.Attr, V)>, k: Interpreter.Attr)
    ensures k in LastWins(pairs) <==> exists i :: 0 <= i < |pairs| && pairs[i].0 == k
    decreases |pairs|
  {
    if pairs != [] {
      var init := pairs[..|pairs| - 1];
      LastWinsKeys(init, k);
      if exists i :: 0 <= i < |init| && init[i].0 == k {
        var i :| 0 <= i < |init| && init[i].0 == k;
        assert pairs[i] == init[i];
      }
      if exists i :: 0 <= i < |pairs| && pairs[i].0 == k {
        var i :| 0 <= i < |pairs| && pairs[i].0 == k;
        if i < |init| { assert init[i] == pairs[i]; }
      }
    }
  }

  /** A key maps to the value of its last pair. */
  lemma {:induction false} LastWinsValue<V>(pairs: seq<(Interpreter.Attr, V)>, i: int)
    requires 0 <= i < |pairs|
    requires forall j :: i < j < |pairs| ==> pairs[j].0 != pairs[i].0
    ensures pairs[i].0 in LastWins(pairs) && LastWins(pairs)[pairs[i].0] == pairs[i].1
    decreases |pairs|
  {
    if i < |pairs| - 1 {
      var init := pairs[..|pairs| - 1];
      assert init[i] == pairs[i];
      LastWinsValue(init, i);
    }
  }

  function ExtensionPairs(plugins: seq<Interpreter.ClassInfo>): (r: seq<(Interpreter.Attr, Interpreter.Attr)>)
    ensures |r| == |plugins| && forall i :: 0 <= i < |plugins| ==> r[i] == (plugins[i].language, plugins[i].extension)
  {
    if plugins == [] then [] else [(plugins[0].language, plugins[0].extension)] + ExtensionPairs(plugins[1..])
  }

  function InterpreterPairs(plugins: seq<Interpreter.ClassInfo>): (r: seq<(Interpreter.Attr, Interpreter.ClassInfo)>)
    ensures |r| == |plugins| && forall i :: 0 <= i < |plugins| ==> r[i] == (plugins[i].language, plugins[i])
  {
    if plugins == [] then [] else [(plugins[0].language, plugins[0])] + InterpreterPairs(plugins[1..])
  }

  /** `LANGUAGE_EXTENSIONS`: language to extension. */
  function LanguageExtensions(plugins: seq<Interpreter.ClassInfo>): map<Interpreter.Attr, Interpreter.Attr> {
    LastWins(ExtensionPairs(plugins))
  }

  /** `LANGUAGE_INTERPRETER`: language to plugin class. */
  function LanguageInterpreter(plugins: seq<Interpreter.ClassInfo>): map<Interpreter.Attr, Interpreter.ClassInfo> {
    LastWins(InterpreterPairs(plugins))
  }

  /** Both tables hold the languages of the plugins and nothing else. */
  lemma TablesHaveThePluginLanguages(plugins: seq<Interpreter.ClassInfo>, lang: Interpreter.Attr)
    ensures lang in LanguageExtensions(plugins) <==> exists i :: 0 <= i < |plugins| && plugins[i].language == lang
    ensures lang in LanguageInterpreter(plugins) <==> exists i :: 0 <= i < |plugins| && plugins[i].language == lang
  {
    LastWinsKeys(ExtensionPairs(plugins), lang);
    LastWinsKeys(InterpreterPairs(plugins), lang);
    if exists i :: 0 <= i < |plugins| && plugins[i].language == lang {
      var i :| 0 <= i < |plugins| && plugins[i].language == lang;
      assert ExtensionPairs(plugins)[i].0 == lang && InterpreterPairs(plugins)[i].0 == lang;
    }
  }

  /** For a language several plugins declare, the last of them wins in both tables. */
  lemma LastPluginWins(plugins: seq<Interpreter.ClassInfo>, i: int)
    requires 0 <= i < |plugins|
    requires forall j :: i < j < |plugins| ==> plugins[j].language != plugins[i].language
    ensures plugins[i].language in LanguageExtensions(plugins)
    ensures LanguageExtensions(plugins)[plugins[i].language] == plugins[i].extension
    ensures plugins[i].language in LanguageInterpreter(plugins)
    ensures LanguageInterpreter(plugins)[plugins[i].language] == plugins[i]
  {
    var e := ExtensionPairs(plugins);
    var m := InterpreterPairs(plugins);
    assert forall j :: i < j < |e| ==> e[j].0 != e[i].0;
    assert forall j :: i < j < |m| ==> m[j].0 != m[i].0;
    LastWinsValue(e, i);
    LastWinsValue(m, i);
  }

  /** The tables of the repository: `Python`, `oracle` and `Bash`. */
  lemma RepositoryTables()
    ensures LanguageExtensions(Registered(RepositoryPackages)) == map[
      Interpreter.PyStr("Bash") := Interpreter.PyStr(".sh"),
      Interpreter.PyStr("oracle") := Interpreter.PyStr(".sql"),
      Interpreter.PyStr("Python") := Interpreter.PyStr(".py")]
    ensures LanguageInterpreter(Registered(RepositoryPackages)) == map[
      Interpreter.PyStr("Bash") := Interpreters.Bash,
      Interpreter.PyStr("oracle") := Interpreters.Oracle,
      Interpreter.PyStr("Python") := Interpreters.Python]
  {
    RepositoryPlugins();
    var ps := [Interpreters.Bash, Interpreters.Oracle, Interpreters.Python];
    var e := ExtensionPairs(ps);
    assert e[..2][..1] == e[..1] && e[..3] == e && e[..3][..2] == e[..2];
    assert LastWins(e[..1]) == map[e[0].0 := e[0].1];
    assert LastWins(e) == map[e[0].0 := e[0].1][e[1].0 := e[1].1][e[2].0 := e[2].1];
    var m := InterpreterPairs(ps);
    assert m[..2][..1] == m[..1] && m[..3] == m && m[..3][..2] == m[..2];
    assert LastWins(m[..1]) == map[m[0].0 := m[0].1];
    assert LastWins(m) == map[m[0].0 := m[0].1][m[1].0 := m[1].1][m[2].0 := m[2].1];
  }
}
