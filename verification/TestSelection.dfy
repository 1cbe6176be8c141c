/**
Which tests a change must run: the category of every changed file, the decision written to the test configuration, and
the filter that the test runner applies to its list of C++ test programs.
*/
module TestSelection {
  import opened FileCategories
  import opened GraphSearch
  import opened DependencyGraph

  // ----- The decision -----

  datatype Kind = TestNode | OtherNode

  datatype Environment = Environment(allTests: bool, allCppTests: bool, allJavaTests: bool, filterRegex: string)

  /** `programs` is present only where the C++ tests are to be filtered. */
  datatype Programs = Unfiltered | Only(names: set<string>)

  datatype TestConfig = TestConfig(runCppTests: bool, runJavaTests: bool, filterRegex: string, programs: Programs)

  predicate SelectsAll(categories: set<Category>, env: Environment) {
    categories - SAFE_CATEGORIES != {} || env.allTests || env.filterRegex != ""
  }

  function TestNames(results: set<Name>, kindOf: Name -> Kind): set<string> {
    set n | n in results && kindOf(n).TestNode? :: Basename(n)
  }

  /** From the categories of the changed files and the nodes found to the test configuration. */
  function Decide(categories: set<Category>, results: set<Name>, kindOf: Name -> Kind, env: Environment): TestConfig {
    var tests := TestNames(results, kindOf);
    var names := set n | n in results :: Basename(n);
    var all := SelectsAll(categories, env);
    var runCpp := all || Cpp in categories || env.allCppTests;
    var runJava := all || Java in categories || names * {"yb-master", "yb-tserver"} != {} || env.allJavaTests;
    TestConfig(
      if runCpp && tests == {} && !all then false else runCpp,
      runJava,
      env.filterRegex,
      if all then Unfiltered else Only(tests))
  }

  /** The runner's filter: an empty list of programs filters nothing. */
  predicate Runs(config: TestConfig, wantCpp: bool, program: string) {
    && wantCpp && config.runCppTests
    && (config.programs.Unfiltered? || config.programs.names == {} || Basename(program) in config.programs.names)
  }

  /** A program is run exactly if all tests are, or C++ tests are asked for and a test node of its name was found. */
  lemma WhatRuns(categories: set<Category>, results: set<Name>, kindOf: Name -> Kind, env: Environment,
                 wantCpp: bool, program: string)
    ensures Runs(Decide(categories, results, kindOf, env), wantCpp, program) <==>
              wantCpp &&
              (SelectsAll(categories, env) ||
               ((Cpp in categories || env.allCppTests) &&
                exists n :: n in results && kindOf(n).TestNode? && Basename(n) == Basename(program)))
  {
    var config := Decide(categories, results, kindOf, env);
    var tests := TestNames(results, kindOf);
    assert Basename(program) in tests <==>
      exists n :: n in results && kindOf(n).TestNode? && Basename(n) == Basename(program);
  }

  /** Asking for all C++ tests does not run all of them: without other reasons it runs those of the nodes found. */
  lemma AllCppTestsAreFiltered(program: string)
    ensures !Runs(Decide({}, {}, _ => OtherNode, Environment(false, true, false, "")), true, program)
  {
    WhatRuns({}, {}, _ => OtherNode, Environment(false, true, false, ""), true, program);
  }

  // ----- From a list of changed files to the configuration -----

  /** Blank lines of the list are skipped, all other files are changes. */
  function Changes(lines: seq<string>): seq<string> {
    if lines == [] then []
    else if lines[0] == "" then Changes(lines[1..])
    else [lines[0]] + Changes(lines[1..])
  }

  lemma {:induction false} ChangesKeep(lines: seq<string>, file: string)
    ensures file in Changes(lines) <==> file in lines && file != ""
  {
    if lines != [] {
      ChangesKeep(lines[1..], file);
    }
  }

  /** Some changed file makes all tests run. */
  ghost predicate ChangesNeedAll(lines: seq<string>) {
    exists f :: f in lines && f != "" && NeedsAllTests(f)
  }

  ghost predicate AllSelected(lines: seq<string>, env: Environment) {
    ChangesNeedAll(lines) || env.allTests || env.filterRegex != ""
  }

  ghost predicate CppChanged(lines: seq<string>) {
    exists f :: f in lines && CppFile(f)
  }

  ghost predicate JavaChanged(lines: seq<string>) {
    exists f :: f in lines && JavaFile(f)
  }

  ghost predicate ServerAffected(results: set<Name>) {
    exists n :: n in results && (Named(n, "yb-master") || Named(n, "yb-tserver"))
  }

  ghost predicate TestAffected(results: set<Name>, kindOf: Name -> Kind, program: string) {
    exists n :: n in results && kindOf(n).TestNode? && Basename(n) == Basename(program)
  }

  function CategoriesOf(lines: seq<string>): set<Category> {
    set f | f in Changes(lines) :: CategoryOf(f)
  }

  /** The decision by the paths of the changed files. */
  lemma CategoriesByPaths(lines: seq<string>, env: Environment)
    ensures SelectsAll(CategoriesOf(lines), env) <==> AllSelected(lines, env)
    ensures Cpp in CategoriesOf(lines) <==> CppChanged(lines)
    ensures Java in CategoriesOf(lines) <==> JavaChanged(lines)
  {
    forall f ensures f in Changes(lines) <==> f in lines && f != "" {
      ChangesKeep(lines, f);
    }
    forall f ensures CategoryOf(f) !in SAFE_CATEGORIES <==> NeedsAllTests(f)
             ensures CategoryOf(f) == Cpp <==> CppFile(f)
             ensures CategoryOf(f) == Java <==> JavaFile(f)
    {
      SafePaths(f);
      Categories(f);
    }
    if ChangesNeedAll(lines) {
      var f :| f in lines && f != "" && NeedsAllTests(f);
      assert CategoryOf(f) in CategoriesOf(lines) - SAFE_CATEGORIES;
    }
  }

  /** Java tests run if all tests do, a Java file changed, a server is affected, or they are asked for. */
  lemma WhenJavaRuns(categories: set<Category>, results: set<Name>, kindOf: Name -> Kind, env: Environment)
    ensures Decide(categories, results, kindOf, env).runJavaTests <==>
              SelectsAll(categories, env) || Java in categories || ServerAffected(results) || env.allJavaTests
  {
    var names := set n | n in results :: Basename(n);
    forall n ensures Basename(n) in {"yb-master", "yb-tserver"} <==> Named(n, "yb-master") || Named(n, "yb-tserver") {
      BasenameIs(n, "yb-master");
      BasenameIs(n, "yb-tserver");
    }
    if ServerAffected(results) {
      var n :| n in results && (Named(n, "yb-master") || Named(n, "yb-tserver"));
      assert Basename(n) in names * {"yb-master", "yb-tserver"};
    }
  }

  lemma WhenCppRuns(categories: set<Category>, results: set<Name>, kindOf: Name -> Kind, env: Environment)
    ensures Decide(categories, results, kindOf, env).runCppTests <==>
              || SelectsAll(categories, env)
              || ((Cpp in categories || env.allCppTests) && exists n :: n in results && kindOf(n).TestNode?)
  {
    if n :| n in results && kindOf(n).TestNode? {
      assert Basename(n) in TestNames(results, kindOf);
    }
  }

  /** The configuration by the paths of the changed files and the nodes that they affect. */
  ghost predicate Decides(config: TestConfig, lines: seq<string>, results: set<Name>, kindOf: Name -> Kind,
                          env: Environment)
  {
    && (config.programs.Unfiltered? <==> AllSelected(lines, env))
    && (config.runCppTests <==>
        || AllSelected(lines, env)
        || ((CppChanged(lines) || env.allCppTests) && exists n :: n in results && kindOf(n).TestNode?))
    && (config.runJavaTests <==>
        AllSelected(lines, env) || JavaChanged(lines) || ServerAffected(results) || env.allJavaTests)
    && (forall program :: Runs(config, true, program) <==>
        || AllSelected(lines, env)
        || ((CppChanged(lines) || env.allCppTests) && TestAffected(results, kindOf, program)))
    && config.filterRegex == env.filterRegex
  }

  lemma DecidesByPaths(lines: seq<string>, results: set<Name>, kindOf: Name -> Kind, env: Environment)
    ensures Decides(Decide(CategoriesOf(lines), results, kindOf, env), lines, results, kindOf, env)
  {
    var categories := CategoriesOf(lines);
    var config := Decide(categories, results, kindOf, env);
    CategoriesByPaths(lines, env);
    WhenCppRuns(categories, results, kindOf, env);
    WhenJavaRuns(categories, results, kindOf, env);
    forall program ensures Runs(config, true, program) <==>
        || AllSelected(lines, env)
        || ((CppChanged(lines) || env.allCppTests) && TestAffected(results, kindOf, program))
    {
      WhatRuns(categories, results, kindOf, env, true, program);
    }
  }

  method InitialNodes(changes: seq<string>, realPath: string -> Name, nodes: Graph) returns (initial: set<Name>)
    ensures forall n :: n in initial <==> n in nodes && exists f :: f in changes && realPath(f) == n
  {
    initial := {};
    for i := 0 to |changes|
      invariant forall n :: n in initial <==> n in nodes && exists f :: f in changes[..i] && realPath(f) == n
    {
      assert changes[..i + 1] == changes[..i] + [changes[i]];
      var node := realPath(changes[i]);
      if node in nodes {
        initial := initial + {node};
      }
    }
    assert changes[..|changes|] == changes;
  }

  predicate Wanted(kindOf: Name -> Kind, onlyTests: bool, n: Name) {
    !onlyTests || kindOf(n).TestNode?
  }

  /** The `affected` command on the files of a diff, for nodes of any type or for tests only. */
  method SelectTests(graph: Dependencies, lines: seq<string>, realPath: string -> Name, kindOf: Name -> Kind,
                     onlyTests: bool, env: Environment)
    returns (config: TestConfig, initial: set<Name>, results: set<Name>)
    requires graph.Valid()
    ensures config == Decide(CategoriesOf(lines), results, kindOf, env)
    ensures Decides(config, lines, results, kindOf, env)
    ensures forall n :: n in initial <==> n in graph.deps && exists f :: f in Changes(lines) && realPath(f) == n
    ensures forall n :: n in results <==>
              Wanted(kindOf, onlyTests, n) && n !in initial && exists s :: s in initial && Leads(graph.deps, n, s)
  {
    var changes := Changes(lines);
    initial := InitialNodes(changes, realPath, graph.deps);
    results := graph.FindAffectedNodes(initial, n => Wanted(kindOf, onlyTests, n));
    config := Decide(CategoriesOf(lines), results, kindOf, env);
    DecidesByPaths(lines, results, kindOf, env);
  }

  /**
  Soundness: if a changed C++ file is a node of the graph, and a test that did not change itself depends on it,
  directly or not, then the configuration runs C++ tests and its filter keeps the program of that test.
  */
  method SelectionIsSound(graph: Dependencies, lines: seq<string>, realPath: string -> Name, kindOf: Name -> Kind,
                          onlyTests: bool, env: Environment, ghost file: string, ghost test: Name,
                          ghost program: string)
    returns (config: TestConfig)
    requires graph.Valid()
    requires file in lines && CppFile(file) && realPath(file) in graph.deps
    requires kindOf(test).TestNode? && Leads(graph.deps, test, realPath(file)) && Basename(program) == Basename(test)
    requires forall f :: f in lines ==> realPath(f) != test
    ensures config.runCppTests && Runs(config, true, program)
  {
    var initial, results;
    config, initial, results := SelectTests(graph, lines, realPath, kindOf, onlyTests, env);
    ChangesKeep(lines, file);
    forall f | f in Changes(lines) ensures f in lines {
      ChangesKeep(lines, f);
    }
    assert realPath(file) in initial;
    assert test in results;
    assert CppChanged(lines) && TestAffected(results, kindOf, program);
  }
}
