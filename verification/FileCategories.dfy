/**
What a changed file is, by its path: which files concern no tests, which concern the tests of one language only, and
which make all tests run.
*/
module FileCategories {

  predicate StartsWith(s: string, prefix: string) {
    prefix <= s
  }

  predicate EndsWith(s: string, suffix: string) {
    |suffix| <= |s| && s[|s| - |suffix|..] == suffix
  }

  /** What follows the last slash. */
  function Basename(path: string): string {
    if path == "" then ""
    else if path[|path| - 1] == '/' then ""
    else Basename(path[..|path| - 1]) + [path[|path| - 1]]
  }

  /** What precedes the first slash. */
  function TopDirectory(path: string): string {
    if path == "" || path[0] == '/' then "" else [path[0]] + TopDirectory(path[1..])
  }

  datatype Category = NoEffectOnTests | CMake | Postgres | Cpp | Python | Java | ThirdParty | BuildScripts | Other

  const QUIET_DIRECTORIES := {"architecture", "bin", "cloud", "community", "docs", "managed", "sample", "www"}

  /** `get_file_category`, for a path relative to the source root. */
  function CategoryOf(path: string): Category {
    var basename := Basename(path);
    if TopDirectory(path) in QUIET_DIRECTORIES then NoEffectOnTests
    else if path == "yb_build.sh" then NoEffectOnTests
    else if basename == "CMakeLists.txt" || EndsWith(basename, ".cmake") then CMake
    else if StartsWith(path, "src/postgres") then Postgres
    else if StartsWith(path, "src/") || StartsWith(path, "ent/src/") then Cpp
    else if StartsWith(path, "python/") then Python
    else if StartsWith(path, "java/") then Java
    else if StartsWith(path, "thirdparty/") then ThirdParty
    else if StartsWith(path, "build-support/") then BuildScripts
    else Other
  }

  const SAFE_CATEGORIES := {Java, Cpp, Python, NoEffectOnTests}

  // ----- The categories by paths alone -----

  /** A file in `dir` or below. */
  predicate Under(path: string, dir: string) {
    StartsWith(path, dir + "/")
  }

  /** `name`, in whatever directory. */
  predicate Named(path: string, name: string) {
    path == name || EndsWith(path, "/" + name)
  }

  predicate Quiet(path: string) {
    path == "yb_build.sh" || exists dir :: dir in QUIET_DIRECTORIES && (path == dir || Under(path, dir))
  }

  predicate CMakeFile(path: string) {
    Named(path, "CMakeLists.txt") || EndsWith(path, ".cmake")
  }

  predicate CppFile(path: string) {
    (StartsWith(path, "src/") || StartsWith(path, "ent/src/")) && !StartsWith(path, "src/postgres") && !CMakeFile(path)
  }

  predicate JavaFile(path: string) {
    StartsWith(path, "java/") && !CMakeFile(path)
  }

  predicate PythonFile(path: string) {
    StartsWith(path, "python/") && !CMakeFile(path)
  }

  /** A build file, a file of PostgreSQL, or a file under none of the trees of one language. */
  predicate NeedsAllTests(path: string) {
    && !Quiet(path)
    && (|| CMakeFile(path) || StartsWith(path, "src/postgres")
        || !(StartsWith(path, "src/") || StartsWith(path, "ent/src/") || StartsWith(path, "python/") ||
             StartsWith(path, "java/")))
  }

  lemma {:induction false} TopDirectoryIs(path: string, dir: string)
    requires '/' !in dir
    ensures TopDirectory(path) == dir <==> path == dir || Under(path, dir)
  {
    if path != "" && dir != "" && path[0] == dir[0] && path[0] != '/' {
      TopDirectoryIs(path[1..], dir[1..]);
      assert (dir + "/")[1..] == dir[1..] + "/";
    } else if dir != "" {
      assert (dir + "/")[0] == dir[0] && dir[0] in dir;
    }
  }

  lemma {:induction false} BasenameSplits(path: string) returns (dir: string)
    ensures path == dir + Basename(path) && '/' !in Basename(path)
    ensures dir == "" || dir[|dir| - 1] == '/'
  {
    if path == "" || path[|path| - 1] == '/' {
      dir := path;
    } else {
      dir := BasenameSplits(path[..|path| - 1]);
    }
  }

  lemma BasenameEnds(path: string, suffix: string)
    requires '/' !in suffix
    ensures EndsWith(Basename(path), suffix) <==> EndsWith(path, suffix)
  {
    var dir := BasenameSplits(path);
    var base := Basename(path);
    if |suffix| <= |base| {
      assert path[|path| - |suffix|..] == base[|base| - |suffix|..];
    } else if |suffix| <= |path| {
      assert path[|path| - |suffix|..][|suffix| - |base| - 1] == '/';
    }
  }

  lemma BasenameIs(path: string, name: string)
    requires '/' !in name
    ensures Basename(path) == name <==> path == name || EndsWith(path, "/" + name)
  {
    var dir := BasenameSplits(path);
    var base := Basename(path);
    if base == name && dir != "" {
      assert path[|path| - |name| - 1..] == "/" + name;
    }
    if EndsWith(path, "/" + name) {
      var n := |path| - |name|;
      assert path[n - 1..][1..] == path[n..] && ("/" + name)[1..] == name;
      assert path[n - 1] == path[n - 1..][0] == '/';
      BasenameEnds(path, name);
    }
  }

  lemma QuietPaths(path: string)
    ensures TopDirectory(path) in QUIET_DIRECTORIES <==>
              exists dir :: dir in QUIET_DIRECTORIES && (path == dir || Under(path, dir))
  {
    forall dir | dir in QUIET_DIRECTORIES
      ensures TopDirectory(path) == dir <==> path == dir || Under(path, dir)
    {
      TopDirectoryIs(path, dir);
    }
  }

  lemma CMakePaths(path: string)
    ensures CMakeFile(path) <==> Basename(path) == "CMakeLists.txt" || EndsWith(Basename(path), ".cmake")
  {
    BasenameIs(path, "CMakeLists.txt");
    BasenameEnds(path, ".cmake");
  }

  /** The first two letters keep the known trees apart from each other and from what is quiet. */
  predicate Begins(path: string, first: char, second: char) {
    |path| > 1 && path[0] == first && path[1] == second
  }

  lemma QuietLetters(path: string)
    requires Quiet(path)
    ensures |path| > 1
    ensures Begins(path, 'a', 'r') || Begins(path, 'b', 'i') || Begins(path, 'c', 'l') || Begins(path, 'c', 'o')
         || Begins(path, 'd', 'o') || Begins(path, 'm', 'a') || Begins(path, 's', 'a') || Begins(path, 'w', 'w')
         || Begins(path, 'y', 'b')
  {
    if path != "yb_build.sh" {
      var dir :| dir in QUIET_DIRECTORIES && (path == dir || Under(path, dir));
      assert path[0] == (dir + "/")[0] == dir[0] && path[1] == (dir + "/")[1] == dir[1];
    }
  }

  lemma TreeLetters(path: string)
    ensures StartsWith(path, "src/") ==> Begins(path, 's', 'r')
    ensures StartsWith(path, "ent/src/") ==> Begins(path, 'e', 'n')
    ensures StartsWith(path, "python/") ==> Begins(path, 'p', 'y')
    ensures StartsWith(path, "java/") ==> Begins(path, 'j', 'a')
    ensures StartsWith(path, "thirdparty/") ==> Begins(path, 't', 'h')
    ensures StartsWith(path, "build-support/") ==> Begins(path, 'b', 'u')
    ensures StartsWith(path, "src/postgres") ==> StartsWith(path, "src/")
  {
    assert "src/postgres"[..4] == "src/";
  }

  function FirstOf(quiet: bool, cmake: bool, postgres: bool, cpp: bool, python: bool, java: bool, thirdParty: bool,
                   buildScript: bool): Category {
    if quiet then NoEffectOnTests
    else if cmake then CMake
    else if postgres then Postgres
    else if cpp then Cpp
    else if python then Python
    else if java then Java
    else if thirdParty then ThirdParty
    else if buildScript then BuildScripts
    else Other
  }

  lemma TakesFirst(path: string)
    ensures CategoryOf(path) == FirstOf(
              Quiet(path), CMakeFile(path), StartsWith(path, "src/postgres"),
              StartsWith(path, "src/") || StartsWith(path, "ent/src/"), StartsWith(path, "python/"),
              StartsWith(path, "java/"), StartsWith(path, "thirdparty/"), StartsWith(path, "build-support/"))
  {
    QuietPaths(path);
    CMakePaths(path);
  }

  /** The category of a file, by its path alone. */
  lemma Categories(path: string)
    ensures CategoryOf(path) == NoEffectOnTests <==> Quiet(path)
    ensures CategoryOf(path) == CMake <==> CMakeFile(path) && !Quiet(path)
    ensures CategoryOf(path) == Postgres <==> StartsWith(path, "src/postgres") && !CMakeFile(path)
    ensures CategoryOf(path) == Cpp <==> CppFile(path)
    ensures CategoryOf(path) == Python <==> PythonFile(path)
    ensures CategoryOf(path) == Java <==> JavaFile(path)
    ensures CategoryOf(path) == ThirdParty <==> StartsWith(path, "thirdparty/") && !CMakeFile(path)
    ensures CategoryOf(path) == BuildScripts <==> StartsWith(path, "build-support/") && !CMakeFile(path)
  {
    TakesFirst(path);
    TreeLetters(path);
    if Quiet(path) {
      QuietLetters(path);
    }
  }

  /** Which files make all tests run. */
  lemma SafePaths(path: string)
    ensures CategoryOf(path) !in SAFE_CATEGORIES <==> NeedsAllTests(path)
  {
    Categories(path);
  }
}
