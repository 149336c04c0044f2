/** The setup verification script (setup.py). What the script learns from its surroundings,
    the interpreter version, which packages import, the `.env` file and the files present,
    is passed in as an Environment value. */
module SetupCheck {
  import opened Options
  import opened Sequences

  /** The oldest supported Python release, 3.8. */
  const MinMajor: nat := 3
  const MinMinor: nat := 8

  const RequiredPackages: seq<string> := ["fastapi", "uvicorn", "anthropic", "dotenv", "pydantic"]

  /** The text that marks an unedited `.env` copied from `.env.example`, and the key assignment. */
  const Placeholder: string := "your_api_key_here"
  const KeyAssignment: string := "ANTHROPIC_API_KEY="

  const StaticDir: string := "static"
  const RequiredStaticFiles: seq<string> := ["index.html", "styles.css", "app.js"]

  /** The facts the checks read from the machine they run on. */
  datatype Environment = Environment(
    major: nat,                 // sys.version_info.major
    minor: nat,                 // sys.version_info.minor
    importable: set<string>,    // the module names `__import__` finds
    envFile: Option<string>,    // the contents of `.env`, None when it does not exist
    existing: set<string>)      // the paths that exist, e.g. "static/app.js"

  // ---------------------------------------------------------------- Python version

  /** check_python_version: the version is 3.8 or later. */
  function CheckPythonVersion(major: nat, minor: nat): (ok: bool)
    ensures ok <==> major > MinMajor || (major == MinMajor && minor >= MinMinor)
  {
    !(major < MinMajor || (major == MinMajor && minor < MinMinor))
  }

  /** A newer version passes whenever an older one does. */
  lemma PythonVersionMonotone(major: nat, minor: nat, major': nat, minor': nat)
    requires CheckPythonVersion(major, minor)
    requires major < major' || (major == major' && minor <= minor')
    ensures CheckPythonVersion(major', minor')
  {
  }

  // ---------------------------------------------------------------- dependencies

  /** The packages of `packages` that cannot be imported, in list order. */
  function Missing(packages: seq<string>, importable: set<string>): seq<string>
  {
    Filter(packages, p => p !in importable)
  }

  /** A package is reported missing exactly when it is required and does not import, as often as
      it is listed, and the report lists them in the order of the required list. */
  lemma MissingExactly(packages: seq<string>, importable: set<string>)
    ensures forall p :: multiset(Missing(packages, importable))[p] == if p !in importable then multiset(packages)[p] else 0
    ensures forall p :: p in Missing(packages, importable) <==> p in packages && p !in importable
    ensures IsSubsequence(Missing(packages, importable), packages)
  {
    FilterCounts(packages, p => p !in importable);
    FilterMembership(packages, p => p !in importable);
    FilterIsSubsequence(packages, p => p !in importable);
  }

  /** check_dependencies: tries every required package, collecting the ones that fail, and
      passes when none failed. (`__import__` is called with the package name itself: the
      script's special case for "dotenv" maps it to "dotenv".) */
  method CheckDependencies(importable: set<string>) returns (ok: bool, missing: seq<string>)
    ensures missing == Missing(RequiredPackages, importable)
    ensures ok <==> forall p :: p in RequiredPackages ==> p in importable
  {
    missing := [];
    for i := 0 to |RequiredPackages|
      invariant missing == Missing(RequiredPackages[..i], importable)
    {
      var package := RequiredPackages[i];
      assert RequiredPackages[..i + 1] == RequiredPackages[..i] + [package];
      FilterAppend(RequiredPackages[..i], [package], p => p !in importable);
      if package !in importable {
        missing := missing + [package];
      }
    }
    assert RequiredPackages[..|RequiredPackages|] == RequiredPackages;
    MissingExactly(RequiredPackages, importable);
    ok := missing == [];
    assert !ok ==> missing[0] in missing;
  }

  // ---------------------------------------------------------------- .env file

  /** `sub` occurs in `s` starting at index `i`. */
  predicate OccursAt(s: string, sub: string, i: int)
  {
    0 <= i && i + |sub| <= |s| && s[i..i + |sub|] == sub
  }

  /** Python's `sub in s` on strings. */
  function Contains(s: string, sub: string): (r: bool)
    ensures r <==> exists i :: OccursAt(s, sub, i)
    decreases |s|
  {
    if |sub| > |s| then false
    else if s[..|sub|] == sub then (assert OccursAt(s, sub, 0); true)
    else
      var r := Contains(s[1..], sub);
      ShiftOccurrence(s, sub);
      assert !OccursAt(s, sub, 0);
      assert (exists i :: OccursAt(s, sub, i)) ==> exists j :: OccursAt(s[1..], sub, j) by {
        forall i | OccursAt(s, sub, i) ensures OccursAt(s[1..], sub, i - 1) { }
      }
      assert (exists j :: OccursAt(s[1..], sub, j)) ==> exists i :: OccursAt(s, sub, i) by {
        forall j | OccursAt(s[1..], sub, j) ensures OccursAt(s, sub, j + 1) { }
      }
      r
  }

  /** Occurrences in `s` after index 0 are the occurrences in `s[1..]`, moved by one. */
  lemma ShiftOccurrence(s: string, sub: string)
    requires s != []
    ensures forall i :: 1 <= i ==> (OccursAt(s, sub, i) <==> OccursAt(s[1..], sub, i - 1))
  {
  }

  /** check_env_file: fails without a `.env`; fails while the placeholder is still there, even
      when the key is assigned too; otherwise passes exactly when the key is assigned. */
  function CheckEnvFile(envFile: Option<string>): (ok: bool)
    ensures envFile.None? ==> !ok
    ensures envFile.Some? && Contains(envFile.value, Placeholder) ==> !ok
    ensures envFile.Some? && !Contains(envFile.value, Placeholder) ==> (ok <==> Contains(envFile.value, KeyAssignment))
  {
    match envFile
    case None => false
    case Some(content) =>
      if Contains(content, Placeholder) then false
      else if Contains(content, KeyAssignment) then true
      else false
  }

  /** A key assignment whose value is still the placeholder fails. */
  lemma ExampleEnvFileFails()
    ensures Contains("ANTHROPIC_API_KEY=your_api_key_here", KeyAssignment)
    ensures !CheckEnvFile(Some("ANTHROPIC_API_KEY=your_api_key_here"))
  {
    var line := "ANTHROPIC_API_KEY=your_api_key_here";
    assert OccursAt(line, KeyAssignment, 0);
    assert OccursAt(line, Placeholder, 18);
  }

  // ---------------------------------------------------------------- static files

  function StaticPath(file: string): string
  {
    StaticDir + "/" + file
  }

  /** Every path the static check looks at, in the order it looks. */
  function StaticPaths(): (paths: seq<string>)
    ensures |paths| == |RequiredStaticFiles| + 1
    ensures paths[0] == StaticDir
    ensures forall i :: 0 <= i < |RequiredStaticFiles| ==> paths[i + 1] == StaticPath(RequiredStaticFiles[i])
    ensures paths == ["static", "static/index.html", "static/styles.css", "static/app.js"]
  {
    assert StaticPath("index.html") == "static/index.html";
    assert StaticPath("styles.css") == "static/styles.css";
    assert StaticPath("app.js") == "static/app.js";
    [StaticDir] + seq(|RequiredStaticFiles|, i requires 0 <= i < |RequiredStaticFiles| => StaticPath(RequiredStaticFiles[i]))
  }

  /** check_static_files: the `static` directory and then each required file must exist; the
      check stops at the first path that does not, and reports it. */
  method CheckStaticFiles(existing: set<string>) returns (ok: bool, firstMissing: Option<string>)
    ensures ok <==> firstMissing.None?
    ensures ok <==> forall i :: 0 <= i < |StaticPaths()| ==> StaticPaths()[i] in existing
    ensures firstMissing.Some? ==>
      exists k :: && 0 <= k < |StaticPaths()|
                  && firstMissing.value == StaticPaths()[k]
                  && StaticPaths()[k] !in existing
                  && forall j :: 0 <= j < k ==> StaticPaths()[j] in existing
  {
    var paths := StaticPaths();
    if StaticDir !in existing {
      assert paths[0] == StaticDir;
      return false, Some(StaticDir);
    }
    for i := 0 to |RequiredStaticFiles|
      invariant forall j :: 0 <= j <= i ==> paths[j] in existing
    {
      var path := StaticPath(RequiredStaticFiles[i]);
      assert paths[i + 1] == path;
      if path !in existing {
        return false, Some(path);
      }
    }
    return true, None;
  }

  // ---------------------------------------------------------------- aggregation

  datatype Check = PythonVersion | Dependencies | EnvironmentFile | StaticFiles

  /** The checks in the order they run. */
  const Checks: seq<Check> := [PythonVersion, Dependencies, EnvironmentFile, StaticFiles]

  /** What each check decides, stated without its loops. */
  function Passes(c: Check, env: Environment): bool
  {
    match c
    case PythonVersion => CheckPythonVersion(env.major, env.minor)
    case Dependencies => forall p :: p in RequiredPackages ==> p in env.importable
    case EnvironmentFile => CheckEnvFile(env.envFile)
    case StaticFiles => forall i :: 0 <= i < |StaticPaths()| ==> StaticPaths()[i] in env.existing
  }

  /** Runs one check. */
  method RunCheck(c: Check, env: Environment) returns (ok: bool)
    ensures ok == Passes(c, env)
  {
    match c
    case PythonVersion =>
      ok := CheckPythonVersion(env.major, env.minor);
    case Dependencies =>
      var missing;
      ok, missing := CheckDependencies(env.importable);
    case EnvironmentFile =>
      ok := CheckEnvFile(env.envFile);
    case StaticFiles =>
      var missing;
      ok, missing := CheckStaticFiles(env.existing);
  }

  /** Python's `all`. */
  function All(bs: seq<bool>): (r: bool)
    ensures r <==> forall i :: 0 <= i < |bs| ==> bs[i]
  {
    if bs == [] then true else bs[0] && All(bs[1..])
  }

  /** main: runs every check, none skipped after a failure, and exits with 0 when all passed
      and 1 otherwise. */
  method RunSetupChecks(env: Environment) returns (results: seq<bool>, exitCode: int)
    ensures |results| == |Checks|
    ensures forall i :: 0 <= i < |Checks| ==> results[i] == Passes(Checks[i], env)
    ensures exitCode == 0 || exitCode == 1
    ensures exitCode == 0 <==> forall i :: 0 <= i < |Checks| ==> Passes(Checks[i], env)
  {
    results := [];
    for i := 0 to |Checks|
      invariant |results| == i
      invariant forall j :: 0 <= j < i ==> results[j] == Passes(Checks[j], env)
    {
      var result := RunCheck(Checks[i], env);
      results := results + [result];
    }
    exitCode := if All(results) then 0 else 1;
  }
}
