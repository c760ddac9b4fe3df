/**
 * Resolution of the per-user data and config directories, after the
 * freedesktop XDG Base Directory Specification, with an extra override layer
 * for test runs. The process environment is an explicit map; nothing is
 * cached, so every call is a function of the map it is given.
 */
module Config {
  import opened Wrappers
  import opened Paths

  /** The process environment: variable name to value. */
  type Env = map<string, string>

  /** The variable that switches test mode on. */
  const ENV_TEST_FLAG := "SJB_TOOLS_TEST"
  const HOME := "HOME"

  /** A resolved directory, or the failure to find any usable variable. */
  datatype DirResult = Ok(path: Path) | NoEnv

  /** The two directory roots: user data and user config. */
  datatype RootKind = DataRoot | ConfigRoot

  /** The variable that overrides the root in test mode. */
  function TestVar(kind: RootKind): string
  {
    match kind
    case DataRoot => "TEST_XDG_DATA_HOME"
    case ConfigRoot => "TEST_XDG_CONFIG_HOME"
  }

  /** The XDG variable that overrides the root. */
  function XdgVar(kind: RootKind): string
  {
    match kind
    case DataRoot => "XDG_DATA_HOME"
    case ConfigRoot => "XDG_CONFIG_HOME"
  }

  /** The XDG default location below the home directory. */
  function HomeSuffix(kind: RootKind): Path
  {
    match kind
    case DataRoot => [".local", "share"]
    case ConfigRoot => [".config"]
  }

  /** An environment value used as a directory root. */
  function RootPath(value: string): Path
  {
    Join([], value)
  }

  function Get(env: Env, name: string): Option<string>
  {
    if name in env then Some(env[name]) else None
  }

  /** True when the program runs under the test harness. */
  predicate IsTestEnv(env: Env)
    ensures IsTestEnv(env) <==> ENV_TEST_FLAG in env && env[ENV_TEST_FLAG] == "1"
  {
    Get(env, ENV_TEST_FLAG) == Some("1")
  }

  /** The test override is in force for this root. */
  predicate TestOverrideApplies(env: Env, kind: RootKind)
  {
    IsTestEnv(env) && TestVar(kind) in env
  }

  /**
   * The user data root (`kind == DataRoot`) or user config root
   * (`kind == ConfigRoot`): the test override, else the XDG variable, else the
   * default below the home directory, else a failure.
   */
  function UserRoot(env: Env, kind: RootKind): (r: DirResult)
    ensures r.NoEnv? <==> !TestOverrideApplies(env, kind) && XdgVar(kind) !in env && HOME !in env
    ensures r.Ok? && !TestOverrideApplies(env, kind) && XdgVar(kind) !in env ==>
              |r.path| >= |HomeSuffix(kind)| && r.path[|r.path| - |HomeSuffix(kind)|..] == HomeSuffix(kind)
  {
    if TestOverrideApplies(env, kind) then Ok(RootPath(env[TestVar(kind)]))
    else if XdgVar(kind) in env then Ok(RootPath(env[XdgVar(kind)]))
    else if HOME in env then Ok(RootPath(env[HOME]) + HomeSuffix(kind))
    else NoEnv
  }

  /** `suite_name or ''`: an absent suite and an empty one both give the empty string. */
  function SuiteOrEmpty(suite: Option<string>): string
  {
    if suite.Some? then suite.value else ""
  }

  /**
   * The directory of one application below the data or config root:
   * root/suite/app, or root/app when the suite is absent or empty.
   */
  function UserAppDir(env: Env, kind: RootKind, app: string, suite: Option<string>): (r: DirResult)
    ensures r.NoEnv? <==> UserRoot(env, kind).NoEnv?
    ensures r.Ok? && app != "" && suite.Some? && suite.value != "" ==>
              r.path == UserRoot(env, kind).path + [suite.value, app]
    ensures r.Ok? && app != "" && (suite.None? || suite.value == "") ==>
              r.path == UserRoot(env, kind).path + [app]
    ensures r.Ok? && app != "" ==> |r.path| > 0 && r.path[|r.path| - 1] == app
  {
    match UserRoot(env, kind)
    case NoEnv => NoEnv
    case Ok(root) => Ok(Join(Join(root, SuiteOrEmpty(suite)), app))
  }

  // ---------------------------------------------------------------------
  // Precedence of the sources of a root
  // ---------------------------------------------------------------------

  /** The candidate sources of a root, highest precedence first. */
  function Candidates(env: Env, kind: RootKind): seq<Option<Path>>
  {
    [ if TestOverrideApplies(env, kind) then Some(RootPath(env[TestVar(kind)])) else None,
      if XdgVar(kind) in env then Some(RootPath(env[XdgVar(kind)])) else None,
      if HOME in env then Some(RootPath(env[HOME]) + HomeSuffix(kind)) else None ]
  }

  /** The first available candidate; a failure when none is. */
  function FirstAvailable(candidates: seq<Option<Path>>): (r: DirResult)
    ensures r.NoEnv? <==> forall i | 0 <= i < |candidates| :: candidates[i].None?
    ensures r.Ok? ==> exists i | 0 <= i < |candidates| :: candidates[i] == Some(r.path)
  {
    if candidates == [] then NoEnv
    else if candidates[0].Some? then Ok(candidates[0].value)
    else FirstAvailable(candidates[1..])
  }

  /** The root is the first available of its three candidate sources. */
  lemma {:induction false} UserRootIsFirstAvailable(env: Env, kind: RootKind)
    ensures UserRoot(env, kind) == FirstAvailable(Candidates(env, kind))
  {
    var c := Candidates(env, kind);
    assert FirstAvailable(c[1..][1..][1..]) == NoEnv;
    assert FirstAvailable(c[1..][1..]) == if c[2].Some? then Ok(c[2].value) else NoEnv;
    assert FirstAvailable(c[1..]) == if c[1].Some? then Ok(c[1].value) else FirstAvailable(c[1..][1..]);
  }

  /** In test mode with the test override set, the override wins whatever else is set. */
  lemma TestOverrideWins(env: Env, other: Env, kind: RootKind)
    requires IsTestEnv(env) && TestVar(kind) in env
    requires Get(other, ENV_TEST_FLAG) == Get(env, ENV_TEST_FLAG)
    requires Get(other, TestVar(kind)) == Get(env, TestVar(kind))
    ensures UserRoot(env, kind) == Ok(RootPath(env[TestVar(kind)]))
    ensures UserRoot(other, kind) == UserRoot(env, kind)
  {
  }

  /**
   * Without an applicable test override, a set XDG variable wins over the
   * home directory, in test mode too; the home directory is then not read.
   */
  lemma XdgOverridesHome(env: Env, kind: RootKind, home: string)
    requires !TestOverrideApplies(env, kind) && XdgVar(kind) in env
    ensures UserRoot(env, kind) == Ok(RootPath(env[XdgVar(kind)]))
    ensures UserRoot(env[HOME := home], kind) == UserRoot(env, kind)
    ensures UserRoot(env - {HOME}, kind) == UserRoot(env, kind)
  {
    assert HOME != TestVar(kind) && HOME != ENV_TEST_FLAG && HOME != XdgVar(kind);
    assert TestOverrideApplies(env[HOME := home], kind) == TestOverrideApplies(env, kind);
    assert TestOverrideApplies(env - {HOME}, kind) == TestOverrideApplies(env, kind);
  }

  /** With no override, the root is the XDG default below the home directory. */
  lemma HomeDefault(env: Env, kind: RootKind)
    requires !TestOverrideApplies(env, kind) && XdgVar(kind) !in env && HOME in env
    ensures kind == DataRoot ==> UserRoot(env, kind) == Ok(RootPath(env[HOME]) + [".local", "share"])
    ensures kind == ConfigRoot ==> UserRoot(env, kind) == Ok(RootPath(env[HOME]) + [".config"])
  {
  }

  /**
   * Resolution reads the environment and nothing else: two environments that
   * agree on the variables of a root resolve it, and every application
   * directory below it, identically.
   */
  lemma ResolutionReadsOnlyItsVariables(env: Env, other: Env, kind: RootKind, app: string, suite: Option<string>)
    requires Get(other, ENV_TEST_FLAG) == Get(env, ENV_TEST_FLAG)
    requires Get(other, TestVar(kind)) == Get(env, TestVar(kind))
    requires Get(other, XdgVar(kind)) == Get(env, XdgVar(kind))
    requires Get(other, HOME) == Get(env, HOME)
    ensures UserRoot(other, kind) == UserRoot(env, kind)
    ensures UserAppDir(other, kind, app, suite) == UserAppDir(env, kind, app, suite)
  {
    assert TestOverrideApplies(other, kind) == TestOverrideApplies(env, kind);
  }
}
