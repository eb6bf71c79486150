/** control-plane/internal/utils/paths.go: the standard directory layout of
    the agents' data home and the files placed in it. The environment
    variable `HANZO_AGENTS_HOME` and the result of `os.UserHomeDir()` are
    parameters. A path is the sequence of its components, so
    `filepath.Join(a, b, c)` is `a + [b, c]`. */
module DataPaths {
  import opened Wrappers

  type Path = seq<string>

  /** `DataDirectories` */
  datatype DataDirectories = DataDirectories(
    home: Path,
    dataDir: Path,
    databaseDir: Path,
    keysDir: Path,
    didRegistriesDir: Path,
    vcsDir: Path,
    vcsExecutionsDir: Path,
    vcsWorkflowsDir: Path,
    agentsDir: Path,
    logsDir: Path,
    configDir: Path,
    tempDir: Path,
    payloadsDir: Path)

  const HomeDirName: string := ".hanzo-agents"

  /** The data home: `HANZO_AGENTS_HOME` when set and non-empty, otherwise
      `.hanzo-agents` in the user's home directory; the error of
      `os.UserHomeDir()` is returned only when it is consulted. */
  function DataHome<E>(env: string, userHome: Result<string, E>): (r: Result<Path, E>)
    ensures env != "" ==> r == Success([env])
    ensures env == "" ==> (r.Failure? <==> userHome.Failure?)
    ensures env == "" && userHome.Failure? ==> r.error == userHome.error
    ensures env == "" && userHome.Success? ==> r.value == [userHome.value, HomeDirName]
  {
    if env != "" then Success([env])
    else
      var homeDir :- userHome;
      Success([homeDir, HomeDirName])
  }

  /** The layout under `home`. */
  function Layout(home: Path): DataDirectories {
    DataDirectories(
      home := home,
      dataDir := home + ["data"],
      databaseDir := home + ["data"],
      keysDir := home + ["data", "keys"],
      didRegistriesDir := home + ["data", "did_registries"],
      vcsDir := home + ["data", "vcs"],
      vcsExecutionsDir := home + ["data", "vcs", "executions"],
      vcsWorkflowsDir := home + ["data", "vcs", "workflows"],
      agentsDir := home + ["agents"],
      logsDir := home + ["logs"],
      configDir := home + ["config"],
      tempDir := home + ["temp"],
      payloadsDir := home + ["data", "payloads"])
  }

  /** `GetHanzoAgentsDataDirectories()` */
  function GetDataDirectories<E>(env: string, userHome: Result<string, E>): (r: Result<DataDirectories, E>)
    ensures r.Failure? <==> env == "" && userHome.Failure?
    ensures r.Success? ==> r.value.home == DataHome(env, userHome).value
    ensures r.Success? ==> r.value == Layout(DataHome(env, userHome).value)
    ensures r.Failure? ==> r.error == userHome.error
  {
    var home :- DataHome(env, userHome);
    Success(Layout(home))
  }

  /** `parent` followed by further components. */
  predicate Under(p: Path, parent: Path) {
    |parent| < |p| && p[..|parent|] == parent
  }

  /** The directories `EnsureDataDirectories` creates, in creation order. */
  function DirectoriesToCreate(dirs: DataDirectories): seq<Path> {
    [dirs.home, dirs.dataDir, dirs.databaseDir, dirs.keysDir, dirs.didRegistriesDir,
     dirs.vcsDir, dirs.vcsExecutionsDir, dirs.vcsWorkflowsDir, dirs.agentsDir,
     dirs.logsDir, dirs.configDir, dirs.tempDir, dirs.payloadsDir]
  }

  /** The directories `EnsureDataDirectories` restricts to the owner. */
  function SensitiveDirectories(dirs: DataDirectories): seq<Path> {
    [dirs.keysDir, dirs.didRegistriesDir]
  }

  /** Every directory of the layout but the home itself lies under the home;
      the database shares the data directory; keys, DID registries, VCs and
      payloads lie under the data directory, and VC executions and workflows
      under the VC directory. */
  lemma LayoutNesting(home: Path)
    ensures var d := Layout(home);
            && DirectoriesToCreate(d)[0] == home
            && (forall i :: 1 <= i < |DirectoriesToCreate(d)| ==> Under(DirectoriesToCreate(d)[i], home))
            && d.databaseDir == d.dataDir
            && Under(d.keysDir, d.dataDir) && Under(d.didRegistriesDir, d.dataDir)
            && Under(d.vcsDir, d.dataDir) && Under(d.payloadsDir, d.dataDir)
            && Under(d.vcsExecutionsDir, d.vcsDir) && Under(d.vcsWorkflowsDir, d.vcsDir)
            && (forall p :: p in SensitiveDirectories(d) ==> Under(p, d.dataDir))
  {
    var d := Layout(home);
    var all := DirectoriesToCreate(d);
    forall i | 1 <= i < |all| ensures Under(all[i], home) {
      assert all[i][..|home|] == home;
    }
    assert d.keysDir[..|d.dataDir|] == d.dataDir;
    assert d.didRegistriesDir[..|d.dataDir|] == d.dataDir;
    assert d.vcsDir[..|d.dataDir|] == d.dataDir;
    assert d.payloadsDir[..|d.dataDir|] == d.dataDir;
    assert d.vcsExecutionsDir[..|d.vcsDir|] == d.vcsDir;
    assert d.vcsWorkflowsDir[..|d.vcsDir|] == d.vcsDir;
  }

  /** Each entry of the creation list relative to the home. */
  const BelowHome: seq<Path> :=
    [[], ["data"], ["data"], ["data", "keys"], ["data", "did_registries"],
     ["data", "vcs"], ["data", "vcs", "executions"], ["data", "vcs", "workflows"],
     ["agents"], ["logs"], ["config"], ["temp"], ["data", "payloads"]]

  lemma CreationListBelowHome(home: Path)
    ensures var all := DirectoriesToCreate(Layout(home));
            |all| == |BelowHome| && forall i :: 0 <= i < |all| ==> all[i] == home + BelowHome[i]
  {
  }

  /** Apart from the database directory, which is the data directory, the
      directories of a layout are pairwise distinct: the creation list holds
      twelve different paths. */
  lemma LayoutDistinct(home: Path)
    ensures var all := DirectoriesToCreate(Layout(home));
            forall i, j :: 0 <= i < j < |all| && all[i] == all[j] ==> i == 1 && j == 2
  {
    var all := DirectoriesToCreate(Layout(home));
    CreationListBelowHome(home);
    forall i, j | 0 <= i < j < |all| && all[i] == all[j]
      ensures i == 1 && j == 2
    {
      assert all[i][|home|..] == BelowHome[i];
      assert all[j][|home|..] == BelowHome[j];
    }
  }

  /** `filepath.Join(dir, filename)`: an empty name adds nothing. */
  function JoinName(dir: Path, filename: string): (r: Path)
    ensures filename == "" ==> r == dir
    ensures filename != "" ==> Under(r, dir) && |r| == |dir| + 1 && r[|dir|] == filename
  {
    if filename == "" then dir else dir + [filename]
  }

  /** A file directly inside one of the directories, when the layout resolves. */
  function FileIn<E>(env: string, userHome: Result<string, E>, dir: DataDirectories -> Path, name: string): (r: Result<Path, E>)
    ensures r.Failure? <==> env == "" && userHome.Failure?
  {
    var dirs :- GetDataDirectories(env, userHome);
    Success(JoinName(dir(dirs), name))
  }

  /** `GetDatabasePath()` */
  function DatabasePath<E>(env: string, userHome: Result<string, E>): (r: Result<Path, E>)
    ensures r.Failure? <==> env == "" && userHome.Failure?
    ensures r.Success? ==> r.value == GetDataDirectories(env, userHome).value.databaseDir + ["hanzo-agents.db"]
  {
    FileIn(env, userHome, (d: DataDirectories) => d.databaseDir, "hanzo-agents.db")
  }

  /** `GetKVStorePath()` */
  function KVStorePath<E>(env: string, userHome: Result<string, E>): (r: Result<Path, E>)
    ensures r.Failure? <==> env == "" && userHome.Failure?
    ensures r.Success? ==> r.value == GetDataDirectories(env, userHome).value.databaseDir + ["hanzo-agents.bolt"]
  {
    FileIn(env, userHome, (d: DataDirectories) => d.databaseDir, "hanzo-agents.bolt")
  }

  /** `GetAgentRegistryPath()` */
  function AgentRegistryPath<E>(env: string, userHome: Result<string, E>): (r: Result<Path, E>)
    ensures r.Failure? <==> env == "" && userHome.Failure?
    ensures r.Success? ==> r.value == GetDataDirectories(env, userHome).value.home + ["installed.json"]
  {
    FileIn(env, userHome, (d: DataDirectories) => d.home, "installed.json")
  }

  /** `GetConfigPath(filename)` */
  function ConfigPath<E>(env: string, userHome: Result<string, E>, filename: string): (r: Result<Path, E>)
    ensures r.Failure? <==> env == "" && userHome.Failure?
    ensures r.Success? ==> r.value == JoinName(GetDataDirectories(env, userHome).value.configDir, filename)
  {
    FileIn(env, userHome, (d: DataDirectories) => d.configDir, filename)
  }

  /** `GetLogPath(filename)` */
  function LogPath<E>(env: string, userHome: Result<string, E>, filename: string): (r: Result<Path, E>)
    ensures r.Failure? <==> env == "" && userHome.Failure?
    ensures r.Success? ==> r.value == JoinName(GetDataDirectories(env, userHome).value.logsDir, filename)
  {
    FileIn(env, userHome, (d: DataDirectories) => d.logsDir, filename)
  }

  /** `GetTempPath(filename)` */
  function TempPath<E>(env: string, userHome: Result<string, E>, filename: string): (r: Result<Path, E>)
    ensures r.Failure? <==> env == "" && userHome.Failure?
    ensures r.Success? ==> r.value == JoinName(GetDataDirectories(env, userHome).value.tempDir, filename)
  {
    FileIn(env, userHome, (d: DataDirectories) => d.tempDir, filename)
  }

  /** The database and the key-value store sit side by side in the data
      directory under different names, and the installed-agents file sits
      directly in the home. */
  lemma StoreFilesDistinct<E>(env: string, userHome: Result<string, E>)
    requires env != "" || userHome.Success?
    ensures var home := DataHome(env, userHome).value;
            && DatabasePath(env, userHome).value != KVStorePath(env, userHome).value
            && DatabasePath(env, userHome).value[..|home| + 1] == home + ["data"]
            && KVStorePath(env, userHome).value[..|home| + 1] == home + ["data"]
            && AgentRegistryPath(env, userHome).value == home + ["installed.json"]
  {
    var home := DataHome(env, userHome).value;
    var db := DatabasePath(env, userHome).value;
    var kv := KVStorePath(env, userHome).value;
    assert db[|home| + 1] == "hanzo-agents.db";
    assert kv[|home| + 1] == "hanzo-agents.bolt";
    assert db[..|home| + 1] == home + ["data"];
    assert kv[..|home| + 1] == home + ["data"];
  }

  /** A file name that `filepath.Join` keeps as one component: not empty, no
      separator, and not `.` or `..`, which cleaning would fold away. */
  predicate PlainName(name: string) {
    name != "" && '/' !in name && name != "." && name != ".."
  }

  /** Named config, log and temp files never collide, and each gives its name
      back as the last component below its directory. */
  lemma NamedFilesApart<E>(env: string, userHome: Result<string, E>, a: string, b: string, c: string)
    requires env != "" || userHome.Success?
    requires PlainName(a) && PlainName(b) && PlainName(c)
    ensures var home := DataHome(env, userHome).value;
            var config := ConfigPath(env, userHome, a).value;
            var log := LogPath(env, userHome, b).value;
            var temp := TempPath(env, userHome, c).value;
            && config == home + ["config", a]
            && log == home + ["logs", b]
            && temp == home + ["temp", c]
            && config != log && log != temp && config != temp
  {
    var home := DataHome(env, userHome).value;
    var config := ConfigPath(env, userHome, a).value;
    var log := LogPath(env, userHome, b).value;
    var temp := TempPath(env, userHome, c).value;
    assert config[|home|] == "config";
    assert log[|home|] == "logs";
    assert temp[|home|] == "temp";
  }

  /** A non-empty `HANZO_AGENTS_HOME` wins over the user's home directory,
      whatever `os.UserHomeDir()` would say. */
  lemma EnvironmentWins<E>(env: string, userHome1: Result<string, E>, userHome2: Result<string, E>)
    requires env != ""
    ensures GetDataDirectories(env, userHome1) == GetDataDirectories(env, userHome2)
    ensures GetDataDirectories(env, userHome1).value.home == [env]
  {
  }
}
