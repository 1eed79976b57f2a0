/**
 * Task execution (runner.py): `activate_virtualenv`, `run_single_task` and `run_task`.
 *
 * What the program asks of the operating system is a `Host` value: the platform, the home
 * directory, the inherited environment, the paths that exist, the `pro-mgr.toml` of each
 * project root, whether a working tree is dirty (`check_git_dirty`) and how the k-th
 * command of a run ends (`execute_command`). The registry is the `Registry.Registry`
 * object, read and updated through its methods as the source does: looking the project up
 * stamps its `last_accessed`, and every snippet reference expanded counts one use.
 */
module Runner {
  import opened Wrappers
  import opened TaskConfig
  import Paths
  import DependencyResolver
  import SnippetExpansion
  import SnippetLookup
  import Registry

  type Env = map<string, string>

  /** How a command ended: its exit code, and the whole seconds it ran. */
  datatype Completion = Completion(exitCode: int, seconds: nat)

  /** The `pro-mgr.toml` found in a project root. */
  datatype ConfigFile = Unparsable | Parsed(cfg: Config)

  datatype Host = Host(
    platform: Paths.Platform,
    home: string,
    environ: Env,
    existing: set<string>,
    configFiles: map<string, ConfigFile>,
    dirty: string -> bool,
    exec: nat -> Completion)

  /**
   * What escapes `run_task`: `RunnerError` and its subclasses `GitDirtyError` and
   * `TaskTimeoutError` (which reports the timeout in seconds), the resolver's
   * `TaskNotFoundError`, and the `ConfigError` of a `pro-mgr.toml` that is not valid TOML.
   */
  datatype Failure =
    | RunnerError(message: string)
    | GitDirtyError(message: string)
    | TaskTimeoutError(seconds: int)
    | TaskNotFoundError(message: string)
    | InvalidToml

  const DirtyMessage: string := "Git has uncommitted changes. Commit first or use --force"

  // ---------- activate_virtualenv ----------

  /** `get_shared_cache_dir()`: `~/.pro-mgr/pip-cache`. */
  function SharedCacheDir(host: Host): string {
    Paths.Join(host.platform, Paths.Join(host.platform, host.home, ".pro-mgr"), "pip-cache")
  }

  /** The venv's scripts directory: `Scripts` on Windows, `bin` elsewhere. */
  function ScriptsDir(p: Paths.Platform, venv: string): string {
    Paths.Join(p, venv, if p.Windows? then "Scripts" else "bin")
  }

  /** The variables activation sets or removes. */
  const Managed: set<string> := {"VIRTUAL_ENV", "PATH", "PYTHONHOME", "PIP_CACHE_DIR"}

  /**
   * The environment `activate_virtualenv(venv)` returns: the inherited one with
   * `VIRTUAL_ENV`, `PATH` and `PIP_CACHE_DIR` set and `PYTHONHOME` removed.
   */
  function ActivatedEnv(host: Host, venv: string): (env: Env)
    ensures env.Keys == host.environ.Keys - {"PYTHONHOME"} + {"VIRTUAL_ENV", "PATH", "PIP_CACHE_DIR"}
    ensures env["VIRTUAL_ENV"] == venv
    ensures env["PATH"] == ScriptsDir(host.platform, venv) + Paths.PathListSep(host.platform)
                           + (if "PATH" in host.environ then host.environ["PATH"] else "")
    ensures env["PIP_CACHE_DIR"] == SharedCacheDir(host)
    ensures forall k :: k in host.environ && k !in Managed ==> env[k] == host.environ[k]
  {
    var path := ScriptsDir(host.platform, venv) + Paths.PathListSep(host.platform)
                + (if "PATH" in host.environ then host.environ["PATH"] else "");
    map k | k in host.environ.Keys - {"PYTHONHOME"} + {"VIRTUAL_ENV", "PATH", "PIP_CACHE_DIR"} ::
      if k == "VIRTUAL_ENV" then venv
      else if k == "PATH" then path
      else if k == "PIP_CACHE_DIR" then SharedCacheDir(host)
      else host.environ[k]
  }

  /** `activate_virtualenv`: copy `os.environ`, then set and remove keys one by one. */
  method ActivateVirtualenv(host: Host, venv: string) returns (env: Env)
    ensures env == ActivatedEnv(host, venv)
  {
    var scripts := ScriptsDir(host.platform, venv);
    env := host.environ;
    env := env["VIRTUAL_ENV" := venv];
    env := env["PATH" := scripts + Paths.PathListSep(host.platform) + (if "PATH" in env then env["PATH"] else "")];
    env := env - {"PYTHONHOME"};
    env := env["PIP_CACHE_DIR" := SharedCacheDir(host)];
  }

  /** `env` in `run_task`: activated when `venv_path` is set, non-empty and exists. */
  function VenvEnv(host: Host, venvPath: Option<string>): (env: Option<Env>)
    ensures env.Some? <==> venvPath.Some? && venvPath.value != "" && venvPath.value in host.existing
    ensures env.Some? ==> env.value == ActivatedEnv(host, venvPath.value)
  {
    if venvPath.Some? && venvPath.value != "" && venvPath.value in host.existing
    then Some(ActivatedEnv(host, venvPath.value))
    else None
  }

  // ---------- run_single_task ----------

  /** One `execute_command` call: the command as configured and as expanded, and its settings. */
  datatype Call = Call(command: string, expanded: string, cwd: string, env: Option<Env>, timeout: Option<int>)

  /** The call `run_single_task` makes for a task, with the snippet contents `store`. */
  function CallFor(t: Task, cwd: string, env: Option<Env>, store: map<string, string>): Call {
    var command := t.command.GetOr("");
    Call(command, SnippetExpansion.Expand(command, store), cwd, env, t.timeout)
  }

  predicate TimedOut(done: Completion, timeout: Option<int>) {
    timeout.Some? && done.seconds > timeout.value
  }

  /** The exit code, or the `TaskTimeoutError` raised when the timeout expired. */
  function Completed(done: Completion, timeout: Option<int>): (r: Result<int, Failure>)
    ensures r.Err? <==> TimedOut(done, timeout)
  {
    if TimedOut(done, timeout) then Err(TaskTimeoutError(timeout.value)) else Ok(done.exitCode)
  }

  /** The run goes on after this command. */
  predicate Passes(done: Completion, timeout: Option<int>) {
    !TimedOut(done, timeout) && done.exitCode == 0
  }

  /**
   * `run_single_task(task, cwd, env)` as the `k`-th command: expand the snippets of the
   * command (default `''`), then execute it with the task's timeout.
   */
  method RunSingleTask(reg: Registry.Registry, host: Host, task: Task, cwd: string, env: Option<Env>, k: nat)
    returns (call: Call, r: Result<int, Failure>)
    requires reg.Valid()
    modifies reg
    ensures reg.Valid()
    ensures call == CallFor(task, cwd, env, SnippetLookup.Contents(old(reg.snippets)))
    ensures r == Completed(host.exec(k), task.timeout)
    ensures reg.snippets == SnippetLookup.Counted(old(reg.snippets), SnippetLookup.Lookups(call.command))
    ensures reg.projects == old(reg.projects) && reg.config == old(reg.config)
  {
    var command := task.command.GetOr("");
    var timeout := task.timeout;
    var expanded := SnippetLookup.ExpandSnippets(reg, command);
    call := Call(command, expanded, cwd, env, timeout);
    var done := host.exec(k);
    if TimedOut(done, timeout) {
      r := Err(TaskTimeoutError(timeout.value));
    } else {
      r := Ok(done.exitCode);
    }
  }

  // ---------- run_task ----------

  /** `run_task` runs a task of the order when it is present and not an empty table. */
  predicate Runnable(t: Option<Task>) {
    t.Some? && !t.value.IsEmptyTable()
  }

  /** The tasks of `names` that run, in order. */
  function RunnableTasks(cfg: Config, names: seq<string>): seq<Task> {
    if |names| == 0 then []
    else
      var t := GetTask(cfg, names[0]);
      (if Runnable(t) then [t.value] else []) + RunnableTasks(cfg, names[1..])
  }

  /** What a run returns or raises, and the commands it executed. */
  datatype Run = Run(result: Result<int, Failure>, calls: seq<Call>)

  /** The run `run`, after the commands `before`. */
  function After(before: seq<Call>, run: Run): Run {
    Run(run.result, before + run.calls)
  }

  /** The loop of `run_task` over `names`, whose first command is the `k`-th. */
  function RunPlan(cfg: Config, names: seq<string>, cwd: string, env: Option<Env>,
                   store: map<string, string>, exec: nat -> Completion, k: nat): Run
    decreases |names|
  {
    if |names| == 0 then Run(Ok(0), [])
    else
      var t := GetTask(cfg, names[0]);
      if !Runnable(t) then RunPlan(cfg, names[1..], cwd, env, store, exec, k)
      else
        var c := CallFor(t.value, cwd, env, store);
        if !Passes(exec(k), c.timeout) then Run(Completed(exec(k), c.timeout), [c])
        else After([c], RunPlan(cfg, names[1..], cwd, env, store, exec, k + 1))
  }

  /** What `run_task` has settled before running anything. */
  datatype Setup = Setup(root: string, cfg: Config, env: Option<Env>, order: seq<string>)

  /** The checks of `run_task`, in the order it makes them. */
  function Prepare(projects: map<string, Registry.Project>, host: Host, projectName: string,
                   taskName: string, force: bool): Result<Setup, Failure>
  {
    if projectName !in projects then Err(RunnerError("Project not found: " + projectName))
    else
      var row := projects[projectName];
      if row.rootPath !in host.configFiles then Err(RunnerError("No pro-mgr.toml found in " + row.rootPath))
      else
        match host.configFiles[row.rootPath]
        case Unparsable => Err(InvalidToml)
        case Parsed(cfg) =>
          var t := GetTask(cfg, taskName);
          if !Runnable(t) then Err(RunnerError("Task not found: " + taskName))
          else if t.value.RequiresCleanTree() && !force && host.dirty(row.rootPath) then Err(GitDirtyError(DirtyMessage))
          else
            match DependencyResolver.Resolve(cfg.TaskMap(), taskName)
            case Err(e) => Err(if e.CyclicDependency? then RunnerError(e.Message()) else TaskNotFoundError(e.Message()))
            case Ok(order) => Ok(Setup(row.rootPath, cfg, VenvEnv(host, row.venvPath), order))
  }

  /** `run_task(projectName, taskName, force)` against the tables `projects` and `snippets`. */
  function RunTaskSpec(projects: map<string, Registry.Project>, snippets: map<string, Registry.Snippet>,
                       host: Host, projectName: string, taskName: string, force: bool): Run
  {
    match Prepare(projects, host, projectName, taskName, force)
    case Err(f) => Run(Err(f), [])
    case Ok(s) => RunPlan(s.cfg, s.order, s.root, s.env, SnippetLookup.Contents(snippets), host.exec, 0)
  }

  /** The snippet names looked up while expanding the commands of `calls`. */
  function AllLookups(calls: seq<Call>): seq<string> {
    if |calls| == 0 then []
    else AllLookups(calls[..|calls| - 1]) + SnippetLookup.Lookups(calls[|calls| - 1].command)
  }

  /** The `projects` table after `get_project(name)` stamped it. */
  function Accessed(projects: map<string, Registry.Project>, name: string, now: string): map<string, Registry.Project> {
    if name in projects then projects[name := projects[name].(lastAccessed := Some(now))] else projects
  }

  /** Running one more command counts its lookups and leaves the snippet contents as they were. */
  lemma CountCall(rows: SnippetLookup.Rows, calls: seq<Call>, call: Call)
    ensures SnippetLookup.Counted(rows, AllLookups(calls + [call]))
         == SnippetLookup.Counted(SnippetLookup.Counted(rows, AllLookups(calls)), SnippetLookup.Lookups(call.command))
    ensures SnippetLookup.Contents(SnippetLookup.Counted(SnippetLookup.Counted(rows, AllLookups(calls)),
                                                         SnippetLookup.Lookups(call.command)))
         == SnippetLookup.Contents(SnippetLookup.Counted(rows, AllLookups(calls)))
  {
    assert (calls + [call])[..|calls|] == calls;
    SnippetLookup.CountedAppend(rows, AllLookups(calls), SnippetLookup.Lookups(call.command));
    SnippetLookup.ContentsUnchanged(SnippetLookup.Counted(rows, AllLookups(calls)), SnippetLookup.Lookups(call.command));
  }

  /** The plan from position `i` when the task there is skipped. */
  lemma PlanSkip(s: Setup, store: map<string, string>, exec: nat -> Completion, calls: seq<Call>, i: nat)
    requires i < |s.order| && !Runnable(GetTask(s.cfg, s.order[i]))
    ensures RunPlan(s.cfg, s.order[i..], s.root, s.env, store, exec, |calls|)
         == RunPlan(s.cfg, s.order[i + 1..], s.root, s.env, store, exec, |calls|)
  {
    assert s.order[i..][1..] == s.order[i + 1..];
  }

  /** The plan from position `i` when the task there runs the call `c`. */
  lemma PlanRun(s: Setup, store: map<string, string>, exec: nat -> Completion, calls: seq<Call>, i: nat, c: Call)
    requires i < |s.order| && Runnable(GetTask(s.cfg, s.order[i]))
    requires c == CallFor(GetTask(s.cfg, s.order[i]).value, s.root, s.env, store)
    ensures !Passes(exec(|calls|), c.timeout) ==>
      After(calls, RunPlan(s.cfg, s.order[i..], s.root, s.env, store, exec, |calls|))
      == Run(Completed(exec(|calls|), c.timeout), calls + [c])
    ensures Passes(exec(|calls|), c.timeout) ==>
      After(calls, RunPlan(s.cfg, s.order[i..], s.root, s.env, store, exec, |calls|))
      == After(calls + [c], RunPlan(s.cfg, s.order[i + 1..], s.root, s.env, store, exec, |calls + [c]|))
  {
    assert s.order[i..][1..] == s.order[i + 1..];
    var rest := RunPlan(s.cfg, s.order[i + 1..], s.root, s.env, store, exec, |calls| + 1);
    assert calls + ([c] + rest.calls) == (calls + [c]) + rest.calls;
  }

  /** The `for current_task_name in execution_order` loop, with its early return. */
  method RunOrder(reg: Registry.Registry, host: Host, s: Setup) returns (r: Result<int, Failure>, calls: seq<Call>)
    requires reg.Valid()
    modifies reg
    ensures reg.Valid()
    ensures Run(r, calls) == RunPlan(s.cfg, s.order, s.root, s.env, SnippetLookup.Contents(old(reg.snippets)), host.exec, 0)
    ensures reg.snippets == SnippetLookup.Counted(old(reg.snippets), AllLookups(calls))
    ensures reg.projects == old(reg.projects) && reg.config == old(reg.config)
  {
    ghost var store := SnippetLookup.Contents(reg.snippets);
    calls := [];
    var i := 0;
    assert s.order[i..] == s.order;
    while i < |s.order|
      invariant 0 <= i <= |s.order|
      invariant reg.Valid()
      invariant RunPlan(s.cfg, s.order, s.root, s.env, store, host.exec, 0)
                == After(calls, RunPlan(s.cfg, s.order[i..], s.root, s.env, store, host.exec, |calls|))
      invariant reg.snippets == SnippetLookup.Counted(old(reg.snippets), AllLookups(calls))
      invariant SnippetLookup.Contents(reg.snippets) == store
      invariant reg.projects == old(reg.projects) && reg.config == old(reg.config)
    {
      var t := GetTask(s.cfg, s.order[i]);
      if !Runnable(t) {
        PlanSkip(s, store, host.exec, calls, i);
        i := i + 1;
        continue;
      }
      CountCall(old(reg.snippets), calls, CallFor(t.value, s.root, s.env, store));
      var call, res := RunSingleTask(reg, host, t.value, s.root, s.env, |calls|);
      PlanRun(s, store, host.exec, calls, i, call);
      calls := calls + [call];
      if res.Err? || res.value != 0 {
        return res, calls;
      }
      i := i + 1;
    }
    r := Ok(0);
  }

  /** `run_task(projectName, taskName, force)`; `now` is the `get_project` timestamp. */
  method RunTask(reg: Registry.Registry, host: Host, projectName: string, taskName: string, force: bool, now: string)
    returns (r: Result<int, Failure>, calls: seq<Call>)
    requires reg.Valid()
    modifies reg
    ensures reg.Valid()
    ensures Run(r, calls) == RunTaskSpec(old(reg.projects), old(reg.snippets), host, projectName, taskName, force)
    ensures reg.projects == Accessed(old(reg.projects), projectName, now)
    ensures reg.snippets == SnippetLookup.Counted(old(reg.snippets), AllLookups(calls))
    ensures reg.config == old(reg.config)
  {
    var project := reg.GetProject(projectName, now);
    if project.None? {
      return Err(RunnerError("Project not found: " + projectName)), [];
    }
    var root := project.value.rootPath;
    var venvPath := project.value.venvPath;
    if root !in host.configFiles {
      return Err(RunnerError("No pro-mgr.toml found in " + root)), [];
    }
    var file := host.configFiles[root];
    if file.Unparsable? {
      return Err(InvalidToml), [];
    }
    var cfg := file.cfg;
    var task := GetTask(cfg, taskName);
    if !Runnable(task) {
      return Err(RunnerError("Task not found: " + taskName)), [];
    }
    if task.value.RequiresCleanTree() && !force {
      if host.dirty(root) {
        return Err(GitDirtyError(DirtyMessage)), [];
      }
    }
    var env: Option<Env> := None;
    if venvPath.Some? && venvPath.value != "" && venvPath.value in host.existing {
      var activated := ActivateVirtualenv(host, venvPath.value);
      env := Some(activated);
    }
    var resolved := DependencyResolver.ResolveDependencies(cfg, taskName);
    if resolved.Err? {
      if resolved.error.CyclicDependency? {
        return Err(RunnerError(resolved.error.Message())), [];
      }
      return Err(TaskNotFoundError(resolved.error.Message())), [];
    }
    r, calls := RunOrder(reg, host, Setup(root, cfg, env, resolved.value));
  }
}
