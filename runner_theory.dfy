/**
 * What `run_task` promises, proved about `Runner.RunTaskSpec`, the function the
 * `Runner.RunTask` method is proved to follow: the checks come in a fixed order and fail
 * before any command runs, the dirty-tree check is consulted only when the task asks for
 * it, every command runs in the project root with one environment, and the run stops at
 * the first command that fails.
 */
module RunnerTheory {
  import opened Wrappers
  import opened TaskConfig
  import opened Runner
  import DependencyResolver
  import ResolverTheory
  import Registry

  /** The tasks that run after skipping an absent or empty first task. */
  lemma RunnableSkip(cfg: Config, names: seq<string>)
    requires |names| > 0 && !Runnable(GetTask(cfg, names[0]))
    ensures RunnableTasks(cfg, names) == RunnableTasks(cfg, names[1..])
  {
    assert [] + RunnableTasks(cfg, names[1..]) == RunnableTasks(cfg, names[1..]);
  }

  /** How many of the tasks `ts`, run from the `k`-th command on, pass before one fails. */
  function Leading(ts: seq<Task>, exec: nat -> Completion, k: nat): (n: nat)
    ensures n <= |ts|
    decreases |ts|
  {
    if |ts| == 0 || !Passes(exec(k), ts[0].timeout) then 0
    else Leading(ts[1..], exec, k + 1) + 1
  }

  /** The first `Leading` tasks pass and the one after them, if any, fails. */
  lemma {:induction false} LeadingPasses(ts: seq<Task>, exec: nat -> Completion, k: nat)
    ensures forall i :: 0 <= i < Leading(ts, exec, k) ==> Passes(exec(k + i), ts[i].timeout)
    ensures Leading(ts, exec, k) < |ts| ==> !Passes(exec(k + Leading(ts, exec, k)), ts[Leading(ts, exec, k)].timeout)
    decreases |ts|
  {
    if |ts| > 0 && Passes(exec(k), ts[0].timeout) {
      LeadingPasses(ts[1..], exec, k + 1);
      var n := Leading(ts[1..], exec, k + 1);
      forall i | 0 < i < n + 1 ensures Passes(exec(k + i), ts[i].timeout) {
        assert ts[i] == ts[1..][i - 1] && k + i == k + 1 + (i - 1);
      }
      if n + 1 < |ts| {
        assert ts[n + 1] == ts[1..][n] && k + (n + 1) == k + 1 + n;
      }
    }
  }

  /** The calls `run_single_task` makes for the tasks `ts`. */
  function CallsFor(ts: seq<Task>, cwd: string, env: Option<Env>, store: map<string, string>): (calls: seq<Call>)
    ensures |calls| == |ts|
    ensures forall i :: 0 <= i < |ts| ==> calls[i] == CallFor(ts[i], cwd, env, store)
  {
    seq(|ts|, i requires 0 <= i < |ts| => CallFor(ts[i], cwd, env, store))
  }

  /** Running the tasks `ts` one after another from the `k`-th command, stopping at a failure. */
  function RunTasks(ts: seq<Task>, cwd: string, env: Option<Env>, store: map<string, string>,
                    exec: nat -> Completion, k: nat): Run
    decreases |ts|
  {
    if |ts| == 0 then Run(Ok(0), [])
    else
      var c := CallFor(ts[0], cwd, env, store);
      if !Passes(exec(k), c.timeout) then Run(Completed(exec(k), c.timeout), [c])
      else After([c], RunTasks(ts[1..], cwd, env, store, exec, k + 1))
  }

  /** The loop skips the absent and empty tasks and runs the others. */
  lemma {:induction false} RunPlanRunsRunnable(cfg: Config, names: seq<string>, cwd: string, env: Option<Env>,
                                              store: map<string, string>, exec: nat -> Completion, k: nat)
    ensures RunPlan(cfg, names, cwd, env, store, exec, k)
         == RunTasks(RunnableTasks(cfg, names), cwd, env, store, exec, k)
    decreases |names|
  {
    if |names| > 0 {
      var t := GetTask(cfg, names[0]);
      if !Runnable(t) {
        RunnableSkip(cfg, names);
        RunPlanRunsRunnable(cfg, names[1..], cwd, env, store, exec, k);
      } else {
        var ts := RunnableTasks(cfg, names);
        assert ts[0] == t.value && ts[1..] == RunnableTasks(cfg, names[1..]);
        RunPlanRunsRunnable(cfg, names[1..], cwd, env, store, exec, k + 1);
      }
    }
  }

  /**
   * The run fail-fast promises: the tasks up to and including the first that fails, whose
   * exit code (or timeout) is the result; 0 when none fails.
   */
  function FailFast(ts: seq<Task>, cwd: string, env: Option<Env>, store: map<string, string>,
                    exec: nat -> Completion, k: nat): Run
  {
    var n := Leading(ts, exec, k);
    if n == |ts| then Run(Ok(0), CallsFor(ts, cwd, env, store))
    else Run(Completed(exec(k + n), ts[n].timeout), CallsFor(ts, cwd, env, store)[..n + 1])
  }

  /** The first `j + 1` calls for `ts` are the call for its head, then `j` calls for its tail. */
  lemma CallsForHead(ts: seq<Task>, cwd: string, env: Option<Env>, store: map<string, string>, j: nat)
    requires j < |ts|
    ensures CallsFor(ts, cwd, env, store)[..j + 1]
         == [CallFor(ts[0], cwd, env, store)] + CallsFor(ts[1..], cwd, env, store)[..j]
  {
    var lhs, rhs := CallsFor(ts, cwd, env, store)[..j + 1],
                    [CallFor(ts[0], cwd, env, store)] + CallsFor(ts[1..], cwd, env, store)[..j];
    forall i | 0 <= i < j + 1 ensures lhs[i] == rhs[i] {
      if i > 0 {
        assert ts[1..][i - 1] == ts[i];
      }
    }
  }

  lemma FailFastAfterPass(ts: seq<Task>, cwd: string, env: Option<Env>, store: map<string, string>,
                          exec: nat -> Completion, k: nat)
    requires |ts| > 0 && Passes(exec(k), ts[0].timeout)
    ensures FailFast(ts, cwd, env, store, exec, k)
         == After([CallFor(ts[0], cwd, env, store)], FailFast(ts[1..], cwd, env, store, exec, k + 1))
  {
    var m := Leading(ts[1..], exec, k + 1);
    assert Leading(ts, exec, k) == m + 1;
    if m < |ts| - 1 {
      FailFastStopsLater(ts, cwd, env, store, exec, k, m);
    } else {
      FailFastPassesAll(ts, cwd, env, store, exec, k);
    }
  }

  /** `FailFastAfterPass` when a later task fails. */
  lemma FailFastStopsLater(ts: seq<Task>, cwd: string, env: Option<Env>, store: map<string, string>,
                           exec: nat -> Completion, k: nat, m: nat)
    requires |ts| > 0 && m == Leading(ts[1..], exec, k + 1) && m < |ts| - 1
    requires Leading(ts, exec, k) == m + 1
    ensures FailFast(ts, cwd, env, store, exec, k)
         == After([CallFor(ts[0], cwd, env, store)], FailFast(ts[1..], cwd, env, store, exec, k + 1))
  {
    CallsForHead(ts, cwd, env, store, m + 1);
    assert k + 1 + m == k + (m + 1) && ts[m + 1] == ts[1..][m];
  }

  /** `FailFastAfterPass` when every task passes. */
  lemma FailFastPassesAll(ts: seq<Task>, cwd: string, env: Option<Env>, store: map<string, string>,
                          exec: nat -> Completion, k: nat)
    requires |ts| > 0 && Leading(ts[1..], exec, k + 1) == |ts| - 1 && Leading(ts, exec, k) == |ts|
    ensures FailFast(ts, cwd, env, store, exec, k)
         == After([CallFor(ts[0], cwd, env, store)], FailFast(ts[1..], cwd, env, store, exec, k + 1))
  {
    var all, rest := CallsFor(ts, cwd, env, store), CallsFor(ts[1..], cwd, env, store);
    CallsForHead(ts, cwd, env, store, |ts| - 1);
    assert all[..|ts|] == all && rest[..|ts| - 1] == rest;
  }

  /** `RunTasks` is fail-fast. */
  lemma {:induction false} RunTasksShape(ts: seq<Task>, cwd: string, env: Option<Env>,
                                        store: map<string, string>, exec: nat -> Completion, k: nat)
    ensures RunTasks(ts, cwd, env, store, exec, k) == FailFast(ts, cwd, env, store, exec, k)
    decreases |ts|
  {
    if |ts| > 0 {
      if Passes(exec(k), ts[0].timeout) {
        RunTasksShape(ts[1..], cwd, env, store, exec, k + 1);
        FailFastAfterPass(ts, cwd, env, store, exec, k);
      } else {
        assert CallsFor(ts, cwd, env, store)[..1] == [CallFor(ts[0], cwd, env, store)];
      }
    }
  }

  /** The loop of `run_task` is fail-fast over the tasks it does not skip. */
  lemma RunPlanShape(cfg: Config, names: seq<string>, cwd: string, env: Option<Env>,
                     store: map<string, string>, exec: nat -> Completion, k: nat)
    ensures RunPlan(cfg, names, cwd, env, store, exec, k)
         == FailFast(RunnableTasks(cfg, names), cwd, env, store, exec, k)
  {
    RunPlanRunsRunnable(cfg, names, cwd, env, store, exec, k);
    RunTasksShape(RunnableTasks(cfg, names), cwd, env, store, exec, k);
  }

  /** A plan only ever fails by a timeout. */
  lemma {:induction false} RunPlanRaisesOnlyTimeouts(cfg: Config, names: seq<string>, cwd: string, env: Option<Env>,
                                                    store: map<string, string>, exec: nat -> Completion, k: nat)
    ensures RunPlan(cfg, names, cwd, env, store, exec, k).result.Err? ==>
              RunPlan(cfg, names, cwd, env, store, exec, k).result.error.TaskTimeoutError?
    decreases |names|
  {
    if |names| > 0 {
      RunPlanRaisesOnlyTimeouts(cfg, names[1..], cwd, env, store, exec, k);
      RunPlanRaisesOnlyTimeouts(cfg, names[1..], cwd, env, store, exec, k + 1);
    }
  }

  /** The configuration `run_task` loads for a registered project. */
  function LoadedConfig(projects: map<string, Registry.Project>, host: Host, projectName: string): Option<Config> {
    if projectName in projects && projects[projectName].rootPath in host.configFiles
       && host.configFiles[projects[projectName].rootPath].Parsed?
    then Some(host.configFiles[projects[projectName].rootPath].cfg)
    else None
  }

  /** `run_task` gets past the project, file and task checks. */
  predicate TaskFound(projects: map<string, Registry.Project>, host: Host, projectName: string, taskName: string) {
    LoadedConfig(projects, host, projectName).Some? && Runnable(GetTask(LoadedConfig(projects, host, projectName).value, taskName))
  }

  /** The target task asks for a clean working tree and `force` is not given. */
  predicate GateApplies(projects: map<string, Registry.Project>, host: Host, projectName: string,
                        taskName: string, force: bool) {
    TaskFound(projects, host, projectName, taskName) && !force
    && GetTask(LoadedConfig(projects, host, projectName).value, taskName).value.RequiresCleanTree()
  }

  /**
   * A missing project, then a missing `pro-mgr.toml`, then a missing or empty task each
   * raise `RunnerError` with their own message, and no command runs.
   */
  lemma RunTaskChecksInOrder(projects: map<string, Registry.Project>, snippets: map<string, Registry.Snippet>,
                             host: Host, projectName: string, taskName: string, force: bool)
    ensures projectName !in projects ==>
      RunTaskSpec(projects, snippets, host, projectName, taskName, force)
        == Run(Err(RunnerError("Project not found: " + projectName)), [])
    ensures projectName in projects && projects[projectName].rootPath !in host.configFiles ==>
      RunTaskSpec(projects, snippets, host, projectName, taskName, force)
        == Run(Err(RunnerError("No pro-mgr.toml found in " + projects[projectName].rootPath)), [])
    ensures LoadedConfig(projects, host, projectName).Some? && !TaskFound(projects, host, projectName, taskName) ==>
      RunTaskSpec(projects, snippets, host, projectName, taskName, force)
        == Run(Err(RunnerError("Task not found: " + taskName)), [])
    ensures Prepare(projects, host, projectName, taskName, force).Err? ==>
      RunTaskSpec(projects, snippets, host, projectName, taskName, force).calls == []
  {
  }

  /**
   * `GitDirtyError` is raised exactly when the check applies and the tree is dirty; it
   * comes before the environment, the resolution and every command, so it also wins over a
   * dependency cycle.
   */
  lemma DirtyGate(projects: map<string, Registry.Project>, snippets: map<string, Registry.Snippet>,
                  host: Host, projectName: string, taskName: string, force: bool)
    ensures RunTaskSpec(projects, snippets, host, projectName, taskName, force).result == Err(GitDirtyError(DirtyMessage))
      <==> GateApplies(projects, host, projectName, taskName, force) && host.dirty(projects[projectName].rootPath)
    ensures GateApplies(projects, host, projectName, taskName, force) && host.dirty(projects[projectName].rootPath) ==>
      RunTaskSpec(projects, snippets, host, projectName, taskName, force).calls == []
  {
    match Prepare(projects, host, projectName, taskName, force)
    case Err(_) =>
    case Ok(s) =>
      RunPlanRaisesOnlyTimeouts(s.cfg, s.order, s.root, s.env, SnippetLookup.Contents(snippets), host.exec, 0);
  }

  /** When the check does not apply, the state of the working tree does not matter. */
  lemma DirtyNotConsulted(projects: map<string, Registry.Project>, snippets: map<string, Registry.Snippet>,
                          host: Host, projectName: string, taskName: string, force: bool, dirty: string -> bool)
    requires !GateApplies(projects, host, projectName, taskName, force)
    ensures RunTaskSpec(projects, snippets, host, projectName, taskName, force)
         == RunTaskSpec(projects, snippets, host.(dirty := dirty), projectName, taskName, force)
  {
    var other := host.(dirty := dirty);
    assert SharedCacheDir(other) == SharedCacheDir(host);
    assert forall v :: ActivatedEnv(other, v) == ActivatedEnv(host, v);
    assert forall v :: VenvEnv(other, v) == VenvEnv(host, v);
  }

  /**
   * A cycle is reported as `RunnerError` with the resolver's message, a missing
   * dependency as the resolver's own `TaskNotFoundError`; neither runs a command.
   */
  lemma ResolutionErrors(projects: map<string, Registry.Project>, snippets: map<string, Registry.Snippet>,
                         host: Host, projectName: string, taskName: string, force: bool)
    requires TaskFound(projects, host, projectName, taskName)
    requires !(GateApplies(projects, host, projectName, taskName, force) && host.dirty(projects[projectName].rootPath))
    ensures var cfg := LoadedConfig(projects, host, projectName).value;
      var run := RunTaskSpec(projects, snippets, host, projectName, taskName, force);
      match DependencyResolver.Resolve(cfg.TaskMap(), taskName)
      case Err(CyclicDependency(n)) => run == Run(Err(RunnerError(CyclicDependency(n).Message())), [])
      case Err(TaskNotFound(n)) => run == Run(Err(TaskNotFoundError(TaskNotFound(n).Message())), [])
      case Ok(order) => run.calls == [] || run.calls[0].cwd == projects[projectName].rootPath
  {
    var cfg := LoadedConfig(projects, host, projectName).value;
    match DependencyResolver.Resolve(cfg.TaskMap(), taskName)
    case Err(_) =>
    case Ok(order) =>
      var row := projects[projectName];
      RunPlanShape(cfg, order, row.rootPath, VenvEnv(host, row.venvPath),
                   SnippetLookup.Contents(snippets), host.exec, 0);
  }

  /**
   * Every command runs in the project root with one environment: the activated venv when
   * `venv_path` is set and exists, else the inherited one (`None`).
   */
  lemma SameDirectoryAndEnvironment(projects: map<string, Registry.Project>, snippets: map<string, Registry.Snippet>,
                                    host: Host, projectName: string, taskName: string, force: bool)
    ensures var run := RunTaskSpec(projects, snippets, host, projectName, taskName, force);
      forall i :: 0 <= i < |run.calls| ==>
        && projectName in projects
        && run.calls[i].cwd == projects[projectName].rootPath
        && run.calls[i].env == VenvEnv(host, projects[projectName].venvPath)
  {
    match Prepare(projects, host, projectName, taskName, force)
    case Err(_) =>
    case Ok(s) =>
      RunPlanShape(s.cfg, s.order, s.root, s.env, SnippetLookup.Contents(snippets), host.exec, 0);
  }

  /** Once set up, `run_task` runs tasks of a dependency order that ends with the target. */
  lemma RunsInDependencyOrder(projects: map<string, Registry.Project>, host: Host, projectName: string,
                              taskName: string, force: bool)
    requires Prepare(projects, host, projectName, taskName, force).Ok?
    ensures var s := Prepare(projects, host, projectName, taskName, force).value;
      && ResolverTheory.DepsFirst(s.cfg.TaskMap(), s.order)
      && |s.order| > 0 && s.order[|s.order| - 1] == taskName
  {
    var s := Prepare(projects, host, projectName, taskName, force).value;
    ResolverTheory.ResolveSound(s.cfg.TaskMap(), taskName, s.order);
  }

  /**
   * Once set up, `run_task` runs the present, non-empty tasks of the resolved order, each
   * command expanded against the stored snippets, up to and including the first that
   * fails, whose exit code or timeout it reports; it returns 0 exactly when all pass.
   */
  lemma RunsFailFast(projects: map<string, Registry.Project>, snippets: map<string, Registry.Snippet>,
                     host: Host, projectName: string, taskName: string, force: bool)
    requires Prepare(projects, host, projectName, taskName, force).Ok?
    ensures var s := Prepare(projects, host, projectName, taskName, force).value;
      RunTaskSpec(projects, snippets, host, projectName, taskName, force)
        == FailFast(RunnableTasks(s.cfg, s.order), s.root, s.env, SnippetLookup.Contents(snippets), host.exec, 0)
    ensures var s := Prepare(projects, host, projectName, taskName, force).value;
      var ts := RunnableTasks(s.cfg, s.order);
      RunTaskSpec(projects, snippets, host, projectName, taskName, force).result == Ok(0) <==>
        forall i :: 0 <= i < |ts| ==> Passes(host.exec(i), ts[i].timeout)
  {
    var s := Prepare(projects, host, projectName, taskName, force).value;
    RunPlanShape(s.cfg, s.order, s.root, s.env, SnippetLookup.Contents(snippets), host.exec, 0);
    var ts := RunnableTasks(s.cfg, s.order);
    var n := Leading(ts, host.exec, 0);
    LeadingPasses(ts, host.exec, 0);
    if n < |ts| {
      assert !Passes(host.exec(0 + n), ts[n].timeout);
    } else {
      assert forall i :: 0 <= i < |ts| ==> host.exec(0 + i) == host.exec(i);
    }
  }
}
