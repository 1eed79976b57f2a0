/**
 * `validate_config` (config.py): warnings for a missing `[project]` table, an empty task
 * table, each task without `command` and each dependency naming no task, then a cycle
 * check that resolves every task in document order and reports the first cycle only.
 * Only `CyclicDependencyError` is caught there, so a `TaskNotFoundError` met while
 * resolving escapes from the whole call; the model returns it as `Err`.
 */
module ConfigValidation {
  import opened Wrappers
  import opened TaskConfig
  import opened DependencyResolver
  import opened ResolverTheory

  datatype Warning =
    | MissingProject
    | NoTasks
    | MissingCommand(task: string)
    | UndefinedDependency(task: string, dep: string)
    | Cycle(error: ConfigError)
  {
    /** The text appended to `warnings`. */
    function Message(): string {
      match this
      case MissingProject => "Missing [project] section"
      case NoTasks => "No tasks defined"
      case MissingCommand(n) => "Task '" + n + "' is missing 'command' field"
      case UndefinedDependency(n, d) => "Task '" + n + "' depends on undefined task '" + d + "'"
      case Cycle(e) => e.Message()
    }
  }

  /** The two checks of the document as a whole. */
  function HeaderWarnings(cfg: Config): seq<Warning> {
    (if cfg.project.None? then [MissingProject] else [])
    + (if |cfg.tasks.keys| == 0 then [NoTasks] else [])
  }

  /** Warnings for the undefined names among `deps`, in list order. */
  function DepWarnings(tasks: TaskMap, name: string, deps: seq<string>): seq<Warning> {
    if |deps| == 0 then []
    else DepWarnings(tasks, name, deps[..|deps| - 1])
         + (if deps[|deps| - 1] in tasks then [] else [UndefinedDependency(name, deps[|deps| - 1])])
  }

  /** The per-task warnings for the tasks `names`, in that order. */
  function TaskWarnings(tasks: TaskMap, names: seq<string>): seq<Warning> {
    if |names| == 0 then []
    else
      var n := names[|names| - 1];
      TaskWarnings(tasks, names[..|names| - 1])
      + (if n in tasks && tasks[n].command.None? then [MissingCommand(n)] else [])
      + (if n in tasks then DepWarnings(tasks, n, tasks[n].Deps()) else [])
  }

  /**
   * The cycle check over `names`: the first cycle found ends it with one warning; a
   * missing task ends it with that error.
   */
  function CycleScan(tasks: TaskMap, names: seq<string>): Result<seq<Warning>, ConfigError> {
    if |names| == 0 then Ok([])
    else
      match Resolve(tasks, names[0])
      case Ok(_) => CycleScan(tasks, names[1..])
      case Err(e) => if e.CyclicDependency? then Ok([Cycle(e)]) else Err(e)
  }

  /** What `validate_config` returns, or the error it raises. */
  function Validate(cfg: Config): Result<seq<Warning>, ConfigError> {
    match CycleScan(cfg.TaskMap(), cfg.tasks.keys)
    case Err(e) => Err(e)
    case Ok(c) => Ok(HeaderWarnings(cfg) + TaskWarnings(cfg.TaskMap(), cfg.tasks.keys) + c)
  }

  /** `validate_config`. */
  method ValidateConfig(cfg: Config) returns (r: Result<seq<Warning>, ConfigError>)
    requires cfg.Valid()
    ensures r == Validate(cfg)
  {
    var warnings: seq<Warning> := [];
    if cfg.project.None? {
      warnings := warnings + [MissingProject];
    }
    if |cfg.tasks.keys| == 0 {
      warnings := warnings + [NoTasks];
    }
    assert warnings == HeaderWarnings(cfg);
    var perTask := CheckTasks(cfg.TaskMap(), cfg.tasks.keys);
    warnings := warnings + perTask;
    var cycle := CheckCycles(cfg, cfg.tasks.keys);
    match cycle {
      case Err(e) => return Err(e);
      case Ok(c) => return Ok(warnings + c);
    }
  }

  /** The loop `for name, task in tasks.items()` with its inner loop over `depends_on`. */
  method CheckTasks(tasks: TaskMap, names: seq<string>) returns (warnings: seq<Warning>)
    requires forall n :: n in names ==> n in tasks
    ensures warnings == TaskWarnings(tasks, names)
  {
    warnings := [];
    for i := 0 to |names|
      invariant warnings == TaskWarnings(tasks, names[..i])
    {
      var name := names[i];
      assert names[..i + 1][..i] == names[..i];
      var task := tasks[name];
      if task.command.None? {
        warnings := warnings + [MissingCommand(name)];
      }
      var deps := task.Deps();
      var before := warnings;
      for j := 0 to |deps|
        invariant warnings == before + DepWarnings(tasks, name, deps[..j])
      {
        assert deps[..j + 1][..j] == deps[..j];
        if deps[j] !in tasks {
          warnings := warnings + [UndefinedDependency(name, deps[j])];
        }
      }
      assert deps[..|deps|] == deps;
    }
    assert names[..|names|] == names;
  }

  /** The loop resolving every task, stopping at the first cycle. */
  method CheckCycles(cfg: Config, names: seq<string>) returns (r: Result<seq<Warning>, ConfigError>)
    ensures r == CycleScan(cfg.TaskMap(), names)
  {
    var i := 0;
    while i < |names|
      invariant 0 <= i <= |names|
      invariant CycleScan(cfg.TaskMap(), names) == CycleScan(cfg.TaskMap(), names[i..])
    {
      var res := ResolveDependencies(cfg, names[i]);
      if res.Err? {
        if res.error.CyclicDependency? {
          return Ok([Cycle(res.error)]);
        }
        return Err(res.error);
      }
      assert names[i..][1..] == names[i + 1..];
      i := i + 1;
    }
    return Ok([]);
  }

  lemma {:induction false} DepWarningsExact(tasks: TaskMap, name: string, deps: seq<string>)
    ensures forall w :: w in DepWarnings(tasks, name, deps) <==>
      w.UndefinedDependency? && w.task == name && w.dep in deps && w.dep !in tasks
  {
    if |deps| > 0 {
      var init := deps[..|deps| - 1];
      DepWarningsExact(tasks, name, init);
      assert forall d :: d in deps <==> d in init || d == deps[|deps| - 1];
    }
  }

  lemma {:induction false} TaskWarningsExact(tasks: TaskMap, names: seq<string>)
    ensures forall w :: w in TaskWarnings(tasks, names) <==>
      || (w.MissingCommand? && w.task in names && w.task in tasks && tasks[w.task].command.None?)
      || (w.UndefinedDependency? && w.task in names && w.task in tasks
          && w.dep in tasks[w.task].Deps() && w.dep !in tasks)
  {
    if |names| > 0 {
      var init, n := names[..|names| - 1], names[|names| - 1];
      TaskWarningsExact(tasks, init);
      if n in tasks {
        DepWarningsExact(tasks, n, tasks[n].Deps());
      }
      assert forall m :: m in names <==> m in init || m == n;
    }
  }

  /**
   * The cycle check reports at most one cycle, naming a task that lies on one; it ends
   * quietly only when every task resolves; its only error is a missing task that some
   * checked task depends on, directly or not.
   */
  lemma {:induction false} CycleScanOutcome(tasks: TaskMap, names: seq<string>)
    ensures CycleScan(tasks, names).Ok? ==>
      var c := CycleScan(tasks, names).value;
      && |c| <= 1
      && (c == [] ==> forall n :: n in names ==> Resolve(tasks, n).Ok?)
      && (|c| == 1 ==> c[0].Cycle? && c[0].error.CyclicDependency? && OnCycle(tasks, c[0].error.name))
    ensures CycleScan(tasks, names).Err? ==>
      var e := CycleScan(tasks, names).error;
      e.TaskNotFound? && e.name !in tasks && exists n :: n in names && Reaches(tasks, n, e.name)
  {
    if |names| > 0 {
      ResolveErrorExplained(tasks, names[0]);
      CycleScanOutcome(tasks, names[1..]);
      assert forall n :: n in names <==> n == names[0] || n in names[1..];
    }
  }

  /** What a returned list is made of: header warnings, per-task warnings, then the cycle check's. */
  lemma ValidateParts(cfg: Config, ws: seq<Warning>)
    requires Validate(cfg) == Ok(ws)
    ensures CycleScan(cfg.TaskMap(), cfg.tasks.keys).Ok?
    ensures ws == HeaderWarnings(cfg) + TaskWarnings(cfg.TaskMap(), cfg.tasks.keys)
                  + CycleScan(cfg.TaskMap(), cfg.tasks.keys).value
  {
  }

  /** The per-task and cycle warnings never repeat the two whole-document warnings. */
  lemma RestHasNoHeader(cfg: Config)
    requires CycleScan(cfg.TaskMap(), cfg.tasks.keys).Ok?
    ensures var rest := TaskWarnings(cfg.TaskMap(), cfg.tasks.keys) + CycleScan(cfg.TaskMap(), cfg.tasks.keys).value;
      MissingProject !in rest && NoTasks !in rest
  {
    TaskWarningsExact(cfg.TaskMap(), cfg.tasks.keys);
    CycleScanOutcome(cfg.TaskMap(), cfg.tasks.keys);
  }

  /** The whole-document warnings: a missing `[project]` and an empty task table. */
  lemma ValidateHeaderWarnings(cfg: Config, ws: seq<Warning>)
    requires Validate(cfg) == Ok(ws)
    ensures MissingProject in ws <==> cfg.project.None?
    ensures NoTasks in ws <==> cfg.tasks.keys == []
  {
    var tasks, names := cfg.TaskMap(), cfg.tasks.keys;
    ValidateParts(cfg, ws);
    RestHasNoHeader(cfg);
    var h, rest := HeaderWarnings(cfg), TaskWarnings(tasks, names) + CycleScan(tasks, names).value;
    assert ws == h + rest;
  }

  /** The per-task warnings: exactly the tasks without `command` and the undefined dependencies. */
  lemma ValidateTaskWarnings(cfg: Config, ws: seq<Warning>)
    requires cfg.Valid() && Validate(cfg) == Ok(ws)
    ensures forall n :: MissingCommand(n) in ws <==>
      n in cfg.TaskMap() && cfg.TaskMap()[n].command.None?
    ensures forall n, d :: UndefinedDependency(n, d) in ws <==>
      n in cfg.TaskMap() && d in cfg.TaskMap()[n].Deps() && d !in cfg.TaskMap()
  {
    TaskPartOfWarnings(cfg, ws);
    TaskWarningsExact(cfg.TaskMap(), cfg.tasks.keys);
  }

  /** The per-task warnings of a returned list are those of `TaskWarnings`. */
  lemma TaskPartOfWarnings(cfg: Config, ws: seq<Warning>)
    requires Validate(cfg) == Ok(ws)
    ensures forall w: Warning :: w.MissingCommand? || w.UndefinedDependency? ==>
      (w in ws <==> w in TaskWarnings(cfg.TaskMap(), cfg.tasks.keys))
  {
    var tasks, names := cfg.TaskMap(), cfg.tasks.keys;
    ValidateParts(cfg, ws);
    CycleScanCycles(tasks, names);
    var h, t, c := HeaderWarnings(cfg), TaskWarnings(tasks, names), CycleScan(tasks, names).value;
    assert forall w :: w in ws <==> w in h || w in t || w in c;
  }

  /** The cycle check contributes `Cycle` warnings only. */
  lemma {:induction false} CycleScanCycles(tasks: TaskMap, names: seq<string>)
    ensures CycleScan(tasks, names).Ok? ==> forall w :: w in CycleScan(tasks, names).value ==> w.Cycle?
  {
    if |names| > 0 {
      CycleScanCycles(tasks, names[1..]);
    }
  }

  /** The header and per-task warnings contain no `Cycle`. */
  lemma NoCycleBefore(cfg: Config)
    ensures forall w :: w in HeaderWarnings(cfg) + TaskWarnings(cfg.TaskMap(), cfg.tasks.keys) ==> !w.Cycle?
  {
    TaskWarningsExact(cfg.TaskMap(), cfg.tasks.keys);
  }

  /** At most one cycle is reported, as the last warning, naming a task that lies on a cycle. */
  lemma ValidateCycleWarning(cfg: Config, ws: seq<Warning>)
    requires Validate(cfg) == Ok(ws)
    ensures forall i :: 0 <= i < |ws| && ws[i].Cycle? ==>
      i == |ws| - 1 && ws[i].error.CyclicDependency? && OnCycle(cfg.TaskMap(), ws[i].error.name)
  {
    var tasks, names := cfg.TaskMap(), cfg.tasks.keys;
    ValidateParts(cfg, ws);
    NoCycleBefore(cfg);
    CycleScanOutcome(tasks, names);
    var ht, c := HeaderWarnings(cfg) + TaskWarnings(tasks, names), CycleScan(tasks, names).value;
    assert ws == ht + c;
    forall i | 0 <= i < |ws| && ws[i].Cycle?
      ensures i == |ws| - 1 && ws[i].error.CyclicDependency? && OnCycle(tasks, ws[i].error.name)
    {
      if i >= |ht| {
        assert ws[i] == c[i - |ht|];
      }
    }
  }

  /** The only error `validate_config` lets escape is a missing task some task depends on. */
  lemma ValidateRaises(cfg: Config)
    requires Validate(cfg).Err?
    ensures Validate(cfg).error.TaskNotFound?
    ensures Validate(cfg).error.name !in cfg.TaskMap()
    ensures exists n :: n in cfg.tasks.keys && Reaches(cfg.TaskMap(), n, Validate(cfg).error.name)
  {
    CycleScanOutcome(cfg.TaskMap(), cfg.tasks.keys);
  }

  /**
   * Without a cycle, any dependency that names no task makes `validate_config` raise
   * instead of returning its `depends on undefined task` warning.
   */
  lemma UndefinedDependencyRaises(cfg: Config, n: string, d: string)
    requires cfg.Valid()
    requires n in cfg.TaskMap() && d in cfg.TaskMap()[n].Deps() && d !in cfg.TaskMap()
    requires forall m :: !OnCycle(cfg.TaskMap(), m)
    ensures Validate(cfg).Err?
  {
    var tasks := cfg.TaskMap();
    CycleScanOutcome(tasks, cfg.tasks.keys);
    assert n in cfg.tasks.keys;
    assert Reaches(tasks, n, d) by {
      assert IsPath(tasks, [n, d]);
      assert [n, d][0] == n && [n, d][1] == d;
    }
    ResolveSucceedsIff(tasks, n);
  }
}
