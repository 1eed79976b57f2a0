/**
 * `resolve_dependencies` (config.py): a depth-first walk over `depends_on` that keeps a
 * `visited` set, an `in_progress` set and the `result` list, reports a missing task with
 * `TaskNotFound` and a task reached again while still in progress with `CyclicDependency`.
 *
 * `Dfs`/`DfsAll` state the walk as functions over an explicit walk state; the class
 * `Resolver` is the walk as the source runs it, one recursive `Visit` mutating the three
 * pieces of state, proved to follow those functions step by step.
 */
module DependencyResolver {
  import opened Wrappers
  import opened TaskConfig

  type TaskMap = map<string, Task>

  /** The `depends_on` list of a task; a name that is not a task has no edges. */
  function Deps(tasks: TaskMap, name: string): seq<string> {
    if name in tasks then tasks[name].Deps() else []
  }

  /** The walk's state: the `visited` and `in_progress` sets and the `result` list. */
  datatype Walk = Walk(visited: set<string>, inProgress: set<string>, order: seq<string>)

  /** The nested `visit(name)`. */
  function Dfs(tasks: TaskMap, name: string, w: Walk): (r: Result<Walk, ConfigError>)
    ensures r.Ok? ==> r.value.inProgress == w.inProgress
    decreases |tasks.Keys - w.inProgress|, 0
  {
    if name in w.visited then Ok(w)
    else if name in w.inProgress then Err(CyclicDependency(name))
    else if name !in tasks then Err(TaskNotFound(name))
    else
      LessInProgress(tasks.Keys, w.inProgress, name);
      match DfsAll(tasks, tasks[name].Deps(), w.(inProgress := w.inProgress + {name}))
      case Err(e) => Err(e)
      case Ok(w') => Ok(Walk(w'.visited + {name}, w'.inProgress - {name}, w'.order + [name]))
  }

  /** The loop `for dep in task.get('depends_on', []): visit(dep)`. */
  function DfsAll(tasks: TaskMap, deps: seq<string>, w: Walk): (r: Result<Walk, ConfigError>)
    ensures r.Ok? ==> r.value.inProgress == w.inProgress
    decreases |tasks.Keys - w.inProgress|, |deps|
  {
    if |deps| == 0 then Ok(w)
    else
      match Dfs(tasks, deps[0], w)
      case Err(e) => Err(e)
      case Ok(w') => DfsAll(tasks, deps[1..], w')
  }

  /** Putting a task in progress shrinks the set of tasks that can still be entered. */
  lemma LessInProgress(all: set<string>, inProgress: set<string>, name: string)
    requires name in all && name !in inProgress
    ensures |all - (inProgress + {name})| < |all - inProgress|
  {
    assert all - inProgress == (all - (inProgress + {name})) + {name};
  }

  /** `resolve_dependencies(config, task_name)`. */
  function Resolve(tasks: TaskMap, target: string): Result<seq<string>, ConfigError> {
    if target !in tasks then Err(TaskNotFound(target))
    else
      match Dfs(tasks, target, Walk({}, {}, []))
      case Err(e) => Err(e)
      case Ok(w) => Ok(w.order)
  }

  /** The closure's state in `resolve_dependencies`, and `visit` as a recursive method. */
  class Resolver {
    const tasks: TaskMap
    var visited: set<string>
    var inProgress: set<string>
    var result: seq<string>

    function State(): Walk
      reads this
    {
      Walk(visited, inProgress, result)
    }

    constructor (tasks: TaskMap)
      ensures this.tasks == tasks && State() == Walk({}, {}, [])
    {
      this.tasks := tasks;
      visited, inProgress, result := {}, {}, [];
    }

    /** `visit(name)`; a raised error is returned as `Some`. */
    method Visit(name: string) returns (err: Option<ConfigError>)
      modifies this
      ensures Dfs(tasks, name, old(State())) == if err.None? then Ok(State()) else Err(err.value)
      decreases |tasks.Keys - inProgress|
    {
      if name in visited {
        return None;
      }
      if name in inProgress {
        return Some(CyclicDependency(name));
      }
      if name !in tasks {
        return Some(TaskNotFound(name));
      }
      LessInProgress(tasks.Keys, inProgress, name);
      inProgress := inProgress + {name};
      ghost var entered := State();
      var deps := tasks[name].Deps();
      var i := 0;
      while i < |deps|
        invariant 0 <= i <= |deps|
        invariant inProgress == entered.inProgress
        invariant DfsAll(tasks, deps, entered) == DfsAll(tasks, deps[i..], State())
      {
        err := Visit(deps[i]);
        if err.Some? {
          return;
        }
        assert deps[i..][1..] == deps[i + 1..];
        i := i + 1;
      }
      inProgress := inProgress - {name};
      visited := visited + {name};
      result := result + [name];
      err := None;
    }
  }

  /** `resolve_dependencies` as the source runs it. */
  method ResolveDependencies(cfg: Config, target: string) returns (r: Result<seq<string>, ConfigError>)
    ensures r == Resolve(cfg.TaskMap(), target)
  {
    var tasks := cfg.TaskMap();
    if target !in tasks {
      return Err(TaskNotFound(target));
    }
    var resolver := new Resolver(tasks);
    var err := resolver.Visit(target);
    if err.Some? {
      return Err(err.value);
    }
    return Ok(resolver.result);
  }
}
