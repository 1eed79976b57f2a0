/**
 * The parsed `pro-mgr.toml` document as the core reads it (config.py): the `[project]`
 * table, the `[tasks.<name>]` tables, the two configuration errors, and the plain lookups
 * `get_task`, `get_all_tasks` and `get_project_metadata`.
 */
module TaskConfig {
  import opened Wrappers
  import opened OrderedDict

  /**
   * One `[tasks.<name>]` table. Each field is `None` when its key is absent;
   * `otherKeys` names any keys the core does not interpret.
   */
  datatype Task = Task(
    command: Option<string>,
    description: Option<string>,
    dependsOn: Option<seq<string>>,
    watchDirs: Option<seq<string>>,
    timeout: Option<int>,
    failOnDirtyBranch: Option<bool>,
    otherKeys: set<string>)
  {
    /** `task.get('depends_on', [])`. */
    function Deps(): seq<string> {
      dependsOn.GetOr([])
    }

    /** `task.get('fail_on_dirty_branch', False)`. */
    predicate RequiresCleanTree() {
      failOnDirtyBranch == Some(true)
    }

    /** A table with no keys at all, which Python treats as false in `if not task`. */
    predicate IsEmptyTable() {
      && command.None? && description.None? && dependsOn.None? && watchDirs.None?
      && timeout.None? && failOnDirtyBranch.None? && otherKeys == {}
    }
  }

  /**
   * The document: the `[project]` table if present, and the task tables in document order
   * (an absent `tasks` key reads as an empty table, as `config.get('tasks', {})` does).
   */
  datatype Config = Config(project: Option<Dict<string>>, tasks: Dict<Task>) {
    ghost predicate Valid() {
      tasks.Valid() && (project.Some? ==> project.value.Valid())
    }

    /** The tasks keyed by name, order forgotten. */
    function TaskMap(): map<string, Task> {
      tasks.entries
    }
  }

  /** `TaskNotFoundError` and `CyclicDependencyError`, each with the task name it reports. */
  datatype ConfigError = TaskNotFound(name: string) | CyclicDependency(name: string) {
    function Message(): string {
      match this
      case TaskNotFound(n) => "Task not found: " + n
      case CyclicDependency(n) => "Circular dependency detected involving task: " + n
    }
  }

  /** `get_task`: the task's table, `None` when the name is not a task. */
  function GetTask(cfg: Config, name: string): (t: Option<Task>)
    ensures t.Some? <==> name in cfg.TaskMap()
    ensures t.Some? ==> t.value == cfg.TaskMap()[name]
  {
    cfg.tasks.Get(name)
  }

  /** `get_all_tasks`: the whole task table, in document order, agreeing with `get_task`. */
  function GetAllTasks(cfg: Config): (ts: Dict<Task>)
    requires cfg.Valid()
    ensures ts.Valid()
    ensures forall name :: ts.Get(name) == GetTask(cfg, name)
  {
    cfg.tasks
  }

  /** The built-in metadata defaults, in this order. */
  function MetadataDefaults(): (d: Dict<string>)
    ensures d.Valid()
    ensures d.keys == ["name", "version", "description"]
  {
    Dict(["name", "version", "description"],
         map["name" := "Unknown", "version" := "0.0.0", "description" := ""])
  }

  /**
   * `get_project_metadata`: `{**defaults, **project}`. Every key of `[project]` keeps its
   * value and the three default keys come first.
   */
  function GetProjectMetadata(cfg: Config): (m: Dict<string>)
    requires cfg.Valid()
    ensures m.Valid()
    ensures |m.keys| >= 3 && m.keys[..3] == ["name", "version", "description"]
    ensures m.entries.Keys == {"name", "version", "description"} + ProjectTable(cfg).entries.Keys
    ensures forall k :: k in ProjectTable(cfg).entries ==> m.entries[k] == ProjectTable(cfg).entries[k]
  {
    var d, p := MetadataDefaults(), ProjectTable(cfg);
    var m := d.Update(p);
    assert m.keys[..3] == d.keys;
    m
  }

  /** `name`, `version` and `description` fall back to `Unknown`, `0.0.0` and `""`. */
  lemma MetadataFallbacks(cfg: Config)
    requires cfg.Valid()
    ensures GetProjectMetadata(cfg).Get("name") == Some(ProjectTable(cfg).Get("name").GetOr("Unknown"))
    ensures GetProjectMetadata(cfg).Get("version") == Some(ProjectTable(cfg).Get("version").GetOr("0.0.0"))
    ensures GetProjectMetadata(cfg).Get("description") == Some(ProjectTable(cfg).Get("description").GetOr(""))
  {
    var d := MetadataDefaults();
    assert d.entries["name"] == "Unknown" && d.entries["version"] == "0.0.0" && d.entries["description"] == "";
    MetadataFallback(cfg, "name");
    MetadataFallback(cfg, "version");
    MetadataFallback(cfg, "description");
  }

  /** A default key takes the `[project]` value when there is one, else the default. */
  lemma MetadataFallback(cfg: Config, k: string)
    requires cfg.Valid() && k in MetadataDefaults().entries
    ensures GetProjectMetadata(cfg).Get(k) == Some(ProjectTable(cfg).Get(k).GetOr(MetadataDefaults().entries[k]))
  {
    var d, p := MetadataDefaults(), ProjectTable(cfg);
    assert GetProjectMetadata(cfg).entries == d.entries + p.entries;
  }

  /** `config.get('project', {})`. */
  function ProjectTable(cfg: Config): (p: Dict<string>)
    requires cfg.Valid()
    ensures p.Valid()
  {
    if cfg.project.Some? then cfg.project.value else Empty()
  }
}
