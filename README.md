# pro-mgr core, modelled in Dafny

pro-mgr is a command-line project manager. It keeps a registry of local projects, reusable
command snippets and user preferences. It also reads a per-project `pro-mgr.toml` of named
tasks with dependencies. It runs a task after its dependencies, inside the project's virtual
environment, and stops at the first failure. It can watch directories and re-run a task after
a burst of file changes settles. It scaffolds new projects from templates by substituting
`{{variable}}` placeholders. For `pro-mgr init`, it proposes a starter task file from the
marker files a directory contains.

This project models that core and proves what the code promises about it:

- **Task configuration** (`task_config.dfy`, `dependency_resolver.dfy`, `resolver_theory.dfy`,
  `config_validation.dfy`). Task lookup, project metadata with its fallbacks, and the
  depth-first dependency resolver, which is a `Resolver` class with the source's
  `visited` / `in_progress` / `order` state. The resolver's theory covers no duplicates,
  dependencies before dependents, the target last, exactly the reachable tasks, and errors
  only on a cycle or a missing task. Validation warnings are proved exact in both directions.
- **Snippet expansion** (`snippet_expansion.dfy`, `snippet_lookup.dfy`). `{snip:name}` references
  are expanded in one left-to-right pass. Each reference looks the snippet up in the registry,
  and that lookup bumps the snippet's usage count.
- **Registry** (`registry.dfy`, `sql_like.dfy`, `ordering.dfy`). The three SQLite tables are maps
  in a `Registry` class, and each database function is a method. SQL `LIKE '%q%'` is modelled
  and proved to be a case-insensitive substring test for a query without `%` or `_`. The
  code puts the user's text into the pattern unescaped, so those two characters act as
  wildcards (`Registry.SearchUnderscoreIsWildcard`). `ORDER BY` is modelled as "some
  arrangement of the selected rows that respects the key".
- **Runner** (`runner.dfy`, `runner_theory.dfy`). Virtualenv activation of the environment,
  single-task execution with a timeout, and `run_task`. `run_task` checks, in order: the project,
  its config file, the task, the clean-tree gate, dependency resolution, then fail-fast
  execution in dependency order.
- **Watcher** (`watcher.dfy`, `glob.dfy`). The ignore rules with an `fnmatch` model, `.gitignore`
  loading, and the choice of watch directories. The debounced handler is a class whose timers
  are an explicit list, so a burst of events provably leaves one live timer and runs the
  callback once.
- **Scaffolding** (`scaffold.dfy`). Default template variables with their three-level precedence,
  placeholder substitution, the recursive template copy with `__name__` renaming, the
  existence checks of `create_project_structure`, virtualenv detection and `create_project`.
- **Init helpers** (`init_helpers.dfy`, `ordered_dict.dfy`). Task detection from marker files,
  where a later detector overrides an earlier one's suggestion of the same name. Also the exact
  TOML text generated for `pro-mgr init`. Python dictionaries keep insertion order, so they are
  modelled by `OrderedDict.Dict` (keys in order plus a map).

Outside effects become parameters:
- The clock becomes `now` strings.
- The file system becomes sets of existing paths and parsed config files.
- Subprocesses become an `exec` oracle from call index to exit code and duration.
- `git status` becomes a `dirty` predicate.
- Environment variables become a map.

Behaviour worth noting (the model follows the code):
- A snippet reference needs a non-empty name. The pattern is `\{snip:([^}]+)\}`, so
  `{snip:}` is left as is (`SnippetExpansion.ExpandEmptyName`).
- A task without `command` is not rejected. The runner defaults a missing one to the
  empty string, and validation only warns (`ConfigValidation.ValidateTaskWarnings`).
- When a task names watch directories and none of them exist, the watcher falls back to
  the project root itself. It does not fall back to `src`/`tests` (`Watcher.WatchDirsNeverEmpty`).

## Model

| member | source | states |
|---|---|---|
| DependencyResolver.Dfs | src/pro_mgr/config.py:108-130 | the recursive visit leaves the set of tasks in progress as it found it whenever it succeeds |
| DependencyResolver.DfsAll | src/pro_mgr/config.py:125-126 | visiting a dependency list in order leaves the in-progress set unchanged on success |
| DependencyResolver.Resolver.constructor | src/pro_mgr/config.py:104-106 | a new resolver starts with empty visited, in-progress and order state over the given tasks |
| DependencyResolver.Resolver.Visit | src/pro_mgr/config.py:108-130 | the imperative visit mutating visited / in_progress / order yields exactly the walk of the recursive definition, or its error |
| DependencyResolver.ResolveDependencies | src/pro_mgr/config.py:83-133 | resolve_dependencies returns exactly the resolver's order or error for the target |
| ResolverTheory.DfsKeepsInvariant | src/pro_mgr/config.py:108-130 | a successful visit keeps the walk invariant (order duplicate-free, dependencies first, visited = listed), extends the order, and lists a newly visited task last |
| ResolverTheory.DfsAllKeepsInvariant | src/pro_mgr/config.py:125-126 | visiting a dependency list keeps the invariant and marks every dependency visited |
| ResolverTheory.DfsErrorExplained | src/pro_mgr/config.py:113-119 | a visit fails only with CyclicDependency on a task that lies on a cycle, or TaskNotFound for a task reachable from the root and not defined |
| ResolverTheory.DfsAllErrorExplained | src/pro_mgr/config.py:125-126 | the same error explanation for a dependency list |
| ResolverTheory.ResolveSound | src/pro_mgr/config.py:110-133 | a resolved order has no duplicates, ends with the target, lists each task after its dependencies, and holds exactly the tasks reachable from the target |
| ResolverTheory.ResolveMissingTarget | src/pro_mgr/config.py:100-101 | an undefined target fails with TaskNotFound(target) |
| ResolverTheory.ResolveErrorExplained | src/pro_mgr/config.py:113-119 | every resolution error is a cycle through a reachable task or a reachable undefined task |
| ResolverTheory.ResolveSucceedsIff | src/pro_mgr/config.py:98-133 | resolution succeeds iff every task reachable from the target is defined and on no cycle |
| ResolverTheory.ResolveAcyclicFailsOnlyNotFound | src/pro_mgr/config.py:113-119 | without cycles among reachable tasks, the only possible error is TaskNotFound |
| ResolverTheory.DfsLeaf | src/pro_mgr/config.py:121-130 | an unvisited task without dependencies is appended to the order and marked visited |
| ResolverTheory.ResolveTwoDependencies | tests/test_config.py:86-106 | install, lint, test with test depending on both resolves to [install, lint, test] |
| ResolverTheory.ResolveMutualCycle | tests/test_config.py:108-123 | a ↔ b resolved from a fails with CyclicDependency(a) |
| TaskConfig.GetTask | src/pro_mgr/config.py:55-67 | the task is returned iff it is defined, and it is the defined one |
| TaskConfig.GetAllTasks | src/pro_mgr/config.py:70-80 | the table of all tasks answers every name exactly as get_task does |
| TaskConfig.MetadataDefaults | src/pro_mgr/config.py:215-219 | the defaults are name, version and description in that order |
| TaskConfig.GetProjectMetadata | src/pro_mgr/config.py:205-221 | the result holds the three defaults first, then the [project] keys, and [project] values win |
| TaskConfig.MetadataFallbacks | src/pro_mgr/config.py:215-221 | name falls back to "Unknown", version to "0.0.0", description to "" |
| ConfigValidation.ValidateConfig | src/pro_mgr/config.py:163-202 | the imperative validator returns exactly the specified warnings or error |
| ConfigValidation.CheckTasks | src/pro_mgr/config.py:185-192 | the per-task loop collects exactly the specified missing-command and undefined-dependency warnings |
| ConfigValidation.CheckCycles | src/pro_mgr/config.py:195-200 | the cycle loop stops at the first cycle with one warning, or propagates TaskNotFound |
| ConfigValidation.DepWarningsExact | src/pro_mgr/config.py:190-192 | a dependency warning is produced iff the dependency is listed and undefined |
| ConfigValidation.TaskWarningsExact | src/pro_mgr/config.py:185-192 | the task warnings are exactly the missing commands and undefined dependencies |
| ConfigValidation.CycleScanOutcome | src/pro_mgr/config.py:195-200 | the scan yields no warning when every task resolves, or one warning naming a task on a cycle, or raises TaskNotFound for a reachable undefined task |
| ConfigValidation.ValidateHeaderWarnings | src/pro_mgr/config.py:175-182 | the missing-[project] warning appears iff there is no [project] table, and the no-tasks warning iff there are no tasks |
| ConfigValidation.ValidateTaskWarnings | src/pro_mgr/config.py:184-192 | a missing-command warning appears iff the task has no command; an undefined-dependency warning appears iff the dependency is undefined |
| ConfigValidation.ValidateCycleWarning | src/pro_mgr/config.py:194-200 | a cycle warning can only be the last warning, and it names a task on a cycle |
| ConfigValidation.ValidateRaises | src/pro_mgr/config.py:194-200 | validation raises only TaskNotFound, for an undefined task reachable from a defined one |
| ConfigValidation.UndefinedDependencyRaises | src/pro_mgr/config.py:194-200 | without cycles, an undefined dependency makes validation raise rather than only warn |
| SnippetExpansion.TokenAt | src/pro_mgr/config.py:150 | a recognised reference has a non-empty name without `}` and really begins the text |
| SnippetExpansion.TokenAtComplete | src/pro_mgr/config.py:150 | every well-formed reference at the head of the text is recognised with its own name |
| SnippetExpansion.ExpandUnchanged | src/pro_mgr/config.py:150-160 | text with no reference to a known snippet is left unchanged |
| SnippetExpansion.ExpandPlainPrefix | src/pro_mgr/config.py:160 | text without `{` passes through and expansion continues after it |
| SnippetExpansion.ExpandReference | src/pro_mgr/config.py:152-158 | a reference is replaced by the snippet's content, or kept when unknown, and scanning resumes after it |
| SnippetExpansion.ExpandTrailingReference | src/pro_mgr/config.py:150-160 | plain text followed by one reference expands to the text plus the replacement |
| SnippetExpansion.ExpandGreeting | src/pro_mgr/config.py:136-160 | `echo {snip:greet}` with greet = "hello world" becomes `echo hello world` |
| SnippetExpansion.ExpandOnePass | src/pro_mgr/config.py:160 | replacements are not expanded again: a snippet whose content is a reference stays a reference |
| SnippetExpansion.ExpandEmptyName | src/pro_mgr/config.py:150 | `{snip:}` is not a reference and is left unchanged |
| SnippetLookup.CountedUsage | src/pro_mgr/db.py:237-240 | after looking up a list of names, each snippet's usage count has grown by the number of times it was looked up, and nothing else changed |
| SnippetLookup.CountedAppend | src/pro_mgr/db.py:237-240 | counting two lists of lookups in sequence equals counting their concatenation |
| SnippetLookup.ContentsUnchanged | src/pro_mgr/db.py:237-240 | lookups never change snippet contents |
| SnippetLookup.ReplaceSnippet | src/pro_mgr/config.py:152-158 | the callback returns the content or the original reference, and bumps that snippet's usage count |
| SnippetLookup.ExpandSnippets | src/pro_mgr/config.py:136-160 | the imperative scan returns the one-pass expansion over the contents before the call, and adds one use per reference to each snippet |
| SqlLike.PercentMatchesAll | src/pro_mgr/db.py:282 | `%` matches every string |
| SqlLike.PrefixThenAny | src/pro_mgr/db.py:282-287 | `q%` matches exactly the strings starting with q, ignoring ASCII case |
| SqlLike.AnyThen | src/pro_mgr/db.py:282-287 | `%r` matches iff some suffix matches r |
| SqlLike.SurroundedIsSubstring | src/pro_mgr/db.py:282-287 | for a query without `%` or `_`, `%q%` matches exactly the strings containing q, ignoring ASCII case |
| Ordering.Insert | src/pro_mgr/db.py:131 | insertion adds exactly one row and keeps the others |
| Ordering.Sort | src/pro_mgr/db.py:131 | sorting is a permutation of the rows |
| Ordering.InsertArranged | src/pro_mgr/db.py:131 | inserting into rows arranged by a total order keeps them arranged |
| Ordering.SortArranged | src/pro_mgr/db.py:131 | sorting yields an arrangement by the key that is a permutation of the input |
| Ordering.Query | src/pro_mgr/db.py:257-263 | a SELECT … WHERE … ORDER BY returns exactly the matching rows, each once, arranged by the key |
| Ordering.TextLeTotal | src/pro_mgr/db.py:404 | text order is total |
| Ordering.TextLeTransitive | src/pro_mgr/db.py:404 | text order is transitive |
| Ordering.TextLeAntisymmetric | src/pro_mgr/db.py:404 | text order is antisymmetric |
| Registry.Assign | src/pro_mgr/db.py:167-176 | the UPDATE sets exactly the named columns and keeps the rest; setting root_path to NULL fails with the NOT NULL constraint |
| Registry.AssignNothing | src/pro_mgr/db.py:167-176 | assigning no columns leaves the row unchanged |
| Registry.AssignTwice | src/pro_mgr/db.py:167-176 | applying the same update twice equals applying it once |
| Registry.AccessedNoEarlierTotal | src/pro_mgr/db.py:131 | ordering by last_accessed descending (NULLs last) is a total order |
| Registry.TagFilterIsSubstring | src/pro_mgr/db.py:257-260 | for a non-empty tag without `%` or `_`, the tag filter keeps exactly the snippets whose tags contain the tag, ignoring ASCII case |
| Registry.SearchFilterIsSubstring | src/pro_mgr/db.py:282-287 | for a query without `%` or `_`, search keeps exactly the snippets whose name, content or tags contain the query, ignoring ASCII case |
| Registry.SearchUnderscoreIsWildcard | src/pro_mgr/db.py:282-287 | the query is not escaped: `a_c` finds a snippet named `abc` although its name does not contain `a_c` |
| Registry.EmptySearchFindsAll | src/pro_mgr/db.py:282-287 | an empty query matches every snippet |
| Registry.Registry.constructor | src/pro_mgr/db.py:26-66 | a fresh database has empty projects, snippets and config tables |
| Registry.Registry.AddProject | src/pro_mgr/db.py:69-95 | adds the row with both timestamps set to now iff the name is new; otherwise nothing changes |
| Registry.Registry.UpdateProject | src/pro_mgr/db.py:156-180 | no fields or an unknown name → False with no change; otherwise the row becomes the assignment's result, or the constraint error with no change |
| Registry.Registry.GetProject | src/pro_mgr/db.py:98-119 | returns the row as it was before the call, and then stamps its last_accessed with now |
| Registry.Registry.GetAllProjects | src/pro_mgr/db.py:122-134 | returns every project once, most recently accessed first |
| Registry.Registry.DeleteProject | src/pro_mgr/db.py:137-153 | removes the row; True iff it existed |
| Registry.Registry.ProjectExists | src/pro_mgr/db.py:183-190 | True iff some project row has that name |
| Registry.Registry.DeleteThenGetProject | tests/test_db.py:66-72 | after deleting a project, getting it yields None |
| Registry.Registry.UpdateThenGetProject | tests/test_db.py:74-81 | after updating description and tags, getting the project yields the new values and the old root path |
| Registry.Registry.AddSnippet | src/pro_mgr/db.py:195-218 | adds the snippet with usage 0 iff the name is new |
| Registry.Registry.IncrementSnippetUsage | src/pro_mgr/db.py:345-356 | adds one to that snippet's usage count; an unknown name changes nothing |
| Registry.Registry.GetSnippet | src/pro_mgr/db.py:221-241 | returns the row as before the call, and increments its usage count |
| Registry.Registry.GetAllSnippets | src/pro_mgr/db.py:244-267 | returns exactly the snippets passing the optional tag filter, most used first |
| Registry.Registry.SearchSnippets | src/pro_mgr/db.py:270-290 | returns exactly the snippets matching the query in name, content or tags, most used first |
| Registry.Registry.UpdateSnippet | src/pro_mgr/db.py:293-323 | True iff something was given and the snippet exists; only the given fields change |
| Registry.Registry.DeleteSnippet | src/pro_mgr/db.py:326-342 | removes the snippet; True iff it existed |
| Registry.Registry.SetConfig | src/pro_mgr/db.py:359-374 | inserts or replaces the key's value |
| Registry.Registry.GetConfig | src/pro_mgr/db.py:377-392 | returns the value iff the key is set |
| Registry.Registry.GetAllConfig | src/pro_mgr/db.py:395-407 | returns every key with its value, keys in ascending order |
| Registry.Registry.DeleteConfig | src/pro_mgr/db.py:410-426 | removes the key; True iff it was set; projects and snippets are unchanged |
| Registry.DictOfRows | src/pro_mgr/db.py:407 | building a dict from distinct keyed rows keeps their order and values |
| Registry.TextLeTotal | src/pro_mgr/db.py:404 | ORDER BY key uses a total order |
| Runner.ActivatedEnv | src/pro_mgr/runner.py:39-69 | the activated environment keeps every other variable, drops PYTHONHOME, sets VIRTUAL_ENV, puts the scripts directory first on PATH, and points PIP_CACHE_DIR at the shared cache |
| Runner.ActivateVirtualenv | src/pro_mgr/runner.py:59-69 | the imperative environment copy yields exactly the activated environment |
| Runner.VenvEnv | src/pro_mgr/runner.py:234-236 | an environment is built iff the project has a non-empty venv path that exists |
| Runner.Completed | src/pro_mgr/runner.py:114-126 | a run fails iff it outlasted its timeout |
| Runner.RunSingleTask | src/pro_mgr/runner.py:156-184 | the command is expanded (counting snippet uses) and run in the given directory and environment; the result is its exit code or the timeout error |
| Runner.RunOrder | src/pro_mgr/runner.py:245-260 | the loop yields exactly the specified fail-fast run, and counts each snippet use |
| Runner.RunTask | src/pro_mgr/runner.py:187-260 | run_task yields exactly the specified run, stamps the project's last access, and counts the snippet uses of the commands it ran |
| RunnerTheory.RunnableSkip | src/pro_mgr/runner.py:246-248 | absent tasks and empty task tables are skipped |
| RunnerTheory.RunPlanRunsRunnable | src/pro_mgr/runner.py:245-260 | running the order equals running only its runnable tasks |
| RunnerTheory.FailFastAfterPass | src/pro_mgr/runner.py:252-258 | after a passing task, the run continues with the next one |
| RunnerTheory.RunTasksShape | src/pro_mgr/runner.py:245-260 | the runner runs the longest passing prefix, plus the first failing task, and stops there |
| RunnerTheory.RunPlanShape | src/pro_mgr/runner.py:245-260 | the same fail-fast shape over the runnable tasks of the resolved order |
| RunnerTheory.RunPlanRaisesOnlyTimeouts | src/pro_mgr/runner.py:252-258 | during execution the only error raised is a timeout |
| RunnerTheory.RunTaskChecksInOrder | src/pro_mgr/runner.py:207-224 | missing project, missing config file and missing task each fail with their own message before anything runs |
| RunnerTheory.DirtyGate | src/pro_mgr/runner.py:227-231 | the dirty-tree error occurs iff the task requires a clean tree, force is off and the tree is dirty; then nothing runs |
| RunnerTheory.DirtyNotConsulted | src/pro_mgr/runner.py:227-228 | when the gate does not apply, git status does not influence the run |
| RunnerTheory.ResolutionErrors | src/pro_mgr/runner.py:239-242 | a cycle becomes RunnerError and a missing dependency becomes TaskNotFoundError, before anything runs |
| RunnerTheory.SameDirectoryAndEnvironment | src/pro_mgr/runner.py:234-252 | every command runs in the project root with the project's virtualenv environment |
| RunnerTheory.RunsInDependencyOrder | src/pro_mgr/runner.py:239-245 | the execution order lists dependencies first and ends with the requested task |
| RunnerTheory.RunsFailFast | src/pro_mgr/runner.py:245-260 | run_task is the fail-fast run of the runnable tasks; it returns 0 iff every one of them passes |
| Text.StripIsTrimmedSlice | src/pro_mgr/watcher.py:137 | strip returns a contiguous slice with no surrounding whitespace, where whitespace is Python's `str.isspace` set, Unicode spaces included |
| Text.UnicodeSpaceStripped | src/pro_mgr/watcher.py:137 | an ideographic space and a line separator at the ends of a line are stripped like ASCII spaces |
| Text.ReplaceAbsent | src/pro_mgr/scaffold.py:162 | replacing an absent pattern leaves the text unchanged |
| Text.JoinAppend | src/pro_mgr/cli.py:304 | joining two non-empty line lists equals joining each and separating them once |
| Glob.PlainMatchesItself | src/pro_mgr/watcher.py:49-53 | a pattern without wildcards matches exactly itself |
| Glob.StarMatchesAll | src/pro_mgr/watcher.py:69-71 | `*` matches every name |
| Glob.QuestionMatchesOneChar | src/pro_mgr/watcher.py:49-53 | `?` matches exactly the one-character names |
| Glob.StarSuffix | src/pro_mgr/watcher.py:69-71 | `*suffix` matches exactly the names ending in suffix |
| Glob.ClassExample | src/pro_mgr/watcher.py:49-53 | character classes, negated classes, ranges and an unclosed `[` behave as fnmatch's do |
| Watcher.UserPatternIgnores | src/pro_mgr/watcher.py:49-53 | a path is ignored when a user pattern matches its basename or the whole path |
| Watcher.CacheAndRepositoryPathsIgnored | src/pro_mgr/watcher.py:69-73 | any path containing .git, venv or __pycache__ is ignored |
| Watcher.StarEntryIgnores | src/pro_mgr/watcher.py:56-71 | a basename ending in the suffix of a built-in `*suffix` entry is ignored |
| Watcher.CompiledFilesIgnored | src/pro_mgr/watcher.py:56-71 | files ending in .pyc are ignored |
| Watcher.SwapFilesIgnored | src/pro_mgr/watcher.py:56-71 | files ending in .swp are ignored |
| Watcher.BackupFilesIgnored | src/pro_mgr/watcher.py:56-71 | files ending in ~ are ignored |
| Watcher.CancelSlot | src/pro_mgr/watcher.py:79-80 | cancelling marks the current timer cancelled if it is pending and touches no other timer |
| Watcher.Schedule | src/pro_mgr/watcher.py:77-83 | scheduling leaves exactly one pending timer, the new one |
| Watcher.OnEvent | src/pro_mgr/watcher.py:100-111 | directory events and ignored paths change nothing; any other event records the path and restarts the debounce timer |
| Watcher.Fire | src/pro_mgr/watcher.py:85-98 | only a pending timer has an effect: it clears the pending paths and runs the callback iff there were any |
| Watcher.Stopped | src/pro_mgr/watcher.py:113-117 | after stop no timer is pending |
| Watcher.StoppedNeverFires | src/pro_mgr/watcher.py:113-117 | no timer fires after stop |
| Watcher.Events | src/pro_mgr/watcher.py:100-111 | a sequence of events keeps the handler invariant |
| Watcher.BurstLeavesOneTimer | src/pro_mgr/watcher.py:77-111 | after a burst of relevant events, every path is pending and only the last timer is live |
| Watcher.BurstRunsCallbackOnce | src/pro_mgr/watcher.py:77-98 | after a burst, only the last timer runs the callback, exactly once, and every other timer does nothing |
| Watcher.SummaryOf | src/pro_mgr/watcher.py:88-96 | the summary counts all changes, shows the first five basenames, and reports the rest as "more" |
| Watcher.DebouncedHandler.constructor | src/pro_mgr/watcher.py:37-42 | a new handler has no pending paths, no timer and the given patterns and delay |
| Watcher.DebouncedHandler.ScheduleCallback | src/pro_mgr/watcher.py:77-83 | the method's state change is exactly Schedule |
| Watcher.DebouncedHandler.OnAnyEvent | src/pro_mgr/watcher.py:100-111 | the method's state change is exactly OnEvent |
| Watcher.DebouncedHandler.TriggerCallback | src/pro_mgr/watcher.py:85-98 | clears the pending paths; when there were any, prints one summary of them and counts one callback |
| Watcher.DebouncedHandler.TimerFires | src/pro_mgr/watcher.py:81-98 | a timer firing has exactly Fire's effect on the state |
| Watcher.DebouncedHandler.Stop | src/pro_mgr/watcher.py:113-117 | the method's state change is exactly Stopped |
| Watcher.KeptTail | src/pro_mgr/watcher.py:137-140 | a .gitignore line is kept, stripped, iff it is non-empty and not a comment |
| Watcher.KeptPatternsSound | src/pro_mgr/watcher.py:136-140 | every loaded pattern is a stripped, non-empty, non-comment line of the file |
| Watcher.KeptPatternsComplete | src/pro_mgr/watcher.py:136-140 | every non-empty, non-comment line is loaded |
| Watcher.LoadGitignorePatterns | src/pro_mgr/watcher.py:120-144 | no file gives no patterns; otherwise the loop yields exactly the kept lines in order |
| Watcher.ExistingUnderExact | src/pro_mgr/watcher.py:221-230 | the existing-directory filter keeps exactly the candidates that exist |
| Watcher.WatchDirsNeverEmpty | src/pro_mgr/watcher.py:206-231 | the watch list is never empty: either exactly the existing candidates, or the base directory when none exists |
| Watcher.ResolveWatchDirs | src/pro_mgr/watcher.py:206-231 | the imperative loop yields exactly the specified watch list |
| Watcher.WatchAndExecute | src/pro_mgr/watcher.py:147-203 | the .gitignore patterns are used only when a project path is given; every existing directory is watched in order, the task runs once before the observer starts, and the handler ends stopped after processing the delivered events |
| Scaffold.BuiltinDefaults | src/pro_mgr/scaffold.py:38-44 | the built-in variables are author, email, license (MIT), description and python_version (3.10), in that order |
| Scaffold.DefaultVariables | src/pro_mgr/scaffold.py:26-64 | the variables are the built-ins first, then the configured keys |
| Scaffold.Configured | src/pro_mgr/scaffold.py:46-54 | configured [defaults] values override the built-ins and add new keys |
| Scaffold.Override | src/pro_mgr/scaffold.py:56-62 | a set, non-empty environment variable replaces one value and nothing else |
| Scaffold.DefaultVariablesPrecedence | src/pro_mgr/scaffold.py:38-64 | each variable takes the environment value if set, else the configured one, else the built-in one |
| Scaffold.OverridePrecedence | src/pro_mgr/scaffold.py:56-62 | the three environment overrides affect exactly author, email and license |
| Scaffold.Underscored | src/pro_mgr/scaffold.py:144 | name_underscore is the name with every `-` replaced by `_` |
| Scaffold.Variables | src/pro_mgr/scaffold.py:137-144 | the substitution map is defaults, then user variables overriding them, then name and name_underscore |
| Scaffold.SubstituteVariables | src/pro_mgr/scaffold.py:161-162 | the substitution loop replaces placeholders key by key in the map's order |
| Scaffold.ReplaceWithoutBrace | src/pro_mgr/scaffold.py:162 | text without `{` is untouched by any placeholder replacement |
| Scaffold.SubstituteWithoutBraces | src/pro_mgr/scaffold.py:159-163 | text without `{` is copied unchanged |
| Scaffold.ReplaceSole | src/pro_mgr/scaffold.py:162 | a single occurrence of a pattern whose first character occurs nowhere else is replaced by the value |
| Scaffold.ReplaceOnePlaceholder | src/pro_mgr/scaffold.py:162 | one `{{key}}` in brace-free text is replaced by the value |
| Scaffold.OnlyOwnPlaceholder | src/pro_mgr/scaffold.py:161-162 | brace-free text around `{{key}}` contains no other key's placeholder |
| Scaffold.SubstituteOnePlaceholder | src/pro_mgr/scaffold.py:161-162 | with brace-free keys and values, a file with one `{{key}}` receives exactly that key's value |
| Scaffold.SubstituteInMapOrder | src/pro_mgr/scaffold.py:161-162 | a value containing a placeholder is itself substituted only when its key comes later in the map |
| Scaffold.PackageDirName | src/pro_mgr/scaffold.py:150-153 | a directory named `__name__` becomes the underscored project name |
| Scaffold.FileNamedLikePackage | src/pro_mgr/scaffold.py:147-153 | a file named `__name__` keeps its name |
| Scaffold.NamePlaceholderInEntryName | src/pro_mgr/scaffold.py:147 | `{{name}}` in an entry name becomes the project name |
| Scaffold.CopiedEntry | src/pro_mgr/scaffold.py:146-166 | each copied entry gets its destination name and keeps its kind |
| Scaffold.CopyEntry | src/pro_mgr/scaffold.py:146-166 | copying one entry (recursing into directories) yields exactly the specified copy |
| Scaffold.CopyTemplate | src/pro_mgr/scaffold.py:127-166 | the copy loop yields exactly the specified tree |
| Scaffold.CopiedNames | src/pro_mgr/scaffold.py:146-155 | the copy keeps entry order and kinds, with every name renamed as specified |
| Scaffold.AvailableList | src/pro_mgr/scaffold.py:108-111 | the error lists the template names, or "none" when there are none |
| Scaffold.StructureError | src/pro_mgr/scaffold.py:104-117 | for a template given by its bare name, a name that is not an installed template or an existing destination is the only error, with the source's message |
| Scaffold.CreateProjectStructure | src/pro_mgr/scaffold.py:87-124 | for a template given by its bare name, fails iff it is not an installed template or the path exists; otherwise returns the project path and the copied tree |
| Scaffold.VenvPython | src/pro_mgr/scaffold.py:327-342 | the interpreter lies in the platform's scripts directory of the virtualenv |
| Scaffold.DetectVenv | src/pro_mgr/scaffold.py:345-370 | returns the first of .venv, venv, .env, env that holds an interpreter, or none iff none does |
| Scaffold.FirstWhere | src/pro_mgr/scaffold.py:365-370 | the loop returns the first candidate satisfying the test, or none iff no candidate does |
| Scaffold.CreateProject | src/pro_mgr/scaffold.py:373-422 | for a template given by its bare name, creates the structure or fails as specified; on success it reports git and venv as requested and successful, and registers a new name |
| InitHelpers.AssignAll | src/pro_mgr/cli.py:200-269 | the assignment loop adds one detector's suggestions in order, later names overriding |
| InitHelpers.Detect | src/pro_mgr/cli.py:199-269 | a detector contributes its suggestions iff its marker file is present |
| InitHelpers.DetectProjectTasks | src/pro_mgr/cli.py:195-282 | the detection code yields exactly the specified proposal table |
| InitHelpers.ProposalsMade | src/pro_mgr/cli.py:271-282 | when any marker is present, the result is exactly the detectors' proposals |
| InitHelpers.SuggestionsWatch | src/pro_mgr/cli.py:199-269 | only Python's test suggestion names watch directories |
| InitHelpers.SuggestionNames | src/pro_mgr/cli.py:199-269 | each detector proposes its characteristic tasks |
| InitHelpers.LaterUnwatched | src/pro_mgr/cli.py:215-262 | no suggestion after the Python detector has watch directories |
| InitHelpers.PlaceholderDict | src/pro_mgr/cli.py:272-280 | the fallback table is test then build, with their echo placeholders |
| InitHelpers.PlaceholdersIffNothingDetected | src/pro_mgr/cli.py:271-282 | the placeholder table is returned iff no marker file is present |
| InitHelpers.MakefileForcesBuild | src/pro_mgr/cli.py:264-269 | with a Makefile, build is `make` whatever else was detected |
| InitHelpers.PythonTestValue | src/pro_mgr/cli.py:200-205 | Python's test suggestion watches src/ and tests/ |
| InitHelpers.PythonTestWatches | src/pro_mgr/cli.py:199-205 | when only Python fires among the test proposers, test watches src/ and tests/ |
| InitHelpers.LaterTestUnwatched | src/pro_mgr/cli.py:215-262 | a later Node, Go or Rust test suggestion overrides Python's and has no watch directories |
| InitHelpers.WatchDirsOnlyOnPythonTest | src/pro_mgr/cli.py:199-262 | any proposal with watch directories is Python's test, and no later detector fired |
| InitHelpers.Quoted | src/pro_mgr/cli.py:289 | a quoted value is the text between two double quotes |
| InitHelpers.QuotedAll | src/pro_mgr/cli.py:300 | each watch directory is quoted in order |
| InitHelpers.AppendTask | src/pro_mgr/cli.py:296-302 | appending one task adds its header, command, description and optional watch line |
| InitHelpers.AppendTasks | src/pro_mgr/cli.py:295-302 | the task loop appends every task's block in table order |
| InitHelpers.GenerateInitConfig | src/pro_mgr/cli.py:285-304 | the generated text is the specified lines joined by newlines |
| InitHelpers.ProjectTable | src/pro_mgr/cli.py:287-293 | the text starts with the [project] table and the quoted name |
| InitHelpers.HeaderText | src/pro_mgr/cli.py:287-293 | the header lines join to the [project] table text |
| InitHelpers.ConfigText | src/pro_mgr/cli.py:285-304 | the text is the [project] table, followed by the task blocks when there are tasks |
| InitHelpers.TaskSection | src/pro_mgr/cli.py:295-302 | each task's four lines are its [tasks.name] header, quoted command, quoted description and optional watch_dirs |
| OrderedDict.Dict.Set | src/pro_mgr/scaffold.py:143-144 | assignment keeps an existing key's position and appends a new key at the end |
| OrderedDict.Dict.Update | src/pro_mgr/scaffold.py:142 | update merges values with the argument winning and keeps the existing key order as a prefix |
| OrderedDict.Dict.Items | src/pro_mgr/cli.py:295 | items lists every key with its value in insertion order |
| OrderedDict.FromPairsEntries | src/pro_mgr/cli.py:197-269 | building a dict by successive assignments holds each key's last assigned value |

## Left out

- Registry.Registry.UpdateProject: renaming a project (`name` as a field) and unknown column names are not modelled. Columns are a closed enumeration, so the SQL errors for unknown columns cannot arise.
- Registry.Registry.GetAllProjects: ORDER BY ties and the order of rows with equal keys are left open. The contract states only that the rows respect the key, as SQLite promises no more.
- Timestamps (CURRENT_TIMESTAMP, datetime.now()) are a `now` parameter, and durations are whole seconds.
- Runner.RunSingleTask: the subprocess is an oracle from call index to exit code and duration. Output streaming, shell semantics and signal handling are not modelled.
- execute_command_capture, get_shell_activation_command, detect_shell and the interactive shell launcher are not part of this model. They only start processes or format text for a shell.
- TOML parsing and load_config are not modelled. A config file is given already parsed, or as unparsable.
- Path resolution (Path.resolve, expanduser, symlinks) is not modelled. Paths are joined textually by `Paths.Join`, which does not apply pathlib's normalisation of the base: `.` segments, doubled or trailing separators are kept, and an empty base gives `/rel` where pathlib gives `rel`.
- Scaffold.StructureError, Scaffold.CreateProjectStructure, Scaffold.CreateProject: only a template given by the bare name of an installed template directory is modelled; the template is looked up by name among the installed templates. The source builds `templates_dir / template` and accepts any path that exists, so an absolute directory, a nested path, `""`, `.` or `..` passes its check there (and is copied from), which the model reports as TemplateNotFound.
- DependencyResolver.Dfs, ResolverTheory.ResolveSucceedsIff: Python's recursion limit (about 1000 nested calls) is not modelled; a `depends_on` chain deeper than that raises RecursionError in the source but resolves in the model.
- Scaffold.CreateProject: the text of the generated .gitignore, the pip.conf written into a new virtualenv, and the internals of `git init` and `python -m venv` are left out. Each is a success flag.
- Scaffold.CopyEntry: binary files are copied as opaque content. A template path that is a file rather than a directory, and colliding destination names, are not modelled.
- Scaffold.Configured: non-string values in the [defaults] table are not modelled. Values are strings.
- Scaffold.CreateProjectStructure: the default variables are computed once per call. The source recomputes them per directory, but they cannot change during a copy.
- InitHelpers.GenerateInitConfig: like the source, it does not escape quotes or backslashes inside commands and descriptions. Such values produce invalid TOML in both.
- Watcher.ShouldIgnore, Glob.Match: the ignore filter is modelled for POSIX paths only. On Windows, `fnmatch` folds case through `os.path.normcase` and `Path(path).name` also splits on `\`, so there `C:\p\Foo.PYC` is ignored, but the model does not capture this. The runner and the scaffolding do model Windows paths.
- Watcher: threads, wall-clock time, the watchdog Observer and the float debounce delay are not modelled. Timer expiry is an explicit `TimerFires` step, and the observer's lifecycle is a list of steps.
- The curses TUI (tui.py) and the click command wrappers in cli.py are not part of this model. They only parse arguments and print.
