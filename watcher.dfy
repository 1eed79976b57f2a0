/**
 * `watcher.py`: the ignore filter, the debounced event handler, the `.gitignore` reader,
 * the choice of directories to watch and the control order of `watch_and_execute`.
 *
 * The handler is a state machine over the set of pending paths, the timers it has
 * started (each pending, cancelled or fired) and the one timer slot `_timer`; the
 * callback is a counter. `HandlerState` and its step functions state it; the class
 * `DebouncedHandler` is the handler as the source writes it, each method proved to take
 * the step its function names. Threads and real time are not modelled: a timer firing is
 * a call naming the timer.
 */
module Watcher {
  import opened Wrappers
  import opened Text
  import opened Paths
  import opened Glob

  /** The `always_ignore` list, in order. */
  const AlwaysIgnore: seq<string> :=
    ["__pycache__", ".git", ".venv", "venv", "*.pyc", "*.pyo", ".DS_Store", "*.swp", "*.swo", "*~"]

  /**
   * `_should_ignore(path)`: a user pattern that globs the file name or the whole path, or a
   * built-in entry that globs the file name or occurs literally in the path.
   */
  function ShouldIgnore(patterns: seq<string>, path: string): bool {
    var name := Basename(path);
    || (exists i :: 0 <= i < |patterns| && (Match(patterns[i], name) || Match(patterns[i], path)))
    || (exists i :: 0 <= i < |AlwaysIgnore| && (Match(AlwaysIgnore[i], name) || Contains(path, AlwaysIgnore[i])))
  }

  /** A user pattern matching the name or the path ignores it. */
  lemma UserPatternIgnores(patterns: seq<string>, path: string, i: nat)
    requires i < |patterns| && (Match(patterns[i], Basename(path)) || Match(patterns[i], path))
    ensures ShouldIgnore(patterns, path)
  {
  }

  /** Any path containing `.git`, `venv` or `__pycache__` is ignored, whatever the user patterns. */
  lemma CacheAndRepositoryPathsIgnored(patterns: seq<string>, path: string)
    requires Contains(path, ".git") || Contains(path, "venv") || Contains(path, "__pycache__")
    ensures ShouldIgnore(patterns, path)
  {
    assert AlwaysIgnore[0] == "__pycache__" && AlwaysIgnore[1] == ".git" && AlwaysIgnore[3] == "venv";
  }

  /** A built-in `*<suffix>` entry ignores every file whose name ends in the suffix. */
  lemma StarEntryIgnores(patterns: seq<string>, path: string, i: nat, suffix: string)
    requires i < |AlwaysIgnore| && AlwaysIgnore[i] == "*" + suffix && Plain(suffix)
    requires EndsWith(Basename(path), suffix)
    ensures ShouldIgnore(patterns, path)
  {
    var name := Basename(path);
    StarSuffix(suffix, name);
    BuiltinMatchIgnores(patterns, path, i);
  }

  /** A built-in entry that globs the file name ignores the path. */
  lemma BuiltinMatchIgnores(patterns: seq<string>, path: string, i: nat)
    requires i < |AlwaysIgnore| && Match(AlwaysIgnore[i], Basename(path))
    ensures ShouldIgnore(patterns, path)
  {
  }

  /** Compiled Python files are ignored by name, wherever they are. */
  lemma CompiledFilesIgnored(patterns: seq<string>, path: string)
    requires EndsWith(Basename(path), ".pyc")
    ensures ShouldIgnore(patterns, path)
  {
    StarEntryIgnores(patterns, path, 4, ".pyc");
  }

  /** Editor swap files are ignored by name, wherever they are. */
  lemma SwapFilesIgnored(patterns: seq<string>, path: string)
    requires EndsWith(Basename(path), ".swp")
    ensures ShouldIgnore(patterns, path)
  {
    StarEntryIgnores(patterns, path, 7, ".swp");
  }

  /** Editor backup files (`name~`) are ignored by name, wherever they are. */
  lemma BackupFilesIgnored(patterns: seq<string>, path: string)
    requires EndsWith(Basename(path), "~")
    ensures ShouldIgnore(patterns, path)
  {
    StarEntryIgnores(patterns, path, 9, "~");
  }

  /** What a timer started by `_schedule_callback` has become. */
  datatype TimerState = Pending | Cancelled | Fired

  /**
   * `_pending_events`, every timer the handler has started (indexed by start order),
   * the `_timer` slot (the index of the timer it holds), and how often the callback ran.
   */
  datatype HandlerState = HandlerState(
    pending: set<string>,
    timers: seq<TimerState>,
    slot: Option<nat>,
    callbacks: nat)

  /** At most one timer is pending, and it is the one in the slot. */
  ghost predicate Inv(st: HandlerState) {
    && (st.slot.Some? ==> st.slot.value < |st.timers|)
    && forall i :: 0 <= i < |st.timers| && st.timers[i].Pending? ==> st.slot == Some(i)
  }

  /** `self._timer.cancel()` when the slot holds a timer: a pending one will never fire. */
  function CancelSlot(timers: seq<TimerState>, slot: Option<nat>): (r: seq<TimerState>)
    ensures |r| == |timers|
    ensures forall i :: 0 <= i < |r| ==> r[i] == (if slot == Some(i) && timers[i].Pending? then Cancelled else timers[i])
  {
    if slot.Some? && slot.value < |timers| && timers[slot.value].Pending? then timers[slot.value := Cancelled]
    else timers
  }

  /** `_schedule_callback`: cancel the slot's timer, start a new one and put it in the slot. */
  function Schedule(st: HandlerState): (r: HandlerState)
    requires Inv(st)
    ensures Inv(r)
    ensures r.pending == st.pending && r.callbacks == st.callbacks
    ensures |r.timers| == |st.timers| + 1 && r.slot == Some(|st.timers|)
    ensures forall i :: 0 <= i < |r.timers| ==> (r.timers[i].Pending? <==> i == |st.timers|)
  {
    st.(timers := CancelSlot(st.timers, st.slot) + [Pending], slot := Some(|st.timers|))
  }

  /**
   * `on_any_event`: a directory event or an ignored path changes nothing; any other path
   * joins the pending set and restarts the debounce timer.
   */
  function OnEvent(st: HandlerState, patterns: seq<string>, path: string, isDirectory: bool): (r: HandlerState)
    requires Inv(st)
    ensures Inv(r)
    ensures isDirectory || ShouldIgnore(patterns, path) ==> r == st
    ensures !isDirectory && !ShouldIgnore(patterns, path) ==>
      && r.pending == st.pending + {path}
      && r.callbacks == st.callbacks
      && r.slot == Some(|st.timers|) && |r.timers| == |st.timers| + 1
      && forall i :: 0 <= i < |r.timers| ==> (r.timers[i].Pending? <==> i == |st.timers|)
  {
    if isDirectory || ShouldIgnore(patterns, path) then st
    else Schedule(st.(pending := st.pending + {path}))
  }

  /**
   * Timer `id` reaching its deadline: a cancelled or already fired timer does nothing;
   * a pending one fires and runs `_trigger_callback`, which with pending paths empties the
   * set and runs the callback once, and with none does nothing more.
   */
  function Fire(st: HandlerState, id: nat): (r: HandlerState)
    requires Inv(st)
    ensures Inv(r)
    ensures r.slot == st.slot && |r.timers| == |st.timers|
    ensures !(id < |st.timers| && st.timers[id].Pending?) ==> r == st
    ensures id < |st.timers| && st.timers[id].Pending? ==>
      && r.timers == st.timers[id := Fired]
      && r.pending == {}
      && r.callbacks == st.callbacks + (if st.pending == {} then 0 else 1)
  {
    if id < |st.timers| && st.timers[id].Pending? then
      var fired := st.(timers := st.timers[id := Fired]);
      if st.pending != {} then fired.(pending := {}, callbacks := st.callbacks + 1) else fired
    else st
  }

  /** `stop`: cancel the slot's timer and empty the slot. */
  function Stopped(st: HandlerState): (r: HandlerState)
    requires Inv(st)
    ensures Inv(r) && r.slot == None
    ensures r.pending == st.pending && r.callbacks == st.callbacks
    ensures forall i :: 0 <= i < |r.timers| ==> !r.timers[i].Pending?
  {
    if st.slot.Some? then st.(timers := CancelSlot(st.timers, st.slot), slot := None) else st
  }

  /** Once stopped, no timer can fire: every firing leaves the state as it is. */
  lemma StoppedNeverFires(st: HandlerState, id: nat)
    requires Inv(st)
    ensures Fire(Stopped(st), id) == Stopped(st)
  {
  }

  /** A run of file events, each `(path, is_directory)`. */
  function Events(st: HandlerState, patterns: seq<string>, evs: seq<(string, bool)>): (r: HandlerState)
    requires Inv(st)
    ensures Inv(r)
    decreases |evs|
  {
    if |evs| == 0 then st
    else Events(OnEvent(st, patterns, evs[0].0, evs[0].1), patterns, evs[1..])
  }

  /** Events that the handler keeps: files, not ignored. */
  predicate Qualifying(patterns: seq<string>, evs: seq<(string, bool)>) {
    forall i :: 0 <= i < |evs| ==> !evs[i].1 && !ShouldIgnore(patterns, evs[i].0)
  }

  /**
   * Debouncing: after a burst of kept events the pending set holds every path of the
   * burst (duplicates once), no callback has run, and exactly one timer is pending, the
   * newest, which is in the slot.
   */
  lemma {:induction false} BurstLeavesOneTimer(st: HandlerState, patterns: seq<string>, evs: seq<(string, bool)>)
    requires Inv(st) && |evs| > 0 && Qualifying(patterns, evs)
    ensures var r := Events(st, patterns, evs);
      && r.pending == st.pending + (set i | 0 <= i < |evs| :: evs[i].0)
      && r.callbacks == st.callbacks
      && |r.timers| == |st.timers| + |evs|
      && r.slot == Some(|r.timers| - 1)
      && forall i :: 0 <= i < |r.timers| ==> (r.timers[i].Pending? <==> i == |r.timers| - 1)
    decreases |evs|
  {
    var st1 := OnEvent(st, patterns, evs[0].0, evs[0].1);
    var paths := set i | 0 <= i < |evs| :: evs[i].0;
    if |evs| == 1 {
      assert paths == {evs[0].0};
    } else {
      var rest := evs[1..];
      assert Qualifying(patterns, rest) by {
        forall i | 0 <= i < |rest| ensures !rest[i].1 && !ShouldIgnore(patterns, rest[i].0) {
          assert rest[i] == evs[i + 1];
        }
      }
      BurstLeavesOneTimer(st1, patterns, rest);
      var restPaths := set i | 0 <= i < |rest| :: rest[i].0;
      assert paths == {evs[0].0} + restPaths by {
        forall p | p in paths ensures p in {evs[0].0} + restPaths {
          var i :| 0 <= i < |evs| && evs[i].0 == p;
          if i > 0 { assert rest[i - 1] == evs[i]; }
        }
        forall p | p in restPaths ensures p in paths {
          var i :| 0 <= i < |rest| && rest[i].0 == p;
          assert evs[i + 1] == rest[i];
        }
      }
    }
  }

  /**
   * ... and when the quiet period ends only that newest timer fires: the callback runs
   * exactly once for the whole burst and the pending set is emptied; every earlier timer
   * of the burst was cancelled and does nothing.
   */
  lemma BurstRunsCallbackOnce(st: HandlerState, patterns: seq<string>, evs: seq<(string, bool)>, id: nat)
    requires Inv(st) && |evs| > 0 && Qualifying(patterns, evs)
    ensures var r := Events(st, patterns, evs);
      && (id == |r.timers| - 1 ==> Fire(r, id).callbacks == st.callbacks + 1 && Fire(r, id).pending == {})
      && (id != |r.timers| - 1 ==> Fire(r, id) == r)
  {
    BurstLeavesOneTimer(st, patterns, evs);
    assert evs[0].0 in Events(st, patterns, evs).pending;
  }

  /** What `_trigger_callback` prints: the count, up to five file names, and how many more. */
  datatype Summary = Summary(count: nat, shown: seq<string>, more: Option<nat>)

  /** The summary for the changed files listed in the order `listing`. */
  function SummaryOf(listing: seq<string>): (s: Summary)
    ensures s.count == |listing|
    ensures |s.shown| <= 5 && |s.shown| == if |listing| < 5 then |listing| else 5
    ensures forall i :: 0 <= i < |s.shown| ==> s.shown[i] == Basename(listing[i])
    ensures s.more.Some? <==> |listing| > 5
    ensures s.more.Some? ==> |s.shown| + s.more.value == s.count
  {
    var first := if |listing| < 5 then listing else listing[..5];
    Summary(|listing|, seq(|first|, i requires 0 <= i < |first| => Basename(first[i])),
            if |listing| > 5 then Some(|listing| - 5) else None)
  }

  /** `listing` enumerates the set `s` once each, as `list(s)` does in some order. */
  ghost predicate Lists(listing: seq<string>, s: set<string>) {
    && (forall x :: x in listing <==> x in s)
    && (forall i, j :: 0 <= i < j < |listing| ==> listing[i] != listing[j])
  }

  class DebouncedHandler {
    const debounceMs: int
    const ignorePatterns: seq<string>
    var timer: Option<nat>
    var timers: seq<TimerState>
    var pendingEvents: set<string>
    var callbacks: nat
    /** The summaries printed so far. */
    var printed: seq<Summary>

    function State(): HandlerState
      reads this
    {
      HandlerState(pendingEvents, timers, timer, callbacks)
    }

    ghost predicate Valid()
      reads this
    {
      Inv(State())
    }

    /** `__init__`: no timer, nothing pending; `ignore_patterns or []`. */
    constructor(debounceMs: int, ignorePatterns: Option<seq<string>>)
      ensures Valid() && State() == HandlerState({}, [], None, 0) && printed == []
      ensures this.ignorePatterns == ignorePatterns.GetOr([]) && this.debounceMs == debounceMs
    {
      this.debounceMs := debounceMs;
      this.ignorePatterns := ignorePatterns.GetOr([]);
      timer := None;
      timers := [];
      pendingEvents := {};
      callbacks := 0;
      printed := [];
    }

    method ScheduleCallback()
      requires Valid()
      modifies this
      ensures Valid() && State() == Schedule(old(State())) && printed == old(printed)
    {
      if timer.Some? {
        if timers[timer.value].Pending? {
          timers := timers[timer.value := Cancelled];
        }
      }
      timers := timers + [Pending];
      timer := Some(|timers| - 1);
    }

    method OnAnyEvent(path: string, isDirectory: bool)
      requires Valid()
      modifies this
      ensures Valid() && State() == OnEvent(old(State()), ignorePatterns, path, isDirectory)
      ensures printed == old(printed)
    {
      if isDirectory {
        return;
      }
      if ShouldIgnore(ignorePatterns, path) {
        return;
      }
      pendingEvents := pendingEvents + {path};
      ScheduleCallback();
    }

    /**
     * `_trigger_callback`: with pending paths, list them (in whatever order the set
     * yields), clear the set, print the summary and run the callback.
     */
    method TriggerCallback()
      modifies this
      ensures timer == old(timer) && timers == old(timers)
      ensures pendingEvents == {}
      ensures callbacks == old(callbacks) + (if old(pendingEvents) == {} then 0 else 1)
      ensures old(pendingEvents) == {} ==> printed == old(printed)
      ensures old(pendingEvents) != {} ==>
        exists listing :: Lists(listing, old(pendingEvents)) && printed == old(printed) + [SummaryOf(listing)]
    {
      if pendingEvents != {} {
        var changed: seq<string> := [];
        var rest := pendingEvents;
        while rest != {}
          invariant rest <= pendingEvents
          invariant forall x :: x in changed <==> x in pendingEvents && x !in rest
          invariant forall i, j :: 0 <= i < j < |changed| ==> changed[i] != changed[j]
          decreases |rest|
        {
          var f :| f in rest;
          changed := changed + [f];
          rest := rest - {f};
        }
        pendingEvents := {};
        printed := printed + [SummaryOf(changed)];
        callbacks := callbacks + 1;
      }
    }

    /** The timer `id` reaching its deadline; only a timer that was not cancelled runs. */
    method TimerFires(id: nat)
      requires Valid()
      modifies this
      ensures Valid() && State() == Fire(old(State()), id)
      ensures State() == old(State()) || old(pendingEvents) == {} ==> printed == old(printed)
      ensures State() != old(State()) && old(pendingEvents) != {} ==>
        exists listing :: Lists(listing, old(pendingEvents)) && printed == old(printed) + [SummaryOf(listing)]
    {
      if id < |timers| && timers[id].Pending? {
        timers := timers[id := Fired];
        TriggerCallback();
      }
    }

    method Stop()
      requires Valid()
      modifies this
      ensures Valid() && State() == Stopped(old(State())) && printed == old(printed)
    {
      if timer.Some? {
        if timers[timer.value].Pending? {
          timers := timers[timer.value := Cancelled];
        }
        timer := None;
      }
    }
  }

  /** The pattern a `.gitignore` line contributes: its stripped text unless empty or a comment. */
  function KeptTail(line: string): (r: seq<string>)
    ensures forall x :: x in r ==> x == Strip(line) && x != "" && x[0] != '#'
    ensures Strip(line) != "" && Strip(line)[0] != '#' ==> r == [Strip(line)]
  {
    var stripped := Strip(line);
    StartsWithChar(stripped, '#');
    if stripped != "" && !StartsWith(stripped, "#") then [stripped] else []
  }

  /** The patterns kept from the `.gitignore` lines `lines`. */
  function KeptPatterns(lines: seq<string>): seq<string> {
    if |lines| == 0 then []
    else KeptPatterns(lines[..|lines| - 1]) + KeptTail(lines[|lines| - 1])
  }

  /** Every kept pattern is a stripped line that is neither empty nor a comment. */
  lemma {:induction false} KeptPatternsSound(lines: seq<string>)
    ensures forall x :: x in KeptPatterns(lines) ==>
      x != "" && x[0] != '#' && exists i :: 0 <= i < |lines| && Strip(lines[i]) == x
  {
    if |lines| > 0 {
      var init := lines[..|lines| - 1];
      var last := |lines| - 1;
      KeptPatternsSound(init);
      forall x | x in KeptPatterns(lines)
        ensures x != "" && x[0] != '#' && exists i :: 0 <= i < |lines| && Strip(lines[i]) == x
      {
        if x in KeptPatterns(init) {
          var i :| 0 <= i < |init| && Strip(init[i]) == x;
          assert lines[i] == init[i];
        } else {
          assert x in KeptTail(lines[last]);
          assert Strip(lines[last]) == x;
        }
      }
    }
  }

  /** Every line that strips to something other than a comment is kept. */
  lemma {:induction false} KeptPatternsComplete(lines: seq<string>)
    ensures forall i :: 0 <= i < |lines| && Strip(lines[i]) != "" && Strip(lines[i])[0] != '#' ==>
      Strip(lines[i]) in KeptPatterns(lines)
  {
    if |lines| > 0 {
      var init := lines[..|lines| - 1];
      KeptPatternsComplete(init);
      forall i | 0 <= i < |lines| && Strip(lines[i]) != "" && Strip(lines[i])[0] != '#'
        ensures Strip(lines[i]) in KeptPatterns(lines)
      {
        if i < |init| {
          assert init[i] == lines[i];
        } else {
          assert Strip(lines[i]) in KeptTail(lines[|lines| - 1]);
        }
      }
    }
  }

  /**
   * `load_gitignore_patterns`. `gitignore` holds the lines of `<project>/.gitignore` that
   * were read before any error (the source swallows the exception and keeps what it has),
   * or `None` when the file does not exist.
   */
  method LoadGitignorePatterns(gitignore: Option<seq<string>>) returns (patterns: seq<string>)
    ensures gitignore.None? ==> patterns == []
    ensures gitignore.Some? ==> patterns == KeptPatterns(gitignore.value)
  {
    patterns := [];
    if gitignore.Some? {
      var lines := gitignore.value;
      for i := 0 to |lines|
        invariant patterns == KeptPatterns(lines[..i])
      {
        assert lines[..i + 1][..i] == lines[..i];
        var line := Strip(lines[i]);
        if line != "" && !StartsWith(line, "#") {
          patterns := patterns + [line];
        }
      }
      assert lines[..|lines|] == lines;
    }
  }

  /** `base / d` for each `d` of `dirs` that exists, in order. */
  function ExistingUnder(p: Platform, base: string, dirs: seq<string>, existing: set<string>): seq<string> {
    if |dirs| == 0 then []
    else
      var full := Paths.Join(p, base, dirs[|dirs| - 1]);
      ExistingUnder(p, base, dirs[..|dirs| - 1], existing) + (if full in existing then [full] else [])
  }

  lemma {:induction false} ExistingUnderExact(p: Platform, base: string, dirs: seq<string>, existing: set<string>)
    ensures forall x :: x in ExistingUnder(p, base, dirs, existing) ==>
      x in existing && exists i :: 0 <= i < |dirs| && Paths.Join(p, base, dirs[i]) == x
    ensures forall i :: 0 <= i < |dirs| && Paths.Join(p, base, dirs[i]) in existing ==>
      Paths.Join(p, base, dirs[i]) in ExistingUnder(p, base, dirs, existing)
  {
    if |dirs| > 0 {
      var init := dirs[..|dirs| - 1];
      ExistingUnderExact(p, base, init, existing);
      forall x | x in ExistingUnder(p, base, dirs, existing)
        ensures exists i :: 0 <= i < |dirs| && Paths.Join(p, base, dirs[i]) == x
      {
        if x in ExistingUnder(p, base, init, existing) {
          var i :| 0 <= i < |init| && Paths.Join(p, base, init[i]) == x;
          assert dirs[i] == init[i];
        } else {
          assert Paths.Join(p, base, dirs[|dirs| - 1]) == x;
        }
      }
      forall i | 0 <= i < |dirs| && Paths.Join(p, base, dirs[i]) in existing
        ensures Paths.Join(p, base, dirs[i]) in ExistingUnder(p, base, dirs, existing)
      {
        if i < |init| { assert init[i] == dirs[i]; }
      }
    }
  }

  /** The directories `resolve_watch_dirs` looks at: the task's if it lists any, else `src` and `tests`. */
  function WatchCandidates(taskDirs: Option<seq<string>>): seq<string> {
    if taskDirs.Some? && taskDirs.value != [] then taskDirs.value else ["src", "tests"]
  }

  /** What `resolve_watch_dirs` returns: the existing candidates under `base`, else `base` itself. */
  function WatchDirs(p: Platform, base: string, taskDirs: Option<seq<string>>, existing: set<string>): seq<string> {
    var found := ExistingUnder(p, base, WatchCandidates(taskDirs), existing);
    if found != [] then found else [base]
  }

  /**
   * The watched directories are never empty: they are exactly the existing candidates,
   * or the project root alone when none exists.
   */
  lemma WatchDirsNeverEmpty(p: Platform, base: string, taskDirs: Option<seq<string>>, existing: set<string>)
    ensures |WatchDirs(p, base, taskDirs, existing)| > 0
    ensures var ds, r := WatchCandidates(taskDirs), WatchDirs(p, base, taskDirs, existing);
      || ((forall x :: x in r ==> x in existing && exists i :: 0 <= i < |ds| && Paths.Join(p, base, ds[i]) == x)
          && forall i :: 0 <= i < |ds| && Paths.Join(p, base, ds[i]) in existing ==> Paths.Join(p, base, ds[i]) in r)
      || (r == [base] && forall i :: 0 <= i < |ds| ==> Paths.Join(p, base, ds[i]) !in existing)
  {
    ExistingUnderExact(p, base, WatchCandidates(taskDirs), existing);
  }

  /** `resolve_watch_dirs(project_path, task_dirs)`; `existing` is the set of paths that exist. */
  method ResolveWatchDirs(p: Platform, base: string, taskDirs: Option<seq<string>>, existing: set<string>)
    returns (dirs: seq<string>)
    ensures dirs == WatchDirs(p, base, taskDirs, existing)
  {
    var candidates := if taskDirs.Some? && taskDirs.value != [] then taskDirs.value else ["src", "tests"];
    dirs := [];
    for i := 0 to |candidates|
      invariant dirs == ExistingUnder(p, base, candidates[..i], existing)
    {
      assert candidates[..i + 1][..i] == candidates[..i];
      var full := Paths.Join(p, base, candidates[i]);
      if full in existing {
        dirs := dirs + [full];
      }
    }
    assert candidates[..|candidates|] == candidates;
    if dirs == [] {
      dirs := [base];
    }
  }

  /** What the handler receives while the observer runs. */
  datatype HandlerEvent = FileEvent(path: string, isDirectory: bool) | TimerDeadline(timer: nat)

  function Deliver(st: HandlerState, patterns: seq<string>, evs: seq<HandlerEvent>): (r: HandlerState)
    requires Inv(st)
    ensures Inv(r)
    decreases |evs|
  {
    if |evs| == 0 then st
    else
      var next := match evs[0]
        case FileEvent(path, isDir) => OnEvent(st, patterns, path, isDir)
        case TimerDeadline(id) => Fire(st, id);
      Deliver(next, patterns, evs[1..])
  }

  /** The visible steps of `watch_and_execute`, in the order it takes them. */
  datatype WatchStep = Watching(dir: string) | InitialRun | ObserverStart | HandlerStop | ObserverStop | ObserverJoin

  /** The directories that get a watch: those of `dirs` that exist as directories, in order. */
  function WatchedDirs(dirs: seq<string>, isDir: set<string>): seq<WatchStep> {
    if |dirs| == 0 then []
    else WatchedDirs(dirs[..|dirs| - 1], isDir)
         + (if dirs[|dirs| - 1] in isDir then [Watching(dirs[|dirs| - 1])] else [])
  }

  /**
   * `watch_and_execute`: load the ignore patterns when a project path is given, build the
   * handler, watch each existing directory, run the callback once, start the observer,
   * hand the handler the events `evs` that arrive before Ctrl+C, then stop the handler
   * and the observer. `isDir` is the set of paths that exist and are directories.
   */
  method WatchAndExecute(dirs: seq<string>, debounceMs: int, projectPath: Option<string>,
                         gitignore: Option<seq<string>>, isDir: set<string>, evs: seq<HandlerEvent>)
    returns (steps: seq<WatchStep>, handler: DebouncedHandler)
    ensures fresh(handler)
    ensures handler.ignorePatterns ==
      if projectPath.Some? && projectPath.value != "" && gitignore.Some? then KeptPatterns(gitignore.value) else []
    ensures steps == WatchedDirs(dirs, isDir)
                     + [InitialRun, ObserverStart, HandlerStop, ObserverStop, ObserverJoin]
    ensures handler.Valid()
    ensures handler.State() ==
      Stopped(Deliver(HandlerState({}, [], None, 0), handler.ignorePatterns, evs))
  {
    var patterns: seq<string> := [];
    if projectPath.Some? && projectPath.value != "" {
      patterns := LoadGitignorePatterns(gitignore);
    }
    handler := new DebouncedHandler(debounceMs, Some(patterns));
    steps := [];
    for i := 0 to |dirs|
      invariant steps == WatchedDirs(dirs[..i], isDir)
    {
      assert dirs[..i + 1][..i] == dirs[..i];
      if dirs[i] in isDir {
        steps := steps + [Watching(dirs[i])];
      }
    }
    assert dirs[..|dirs|] == dirs;
    steps := steps + [InitialRun, ObserverStart];
    ghost var start := handler.State();
    for i := 0 to |evs|
      invariant handler.Valid()
      invariant Deliver(start, handler.ignorePatterns, evs) == Deliver(handler.State(), handler.ignorePatterns, evs[i..])
    {
      match evs[i] {
        case FileEvent(path, isDirectory) => handler.OnAnyEvent(path, isDirectory);
        case TimerDeadline(id) => handler.TimerFires(id);
      }
      assert evs[i..][1..] == evs[i + 1..];
    }
    handler.Stop();
    steps := steps + [HandlerStop, ObserverStop, ObserverJoin];
  }
}
