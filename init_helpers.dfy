/**
 * The two helpers behind `pro-mgr init` (cli.py): `_detect_project_tasks`, which suggests
 * tasks from the marker files a directory holds, and `_generate_init_config`, which writes
 * those suggestions out as the text of a `pro-mgr.toml`.
 */
module InitHelpers {
  import opened Wrappers
  import opened Text
  import opened OrderedDict

  /** One suggested task: its command, its description and, for some, `watch_dirs`. */
  datatype Suggestion = Suggestion(command: string, description: string, watchDirs: Option<seq<string>>)

  /** A project kind: the files that reveal it and the tasks it suggests, in assignment order. */
  datatype Detector = Detector(markers: set<string>, suggestions: seq<(string, Suggestion)>)

  const Python := Detector({"pyproject.toml", "setup.py", "requirements.txt"}, [
    ("test", Suggestion("python -m pytest tests/ -v", "Run tests", Some(["src/", "tests/"]))),
    ("lint", Suggestion("python -m flake8 .", "Run linter", None)),
    ("install", Suggestion("pip install -r requirements.txt", "Install dependencies", None))])

  const Node := Detector({"package.json"}, [
    ("test", Suggestion("npm test", "Run tests", None)),
    ("dev", Suggestion("npm run dev", "Start development server", None)),
    ("build", Suggestion("npm run build", "Build for production", None)),
    ("install", Suggestion("npm install", "Install dependencies", None))])

  const Go := Detector({"go.mod"}, [
    ("test", Suggestion("go test ./...", "Run tests", None)),
    ("build", Suggestion("go build ./...", "Build the project", None)),
    ("run", Suggestion("go run .", "Run the application", None))])

  const Rust := Detector({"Cargo.toml"}, [
    ("test", Suggestion("cargo test", "Run tests", None)),
    ("build", Suggestion("cargo build", "Build the project", None)),
    ("run", Suggestion("cargo run", "Run the application", None))])

  const Make := Detector({"Makefile"}, [
    ("build", Suggestion("make", "Build the project", None))])

  /** The tasks suggested when no detector fires. */
  const Placeholders: seq<(string, Suggestion)> := [
    ("test", Suggestion("echo 'Add your test command here'", "Run tests", None)),
    ("build", Suggestion("echo 'Add your build command here'", "Build the project", None))]

  /** A detector fires when one of its marker files is present. */
  predicate Fires(d: Detector, present: set<string>) {
    d.markers * present != {}
  }

  /** The assignments one detector makes: its suggestions if it fires, none otherwise. */
  function Part(d: Detector, present: set<string>): seq<(string, Suggestion)> {
    if Fires(d, present) then d.suggestions else []
  }

  /**
   * Every assignment the firing detectors make, in the order they run: Python, Node, Go,
   * Rust, Makefile; a later one overwrites what an earlier one set.
   */
  function Proposals(present: set<string>): seq<(string, Suggestion)> {
    Part(Python, present) + Part(Node, present) + Part(Go, present) + Part(Rust, present) + Part(Make, present)
  }

  /** The suggestions for a directory holding the files `present`. */
  function Detected(present: set<string>): (tasks: Dict<Suggestion>)
    ensures tasks.Valid()
  {
    var proposals := Proposals(present);
    if proposals == [] then FromPairs(Placeholders) else FromPairs(proposals)
  }

  /**
   * The block of `tasks[name] = {...}` assignments a firing detector makes; `done` is the
   * list of assignments made so far.
   */
  method AssignAll(tasks: Dict<Suggestion>, d: Detector, ghost done: seq<(string, Suggestion)>)
    returns (r: Dict<Suggestion>)
    requires tasks == FromPairs(done)
    ensures r == FromPairs(done + d.suggestions)
  {
    r := tasks;
    assert done + d.suggestions[..0] == done;
    for i := 0 to |d.suggestions|
      invariant r == FromPairs(done + d.suggestions[..i])
    {
      var (name, suggestion) := d.suggestions[i];
      FromPairsNext(done, d.suggestions, i);
      r := r.Set(name, suggestion);
    }
    assert d.suggestions[..|d.suggestions|] == d.suggestions;
  }

  /**
   * One detector's `if (path / marker).exists() or ...:` block: when one of its marker
   * files is present, its assignments are made.
   */
  method Detect(tasks: Dict<Suggestion>, d: Detector, present: set<string>, ghost done: seq<(string, Suggestion)>)
    returns (r: Dict<Suggestion>, ghost now: seq<(string, Suggestion)>)
    requires tasks == FromPairs(done)
    ensures now == done + Part(d, present)
    ensures r == FromPairs(now)
  {
    if d.markers * present != {} {
      r := AssignAll(tasks, d, done);
      now := done + d.suggestions;
    } else {
      r, now := tasks, done;
      assert done + [] == done;
    }
  }

  /** `_detect_project_tasks(path)`, with `present` the names of the files in `path`. */
  method DetectProjectTasks(present: set<string>) returns (tasks: Dict<Suggestion>)
    ensures tasks == Detected(present)
  {
    tasks := Empty();
    ghost var ps: seq<(string, Suggestion)> := [];
    tasks, ps := Detect(tasks, Python, present, ps);
    assert ps == Part(Python, present);
    tasks, ps := Detect(tasks, Node, present, ps);
    tasks, ps := Detect(tasks, Go, present, ps);
    tasks, ps := Detect(tasks, Rust, present, ps);
    tasks, ps := Detect(tasks, Make, present, ps);
    assert ps == Proposals(present);
    FromPairsEntries(ps);
    NamesEmpty(ps);
    if tasks.entries == map[] {
      assert ps == [];
      tasks := AssignAll(tasks, Detector({}, Placeholders), ps);
    } else {
      assert ps != [];
    }
  }

  /** No detector fires for `present`. */
  predicate NoneFires(present: set<string>) {
    !Fires(Python, present) && !Fires(Node, present) && !Fires(Go, present)
    && !Fires(Rust, present) && !Fires(Make, present)
  }

  /** No assignment in `ps` carries `watch_dirs`. */
  ghost predicate Unwatched(ps: seq<(string, Suggestion)>) {
    forall i :: 0 <= i < |ps| ==> ps[i].1.watchDirs.None?
  }

  /** The key of any assignment in `ps` that carries `watch_dirs` is `test`. */
  ghost predicate OnlyTestWatched(ps: seq<(string, Suggestion)>) {
    forall i :: 0 <= i < |ps| && ps[i].1.watchDirs.Some? ==> ps[i].0 == "test"
  }

  /** When some detector fires, the suggestions are exactly what the firing detectors assign. */
  lemma ProposalsMade(present: set<string>)
    requires !NoneFires(present)
    ensures Proposals(present) != [] && Detected(present) == FromPairs(Proposals(present))
  {
  }

  /** What the detectors after Python assign. */
  function Later(present: set<string>): seq<(string, Suggestion)> {
    Part(Node, present) + Part(Go, present) + Part(Rust, present) + Part(Make, present)
  }

  lemma Regroup<T>(a: seq<T>, b: seq<T>, c: seq<T>, d: seq<T>, e: seq<T>)
    ensures a + b + c + d + e == a + (b + c + d + e)
  {
  }

  /** Python's assignments come first, everything else after them. */
  lemma PythonThenLater(present: set<string>)
    ensures Proposals(present) == Part(Python, present) + Later(present)
  {
    Regroup(Part(Python, present), Part(Node, present), Part(Go, present), Part(Rust, present), Part(Make, present));
  }

  lemma NamesPart(d: Detector, present: set<string>)
    ensures Names(Part(d, present)) == if Fires(d, present) then Names(d.suggestions) else {}
  {
  }

  lemma UnwatchedAppend(a: seq<(string, Suggestion)>, b: seq<(string, Suggestion)>)
    requires Unwatched(a) && Unwatched(b)
    ensures Unwatched(a + b)
  {
    forall i | 0 <= i < |a + b| ensures (a + b)[i].1.watchDirs.None? {
      if i >= |a| {
        assert (a + b)[i] == b[i - |a|];
      }
    }
  }

  /** Only Python's first suggestion, `test`, carries `watch_dirs`. */
  lemma SuggestionsWatch()
    ensures Unwatched(Node.suggestions) && Unwatched(Go.suggestions) && Unwatched(Rust.suggestions)
    ensures Unwatched(Make.suggestions) && Unwatched(Placeholders)
    ensures OnlyTestWatched(Python.suggestions)
  {
  }

  /** The names each detector assigns that the lemmas below rely on. */
  lemma SuggestionNames()
    ensures "lint" in Names(Python.suggestions) && "dev" in Names(Node.suggestions)
    ensures "run" in Names(Go.suggestions) && "run" in Names(Rust.suggestions)
    ensures "test" in Names(Node.suggestions) && "test" in Names(Go.suggestions) && "test" in Names(Rust.suggestions)
    ensures Names(Make.suggestions) == {"build"}
  {
    assert Python.suggestions[1].0 == "lint" && Node.suggestions[1].0 == "dev";
    assert Go.suggestions[2].0 == "run" && Rust.suggestions[2].0 == "run";
    assert Node.suggestions[0].0 == "test" && Go.suggestions[0].0 == "test" && Rust.suggestions[0].0 == "test";
    assert Make.suggestions[0].0 == "build";
  }

  /** Whatever the later detectors assign carries no `watch_dirs`. */
  lemma LaterUnwatched(present: set<string>)
    ensures Unwatched(Later(present))
  {
    SuggestionsWatch();
    UnwatchedAppend(Part(Node, present), Part(Go, present));
    UnwatchedAppend(Part(Node, present) + Part(Go, present), Part(Rust, present));
    UnwatchedAppend(Part(Node, present) + Part(Go, present) + Part(Rust, present), Part(Make, present));
  }

  /** The keys the later detectors assign. */
  lemma LaterNames(present: set<string>)
    ensures Names(Later(present)) == Names(Part(Node, present)) + Names(Part(Go, present))
      + Names(Part(Rust, present)) + Names(Part(Make, present))
  {
    NamesAppend(Part(Node, present), Part(Go, present));
    NamesAppend(Part(Node, present) + Part(Go, present), Part(Rust, present));
    NamesAppend(Part(Node, present) + Part(Go, present) + Part(Rust, present), Part(Make, present));
  }

  /** The last value of a key among assignments without `watch_dirs` has none either. */
  lemma UnwatchedLast(ps: seq<(string, Suggestion)>, k: string)
    requires Unwatched(ps) && k in Names(ps)
    ensures LastValue(ps, k).watchDirs.None?
  {
    var i := LastValueMade(ps, k);
  }

  /** The fallback dictionary: `test`, then `build`, with their `echo` commands. */
  lemma PlaceholderDict()
    ensures FromPairs(Placeholders).keys == ["test", "build"]
    ensures FromPairs(Placeholders).entries["test"].command == "echo 'Add your test command here'"
    ensures FromPairs(Placeholders).entries["build"].command == "echo 'Add your build command here'"
  {
    var p := Placeholders;
    assert p[..|p| - 1] == [p[0]] && [p[0]][..0] == [];
    assert FromPairs([p[0]]) == Empty().Set(p[0].0, p[0].1);
  }

  /**
   * When a detector fires, the suggestions are not just `test` and `build`: some other
   * name is there, or (the Makefile alone) `test` is missing.
   */
  lemma ExtraName(present: set<string>) returns (n: string)
    requires !NoneFires(present)
    ensures (n in Names(Proposals(present)) && n != "test" && n != "build")
      || (n == "test" && n !in Names(Proposals(present)))
  {
    PythonThenLater(present);
    NamesAppend(Part(Python, present), Later(present));
    LaterNames(present);
    NamesPart(Python, present);
    NamesPart(Node, present);
    NamesPart(Go, present);
    NamesPart(Rust, present);
    NamesPart(Make, present);
    SuggestionNames();
    if Fires(Python, present) {
      n := "lint";
    } else if Fires(Node, present) {
      n := "dev";
    } else if Fires(Go, present) || Fires(Rust, present) {
      n := "run";
    } else {
      n := "test";
    }
  }

  /**
   * With no marker file the suggestions are exactly `test` and `build`, in that order, with
   * `echo` placeholder commands; when a detector fires they are never exactly those two.
   */
  lemma PlaceholdersIffNothingDetected(present: set<string>)
    ensures Detected(present).keys == ["test", "build"] <==> NoneFires(present)
    ensures NoneFires(present) ==>
      Detected(present).entries["test"].command == "echo 'Add your test command here'"
      && Detected(present).entries["build"].command == "echo 'Add your build command here'"
  {
    if NoneFires(present) {
      PlaceholderDict();
    } else {
      ProposalsMade(present);
      FromPairsEntries(Proposals(present));
      var n := ExtraName(present);
    }
  }

  /** A `Makefile` makes `build` run `make`, whatever the other detectors suggested. */
  lemma MakefileForcesBuild(present: set<string>)
    requires "Makefile" in present
    ensures "build" in Detected(present).entries
    ensures Detected(present).entries["build"] == Suggestion("make", "Build the project", None)
  {
    assert "Makefile" in Make.markers * present;
    var before := Part(Python, present) + Part(Node, present) + Part(Go, present) + Part(Rust, present);
    var ps := Proposals(present);
    ProposalsMade(present);
    FromPairsEntries(ps);
    SuggestionNames();
    NamesAppend(before, Make.suggestions);
    LastValueAppend(before, Make.suggestions, "build");
    assert LastValue(Make.suggestions, "build") == Make.suggestions[0].1;
  }

  /** Python's own `test` suggestion is the watched one. */
  lemma PythonTestValue()
    ensures "test" in Names(Python.suggestions)
    ensures LastValue(Python.suggestions, "test").watchDirs == Some(["src/", "tests/"])
  {
    var py := Python.suggestions;
    assert py[0].0 == "test";
    assert py[..|py| - 1] == py[..2] && py[..2][..1] == py[..1] && py[..1][..0] == [];
    assert py[..2][1].0 == "lint" && py[..1][0] == py[0];
  }

  /**
   * The Python `test` task keeps its `watch_dirs` when neither Node, Go nor Rust fires,
   * since the Makefile detector does not touch `test`.
   */
  lemma PythonTestWatches(present: set<string>)
    requires Fires(Python, present) && !Fires(Node, present) && !Fires(Go, present) && !Fires(Rust, present)
    ensures "test" in Detected(present).entries
    ensures Detected(present).entries["test"].watchDirs == Some(["src/", "tests/"])
  {
    var ps := Proposals(present);
    ProposalsMade(present);
    PythonThenLater(present);
    FromPairsEntries(ps);
    LaterNames(present);
    NamesPart(Make, present);
    SuggestionNames();
    PythonTestValue();
    NamesAppend(Python.suggestions, Later(present));
    LastValueAppend(Python.suggestions, Later(present), "test");
  }

  /** Node, Go and Rust each suggest a `test` without `watch_dirs`, and it wins over Python's. */
  lemma LaterTestUnwatched(present: set<string>)
    requires Fires(Node, present) || Fires(Go, present) || Fires(Rust, present)
    ensures "test" in Detected(present).entries && Detected(present).entries["test"].watchDirs.None?
  {
    var ps := Proposals(present);
    ProposalsMade(present);
    PythonThenLater(present);
    FromPairsEntries(ps);
    LaterNames(present);
    NamesPart(Node, present);
    NamesPart(Go, present);
    NamesPart(Rust, present);
    SuggestionNames();
    assert "test" in Names(Later(present));
    LaterUnwatched(present);
    NamesAppend(Part(Python, present), Later(present));
    LastValueAppend(Part(Python, present), Later(present), "test");
    UnwatchedLast(Later(present), "test");
  }

  /** An assignment carrying `watch_dirs` in `a + b`, with `b` unwatched, comes from `a` and is `test`. */
  lemma WatchedFromFirst(a: seq<(string, Suggestion)>, b: seq<(string, Suggestion)>, i: nat)
    requires OnlyTestWatched(a) && Unwatched(b)
    requires i < |a + b| && (a + b)[i].1.watchDirs.Some?
    ensures i < |a| && (a + b)[i].0 == "test"
  {
  }

  /**
   * Only `test` can carry `watch_dirs`, and only when Python fires and neither Node, Go nor
   * Rust does; it then carries exactly `["src/", "tests/"]`.
   */
  lemma WatchDirsOnlyOnPythonTest(present: set<string>, n: string)
    requires n in Detected(present).entries && Detected(present).entries[n].watchDirs.Some?
    ensures n == "test" && Fires(Python, present)
    ensures !Fires(Node, present) && !Fires(Go, present) && !Fires(Rust, present)
    ensures Detected(present).entries[n].watchDirs == Some(["src/", "tests/"])
  {
    SuggestionsWatch();
    if NoneFires(present) {
      FromPairsEntries(Placeholders);
      UnwatchedLast(Placeholders, n);
    } else {
      var ps := Proposals(present);
      ProposalsMade(present);
      PythonThenLater(present);
      FromPairsEntries(ps);
      LaterUnwatched(present);
      var i := LastValueMade(ps, n);
      assert OnlyTestWatched(Part(Python, present));
      WatchedFromFirst(Part(Python, present), Later(present), i);
      assert Fires(Python, present) && n == "test";
      if Fires(Node, present) || Fires(Go, present) || Fires(Rust, present) {
        LaterTestUnwatched(present);
      }
      if Fires(Python, present) && !Fires(Node, present) && !Fires(Go, present) && !Fires(Rust, present) {
        PythonTestWatches(present);
      }
    }
  }

  // ---------------------------------------------------------------------------------------
  // Writing the generated configuration file

  /** A value written between double quotes, as the generated TOML does (no escaping). */
  function Quoted(s: string): (r: string)
    ensures |r| == |s| + 2 && r[0] == '"' && r[|r| - 1] == '"' && r[1..|r| - 1] == s
  {
    "\"" + s + "\""
  }

  function QuotedAll(dirs: seq<string>): (r: seq<string>)
    ensures |r| == |dirs| && forall i :: 0 <= i < |dirs| ==> r[i] == Quoted(dirs[i])
  {
    if dirs == [] then [] else [Quoted(dirs[0])] + QuotedAll(dirs[1..])
  }

  /** The `[project]` table that opens every generated file, followed by a blank line. */
  function HeaderLines(name: string): seq<string> {
    ["[project]", "name = " + Quoted(name), "version = \"0.1.0\"", "description = \"\"", ""]
  }

  /** The `watch_dirs` line for a list of directories. */
  function WatchLine(dirs: seq<string>): string {
    "watch_dirs = [" + Join(QuotedAll(dirs), ", ") + "]"
  }

  /** The `[tasks.<n>]` table for one suggestion, followed by a blank line. */
  function TaskLines(n: string, s: Suggestion): seq<string> {
    ["[tasks." + n + "]", "command = " + Quoted(s.command), "description = " + Quoted(s.description)]
    + (if s.watchDirs.Some? then [WatchLine(s.watchDirs.value)] else [])
    + [""]
  }

  /** The task tables for `items`, in order. */
  function TaskBlocks(items: seq<(string, Suggestion)>): seq<string> {
    if items == [] then []
    else TaskBlocks(items[..|items| - 1]) + TaskLines(items[|items| - 1].0, items[|items| - 1].1)
  }

  /** The lines of the generated file for `tasks`. */
  function ConfigLines(name: string, tasks: Dict<Suggestion>): seq<string>
    requires tasks.Valid()
  {
    HeaderLines(name) + TaskBlocks(tasks.Items())
  }

  /** One pass of the loop below: appends the table for task `taskName` to `lines`. */
  method AppendTask(lines: seq<string>, taskName: string, config: Suggestion) returns (out: seq<string>)
    ensures out == lines + TaskLines(taskName, config)
  {
    out := lines + ["[tasks." + taskName + "]"];
    out := out + ["command = " + Quoted(config.command)];
    out := out + ["description = " + Quoted(config.description)];
    ghost var head := out[|lines|..];
    assert out == lines + head;
    if config.watchDirs.Some? {
      var watchStr := Join(QuotedAll(config.watchDirs.value), ", ");
      out := out + ["watch_dirs = [" + watchStr + "]"];
      assert out == lines + (head + [WatchLine(config.watchDirs.value)]);
    }
    out := out + [""];
  }

  /** The loop over `tasks.items()`: appends one table per task, in order. */
  method AppendTasks(lines: seq<string>, items: seq<(string, Suggestion)>) returns (out: seq<string>)
    ensures out == lines + TaskBlocks(items)
  {
    out := lines;
    for i := 0 to |items|
      invariant out == lines + TaskBlocks(items[..i])
    {
      var (taskName, config) := items[i];
      out := AppendTask(out, taskName, config);
      assert items[..i + 1][..i] == items[..i];
    }
    assert items[..|items|] == items;
  }

  /** Builds the text of a fresh `pro-mgr.toml` for project `name` and the suggested tasks. */
  method GenerateInitConfig(name: string, tasks: Dict<Suggestion>) returns (text: string)
    requires tasks.Valid()
    ensures text == Join(ConfigLines(name, tasks), "\n")
  {
    var lines := HeaderLines(name);
    lines := AppendTasks(lines, tasks.Items());
    text := Join(lines, "\n");
  }

  /** The `[project]` table, ending in a blank line. */
  function ProjectTable(name: string): (r: string)
    ensures StartsWith(r, "[project]\nname = \"")
  {
    "[project]" + "\n" + ("name = " + Quoted(name)) + "\n" + "version = \"0.1.0\"" + "\n"
    + "description = \"\"" + "\n"
  }

  lemma JoinLines(a: string, b: string, c: string, d: string)
    ensures Join([a, b, c, d, ""], "\n") == a + "\n" + b + "\n" + c + "\n" + d + "\n"
  {
    var h := [a, b, c, d, ""];
    assert h[4..] == [""] && h[3..] == [d, ""] && h[2..] == [c, d, ""] && h[1..] == [b, c, d, ""];
    assert Join(h[3..], "\n") == d + "\n" + "";
    assert Join(h[2..], "\n") == c + "\n" + (d + "\n" + "");
    assert Join(h[1..], "\n") == b + "\n" + (c + "\n" + (d + "\n" + ""));
  }

  lemma HeaderText(name: string)
    ensures Join(HeaderLines(name), "\n") == ProjectTable(name)
  {
    JoinLines("[project]", "name = " + Quoted(name), "version = \"0.1.0\"", "description = \"\"");
  }

  /**
   * The generated file is the `[project]` table alone when there are no tasks, and otherwise
   * that table, a newline, and the task tables.
   */
  lemma ConfigText(name: string, tasks: Dict<Suggestion>)
    requires tasks.Valid()
    ensures tasks.keys == [] ==> Join(ConfigLines(name, tasks), "\n") == ProjectTable(name)
    ensures tasks.keys != [] ==>
      (Join(ConfigLines(name, tasks), "\n")
       == ProjectTable(name) + "\n" + Join(TaskBlocks(tasks.Items()), "\n"))
  {
    var h := HeaderLines(name);
    HeaderText(name);
    if tasks.keys == [] {
      assert ConfigLines(name, tasks) == h;
    } else {
      var b := TaskBlocks(tasks.Items());
      assert |b| > 0;
      JoinAppend(h, b, "\n");
    }
  }

  /**
   * Each task gets a table in key order: its header, its command and its description on
   * consecutive lines, then the `watch_dirs` line exactly when the suggestion has one,
   * otherwise the blank line that ends the table.
   */
  lemma {:induction false} TaskSection(items: seq<(string, Suggestion)>, j: nat) returns (at: nat)
    requires j < |items|
    ensures at == |TaskBlocks(items[..j])| && at + 3 < |TaskBlocks(items)|
    ensures var lines, (n, s) := TaskBlocks(items), items[j];
      && lines[at] == "[tasks." + n + "]"
      && lines[at + 1] == "command = " + Quoted(s.command)
      && lines[at + 2] == "description = " + Quoted(s.description)
      && lines[at + 3] == (if s.watchDirs.Some? then WatchLine(s.watchDirs.value) else "")
  {
    var front := items[..|items| - 1];
    if j == |items| - 1 {
      assert items[..j] == front;
      at := |TaskBlocks(front)|;
    } else {
      assert front[..j] == items[..j];
      at := TaskSection(front, j);
    }
  }
}
