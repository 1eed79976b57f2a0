/**
 * Project scaffolding (scaffold.py): the template variables and their precedence, the copy
 * of a template tree with `{{key}}` substitution and renamed entries, the checks
 * `create_project_structure` makes before it creates anything, the venv interpreter and its
 * detection, and what `create_project` returns and registers.
 *
 * The file system is a set of existing paths plus the template trees; the user name, the
 * user config's `[defaults]` table, the environment and the outcomes of `git init` and
 * `python -m venv` are inputs.
 */
module Scaffold {
  import opened Wrappers
  import opened Text
  import opened OrderedDict
  import Paths
  import Runner
  import Registry

  // ---------- template variables ----------

  /** The variables every template gets before any configuration; `user` is `getpass.getuser()`. */
  function BuiltinDefaults(user: string): (d: Dict<string>)
    ensures d.Valid()
    ensures d.keys == ["author", "email", "license", "description", "python_version"]
    ensures d.entries["license"] == "MIT" && d.entries["python_version"] == "3.10"
  {
    Dict(["author", "email", "license", "description", "python_version"],
      map["author" := user, "email" := "", "license" := "MIT", "description" := "",
          "python_version" := "3.10"])
  }

  /** The environment variable that overrides a default, for the three defaults that have one. */
  const EnvOverrides: map<string, string> :=
    map["author" := "PRO_MGR_AUTHOR", "email" := "PRO_MGR_EMAIL", "license" := "PRO_MGR_LICENSE"]

  /** `os.environ.get(variable)` is truthy: set and not empty. */
  predicate EnvSet(environ: map<string, string>, variable: string) {
    variable in environ && environ[variable] != ""
  }

  /**
   * The value a default ends up with: a non-empty override variable wins, then the user
   * config's `[defaults]` table, then the built-in value.
   */
  function Preferred(k: string, user: string, userDefaults: Option<Dict<string>>,
                     environ: map<string, string>): string
    requires k in BuiltinDefaults(user).entries || (userDefaults.Some? && k in userDefaults.value.entries)
  {
    if k in EnvOverrides && EnvSet(environ, EnvOverrides[k]) then environ[EnvOverrides[k]]
    else if userDefaults.Some? && k in userDefaults.value.entries then userDefaults.value.entries[k]
    else BuiltinDefaults(user).entries[k]
  }

  /**
   * `get_default_variables()`. `userDefaults` is the `[defaults]` table of
   * `~/.pro-mgr/config.toml`, `None` when the file is missing or unreadable.
   */
  function DefaultVariables(user: string, userDefaults: Option<Dict<string>>,
                            environ: map<string, string>): (d: Dict<string>)
    requires userDefaults.Some? ==> userDefaults.value.Valid()
    ensures d.Valid()
    ensures |d.keys| >= 5 && d.keys[..5] == BuiltinDefaults(user).keys
    ensures d.entries.Keys == BuiltinDefaults(user).entries.Keys +
      (if userDefaults.Some? then userDefaults.value.entries.Keys else {})
  {
    var d1 := Configured(user, userDefaults);
    var a := Override(d1, "author", "PRO_MGR_AUTHOR", environ);
    assert a.keys == d1.keys && a.entries.Keys == d1.entries.Keys;
    var e := Override(a, "email", "PRO_MGR_EMAIL", environ);
    assert e.keys == d1.keys && e.entries.Keys == d1.entries.Keys;
    var l := Override(e, "license", "PRO_MGR_LICENSE", environ);
    assert l.keys == d1.keys && l.entries.Keys == d1.entries.Keys;
    l
  }

  /** The built-in defaults updated by the user config's `[defaults]` table. */
  function Configured(user: string, userDefaults: Option<Dict<string>>): (d: Dict<string>)
    requires userDefaults.Some? ==> userDefaults.value.Valid()
    ensures d.Valid()
    ensures |d.keys| >= 5 && d.keys[..5] == BuiltinDefaults(user).keys
    ensures d.entries.Keys == BuiltinDefaults(user).entries.Keys +
      (if userDefaults.Some? then userDefaults.value.entries.Keys else {})
    ensures forall k | k in d.entries ::
              d.entries[k] == if userDefaults.Some? && k in userDefaults.value.entries
                              then userDefaults.value.entries[k] else BuiltinDefaults(user).entries[k]
    ensures "author" in d.entries && "email" in d.entries && "license" in d.entries
  {
    var d0 := BuiltinDefaults(user);
    var d1 := if userDefaults.Some? then d0.Update(userDefaults.value) else d0;
    assert d1.keys[..5] == d0.keys;
    assert "author" in d0.entries && "email" in d0.entries && "license" in d0.entries;
    d1
  }

  /**
   * `defaults[key] = os.environ[variable]` when that variable is set and not empty; the key
   * is already present, so its place in the order does not change.
   */
  function Override(d: Dict<string>, key: string, variable: string, environ: map<string, string>): (r: Dict<string>)
    requires d.Valid() && key in d.entries
    ensures r.Valid() && r.keys == d.keys && r.entries.Keys == d.entries.Keys
    ensures r.entries[key] == (if EnvSet(environ, variable) then environ[variable] else d.entries[key])
    ensures forall k | k in d.entries && k != key :: r.entries[k] == d.entries[k]
  {
    if EnvSet(environ, variable) then d.Set(key, environ[variable]) else d
  }

  /**
   * Every default holds the value of the highest-ranked source that sets it: a non-empty
   * override variable, then the user config, then the built-in value.
   */
  lemma DefaultVariablesPrecedence(user: string, userDefaults: Option<Dict<string>>, environ: map<string, string>)
    requires userDefaults.Some? ==> userDefaults.value.Valid()
    ensures forall k | k in DefaultVariables(user, userDefaults, environ).entries ::
      DefaultVariables(user, userDefaults, environ).entries[k] == Preferred(k, user, userDefaults, environ)
  {
    var d := DefaultVariables(user, userDefaults, environ);
    var d1 := Configured(user, userDefaults);
    forall k | k in d.entries ensures d.entries[k] == Preferred(k, user, userDefaults, environ) {
      OverridePrecedence(d1, k, environ);
    }
  }

  /** One key of the three overrides: the variable when set and non-empty, else the configured value. */
  lemma OverridePrecedence(d1: Dict<string>, k: string, environ: map<string, string>)
    requires d1.Valid() && "author" in d1.entries && "email" in d1.entries && "license" in d1.entries
    requires k in d1.entries
    ensures var d := Override(Override(Override(d1, "author", "PRO_MGR_AUTHOR", environ),
                                       "email", "PRO_MGR_EMAIL", environ), "license", "PRO_MGR_LICENSE", environ);
      d.entries[k] == if k in EnvOverrides && EnvSet(environ, EnvOverrides[k]) then environ[EnvOverrides[k]]
                      else d1.entries[k]
  {
    if k == "license" {
      assert EnvOverrides[k] == "PRO_MGR_LICENSE";
    } else if k == "email" {
      assert EnvOverrides[k] == "PRO_MGR_EMAIL";
    } else if k == "author" {
      assert EnvOverrides[k] == "PRO_MGR_AUTHOR";
    } else {
      assert k !in EnvOverrides;
    }
  }

  /** `name.replace('-', '_')`, the `name_underscore` variable. */
  function Underscored(name: string): (r: string)
    ensures |r| == |name| && '-' !in r
    ensures forall i :: 0 <= i < |name| ==> r[i] == if name[i] == '-' then '_' else name[i]
  {
    ReplaceCharAt(name, '-', '_');
    var r := Replace(name, "-", "_");
    assert forall i :: 0 <= i < |r| ==> r[i] != '-';
    r
  }

  /**
   * The variable map `_copy_template` substitutes: the defaults updated by the caller's
   * variables, with `name` and `name_underscore` forced last.
   */
  function Variables(defaults: Dict<string>, variables: Dict<string>, name: string): (m: Dict<string>)
    requires defaults.Valid() && variables.Valid()
    ensures m.Valid()
    ensures m.entries.Keys == defaults.entries.Keys + variables.entries.Keys + {"name", "name_underscore"}
    ensures |defaults.keys| <= |m.keys| && m.keys[..|defaults.keys|] == defaults.keys
    ensures m.entries["name"] == name && m.entries["name_underscore"] == Underscored(name)
    ensures forall k | k in m.entries && k != "name" && k != "name_underscore" ::
      m.entries[k] == (defaults.entries + variables.entries)[k]
  {
    var u := defaults.Update(variables);
    var m := u.Set("name", name);
    SetKeepsPrefix(u, "name", name, |defaults.keys|);
    var r := m.Set("name_underscore", Underscored(name));
    SetKeepsPrefix(m, "name_underscore", Underscored(name), |defaults.keys|);
    assert r.entries == (defaults.entries + variables.entries)["name" := name]["name_underscore" := Underscored(name)];
    r
  }

  /** Assigning a key leaves the first `n` keys where they were. */
  lemma SetKeepsPrefix(d: Dict<string>, k: string, v: string, n: nat)
    requires d.Valid() && n <= |d.keys|
    ensures d.Set(k, v).keys[..n] == d.keys[..n]
  {
    if k !in d.entries {
      assert (d.keys + [k])[..n] == d.keys[..n];
    }
  }

  // ---------- substitution ----------

  /** The text `{{key}}` that stands for a variable. */
  function Placeholder(key: string): (p: string)
    ensures |p| == |key| + 4 && p[0] == '{' && p[1] == '{'
  {
    "{{" + key + "}}"
  }

  /** Every placeholder replaced by its value, one key at a time in the order of `keys`. */
  function Substituted(content: string, keys: seq<string>, values: map<string, string>): string
    requires forall k :: k in keys ==> k in values
    decreases |keys|
  {
    if |keys| == 0 then content
    else Substituted(Replace(content, Placeholder(keys[0]), values[keys[0]]), keys[1..], values)
  }

  /** The loop `for key, value in var_map.items(): content = content.replace(...)`. */
  method SubstituteVariables(content: string, vars: Dict<string>) returns (out: string)
    requires vars.Valid()
    ensures out == Substituted(content, vars.keys, vars.entries)
  {
    out := content;
    for i := 0 to |vars.keys|
      invariant Substituted(content, vars.keys, vars.entries) == Substituted(out, vars.keys[i..], vars.entries)
    {
      assert vars.keys[i..][1..] == vars.keys[i + 1..];
      out := Replace(out, Placeholder(vars.keys[i]), vars.entries[vars.keys[i]]);
    }
  }

  /** Text with no braces: no placeholder can start inside it. */
  predicate BraceFree(s: string) {
    '{' !in s && '}' !in s
  }

  /** A pattern occurs only where its first character does. */
  lemma OccurrenceHasFirst(s: string, pattern: string)
    requires |pattern| > 0 && Contains(s, pattern)
    ensures pattern[0] in s
  {
    var i := OccurrenceIndex(s, pattern);
    assert s[i] == s[i..i + |pattern|][0];
  }

  /** A placeholder is not found in text without `{`, so replacing it changes nothing. */
  lemma ReplaceWithoutBrace(s: string, key: string, value: string)
    requires '{' !in s
    ensures Replace(s, Placeholder(key), value) == s
  {
    if Contains(s, Placeholder(key)) {
      OccurrenceHasFirst(s, Placeholder(key));
    }
    ReplaceAbsent(s, Placeholder(key), value);
  }

  /** Content without `{` comes through substitution unchanged, whatever the variables. */
  lemma {:induction false} SubstituteWithoutBraces(content: string, keys: seq<string>, values: map<string, string>)
    requires '{' !in content
    requires forall k :: k in keys ==> k in values
    ensures Substituted(content, keys, values) == content
    decreases |keys|
  {
    if |keys| > 0 {
      ReplaceWithoutBrace(content, keys[0], values[keys[0]]);
      SubstituteWithoutBraces(content, keys[1..], values);
    }
  }

  /** Replacing the sole occurrence of `p` in `a + p + b`, where its first character is not in `a` or `b`. */
  lemma {:induction false} ReplaceSole(a: string, p: string, b: string, value: string)
    requires |p| > 0 && p[0] !in a && p[0] !in b
    ensures Replace(a + p + b, p, value) == a + value + b
    decreases |a|
  {
    var s := a + p + b;
    if |a| == 0 {
      assert s == p + b && s[..|p|] == p && s[|p|..] == b;
      if Contains(b, p) {
        OccurrenceHasFirst(b, p);
      }
      ReplaceAbsent(b, p, value);
    } else {
      assert s[0] == a[0] != p[0];
      assert s[..|p|][0] == s[0];
      assert s[1..] == a[1..] + p + b;
      ReplaceSole(a[1..], p, b, value);
      assert [a[0]] + (a[1..] + value + b) == a + value + b;
    }
  }

  /** Replacing the one placeholder of `a + {{key}} + b`, where `a` and `b` hold no `{`. */
  lemma ReplaceOnePlaceholder(a: string, key: string, b: string, value: string)
    requires '{' !in a && '{' !in b
    ensures Replace(a + Placeholder(key) + b, Placeholder(key), value) == a + value + b
  {
    ReplaceSole(a, Placeholder(key), b, value);
  }

  /** The characters of `{{key}}` after the opening braces. */
  lemma PlaceholderChars(key: string)
    ensures forall j :: 2 <= j < |key| + 2 ==> Placeholder(key)[j] == key[j - 2]
    ensures Placeholder(key)[|key| + 2] == '}' && Placeholder(key)[|key| + 3] == '}'
  {
  }

  /** In `a + {{key}} + b` with brace-free parts, `{{other}}` does not start at `i`. */
  lemma NotPlaceholderAt(a: string, key: string, b: string, other: string, i: nat)
    requires '{' !in a && '{' !in b && BraceFree(key) && BraceFree(other) && other != key
    requires i + |Placeholder(other)| <= |a + Placeholder(key) + b|
    ensures (a + Placeholder(key) + b)[i..i + |Placeholder(other)|] != Placeholder(other)
  {
    var s := a + Placeholder(key) + b;
    var q := Placeholder(other);
    var w := s[i..i + |q|];
    if i < |a| {
      assert w[0] == a[i] != q[0];
    } else if i == |a| + 1 {
      PlaceholderChars(key);
      assert w[1] == s[|a| + 2] == Placeholder(key)[2];
      assert w[1] != q[1];
    } else if |a| + 1 < i < |a| + 2 + |key| {
      assert w[0] == key[i - |a| - 2] != q[0];
    } else if |a| + 2 + |key| <= i < |a| + 4 + |key| {
      assert w[0] == '}' != q[0];
    } else if i >= |a| + 4 + |key| {
      assert w[0] == b[i - |a| - 4 - |key|] != q[0];
    } else if |other| < |key| {
      assert w[2 + |other|] == key[|other|] != q[2 + |other|];
    } else if |other| > |key| {
      assert w[2 + |key|] == '}' != q[2 + |key|];
    } else {
      var t :| 0 <= t < |key| && other[t] != key[t];
      assert w[2 + t] == key[t] != q[2 + t];
    }
  }

  /** In `a + {{key}} + b` with brace-free parts, the only placeholder is `{{key}}`. */
  lemma OnlyOwnPlaceholder(a: string, key: string, b: string, other: string)
    requires '{' !in a && '{' !in b && BraceFree(key) && BraceFree(other) && other != key
    ensures !Contains(a + Placeholder(key) + b, Placeholder(other))
  {
    var s := a + Placeholder(key) + b;
    var q := Placeholder(other);
    if Contains(s, q) {
      var i := OccurrenceIndex(s, q);
      NotPlaceholderAt(a, key, b, other, i);
    }
  }

  /**
   * A template whose text around one `{{key}}` holds no braces, over brace-free variables,
   * comes out with that placeholder replaced by the key's value and nothing else changed.
   */
  lemma {:induction false} SubstituteOnePlaceholder(a: string, key: string, b: string,
                                                    keys: seq<string>, values: map<string, string>)
    requires BraceFree(a) && BraceFree(b) && key in keys
    requires forall k :: k in keys ==> k in values && BraceFree(k) && BraceFree(values[k])
    ensures Substituted(a + Placeholder(key) + b, keys, values) == a + values[key] + b
    decreases |keys|
  {
    var s := a + Placeholder(key) + b;
    if keys[0] == key {
      ReplaceOnePlaceholder(a, key, b, values[key]);
      SubstituteWithoutBraces(a + values[key] + b, keys[1..], values);
    } else {
      OnlyOwnPlaceholder(a, key, b, keys[0]);
      ReplaceAbsent(s, Placeholder(keys[0]), values[keys[0]]);
      SubstituteOnePlaceholder(a, key, b, keys[1..], values);
    }
  }

  /**
   * Substitution runs in map order and rescans earlier results: a value that mentions a
   * later key is substituted again, one that mentions an earlier key is not.
   */
  lemma SubstituteInMapOrder()
    ensures Substituted("{{a}}", ["a", "b"], map["a" := "{{b}}", "b" := "x"]) == "x"
    ensures Substituted("{{a}}", ["b", "a"], map["a" := "{{b}}", "b" := "x"]) == "{{b}}"
  {
    var values := map["a" := "{{b}}", "b" := "x"];
    ReplaceOnePlaceholder("", "a", "", "{{b}}");
    assert "" + Placeholder("a") + "" == "{{a}}";
    assert Placeholder("b") == "{{b}}";
    ReplaceOnePlaceholder("", "b", "", "x");
    assert "" + Placeholder("b") + "" == "{{b}}";
    assert Substituted("x", [], values) == "x";
    assert ["a", "b"][1..] == ["b"] && ["b"][1..] == [];
    OnlyOwnPlaceholder("", "a", "", "b");
    ReplaceAbsent("{{a}}", Placeholder("b"), "x");
    assert ["b", "a"][1..] == ["a"] && ["a"][1..] == [];
  }

  // ---------- copying a template tree ----------

  /**
   * An entry of a template directory: a file with its text (`None` when it is not valid
   * text and is copied byte for byte) or a directory with its entries in `iterdir()` order.
   */
  datatype Entry = File(name: string, text: Option<string>) | Dir(name: string, entries: seq<Entry>)

  /**
   * The name an entry gets in the new project: `{{name}}` inside it becomes the project
   * name, and a directory named exactly `__name__` becomes the name with `-` turned into `_`.
   */
  function DestName(e: Entry, name: string): string {
    if e.Dir? && e.name == "__name__" then Underscored(name) else Replace(e.name, Placeholder("name"), name)
  }

  /** A `__name__` directory becomes the importable package name. */
  lemma PackageDirName(entries: seq<Entry>, name: string)
    ensures DestName(Dir("__name__", entries), name) == Underscored(name)
    ensures '-' !in DestName(Dir("__name__", entries), name)
  {
  }

  /** Only a directory is renamed for `__name__`: a file of that name keeps it. */
  lemma FileNamedLikePackage(text: Option<string>, name: string)
    ensures DestName(File("__name__", text), name) == "__name__"
  {
    ReplaceWithoutBrace("__name__", "name", name);
  }

  /** `{{name}}` inside an entry name, with no other braces, becomes the project name. */
  lemma NamePlaceholderInEntryName(e: Entry, a: string, b: string, name: string)
    requires e.name == a + Placeholder("name") + b && '{' !in a && '{' !in b
    ensures DestName(e, name) == a + name + b
  {
    ReplaceOnePlaceholder(a, "name", b, name);
  }

  /** The copy of a template's entries, in the same order. */
  function Copied(entries: seq<Entry>, name: string, vars: Dict<string>): (r: seq<Entry>)
    requires vars.Valid()
    ensures |r| == |entries|
    decreases entries
  {
    if |entries| == 0 then []
    else [CopiedEntry(entries[0], name, vars)] + Copied(entries[1..], name, vars)
  }

  /** The copy of one entry: text substituted, bytes kept, directories copied recursively. */
  function CopiedEntry(e: Entry, name: string, vars: Dict<string>): (r: Entry)
    requires vars.Valid()
    ensures r.name == DestName(e, name) && r.Dir? == e.Dir?
    decreases e
  {
    match e
    case File(_, None) => File(DestName(e, name), None)
    case File(_, Some(t)) => File(DestName(e, name), Some(Substituted(t, vars.keys, vars.entries)))
    case Dir(_, children) => Dir(DestName(e, name), Copied(children, name, vars))
  }

  /**
   * `_copy_template(src, dest, project_name, variables)`: builds the variable map, then
   * copies every entry, recursing into directories with the same variables.
   */
  method CopyTemplate(entries: seq<Entry>, name: string, defaults: Dict<string>, variables: Dict<string>)
    returns (out: seq<Entry>)
    requires defaults.Valid() && variables.Valid()
    ensures out == Copied(entries, name, Variables(defaults, variables, name))
    decreases entries
  {
    var varMap := Variables(defaults, variables, name);
    out := [];
    for i := 0 to |entries|
      invariant out == Copied(entries[..i], name, varMap)
    {
      var copy := CopyEntry(entries[i], name, defaults, variables);
      CopiedAppend(entries[..i], entries[i], name, varMap);
      TakeOneMore(entries, i);
      out := out + [copy];
    }
    assert entries[..|entries|] == entries;
  }

  /** One step of `_copy_template`: a directory is copied recursively, a text file substituted. */
  method CopyEntry(e: Entry, name: string, defaults: Dict<string>, variables: Dict<string>)
    returns (copy: Entry)
    requires defaults.Valid() && variables.Valid()
    ensures copy == CopiedEntry(e, name, Variables(defaults, variables, name))
    decreases e
  {
    match e {
      case Dir(_, children) =>
        var inner := CopyTemplate(children, name, defaults, variables);
        copy := Dir(DestName(e, name), inner);
      case File(_, None) =>
        copy := File(DestName(e, name), None);
      case File(_, Some(t)) =>
        var content := SubstituteVariables(t, Variables(defaults, variables, name));
        copy := File(DestName(e, name), Some(content));
    }
  }

  /** A prefix one element longer. */
  lemma TakeOneMore<T>(s: seq<T>, i: nat)
    requires i < |s|
    ensures s[..i + 1] == s[..i] + [s[i]]
  {
  }

  /** The copy has the template's entries in order, each renamed and of the same kind. */
  lemma {:induction false} CopiedNames(entries: seq<Entry>, name: string, vars: Dict<string>)
    requires vars.Valid()
    ensures forall i :: 0 <= i < |entries| ==>
      Copied(entries, name, vars)[i].name == DestName(entries[i], name)
      && Copied(entries, name, vars)[i].Dir? == entries[i].Dir?
    decreases |entries|
  {
    if |entries| > 0 {
      CopiedNames(entries[1..], name, vars);
      var r := Copied(entries, name, vars);
      forall i | 0 < i < |entries| ensures r[i] == Copied(entries[1..], name, vars)[i - 1] {
      }
    }
  }

  /** Copying entry by entry: the copy of `entries + [e]` ends with the copy of `e`. */
  lemma {:induction false} CopiedAppend(entries: seq<Entry>, e: Entry, name: string, vars: Dict<string>)
    requires vars.Valid()
    ensures Copied(entries + [e], name, vars) == Copied(entries, name, vars) + [CopiedEntry(e, name, vars)]
    decreases |entries|
  {
    if |entries| > 0 {
      assert (entries + [e])[1..] == entries[1..] + [e];
      CopiedAppend(entries[1..], e, name, vars);
    } else {
      assert [] + [e] == [e];
    }
  }

  // ---------- creating a project ----------

  /** `TemplateNotFoundError` and `FileExistsError`, with their messages. */
  datatype ScaffoldError = TemplateNotFound(message: string) | FileExists(message: string)

  /**
   * What scaffolding sees of the machine: the installed templates (in `iterdir()` order),
   * the paths that exist, the platform, and the inputs of `get_default_variables`.
   */
  datatype Workspace = Workspace(
    templates: Dict<seq<Entry>>,
    existing: set<string>,
    platform: Paths.Platform,
    user: string,
    userDefaults: Option<Dict<string>>,
    environ: map<string, string>)
  {
    ghost predicate Valid() {
      templates.Valid() && (userDefaults.Some? ==> userDefaults.value.Valid())
    }
  }

  /** `get_available_templates()` as the error message lists them. */
  function AvailableList(ws: Workspace): (s: string)
    ensures s != ""
    ensures ws.templates.keys == [] ==> s == "none"
    ensures |ws.templates.keys| == 1 && ws.templates.keys[0] != "" ==> s == ws.templates.keys[0]
  {
    var listed := Join(ws.templates.keys, ", ");
    if listed == "" then "none" else listed
  }

  /** `Path(path).resolve() / name`, for a `parent` that is already absolute. */
  function ProjectPath(ws: Workspace, parent: string, name: string): string {
    Paths.Join(ws.platform, parent, name)
  }

  /** The error `create_project_structure` raises before creating anything, if any. */
  function StructureError(ws: Workspace, name: string, template: string, parent: string): (e: Option<ScaffoldError>)
    ensures e.None? <==> template in ws.templates.entries && ProjectPath(ws, parent, name) !in ws.existing
    ensures template !in ws.templates.entries ==> e.Some? && e.value.TemplateNotFound?
    ensures template in ws.templates.entries && ProjectPath(ws, parent, name) in ws.existing ==>
      e == Some(FileExists("Directory already exists: " + ProjectPath(ws, parent, name)))
  {
    if template !in ws.templates.entries then
      Some(TemplateNotFound("Template '" + template + "' not found. Available: " + AvailableList(ws)))
    else if ProjectPath(ws, parent, name) in ws.existing then
      Some(FileExists("Directory already exists: " + ProjectPath(ws, parent, name)))
    else None
  }

  /**
   * `create_project_structure(name, template, path, variables)`: the project path and the
   * tree written under it, or the error raised before anything is created.
   */
  method CreateProjectStructure(ws: Workspace, name: string, template: string, parent: string, variables: Dict<string>)
    returns (r: Result<(string, seq<Entry>), ScaffoldError>)
    requires ws.Valid() && variables.Valid()
    ensures r.Err? <==> StructureError(ws, name, template, parent).Some?
    ensures r.Err? ==> r.error == StructureError(ws, name, template, parent).value
    ensures r.Ok? ==> r.value.0 == ProjectPath(ws, parent, name)
    ensures r.Ok? ==> r.value.1 == Copied(ws.templates.entries[template], name,
      Variables(DefaultVariables(ws.user, ws.userDefaults, ws.environ), variables, name))
  {
    if template !in ws.templates.entries {
      return Err(TemplateNotFound("Template '" + template + "' not found. Available: " + AvailableList(ws)));
    }
    var projectPath := ProjectPath(ws, parent, name);
    if projectPath in ws.existing {
      return Err(FileExists("Directory already exists: " + projectPath));
    }
    var defaults := DefaultVariables(ws.user, ws.userDefaults, ws.environ);
    var tree := CopyTemplate(ws.templates.entries[template], name, defaults, variables);
    return Ok((projectPath, tree));
  }

  // ---------- virtual environments ----------

  /** The interpreter's file name inside the scripts directory. */
  function PythonExe(p: Paths.Platform): string {
    if p.Windows? then "python.exe" else "python"
  }

  /**
   * `get_venv_python(venv)`: `Scripts/python.exe` on Windows, `bin/python` elsewhere; it is
   * the directory activation puts at the front of `PATH`.
   */
  function VenvPython(p: Paths.Platform, venv: string): (r: string)
    ensures r == Paths.Join(p, Runner.ScriptsDir(p, venv), PythonExe(p))
  {
    if p.Windows? then Paths.Join(p, Paths.Join(p, venv, "Scripts"), "python.exe")
    else Paths.Join(p, Paths.Join(p, venv, "bin"), "python")
  }

  /** Where `detect_venv` looks, in order. */
  const VenvCandidates: seq<string> := [".venv", "venv", ".env", "env"]

  /** The candidate directory `c` of `project` holds an interpreter. */
  predicate HasInterpreter(p: Paths.Platform, existing: set<string>, project: string, c: string) {
    VenvPython(p, Paths.Join(p, project, c)) in existing
  }

  /** `detect_venv(project_path)`: the first candidate that holds an interpreter. */
  method DetectVenv(p: Paths.Platform, existing: set<string>, project: string) returns (r: Option<string>)
    ensures r.None? <==> forall i :: 0 <= i < |VenvCandidates| ==> !HasInterpreter(p, existing, project, VenvCandidates[i])
    ensures r.Some? ==> exists i :: (0 <= i < |VenvCandidates|
      && r.value == Paths.Join(p, project, VenvCandidates[i])
      && HasInterpreter(p, existing, project, VenvCandidates[i])
      && (forall j :: 0 <= j < i ==> !HasInterpreter(p, existing, project, VenvCandidates[j])))
  {
    var hit := FirstWhere(VenvCandidates, c => HasInterpreter(p, existing, project, c));
    if hit.Some? {
      r := Some(Paths.Join(p, project, VenvCandidates[hit.value]));
    } else {
      r := None;
    }
  }

  /** The loop of `detect_venv`: the index of the first candidate passing the test `has`. */
  method FirstWhere(candidates: seq<string>, has: string -> bool) returns (r: Option<nat>)
    ensures r.None? <==> forall i :: 0 <= i < |candidates| ==> !has(candidates[i])
    ensures r.Some? ==> (r.value < |candidates| && has(candidates[r.value])
      && forall j :: 0 <= j < r.value ==> !has(candidates[j]))
  {
    for i := 0 to |candidates|
      invariant forall j :: 0 <= j < i ==> !has(candidates[j])
    {
      if has(candidates[i]) {
        return Some(i);
      }
    }
    return None;
  }

  /** The dictionary `create_project` returns. */
  datatype ProjectInfo = ProjectInfo(name: string, path: string, venvPath: Option<string>, gitInitialized: bool)

  /**
   * `create_project(...)`. `gitSucceeds` and `venvSucceeds` are what `init_git` and
   * `create_venv` report; each is consulted only when its step is asked for. After a
   * structure error nothing is registered; otherwise the project is registered whether or
   * not the optional steps worked (and `add_project` keeps an existing row of that name).
   */
  method CreateProject(reg: Registry.Registry, ws: Workspace, name: string, template: string, parent: string,
                       initGitRepo: bool, createVenvEnv: bool, variables: Dict<string>,
                       gitSucceeds: bool, venvSucceeds: bool, now: string)
    returns (r: Result<ProjectInfo, ScaffoldError>, tree: seq<Entry>)
    requires ws.Valid() && variables.Valid() && reg.Valid()
    modifies reg
    ensures reg.Valid()
    ensures r.Err? <==> StructureError(ws, name, template, parent).Some?
    ensures r.Err? ==> r.error == StructureError(ws, name, template, parent).value && reg.projects == old(reg.projects)
    ensures r.Ok? ==> r.value.name == name && r.value.path == ProjectPath(ws, parent, name)
    ensures r.Ok? ==> (r.value.gitInitialized <==> initGitRepo && gitSucceeds)
    ensures r.Ok? ==> r.value.venvPath == (if createVenvEnv && venvSucceeds
      then Some(Paths.Join(ws.platform, r.value.path, ".venv")) else None)
    ensures r.Ok? ==> reg.projects == (if name in old(reg.projects) then old(reg.projects)
      else old(reg.projects)[name := Registry.Project(name, r.value.path, r.value.venvPath, None, None, Some(now), Some(now))])
    ensures reg.snippets == old(reg.snippets) && reg.config == old(reg.config)
  {
    var structure := CreateProjectStructure(ws, name, template, parent, variables);
    if structure.Err? {
      return Err(structure.error), [];
    }
    var projectPath := structure.value.0;
    tree := structure.value.1;
    var info := ProjectInfo(name, projectPath, None, false);
    if initGitRepo {
      info := info.(gitInitialized := gitSucceeds);
    }
    if createVenvEnv {
      if venvSucceeds {
        info := info.(venvPath := Some(Paths.Join(ws.platform, projectPath, ".venv")));
      }
    }
    var _ := reg.AddProject(name, projectPath, info.venvPath, None, None, now);
    return Ok(info), tree;
  }
}
