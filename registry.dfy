/**
 * The SQLite registry (db.py): the `projects`, `snippets` and `config` tables as maps
 * from their primary key to their row, and every table operation as a method of one
 * `Registry` object that updates those maps. Timestamps (`CURRENT_TIMESTAMP`,
 * `datetime.now().isoformat()`) arrive as parameters.
 */
module Registry {
  import opened Wrappers
  import opened OrderedDict
  import opened SqlLike
  import Ordering

  /** A row of `projects`; `NULL` columns are `None`. */
  datatype Project = Project(
    name: string,
    rootPath: string,
    venvPath: Option<string>,
    description: Option<string>,
    tags: Option<string>,
    createdAt: Option<string>,
    lastAccessed: Option<string>)
  {
    /** The value of one column other than the key. */
    function Get(c: Column): Option<string> {
      match c
      case RootPath => Some(rootPath)
      case VenvPath => venvPath
      case Description => description
      case Tags => tags
      case CreatedAt => createdAt
      case LastAccessed => lastAccessed
    }
  }

  /** The columns `update_project` may set (everything but the key). */
  datatype Column = RootPath | VenvPath | Description | Tags | CreatedAt | LastAccessed

  /** A row of `snippets`. */
  datatype Snippet = Snippet(
    name: string,
    content: string,
    tags: Option<string>,
    createdAt: Option<string>,
    usageCount: int)

  /** The `sqlite3.IntegrityError` a `NOT NULL` column raises when set to `NULL`. */
  datatype DbError = NotNullConstraintFailed(column: string)

  /** Two rows that agree on the key and on every column are the same row. */
  lemma ProjectColumns(p: Project, q: Project)
    requires p.name == q.name
    requires forall c :: p.Get(c) == q.Get(c)
    ensures p == q
  {
    assert p.Get(RootPath) == q.Get(RootPath);
    assert p.Get(VenvPath) == q.Get(VenvPath) && p.Get(Description) == q.Get(Description);
    assert p.Get(Tags) == q.Get(Tags) && p.Get(CreatedAt) == q.Get(CreatedAt);
    assert p.Get(LastAccessed) == q.Get(LastAccessed);
  }

  /** `UPDATE projects SET c = v, ...` on one row. */
  function Assign(p: Project, fields: map<Column, Option<string>>): (r: Result<Project, DbError>)
    ensures r.Err? <==> RootPath in fields && fields[RootPath].None?
    ensures r.Err? ==> r.error == NotNullConstraintFailed("projects.root_path")
    ensures r.Ok? ==> r.value.name == p.name
    ensures r.Ok? ==> forall c :: r.value.Get(c) == if c in fields then fields[c] else p.Get(c)
  {
    if RootPath in fields && fields[RootPath].None? then Err(NotNullConstraintFailed("projects.root_path"))
    else
      Ok(Project(
        p.name,
        if RootPath in fields then fields[RootPath].value else p.rootPath,
        if VenvPath in fields then fields[VenvPath] else p.venvPath,
        if Description in fields then fields[Description] else p.description,
        if Tags in fields then fields[Tags] else p.tags,
        if CreatedAt in fields then fields[CreatedAt] else p.createdAt,
        if LastAccessed in fields then fields[LastAccessed] else p.lastAccessed))
  }

  /** An update that sets nothing leaves the row as it is. */
  lemma AssignNothing(p: Project)
    ensures Assign(p, map[]) == Ok(p)
  {
    ProjectColumns(Assign(p, map[]).value, p);
  }

  /** Setting the same fields twice is setting them once. */
  lemma AssignTwice(p: Project, fields: map<Column, Option<string>>)
    requires Assign(p, fields).Ok?
    ensures Assign(Assign(p, fields).value, fields) == Assign(p, fields)
  {
    ProjectColumns(Assign(Assign(p, fields).value, fields).value, Assign(p, fields).value);
  }

  /** `ORDER BY last_accessed DESC`: later text first, `NULL` last. */
  predicate AccessedNoEarlier(a: Project, b: Project) {
    match (a.lastAccessed, b.lastAccessed)
    case (_, None) => true
    case (None, Some(_)) => false
    case (Some(x), Some(y)) => Ordering.TextLe(y, x)
  }

  /** `ORDER BY usage_count DESC`. */
  predicate UsedNoLess(a: Snippet, b: Snippet) {
    a.usageCount >= b.usageCount
  }

  lemma AccessedNoEarlierTotal()
    ensures Ordering.Total(AccessedNoEarlier)
  {
    forall a: Project, b: Project ensures AccessedNoEarlier(a, b) || AccessedNoEarlier(b, a) {
      if a.lastAccessed.Some? && b.lastAccessed.Some? {
        Ordering.TextLeTotal(a.lastAccessed.value, b.lastAccessed.value);
      }
    }
  }

  /** `tags LIKE '%tag%'`; a `NULL` value matches nothing. */
  predicate TagLike(tags: Option<string>, q: string) {
    tags.Some? && Like("%" + q + "%", tags.value)
  }

  /** The `WHERE` of `get_all_snippets(tag)`: none when `tag` is `None` or empty. */
  predicate TagFilter(tag: Option<string>, s: Snippet) {
    tag.None? || tag.value == "" || TagLike(s.tags, tag.value)
  }

  /** The `WHERE` of `search_snippets(query)`. */
  predicate SearchFilter(query: string, s: Snippet) {
    Like("%" + query + "%", s.name) || Like("%" + query + "%", s.content) || TagLike(s.tags, query)
  }

  /** A tag without wildcards selects the snippets whose tags contain it, in any ASCII case. */
  lemma TagFilterIsSubstring(tag: string, s: Snippet)
    requires tag != "" && Plain(tag)
    ensures TagFilter(Some(tag), s) <==> s.tags.Some? && ContainsFolded(s.tags.value, tag)
  {
    if s.tags.Some? { SurroundedIsSubstring(tag, s.tags.value); }
  }

  /** A query without wildcards finds the snippets whose name, content or tags contain it. */
  lemma SearchFilterIsSubstring(query: string, s: Snippet)
    requires Plain(query)
    ensures SearchFilter(query, s) <==>
      ContainsFolded(s.name, query) || ContainsFolded(s.content, query) ||
      (s.tags.Some? && ContainsFolded(s.tags.value, query))
  {
    SurroundedIsSubstring(query, s.name);
    SurroundedIsSubstring(query, s.content);
    if s.tags.Some? { SurroundedIsSubstring(query, s.tags.value); }
  }

  /**
   * The query goes into the pattern unescaped, so `_` in it matches any one character:
   * searching for `a_c` finds a snippet named `abc`, whose name does not contain `a_c`.
   */
  lemma SearchUnderscoreIsWildcard(s: Snippet, c: char)
    requires s.name == ['a', c, 'c'] && c != '_'
    ensures SearchFilter("a_c", s)
    ensures !ContainsFolded(s.name, "a_c")
  {
    var p := "%a_c%";
    assert "%" + "a_c" + "%" == p;
    assert p[1..] == "a_c%" && p[1..][1..] == "_c%" && p[1..][1..][1..] == "c%";
    assert p[1..][1..][1..][1..] == "%";
    PercentMatchesAll([]);
    assert Like("%", s.name[1..][1..][1..]);
    assert Like("c%", s.name[1..][1..]);
    assert Like("_c%", s.name[1..]);
    assert Like("a_c%", s.name);
    assert Like(p, s.name);
  }

  /** An empty query matches every snippet: `'%%'` matches any non-`NULL` text. */
  lemma EmptySearchFindsAll(s: Snippet)
    ensures SearchFilter("", s)
  {
    SurroundedIsSubstring("", s.name);
    assert FoldedAt(s.name, "", 0);
  }

  class Registry {
    var projects: map<string, Project>
    var snippets: map<string, Snippet>
    var config: map<string, string>

    /** Each row is stored under its own primary key. */
    ghost predicate Valid()
      reads this
    {
      && (forall n :: n in projects ==> projects[n].name == n)
      && (forall n :: n in snippets ==> snippets[n].name == n)
    }

    /** `init_db` on a fresh database file: three empty tables. */
    constructor ()
      ensures Valid()
      ensures projects == map[] && snippets == map[] && config == map[]
    {
      projects, snippets, config := map[], map[], map[];
    }

    // ---------- projects ----------

    /** `add_project`: `False` and no change when the name is taken. */
    method AddProject(name: string, rootPath: string, venvPath: Option<string>,
                      description: Option<string>, tags: Option<string>, now: string)
      returns (added: bool)
      requires Valid()
      modifies this
      ensures Valid()
      ensures added <==> name !in old(projects)
      ensures projects == if added
        then old(projects)[name := Project(name, rootPath, venvPath, description, tags, Some(now), Some(now))]
        else old(projects)
      ensures snippets == old(snippets) && config == old(config)
    {
      if name in projects {
        return false;
      }
      projects := projects[name := Project(name, rootPath, venvPath, description, tags, Some(now), Some(now))];
      return true;
    }

    /** `update_project(name, **fields)`. */
    method UpdateProject(name: string, fields: map<Column, Option<string>>)
      returns (r: Result<bool, DbError>)
      requires Valid()
      modifies this
      ensures Valid()
      ensures fields == map[] || name !in old(projects) ==> r == Ok(false) && projects == old(projects)
      ensures fields != map[] && name in old(projects) ==>
        match Assign(old(projects)[name], fields)
        case Err(e) => r == Err(e) && projects == old(projects)
        case Ok(row) => r == Ok(true) && projects == old(projects)[name := row]
      ensures snippets == old(snippets) && config == old(config)
    {
      if fields == map[] {
        return Ok(false);
      }
      if name !in projects {
        return Ok(false);
      }
      match Assign(projects[name], fields)
      case Err(e) =>
        return Err(e);
      case Ok(row) =>
        projects := projects[name := row];
        return Ok(true);
    }

    /** `get_project`: the row as read, after which its `last_accessed` becomes `now`. */
    method GetProject(name: string, now: string) returns (row: Option<Project>)
      requires Valid()
      modifies this
      ensures Valid()
      ensures row == if name in old(projects) then Some(old(projects)[name]) else None
      ensures projects == if name in old(projects)
        then old(projects)[name := old(projects)[name].(lastAccessed := Some(now))]
        else old(projects)
      ensures snippets == old(snippets) && config == old(config)
    {
      if name !in projects {
        return None;
      }
      var before := projects[name];
      row := Some(before);
      var fields := map[LastAccessed := Some(now)];
      assert LastAccessed in fields;
      var _ := UpdateProject(name, fields);
      ProjectColumns(Assign(before, fields).value, before.(lastAccessed := Some(now)));
    }

    /** `get_all_projects`: every row, most recently accessed first. */
    method GetAllProjects() returns (rows: seq<Project>)
      ensures multiset(rows) == multiset(projects.Values)
      ensures Ordering.Arranged(rows, AccessedNoEarlier)
    {
      AccessedNoEarlierTotal();
      rows := Ordering.Query(projects.Values, _ => true, AccessedNoEarlier);
      assert (set p | p in projects.Values && true) == projects.Values;
    }

    /** `delete_project`: whether a row was deleted. */
    method DeleteProject(name: string) returns (deleted: bool)
      requires Valid()
      modifies this
      ensures Valid()
      ensures deleted <==> name in old(projects)
      ensures projects == old(projects) - {name}
      ensures snippets == old(snippets) && config == old(config)
    {
      deleted := name in projects;
      projects := projects - {name};
    }

    method ProjectExists(name: string) returns (exists_: bool)
      requires Valid()
      ensures exists_ <==> exists p :: p in projects.Values && p.name == name
    {
      exists_ := name in projects;
      if exists_ {
        assert projects[name] in projects.Values;
      }
    }

    /** A deleted project is no longer found (`test_delete_project`). */
    method DeleteThenGetProject(name: string, now: string) returns (deleted: bool, row: Option<Project>)
      requires Valid()
      modifies this
      ensures Valid()
      ensures deleted <==> name in old(projects)
      ensures row == None
      ensures projects == old(projects) - {name}
    {
      deleted := DeleteProject(name);
      row := GetProject(name, now);
    }

    /** Fields set by `update_project` are what `get_project` reads next (`test_update_project`). */
    method UpdateThenGetProject(name: string, description: string, tags: string, now: string)
      returns (row: Option<Project>)
      requires Valid()
      modifies this
      ensures Valid()
      ensures row.Some? <==> name in old(projects)
      ensures row.Some? ==> row.value.description == Some(description) && row.value.tags == Some(tags)
      ensures row.Some? ==> row.value.rootPath == old(projects)[name].rootPath
    {
      var fields := map[Description := Some(description), Tags := Some(tags)];
      assert Description in fields;
      var _ := UpdateProject(name, fields);
      row := GetProject(name, now);
      if row.Some? {
        assert row.value.Get(Description) == Some(description) && row.value.Get(Tags) == Some(tags);
        assert row.value.Get(RootPath) == old(projects)[name].Get(RootPath);
      }
    }

    // ---------- snippets ----------

    /** `add_snippet`: `False` and no change when the name is taken; a new row is unused. */
    method AddSnippet(name: string, content: string, tags: Option<string>, now: string)
      returns (added: bool)
      requires Valid()
      modifies this
      ensures Valid()
      ensures added <==> name !in old(snippets)
      ensures snippets == if added
        then old(snippets)[name := Snippet(name, content, tags, Some(now), 0)]
        else old(snippets)
      ensures projects == old(projects) && config == old(config)
    {
      if name in snippets {
        return false;
      }
      snippets := snippets[name := Snippet(name, content, tags, Some(now), 0)];
      return true;
    }

    /** `increment_snippet_usage`: a missing name changes nothing. */
    method IncrementSnippetUsage(name: string)
      requires Valid()
      modifies this
      ensures Valid()
      ensures snippets == if name in old(snippets)
        then old(snippets)[name := old(snippets)[name].(usageCount := old(snippets)[name].usageCount + 1)]
        else old(snippets)
      ensures projects == old(projects) && config == old(config)
    {
      if name in snippets {
        snippets := snippets[name := snippets[name].(usageCount := snippets[name].usageCount + 1)];
      }
    }

    /** `get_snippet`: the row as read, after which its use is counted. */
    method GetSnippet(name: string) returns (row: Option<Snippet>)
      requires Valid()
      modifies this
      ensures Valid()
      ensures row == if name in old(snippets) then Some(old(snippets)[name]) else None
      ensures snippets == if name in old(snippets)
        then old(snippets)[name := old(snippets)[name].(usageCount := old(snippets)[name].usageCount + 1)]
        else old(snippets)
      ensures projects == old(projects) && config == old(config)
    {
      if name !in snippets {
        return None;
      }
      row := Some(snippets[name]);
      IncrementSnippetUsage(name);
    }

    /** `get_all_snippets(tag)`: the rows whose tags contain `tag`, most used first. */
    method GetAllSnippets(tag: Option<string>) returns (rows: seq<Snippet>)
      ensures multiset(rows) == multiset(set s | s in snippets.Values && TagFilter(tag, s))
      ensures Ordering.Arranged(rows, UsedNoLess)
    {
      rows := Ordering.Query(snippets.Values, s => TagFilter(tag, s), UsedNoLess);
    }

    /** `search_snippets(query)`: the rows whose name, content or tags contain `query`. */
    method SearchSnippets(query: string) returns (rows: seq<Snippet>)
      ensures multiset(rows) == multiset(set s | s in snippets.Values && SearchFilter(query, s))
      ensures Ordering.Arranged(rows, UsedNoLess)
    {
      rows := Ordering.Query(snippets.Values, s => SearchFilter(query, s), UsedNoLess);
    }

    /** `update_snippet`: sets the given content and tags; `False` when neither is given. */
    method UpdateSnippet(name: string, content: Option<string>, tags: Option<string>)
      returns (updated: bool)
      requires Valid()
      modifies this
      ensures Valid()
      ensures updated <==> (content.Some? || tags.Some?) && name in old(snippets)
      ensures snippets == if updated
        then old(snippets)[name := old(snippets)[name].(
          content := content.GetOr(old(snippets)[name].content),
          tags := if tags.Some? then tags else old(snippets)[name].tags)]
        else old(snippets)
      ensures projects == old(projects) && config == old(config)
    {
      if content.None? && tags.None? {
        return false;
      }
      if name !in snippets {
        return false;
      }
      var row := snippets[name];
      if content.Some? {
        row := row.(content := content.value);
      }
      if tags.Some? {
        row := row.(tags := tags);
      }
      snippets := snippets[name := row];
      return true;
    }

    /** `delete_snippet`: whether a row was deleted. */
    method DeleteSnippet(name: string) returns (deleted: bool)
      requires Valid()
      modifies this
      ensures Valid()
      ensures deleted <==> name in old(snippets)
      ensures snippets == old(snippets) - {name}
      ensures projects == old(projects) && config == old(config)
    {
      deleted := name in snippets;
      snippets := snippets - {name};
    }

    // ---------- config ----------

    /** `set_config`: insert or replace. */
    method SetConfig(key: string, value: string)
      requires Valid()
      modifies this
      ensures Valid()
      ensures config == old(config)[key := value]
      ensures projects == old(projects) && snippets == old(snippets)
    {
      config := config[key := value];
    }

    method GetConfig(key: string) returns (value: Option<string>)
      ensures value.Some? <==> key in config
      ensures value.Some? ==> value.value == config[key]
    {
      if key in config {
        return Some(config[key]);
      }
      return None;
    }

    /** `get_all_config`: every setting, in a dictionary whose keys ascend. */
    method GetAllConfig() returns (d: Dict<string>)
      ensures d.Valid()
      ensures d.entries == config
      ensures Ordering.Arranged(d.keys, Ordering.TextLe)
    {
      TextLeTotal();
      var keys := Ordering.Query(config.Keys, _ => true, Ordering.TextLe);
      assert (set k | k in config.Keys && true) == config.Keys;
      Ordering.RowsOfSetDistinct(keys, config.Keys);
      forall k | k in keys ensures k in config {
        assert k in multiset(keys);
      }
      d := DictOfRows(keys, config);
      assert forall k :: k in keys <==> k in multiset(keys);
      assert d.entries == config;
    }

    /** `delete_config`: whether a setting was deleted. */
    method DeleteConfig(key: string) returns (deleted: bool)
      requires Valid()
      modifies this
      ensures Valid()
      ensures deleted <==> key in old(config)
      ensures config == old(config) - {key}
      ensures projects == old(projects) && snippets == old(snippets)
    {
      deleted := key in config;
      config := config - {key};
    }
  }

  /** `{row['key']: row['value'] for row in rows}` over rows with distinct keys. */
  method DictOfRows(keys: seq<string>, m: map<string, string>) returns (d: Dict<string>)
    requires forall i, j :: 0 <= i < j < |keys| ==> keys[i] != keys[j]
    requires forall k :: k in keys ==> k in m
    ensures d.Valid()
    ensures d.keys == keys
    ensures d.entries == map k | k in keys :: m[k]
  {
    d := Empty();
    var i := 0;
    while i < |keys|
      invariant 0 <= i <= |keys|
      invariant d.Valid()
      invariant d.keys == keys[..i]
      invariant d.entries == map k | k in keys[..i] :: m[k]
    {
      assert keys[i] !in keys[..i];
      d := d.Set(keys[i], m[keys[i]]);
      assert keys[..i + 1] == keys[..i] + [keys[i]];
      i := i + 1;
    }
    assert keys[..i] == keys;
  }

  lemma TextLeTotal()
    ensures Ordering.Total(Ordering.TextLe)
  {
    forall a, b ensures Ordering.TextLe(a, b) || Ordering.TextLe(b, a) {
      Ordering.TextLeTotal(a, b);
    }
  }
}
