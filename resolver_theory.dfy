/**
 * What `resolve_dependencies` guarantees, proved about `DependencyResolver.Resolve`:
 * on success the order lists every task reachable from the target exactly once,
 * dependencies strictly first and the target last; every error names a task that is
 * reachable and either missing or on a cycle; and the walk succeeds exactly when no
 * reachable task is missing and none lies on a cycle.
 */
module ResolverTheory {
  import opened Wrappers
  import opened TaskConfig
  import opened DependencyResolver

  /** `p` follows `depends_on` edges from its first task to its last. */
  ghost predicate IsPath(tasks: TaskMap, p: seq<string>) {
    |p| >= 1 && forall i :: 0 <= i < |p| - 1 ==> p[i + 1] in Deps(tasks, p[i])
  }

  /** `b` is `a` or one of its transitive dependencies. */
  ghost predicate Reaches(tasks: TaskMap, a: string, b: string) {
    exists p :: IsPath(tasks, p) && p[0] == a && p[|p| - 1] == b
  }

  /** Following dependencies from `n` leads back to `n`. */
  ghost predicate OnCycle(tasks: TaskMap, n: string) {
    exists p :: IsPath(tasks, p) && |p| >= 2 && p[0] == n && p[|p| - 1] == n
  }

  ghost predicate NoDup(s: seq<string>) {
    forall i, j :: 0 <= i < j < |s| ==> s[i] != s[j]
  }

  /** Every dependency of a listed task is listed strictly before it. */
  ghost predicate DepsFirst(tasks: TaskMap, order: seq<string>) {
    && (forall i, d :: 0 <= i < |order| && d in Deps(tasks, order[i]) ==> d in order)
    && (forall i, j :: 0 <= i < |order| && 0 <= j < |order| && order[j] in Deps(tasks, order[i]) ==> j < i)
  }

  /** What holds of the walk state between steps. */
  ghost predicate WalkInv(tasks: TaskMap, w: Walk) {
    && NoDup(w.order)
    && (forall n :: n in w.order <==> n in w.visited)
    && w.visited !! w.inProgress
    && w.visited <= tasks.Keys
    && DepsFirst(tasks, w.order)
  }

  /** Every error a result carries names a reachable task that is missing or on a cycle. */
  ghost predicate ErrorExplained<T>(tasks: TaskMap, root: string, r: Result<T, ConfigError>) {
    r.Err? ==>
      match r.error
      case TaskNotFound(n) => n !in tasks && Reaches(tasks, root, n)
      case CyclicDependency(n) => OnCycle(tasks, n) && Reaches(tasks, root, n)
  }

  lemma PathExtend(tasks: TaskMap, p: seq<string>, d: string)
    requires IsPath(tasks, p) && d in Deps(tasks, p[|p| - 1])
    ensures IsPath(tasks, p + [d])
  {
    var q := p + [d];
    forall i | 0 <= i < |q| - 1 ensures q[i + 1] in Deps(tasks, q[i]) {
      if i < |p| - 1 { assert q[i] == p[i] && q[i + 1] == p[i + 1]; }
    }
  }

  lemma ReachesExtend(tasks: TaskMap, root: string, n: string, d: string)
    requires Reaches(tasks, root, n) && d in Deps(tasks, n)
    ensures Reaches(tasks, root, d)
  {
    var p :| IsPath(tasks, p) && p[0] == root && p[|p| - 1] == n;
    PathExtend(tasks, p, d);
    assert (p + [d])[0] == root;
  }

  /** Finishing `name` (all its dependencies done) by appending it keeps the invariant. */
  lemma FinishKeepsInvariant(tasks: TaskMap, w: Walk, name: string)
    requires WalkInv(tasks, w) && name in tasks && name in w.inProgress
    requires forall d :: d in Deps(tasks, name) ==> d in w.visited
    ensures WalkInv(tasks, Walk(w.visited + {name}, w.inProgress - {name}, w.order + [name]))
  {
    var o := w.order + [name];
    assert name !in w.order;
    forall i, j | 0 <= i < |o| && 0 <= j < |o| && o[j] in Deps(tasks, o[i]) ensures j < i {
      if i < |w.order| && j == |w.order| {
        assert false;
      } else if i == |w.order| {
        assert o[j] in w.visited;
        assert j != i;
      } else {
        assert o[i] == w.order[i] && o[j] == w.order[j];
      }
    }
    forall i, d | 0 <= i < |o| && d in Deps(tasks, o[i]) ensures d in o {
      if i < |w.order| {
        assert o[i] == w.order[i];
        assert d in w.order;
      } else {
        assert d in w.visited;
      }
    }
  }

  /** A successful `visit` keeps the invariant, only appends, and records `name`. */
  lemma {:induction false} DfsKeepsInvariant(tasks: TaskMap, root: string, name: string, w: Walk)
    requires WalkInv(tasks, w) && Dfs(tasks, name, w).Ok?
    requires Reaches(tasks, root, name) && forall v :: v in w.visited ==> Reaches(tasks, root, v)
    ensures var w' := Dfs(tasks, name, w).value;
      && WalkInv(tasks, w')
      && w.order <= w'.order
      && name in w'.visited
      && (forall v :: v in w'.visited ==> Reaches(tasks, root, v))
      && (name !in w.visited ==> w'.order[|w'.order| - 1] == name)
    decreases |tasks.Keys - w.inProgress|, 0
  {
    if name !in w.visited {
      LessInProgress(tasks.Keys, w.inProgress, name);
      var w1 := w.(inProgress := w.inProgress + {name});
      var deps := tasks[name].Deps();
      forall d | d in deps ensures Reaches(tasks, root, d) {
        ReachesExtend(tasks, root, name, d);
      }
      DfsAllKeepsInvariant(tasks, root, deps, w1);
      var w2 := DfsAll(tasks, deps, w1).value;
      FinishKeepsInvariant(tasks, w2, name);
      assert Dfs(tasks, name, w).value == Walk(w2.visited + {name}, w2.inProgress - {name}, w2.order + [name]);
    }
  }

  lemma {:induction false} DfsAllKeepsInvariant(tasks: TaskMap, root: string, deps: seq<string>, w: Walk)
    requires WalkInv(tasks, w) && DfsAll(tasks, deps, w).Ok?
    requires forall d :: d in deps ==> Reaches(tasks, root, d)
    requires forall v :: v in w.visited ==> Reaches(tasks, root, v)
    ensures var w' := DfsAll(tasks, deps, w).value;
      && WalkInv(tasks, w')
      && w.order <= w'.order
      && w.visited <= w'.visited
      && (forall d :: d in deps ==> d in w'.visited)
      && (forall v :: v in w'.visited ==> Reaches(tasks, root, v))
    decreases |tasks.Keys - w.inProgress|, |deps|
  {
    if |deps| > 0 {
      DfsKeepsInvariant(tasks, root, deps[0], w);
      var w1 := Dfs(tasks, deps[0], w).value;
      DfsAllKeepsInvariant(tasks, root, deps[1..], w1);
      forall d | d in deps ensures d in DfsAll(tasks, deps, w).value.visited {
        if d != deps[0] { assert d in deps[1..]; }
      }
    }
  }

  /** Errors raised inside `visit` name a reachable task that is missing or on a cycle. */
  lemma {:induction false} DfsErrorExplained(tasks: TaskMap, root: string, stack: seq<string>, name: string, w: Walk)
    requires IsPath(tasks, stack + [name]) && (stack + [name])[0] == root
    requires forall n :: n in w.inProgress <==> n in stack
    ensures ErrorExplained(tasks, root, Dfs(tasks, name, w))
    decreases |tasks.Keys - w.inProgress|, 0
  {
    var p := stack + [name];
    assert Reaches(tasks, root, name) by { assert p[|p| - 1] == name; }
    if name in w.visited {
    } else if name in w.inProgress {
      var k :| 0 <= k < |stack| && stack[k] == name;
      var c := p[k..];
      assert IsPath(tasks, c) by {
        forall i | 0 <= i < |c| - 1 ensures c[i + 1] in Deps(tasks, c[i]) {
          assert c[i] == p[k + i] && c[i + 1] == p[k + i + 1];
        }
      }
      assert c[0] == name && c[|c| - 1] == name && |c| >= 2;
    } else if name !in tasks {
    } else {
      LessInProgress(tasks.Keys, w.inProgress, name);
      var w1 := w.(inProgress := w.inProgress + {name});
      DfsAllErrorExplained(tasks, root, p, tasks[name].Deps(), w1);
    }
  }

  lemma {:induction false} DfsAllErrorExplained(tasks: TaskMap, root: string, stack: seq<string>, deps: seq<string>, w: Walk)
    requires IsPath(tasks, stack) && stack[0] == root
    requires forall d :: d in deps ==> d in Deps(tasks, stack[|stack| - 1])
    requires forall n :: n in w.inProgress <==> n in stack
    ensures ErrorExplained(tasks, root, DfsAll(tasks, deps, w))
    decreases |tasks.Keys - w.inProgress|, |deps|
  {
    if |deps| > 0 {
      assert deps[0] in deps;
      PathExtend(tasks, stack, deps[0]);
      DfsErrorExplained(tasks, root, stack, deps[0], w);
      match Dfs(tasks, deps[0], w)
      case Err(_) =>
      case Ok(w1) =>
        forall d | d in deps[1..] ensures d in Deps(tasks, stack[|stack| - 1]) {
          assert d in deps;
        }
        DfsAllErrorExplained(tasks, root, stack, deps[1..], w1);
    }
  }

  /** Following dependencies from a listed task never leaves the order, and goes strictly backwards in it. */
  lemma {:induction false} PathGoesBackwards(tasks: TaskMap, order: seq<string>, p: seq<string>, i0: nat)
    requires DepsFirst(tasks, order) && IsPath(tasks, p) && |p| >= 2
    requires i0 < |order| && order[i0] == p[0]
    ensures exists j :: 0 <= j < i0 && order[j] == p[|p| - 1]
    decreases |p|
  {
    assert p[1] in Deps(tasks, order[i0]);
    assert p[1] in order;
    var j1 :| 0 <= j1 < |order| && order[j1] == p[1];
    assert j1 < i0;
    if |p| > 2 {
      var q := p[1..];
      assert IsPath(tasks, q) by {
        forall i | 0 <= i < |q| - 1 ensures q[i + 1] in Deps(tasks, q[i]) {
          assert q[i] == p[i + 1] && q[i + 1] == p[i + 2];
        }
      }
      PathGoesBackwards(tasks, order, q, j1);
      assert q[|q| - 1] == p[|p| - 1];
    }
  }

  /** A task reachable from a listed task is listed. */
  lemma {:induction false} PathStaysListed(tasks: TaskMap, order: seq<string>, p: seq<string>)
    requires DepsFirst(tasks, order) && IsPath(tasks, p) && p[0] in order
    ensures p[|p| - 1] in order
    decreases |p|
  {
    if |p| > 1 {
      var q := p[..|p| - 1];
      assert IsPath(tasks, q) by {
        forall i | 0 <= i < |q| - 1 ensures q[i + 1] in Deps(tasks, q[i]) {
          assert q[i] == p[i] && q[i + 1] == p[i + 1];
        }
      }
      PathStaysListed(tasks, order, q);
      assert p[|p| - 1] in Deps(tasks, p[|p| - 2]);
      var k :| 0 <= k < |order| && order[k] == p[|p| - 2];
    }
  }

  /**
   * On success the order is a topological order of exactly the tasks reachable from the
   * target: each appears once, each dependency strictly before its dependent, the target
   * last, and every listed name is a task.
   */
  lemma ResolveSound(tasks: TaskMap, target: string, order: seq<string>)
    requires Resolve(tasks, target) == Ok(order)
    ensures NoDup(order)
    ensures |order| > 0 && order[|order| - 1] == target
    ensures DepsFirst(tasks, order)
    ensures forall n :: n in order ==> n in tasks
    ensures forall n :: n in order <==> Reaches(tasks, target, n)
  {
    var w0 := Walk({}, {}, []);
    assert IsPath(tasks, [target]);
    assert Reaches(tasks, target, target) by { assert [target][0] == target; }
    DfsKeepsInvariant(tasks, target, target, w0);
    var w := Dfs(tasks, target, w0).value;
    assert order == w.order;
    forall n | Reaches(tasks, target, n) ensures n in order {
      var p :| IsPath(tasks, p) && p[0] == target && p[|p| - 1] == n;
      PathStaysListed(tasks, order, p);
    }
  }

  /** A target that is not a task is reported as not found. */
  lemma ResolveMissingTarget(tasks: TaskMap, target: string)
    requires target !in tasks
    ensures Resolve(tasks, target) == Err(TaskNotFound(target))
  {
  }

  /** Every error names a task reachable from the target that is missing or lies on a cycle. */
  lemma ResolveErrorExplained(tasks: TaskMap, target: string)
    ensures ErrorExplained(tasks, target, Resolve(tasks, target))
  {
    if target !in tasks {
      assert IsPath(tasks, [target]) && [target][0] == target;
    } else {
      DfsErrorExplained(tasks, target, [], target, Walk({}, {}, []));
    }
  }

  /**
   * The walk succeeds exactly when every task reachable from the target exists and none of
   * them lies on a cycle; so a reachable missing dependency or a reachable cycle always
   * makes it fail, and never yields a partial order.
   */
  lemma ResolveSucceedsIff(tasks: TaskMap, target: string)
    ensures Resolve(tasks, target).Ok? <==>
      forall n :: Reaches(tasks, target, n) ==> n in tasks && !OnCycle(tasks, n)
  {
    var r := Resolve(tasks, target);
    if r.Ok? {
      ResolveSound(tasks, target, r.value);
      var order := r.value;
      forall n | Reaches(tasks, target, n) ensures !OnCycle(tasks, n) {
        if OnCycle(tasks, n) {
          var p :| IsPath(tasks, p) && |p| >= 2 && p[0] == n && p[|p| - 1] == n;
          var i0 :| 0 <= i0 < |order| && order[i0] == n;
          PathGoesBackwards(tasks, order, p, i0);
          assert false;
        }
      }
    } else {
      ResolveErrorExplained(tasks, target);
    }
  }

  /** With no cycle reachable, the only possible error is a missing task. */
  lemma ResolveAcyclicFailsOnlyNotFound(tasks: TaskMap, target: string)
    requires forall n :: Reaches(tasks, target, n) ==> !OnCycle(tasks, n)
    ensures Resolve(tasks, target).Err? ==> Resolve(tasks, target).error.TaskNotFound?
  {
    ResolveErrorExplained(tasks, target);
  }

  /** A task with a command and a `depends_on` list and nothing else. */
  function Command(c: string, deps: seq<string>): (t: Task)
    ensures t.Deps() == deps && t.command == Some(c)
  {
    Task(Some(c), None, Some(deps), None, None, None, {})
  }

  /** Visiting a new task without dependencies appends it and nothing else. */
  lemma DfsLeaf(tasks: TaskMap, name: string, w: Walk)
    requires name in tasks && tasks[name].Deps() == [] && name !in w.visited && name !in w.inProgress
    ensures Dfs(tasks, name, w) == Ok(Walk(w.visited + {name}, w.inProgress, w.order + [name]))
  {
    assert w.inProgress + {name} - {name} == w.inProgress;
  }

  /** `test` depends on `install` and `lint`: both are run first, in the listed order. */
  lemma ResolveTwoDependencies()
    ensures Resolve(map["install" := Command("pip install .", []), "lint" := Command("flake8", []),
                        "test" := Command("pytest", ["install", "lint"])], "test")
            == Ok(["install", "lint", "test"])
  {
    var tasks := map["install" := Command("pip install .", []), "lint" := Command("flake8", []),
                     "test" := Command("pytest", ["install", "lint"])];
    var w0 := Walk({}, {}, []);
    var w1 := Walk({}, {"test"}, []);
    assert w0.(inProgress := w0.inProgress + {"test"}) == w1;
    DfsLeaf(tasks, "install", w1);
    var w2 := Walk(w1.visited + {"install"}, w1.inProgress, w1.order + ["install"]);
    DfsLeaf(tasks, "lint", w2);
    var w3 := Walk(w2.visited + {"lint"}, w2.inProgress, w2.order + ["lint"]);
    assert DfsAll(tasks, ["install", "lint"][1..], w2) == Ok(w3);
    assert DfsAll(tasks, ["install", "lint"], w1) == Ok(w3);
    assert w3.order + ["test"] == ["install", "lint", "test"];
  }

  /** `a` and `b` depend on each other: resolving `a` reports the cycle at `a`. */
  lemma ResolveMutualCycle()
    ensures Resolve(map["a" := Command("echo a", ["b"]), "b" := Command("echo b", ["a"])], "a")
            == Err(CyclicDependency("a"))
  {
    var tasks := map["a" := Command("echo a", ["b"]), "b" := Command("echo b", ["a"])];
    var w0 := Walk({}, {}, []);
    var w1 := Walk({}, {"a"}, []);
    var w2 := Walk({}, {"a", "b"}, []);
    assert w0.(inProgress := w0.inProgress + {"a"}) == w1;
    assert w1.(inProgress := w1.inProgress + {"b"}) == w2;
    assert Dfs(tasks, "a", w2) == Err(CyclicDependency("a"));
    assert DfsAll(tasks, ["a"], w2) == Err(CyclicDependency("a"));
    assert Dfs(tasks, "b", w1) == Err(CyclicDependency("a"));
    assert DfsAll(tasks, ["b"], w1) == Err(CyclicDependency("a"));
  }
}
