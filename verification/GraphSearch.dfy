/**
Depth-first searches over a graph of names, as the build dependency graph uses them, on graphs that may have cycles.
A successor set that is missing counts as empty.  Where the code goes through a set, the order is arbitrary here.
*/
module GraphSearch {

  type Name = string
  type Graph = map<Name, set<Name>>

  function Succ(g: Graph, n: Name): set<Name> {
    if n in g then g[n] else {}
  }

  // ----- Paths -----

  ghost predicate IsPath(g: Graph, p: seq<Name>) {
    |p| > 0 && forall i :: 0 <= i < |p| - 1 ==> p[i + 1] in Succ(g, p[i])
  }

  ghost predicate PathBetween(g: Graph, p: seq<Name>, a: Name, b: Name) {
    IsPath(g, p) && p[0] == a && p[|p| - 1] == b
  }

  /** There is a path from `a` to `b`, perhaps of no steps. */
  ghost predicate Leads(g: Graph, a: Name, b: Name) {
    exists p :: PathBetween(g, p, a, b)
  }

  /** There is a path from `a` to `b` of at least one step. */
  ghost predicate StepsTo(g: Graph, a: Name, b: Name) {
    exists c :: c in Succ(g, a) && Leads(g, c, b)
  }

  ghost predicate Closed(g: Graph, s: set<Name>) {
    forall n :: n in s ==> Succ(g, n) <= s
  }

  lemma LeadsToItself(g: Graph, a: Name)
    ensures Leads(g, a, a)
  {
    assert PathBetween(g, [a], a, a);
  }

  lemma StepThenLeads(g: Graph, a: Name, b: Name, c: Name)
    requires b in Succ(g, a) && Leads(g, b, c)
    ensures Leads(g, a, c)
  {
    var p :| PathBetween(g, p, b, c);
    var q := [a] + p;
    forall i | 0 <= i < |q| - 1 ensures q[i + 1] in Succ(g, q[i]) {
      if i > 0 {
        assert q[i] == p[i - 1] && q[i + 1] == p[i];
      }
    }
    assert PathBetween(g, q, a, c);
  }

  lemma {:induction false} PathStays(g: Graph, s: set<Name>, p: seq<Name>)
    requires Closed(g, s) && IsPath(g, p) && p[0] in s
    ensures p[|p| - 1] in s
    decreases |p|
  {
    if |p| > 1 {
      assert p[1] in Succ(g, p[0]);
      PathStays(g, s, p[1..]);
    }
  }

  /** A closed set has everything its members lead to. */
  lemma ClosedKeeps(g: Graph, s: set<Name>, a: Name, b: Name)
    requires Closed(g, s) && a in s && Leads(g, a, b)
    ensures b in s
  {
    var p :| PathBetween(g, p, a, b);
    PathStays(g, s, p);
  }

  // ----- The search for affected nodes -----

  /** What a search from `node` has added to `visited`: all of it is reached, and every new node is finished. */
  ghost predicate Searched(g: Graph, node: Name, before: set<Name>, after: set<Name>) {
    && before + {node} <= after
    && (forall n :: n in after - before ==> Leads(g, node, n) && Succ(g, n) <= after)
  }

  ghost function Selected(visited: set<Name>, start: set<Name>, wanted: Name -> bool): set<Name> {
    set n | n in visited && wanted(n) && n !in start
  }

  /** The inner function of `find_affected_nodes`, with the two sets it fills. */
  class AffectedSearch {
    const graph: Graph
    const start: set<Name>
    const wanted: Name -> bool
    var visited: set<Name>
    var results: set<Name>

    constructor (graph: Graph, start: set<Name>, wanted: Name -> bool)
      ensures this.graph == graph && this.start == start && this.wanted == wanted
      ensures visited == {} && results == {}
    {
      this.graph, this.start, this.wanted := graph, start, wanted;
      visited, results := {}, {};
    }

    method Dfs(node: Name, ghost all: set<Name>)
      requires Closed(graph, all) && node in all && visited <= all
      requires results == Selected(visited, start, wanted)
      modifies this
      ensures visited <= all && Searched(graph, node, old(visited), visited)
      ensures results == Selected(visited, start, wanted)
      decreases all - visited, 0
    {
      LeadsToItself(graph, node);
      if wanted(node) && node !in start {
        results := results + {node};
      }
      if node in visited {
        return;
      }
      visited := visited + {node};
      DfsAll(node, all, old(visited));
    }

    /** The loop over the neighbours of a node that was just visited. */
    method DfsAll(node: Name, ghost all: set<Name>, ghost before: set<Name>)
      requires Closed(graph, all) && node in all && visited == before + {node} && node !in before && visited <= all
      requires results == Selected(visited, start, wanted)
      modifies this
      ensures visited <= all && Searched(graph, node, before, visited)
      ensures results == Selected(visited, start, wanted)
      decreases all - visited, 1
    {
      var todo := Succ(graph, node);
      while todo != {}
        invariant todo <= Succ(graph, node) <= visited + todo
        invariant before + {node} <= visited <= all
        invariant forall n :: n in visited - before - {node} ==> Leads(graph, node, n) && Succ(graph, n) <= visited
        invariant results == Selected(visited, start, wanted)
        decreases todo
      {
        var dep :| dep in todo;
        label Before:
        Dfs(dep, all);
        forall n | n in visited - old@Before(visited) ensures Leads(graph, node, n) {
          StepThenLeads(graph, node, dep, n);
        }
        todo := todo - {dep};
      }
      LeadsToItself(graph, node);
    }
  }

  /** Exactly the wanted names outside `start` that something in `start` leads to. */
  method FindAffected(graph: Graph, start: set<Name>, wanted: Name -> bool, ghost all: set<Name>)
    returns (results: set<Name>)
    requires Closed(graph, all) && start <= all
    ensures forall n :: n in results <==> wanted(n) && n !in start && exists s :: s in start && Leads(graph, s, n)
  {
    var search := new AffectedSearch(graph, start, wanted);
    var todo := start;
    while todo != {}
      invariant fresh(search) && search.graph == graph && search.start == start && search.wanted == wanted
      invariant todo <= start <= search.visited + todo
      invariant search.visited <= all && Closed(graph, search.visited)
      invariant forall n :: n in search.visited ==> exists s :: s in start && Leads(graph, s, n)
      invariant search.results == Selected(search.visited, start, wanted)
      decreases todo
    {
      var node :| node in todo;
      search.Dfs(node, all);
      todo := todo - {node};
    }
    results := search.results;
    forall n, s | s in start && Leads(graph, s, n) ensures n in search.visited {
      ClosedKeeps(graph, search.visited, s, n);
    }
  }

  // ----- Recursive dependencies -----

  /** The inner function of `get_recursive_deps`: it collects names, and may come back to where it started. */
  class DepsWalk {
    const graph: Graph
    var deps: set<Name>

    constructor (graph: Graph)
      ensures this.graph == graph && deps == {}
    {
      this.graph := graph;
      deps := {};
    }

    method Walk(node: Name, addSelf: bool, ghost all: set<Name>)
      requires Closed(graph, all) && node in all && deps <= all && node !in deps
      modifies this
      ensures old(deps) <= deps <= all && (addSelf ==> node in deps)
      ensures forall n :: n in deps - old(deps) ==> (addSelf && n == node) || StepsTo(graph, node, n)
      ensures forall n :: n in deps - old(deps) ==> Succ(graph, n) <= deps
      ensures Succ(graph, node) <= deps
      decreases all - deps, if addSelf then 0 else 1
    {
      if addSelf {
        deps := deps + {node};
      }
      var todo := Succ(graph, node);
      while todo != {}
        invariant todo <= Succ(graph, node) <= deps + todo
        invariant old(deps) <= deps <= all && (addSelf ==> node in deps)
        invariant forall n :: n in deps - old(deps) ==> (addSelf && n == node) || StepsTo(graph, node, n)
        invariant forall n :: n in deps - old(deps) && !(addSelf && n == node) ==> Succ(graph, n) <= deps
        decreases todo
      {
        var dep :| dep in todo;
        label Before:
        if dep !in deps {
          Walk(dep, true, all);
          forall n | n in deps - old@Before(deps) ensures StepsTo(graph, node, n) {
            StepsFrom(graph, node, dep, n);
          }
        }
        todo := todo - {dep};
      }
    }
  }

  lemma StepsFrom(g: Graph, a: Name, b: Name, n: Name)
    requires b in Succ(g, a) && (n == b || StepsTo(g, b, n))
    ensures StepsTo(g, a, n)
  {
    if n == b {
      LeadsToItself(g, b);
    } else {
      var c :| c in Succ(g, b) && Leads(g, c, n);
      StepThenLeads(g, b, c, n);
    }
  }

  /** Everything reached in one step or more; the node itself only if it is on a cycle. */
  method RecursiveDeps(graph: Graph, node: Name, ghost all: set<Name>) returns (deps: set<Name>)
    requires Closed(graph, all) && node in all
    ensures forall n :: n in deps <==> StepsTo(graph, node, n)
  {
    var walk := new DepsWalk(graph);
    walk.Walk(node, false, all);
    deps := walk.deps;
    forall n | StepsTo(graph, node, n) ensures n in deps {
      var c :| c in Succ(graph, node) && Leads(graph, c, n);
      ClosedKeeps(graph, deps, c, n);
    }
  }

  /** The inner function of `get_recursive_cmake_deps`. */
  class TargetsWalk {
    const graph: Graph
    var visited: set<Name>
    var result: set<Name>

    constructor (graph: Graph)
      ensures this.graph == graph && visited == {} && result == {}
    {
      this.graph := graph;
      visited, result := {}, {};
    }

    method Walk(target: Name, addThis: bool, ghost root: Name, ghost all: set<Name>)
      requires Closed(graph, all) && target in all && visited <= all
      requires if addThis
               then root in visited && result == visited - {root}
               else target == root && visited == {} && result == {}
      modifies this
      ensures visited <= all && Searched(graph, target, old(visited), visited)
      ensures result == visited - {root}
      decreases all - visited, 0
    {
      LeadsToItself(graph, target);
      if target in visited {
        return;
      }
      ghost var before := visited;
      visited := visited + {target};
      if addThis {
        result := result + {target};
      }
      WalkAll(target, root, all, before);
    }

    method WalkAll(target: Name, ghost root: Name, ghost all: set<Name>, ghost before: set<Name>)
      requires Closed(graph, all) && target in all && visited == before + {target} && target !in before &&
               visited <= all
      requires root in visited && result == visited - {root}
      modifies this
      ensures visited <= all && Searched(graph, target, before, visited)
      ensures result == visited - {root}
      decreases all - visited, 1
    {
      var todo := Succ(graph, target);
      while todo != {}
        invariant todo <= Succ(graph, target) <= visited + todo
        invariant before + {target} <= visited <= all && root in visited
        invariant forall n :: n in visited - before - {target} ==> Leads(graph, target, n) && Succ(graph, n) <= visited
        invariant result == visited - {root}
        decreases todo
      {
        var dep :| dep in todo;
        label Before:
        Walk(dep, true, root, all);
        forall n | n in visited - old@Before(visited) ensures Leads(graph, target, n) {
          StepThenLeads(graph, target, dep, n);
        }
        todo := todo - {dep};
      }
      LeadsToItself(graph, target);
    }
  }

  /** Everything the target leads to, never the target itself. */
  method RecursiveTargets(graph: Graph, target: Name, ghost all: set<Name>) returns (result: set<Name>)
    requires Closed(graph, all) && target in all
    ensures forall n :: n in result <==> n != target && Leads(graph, target, n)
  {
    var walk := new TargetsWalk(graph);
    walk.Walk(target, false, target, all);
    result := walk.result;
    forall n | Leads(graph, target, n) ensures n in walk.visited {
      ClosedKeeps(graph, walk.visited, target, n);
    }
  }

  /** The two closures differ by the start node, and only when it is on a cycle. */
  lemma ClosuresDifferOnCycles(g: Graph, a: Name, n: Name)
    ensures StepsTo(g, a, n) <==> (n != a && Leads(g, a, n)) || (n == a && StepsTo(g, a, a))
  {
    if StepsTo(g, a, n) {
      var c :| c in Succ(g, a) && Leads(g, c, n);
      StepThenLeads(g, a, c, n);
    }
    if n != a && Leads(g, a, n) {
      var p :| PathBetween(g, p, a, n);
      assert p[1] in Succ(g, p[0]);
      assert PathBetween(g, p[1..], p[1], n);
    }
  }
}
