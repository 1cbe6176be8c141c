/**
The dependency graph.  Nodes are told apart by their path, as their equality and hash do, so the two sets of a node are
kept in maps from paths.  `canonical` stands for the canonicalisation of file names; all that is used of it is that
doing it twice changes nothing.
*/
module DependencyGraph {
  import opened Lists
  import opened GraphSearch

  /** `b` is a dependency of `a` exactly if `a` is a reverse dependency of `b`. */
  predicate Mirrored(deps: Graph, reverseDeps: Graph, a: Name, b: Name) {
    a in deps && b in reverseDeps ==> (b in deps[a] <==> a in reverseDeps[b])
  }

  /** The two directions are each other's converse, on the same nodes, and no node depends on itself directly. */
  ghost predicate BothWays(deps: Graph, reverseDeps: Graph) {
    && deps.Keys == reverseDeps.Keys
    && (forall a :: a in deps ==> deps[a] <= deps.Keys && a !in deps[a])
    && (forall a :: a in reverseDeps ==> reverseDeps[a] <= deps.Keys)
    && (forall a, b :: Mirrored(deps, reverseDeps, a, b))
  }

  lemma OneMoreEdge(deps: Graph, reverseDeps: Graph, node: Name, dep: Name)
    requires BothWays(deps, reverseDeps) && node in deps && dep in deps && node != dep
    ensures BothWays(deps[node := deps[node] + {dep}], reverseDeps[dep := reverseDeps[dep] + {node}])
  {
    var deps', reverseDeps' := deps[node := deps[node] + {dep}], reverseDeps[dep := reverseDeps[dep] + {node}];
    forall a, b ensures Mirrored(deps', reverseDeps', a, b) {
      assert Mirrored(deps, reverseDeps, a, b);
    }
  }

  lemma OneMoreNode(deps: Graph, reverseDeps: Graph, node: Name)
    requires BothWays(deps, reverseDeps) && node !in deps
    ensures BothWays(deps[node := {}], reverseDeps[node := {}])
  {
    var deps', reverseDeps' := deps[node := {}], reverseDeps[node := {}];
    forall a, b ensures Mirrored(deps', reverseDeps', a, b) {
      assert Mirrored(deps, reverseDeps, a, b);
    }
  }

  class Dependencies {
    const canonical: Name -> Name
    var order: seq<Name>
    var deps: Graph
    var reverseDeps: Graph

    ghost predicate Valid()
      reads this
    {
      && (forall p :: canonical(canonical(p)) == canonical(p))
      && NoDup(order)
      && deps.Keys == Elements(order)
      && (forall n :: n in order ==> canonical(n) == n)
      && BothWays(deps, reverseDeps)
    }

    constructor (canonical: Name -> Name)
      requires forall p :: canonical(canonical(p)) == canonical(p)
      ensures Valid() && this.canonical == canonical && order == [] && deps == map[] && reverseDeps == map[]
    {
      this.canonical := canonical;
      order, deps, reverseDeps := [], map[], map[];
    }

    method FindOrCreateNode(path: Name) returns (node: Name)
      requires Valid()
      modifies this
      ensures Valid() && node == canonical(path)
      ensures order == if node in old(order) then old(order) else old(order) + [node]
      ensures deps == if node in old(order) then old(deps) else old(deps)[node := {}]
      ensures reverseDeps == if node in old(order) then old(reverseDeps) else old(reverseDeps)[node := {}]
    {
      node := canonical(path);
      if node !in deps {
        NoDupSnoc(order, node);
        OneMoreNode(deps, reverseDeps, node);
        order := order + [node];
        deps := deps[node := {}];
        reverseDeps := reverseDeps[node := {}];
      }
    }

    /** The two directions stay each other's converse. */
    method AddDependency(node: Name, dep: Name)
      requires Valid() && node in deps && dep in deps && node != dep
      modifies this`deps, this`reverseDeps
      ensures Valid()
      ensures deps == old(deps)[node := old(deps)[node] + {dep}]
      ensures reverseDeps == old(reverseDeps)[dep := old(reverseDeps)[dep] + {node}]
    {
      OneMoreEdge(deps, reverseDeps, node, dep);
      deps := deps[node := deps[node] + {dep}];
      reverseDeps := reverseDeps[dep := reverseDeps[dep] + {node}];
    }

    /** Exactly the nodes of the wanted type outside the start set that depend, directly or not, on a start node. */
    method FindAffectedNodes(start: set<Name>, wanted: Name -> bool) returns (results: set<Name>)
      requires Valid() && start <= deps.Keys
      ensures forall n :: n in results <==>
        wanted(n) && n !in start && exists s :: s in start && Leads(reverseDeps, s, n)
      ensures forall n :: n in results <==> wanted(n) && n !in start && exists s :: s in start && Leads(deps, n, s)
      ensures results <= deps.Keys
    {
      results := FindAffected(reverseDeps, start, wanted, deps.Keys);
      forall n | n in results ensures n in deps.Keys {
        var s :| s in start && Leads(reverseDeps, s, n);
        ClosedKeeps(reverseDeps, deps.Keys, s, n);
      }
      forall s, n | s in start ensures Leads(reverseDeps, s, n) <==> Leads(deps, n, s) {
        Converse(deps, reverseDeps, s, n);
      }
    }
  }

  /** A path backwards. */
  function Backwards(p: seq<Name>): (q: seq<Name>)
    ensures |q| == |p|
  {
    seq(|p|, i requires 0 <= i < |p| => p[|p| - 1 - i])
  }

  lemma {:induction false} BackwardsPath(g: Graph, h: Graph, p: seq<Name>, a: Name, b: Name)
    requires forall x, y :: y in Succ(g, x) ==> x in Succ(h, y)
    requires PathBetween(g, p, a, b)
    ensures PathBetween(h, Backwards(p), b, a)
  {
    var q := Backwards(p);
    forall i | 0 <= i < |q| - 1 ensures q[i + 1] in Succ(h, q[i]) {
      var k := |p| - 2 - i;
      assert p[k + 1] in Succ(g, p[k]);
    }
  }

  lemma Converse(deps: Graph, reverseDeps: Graph, s: Name, n: Name)
    requires BothWays(deps, reverseDeps)
    ensures Leads(reverseDeps, s, n) <==> Leads(deps, n, s)
  {
    forall a, b ensures b in Succ(deps, a) <==> a in Succ(reverseDeps, b) {
      assert Mirrored(deps, reverseDeps, a, b);
    }
    if Leads(reverseDeps, s, n) {
      var p :| PathBetween(reverseDeps, p, s, n);
      BackwardsPath(reverseDeps, deps, p, s, n);
    }
    if Leads(deps, n, s) {
      var p :| PathBetween(deps, p, n, s);
      BackwardsPath(deps, reverseDeps, p, n, s);
    }
  }
}
