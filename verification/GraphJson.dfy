/** Saving a dependency graph as JSON, loading it again, and the round trip. */
module GraphJson {
  import opened Lists
  import opened GraphSearch
  import opened DependencyGraph

  datatype NodeJson = NodeJson(id: nat, path: Name, deps: seq<nat>)

  // ----- Saving -----

  ghost predicate Injective(ids: map<Name, nat>) {
    forall a, b :: a in ids && b in ids && ids[a] == ids[b] ==> a == b
  }

  /** The ids handed out so far: distinct, positive, and below the next one. */
  ghost predicate IdsBelow(ids: map<Name, nat>, next: nat) {
    Injective(ids) && next >= 1 && forall a :: a in ids ==> 1 <= ids[a] < next
  }

  /** `later` has all ids of `earlier`, unchanged. */
  ghost predicate Keeps(earlier: map<Name, nat>, later: map<Name, nat>) {
    forall a :: a in earlier ==> a in later && later[a] == earlier[a]
  }

  class IdTable {
    var nextId: nat
    var pathToId: map<Name, nat>

    ghost predicate Valid()
      reads this
    {
      IdsBelow(pathToId, nextId)
    }

    constructor ()
      ensures Valid() && pathToId == map[]
    {
      nextId, pathToId := 1, map[];
    }

    method GetNodeId(path: Name) returns (id: nat)
      requires Valid()
      modifies this
      ensures Valid() && Keeps(old(pathToId), pathToId)
      ensures pathToId.Keys == old(pathToId).Keys + {path} && id == pathToId[path]
    {
      if path in pathToId {
        return pathToId[path];
      }
      id := nextId;
      pathToId := pathToId[path := id];
      nextId := id + 1;
    }

    /** The ids of a set of dependencies, in some order. */
    method GetNodeIds(deps: set<Name>) returns (list: seq<nat>)
      requires Valid()
      modifies this
      ensures Valid() && Keeps(old(pathToId), pathToId)
      ensures pathToId.Keys == old(pathToId).Keys + deps
      ensures Names(list, deps, pathToId)
    {
      list := [];
      var todo := deps;
      while todo != {}
        invariant Valid() && Keeps(old(pathToId), pathToId) && todo <= deps
        invariant pathToId.Keys == old(pathToId).Keys + (deps - todo)
        invariant Names(list, deps - todo, pathToId)
        decreases todo
      {
        var dep :| dep in todo;
        ghost var ids0, before := pathToId, deps - todo;
        var id := GetNodeId(dep);
        NamesStep(list, before, ids0, pathToId, dep);
        list := list + [id];
        todo := todo - {dep};
        assert deps - todo == before + {dep};
      }
      assert deps - todo == deps;
    }
  }

  /** The list holds the ids of the given names, and no others. */
  ghost predicate Names(list: seq<nat>, deps: set<Name>, ids: map<Name, nat>) {
    && (forall a :: a in deps ==> a in ids && ids[a] in list)
    && (forall id :: id in list ==> exists a :: Denotes(a, deps, ids, id))
  }

  ghost predicate Denotes(a: Name, deps: set<Name>, ids: map<Name, nat>, id: nat) {
    a in deps && a in ids && ids[a] == id
  }

  lemma NamesKept(list: seq<nat>, deps: set<Name>, earlier: map<Name, nat>, later: map<Name, nat>)
    requires Names(list, deps, earlier) && Keeps(earlier, later)
    ensures Names(list, deps, later)
  {
    forall id | id in list ensures exists a :: Denotes(a, deps, later, id) {
      var a :| Denotes(a, deps, earlier, id);
      assert Denotes(a, deps, later, id);
    }
  }

  lemma NamesStep(list: seq<nat>, deps: set<Name>, earlier: map<Name, nat>, later: map<Name, nat>, dep: Name)
    requires Names(list, deps, earlier) && Keeps(earlier, later) && dep in later
    ensures Names(list + [later[dep]], deps + {dep}, later)
  {
    NamesKept(list, deps, earlier, later);
    var list' := list + [later[dep]];
    forall id | id in list' ensures exists a :: Denotes(a, deps + {dep}, later, id) {
      if id == later[dep] {
        assert Denotes(dep, deps + {dep}, later, id);
      } else {
        var a :| Denotes(a, deps, later, id);
        assert Denotes(a, deps + {dep}, later, id);
      }
    }
  }

  /** `json` describes the nodes in `order` with their dependencies, under the given ids. */
  ghost predicate Describes(json: seq<NodeJson>, order: seq<Name>, deps: Graph, ids: map<Name, nat>) {
    && |json| == |order|
    && (forall i :: 0 <= i < |order| ==>
          && order[i] in ids && order[i] in deps
          && json[i].path == order[i] && json[i].id == ids[order[i]]
          && Names(json[i].deps, deps[order[i]], ids))
  }

  lemma DescribesKept(json: seq<NodeJson>, order: seq<Name>, deps: Graph, earlier: map<Name, nat>,
                      later: map<Name, nat>)
    requires Describes(json, order, deps, earlier) && Keeps(earlier, later)
    ensures Describes(json, order, deps, later)
  {
    forall i | 0 <= i < |order| ensures Names(json[i].deps, deps[order[i]], later) {
      NamesKept(json[i].deps, deps[order[i]], earlier, later);
    }
  }

  /** One entry: the ids of a node and of its dependencies, which are made as needed. */
  method SaveNode(table: IdTable, path: Name, deps: set<Name>) returns (entry: NodeJson)
    requires table.Valid()
    modifies table
    ensures table.Valid() && Keeps(old(table.pathToId), table.pathToId)
    ensures table.pathToId.Keys == old(table.pathToId).Keys + {path} + deps
    ensures entry.path == path && entry.id == table.pathToId[path] && Names(entry.deps, deps, table.pathToId)
  {
    var id := table.GetNodeId(path);
    var list := table.GetNodeIds(deps);
    entry := NodeJson(id, path, list);
  }

  lemma DescribesStep(json: seq<NodeJson>, order: seq<Name>, deps: Graph, earlier: map<Name, nat>,
                      later: map<Name, nat>, entry: NodeJson)
    requires Describes(json, order, deps, earlier) && Keeps(earlier, later)
    requires entry.path in deps && entry.path in later && entry.id == later[entry.path]
    requires Names(entry.deps, deps[entry.path], later)
    ensures Describes(json + [entry], order + [entry.path], deps, later)
  {
    DescribesKept(json, order, deps, earlier, later);
  }

  method SaveNext(table: IdTable, order: seq<Name>, deps: Graph, i: nat, json: seq<NodeJson>)
    returns (more: seq<NodeJson>)
    requires table.Valid() && table.pathToId.Keys <= deps.Keys && i < |order| && deps.Keys == Elements(order)
    requires Describes(json, order[..i], deps, table.pathToId) && forall a :: a in deps ==> deps[a] <= deps.Keys
    modifies table
    ensures table.Valid() && table.pathToId.Keys <= deps.Keys
    ensures Describes(more, order[..i + 1], deps, table.pathToId)
  {
    var path := order[i];
    assert path in order;
    ghost var ids0 := table.pathToId;
    var entry := SaveNode(table, path, deps[path]);
    DescribesStep(json, order[..i], deps, ids0, table.pathToId, entry);
    more := json + [entry];
    TakeNext(order, i);
  }

  /** Every node gets an id of its own, and the dependencies are written by id. */
  method SaveAsJson(graph: Dependencies) returns (json: seq<NodeJson>, ghost ids: map<Name, nat>)
    requires graph.Valid()
    ensures Injective(ids) && ids.Keys == graph.deps.Keys && forall a :: a in ids ==> ids[a] >= 1
    ensures Describes(json, graph.order, graph.deps, ids)
  {
    var table := new IdTable();
    json := [];
    assert graph.order[..0] == [];
    for i := 0 to |graph.order|
      invariant fresh(table) && table.Valid() && table.pathToId.Keys <= graph.deps.Keys
      invariant Describes(json, graph.order[..i], graph.deps, table.pathToId)
    {
      json := SaveNext(table, graph.order, graph.deps, i, json);
    }
    assert graph.order[..|graph.order|] == graph.order;
    ids := table.pathToId;
    DescribedHaveIds(json, graph.order, graph.deps, ids);
  }

  lemma DescribedHaveIds(json: seq<NodeJson>, order: seq<Name>, deps: Graph, ids: map<Name, nat>)
    requires Describes(json, order, deps, ids) && deps.Keys == Elements(order)
    ensures deps.Keys <= ids.Keys
  {
    forall a | a in deps ensures a in ids {
      assert a in order;
    }
  }

  // ----- Loading -----

  /** The node of every id; a later entry with the same id replaces an earlier one. */
  function NodeTable(json: seq<NodeJson>, canonical: Name -> Name): map<nat, Name> {
    if json == [] then map[]
    else var n := |json| - 1; NodeTable(json[..n], canonical)[json[n].id := canonical(json[n].path)]
  }

  /** The ids of the dependencies of every id. */
  function DepTable(json: seq<NodeJson>): map<nat, seq<nat>> {
    if json == [] then map[]
    else var n := |json| - 1; DepTable(json[..n])[json[n].id := json[n].deps]
  }

  /** The nodes in the order in which loading makes them. */
  function LoadedOrder(json: seq<NodeJson>, canonical: Name -> Name): seq<Name> {
    if json == [] then []
    else
      var n := |json| - 1;
      var before := LoadedOrder(json[..n], canonical);
      if canonical(json[n].path) in before then before else before + [canonical(json[n].path)]
  }

  /** A dependency can be added if its id is known and is not the id of the same node. */
  predicate DepLoads(nodes: map<nat, Name>, id: nat, d: nat) {
    id in nodes && d in nodes && nodes[d] != nodes[id]
  }

  ghost predicate EntryLoads(nodes: map<nat, Name>, depIds: map<nat, seq<nat>>, id: nat) {
    id in depIds && forall d :: d in depIds[id] ==> DepLoads(nodes, id, d)
  }

  ghost predicate Loadable(nodes: map<nat, Name>, depIds: map<nat, seq<nat>>) {
    forall id :: id in depIds ==> EntryLoads(nodes, depIds, id)
  }

  /** Some entry with an id in `ids` says that `a` depends on `b`. */
  ghost predicate Edge(nodes: map<nat, Name>, depIds: map<nat, seq<nat>>, ids: set<nat>, a: Name, b: Name) {
    exists id, d :: id in ids && EdgeBy(nodes, depIds, id, d, a, b)
  }

  ghost predicate EdgeBy(nodes: map<nat, Name>, depIds: map<nat, seq<nat>>, id: nat, d: nat, a: Name, b: Name) {
    id in depIds && d in depIds[id] && id in nodes && d in nodes && nodes[id] == a && nodes[d] == b
  }

  lemma {:induction false} LoadStep(json: seq<NodeJson>, canonical: Name -> Name, i: nat)
    requires i < |json|
    ensures NodeTable(json[..i + 1], canonical) ==
            NodeTable(json[..i], canonical)[json[i].id := canonical(json[i].path)]
    ensures DepTable(json[..i + 1]) == DepTable(json[..i])[json[i].id := json[i].deps]
    ensures LoadedOrder(json[..i + 1], canonical) ==
              var before := LoadedOrder(json[..i], canonical);
              if canonical(json[i].path) in before then before else before + [canonical(json[i].path)]
  {
    assert json[..i + 1][..i] == json[..i];
  }

  /** The first loop of `init_from_json`: all nodes are made, without dependencies. */
  method LoadNodes(graph: Dependencies, json: seq<NodeJson>)
    returns (idToNode: map<nat, Name>, idToDepIds: map<nat, seq<nat>>)
    requires graph.Valid() && graph.order == []
    modifies graph
    ensures graph.Valid() && graph.order == LoadedOrder(json, graph.canonical)
    ensures forall a :: a in graph.deps ==> graph.deps[a] == {}
    ensures idToNode == NodeTable(json, graph.canonical) && idToDepIds == DepTable(json)
    ensures idToNode.Keys == idToDepIds.Keys && forall id :: id in idToNode ==> idToNode[id] in graph.deps
  {
    idToNode, idToDepIds := map[], map[];
    for i := 0 to |json|
      invariant graph.Valid() && graph.order == LoadedOrder(json[..i], graph.canonical)
      invariant forall a :: a in graph.deps ==> graph.deps[a] == {}
      invariant idToNode == NodeTable(json[..i], graph.canonical) && idToDepIds == DepTable(json[..i])
      invariant idToNode.Keys == idToDepIds.Keys && forall id :: id in idToNode ==> idToNode[id] in graph.deps
    {
      LoadStep(json, graph.canonical, i);
      var node := graph.FindOrCreateNode(json[i].path);
      idToNode := idToNode[json[i].id := node];
      idToDepIds := idToDepIds[json[i].id := json[i].deps];
    }
    assert json[..|json|] == json;
  }

  /** The graph has the edge from `a` to `b` exactly if an entry in `ids` says so. */
  ghost predicate EdgeAt(deps: Graph, nodes: map<nat, Name>, depIds: map<nat, seq<nat>>, ids: set<nat>, a: Name,
                         b: Name)
  {
    b in Succ(deps, a) <==> Edge(nodes, depIds, ids, a, b)
  }

  ghost predicate HasEdges(deps: Graph, nodes: map<nat, Name>, depIds: map<nat, seq<nat>>, ids: set<nat>) {
    forall a, b :: EdgeAt(deps, nodes, depIds, ids, a, b)
  }

  /** The same with the first `n` dependencies of `id`. */
  ghost predicate PartEdgeAt(deps: Graph, nodes: map<nat, Name>, depIds: map<nat, seq<nat>>, ids: set<nat>, id: nat,
                             n: nat, a: Name, b: Name)
    requires id in depIds && n <= |depIds[id]|
  {
    b in Succ(deps, a) <==>
    Edge(nodes, depIds, ids, a, b) || exists d :: d in depIds[id][..n] && EdgeBy(nodes, depIds, id, d, a, b)
  }

  ghost predicate PartEdges(deps: Graph, nodes: map<nat, Name>, depIds: map<nat, seq<nat>>, ids: set<nat>, id: nat,
                            n: nat)
    requires id in depIds && n <= |depIds[id]|
  {
    forall a, b :: PartEdgeAt(deps, nodes, depIds, ids, id, n, a, b)
  }

  lemma PartEdgesStep(deps: Graph, nodes: map<nat, Name>, depIds: map<nat, seq<nat>>, ids: set<nat>, id: nat, n: nat,
                      m: nat)
    requires id in depIds && n < |depIds[id]| && m == n + 1 && PartEdges(deps, nodes, depIds, ids, id, n)
    requires DepLoads(nodes, id, depIds[id][n]) && nodes[id] in deps
    ensures var b := nodes[depIds[id][n]];
            PartEdges(deps[nodes[id] := deps[nodes[id]] + {b}], nodes, depIds, ids, id, m)
  {
    var d := depIds[id][n];
    var x, y := nodes[id], nodes[d];
    var deps' := deps[x := deps[x] + {y}];
    assert depIds[id][..m] == depIds[id][..n] + [d];
    assert EdgeBy(nodes, depIds, id, d, x, y);
    forall a, b ensures PartEdgeAt(deps', nodes, depIds, ids, id, m, a, b) {
      assert PartEdgeAt(deps, nodes, depIds, ids, id, n, a, b);
      assert b in Succ(deps', a) <==> b in Succ(deps, a) || (a == x && b == y);
      if exists e :: e in depIds[id][..m] && EdgeBy(nodes, depIds, id, e, a, b) {
        var e :| e in depIds[id][..m] && EdgeBy(nodes, depIds, id, e, a, b);
        assert e == d || e in depIds[id][..n];
      }
    }
  }

  lemma PartEdgesDone(deps: Graph, nodes: map<nat, Name>, depIds: map<nat, seq<nat>>, ids: set<nat>, id: nat)
    requires id in depIds
    ensures HasEdges(deps, nodes, depIds, ids) ==> PartEdges(deps, nodes, depIds, ids, id, 0)
    ensures PartEdges(deps, nodes, depIds, ids, id, |depIds[id]|) ==> HasEdges(deps, nodes, depIds, ids + {id})
  {
    var n, more := |depIds[id]|, ids + {id};
    if HasEdges(deps, nodes, depIds, ids) {
      forall a, b ensures PartEdgeAt(deps, nodes, depIds, ids, id, 0, a, b) {
        assert EdgeAt(deps, nodes, depIds, ids, a, b);
      }
    }
    if PartEdges(deps, nodes, depIds, ids, id, n) {
      assert depIds[id][..n] == depIds[id];
      forall a, b ensures EdgeAt(deps, nodes, depIds, more, a, b) {
        assert PartEdgeAt(deps, nodes, depIds, ids, id, n, a, b);
        EdgeOfMore(nodes, depIds, ids, id, a, b);
      }
    }
  }

  lemma EdgeOfMore(nodes: map<nat, Name>, depIds: map<nat, seq<nat>>, ids: set<nat>, id: nat, a: Name, b: Name)
    requires id in depIds
    ensures Edge(nodes, depIds, ids + {id}, a, b) <==>
            Edge(nodes, depIds, ids, a, b) || exists d :: d in depIds[id] && EdgeBy(nodes, depIds, id, d, a, b)
  {
    if exists d :: d in depIds[id] && EdgeBy(nodes, depIds, id, d, a, b) {
      var d :| d in depIds[id] && EdgeBy(nodes, depIds, id, d, a, b);
      assert id in ids + {id};
    }
    if Edge(nodes, depIds, ids, a, b) {
      var e, d :| e in ids && EdgeBy(nodes, depIds, e, d, a, b);
      assert e in ids + {id};
    }
  }

  ghost predicate FirstLoad(nodes: map<nat, Name>, id: nat, list: seq<nat>, n: nat) {
    n <= |list| && forall k :: 0 <= k < n ==> DepLoads(nodes, id, list[k])
  }

  method LoadDep(graph: Dependencies, nodes: map<nat, Name>, depIds: map<nat, seq<nat>>, id: nat, n: nat, ghost m: nat,
                 ghost ids: set<nat>)
    requires graph.Valid() && id in depIds && n < |depIds[id]| && m == n + 1
    requires forall n :: n in nodes ==> nodes[n] in graph.deps
    requires DepLoads(nodes, id, depIds[id][n]) && PartEdges(graph.deps, nodes, depIds, ids, id, n)
    modifies graph`deps, graph`reverseDeps
    ensures graph.Valid() && graph.deps.Keys == old(graph.deps.Keys)
    ensures PartEdges(graph.deps, nodes, depIds, ids, id, m)
  {
    PartEdgesStep(graph.deps, nodes, depIds, ids, id, n, m);
    graph.AddDependency(nodes[id], nodes[depIds[id][n]]);
  }

  lemma NoEdges(deps: Graph, nodes: map<nat, Name>, depIds: map<nat, seq<nat>>)
    requires forall a :: a in deps ==> deps[a] == {}
    ensures HasEdges(deps, nodes, depIds, {})
  {
    forall a, b ensures EdgeAt(deps, nodes, depIds, {}, a, b) {
    }
  }

  /** All dependencies of one node; an unknown id or a node depending on itself is an error. */
  method LoadDeps(graph: Dependencies, nodes: map<nat, Name>, depIds: map<nat, seq<nat>>, id: nat, ghost ids: set<nat>)
    returns (ok: bool)
    requires graph.Valid() && id in depIds && forall n :: n in nodes ==> nodes[n] in graph.deps
    requires PartEdges(graph.deps, nodes, depIds, ids, id, 0)
    modifies graph`deps, graph`reverseDeps
    ensures graph.Valid() && graph.deps.Keys == old(graph.deps.Keys)
    ensures ok <==> FirstLoad(nodes, id, depIds[id], |depIds[id]|)
    ensures ok ==> PartEdges(graph.deps, nodes, depIds, ids, id, |depIds[id]|)
  {
    for n := 0 to |depIds[id]|
      invariant graph.Valid() && graph.deps.Keys == old(graph.deps.Keys)
      invariant FirstLoad(nodes, id, depIds[id], n) && PartEdges(graph.deps, nodes, depIds, ids, id, n)
    {
      if !DepLoads(nodes, id, depIds[id][n]) {
        return false;
      }
      LoadDep(graph, nodes, depIds, id, n, n + 1, ids);
    }
    return true;
  }

  method LoadEntry(graph: Dependencies, nodes: map<nat, Name>, depIds: map<nat, seq<nat>>, id: nat, ghost ids: set<nat>)
    returns (ok: bool)
    requires graph.Valid() && id in depIds && forall n :: n in nodes ==> nodes[n] in graph.deps
    requires HasEdges(graph.deps, nodes, depIds, ids)
    modifies graph`deps, graph`reverseDeps
    ensures graph.Valid() && graph.deps.Keys == old(graph.deps.Keys)
    ensures ok <==> EntryLoads(nodes, depIds, id)
    ensures ok ==> HasEdges(graph.deps, nodes, depIds, ids + {id})
  {
    PartEdgesDone(graph.deps, nodes, depIds, ids, id);
    ok := LoadDeps(graph, nodes, depIds, id, ids);
    PartEdgesDone(graph.deps, nodes, depIds, ids, id);
    assert forall k :: 0 <= k < |depIds[id]| ==> depIds[id][k] in depIds[id];
  }

  /** `init_from_json` on an empty graph. */
  method InitFromJson(graph: Dependencies, json: seq<NodeJson>) returns (ok: bool)
    requires graph.Valid() && graph.order == []
    modifies graph
    ensures graph.Valid() && graph.order == LoadedOrder(json, graph.canonical)
    ensures var nodes, depIds := NodeTable(json, graph.canonical), DepTable(json);
            && (ok <==> Loadable(nodes, depIds))
            && (ok ==> HasEdges(graph.deps, nodes, depIds, depIds.Keys))
  {
    var nodes, depIds := LoadNodes(graph, json);
    NoEdges(graph.deps, nodes, depIds);
    ok := LoadEdges(graph, nodes, depIds);
  }

  /** The entries in `done` could be loaded, and the others are still to do. */
  ghost predicate AllLoad(nodes: map<nat, Name>, depIds: map<nat, seq<nat>>, todo: set<nat>, done: set<nat>) {
    && todo !! done && todo + done == depIds.Keys
    && forall id :: id in done ==> EntryLoads(nodes, depIds, id)
  }

  lemma OneMoreLoads(nodes: map<nat, Name>, depIds: map<nat, seq<nat>>, todo: set<nat>, done: set<nat>, id: nat)
    requires AllLoad(nodes, depIds, todo, done) && id in todo && EntryLoads(nodes, depIds, id)
    ensures AllLoad(nodes, depIds, todo - {id}, done + {id})
  {
    assert (todo - {id}) + (done + {id}) == depIds.Keys;
  }

  /** The second loop of `init_from_json`. */
  method LoadEdges(graph: Dependencies, nodes: map<nat, Name>, depIds: map<nat, seq<nat>>) returns (ok: bool)
    requires graph.Valid() && nodes.Keys == depIds.Keys && forall n :: n in nodes ==> nodes[n] in graph.deps
    requires HasEdges(graph.deps, nodes, depIds, {})
    modifies graph`deps, graph`reverseDeps
    ensures graph.Valid() && (ok <==> Loadable(nodes, depIds))
    ensures ok ==> HasEdges(graph.deps, nodes, depIds, depIds.Keys)
  {
    ghost var done: set<nat> := {};
    var todo := depIds.Keys;
    while todo != {}
      invariant graph.Valid() && graph.deps.Keys == old(graph.deps.Keys)
      invariant HasEdges(graph.deps, nodes, depIds, done) && AllLoad(nodes, depIds, todo, done)
      decreases todo
    {
      var id :| id in todo;
      ok := LoadEntry(graph, nodes, depIds, id, done);
      if !ok {
        return;
      }
      OneMoreLoads(nodes, depIds, todo, done, id);
      todo, done := todo - {id}, done + {id};
    }
    assert done == depIds.Keys;
    return true;
  }

  // ----- The round trip -----

  /** The tables of a described graph: the id of a node leads back to it and to its dependencies. */
  ghost predicate TablesMatch(nodes: map<nat, Name>, depIds: map<nat, seq<nat>>, order: seq<Name>, deps: Graph,
                              ids: map<Name, nat>) {
    && nodes.Keys == depIds.Keys
    && (forall a :: a in order ==>
          a in ids && a in deps && ids[a] in nodes && nodes[ids[a]] == a && Names(depIds[ids[a]], deps[a], ids))
    && (forall id :: id in nodes ==> nodes[id] in order && nodes[id] in ids && ids[nodes[id]] == id)
  }

  lemma {:induction false} DescribedTables(json: seq<NodeJson>, order: seq<Name>, deps: Graph, ids: map<Name, nat>,
                                           canonical: Name -> Name)
    requires Describes(json, order, deps, ids) && Injective(ids) && NoDup(order)
    requires forall a :: a in order ==> canonical(a) == a
    ensures LoadedOrder(json, canonical) == order
    ensures TablesMatch(NodeTable(json, canonical), DepTable(json), order, deps, ids)
    decreases |json|
  {
    if json != [] {
      var n := |json| - 1;
      var a := order[n];
      assert a in order;
      assert order[..n] + [a] == order;
      DescribedTables(json[..n], order[..n], deps, ids, canonical);
      NoDupCut(order, n);
      assert order[..n] + order[n + 1..] == order[..n];
      TablesStep(NodeTable(json[..n], canonical), DepTable(json[..n]), order[..n], deps, ids, a, json[n].deps);
    }
  }

  lemma TablesStep(nodes: map<nat, Name>, depIds: map<nat, seq<nat>>, order: seq<Name>, deps: Graph,
                   ids: map<Name, nat>, a: Name, list: seq<nat>)
    requires TablesMatch(nodes, depIds, order, deps, ids) && Injective(ids)
    requires a !in order && a in ids && a in deps && Names(list, deps[a], ids)
    ensures TablesMatch(nodes[ids[a] := a], depIds[ids[a] := list], order + [a], deps, ids)
  {
    var nodes', depIds' := nodes[ids[a] := a], depIds[ids[a] := list];
    forall x | x in order + [a]
      ensures x in ids && x in deps && ids[x] in nodes' && nodes'[ids[x]] == x && Names(depIds'[ids[x]], deps[x], ids) {
      assert x == a || x in order;
      assert ids[x] == ids[a] ==> x == a;
    }
    forall id | id in nodes' ensures nodes'[id] in order + [a] && nodes'[id] in ids && ids[nodes'[id]] == id {
      assert id == ids[a] || id in nodes;
    }
  }

  lemma {:induction false} DescribedEdges(nodes: map<nat, Name>, depIds: map<nat, seq<nat>>, order: seq<Name>,
                                          deps: Graph, ids: map<Name, nat>, a: Name, b: Name)
    requires TablesMatch(nodes, depIds, order, deps, ids) && deps.Keys == Elements(order)
    requires forall x :: x in deps ==> deps[x] <= deps.Keys
    ensures Edge(nodes, depIds, depIds.Keys, a, b) <==> b in Succ(deps, a)
  {
    if b in Succ(deps, a) {
      assert a in order && b in order;
      assert EdgeBy(nodes, depIds, ids[a], ids[b], a, b);
    }
    if Edge(nodes, depIds, depIds.Keys, a, b) {
      var id, d :| id in depIds.Keys && EdgeBy(nodes, depIds, id, d, a, b);
      assert a in order && ids[a] == id;
      var c :| Denotes(c, deps[a], ids, d);
      assert c in order;
    }
  }

  lemma {:induction false} DescribedLoads(nodes: map<nat, Name>, depIds: map<nat, seq<nat>>, order: seq<Name>,
                                          deps: Graph, ids: map<Name, nat>)
    requires TablesMatch(nodes, depIds, order, deps, ids) && deps.Keys == Elements(order)
    requires forall x :: x in deps ==> deps[x] <= deps.Keys && x !in deps[x]
    ensures Loadable(nodes, depIds)
  {
    forall id, d | id in depIds && d in depIds[id] ensures DepLoads(nodes, id, d) {
      var a := nodes[id];
      assert a in order && ids[a] == id;
      var c :| Denotes(c, deps[a], ids, d);
      assert c in order;
    }
  }

  /**
  Loading what was saved succeeds, and gives the same nodes in the same order with the same dependencies both
  ways.
  */
  method RoundTrip(graph: Dependencies) returns (copy: Dependencies)
    requires graph.Valid()
    ensures fresh(copy) && copy.Valid()
    ensures copy.order == graph.order && copy.deps == graph.deps && copy.reverseDeps == graph.reverseDeps
  {
    var json;
    ghost var ids;
    json, ids := SaveAsJson(graph);
    copy := new Dependencies(graph.canonical);
    DescribedTables(json, graph.order, graph.deps, ids, graph.canonical);
    ghost var nodes, depIds := NodeTable(json, graph.canonical), DepTable(json);
    DescribedLoads(nodes, depIds, graph.order, graph.deps, ids);
    var ok := InitFromJson(copy, json);
    SameEdges(nodes, depIds, graph.order, graph.deps, ids, copy.deps);
    SameGraph(graph.deps, graph.reverseDeps, copy.deps, copy.reverseDeps);
  }

  ghost predicate SameSucc(deps: Graph, deps': Graph, a: Name) {
    Succ(deps', a) == Succ(deps, a)
  }

  lemma SameGraph(deps: Graph, reverseDeps: Graph, deps': Graph, reverseDeps': Graph)
    requires BothWays(deps, reverseDeps) && BothWays(deps', reverseDeps') && deps'.Keys == deps.Keys
    requires forall a :: SameSucc(deps, deps', a)
    ensures deps' == deps && reverseDeps' == reverseDeps
  {
    forall a | a in deps ensures deps'[a] == deps[a] {
      assert SameSucc(deps, deps', a);
    }
    assert deps' == deps;
    forall b | b in deps ensures reverseDeps'[b] == reverseDeps[b] {
      forall a ensures a in reverseDeps'[b] <==> a in reverseDeps[b] {
        assert Mirrored(deps, reverseDeps, a, b) && Mirrored(deps', reverseDeps', a, b);
      }
    }
  }

  lemma {:induction false} SameEdges(nodes: map<nat, Name>, depIds: map<nat, seq<nat>>, order: seq<Name>, deps: Graph,
                                     ids: map<Name, nat>, deps': Graph)
    requires TablesMatch(nodes, depIds, order, deps, ids) && deps.Keys == Elements(order)
    requires forall x :: x in deps ==> deps[x] <= deps.Keys
    requires HasEdges(deps', nodes, depIds, depIds.Keys)
    ensures forall a :: SameSucc(deps, deps', a)
  {
    forall a ensures SameSucc(deps, deps', a) {
      forall b ensures b in Succ(deps', a) <==> b in Succ(deps, a) {
        assert EdgeAt(deps', nodes, depIds, depIds.Keys, a, b);
        DescribedEdges(nodes, depIds, order, deps, ids, a, b);
      }
    }
  }
}
