/**
A cluster of pools: which nodes a pattern names, which of them are online, and how errors take nodes offline or out of
the cluster.  Nodes are records in a map from their ids; `order` is the order in which the engine lists the keys.
*/
module Cluster {
  import opened EndCallback
  import opened Lists
  import opened Options

  // ----- Patterns -----

  predicate LineTerminator(c: char) {
    c == '\n' || c == '\r' || c == '\U{2028}' || c == '\U{2029}'
  }

  /**
  The regular expression of a string pattern: `*` stands for any characters of one line, all others for
  themselves.
  */
  predicate Matches(pattern: string, id: string)
    decreases |pattern| + |id|
  {
    if pattern == "" then id == ""
    else if pattern[0] == '*' then
      Matches(pattern[1..], id) || (id != "" && !LineTerminator(id[0]) && Matches(pattern, id[1..]))
    else
      id != "" && id[0] == pattern[0] && Matches(pattern[1..], id[1..])
  }

  /** A pattern without a star names one id. */
  lemma {:induction false} LiteralPattern(pattern: string, id: string)
    requires '*' !in pattern
    ensures Matches(pattern, id) <==> id == pattern
    decreases |pattern|
  {
    if pattern != "" {
      assert pattern[0] in pattern;
      if id != "" {
        LiteralPattern(pattern[1..], id[1..]);
        assert pattern == [pattern[0]] + pattern[1..] && id == [id[0]] + id[1..];
      }
    }
  }

  /** A star alone names every id of one line. */
  lemma {:induction false} StarPattern(id: string)
    ensures Matches("*", id) <==> forall i :: 0 <= i < |id| ==> !LineTerminator(id[i])
  {
    assert "*"[1..] == "";
    if id != "" {
      StarPattern(id[1..]);
      assert forall i :: 0 < i < |id| ==> id[i] == id[1..][i - 1];
    }
  }

  /** The parts of a pattern match parts of the id. */
  lemma {:induction false} PatternParts(p: string, q: string, id: string)
    ensures Matches(p + q, id) <==> exists k :: 0 <= k <= |id| && Matches(p, id[..k]) && Matches(q, id[k..])
    decreases |p| + |id|
  {
    if Matches(p + q, id) {
      var k := SplitPoint(p, q, id);
    }
    if k :| 0 <= k <= |id| && Matches(p, id[..k]) && Matches(q, id[k..]) {
      JoinParts(p, q, id, k);
    }
  }

  lemma {:induction false} SplitPoint(p: string, q: string, id: string) returns (k: nat)
    requires Matches(p + q, id)
    ensures k <= |id| && Matches(p, id[..k]) && Matches(q, id[k..])
    decreases |p| + |id|
  {
    if p == "" {
      assert p + q == q;
      k := 0;
      assert id[..0] == "" && id[0..] == id;
    } else {
      assert (p + q)[1..] == p[1..] + q;
      if p[0] == '*' && Matches(p[1..] + q, id) {
        k := SplitPoint(p[1..], q, id);
      } else {
        var rest := if p[0] == '*' then p else p[1..];
        assert Matches(rest + q, id[1..]);
        var j := SplitPoint(rest, q, id[1..]);
        k := j + 1;
        assert id[..k][1..] == id[1..][..j] && id[k..] == id[1..][j..];
      }
    }
  }

  lemma {:induction false} JoinParts(p: string, q: string, id: string, k: nat)
    requires k <= |id| && Matches(p, id[..k]) && Matches(q, id[k..])
    ensures Matches(p + q, id)
    decreases |p| + k
  {
    if p == "" {
      assert p + q == q && id[k..] == id;
    } else {
      assert (p + q)[1..] == p[1..] + q;
      if p[0] == '*' && Matches(p[1..], id[..k]) {
        JoinParts(p[1..], q, id, k);
      } else {
        var rest := if p[0] == '*' then p else p[1..];
        assert id[..k][1..] == id[1..][..k - 1] && id[k..] == id[1..][k - 1..];
        JoinParts(rest, q, id[1..], k - 1);
      }
    }
  }

  /** The ids that a pattern names, in their order. */
  function Filter(order: seq<string>, pattern: string): (found: seq<string>)
    ensures forall id :: id in found <==> id in order && Matches(pattern, id)
  {
    if order == [] then []
    else (if Matches(pattern, order[0]) then [order[0]] else []) + Filter(order[1..], pattern)
  }

  // ----- Nodes and their health -----

  datatype Settings = Settings(canRetry: bool, removeNodeErrorCount: nat, restoreNodeTimeout: nat)

  /** `offlineUntil` is zero for a node that errors have not taken offline. */
  datatype Node = Node(errorCount: nat, offlineUntil: nat)

  predicate Online(n: Node, now: nat) {
    n.offlineUntil == 0 || n.offlineUntil <= now
  }

  /**
  A node is marked offline exactly from the error count at which nodes go; with no timeout such nodes are removed.
  */
  predicate Healthy(settings: Settings, n: Node) {
    if settings.restoreNodeTimeout > 0 then n.errorCount >= settings.removeNodeErrorCount <==> n.offlineUntil != 0
    else n.errorCount < settings.removeNodeErrorCount && n.offlineUntil == 0
  }

  /** The ids that a pattern names and that are online at the given time. */
  function OnlineIds(order: seq<string>, nodes: map<string, Node>, pattern: string, now: nat): (found: seq<string>)
    ensures forall id :: id in found <==> id in order && Matches(pattern, id) && id in nodes && Online(nodes[id], now)
  {
    if order == [] then []
    else
      (if Matches(pattern, order[0]) && order[0] in nodes && Online(nodes[order[0]], now) then [order[0]] else []) +
      OnlineIds(order[1..], nodes, pattern, now)
  }

  predicate Found(nodes: map<string, Node>, pattern: string, now: nat, id: string) {
    Matches(pattern, id) && id in nodes && Online(nodes[id], now)
  }

  /** The first id found is the first one of a node that the pattern names and that is online. */
  lemma {:induction false} FirstFound(order: seq<string>, nodes: map<string, Node>, pattern: string, now: nat, k: nat)
    requires k < |order| && Found(nodes, pattern, now, order[k])
    requires forall i :: 0 <= i < k ==> !Found(nodes, pattern, now, order[i])
    ensures var found := OnlineIds(order, nodes, pattern, now); found != [] && found[0] == order[k]
  {
    if k > 0 {
      assert !Found(nodes, pattern, now, order[0]);
      FirstFound(order[1..], nodes, pattern, now, k - 1);
    }
  }

  /** A node after a success: it is online, its count one lower, and below the limit wherever it was. */
  function Relieved(settings: Settings, n: Node): Node {
    var count := n.errorCount;
    Node(if count == 0 || settings.removeNodeErrorCount == 0 then 0
         else if count > settings.removeNodeErrorCount then settings.removeNodeErrorCount - 1
         else count - 1, 0)
  }

  /** A node after an error: it is counted up, and at the limit it goes offline if nodes are restored. */
  function Blamed(settings: Settings, n: Node, now: nat): Node {
    var count := n.errorCount + 1;
    if count >= settings.removeNodeErrorCount && settings.restoreNodeTimeout > 0
    then Node(count, now + settings.restoreNodeTimeout)
    else Node(count, n.offlineUntil)
  }

  /** At the limit a node that will not be restored is removed. */
  predicate Removes(settings: Settings, n: Node) {
    n.errorCount + 1 >= settings.removeNodeErrorCount && settings.restoreNodeTimeout == 0
  }

  /** The nodes and their order after an error of `id`. */
  predicate AfterError(settings: Settings, order: seq<string>, nodes: map<string, Node>, id: string, now: nat,
                       order': seq<string>, nodes': map<string, Node>)
    requires id in nodes
  {
    if Removes(settings, nodes[id]) then order' == Without(order, id) && nodes' == nodes - {id}
    else order' == order && nodes' == nodes[id := Blamed(settings, nodes[id], now)]
  }

  class PoolCluster {
    const settings: Settings
    var closed: bool
    var order: seq<string>
    var nodes: map<string, Node>
    /** Nodes that were removed; requests made before may still report on them. */
    var gone: map<string, Node>
    var findCaches: map<string, seq<string>>
    /** The ids of the pools that were ended, in order. */
    var ended: seq<string>

    ghost predicate Valid()
      reads this
    {
      && settings.removeNodeErrorCount >= 1
      && NoDup(order) && nodes.Keys == Elements(order)
      && (forall pattern :: pattern in findCaches ==> findCaches[pattern] == Filter(order, pattern))
      && (forall id :: id in nodes ==> Healthy(settings, nodes[id]))
    }

    /** A count of zero means the default. */
    constructor (canRetry: bool, removeNodeErrorCount: nat, restoreNodeTimeout: nat)
      ensures Valid() && !closed && order == [] && nodes == map[] && gone == map[] && ended == []
      ensures settings == Settings(canRetry, if removeNodeErrorCount == 0 then 5 else removeNodeErrorCount,
                                   restoreNodeTimeout)
    {
      settings := Settings(canRetry, if removeNodeErrorCount == 0 then 5 else removeNodeErrorCount,
                                   restoreNodeTimeout);
      closed, order, nodes, gone, findCaches, ended := false, [], map[], map[], map[], [];
    }

    /** Adds a node; `at` is the place where the engine lists its key.  A closed cluster and a known id are errors. */
    method Add(id: string, at: nat) returns (ok: bool)
      requires Valid() && at <= |order|
      modifies this
      ensures Valid() && closed == old(closed) && ended == old(ended) && gone == old(gone)
      ensures ok <==> !old(closed) && id !in old(nodes)
      ensures ok ==> order == old(order)[..at] + [id] + old(order)[at..] && nodes == old(nodes)[id := Node(0, 0)]
      ensures !ok ==> order == old(order) && nodes == old(nodes)
    {
      if closed || id in nodes {
        return false;
      }
      InsertNoDup(order, at, id);
      order := order[..at] + [id] + order[at..];
      nodes := nodes[id := Node(0, 0)];
      findCaches := map[];
      return true;
    }

    /** All ids of a pattern, from the cache if they are in it. */
    method Lookup(pattern: string) returns (all: seq<string>)
      requires Valid()
      modifies this`findCaches
      ensures Valid() && all == Filter(order, pattern)
    {
      if pattern !in findCaches {
        findCaches := findCaches[pattern := Filter(order, pattern)];
      }
      all := findCaches[pattern];
    }

    /** The cache is filled as needed, and what is returned is what a fresh filter would give. */
    method FindNodeIds(pattern: string, includeOffline: bool, now: nat) returns (found: seq<string>)
      requires Valid()
      modifies this`findCaches
      ensures Valid()
      ensures includeOffline ==> found == Filter(order, pattern)
      ensures !includeOffline ==> found == OnlineIds(order, nodes, pattern, now)
    {
      var all := Lookup(pattern);
      if includeOffline {
        return all;
      }
      found := KeepOnline(all, nodes, pattern, now);
      OnlineOfFilter(order, nodes, pattern, now);
    }

    method RemoveNode(id: string)
      requires Valid()
      modifies this
      ensures Valid() && closed == old(closed)
      ensures order == Without(old(order), id) && nodes == old(nodes) - {id} && ended == old(ended) + [id]
      ensures gone == if id in old(nodes) then old(gone)[id := old(nodes)[id]] else old(gone)
    {
      WithoutNoDup(order, id);
      order := Without(order, id);
      gone := if id in nodes then gone[id := nodes[id]] else gone;
      nodes := nodes - {id};
      findCaches := map[];
      ended := ended + [id];
    }

    /** Exactly the nodes that the pattern does not name stay, untouched, and the pools of the others are ended. */
    method Remove(pattern: string)
      requires Valid()
      modifies this
      ensures Valid() && closed == old(closed)
      ensures nodes == map id | id in old(nodes) && !Matches(pattern, id) :: old(nodes)[id]
      ensures forall id :: id in order <==> id in old(order) && !Matches(pattern, id)
      ensures ended == old(ended) + Filter(old(order), pattern)
    {
      var found := FindNodeIds(pattern, true, 0);
      FilterNoDup(order, pattern);
      assert forall id :: id in order <==> id in nodes;
      RemoveAll(found);
      assert forall id :: id in order <==> id in nodes;
    }

    method RemoveAll(found: seq<string>)
      requires Valid() && NoDup(found) && forall id :: id in found ==> id in nodes
      modifies this
      ensures Valid() && closed == old(closed)
      ensures nodes == old(nodes) - Elements(found) && ended == old(ended) + found
    {
      for i := 0 to |found|
        invariant Valid() && closed == old(closed)
        invariant nodes == old(nodes) - Elements(found[..i])
        invariant ended == old(ended) + found[..i]
      {
        assert found[i] in found && found[i] !in found[..i];
        OneFewer(old(nodes), found, i);
        if found[i] in nodes {
          RemoveNode(found[i]);
        }
      }
      assert found[..|found|] == found;
    }

    /** A success is reported for a node of the cluster, or for one that was removed meanwhile. */
    method DecreaseErrorCount(id: string)
      requires Valid() && (id in nodes || id in gone)
      modifies this`nodes, this`gone
      ensures Valid()
      ensures id in old(nodes) ==> nodes == old(nodes)[id := Relieved(settings, old(nodes)[id])] && gone == old(gone)
      ensures id !in old(nodes) ==> nodes == old(nodes) && gone == old(gone)[id := Relieved(settings, old(gone)[id])]
    {
      var errorCount := if id in nodes then nodes[id].errorCount else gone[id].errorCount;
      if errorCount > settings.removeNodeErrorCount {
        errorCount := settings.removeNodeErrorCount;
      }
      if errorCount < 1 {
        errorCount := 1;
      }
      if id in nodes {
        nodes := nodes[id := Node(errorCount - 1, 0)];
      } else {
        gone := gone[id := Node(errorCount - 1, 0)];
      }
    }

    /** An error is reported for a node of the cluster, or for one that was removed meanwhile. */
    method IncreaseErrorCount(id: string, now: nat)
      requires Valid() && (id in nodes || id in gone)
      modifies this
      ensures Valid() && closed == old(closed)
      ensures id in old(nodes) ==>
                && AfterError(settings, old(order), old(nodes), id, now, order, nodes)
                && gone == (if id in nodes then old(gone) else old(gone)[id := Blamed(settings, old(nodes)[id], now)])
                && ended == if id in nodes then old(ended) else old(ended) + [id]
      ensures id !in old(nodes) ==>
                && order == old(order) && nodes == old(nodes)
                && gone == old(gone)[id := Blamed(settings, old(gone)[id], now)]
                && ended == if Removes(settings, old(gone)[id]) then old(ended) + [id] else old(ended)
    {
      var node := if id in nodes then nodes[id] else gone[id];
      var errorCount := node.errorCount + 1;
      if settings.removeNodeErrorCount > errorCount {
        Store(id, node.(errorCount := errorCount));
        return;
      }
      if settings.restoreNodeTimeout > 0 {
        Store(id, Node(errorCount, now + settings.restoreNodeTimeout));
        return;
      }
      RemoveCounted(id, node.(errorCount := errorCount));
    }

    method Store(id: string, node: Node)
      requires Valid() && (id in nodes ==> Healthy(settings, node))
      modifies this`nodes, this`gone
      ensures Valid()
      ensures id in old(nodes) ==> nodes == old(nodes)[id := node] && gone == old(gone)
      ensures id !in old(nodes) ==> nodes == old(nodes) && gone == old(gone)[id := node]
    {
      if id in nodes {
        nodes := nodes[id := node];
      } else {
        gone := gone[id := node];
      }
    }

    /** Removing a node that is gone ends its pool once more and changes nothing else. */
    method RemoveCounted(id: string, node: Node)
      requires Valid()
      modifies this
      ensures Valid() && closed == old(closed) && ended == old(ended) + [id] && gone == old(gone)[id := node]
      ensures order == Without(old(order), id) && nodes == old(nodes) - {id}
    {
      RemoveNode(id);
      gone := gone[id := node];
    }

    /** Every pool reports to the variables returned.  A cluster that is closed already just calls back. */
    method End() returns (closing: Option<Closing<string>>)
      requires Valid()
      modifies this
      ensures Valid() && closed && nodes == old(nodes) && order == old(order)
      ensures ended == if old(closed) then old(ended) else old(ended) + order
      ensures closing.None? <==> old(closed)
      ensures closing.Some? ==>
                && fresh(closing.value) && closing.value.Valid()
                && closing.value.reports == [] && closing.value.awaited == |order|
    {
      if closed {
        return None;
      }
      closed := true;
      var waitingClose := 0;
      for i := 0 to |order|
        invariant closed && nodes == old(nodes) && order == old(order) && findCaches == old(findCaches)
        invariant ended == old(ended) + order[..i] && waitingClose == i
      {
        waitingClose := waitingClose + 1;
        ended := ended + [order[i]];
      }
      var variables := new Closing(waitingClose);
      return Some(variables);
    }
  }

  lemma OneFewer(nodes: map<string, Node>, found: seq<string>, i: nat)
    requires i < |found|
    ensures found[..i + 1] == found[..i] + [found[i]]
    ensures nodes - Elements(found[..i]) - {found[i]} == nodes - Elements(found[..i + 1])
  {
    assert found[..i + 1] == found[..i] + [found[i]];
    ElementsSnoc(found[..i], found[i]);
  }

  /** The filter by time; every id has a node. */
  method KeepOnline(all: seq<string>, nodes: map<string, Node>, pattern: string, now: nat) returns (found: seq<string>)
    requires forall id :: id in all ==> id in nodes && Matches(pattern, id)
    ensures found == OnlineIds(all, nodes, pattern, now)
  {
    found := [];
    for i := 0 to |all|
      invariant found == OnlineIds(all[..i], nodes, pattern, now)
    {
      assert all[i] in all;
      OnlineSnoc(all[..i], all[i], nodes, pattern, now);
      TakeNext(all, i);
      if Online(nodes[all[i]], now) {
        found := found + [all[i]];
      }
    }
    assert all[..|all|] == all;
  }

  lemma InsertNoDup<T>(xs: seq<T>, i: nat, x: T)
    requires i <= |xs| && NoDup(xs) && x !in xs
    ensures NoDup(xs[..i] + [x] + xs[i..])
  {
    var ys := xs[..i] + [x] + xs[i..];
    forall a, b | 0 <= a < b < |ys| ensures ys[a] != ys[b] {
      var a' := if a < i then a else a - 1;
      var b' := if b < i then b else b - 1;
      assert a != i ==> ys[a] == xs[a'];
      assert b != i ==> ys[b] == xs[b'];
    }
  }

  lemma {:induction false} FilterNoDup(order: seq<string>, pattern: string)
    requires NoDup(order)
    ensures NoDup(Filter(order, pattern))
  {
    if order != [] {
      NoDupTail(order);
      FilterNoDup(order[1..], pattern);
      if Matches(pattern, order[0]) {
        NoDupCons(order[0], Filter(order[1..], pattern));
      }
    }
  }

  lemma {:induction false} OnlineSnoc(order: seq<string>, id: string, nodes: map<string, Node>, pattern: string,
                                      now: nat)
    ensures OnlineIds(order + [id], nodes, pattern, now) ==
            OnlineIds(order, nodes, pattern, now) +
            if Matches(pattern, id) && id in nodes && Online(nodes[id], now) then [id] else []
  {
    if order == [] {
      assert order + [id] == [id];
    } else {
      assert (order + [id])[1..] == order[1..] + [id];
      OnlineSnoc(order[1..], id, nodes, pattern, now);
    }
  }

  lemma {:induction false} OnlineOfFilter(order: seq<string>, nodes: map<string, Node>, pattern: string, now: nat)
    ensures OnlineIds(Filter(order, pattern), nodes, pattern, now) == OnlineIds(order, nodes, pattern, now)
  {
    if order != [] {
      OnlineOfFilter(order[1..], nodes, pattern, now);
      var rest := Filter(order[1..], pattern);
      if Matches(pattern, order[0]) {
        assert ([order[0]] + rest)[1..] == rest;
      } else {
        assert Filter(order, pattern) == rest;
      }
    }
  }
}
