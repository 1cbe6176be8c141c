/** Successive requests of one namespace: whose turn it is. */
module ClusterTurns {
  import opened Cluster
  import opened ClusterChances
  import opened ClusterRetry
  import opened ClusterSelectors
  import opened Lists

  /** At all readings from number `i` on until number `end` the same nodes of the pattern are online. */
  ghost predicate SameOnline(m: Members, pattern: string, clock: nat -> nat, i: nat, end: nat, found: seq<string>) {
    forall j :: i <= j < end ==> m.Online(pattern, clock(3 * j)) == found
  }

  lemma {:induction false} SameIds(order: seq<string>, nodes: map<string, Node>, pattern: string, id: string, n: Node,
                                   now: nat)
    requires id in nodes && Online(nodes[id], now) && Online(n, now)
    ensures OnlineIds(order, nodes[id := n], pattern, now) == OnlineIds(order, nodes, pattern, now)
  {
    if order != [] {
      SameIds(order[1..], nodes, pattern, id, n, now);
    }
  }

  /** A success changes nothing about which nodes are online. */
  lemma SuccessKeepsOnline(settings: Settings, m: Members, pattern: string, clock: nat -> nat, i: nat, end: nat,
                           found: seq<string>, id: string)
    requires Monotone(clock) && i < end && SameOnline(m, pattern, clock, i, end, found) && id in found
    ensures id in m.nodes
    ensures SameOnline(Members(m.order, m.nodes[id := Relieved(settings, m.nodes[id])]), pattern, clock, i, end, found)
  {
    assert id in m.Online(pattern, clock(3 * i));
    var n := Relieved(settings, m.nodes[id]);
    forall j | i <= j < end
      ensures Members(m.order, m.nodes[id := n]).Online(pattern, clock(3 * j)) == found
    {
      assert id in m.Online(pattern, clock(3 * j));
      SameIds(m.order, m.nodes, pattern, id, n, clock(3 * j));
    }
  }

  lemma ServedAtOnce(settings: Settings, selector: Selector, pattern: string, clock: nat -> nat, i: nat,
                     outcome: nat -> bool, m: Members, index: nat, m1: Members, end: nat, reply: Reply, attempts: nat,
                     trail: seq<Choice>)
    requires m.Online(pattern, clock(3 * i)) != [] && forall j :: outcome(j)
    requires Tried(i, outcome, reply, attempts) && RightCode(m, pattern, clock(3 * i), reply, attempts)
    requires |trail| == attempts && Trail(settings, selector, pattern, clock, i, m, index, trail, m1, end, reply)
    ensures reply.Given? && Chosen(selector, m.Online(pattern, clock(3 * i)), index, reply.id, end)
    ensures reply.id in m.nodes && m1 == Members(m.order, m.nodes[reply.id := Relieved(settings, m.nodes[reply.id])])
  {
    OnlineAreNamed(m, pattern, clock(3 * i));
    assert outcome(i) && outcome(i + attempts - 1);
  }

  /**
  Requests that all succeed, while the same nodes of the pattern are online: each is served at its first attempt, and
  the nodes are chosen in turn.
  */
  method Requests(namespace: PoolNamespace, count: nat, clock: nat -> nat, ghost found: seq<string>)
    returns (ids: seq<string>, ghost indexes: seq<nat>)
    requires namespace.cluster.Valid() && Monotone(clock) && found != []
    requires SameOnline(namespace.Members(), namespace.pattern, clock, 0, count, found)
    modifies namespace`index, namespace.cluster
    ensures namespace.cluster.Valid() && |ids| == count && Turns(namespace.selector, found, ids, indexes)
    ensures indexes[0] == old(namespace.index) && indexes[count] == namespace.index
    ensures Distributed(namespace.selector, found, ids, old(namespace.index))
    ensures namespace.selector != RR || |found| == 1 ==> namespace.index == old(namespace.index)
  {
    ids, indexes := [], [namespace.index];
    for i := 0 to count
      invariant namespace.cluster.Valid()
      invariant SameOnline(namespace.Members(), namespace.pattern, clock, i, count, found)
      invariant |ids| == i && Turns(namespace.selector, found, ids, indexes)
      invariant indexes[0] == old(namespace.index) && indexes[i] == namespace.index
      invariant namespace.selector != RR || |found| == 1 ==> namespace.index == old(namespace.index)
    {
      var id := OneRequest(namespace, i, count, clock, found);
      ids, indexes := ids + [id], indexes + [namespace.index];
    }
    InTurn(namespace.selector, found, ids, indexes);
  }

  method OneRequest(namespace: PoolNamespace, i: nat, count: nat, clock: nat -> nat, ghost found: seq<string>)
    returns (id: string)
    requires namespace.cluster.Valid() && Monotone(clock) && found != [] && i < count
    requires SameOnline(namespace.Members(), namespace.pattern, clock, i, count, found)
    modifies namespace`index, namespace.cluster
    ensures namespace.cluster.Valid()
    ensures SameOnline(namespace.Members(), namespace.pattern, clock, i + 1, count, found)
    ensures Chosen(namespace.selector, found, old(namespace.index), id, namespace.index)
  {
    ghost var m, settings := namespace.Members(), namespace.cluster.settings;
    var outcome := (_: nat) => true;
    EndsWithinChances(settings, m, namespace.pattern, clock, i, outcome, 0, 0);
    var reply, attempts;
    ghost var trail;
    reply, attempts, trail := namespace.GetConnection(i, outcome, clock, 0, 1);
    ServedAtOnce(settings, namespace.selector, namespace.pattern, clock, i, outcome, m, old(namespace.index),
                 namespace.Members(), namespace.index, reply, attempts, trail);
    id := reply.id;
    SuccessKeepsOnline(settings, m, namespace.pattern, clock, i, count, found, id);
  }
}
