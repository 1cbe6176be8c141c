/** How many errors the nodes of a pattern can take while time passes, and when a request can be retried for ever. */
module ClusterChances {
  import opened Lists
  import opened Cluster

  // ----- One node -----

  /** How often a node that goes offline at `now` can come back until `horizon`. */
  function Returns(timeout: nat, now: nat, horizon: nat): nat
    decreases horizon - now
  {
    if timeout == 0 || now + timeout > horizon then 0 else 1 + Returns(timeout, now + timeout, horizon)
  }

  lemma {:induction false} ReturnsFall(timeout: nat, now: nat, later: nat, horizon: nat)
    requires now <= later
    ensures Returns(timeout, later, horizon) <= Returns(timeout, now, horizon)
    decreases horizon - now
  {
    if timeout > 0 && now + timeout <= horizon {
      ReturnsFall(timeout, now + timeout, later + timeout, horizon);
    }
  }

  /** How many errors of a node can be counted from `now` until `horizon`. */
  function Chances(settings: Settings, n: Node, now: nat, horizon: nat): nat {
    var timeout := settings.restoreNodeTimeout;
    if n.errorCount < settings.removeNodeErrorCount
    then settings.removeNodeErrorCount - n.errorCount + Returns(timeout, now, horizon)
    else if Online(n, now) then 1 + Returns(timeout, now, horizon)
    else if n.offlineUntil <= horizon then 1 + Returns(timeout, n.offlineUntil, horizon)
    else 0
  }

  /** Time is on nobody's side: as it passes the chances of a node do not grow. */
  lemma {:induction false} ChancesFall(settings: Settings, n: Node, now: nat, later: nat, horizon: nat)
    requires Healthy(settings, n) && now <= later && (settings.restoreNodeTimeout > 0 ==> later <= horizon)
    ensures Chances(settings, n, later, horizon) <= Chances(settings, n, now, horizon)
  {
    var timeout := settings.restoreNodeTimeout;
    ReturnsFall(timeout, now, later, horizon);
    if n.offlineUntil <= later {
      ReturnsFall(timeout, n.offlineUntil, later, horizon);
    }
  }

  /** An error of an online node that stays in the cluster uses up one of its chances at least. */
  lemma {:induction false} ErrorUsesOne(settings: Settings, n: Node, now: nat, at: nat, later: nat, horizon: nat)
    requires Healthy(settings, n) && Online(n, now) && !Removes(settings, n) && now <= at <= later
    requires settings.restoreNodeTimeout > 0 ==> later <= horizon
    ensures Chances(settings, Blamed(settings, n, at), later, horizon) + 1 <= Chances(settings, n, now, horizon)
  {
    var timeout := settings.restoreNodeTimeout;
    ReturnsFall(timeout, now, at, horizon);
    ReturnsFall(timeout, now, later, horizon);
    if timeout > 0 && at + timeout <= later {
      ReturnsFall(timeout, at + timeout, later, horizon);
    }
  }

  /** Where a node does not come back it uses up exactly one, and time uses up none. */
  lemma {:induction false} ErrorUsesJustOne(settings: Settings, n: Node, now: nat, at: nat, later: nat, horizon: nat)
    requires Healthy(settings, n) && now <= at <= later <= horizon
    requires settings.restoreNodeTimeout > 0 ==> horizon < now + settings.restoreNodeTimeout
    requires n.offlineUntil <= now || n.offlineUntil > horizon
    ensures Chances(settings, n, later, horizon) == Chances(settings, n, now, horizon)
    ensures Online(n, now) && !Removes(settings, n) ==>
              Chances(settings, Blamed(settings, n, at), later, horizon) + 1 == Chances(settings, n, now, horizon)
    ensures Online(n, now) && Removes(settings, n) ==> Chances(settings, n, now, horizon) == 1
  {
    assert Returns(settings.restoreNodeTimeout, now, horizon) == 0;
    assert Returns(settings.restoreNodeTimeout, later, horizon) == 0;
  }

  // ----- All nodes of a pattern -----

  ghost function Sum(order: seq<string>, weight: string -> nat): nat {
    if order == [] then 0 else weight(order[0]) + Sum(order[1..], weight)
  }

  lemma {:induction false} SumFalls(order: seq<string>, weight: string -> nat, less: string -> nat, exactly: bool)
    requires forall id :: id in order ==> less(id) <= weight(id)
    requires exactly ==> forall id :: id in order ==> less(id) == weight(id)
    ensures Sum(order, less) <= Sum(order, weight)
    ensures exactly ==> Sum(order, less) == Sum(order, weight)
  {
    if order != [] {
      assert order[0] in order;
      assert forall id :: id in order[1..] ==> id in order;
      SumFalls(order[1..], weight, less, exactly);
    }
  }

  lemma {:induction false} SumDrops(order: seq<string>, weight: string -> nat, less: string -> nat, x: string,
                                    exactly: bool)
    requires NoDup(order) && x in order && less(x) + 1 <= weight(x)
    requires forall id :: id in order && id != x ==> less(id) <= weight(id)
    requires exactly ==> less(x) + 1 == weight(x) && forall id :: id in order && id != x ==> less(id) == weight(id)
    ensures Sum(order, less) + 1 <= Sum(order, weight)
    ensures exactly ==> Sum(order, less) + 1 == Sum(order, weight)
  {
    NoDupTail(order);
    assert order[0] in order;
    assert forall id :: id in order[1..] ==> id in order;
    if order[0] == x {
      SumFalls(order[1..], weight, less, exactly);
    } else {
      SumDrops(order[1..], weight, less, x, exactly);
    }
  }

  lemma {:induction false} SumWithout(order: seq<string>, weight: string -> nat, x: string)
    requires weight(x) == 0
    ensures Sum(Without(order, x), weight) == Sum(order, weight)
  {
    if order != [] && order[0] != x {
      SumWithout(order[1..], weight, x);
      assert Without(order, x)[1..] == Without(order[1..], x);
    }
  }

  /** The nodes of a cluster, in their order. */
  datatype Members = Members(order: seq<string>, nodes: map<string, Node>) {
    ghost predicate Sound(settings: Settings) {
      && settings.removeNodeErrorCount >= 1
      && NoDup(order) && nodes.Keys == Elements(order)
      && (forall id :: id in nodes ==> Healthy(settings, nodes[id]))
    }

    function Online(pattern: string, now: nat): seq<string> {
      OnlineIds(order, nodes, pattern, now)
    }
  }

  ghost function Weight(settings: Settings, nodes: map<string, Node>, pattern: string, now: nat, horizon: nat)
    : string -> nat
  {
    id => if id in nodes && Matches(pattern, id) then Chances(settings, nodes[id], now, horizon) else 0
  }

  /** How many errors of the nodes of a pattern can be counted from `now` until `horizon`. */
  ghost function Potential(settings: Settings, m: Members, pattern: string, now: nat, horizon: nat): nat {
    Sum(m.order, Weight(settings, m.nodes, pattern, now, horizon))
  }

  /** Nodes that are not restored have the same chances for ever; otherwise the clock stays below the horizon. */
  ghost predicate Bounded(settings: Settings, clock: nat -> nat, horizon: nat) {
    settings.restoreNodeTimeout > 0 ==> Under(clock, horizon)
  }

  predicate Below(clock: nat -> nat, i: nat, horizon: nat) {
    clock(i) <= horizon
  }

  ghost predicate Under(clock: nat -> nat, horizon: nat) {
    forall i :: Below(clock, i, horizon)
  }

  predicate Ordered(clock: nat -> nat, i: nat, j: nat) {
    clock(i) <= clock(j)
  }

  ghost predicate Monotone(clock: nat -> nat) {
    forall i: nat, j: nat :: i <= j ==> Ordered(clock, i, j)
  }

  /** The readings of one attempt and the first of the next. */
  lemma AttemptTimes(clock: nat -> nat, k: nat)
    requires Monotone(clock)
    ensures clock(3 * k) <= clock(3 * k + 1) <= clock(3 * k + 2) <= clock(3 * (k + 1))
  {
    assert Ordered(clock, 3 * k, 3 * k + 1) && Ordered(clock, 3 * k + 1, 3 * k + 2);
    assert Ordered(clock, 3 * k + 2, 3 * (k + 1));
  }

  /** No node comes back online between `now` and `horizon`: neither one that is offline, nor one that goes offline. */
  ghost predicate Quiet(settings: Settings, nodes: map<string, Node>, now: nat, horizon: nat) {
    && now <= horizon
    && (settings.restoreNodeTimeout > 0 ==> horizon < now + settings.restoreNodeTimeout)
    && (forall id :: id in nodes ==> nodes[id].offlineUntil <= now || nodes[id].offlineUntil > horizon)
  }

  ghost predicate ErrorOf(settings: Settings, m: Members, id: string, at: nat, m': Members) {
    id in m.nodes && AfterError(settings, m.order, m.nodes, id, at, m'.order, m'.nodes)
  }

  lemma {:induction false} ErrorKeepsSound(settings: Settings, m: Members, id: string, at: nat, m': Members)
    requires m.Sound(settings) && ErrorOf(settings, m, id, at, m')
    ensures m'.Sound(settings)
    ensures forall pattern :: Elements(Filter(m'.order, pattern)) <= Elements(Filter(m.order, pattern))
  {
    WithoutNoDup(m.order, id);
  }

  /** What an error does to the chances of the single nodes. */
  lemma {:induction false} WeightsFall(settings: Settings, m: Members, pattern: string, id: string, now: nat, at: nat,
                                       later: nat, horizon: nat, m': Members, other: string)
    requires m.Sound(settings) && ErrorOf(settings, m, id, at, m')
    requires Online(m.nodes[id], now) && Matches(pattern, id) && now <= at <= later
    requires settings.restoreNodeTimeout > 0 ==> later <= horizon
    ensures var less, weight := Weight(settings, m'.nodes, pattern, later, horizon),
                                Weight(settings, m.nodes, pattern, now, horizon);
            if other == id then less(id) + 1 <= weight(id) else less(other) <= weight(other)
  {
    if other == id {
      if !Removes(settings, m.nodes[id]) {
        ErrorUsesOne(settings, m.nodes[id], now, at, later, horizon);
      }
    } else if other in m.nodes {
      ChancesFall(settings, m.nodes[other], now, later, horizon);
    }
  }

  /** While no node comes back it does exactly that. */
  lemma {:induction false} WeightsFallByOne(settings: Settings, m: Members, pattern: string, id: string, now: nat,
                                            at: nat, later: nat, horizon: nat, m': Members, other: string)
    requires m.Sound(settings) && ErrorOf(settings, m, id, at, m')
    requires Online(m.nodes[id], now) && Matches(pattern, id) && now <= at <= later <= horizon
    requires Quiet(settings, m.nodes, now, horizon)
    ensures var less, weight := Weight(settings, m'.nodes, pattern, later, horizon),
                                Weight(settings, m.nodes, pattern, now, horizon);
            if other == id then less(id) + 1 == weight(id) else less(other) == weight(other)
  {
    if other in m.nodes {
      ErrorUsesJustOne(settings, m.nodes[other], now, at, later, horizon);
    }
  }

  /** An error of an online node uses up one of the chances at least, and exactly one while no node comes back. */
  lemma {:induction false} ErrorCostsOne(settings: Settings, m: Members, pattern: string, id: string, now: nat, at: nat,
                                         later: nat, horizon: nat, m': Members)
    requires m.Sound(settings) && ErrorOf(settings, m, id, at, m')
    requires id in m.Online(pattern, now) && now <= at <= later
    requires settings.restoreNodeTimeout > 0 ==> later <= horizon
    ensures Potential(settings, m', pattern, later, horizon) + 1 <= Potential(settings, m, pattern, now, horizon)
    ensures Quiet(settings, m.nodes, now, horizon) && later <= horizon ==>
              && Quiet(settings, m'.nodes, later, horizon)
              && Potential(settings, m', pattern, later, horizon) + 1 == Potential(settings, m, pattern, now, horizon)
  {
    var less, weight := Weight(settings, m'.nodes, pattern, later, horizon),
                        Weight(settings, m.nodes, pattern, now, horizon);
    var exactly := Quiet(settings, m.nodes, now, horizon) && later <= horizon;
    forall other ensures if other == id then less(id) + 1 <= weight(id) else less(other) <= weight(other) {
      WeightsFall(settings, m, pattern, id, now, at, later, horizon, m', other);
    }
    forall other | exactly
      ensures if other == id then less(id) + 1 == weight(id) else less(other) == weight(other) {
      WeightsFallByOne(settings, m, pattern, id, now, at, later, horizon, m', other);
    }
    SumDrops(m.order, weight, less, id, exactly);
    if Removes(settings, m.nodes[id]) {
      SumWithout(m.order, less, id);
    }
  }

  /** Where nothing comes back, there are chances left exactly if a node is online. */
  lemma {:induction false} PotentialZero(settings: Settings, m: Members, pattern: string, now: nat, horizon: nat)
    requires m.Sound(settings)
    ensures m.Online(pattern, now) != [] ==> Potential(settings, m, pattern, now, horizon) > 0
    ensures Quiet(settings, m.nodes, now, horizon) && m.Online(pattern, now) == [] ==>
              Potential(settings, m, pattern, now, horizon) == 0
  {
    SumZero(settings, m.order, m.nodes, pattern, now, horizon);
  }

  lemma {:induction false} SumZero(settings: Settings, order: seq<string>, nodes: map<string, Node>, pattern: string,
                                   now: nat, horizon: nat)
    requires forall id :: id in nodes ==> Healthy(settings, nodes[id])
    ensures OnlineIds(order, nodes, pattern, now) != [] ==>
              Sum(order, Weight(settings, nodes, pattern, now, horizon)) > 0
    ensures Quiet(settings, nodes, now, horizon) && OnlineIds(order, nodes, pattern, now) == [] ==>
              Sum(order, Weight(settings, nodes, pattern, now, horizon)) == 0
  {
    if order != [] {
      SumZero(settings, order[1..], nodes, pattern, now, horizon);
    }
  }

  // ----- Requests that are retried -----

  /** Attempt number `k` fails on an online node, and the request goes on.  An attempt reads the clock three times. */
  ghost predicate Retried(settings: Settings, pattern: string, clock: nat -> nat, k: nat, m: Members, m': Members) {
    && settings.canRetry
    && (exists id :: id in m.Online(pattern, clock(3 * k)) && ErrorOf(settings, m, id, clock(3 * k + 1), m'))
    && m'.Online(pattern, clock(3 * k + 2)) != []
  }

  /** A request whose attempts from number `k` on were all retried, with the nodes before and after each. */
  ghost predicate RetriedAll(settings: Settings, pattern: string, clock: nat -> nat, k: nat, run: seq<Members>)
    decreases |run|
  {
    |run| > 0 &&
    (|run| > 1 ==>
       && Retried(settings, pattern, clock, k, run[0], run[1])
       && RetriedAll(settings, pattern, clock, k + 1, run[1..]))
  }

  /** Every retry uses up a chance, and there is one left. */
  lemma {:induction false} RetryCostsOne(settings: Settings, pattern: string, clock: nat -> nat, k: nat, m: Members,
                                         m': Members, horizon: nat)
    requires Retried(settings, pattern, clock, k, m, m') && m.Sound(settings)
    requires Monotone(clock) && Bounded(settings, clock, horizon)
    ensures m'.Sound(settings)
    ensures 0 < Potential(settings, m', pattern, clock(3 * (k + 1)), horizon)
    ensures Potential(settings, m', pattern, clock(3 * (k + 1)), horizon) <
            Potential(settings, m, pattern, clock(3 * k), horizon)
  {
    var now, at, checked, later := clock(3 * k), clock(3 * k + 1), clock(3 * k + 2), clock(3 * (k + 1));
    AttemptTimes(clock, k);
    assert settings.restoreNodeTimeout > 0 ==> Below(clock, 3 * (k + 1), horizon);
    var id :| id in m.Online(pattern, now) && ErrorOf(settings, m, id, at, m');
    ErrorKeepsSound(settings, m, id, at, m');
    ErrorCostsOne(settings, m, pattern, id, now, at, later, horizon, m');
    StillOnline(m', pattern, checked, later);
    PotentialZero(settings, m', pattern, later, horizon);
  }

  /** A request is retried less often than its nodes have chances until the horizon. */
  lemma {:induction false} RetriesAreBounded(settings: Settings, pattern: string, clock: nat -> nat, k: nat,
                                             run: seq<Members>, horizon: nat)
    requires RetriedAll(settings, pattern, clock, k, run) && run[0].Sound(settings)
    requires Monotone(clock) && Bounded(settings, clock, horizon)
    ensures |run| > 1 ==> |run| - 1 < Potential(settings, run[0], pattern, clock(3 * k), horizon)
    decreases |run|
  {
    if |run| > 1 {
      RetryCostsOne(settings, pattern, clock, k, run[0], run[1], horizon);
      RetriesAreBounded(settings, pattern, clock, k + 1, run[1..], horizon);
    }
  }

  /** Time alone takes no node offline. */
  lemma {:induction false} StillOnline(m: Members, pattern: string, now: nat, later: nat)
    requires now <= later
    ensures forall id :: id in m.Online(pattern, now) ==> id in m.Online(pattern, later)
    ensures m.Online(pattern, now) != [] ==> m.Online(pattern, later) != []
  {
    EmptyOrInhabited(m.Online(pattern, now));
  }

  // ----- Requests that are retried for ever -----

  /** A request can be retried `n` times. */
  ghost predicate Lasts(settings: Settings, m: Members, pattern: string, clock: nat -> nat, n: nat) {
    exists run :: |run| == n + 1 && run[0] == m && RetriedAll(settings, pattern, clock, 0, run)
  }

  ghost predicate NeedNotEnd(settings: Settings, m: Members, pattern: string, clock: nat -> nat) {
    forall n :: Lasts(settings, m, pattern, clock, n)
  }

  /** All nodes are online. */
  ghost predicate AllBack(m: Members, now: nat) {
    forall id :: id in m.nodes ==> m.nodes[id].offlineUntil <= now
  }

  /** A time at which all nodes are online. */
  lemma {:induction false} TimeAllBack(m: Members) returns (now: nat)
    ensures AllBack(m, now)
    decreases |m.nodes|
  {
    if m.nodes == map[] {
      now := 0;
    } else {
      var id :| id in m.nodes;
      var rest := Members(m.order, m.nodes - {id});
      var before := TimeAllBack(rest);
      now := if m.nodes[id].offlineUntil > before then m.nodes[id].offlineUntil else before;
      forall other | other in m.nodes ensures m.nodes[other].offlineUntil <= now {
        assert other != id ==> other in rest.nodes;
      }
    }
  }

  /** Every reading of this clock is one timeout after the one before. */
  function Slow(start: nat, timeout: nat): nat -> nat {
    i => start + i * timeout
  }

  lemma {:induction false} SlowIsMonotone(start: nat, timeout: nat)
    ensures Monotone(Slow(start, timeout))
  {
    forall i: nat, j: nat | i <= j ensures Ordered(Slow(start, timeout), i, j) {
      assert (j - i) * timeout >= 0;
      assert j * timeout == i * timeout + (j - i) * timeout;
    }
  }

  /** By the slow clock a failed attempt is retried whichever node it was made on: the node is back by then. */
  lemma {:induction false} BackInTime(settings: Settings, pattern: string, start: nat, k: nat, m: Members, id: string,
                                      m': Members)
    requires m.Sound(settings) && settings.canRetry && settings.restoreNodeTimeout > 0
    requires var clock := Slow(start, settings.restoreNodeTimeout);
             AllBack(m, clock(3 * k)) && id in m.Online(pattern, clock(3 * k)) &&
             ErrorOf(settings, m, id, clock(3 * k + 1), m')
    ensures var clock := Slow(start, settings.restoreNodeTimeout);
            Retried(settings, pattern, clock, k, m, m') && AllBack(m', clock(3 * (k + 1)))
    ensures m'.Sound(settings) && m'.order == m.order
  {
    var timeout := settings.restoreNodeTimeout;
    var clock := Slow(start, timeout);
    assert clock(3 * k + 2) == clock(3 * k + 1) + timeout by {
      assert (3 * k + 2) * timeout == (3 * k + 1) * timeout + timeout;
    }
    SlowIsMonotone(start, timeout);
    ErrorKeepsSound(settings, m, id, clock(3 * k + 1), m');
    AttemptTimes(clock, k);
    assert id in m'.Online(pattern, clock(3 * k + 2));
  }

  /** By the slow clock all nodes are online at attempt number `k`, and the pattern names one of them. */
  ghost predicate Restless(settings: Settings, pattern: string, start: nat, k: nat, m: Members) {
    && m.Sound(settings) && settings.canRetry && settings.restoreNodeTimeout > 0 && Filter(m.order, pattern) != []
    && AllBack(m, Slow(start, settings.restoreNodeTimeout)(3 * k))
  }

  /** There is a node to make the attempt on. */
  lemma {:induction false} OneMoreRetry(settings: Settings, pattern: string, start: nat, k: nat, m: Members)
    returns (m': Members)
    requires Restless(settings, pattern, start, k, m)
    ensures Retried(settings, pattern, Slow(start, settings.restoreNodeTimeout), k, m, m')
    ensures Restless(settings, pattern, start, k + 1, m')
  {
    EmptyOrInhabited(Filter(m.order, pattern));
    var id :| id in Filter(m.order, pattern);
    var at := Slow(start, settings.restoreNodeTimeout)(3 * k + 1);
    m' := Members(m.order, m.nodes[id := Blamed(settings, m.nodes[id], at)]);
    BackInTime(settings, pattern, start, k, m, id, m');
  }

  lemma OneRetryBefore(settings: Settings, pattern: string, clock: nat -> nat, k: nat, m: Members, run: seq<Members>)
    requires RetriedAll(settings, pattern, clock, k + 1, run) && Retried(settings, pattern, clock, k, m, run[0])
    ensures RetriedAll(settings, pattern, clock, k, [m] + run)
  {
    assert ([m] + run)[1..] == run;
  }

  lemma {:induction false} RetriedFor(settings: Settings, pattern: string, start: nat, k: nat, m: Members, n: nat)
    returns (run: seq<Members>)
    requires Restless(settings, pattern, start, k, m)
    ensures |run| == n + 1 && run[0] == m
    ensures RetriedAll(settings, pattern, Slow(start, settings.restoreNodeTimeout), k, run)
    decreases n
  {
    if n == 0 {
      run := [m];
    } else {
      var m' := OneMoreRetry(settings, pattern, start, k, m);
      var rest := RetriedFor(settings, pattern, start, k + 1, m', n - 1);
      OneRetryBefore(settings, pattern, Slow(start, settings.restoreNodeTimeout), k, m, rest);
      run := [m] + rest;
    }
  }

  /**
  A request can be retried for ever exactly if retries are allowed, nodes are restored, and the pattern names a node:
  then there is a clock by which it does not end.
  */
  lemma {:induction false} EndlessExactlyIf(settings: Settings, m: Members, pattern: string)
    requires m.Sound(settings)
    ensures (exists clock :: Monotone(clock) && NeedNotEnd(settings, m, pattern, clock)) <==>
            settings.canRetry && settings.restoreNodeTimeout > 0 && Filter(m.order, pattern) != []
  {
    if settings.canRetry && settings.restoreNodeTimeout > 0 && Filter(m.order, pattern) != [] {
      var start := TimeAllBack(m);
      var clock := Slow(start, settings.restoreNodeTimeout);
      SlowIsMonotone(start, settings.restoreNodeTimeout);
      forall n ensures Lasts(settings, m, pattern, clock, n) {
        var run := RetriedFor(settings, pattern, start, 0, m, n);
      }
      assert NeedNotEnd(settings, m, pattern, clock);
    } else {
      forall clock | Monotone(clock) ensures !NeedNotEnd(settings, m, pattern, clock) {
        MustEnd(settings, m, pattern, clock);
      }
    }
  }

  /** Otherwise every request ends: there is a number of retries that it does not reach. */
  lemma {:induction false} MustEnd(settings: Settings, m: Members, pattern: string, clock: nat -> nat)
    requires m.Sound(settings) && Monotone(clock)
    requires !(settings.canRetry && settings.restoreNodeTimeout > 0 && Filter(m.order, pattern) != [])
    ensures !NeedNotEnd(settings, m, pattern, clock)
  {
    var n := 1 + Potential(settings, m, pattern, clock(0), 0);
    if Lasts(settings, m, pattern, clock, n) {
      var run :| |run| == n + 1 && run[0] == m && RetriedAll(settings, pattern, clock, 0, run);
      assert Retried(settings, pattern, clock, 0, run[0], run[1]);
      EmptyOrInhabited(Filter(m.order, pattern));
      assert settings.restoreNodeTimeout == 0;
      RetriesAreBounded(settings, pattern, clock, 0, run, 0);
      assert false;
    }
  }
}
