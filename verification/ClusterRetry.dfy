/** The namespace of a pattern: selecting a node, and retrying until one gives a connection or none is left. */
module ClusterRetry {
  import opened Lists
  import opened Cluster
  import opened ClusterChances
  import opened ClusterSelectors
  import opened Options

  // ----- Requests -----

  datatype Reply = Given(id: string) | PoolError | NoneOnline | NoExist

  datatype Step = NoNode | Succeeded(id: string) | Failed(id: string, again: bool)

  /**
  What attempt number `k` did: none without a node online, and otherwise a success or an error of one that was.  After
  an error the request goes on exactly if retries are allowed and a node of the pattern is online then.
  */
  ghost predicate Stepped(settings: Settings, m0: Members, m1: Members, pattern: string, clock: nat -> nat, k: nat,
                          ok: bool, step: Step)
  {
    var online := m0.Online(pattern, clock(3 * k));
    match step
    case NoNode => online == [] && m1 == m0
    case Succeeded(id) =>
      && ok && id in online
      && m1 == Members(m0.order, m0.nodes[id := Relieved(settings, m0.nodes[id])])
    case Failed(id, again) =>
      && !ok && id in online
      && ErrorOf(settings, m0, id, clock(3 * k + 1), m1)
      && (again <==> settings.canRetry && m1.Online(pattern, clock(3 * k + 2)) != [])
  }

  /** No node comes back online while the request lasts. */
  ghost predicate AllQuiet(settings: Settings, m: Members, clock: nat -> nat, k: nat, horizon: nat) {
    Quiet(settings, m.nodes, clock(3 * k), horizon) && Under(clock, horizon)
  }

  /** The attempts from number `k` on fail in the given run and are all retried. */
  ghost predicate FailingRun(settings: Settings, m: Members, pattern: string, clock: nat -> nat, k: nat,
                             outcome: nat -> bool, run: seq<Members>)
  {
    && run != [] && run[0] == m && RetriedAll(settings, pattern, clock, k, run)
    && (forall i :: k <= i < k + |run| - 1 ==> !outcome(i))
  }

  /** From attempt number `k` on the request cannot be retried `n` times. */
  ghost predicate EndsWithin(settings: Settings, m: Members, pattern: string, clock: nat -> nat, k: nat,
                             outcome: nat -> bool, n: nat)
  {
    forall run :: FailingRun(settings, m, pattern, clock, k, outcome, run) ==> |run| <= n
  }

  /** That is so if a horizon that the clock stays below leaves the nodes fewer chances, or if an attempt succeeds. */
  lemma {:induction false} EndsWithinChances(settings: Settings, m: Members, pattern: string, clock: nat -> nat, k: nat,
                                             outcome: nat -> bool, horizon: nat, n: nat)
    requires m.Sound(settings) && Monotone(clock)
    requires outcome(k + n) ||
             ((settings.canRetry ==> Bounded(settings, clock, horizon)) &&
              n >= Potential(settings, m, pattern, clock(3 * k), horizon))
    ensures EndsWithin(settings, m, pattern, clock, k, outcome, n + 1)
  {
    forall run | FailingRun(settings, m, pattern, clock, k, outcome, run) ensures |run| <= n + 1 {
      if !outcome(k + n) && |run| > 1 {
        assert Retried(settings, pattern, clock, k, run[0], run[1]);
        RetriesAreBounded(settings, pattern, clock, k, run, horizon);
      }
    }
  }

  /** After a retry it can be retried one time less. */
  lemma {:induction false} EndsSooner(settings: Settings, m0: Members, m: Members, pattern: string, clock: nat -> nat,
                                      k: nat, next: nat, outcome: nat -> bool, n: nat)
    requires EndsWithin(settings, m0, pattern, clock, k, outcome, n) && next == k + 1
    requires Retried(settings, pattern, clock, k, m0, m) && !outcome(k)
    ensures n > 0 && EndsWithin(settings, m, pattern, clock, next, outcome, n - 1)
  {
    assert FailingRun(settings, m0, pattern, clock, k, outcome, [m0]);
    forall run | FailingRun(settings, m, pattern, clock, next, outcome, run) ensures |run| <= n - 1 {
      OneRetryBefore(settings, pattern, clock, k, m0, run);
      assert FailingRun(settings, m0, pattern, clock, k, outcome, [m0] + run);
    }
  }

  /**
  A request that took the given number of attempts, from number `k` on, was answered rightly: all of them failed but the
  last one of a connection given, which is of a node of the pattern and marks it online, the two codes for having no
  node are given exactly when there is none, and where retries are allowed an error means that no node of the pattern is
  online any more.  There were no more attempts than the nodes had chances until the horizon.  If no node came back
  meanwhile, all chances were used up by then, and a connection is of a node that was online from the beginning.
  */
  ghost predicate Answered(settings: Settings, m0: Members, m1: Members, pattern: string, clock: nat -> nat,
                           horizon: nat, k: nat, outcome: nat -> bool, reply: Reply, attempts: nat)
  {
    && Tried(k, outcome, reply, attempts)
    && RightCode(m0, pattern, clock(3 * k), reply, attempts)
    && RightNode(m0, m1, pattern, clock(3 * k), AllQuiet(settings, m0, clock, k, horizon), reply)
    && GaveUp(settings, m1, pattern, clock, k, reply, attempts)
    && Counted(settings, m0, pattern, clock, horizon, k, reply, attempts)
  }

  /** All attempts failed but the last one of a connection given. */
  ghost predicate Tried(k: nat, outcome: nat -> bool, reply: Reply, attempts: nat) {
    forall i :: k <= i < k + attempts ==> (outcome(i) <==> reply.Given? && i == k + attempts - 1)
  }

  ghost predicate RightCode(m0: Members, pattern: string, now: nat, reply: Reply, attempts: nat) {
    && (reply == NoExist <==> Filter(m0.order, pattern) == [])
    && (reply == NoneOnline <==> Filter(m0.order, pattern) != [] && m0.Online(pattern, now) == [])
    && (attempts == 0 <==> reply == NoExist || reply == NoneOnline)
  }

  ghost predicate RightNode(m0: Members, m1: Members, pattern: string, now: nat, quiet: bool, reply: Reply) {
    reply.Given? ==>
      && reply.id in Filter(m0.order, pattern) && (quiet ==> reply.id in m0.Online(pattern, now))
      && reply.id in m1.nodes && m1.nodes[reply.id].offlineUntil == 0
  }

  ghost predicate GaveUp(settings: Settings, m1: Members, pattern: string, clock: nat -> nat, k: nat, reply: Reply,
                         attempts: nat)
  {
    reply == PoolError && settings.canRetry ==>
      attempts > 0 && m1.Online(pattern, clock(3 * (k + attempts - 1) + 2)) == []
  }

  ghost predicate Counted(settings: Settings, m0: Members, pattern: string, clock: nat -> nat, horizon: nat, k: nat,
                          reply: Reply, attempts: nat)
  {
    var potential := Potential(settings, m0, pattern, clock(3 * k), horizon);
    && ((settings.canRetry ==> Bounded(settings, clock, horizon)) ==> attempts <= potential)
    && (!settings.canRetry ==> attempts <= 1)
    && (reply == PoolError && settings.canRetry && AllQuiet(settings, m0, clock, k, horizon) ==> attempts == potential)
  }

  /** The answer to a request that ends with the given step. */
  ghost function Ending(m0: Members, pattern: string, step: Step): (Reply, nat) {
    match step
    case NoNode => (if Filter(m0.order, pattern) != [] then NoneOnline else NoExist, 0)
    case Succeeded(id) => (Given(id), 1)
    case Failed(_, _) => (PoolError, 1)
  }

  /** A request that ends with its first attempt. */
  lemma {:induction false} AnsweredNow(settings: Settings, m0: Members, m1: Members, pattern: string,
                                       clock: nat -> nat, horizon: nat, k: nat, outcome: nat -> bool, step: Step)
    requires m0.Sound(settings) && Monotone(clock)
    requires Stepped(settings, m0, m1, pattern, clock, k, outcome(k), step)
    requires step.Failed? ==> !step.again
    ensures var (reply, attempts) := Ending(m0, pattern, step);
            Answered(settings, m0, m1, pattern, clock, horizon, k, outcome, reply, attempts)
  {
    OnlineAreNamed(m0, pattern, clock(3 * k));
    PotentialZero(settings, m0, pattern, clock(3 * k), horizon);
    if step.Failed? && settings.canRetry && AllQuiet(settings, m0, clock, k, horizon) {
      LastChance(settings, m0, m1, pattern, clock, horizon, k, step.id);
    }
  }

  /** If no node comes back and none is online after an error, it was the last chance. */
  lemma {:induction false} LastChance(settings: Settings, m0: Members, m1: Members, pattern: string,
                                      clock: nat -> nat, horizon: nat, k: nat, id: string)
    requires m0.Sound(settings) && Monotone(clock) && AllQuiet(settings, m0, clock, k, horizon)
    requires id in m0.Online(pattern, clock(3 * k)) && ErrorOf(settings, m0, id, clock(3 * k + 1), m1)
    requires m1.Online(pattern, clock(3 * k + 2)) == []
    ensures Potential(settings, m0, pattern, clock(3 * k), horizon) == 1
  {
    AttemptTimes(clock, k);
    assert Below(clock, 3 * k + 2, horizon);
    ErrorKeepsSound(settings, m0, id, clock(3 * k + 1), m1);
    ErrorCostsOne(settings, m0, pattern, id, clock(3 * k), clock(3 * k + 1), clock(3 * k + 2), horizon, m1);
    PotentialZero(settings, m1, pattern, clock(3 * k + 2), horizon);
  }

  /** What a retry leaves for the rest of the request, from attempt number `next` on. */
  ghost predicate Continues(settings: Settings, m0: Members, m: Members, pattern: string, clock: nat -> nat,
                            horizon: nat, k: nat, next: nat, outcome: nat -> bool)
  {
    && next == k + 1 && settings.canRetry && !outcome(k) && m.Sound(settings)
    && m.Online(pattern, clock(3 * next)) != [] && m0.Online(pattern, clock(3 * k)) != []
    && (forall id :: id in Filter(m.order, pattern) ==> id in Filter(m0.order, pattern))
    && (Bounded(settings, clock, horizon) ==>
          Potential(settings, m, pattern, clock(3 * next), horizon) <
          Potential(settings, m0, pattern, clock(3 * k), horizon))
    && (AllQuiet(settings, m0, clock, k, horizon) ==>
          ContinuesQuietly(settings, m0, m, pattern, clock, horizon, k, next))
  }

  ghost predicate ContinuesQuietly(settings: Settings, m0: Members, m: Members, pattern: string, clock: nat -> nat,
                                   horizon: nat, k: nat, next: nat)
  {
    && AllQuiet(settings, m, clock, next, horizon)
    && (forall id :: id in m.Online(pattern, clock(3 * next)) ==> id in m0.Online(pattern, clock(3 * k)))
    && Potential(settings, m, pattern, clock(3 * next), horizon) + 1 ==
       Potential(settings, m0, pattern, clock(3 * k), horizon)
  }

  lemma {:induction false} RetryContinues(settings: Settings, m0: Members, m: Members, pattern: string,
                                          clock: nat -> nat, horizon: nat, k: nat, next: nat, outcome: nat -> bool,
                                          id: string)
    requires m0.Sound(settings) && Monotone(clock) && next == k + 1
    requires Stepped(settings, m0, m, pattern, clock, k, outcome(k), Failed(id, true))
    ensures Continues(settings, m0, m, pattern, clock, horizon, k, next, outcome)
    ensures Retried(settings, pattern, clock, k, m0, m)
  {
    AttemptTimes(clock, k);
    if Bounded(settings, clock, horizon) {
      RetryCostsOne(settings, pattern, clock, k, m0, m, horizon);
    }
    ErrorKeepsSound(settings, m0, id, clock(3 * k + 1), m);
    StillOnline(m, pattern, clock(3 * k + 2), clock(3 * next));
    if AllQuiet(settings, m0, clock, k, horizon) {
      RetryContinuesQuietly(settings, m0, m, pattern, clock, horizon, k, next, id);
    }
  }

  lemma {:induction false} RetryContinuesQuietly(settings: Settings, m0: Members, m: Members, pattern: string,
                                                 clock: nat -> nat, horizon: nat, k: nat, next: nat, id: string)
    requires m0.Sound(settings) && Monotone(clock) && AllQuiet(settings, m0, clock, k, horizon) && next == k + 1
    requires id in m0.Online(pattern, clock(3 * k)) && ErrorOf(settings, m0, id, clock(3 * k + 1), m)
    ensures ContinuesQuietly(settings, m0, m, pattern, clock, horizon, k, next)
  {
    var now, later := clock(3 * k), clock(3 * next);
    AttemptTimes(clock, k);
    assert Below(clock, 3 * next, horizon);
    ErrorCostsOne(settings, m0, pattern, id, now, clock(3 * k + 1), later, horizon, m);
    forall other | other in m.Online(pattern, later) ensures other in m0.Online(pattern, now) {
      assert other == id || m.nodes[other] == m0.nodes[other];
    }
  }

  /** Then the rest of the request decides. */
  lemma {:induction false} AnsweredLater(settings: Settings, m0: Members, m: Members, m1: Members, pattern: string,
                                         clock: nat -> nat, horizon: nat, k: nat, next: nat, outcome: nat -> bool,
                                         reply: Reply, rest: nat, attempts: nat)
    requires Continues(settings, m0, m, pattern, clock, horizon, k, next, outcome) && attempts == rest + 1
    requires Answered(settings, m, m1, pattern, clock, horizon, next, outcome, reply, rest)
    ensures Answered(settings, m0, m1, pattern, clock, horizon, k, outcome, reply, attempts)
  {
    RightLater(settings, m0, m, m1, pattern, clock, horizon, k, next, outcome, reply, rest, attempts);
    CountedLater(settings, m0, m, pattern, clock, horizon, k, next, outcome, reply, rest, attempts);
    SameTimes(settings, m1, pattern, clock, k, next, reply, rest, attempts);
    TriedLater(k, next, outcome, reply, rest, attempts);
  }

  lemma {:induction false} RightLater(settings: Settings, m0: Members, m: Members, m1: Members, pattern: string,
                                      clock: nat -> nat, horizon: nat, k: nat, next: nat, outcome: nat -> bool,
                                      reply: Reply, rest: nat, attempts: nat)
    requires Continues(settings, m0, m, pattern, clock, horizon, k, next, outcome) && attempts == rest + 1
    requires RightCode(m, pattern, clock(3 * next), reply, rest)
    requires RightNode(m, m1, pattern, clock(3 * next), AllQuiet(settings, m, clock, next, horizon), reply)
    ensures RightCode(m0, pattern, clock(3 * k), reply, attempts) && rest > 0
    ensures RightNode(m0, m1, pattern, clock(3 * k), AllQuiet(settings, m0, clock, k, horizon), reply)
  {
    OnlineAreNamed(m, pattern, clock(3 * next));
    OnlineAreNamed(m0, pattern, clock(3 * k));
  }

  lemma {:induction false} CountedLater(settings: Settings, m0: Members, m: Members, pattern: string,
                                        clock: nat -> nat, horizon: nat, k: nat, next: nat, outcome: nat -> bool,
                                        reply: Reply, rest: nat, attempts: nat)
    requires Continues(settings, m0, m, pattern, clock, horizon, k, next, outcome) && attempts == rest + 1
    requires Counted(settings, m, pattern, clock, horizon, next, reply, rest)
    ensures Counted(settings, m0, pattern, clock, horizon, k, reply, attempts)
  {
  }

  lemma {:induction false} SameTimes(settings: Settings, m1: Members, pattern: string, clock: nat -> nat, k: nat,
                                     next: nat, reply: Reply, rest: nat, attempts: nat)
    requires next == k + 1 && attempts == rest + 1 && GaveUp(settings, m1, pattern, clock, next, reply, rest)
    ensures GaveUp(settings, m1, pattern, clock, k, reply, attempts)
  {
    assert rest > 0 ==> next + rest - 1 == k + attempts - 1;
  }

  lemma {:induction false} TriedLater(k: nat, next: nat, outcome: nat -> bool, reply: Reply, rest: nat, attempts: nat)
    requires next == k + 1 && attempts == rest + 1 && rest > 0 && !outcome(k) && Tried(next, outcome, reply, rest)
    ensures Tried(k, outcome, reply, attempts)
  {
  }

  /** One attempt of a request: the nodes at the time, the one that was chosen, and the selector's index after that. */
  datatype Choice = Choice(members: Members, id: string, after: nat)

  /**
  The attempts of a request, from number `k` on: the first one chooses among the nodes online at its time, each error
  leads to the nodes that the next one chooses from, and a connection is of the node chosen last, which is relieved.
  */
  ghost predicate Trail(settings: Settings, selector: Selector, pattern: string, clock: nat -> nat, k: nat, m: Members,
                        index: nat, trail: seq<Choice>, m1: Members, end: nat, reply: Reply)
    decreases |trail|
  {
    if trail == [] then m1 == m && end == index && !reply.Given?
    else
      var c := trail[0];
      && c.members == m && Chosen(selector, m.Online(pattern, clock(3 * k)), index, c.id, c.after)
      && if |trail| == 1 && reply.Given? then
           end == c.after && reply.id == c.id && c.id in m.nodes &&
           m1 == Members(m.order, m.nodes[c.id := Relieved(settings, m.nodes[c.id])])
         else
           var next := if |trail| == 1 then m1 else trail[1].members;
           && ErrorOf(settings, m, c.id, clock(3 * k + 1), next)
           && if |trail| == 1 then end == c.after
              else Trail(settings, selector, pattern, clock, k + 1, next, c.after, trail[1..], m1, end, reply)
  }

  lemma {:induction false} LongerTrail(settings: Settings, selector: Selector, pattern: string, clock: nat -> nat,
                                       k: nat, m: Members, index: nat, c: Choice, m': Members, trail: seq<Choice>,
                                       m1: Members, end: nat, reply: Reply)
    requires c.members == m && Chosen(selector, m.Online(pattern, clock(3 * k)), index, c.id, c.after)
    requires ErrorOf(settings, m, c.id, clock(3 * k + 1), m') && trail != []
    requires Trail(settings, selector, pattern, clock, k + 1, m', c.after, trail, m1, end, reply)
    ensures Trail(settings, selector, pattern, clock, k, m, index, [c] + trail, m1, end, reply)
  {
    assert ([c] + trail)[1..] == trail;
  }

  lemma OnlineAreNamed(m: Members, pattern: string, now: nat)
    ensures m.Online(pattern, now) != [] ==> Filter(m.order, pattern) != []
  {
    EmptyOrInhabited(m.Online(pattern, now));
  }

  class PoolNamespace {
    const cluster: PoolCluster
    const pattern: string
    const selector: Selector
    var index: nat

    constructor (cluster: PoolCluster, pattern: string, selector: Selector)
      ensures this.cluster == cluster && this.pattern == pattern && this.selector == selector && index == 0
    {
      this.cluster, this.pattern, this.selector, index := cluster, pattern, selector, 0;
    }

    method Select(found: seq<string>) returns (id: string)
      requires found != []
      modifies this`index
      ensures id in found
      ensures selector == RR ==> id == found[First(old(index), |found|)] && index == First(old(index), |found|) + 1
      ensures selector == Ordered ==> id == found[0]
      ensures selector != RR ==> index == old(index)
    {
      match selector
      case RR =>
        if index >= |found| {
          index := 0;
        }
        id := found[index];
        index := index + 1;
      case Ordered =>
        id := found[0];
      case Random =>
        var i :| 0 <= i < |found|;
        id := found[i];
    }

    /** A node of the pattern that is online, if there is one, as the selector chooses it. */
    method GetClusterNode(now: nat) returns (node: Option<string>)
      requires cluster.Valid()
      modifies this`index, cluster`findCaches
      ensures cluster.Valid()
      ensures node.None? <==> OnlineIds(cluster.order, cluster.nodes, pattern, now) == []
      ensures node.None? ==> index == old(index)
      ensures node.Some? ==>
                Chosen(selector, OnlineIds(cluster.order, cluster.nodes, pattern, now), old(index), node.value, index)
    {
      var found := cluster.FindNodeIds(pattern, false, now);
      if |found| == 0 {
        return None;
      }
      var id;
      if |found| == 1 {
        id := found[0];
      } else {
        id := Select(found);
      }
      return Some(id);
    }

    /** What becomes of one attempt on a node: its count goes down or up. */
    method Attempt(id: string, ok: bool, now: nat)
      requires cluster.Valid() && id in cluster.nodes
      modifies cluster
      ensures cluster.Valid()
      ensures ok ==>
                && cluster.order == old(cluster.order)
                && cluster.nodes == old(cluster.nodes)[id := Relieved(cluster.settings, old(cluster.nodes)[id])]
      ensures !ok ==> AfterError(cluster.settings, old(cluster.order), old(cluster.nodes), id, now, cluster.order,
                                 cluster.nodes)
    {
      if ok {
        cluster.DecreaseErrorCount(id);
      } else {
        cluster.IncreaseErrorCount(id, now);
      }
    }

    ghost function Members(): Members
      reads cluster
    {
      ClusterChances.Members.Members(cluster.order, cluster.nodes)
    }

    /**
    One request, from its attempt number `k` on.  `outcome` tells which attempts succeed and `clock` gives the readings
    of the clock.  There is a number `n` of retries that the request cannot reach; otherwise it need not end.
    */
    method GetConnection(k: nat, outcome: nat -> bool, clock: nat -> nat, ghost horizon: nat, ghost n: nat)
      returns (reply: Reply, attempts: nat, ghost trail: seq<Choice>)
      requires cluster.Valid() && Monotone(clock)
      requires EndsWithin(cluster.settings, Members(), pattern, clock, k, outcome, n)
      modifies this`index, cluster
      ensures cluster.Valid()
      ensures Answered(cluster.settings, old(Members()), Members(), pattern, clock, horizon, k, outcome, reply,
                       attempts)
      ensures |trail| == attempts
      ensures Trail(cluster.settings, selector, pattern, clock, k, old(Members()), old(index), trail, Members(), index,
                    reply)
      decreases n
    {
      var done, next;
      done, next, reply, attempts, trail := FirstAttempt(k, outcome, clock, horizon, n);
      if !done {
        ghost var between, c := Members(), trail[0];
        var rest;
        reply, rest, trail := GetConnection(next, outcome, clock, horizon, n - 1);
        attempts := rest + 1;
        AnsweredLater(cluster.settings, old(Members()), between, Members(), pattern, clock, horizon, k, next, outcome,
                      reply, rest, attempts);
        LongerTrail(cluster.settings, selector, pattern, clock, k, old(Members()), old(index), c, between, trail,
                    Members(), index, reply);
        trail := [c] + trail;
      }
    }

    /** The first attempt of a request, and its answer unless it is to be retried. */
    method FirstAttempt(k: nat, outcome: nat -> bool, clock: nat -> nat, ghost horizon: nat, ghost n: nat)
      returns (done: bool, next: nat, reply: Reply, attempts: nat, ghost trail: seq<Choice>)
      requires cluster.Valid() && Monotone(clock)
      requires EndsWithin(cluster.settings, Members(), pattern, clock, k, outcome, n)
      modifies this`index, cluster
      ensures cluster.Valid()
      ensures done ==> Answered(cluster.settings, old(Members()), Members(), pattern, clock, horizon, k, outcome, reply,
                                attempts)
      ensures !done ==> Continues(cluster.settings, old(Members()), Members(), pattern, clock, horizon, k, next,
                                  outcome)
      ensures done ==> |trail| == attempts
      ensures done ==> Trail(cluster.settings, selector, pattern, clock, k, old(Members()), old(index), trail,
                             Members(), index, reply)
      ensures !done ==>
                && |trail| == 1 && trail[0] == Choice(old(Members()), trail[0].id, index)
                && Chosen(selector, old(Members()).Online(pattern, clock(3 * k)), old(index), trail[0].id, index)
                && ErrorOf(cluster.settings, old(Members()), trail[0].id, clock(3 * k + 1), Members())
      ensures next == k + 1
      ensures !done ==> n > 0 && EndsWithin(cluster.settings, Members(), pattern, clock, next, outcome, n - 1)
    {
      var step := TryOnce(k, outcome(k), clock);
      next := k + 1;
      done := !(step.Failed? && step.again);
      reply, attempts := Answer(step);
      trail := if step.NoNode? then [] else [Choice(old(Members()), step.id, index)];
      if done {
        AnsweredNow(cluster.settings, old(Members()), Members(), pattern, clock, horizon, k, outcome, step);
      } else {
        RetryContinues(cluster.settings, old(Members()), Members(), pattern, clock, horizon, k, next, outcome, step.id);
        EndsSooner(cluster.settings, old(Members()), Members(), pattern, clock, k, next, outcome, n);
      }
    }

    /** The answer where the request goes no further. */
    method Answer(step: Step) returns (reply: Reply, attempts: nat)
      requires cluster.Valid()
      modifies cluster`findCaches
      ensures cluster.Valid()
      ensures (reply, attempts) == Ending(Members(), pattern, step)
    {
      match step
      case NoNode =>
        var all := cluster.FindNodeIds(pattern, true, 0);
        return if |all| != 0 then NoneOnline else NoExist, 0;
      case Succeeded(id) =>
        return Given(id), 1;
      case Failed(_, _) =>
        return PoolError, 1;
    }

    /** One attempt: choose a node, ask its pool, count the result, and see whether to try again. */
    method TryOnce(k: nat, ok: bool, clock: nat -> nat) returns (step: Step)
      requires cluster.Valid()
      modifies this`index, cluster
      ensures cluster.Valid()
      ensures Stepped(cluster.settings, old(Members()), Members(), pattern, clock, k, ok, step)
      ensures step.NoNode? ==> index == old(index)
      ensures !step.NoNode? ==>
                Chosen(selector, old(Members()).Online(pattern, clock(3 * k)), old(index), step.id, index)
    {
      var node := GetClusterNode(clock(3 * k));
      if node.None? {
        return NoNode;
      }
      Attempt(node.value, ok, clock(3 * k + 1));
      if ok {
        return Succeeded(node.value);
      }
      var left := cluster.FindNodeIds(pattern, false, clock(3 * k + 2));
      return Failed(node.value, cluster.settings.canRetry && |left| != 0);
    }
  }
}
