/** Where the order of service breaks: what makes room for somebody to overtake, and runs that get there. */
module PoolDisorder {
  import opened Lists
  import opened PoolModel
  import opened PoolInvariants
  import opened PoolRuns
  import opened PoolShutdown
  import opened PoolStarts
  import opened PoolLines
  import opened PoolOrder

  /**
  A connection that ends while it is being acquired keeps the order, but leaves room: the next request keeps it if and
  only if nobody waits.
  */
  lemma OvertakenAfterEnd(s: State, c: Conn)
    requires Orderly(s) && c in s.acquiring && c in s.all
    ensures Enabled(s, ConnectionEnd(c))
    ensures var t := Next(s, ConnectionEnd(c));
            && t.started == s.started && t.queue == s.queue && Room(t)
            && InOrder(Line(t)) && (InOrder(Line(Ask(t))) <==> s.queue == [])
  {
    assert Fits(s, c);
    var d := SetLink(s, c, Ended);
    var t := Next(s, ConnectionEnd(c));
    LostWhileAcquired(d, c);
    NextKept(s, ConnectionEnd(c));
    AskOrder(t);
  }

  lemma LostWhileAcquired(s: State, c: Conn)
    requires c < |s.conns| && c in s.acquiring && !s.closed && s.conns[c].pooled && s.conns[c].link.Ended?
    ensures var t := RemoveFromPool(s, c);
            && t.started == s.started && t.queue == s.queue && t.all == Without(s.all, c) && t.config == s.config
            && !t.closed
  {
    PurgeIsPurged(SetPooled(s, c, false), c);
  }

  lemma OneMoreStep(config: Config, steps: seq<Step>, s: State, step: Step)
    requires Reaches(Init(config), steps, s) && Enabled(s, step)
    ensures Reaches(Init(config), steps + [step], Next(s, step))
  {
    assert [step][1..] == [];
    ReachesConcat(Init(config), steps, s, [step], Next(s, step));
  }

  /** Requests of a pool of one connection: it is being opened for the first, and the others wait. */
  ghost predicate Waiting(s: State, n: nat) {
    && Orderly(s) && s.conns == [ConnInfo(true, Connecting, false)] && s.all == [0] && s.free == []
    && s.pending == [Op(true, 0, 0)] && |s.queue| == n && s.config == Config(1, 0, true)
  }

  lemma {:induction false} OneMoreWaits(s: State, n: nat)
    requires Waiting(s, n)
    ensures Waiting(Ask(s), n + 1)
  {
    NextKeepsInvariant(s, UserGet);
    NextRecords(s, UserGet);
    AskOrder(s);
  }

  lemma FirstWaits()
    ensures Waiting(Ask(Init(Config(1, 0, true))), 0)
  {
    UseAtFirst(0);
    FirstIsOrderly(Config(1, 0, true));
  }

  lemma FirstIsOrderly(config: Config)
    ensures Orderly(Ask(Init(config)))
  {
    var s := Init(config);
    InitIsSound(config);
    NextKept(s, UserGet);
    AskLine(s);
    assert Next(s, UserGet) == Ask(s);
  }

  ghost predicate OnlyRequests(steps: seq<Step>) {
    forall step :: step in steps ==> step == UserGet
  }

  lemma {:induction false} RequestsWait(n: nat) returns (s: State, steps: seq<Step>)
    ensures Reaches(Init(Config(1, 0, true)), steps, s) && OnlyRequests(steps) && Waiting(s, n)
    decreases n
  {
    var config := Config(1, 0, true);
    if n == 0 {
      s, steps := Ask(Init(config)), [] + [UserGet];
      OneMoreStep(config, [], Init(config), UserGet);
      FirstWaits();
    } else {
      var s', steps' := RequestsWait(n - 1);
      s, steps := Ask(s'), steps' + [UserGet];
      OneMoreStep(config, steps', s', UserGet);
      OneMoreWaits(s', n - 1);
    }
  }

  /** There are runs that break the order: after four requests the first connect fails. */
  lemma OrderBreaks() returns (s: State, steps: seq<Step>)
    ensures Reaches(Init(Config(1, 0, true)), steps, s) && Orderly(s) && Enabled(s, OpDone(0, true))
    ensures !InOrder(Line(Next(s, OpDone(0, true))))
  {
    s, steps := RequestsWait(3);
    FailedConnectOrder(s, 0);
  }

  /** Nor need anything fail: it is enough that a connection that another pool has let go is given to this one. */
  lemma StrayBreaks() returns (s: State, steps: seq<Step>)
    ensures Reaches(Init(Config(1, 0, true)), steps, s) && Orderly(s)
    ensures OnlyRequests(steps)
    ensures !InOrder(Line(Next(s, StrayRelease)))
  {
    s, steps := RequestsWait(2);
    ServeOrder(s);
  }

  // ----- A request that loses its place -----

  /** A pool of one connection, which is being acquired for the first request. */
  function Opening(limit: nat, link: Link): State {
    State(Config(1, limit, true), [ConnInfo(true, link, false)], [0], [0], [], [], false,
          [Op(true, 0, 0)], [], [], 1, [0], multiset{})
  }

  /** The connection was handed out, or given back after that. */
  function AfterUse(limit: nat, back: bool): State {
    State(Config(1, limit, true), [ConnInfo(true, Connected, false)], [], [0], if back then [0] else [], [], false,
          [], [], [Delivery(0, Given(0))], 1, [0], if back then multiset{} else multiset{0})
  }

  /** The connection ended while it was being acquired for the next request. */
  function AfterLoss(limit: nat): State {
    State(Config(1, limit, true), [ConnInfo(false, Ended, false)], [0], [], [], [], false, [Op(false, 0, 1)], [],
          [Delivery(0, Given(0))], 2, [0, 1], multiset{})
  }

  /** Another one was opened for the request after that, and the next waits. */
  function AfterRefill(limit: nat): State {
    State(Config(1, limit, true), [ConnInfo(false, Ended, false), ConnInfo(true, Connecting, false)], [0, 1], [1], [],
          [3], false, [Op(false, 0, 1), Op(true, 1, 2)], [], [Delivery(0, Given(0))], 4, [0, 1, 2], multiset{})
  }

  lemma UseAtFirst(limit: nat)
    ensures Next(Init(Config(1, limit, true)), UserGet) == Opening(limit, Connecting)
    ensures Next(Opening(limit, Connecting), SocketUp(0)) == Opening(limit, Connected)
    ensures Next(Opening(limit, Connected), OpDone(0, false)) == AfterUse(limit, false)
  {
  }

  lemma ReachesUse(limit: nat) returns (steps: seq<Step>)
    ensures Reaches(Init(Config(1, limit, true)), steps, AfterUse(limit, false))
  {
    var config := Config(1, limit, true);
    UseAtFirst(limit);
    OneMoreStep(config, [], Init(config), UserGet);
    steps := [] + [UserGet];
    OneMoreStep(config, steps, Opening(limit, Connecting), SocketUp(0));
    steps := steps + [SocketUp(0)];
    OneMoreStep(config, steps, Opening(limit, Connected), OpDone(0, false));
    steps := steps + [OpDone(0, false)];
  }

  /** Given back, it is acquired for the next request. */
  function Reacquired(limit: nat): State {
    AfterLoss(limit).(conns := [ConnInfo(true, Connected, false)], all := [0])
  }

  lemma UseThenReacquire(limit: nat)
    ensures Next(AfterUse(limit, false), UserRelease(0)) == AfterUse(limit, true)
    ensures Next(AfterUse(limit, true), UserGet) == Reacquired(limit)
  {
  }

  lemma ThenLoss(limit: nat)
    ensures Next(Reacquired(limit), ConnectionEnd(0)) == AfterLoss(limit)
  {
    PurgeIsPurged(SetPooled(SetLink(Reacquired(limit), 0, Ended), 0, false), 0);
  }

  lemma LossThenRefill(limit: nat)
    requires limit <= 1
    ensures Next(Next(AfterLoss(limit), UserGet), UserGet) == AfterRefill(limit)
  {
    assert Next(AfterLoss(limit), UserGet) == AfterRefill(limit).(issued := 3, queue := []);
  }

  lemma ReachesRefill(limit: nat) returns (steps: seq<Step>)
    requires limit <= 1
    ensures Reaches(Init(Config(1, limit, true)), steps, AfterRefill(limit))
  {
    var config := Config(1, limit, true);
    steps := ReachesUse(limit);
    UseThenReacquire(limit);
    ThenLoss(limit);
    LossThenRefill(limit);
    OneMoreStep(config, steps, AfterUse(limit, false), UserRelease(0));
    steps := steps + [UserRelease(0)];
    OneMoreStep(config, steps, AfterUse(limit, true), UserGet);
    steps := steps + [UserGet];
    OneMoreStep(config, steps, Reacquired(limit), ConnectionEnd(0));
    steps := steps + [ConnectionEnd(0)];
    OneMoreStep(config, steps, AfterLoss(limit), UserGet);
    steps := steps + [UserGet];
    OneMoreStep(config, steps, Next(AfterLoss(limit), UserGet), UserGet);
    steps := steps + [UserGet];
  }

  lemma RefillThenFailure(limit: nat)
    requires limit <= 1 && Invariant(AfterRefill(limit))
    ensures Enabled(AfterRefill(limit), OpDone(0, true))
    ensures var t := Next(AfterRefill(limit), OpDone(0, true));
            if limit == 0 then t.queue == [3, 1] else t.queue == [3] && t.scheduled == [Notice(1, EnqueueLimit)]
  {
    FailedPingAsksAgain(AfterRefill(limit), 0);
  }

  /**
  There is a run after which a failed ping sends its request, number 1, behind number 3, or has it told that the queue
  is full although it had a connection to work with.
  */
  lemma LosesItsPlace(limit: nat) returns (steps: seq<Step>)
    requires limit <= 1
    ensures Reaches(Init(Config(1, limit, true)), steps, AfterRefill(limit))
    ensures Enabled(AfterRefill(limit), OpDone(0, true))
    ensures var t := Next(AfterRefill(limit), OpDone(0, true));
            if limit == 0 then t.queue == [3, 1] else t.queue == [3] && t.scheduled == [Notice(1, EnqueueLimit)]
  {
    steps := ReachesRefill(limit);
    EveryRunIsSound(Config(1, limit, true), steps, AfterRefill(limit));
    RefillThenFailure(limit);
  }
}
