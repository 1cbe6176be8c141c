/** What holds in every state of every run of the pool. */
module PoolRuns {
  import opened Lists
  import opened PoolModel
  import opened PoolInvariants
  import opened PoolSupply

  // ----- Conservation of callbacks -----

  ghost function OpRequests(ops: seq<Op>): seq<Request> {
    seq(|ops|, i requires 0 <= i < |ops| => ops[i].request)
  }

  ghost function NoticeRequests(notices: seq<Notice>): seq<Request> {
    seq(|notices|, i requires 0 <= i < |notices| => notices[i].request)
  }

  ghost function DeliveryRequests(deliveries: seq<Delivery>): seq<Request> {
    seq(|deliveries|, i requires 0 <= i < |deliveries| => deliveries[i].request)
  }

  /** All places where a callback can be, counted with multiplicity. */
  ghost function Holders(s: State): multiset<Request> {
    multiset(s.queue) + multiset(OpRequests(s.pending)) +
    multiset(NoticeRequests(s.scheduled)) + multiset(DeliveryRequests(s.delivered))
  }

  /** Every request issued so far, once. */
  ghost function Issued(n: nat): multiset<Request> {
    if n == 0 then multiset{} else Issued(n - 1) + multiset{n - 1}
  }

  lemma {:induction false} IssuedOnce(n: nat, r: Request)
    ensures Issued(n)[r] == if r < n then 1 else 0
  {
    if n > 0 {
      IssuedOnce(n - 1, r);
    }
  }

  /** `t` holds the callbacks that `s` does. */
  ghost predicate Keeps(s: State, t: State) {
    Holders(t) == Holders(s) && t.issued == s.issued && t.config == s.config
  }

  lemma ScheduleHolds(s: State, r: Request, code: Code)
    ensures Holders(Schedule(s, r, code)) == Holders(s) + multiset{r}
  {
    assert NoticeRequests(s.scheduled + [Notice(r, code)]) == NoticeRequests(s.scheduled) + [r];
  }

  lemma StartHolds(s: State, t: State, op: Op)
    requires t.queue == s.queue && t.scheduled == s.scheduled && t.delivered == s.delivered
    requires t.pending == s.pending + [op]
    ensures Holders(t) == Holders(s) + multiset{op.request}
  {
    assert OpRequests(t.pending) == OpRequests(s.pending) + [op.request];
  }

  lemma GetHolds(s: State, r: Request)
    ensures Holders(GetConnection(s, r)) == Holders(s) + multiset{r}
    ensures GetConnection(s, r).issued == s.issued && GetConnection(s, r).config == s.config
  {
    var t := GetConnection(s, r);
    if s.closed {
      ScheduleHolds(s, r, PoolClosed);
    } else if |s.free| > 0 {
      StartHolds(s, t, Op(false, s.free[0], r));
    } else if s.config.connectionLimit == 0 || |s.all| < s.config.connectionLimit {
      StartHolds(s, t, Op(true, |s.conns|, r));
    } else if !s.config.waitForConnections {
      ScheduleHolds(s, r, ConnLimit);
    } else {
      ScheduleHolds(s, r, EnqueueLimit);
    }
  }

  lemma ServeHolds(s: State)
    ensures Keeps(s, ServeQueue(s))
  {
    if s.closed {
      assert NoticeRequests(s.scheduled + ClosedNotices(s.queue)) == NoticeRequests(s.scheduled) + s.queue;
    } else if |s.queue| > 0 {
      assert s.queue == [s.queue[0]] + s.queue[1..];
      GetHolds(s.(queue := s.queue[1..]), s.queue[0]);
    }
  }

  lemma ReleaseHolds(s: State, c: Conn)
    requires c < |s.conns|
    ensures Keeps(s, ReleaseConnection(s, c))
  {
    ServeHolds(s);
    ServeHolds(s.(free := s.free + [c]));
  }

  lemma PurgeHolds(s: State, c: Conn)
    requires c < |s.conns|
    ensures Keeps(s, PurgeConnection(s, c))
  {
    PurgeIsPurged(s, c);
    ReleaseHolds(Unlist(s, c), c);
    var d := SetLink(s, c, Ended);
    ReleaseHolds(Unlist(d, c), c);
    var e := SetPooled(d, c, false);
    ReleaseHolds(Unlist(e, c), c);
    var t := RemoveConnection(e, c);
    ReleaseHolds(Unlist(t, c), c);
  }

  lemma OverHolds(s: State, i: nat)
    requires i < |s.pending|
    ensures Holders(s) == Holders(Over(s, i)) + multiset{s.pending[i].request}
  {
    var reqs := OpRequests(s.pending);
    assert OpRequests(Over(s, i).pending) == reqs[..i] + reqs[i + 1..];
    MultisetCut(reqs, i);
  }

  lemma CallBackHolds(s: State, r: Request, outcome: Outcome)
    ensures Holders(CallBack(s, r, outcome)) == Holders(s) + multiset{r}
  {
    assert DeliveryRequests(s.delivered + [Delivery(r, outcome)]) == DeliveryRequests(s.delivered) + [r];
  }

  lemma FailHolds(s: State, op: Op)
    requires op.conn < |s.conns|
    ensures Holders(Fail(s, op)) == Holders(s) + multiset{op.request}
    ensures Fail(s, op).issued == s.issued && Fail(s, op).config == s.config
  {
    if op.connect {
      PurgeHolds(s, op.conn);
      CallBackHolds(PurgeConnection(s, op.conn), op.request, Failed(if s.closed then PoolClosed else OperationError));
    } else {
      var u := s.(queue := [op.request] + s.queue);
      assert Holders(u) == Holders(s) + multiset{op.request};
      PurgeHolds(u, op.conn);
    }
  }

  lemma CompleteHolds(s: State, i: nat, failed: bool)
    requires i < |s.pending| && s.pending[i].conn < |s.conns|
    ensures Keeps(s, Complete(s, i, failed))
  {
    var op := s.pending[i];
    OverHolds(s, i);
    if s.closed || failed {
      FailHolds(Over(s, i), op);
    } else {
      CallBackHolds(Over(s, i), op.request, Given(op.conn));
    }
  }

  lemma {:induction false} PurgeAllHolds(s: State)
    requires s.closed && forall c :: c in s.all ==> c < |s.conns|
    ensures Keeps(s, PurgeAll(s))
    decreases |s.all|
  {
    if s.all != [] {
      assert s.all[0] in s.all;
      PurgeWhenClosed(s, s.all[0]);
      PurgeHolds(s, s.all[0]);
      PurgeAllHolds(PurgeConnection(s, s.all[0]));
    }
  }

  lemma RemoveFromPoolHolds(s: State, c: Conn)
    requires c < |s.conns|
    ensures Keeps(s, RemoveFromPool(s, c))
  {
    PurgeHolds(SetPooled(s, c, false), c);
  }

  lemma DeliverHolds(s: State)
    requires s.scheduled != []
    ensures Keeps(s, Deliver(s))
  {
    var n := s.scheduled[0];
    assert NoticeRequests(s.scheduled) == [n.request] + NoticeRequests(s.scheduled[1..]);
    CallBackHolds(s.(scheduled := s.scheduled[1..]), n.request, Failed(n.code));
  }

  /** Fields that hold no callbacks do not matter. */
  lemma SameHolders(s: State, t: State)
    requires t.queue == s.queue && t.pending == s.pending && t.scheduled == s.scheduled && t.delivered == s.delivered
    requires t.issued == s.issued && t.config == s.config
    ensures Keeps(s, t)
  {
  }

  lemma UserStepHolds(s: State, c: Conn)
    requires c < |s.conns|
    ensures Keeps(s, ReleaseByUser(GiveBack(s, c), c))
    ensures Keeps(s, ReleaseConnection(GiveBack(s, c), c))
    ensures Keeps(s, Destroy(GiveBack(s, c), c))
  {
    SameHolders(s, GiveBack(s, c));
    ReleaseHolds(GiveBack(s, c), c);
    EndedHolds(GiveBack(s, c), c);
  }

  lemma EndedHolds(s: State, c: Conn)
    requires c < |s.conns|
    ensures Keeps(s, RemoveFromPool(SetLink(s, c, Ended), c))
  {
    SameHolders(s, SetLink(s, c, Ended));
    RemoveFromPoolHolds(SetLink(s, c, Ended), c);
  }

  lemma EndHolds(s: State)
    requires forall c :: c in s.all ==> c < |s.conns|
    ensures Keeps(s, End(s))
  {
    SameHolders(s, s.(closed := true));
    PurgeAllHolds(s.(closed := true));
  }

  /** No step but a new request adds a callback, and none loses or copies one. */
  lemma StepHolds(s: State, step: Step)
    requires Enabled(s, step) && !step.UserGet?
    ensures Keeps(s, Next(s, step))
  {
    match step
    case UserRelease(c) => UserStepHolds(s, c);
    case PoolRelease(c) => UserStepHolds(s, c);
    case StrayRelease => ServeHolds(s);
    case UserDestroy(c) => UserStepHolds(s, c);
    case UserEnd => EndHolds(s);
    case SocketUp(c) => SameHolders(s, SetLink(s, c, Connected));
    case ConnectionEnd(c) => EndedHolds(s, c);
    case FatalError(c) => RemoveFromPoolHolds(s, c);
    case OpDone(i, failed) => CompleteHolds(s, i, failed);
    case Tick => DeliverHolds(s);
  }

  lemma UserGetHolds(s: State)
    ensures Holders(Ask(s)) == Holders(s) + multiset{s.issued}
    ensures Ask(s).config == s.config && Ask(s).issued == s.issued + 1
  {
    var u := Issue(s);
    GetHolds(u, s.issued);
    assert Holders(u) == Holders(s);
  }

  /** A step neither loses nor copies a callback; only a new request adds one. */
  lemma NextHolds(s: State, step: Step)
    requires Enabled(s, step)
    ensures Holders(Next(s, step)) == Holders(s) + (if step.UserGet? then multiset{s.issued} else multiset{})
    ensures Next(s, step).config == s.config
    ensures Next(s, step).issued == s.issued + if step.UserGet? then 1 else 0
  {
    if step.UserGet? {
      UserGetHolds(s);
    } else {
      StepHolds(s, step);
    }
  }

  // ----- The invariant of all runs -----

  ghost predicate Invariant(s: State) {
    Structure(s) && Queueing(s) && Holders(s) == Issued(s.issued)
  }

  lemma NextKeepsInvariant(s: State, step: Step)
    requires Invariant(s) && Enabled(s, step)
    ensures Invariant(Next(s, step)) && Next(s, step).config == s.config
  {
    NextKeepsStructure(s, step);
    NextKeepsQueueing(s, step);
    NextIssues(s, step);
  }

  lemma NextIssues(s: State, step: Step)
    requires Enabled(s, step) && Holders(s) == Issued(s.issued)
    ensures var t := Next(s, step); Holders(t) == Issued(t.issued) && t.config == s.config
  {
    NextHolds(s, step);
    IssuedAfter(Holders(s), Holders(Next(s, step)), s.issued, Next(s, step).issued, step.UserGet?);
  }

  lemma {:induction false} IssuedAfter(before: multiset<Request>, after: multiset<Request>, n: nat, n': nat, more: bool)
    requires before == Issued(n) && after == before + (if more then multiset{n} else multiset{})
    requires n' == n + if more then 1 else 0
    ensures after == Issued(n')
  {
    if more {
      assert Issued(n') == Issued(n) + multiset{n};
    }
  }

  lemma {:induction false} RunKeepsInvariant(s: State, steps: seq<Step>, t: State)
    requires Invariant(s) && Reaches(s, steps, t)
    ensures Invariant(t) && t.config == s.config
    decreases |steps|
  {
    if steps != [] {
      NextKeepsInvariant(s, steps[0]);
      RunKeepsInvariant(Next(s, steps[0]), steps[1..], t);
    }
  }

  lemma InitIsSound(config: Config)
    ensures Invariant(Init(config))
  {
  }

  lemma EveryRunIsSound(config: Config, steps: seq<Step>, s: State)
    requires Reaches(Init(config), steps, s)
    ensures Invariant(s) && s.config == config
  {
    InitIsSound(config);
    RunKeepsInvariant(Init(config), steps, s);
  }

  /** Callback conservation: each request issued so far is in exactly one place, and no other request is anywhere. */
  lemma CallbacksAreConserved(config: Config, steps: seq<Step>, s: State, r: Request)
    requires Reaches(Init(config), steps, s)
    ensures multiset(s.queue)[r] + multiset(OpRequests(s.pending))[r] +
            multiset(NoticeRequests(s.scheduled))[r] + multiset(DeliveryRequests(s.delivered))[r] ==
            if r < s.issued then 1 else 0
  {
    EveryRunIsSound(config, steps, s);
    IssuedOnce(s.issued, r);
    assert Holders(s)[r] == Issued(s.issued)[r];
  }

  /** No lost wakeup, for every waiter of every open pool. */
  lemma NoLostWakeup(config: Config, steps: seq<Step>, s: State)
    requires Reaches(Init(config), steps, s)
    requires !s.closed && s.queue != []
    ensures s.free == []
    ensures 0 < config.connectionLimit <= |Elements(s.all) + Elements(s.acquiring)|
  {
    EveryRunIsSound(config, steps, s);
  }

  /** Structure and limits: free connections are listed, idle and unrepeated, and both limits hold. */
  lemma LimitsHold(config: Config, steps: seq<Step>, s: State)
    requires Reaches(Init(config), steps, s)
    ensures forall c: Conn | c < |s.conns| :: s.conns[c].pooled <==> c in s.all
    ensures NoDup(s.all) && NoDup(s.free) && NoDup(s.acquiring)
    ensures forall c :: c in s.free ==> c in s.all && c !in s.acquiring
    ensures config.connectionLimit > 0 ==> |s.all| <= config.connectionLimit
    ensures config.queueLimit > 0 ==> |s.queue| <= config.queueLimit
    ensures !config.waitForConnections ==> s.queue == []
  {
    EveryRunIsSound(config, steps, s);
    forall c: Conn | c < |s.conns| ensures s.conns[c].pooled <==> c in s.all {
      assert Fits(s, c);
    }
  }
}
