/** The order of service: exactly which steps keep it. */
module PoolOrder {
  import opened Lists
  import opened PoolModel
  import opened PoolInvariants
  import opened PoolSupply
  import opened PoolRuns
  import opened PoolStarts
  import opened PoolLines

  /** The requests that were started, and behind them those that wait. */
  function Line(s: State): seq<Request> {
    s.started + s.queue
  }

  /** A request that comes now is started at once. */
  predicate Room(s: State) {
    s.free != [] || s.config.connectionLimit == 0 || |s.all| < s.config.connectionLimit
  }

  /** Otherwise it waits, or is told of a limit. */
  predicate Waits(s: State) {
    s.config.waitForConnections && (s.config.queueLimit == 0 || |s.queue| < s.config.queueLimit)
  }

  /**
  Exactly the steps that keep the order of service.  A new request may be started only while nobody waits.  The queue
  may be served without a connection for it only if there is room, or if the first waiter is the only one.  A connect
  that fails on a listed connection that is down serves the queue twice, and the second time without one.  A request
  whose ping fails is started again, so it has to be the one started last; without room for it, it joins the queue and
  has to be the only one there, unless it is turned away.
  */
  ghost predicate KeepsOrder(s: State, step: Step)
    requires Enabled(s, step)
  {
    s.closed ||
    match step
    case UserGet => s.queue == [] || !Room(s)
    case PoolRelease(c) => c in s.acquiring || s.conns[c].pooled || Room(s) || |s.queue| <= 1
    case StrayRelease => Room(s) || |s.queue| <= 1
    case OpDone(i, failed) =>
      var op := s.pending[i];
      failed ==> if op.connect then ConnectKeepsOrder(s, op.conn) else PingKeepsOrder(s, op.conn, op.request)
    case _ => true
  }

  predicate ConnectKeepsOrder(s: State, c: Conn)
    requires c < |s.conns|
  {
    if s.conns[c].pooled then s.conns[c].link.Connected? || Room(s) || |s.queue| <= 2
    else Room(s) || |s.queue| <= 1
  }

  ghost predicate PingKeepsOrder(s: State, c: Conn, r: Request)
    requires c < |s.conns|
  {
    var last := StartedLast(s.started, s.queue, r);
    if s.conns[c].pooled then last && (s.conns[c].link.Connected? || Room(s) || |s.queue| <= 1)
    else if Room(s) then last
    else Waits(s) ==> s.queue == [] && last
  }

  /** The state of an open pool in some run, with the order kept so far. */
  ghost predicate Orderly(s: State) {
    Invariant(s) && Recorded(s) && !s.closed && InOrder(Line(s))
  }

  /** No request stands in the queue twice, nor does one that an operation is in progress for. */
  lemma EachInOnePlace(s: State)
    requires Invariant(s)
    ensures NoDup(s.queue)
    ensures forall op :: op in s.pending ==> op.request !in s.queue
  {
    forall r: Request ensures multiset(s.queue)[r] + multiset(OpRequests(s.pending))[r] <= 1 {
      IssuedOnce(s.issued, r);
      assert Holders(s)[r] == Issued(s.issued)[r];
    }
    OnceEach(s.queue);
    forall op | op in s.pending ensures op.request !in s.queue {
      var i :| 0 <= i < |s.pending| && s.pending[i] == op;
      assert OpRequests(s.pending)[i] == op.request;
      assert op.request in multiset(OpRequests(s.pending));
      assert multiset(s.queue)[op.request] + multiset(OpRequests(s.pending))[op.request] <= 1;
    }
  }

  lemma OnceEach(line: seq<Request>)
    requires forall r: Request :: multiset(line)[r] <= 1
    ensures NoDup(line)
  {
    forall i, j | 0 <= i < j < |line| ensures line[i] != line[j] {
      assert line == line[..j] + [line[j]] + line[j + 1..];
      assert multiset(line)[line[j]] >= multiset(line[..j])[line[j]] + 1;
      assert line[i] in line[..j];
    }
  }

  // ----- What the operations do to the line -----

  lemma ServeLine(s: State)
    requires !s.closed && QueueWithin(s)
    ensures var t := ServeQueue(s);
            && (Room(s) ==> s.started <= t.started && Line(t) == Line(s))
            && (!Room(s) ==> t.started == s.started && t.queue == Turned(s.queue))
  {
    if s.queue != [] {
      assert s.queue == [s.queue[0]] + s.queue[1..];
    }
  }

  /** With room the first waiter is started, on a new connection if none is free. */
  lemma ServeWithRoom(s: State)
    requires !s.closed && s.queue != [] && Room(s)
    ensures var t := ServeQueue(s);
            && t.started == s.started + [s.queue[0]] && t.queue == s.queue[1..] && t.closed == s.closed
            && (s.free == [] ==> t.free == [] && |t.all| == |s.all| + 1)
  {
  }

  /** Removing a listed connection makes room for the first waiter, whose own connection takes its place. */
  ghost predicate Refilled(s: State, t: State) {
    && !t.closed && t.config == s.config
    && (if s.queue == [] then t.started == s.started && t.queue == []
        else t.started == s.started + [s.queue[0]] && t.queue == s.queue[1..])
    && (s.free == [] && s.queue != [] ==> t.free == [] && |t.all| == |s.all|)
  }

  lemma RemoveLine(s: State, c: Conn)
    requires Listing(s) && !s.closed && c < |s.conns| && c in s.all && c !in s.acquiring
    ensures Refilled(s, RemoveConnection(s, c))
  {
    var u := Unlist(s, c);
    assert RemoveConnection(s, c) == ServeQueue(u);
    if s.queue != [] {
      assert Room(u);
      ServeWithRoom(u);
    }
  }

  /** And leaves nothing of it to remove. */
  lemma RemovedIsGone(s: State, c: Conn)
    requires StructureBut(s, {c}) && c < |s.conns| && c !in s.acquiring
    ensures var t := RemoveConnection(s, c);
            |s.conns| <= |t.conns| && RemoveConnection(t, c) == ServeQueue(t)
  {
    var u, t := Unlist(s, c), RemoveConnection(s, c);
    UnlistKeepsStructure(s, c);
    RemoveKeepsStructure(s, c);
    RemoveKeepsConns(s, c);
    assert t.conns[c] == t.conns[..|s.conns|][c];
    NotTaken(u, c);
    assert t == ServeQueue(u);
    assert Unlist(t, c) == t;
  }

  lemma NotTaken(s: State, c: Conn)
    requires c < |s.conns| && c !in s.acquiring && c !in s.free
    ensures c !in ServeQueue(s).acquiring
  {
  }

  /** What a purge makes of the line of an open pool. */
  ghost predicate PurgedLine(s: State, t: State, c: Conn)
    requires c < |s.conns|
  {
    if s.queue == [] then t.started == s.started && t.queue == []
    else
      var started, queue := s.started + [s.queue[0]], s.queue[1..];
      if s.conns[c].link.Connected? then t.started == started && t.queue == queue
      else if Room(s) then started <= t.started && t.started + t.queue == started + queue
      else t.started == started && t.queue == Turned(queue)
  }

  lemma PurgeLine(s: State, c: Conn)
    requires Structure(s) && !s.closed && c < |s.conns| && c in s.all && c !in s.acquiring
    requires s.queue != [] ==> QueueWithin(s.(queue := s.queue[1..])) && (|s.queue| > 1 ==> s.free == [])
    ensures PurgedLine(s, PurgeConnection(s, c), c)
  {
    PurgeIsPurged(s, c);
    assert Fits(s, c);
    Loosen(s, c);
    if s.conns[c].link.Connected? {
      RemoveLine(s, c);
    } else {
      DestroyedIsLoose(s, c);
      var e := SetPooled(SetLink(s, c, Ended), c, false);
      RemoveLine(e, c);
      RemovedIsGone(e, c);
      var m := RemoveConnection(e, c);
      if m.queue != [] {
        ServeLine(m);
      }
    }
  }

  /** The service of the queue does not look at connections. */
  lemma SameService(s: State, conns: seq<ConnInfo>)
    requires |conns| == |s.conns|
    ensures var t, v := ServeQueue(s.(conns := conns)), ServeQueue(s);
            t.started == v.started && t.queue == v.queue && t.scheduled == v.scheduled
  {
  }

  lemma RemoveUnlisted(s: State, c: Conn)
    requires c < |s.conns| && !s.conns[c].pooled && c !in s.all && c !in s.free && c !in s.acquiring
    ensures RemoveConnection(s, c) == ServeQueue(s)
  {
    assert Unlist(s, c) == s;
  }

  /** A connection that is no longer listed has nothing to give: the queue is served as if by nobody. */
  lemma PurgeUnlisted(s: State, c: Conn)
    requires Structure(s) && !s.closed && c < |s.conns| && !s.conns[c].pooled && c !in s.acquiring
    ensures SameLine(ServeQueue(s), PurgeConnection(s, c))
  {
    PurgeIsPurged(s, c);
    assert Fits(s, c);
    if s.conns[c].Disconnected() {
      var d := SetLink(s, c, Ended);
      RemoveUnlisted(d, c);
      SameService(s, d.conns);
    } else {
      RemoveUnlisted(s, c);
    }
  }

  /** Dropping a connection serves the first waiter, if the connection has no operation in progress. */
  lemma DropLine(s: State, c: Conn)
    requires Listing(s) && !s.closed && c < |s.conns| && (s.conns[c].pooled ==> c in s.all)
    ensures Line(RemoveFromPool(s, c)) == Line(s) && !RemoveFromPool(s, c).closed
  {
    if s.conns[c].pooled {
      var u := SetPooled(s, c, false);
      PurgeIsPurged(u, c);
      var d := if u.conns[c].Disconnected() then SetLink(u, c, Ended) else u;
      RemoveKeepsLine(d, c);
    }
  }

  lemma RemoveKeepsLine(s: State, c: Conn)
    requires Listing(s) && !s.closed && c < |s.conns| && c in s.all
    ensures Line(RemoveConnection(s, c)) == Line(s) && !RemoveConnection(s, c).closed
  {
    if c in s.acquiring {
      assert RemoveConnection(s, c) == Unlist(s, c);
    } else {
      RemoveLine(s, c);
      if s.queue != [] {
        assert s.queue == [s.queue[0]] + s.queue[1..];
      }
    }
  }

  // ----- What the steps do to the line -----

  lemma AskLine(s: State)
    requires !s.closed
    ensures var t := Ask(s);
            && (Room(s) ==> t.started == s.started + [s.issued] && t.queue == s.queue)
            && (!Room(s) ==> t.started == s.started && t.queue == if Waits(s) then s.queue + [s.issued] else s.queue)
  {
  }

  /** A new request keeps the order exactly if nobody waits or there is no room. */
  lemma AskOrder(s: State)
    requires Orderly(s)
    ensures s.queue == [] || !Room(s) ==> Line(Ask(s)) == Line(s) || Line(Ask(s)) == Line(s) + [s.issued]
    ensures InOrder(Line(Ask(s))) <==> s.queue == [] || !Room(s)
  {
    AskLine(s);
    var t := Ask(s);
    if s.queue != [] && Room(s) {
      assert s.queue[0] in s.queue;
      JoinsBefore(s.started, s.issued, s.queue);
    } else {
      assert Line(t) == Line(s) || Line(t) == Line(s) + [s.issued];
      JoinsBehind(Line(s), s.issued);
    }
  }

  lemma ServeOrder(s: State)
    requires Orderly(s)
    ensures Room(s) || |s.queue| <= 1 ==> Line(ServeQueue(s)) == Line(s)
    ensures InOrder(Line(ServeQueue(s))) <==> Room(s) || |s.queue| <= 1
  {
    ServeLine(s);
    EachInOnePlace(s);
    TurnedOrder(s.started, s.queue);
  }

  lemma ReleaseOrder(s: State, c: Conn)
    requires Orderly(s) && c < |s.conns|
    ensures var kept := c in s.acquiring || s.conns[c].pooled || Room(s) || |s.queue| <= 1;
            && (kept ==> Line(ReleaseConnection(s, c)) == Line(s))
            && (InOrder(Line(ReleaseConnection(s, c))) <==> kept)
  {
    if c !in s.acquiring {
      if !s.conns[c].pooled {
        ServeOrder(s);
      } else if c !in s.free {
        ServeLine(s.(free := s.free + [c]));
      }
    }
  }

  lemma SameOrderly(s: State, t: State)
    requires Orderly(s) && t.(held := s.held) == s
    ensures Orderly(t)
  {
    SameStructure(s, t);
    SameQueueing(s, t);
    SameHolders(s, t);
  }

  /** Users' own releases and destructions, and connections that end, keep the order whatever they meet. */
  lemma UserStepLine(s: State, c: Conn)
    requires Orderly(s) && c < |s.conns|
    ensures Line(ReleaseByUser(GiveBack(s, c), c)) == Line(s)
    ensures Line(Destroy(GiveBack(s, c), c)) == Line(s)
  {
    var g := GiveBack(s, c);
    SameOrderly(s, g);
    if g.conns[c].pooled {
      ReleaseOrder(g, c);
    }
    EndedLine(g, c);
  }

  lemma EndedLine(s: State, c: Conn)
    requires Orderly(s) && c < |s.conns|
    ensures Line(RemoveFromPool(SetLink(s, c, Ended), c)) == Line(s)
    ensures Line(RemoveFromPool(s, c)) == Line(s)
  {
    assert Fits(s, c);
    DropLine(s, c);
    DropLine(SetLink(s, c, Ended), c);
  }

  // ----- Operations that fail -----

  /** The purge that a failed connect comes to. */
  lemma ConnectFails(s: State, i: nat)
    requires !s.closed && i < |s.pending| && s.pending[i].connect && s.pending[i].conn < |s.conns|
    ensures var t, p := Complete(s, i, true), PurgeConnection(Over(s, i), s.pending[i].conn);
            t.started == p.started && t.queue == p.queue
  {
  }

  /** A failed ping puts its request first in the queue, and comes to a purge as well. */
  function Requeued(s: State, i: nat): State
    requires i < |s.pending|
  {
    Over(s, i).(queue := [s.pending[i].request] + s.queue)
  }

  lemma PingFails(s: State, i: nat)
    requires !s.closed && i < |s.pending| && !s.pending[i].connect && s.pending[i].conn < |s.conns|
    ensures Complete(s, i, true) == PurgeConnection(Requeued(s, i), s.pending[i].conn)
  {
  }

  /** What a purge does to the line, whether the connection is listed or not. */
  lemma PurgeLineEither(s: State, c: Conn)
    requires Structure(s) && !s.closed && c < |s.conns| && c !in s.acquiring
    requires s.queue != [] ==> QueueWithin(s.(queue := s.queue[1..])) && (|s.queue| > 1 ==> s.free == [])
    ensures var t := PurgeConnection(s, c);
            if s.conns[c].pooled then PurgedLine(s, t, c) else SameLine(ServeQueue(s), t)
  {
    assert Fits(s, c);
    if s.conns[c].pooled {
      PurgeLine(s, c);
    } else {
      PurgeUnlisted(s, c);
    }
  }

  ghost predicate SameLine(s: State, t: State) {
    t.started == s.started && t.queue == s.queue && t.scheduled == s.scheduled
  }

  /** A connect that fails keeps the order exactly if its connection, or room, is there for every service. */
  lemma FailedConnectOrder(s: State, i: nat)
    requires Orderly(s) && i < |s.pending| && s.pending[i].connect && s.pending[i].conn < |s.conns|
    ensures ConnectKeepsOrder(s, s.pending[i].conn) ==> Line(Complete(s, i, true)) == Line(s)
    ensures InOrder(Line(Complete(s, i, true))) <==> ConnectKeepsOrder(s, s.pending[i].conn)
  {
    var o, c := Over(s, i), s.pending[i].conn;
    OverKeepsStructure(s, i);
    EachInOnePlace(s);
    ConnectFails(s, i);
    PurgeLineEither(o, c);
    PurgedOrder(o, PurgeConnection(o, c), c);
  }

  lemma PurgedOrder(s: State, t: State, c: Conn)
    requires c < |s.conns| && InOrder(Line(s)) && NoDup(s.queue) && !s.closed && QueueWithin(s)
    requires if s.conns[c].pooled then PurgedLine(s, t, c) else SameLine(ServeQueue(s), t)
    ensures ConnectKeepsOrder(s, c) ==> Line(t) == Line(s)
    ensures InOrder(Line(t)) <==> ConnectKeepsOrder(s, c)
  {
    if !s.conns[c].pooled {
      ServeLine(s);
      TurnedOrder(s.started, s.queue);
    } else if s.queue != [] {
      var started, queue := s.started + [s.queue[0]], s.queue[1..];
      assert s.queue == [s.queue[0]] + queue;
      assert Line(s) == started + queue;
      NoDupTail(s.queue);
      TurnedOrder(started, queue);
    }
  }

  /** A request whose ping fails goes before everybody waiting. */
  lemma FailedPingLine(s: State, i: nat)
    requires Invariant(s) && !s.closed && i < |s.pending| && !s.pending[i].connect && s.pending[i].conn < |s.conns|
    ensures var t, c, u := Complete(s, i, true), s.pending[i].conn, Requeued(s, i);
            if s.conns[c].pooled then PurgedLine(u, t, c) else SameLine(ServeQueue(u), t)
  {
    var u, c := Requeued(s, i), s.pending[i].conn;
    OverKeepsStructure(s, i);
    SameStructure(Over(s, i), u);
    assert u.queue[1..] == s.queue;
    PingFails(s, i);
    PurgeLineEither(u, c);
  }

  /**
  A request whose ping fails on a listed connection is given another one to work with in the same step, before everybody
  waiting.  If the connection is down the queue is served once more, without one, and its first waiter may go to the
  back.
  */
  lemma FailedPingIsRetried(s: State, i: nat)
    requires Invariant(s) && !s.closed && i < |s.pending| && !s.pending[i].connect
    requires s.pending[i].conn < |s.conns| && s.conns[s.pending[i].conn].pooled
    ensures var t, op := Complete(s, i, true), s.pending[i];
            && s.started + [op.request] <= t.started
            && Line(t) == s.started + [op.request] +
                          if s.conns[op.conn].link.Connected? || Room(s) then s.queue else Turned(s.queue)
  {
    var u, t, r := Requeued(s, i), Complete(s, i, true), s.pending[i].request;
    FailedPingLine(s, i);
    assert u.queue[0] == r && u.queue[1..] == s.queue;
  }

  /** On a connection that is no longer listed it asks again like a new request, and may be turned away. */
  lemma FailedPingAsksAgain(s: State, i: nat)
    requires Invariant(s) && !s.closed && i < |s.pending| && !s.pending[i].connect
    requires s.pending[i].conn < |s.conns| && !s.conns[s.pending[i].conn].pooled
    ensures var t, r := Complete(s, i, true), s.pending[i].request;
            if Room(s) then t.started == s.started + [r] && t.queue == s.queue && t.scheduled == s.scheduled
            else if Waits(s) then t.started == s.started && t.queue == s.queue + [r] && t.scheduled == s.scheduled
            else && t.started == s.started && t.queue == s.queue
                 && t.scheduled == s.scheduled +
                                   [Notice(r, if s.config.waitForConnections then EnqueueLimit else ConnLimit)]
  {
    var u, r := Requeued(s, i), s.pending[i].request;
    FailedPingLine(s, i);
    assert u.queue[0] == r && u.queue[1..] == s.queue;
  }

  /** A ping that fails keeps the order exactly as described. */
  lemma FailedPingOrder(s: State, i: nat)
    requires Orderly(s) && i < |s.pending| && !s.pending[i].connect && s.pending[i].conn < |s.conns|
    ensures InOrder(Line(Complete(s, i, true))) <==> PingKeepsOrder(s, s.pending[i].conn, s.pending[i].request)
  {
    var t, c, r := Complete(s, i, true), s.pending[i].conn, s.pending[i].request;
    assert s.pending[i] in s.pending;
    EachInOnePlace(s);
    StartedAgain(s.started, s.queue, r);
    WaitsAgain(s.started, s.queue, r);
    if s.conns[c].pooled {
      FailedPingIsRetried(s, i);
      AgainAndTurned(s.started, s.queue, r);
    } else {
      FailedPingAsksAgain(s, i);
    }
  }

  lemma AgainAndTurned(started: seq<Request>, queue: seq<Request>, r: Request)
    requires InOrder(started + queue) && NoDup(queue)
    ensures |queue| <= 1 ==> Turned(queue) == queue
    ensures |queue| > 1 ==> !InOrder(started + [r] + Turned(queue))
  {
    if |queue| > 1 {
      FirstTwo(started, queue);
      TurnedBreaks(started + [r], queue);
    }
  }

  // ----- All steps -----

  /** The step is the failure of a ping in an open pool. */
  predicate FailsPing(s: State, step: Step)
    requires Enabled(s, step)
  {
    !s.closed && step.OpDone? && step.failed && !s.pending[step.index].connect
  }

  /** In an open pool a step that does not close it keeps the order if and only if `KeepsOrder` says so. */
  lemma OrderKeptExactlyBy(s: State, step: Step)
    requires Orderly(s) && Enabled(s, step) && !step.UserEnd?
    ensures InOrder(Line(Next(s, step))) <==> KeepsOrder(s, step)
    ensures KeepsOrder(s, step) && !FailsPing(s, step) ==>
              Line(Next(s, step)) == Line(s) || (step.UserGet? && Line(Next(s, step)) == Line(s) + [s.issued])
  {
    match step
    case UserGet => AskOrder(s);
    case UserRelease(c) => UserStepLine(s, c);
    case PoolRelease(c) =>
      SameOrderly(s, GiveBack(s, c));
      ReleaseOrder(GiveBack(s, c), c);
    case StrayRelease => ServeOrder(s);
    case UserDestroy(c) => UserStepLine(s, c);
    case SocketUp(c) =>
    case ConnectionEnd(c) => EndedLine(s, c);
    case FatalError(c) => EndedLine(s, c);
    case OpDone(i, failed) =>
      if failed {
        if s.pending[i].connect {
          FailedConnectOrder(s, i);
        } else {
          FailedPingOrder(s, i);
        }
      }
    case Tick =>
  }

  /** So it is in every run. */
  lemma OrderKeptInRuns(config: Config, steps: seq<Step>, s: State, step: Step)
    requires Reaches(Init(config), steps, s) && !s.closed && InOrder(s.started + s.queue)
    requires Enabled(s, step) && !step.UserEnd?
    ensures var t := Next(s, step); InOrder(t.started + t.queue) <==> KeepsOrder(s, step)
  {
    EveryRunIsSound(config, steps, s);
    RunRecords(Init(config), steps, s);
    OrderKeptExactlyBy(s, step);
  }

  // ----- Runs -----

  ghost predicate KeepingRun(s: State, steps: seq<Step>)
    decreases |steps|
  {
    steps != [] ==>
      Enabled(s, steps[0]) && KeepsOrder(s, steps[0]) && KeepingRun(Next(s, steps[0]), steps[1..])
  }

  ghost predicate NoPingFails(s: State, steps: seq<Step>)
    decreases |steps|
  {
    steps != [] ==>
      Enabled(s, steps[0]) && !FailsPing(s, steps[0]) && NoPingFails(Next(s, steps[0]), steps[1..])
  }

  /** The pool is closed, or in order. */
  ghost predicate Kept(s: State) {
    Invariant(s) && Recorded(s) && (s.closed || InOrder(Line(s)))
  }

  lemma NextKept(s: State, step: Step)
    requires Kept(s) && Enabled(s, step) && KeepsOrder(s, step)
    ensures Kept(Next(s, step))
  {
    NextKeepsInvariant(s, step);
    NextRecords(s, step);
    if s.closed || step.UserEnd? {
      ClosedStartsNothing(s, step);
    } else {
      OrderKeptExactlyBy(s, step);
    }
  }

  /** Nobody was started twice. */
  ghost predicate Straight(s: State) {
    Ascending(s.started) && (!s.closed ==> Ascending(Line(s)))
  }

  lemma NextStraight(s: State, step: Step)
    requires Kept(s) && Straight(s) && Enabled(s, step) && KeepsOrder(s, step) && !FailsPing(s, step)
    ensures Straight(Next(s, step))
  {
    if s.closed || step.UserEnd? {
      ClosedStartsNothing(s, step);
    } else {
      OrderKeptExactlyBy(s, step);
      AscendingSnoc(Line(s), s.issued);
      AscendingPrefix(Next(s, step).started, Next(s, step).queue);
    }
  }

  lemma {:induction false} RunsKept(s: State, steps: seq<Step>, t: State)
    requires Kept(s) && KeepingRun(s, steps) && Reaches(s, steps, t)
    ensures Kept(t)
    ensures Straight(s) && NoPingFails(s, steps) ==> Straight(t)
    decreases |steps|
  {
    if steps != [] {
      NextKept(s, steps[0]);
      if Straight(s) && NoPingFails(s, steps) {
        NextStraight(s, steps[0]);
      }
      RunsKept(Next(s, steps[0]), steps[1..], t);
    }
  }

  /**
  In runs of such steps requests are given connections in the order of their arrival, each counted where it was last
  started, and before everybody who waits.  If no ping fails, each is started once.
  */
  lemma KeepingRunsAreInOrder(config: Config, steps: seq<Step>, s: State)
    requires KeepingRun(Init(config), steps) && Reaches(Init(config), steps, s)
    ensures !s.closed ==> InOrder(s.started + s.queue)
    ensures NoPingFails(Init(config), steps) ==> Ascending(s.started) && (!s.closed ==> Ascending(s.started + s.queue))
  {
    InitIsSound(config);
    assert Kept(Init(config)) && Straight(Init(config));
    RunsKept(Init(config), steps, s);
  }
}
