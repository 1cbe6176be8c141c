/**
The connection pool as a state machine over values: one function per pool operation, and the steps that
users, sockets and the event loop can take.  The classes in PoolClasses.dfy are proved to compute these
functions; PoolInvariants.dfy and PoolRuns.dfy prove what holds in every run.

Connections and requests are numbered in the order in which they come into being.  A request is one call of
`getConnection` by a user, and stands for the callback given in that call.
*/
module PoolModel {
  import opened Lists

  type Conn = nat
  type Request = nat

  /** `connectionLimit` and `queueLimit` equal to 0 mean "no limit". */
  datatype Config = Config(connectionLimit: nat, queueLimit: nat, waitForConnections: bool)

  /** A connection's `state` is 'disconnected' both before its socket is up and after it has ended. */
  datatype Link = Connecting | Connected | Ended

  /** `pooled` says that the `_pool` field points at the pool, `quitting` that a quit sequence was started. */
  datatype ConnInfo = ConnInfo(pooled: bool, link: Link, quitting: bool) {
    predicate Disconnected() {
      !link.Connected?
    }
  }

  datatype Code = PoolClosed | ConnLimit | EnqueueLimit | OperationError

  datatype Outcome = Given(conn: Conn) | Failed(code: Code)

  /** A started `connect`, or a started `ping`/`changeUser`, and the request waiting for it. */
  datatype Op = Op(connect: bool, conn: Conn, request: Request)

  datatype Notice = Notice(request: Request, code: Code)

  datatype Delivery = Delivery(request: Request, outcome: Outcome)

  /**
  The pool's four arrays and its flag, the connections, and the books of the event loop: operations in
  progress, callbacks scheduled with `nextTick`, and callbacks that were called.  `started` lists the requests
  in the order in which they were given a connection to work with; `held` counts, per connection, how often it
  was handed to a user and not yet given back.
  */
  datatype State = State(
    config: Config,
    conns: seq<ConnInfo>,
    acquiring: seq<Conn>,
    all: seq<Conn>,
    free: seq<Conn>,
    queue: seq<Request>,
    closed: bool,
    pending: seq<Op>,
    scheduled: seq<Notice>,
    delivered: seq<Delivery>,
    issued: nat,
    started: seq<Request>,
    held: multiset<Conn>)

  function Init(config: Config): State {
    State(config, [], [], [], [], [], false, [], [], [], 0, [], multiset{})
  }

  function SetPooled(s: State, c: Conn, pooled: bool): State
    requires c < |s.conns|
  {
    s.(conns := s.conns[c := s.conns[c].(pooled := pooled)])
  }

  function SetLink(s: State, c: Conn, link: Link): State
    requires c < |s.conns|
  {
    s.(conns := s.conns[c := s.conns[c].(link := link)])
  }

  function Quit(s: State, c: Conn): State
    requires c < |s.conns|
  {
    s.(conns := s.conns[c := s.conns[c].(quitting := true)])
  }

  function Schedule(s: State, r: Request, code: Code): State {
    s.(scheduled := s.scheduled + [Notice(r, code)])
  }

  // ----- Pool.js -----

  function AcquireConnection(s: State, c: Conn, r: Request): State {
    s.(acquiring := s.acquiring + [c], pending := s.pending + [Op(false, c, r)], started := s.started + [r])
  }

  function OpenConnection(s: State, r: Request): State {
    var c := |s.conns|;
    s.(conns := s.conns + [ConnInfo(true, Connecting, false)],
       acquiring := s.acquiring + [c],
       all := s.all + [c],
       pending := s.pending + [Op(true, c, r)],
       started := s.started + [r])
  }

  function EnqueueCallback(s: State, r: Request): State {
    if s.config.queueLimit != 0 && |s.queue| >= s.config.queueLimit then
      Schedule(s, r, EnqueueLimit)
    else
      s.(queue := s.queue + [r])
  }

  function GetConnection(s: State, r: Request): State {
    if s.closed then
      Schedule(s, r, PoolClosed)
    else if |s.free| > 0 then
      AcquireConnection(s.(free := s.free[1..]), s.free[0], r)
    else if s.config.connectionLimit == 0 || |s.all| < s.config.connectionLimit then
      OpenConnection(s, r)
    else if !s.config.waitForConnections then
      Schedule(s, r, ConnLimit)
    else
      EnqueueCallback(s, r)
  }

  function ClosedNotices(queue: seq<Request>): seq<Notice> {
    seq(|queue|, i requires 0 <= i < |queue| => Notice(queue[i], PoolClosed))
  }

  /** The tail of `releaseConnection`: turn all waiters away, or serve the first one. */
  function ServeQueue(s: State): State {
    if s.closed then
      s.(queue := [], scheduled := s.scheduled + ClosedNotices(s.queue))
    else if |s.queue| > 0 then
      GetConnection(s.(queue := s.queue[1..]), s.queue[0])
    else
      s
  }

  /** A second release of a connection that is already free throws, and changes nothing. */
  function ReleaseConnection(s: State, c: Conn): State
    requires c < |s.conns|
  {
    if c in s.acquiring then
      s
    else if !s.conns[c].pooled then
      ServeQueue(s)
    else if c in s.free then
      s
    else
      ServeQueue(s.(free := s.free + [c]))
  }

  function Unlist(s: State, c: Conn): State
    requires c < |s.conns|
  {
    SetPooled(s, c, false).(all := Without(s.all, c), free := Without(s.free, c))
  }

  function RemoveConnection(s: State, c: Conn): (t: State)
    requires c < |s.conns|
    ensures |t.conns| >= |s.conns|
  {
    ReleaseConnection(Unlist(s, c), c)
  }

  function Rank(s: State, c: Conn): nat
    requires c < |s.conns|
  {
    if s.conns[c].pooled then 1 else 0
  }

  function PurgeConnection(s: State, c: Conn): (t: State)
    requires c < |s.conns|
    ensures |t.conns| >= |s.conns|
    decreases Rank(s, c), 2
  {
    var s1 := if s.conns[c].Disconnected() then Destroy(s, c) else s;
    var s2 := RemoveConnection(s1, c);
    if !s2.conns[c].Disconnected() && !s2.conns[c].quitting then Quit(s2, c) else s2
  }

  // ----- PoolConnection.js -----

  function Destroy(s: State, c: Conn): (t: State)
    requires c < |s.conns|
    ensures |t.conns| >= |s.conns|
    decreases Rank(s, c), 1
  {
    RemoveFromPool(SetLink(s, c, Ended), c)
  }

  function RemoveFromPool(s: State, c: Conn): (t: State)
    requires c < |s.conns|
    ensures |t.conns| >= |s.conns|
    decreases Rank(s, c), 0
  {
    if !s.conns[c].pooled || s.closed then
      s
    else
      PurgeConnection(SetPooled(s, c, false), c)
  }

  function ReleaseByUser(s: State, c: Conn): State
    requires c < |s.conns|
  {
    if !s.conns[c].pooled || s.closed then s else ReleaseConnection(s, c)
  }

  // ----- Completion of operations, and shutdown -----

  /** The operation at index `i` of `pending` is over, and its connection is no longer being acquired. */
  function Over(s: State, i: nat): State
    requires i < |s.pending|
  {
    s.(pending := s.pending[..i] + s.pending[i + 1..], acquiring := Without(s.acquiring, s.pending[i].conn))
  }

  /** The callback of request `r` is called. */
  function CallBack(s: State, r: Request, outcome: Outcome): State {
    s.(delivered := s.delivered + [Delivery(r, outcome)])
  }

  /**
  After an error, or in a closed pool: a failed `connect` is reported, a failed `ping` puts its request back first
  in the queue.
  */
  function Fail(s: State, op: Op): State
    requires op.conn < |s.conns|
  {
    if op.connect then
      CallBack(PurgeConnection(s, op.conn), op.request, Failed(if s.closed then PoolClosed else OperationError))
    else
      PurgeConnection(s.(queue := [op.request] + s.queue), op.conn)
  }

  function HandOut(s: State, op: Op): State {
    CallBack(s, op.request, Given(op.conn)).(held := s.held + multiset{op.conn})
  }

  /** The operation at index `i` of `pending` calls back, with an error or without. */
  function Complete(s: State, i: nat, failed: bool): State
    requires i < |s.pending| && s.pending[i].conn < |s.conns|
  {
    if s.closed || failed then Fail(Over(s, i), s.pending[i]) else HandOut(Over(s, i), s.pending[i])
  }

  /** Removal changes no connection but the removed one, and of that only `pooled`; it may open connections. */
  lemma RemoveKeepsConns(s: State, c: Conn)
    requires c < |s.conns|
    ensures RemoveConnection(s, c).conns[..|s.conns|] == s.conns[c := s.conns[c].(pooled := false)]
    ensures RemoveConnection(s, c).closed == s.closed
    ensures s.closed ==> RemoveConnection(s, c).conns == s.conns[c := s.conns[c].(pooled := false)]
  {
  }

  /**
  What the purge/destroy recursion amounts to: a connection that is down, pooled and in an open pool is removed
  twice.
  */
  function Purged(s: State, c: Conn): State
    requires c < |s.conns|
  {
    if !s.conns[c].Disconnected() then
      Quit(RemoveConnection(s, c), c)
    else
      var d := SetLink(s, c, Ended);
      if s.conns[c].pooled && !s.closed then
        RemoveConnection(RemoveConnection(SetPooled(d, c, false), c), c)
      else
        RemoveConnection(d, c)
  }

  lemma PurgeUnpooled(s: State, c: Conn)
    requires c < |s.conns| && s.conns[c].link.Ended? && !s.conns[c].pooled
    ensures PurgeConnection(s, c) == RemoveConnection(s, c)
  {
    RemoveKeepsConns(s, c);
    assert SetLink(s, c, Ended) == s;
    assert Destroy(s, c) == s;
    var t := RemoveConnection(s, c);
    assert t.conns[c] == t.conns[..|s.conns|][c];
  }

  lemma PurgeIsPurged(s: State, c: Conn)
    requires c < |s.conns|
    ensures PurgeConnection(s, c) == Purged(s, c)
  {
    if s.conns[c].Disconnected() {
      DestroyIs(s, c);
      var d := Destroy(s, c);
      RemovedStaysDown(d, c);
    } else {
      RemoveKeepsConns(s, c);
      var t := RemoveConnection(s, c);
      assert t.conns[c] == t.conns[..|s.conns|][c];
      assert t.conns[c].quitting ==> Quit(t, c) == t;
    }
  }

  /** Destroying ends the connection, and in an open pool removes it unless it was let go before. */
  lemma DestroyIs(s: State, c: Conn)
    requires c < |s.conns|
    ensures Destroy(s, c) ==
            var d := SetLink(s, c, Ended);
            if s.conns[c].pooled && !s.closed then RemoveConnection(SetPooled(d, c, false), c) else d
    ensures Destroy(s, c).conns[c].link.Ended?
  {
    var d := SetLink(s, c, Ended);
    if s.conns[c].pooled && !s.closed {
      var e := SetPooled(d, c, false);
      PurgeUnpooled(e, c);
      RemovedStaysDown(e, c);
    }
  }

  lemma RemovedStaysDown(s: State, c: Conn)
    requires c < |s.conns| && s.conns[c].link.Ended?
    ensures RemoveConnection(s, c).conns[c].link.Ended?
  {
    RemoveKeepsConns(s, c);
    var t := RemoveConnection(s, c);
    assert t.conns[c] == t.conns[..|s.conns|][c];
  }

  /** Purging a listed connection of a closed pool shortens the list and opens nothing. */
  lemma PurgeWhenClosed(s: State, c: Conn)
    requires c < |s.conns| && s.closed
    ensures PurgeConnection(s, c).closed
    ensures PurgeConnection(s, c).all == Without(s.all, c)
    ensures |PurgeConnection(s, c).conns| == |s.conns|
  {
    PurgeIsPurged(s, c);
    RemoveWhenClosed(s, c);
    RemoveWhenClosed(SetLink(s, c, Ended), c);
  }

  lemma RemoveWhenClosed(s: State, c: Conn)
    requires c < |s.conns| && s.closed
    ensures var t := RemoveConnection(s, c); t.closed && t.all == Without(s.all, c) && |t.conns| == |s.conns|
  {
  }

  /** The loop of `end`. */
  function PurgeAll(s: State): State
    requires s.closed && forall c :: c in s.all ==> c < |s.conns|
    decreases |s.all|
  {
    if s.all == [] then s
    else
      assert s.all[0] in s.all;
      PurgeWhenClosed(s, s.all[0]);
      PurgeAll(PurgeConnection(s, s.all[0]))
  }

  function End(s: State): State
    requires forall c :: c in s.all ==> c < |s.conns|
  {
    PurgeAll(s.(closed := true))
  }

  // ----- Steps -----

  datatype Step =
    | UserGet
    | UserRelease(conn: Conn)
    | PoolRelease(conn: Conn)
    | StrayRelease
    | UserDestroy(conn: Conn)
    | UserEnd
    | SocketUp(conn: Conn)
    | ConnectionEnd(conn: Conn)
    | FatalError(conn: Conn)
    | OpDone(index: nat, failed: bool)
    | Tick

  /**
  What the environment may do.  Users may call any method of any connection at any time, and `releaseConnection` also
  with a stray connection, one that another pool has let go.  An operation calls
  back at most once, and without an error only on a connection that is up and not quitting, unless the pool is
  closed, when the pool ignores the difference.
  */
  predicate Enabled(s: State, step: Step) {
    match step
    case UserGet => true
    case UserRelease(c) => c < |s.conns|
    case PoolRelease(c) => c < |s.conns|
    case StrayRelease => true
    case UserDestroy(c) => c < |s.conns|
    case UserEnd => forall c :: c in s.all ==> c < |s.conns|
    case SocketUp(c) => c < |s.conns| && s.conns[c].link.Connecting?
    case ConnectionEnd(c) => c < |s.conns|
    case FatalError(c) => c < |s.conns|
    case OpDone(i, failed) =>
      && i < |s.pending|
      && s.pending[i].conn < |s.conns|
      && (failed || s.closed || (s.conns[s.pending[i].conn].link.Connected? && !s.conns[s.pending[i].conn].quitting))
    case Tick => s.scheduled != []
  }

  function Deliver(s: State): State
    requires s.scheduled != []
  {
    var n := s.scheduled[0];
    CallBack(s.(scheduled := s.scheduled[1..]), n.request, Failed(n.code))
  }

  /** A user asks for a connection. */
  function Ask(s: State): State {
    GetConnection(Issue(s), s.issued)
  }

  function Issue(s: State): State {
    s.(issued := s.issued + 1)
  }

  function GiveBack(s: State, c: Conn): State {
    s.(held := s.held - multiset{c})
  }

  function Next(s: State, step: Step): State
    requires Enabled(s, step)
  {
    match step
    case UserGet => Ask(s)
    case UserRelease(c) => ReleaseByUser(GiveBack(s, c), c)
    case PoolRelease(c) => ReleaseConnection(GiveBack(s, c), c)
    case StrayRelease => ServeQueue(s)
    case UserDestroy(c) => Destroy(GiveBack(s, c), c)
    case UserEnd => End(s)
    case SocketUp(c) => SetLink(s, c, Connected)
    case ConnectionEnd(c) => RemoveFromPool(SetLink(s, c, Ended), c)
    case FatalError(c) => RemoveFromPool(s, c)
    case OpDone(i, failed) => Complete(s, i, failed)
    case Tick => Deliver(s)
  }

  /** `t` is reached from `s` by the given steps. */
  ghost predicate Reaches(s: State, steps: seq<Step>, t: State)
    decreases |steps|
  {
    if steps == [] then s == t
    else Enabled(s, steps[0]) && Reaches(Next(s, steps[0]), steps[1..], t)
  }
}
