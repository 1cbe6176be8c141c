/** The errors that the pool reports are true of the pool that reports them. */
module PoolErrors {
  import opened Lists
  import opened PoolModel
  import opened PoolInvariants
  import opened PoolRuns
  import opened PoolShutdown

  /** Nothing is free, and there may be no more connections. */
  predicate Full(s: State) {
    s.free == [] && 0 < s.config.connectionLimit <= |s.all|
  }

  predicate QueueFull(s: State) {
    0 < s.config.queueLimit <= |s.queue|
  }

  /** What an outcome says of the pool. */
  predicate True(s: State, outcome: Outcome) {
    match outcome
    case Given(_) => true
    case Failed(PoolClosed) => s.closed
    case Failed(ConnLimit) => Full(s) && !s.config.waitForConnections
    case Failed(EnqueueLimit) => Full(s) && QueueFull(s) && s.config.waitForConnections
    case Failed(OperationError) => true
  }

  /** Whatever is settled from `s` to `t` is true of `t`. */
  ghost predicate AddsTrue(s: State, t: State) {
    forall d :: d in Verdicts(t) ==> d in Verdicts(s) || True(t, d.outcome)
  }

  /** What was true of `s` is true of `t`. */
  ghost predicate StaysTrue(s: State, t: State) {
    && t.config == s.config && t.closed == s.closed
    && (Full(s) ==> Full(t))
    && (Full(s) && QueueFull(s) && s.config.waitForConnections ==> QueueFull(t))
  }

  lemma TrueThrough(s: State, t: State, u: State)
    requires AddsTrue(s, t) && AddsTrue(t, u) && StaysTrue(t, u)
    ensures AddsTrue(s, u)
  {
  }

  /** Nothing is settled, and outcomes see no difference. */
  lemma SameTruth(s: State, t: State)
    requires t.config == s.config && t.closed == s.closed && t.free == s.free && t.all == s.all && t.queue == s.queue
    requires Verdicts(t) == Verdicts(s)
    ensures AddsTrue(s, t) && StaysTrue(s, t)
  {
  }

  lemma GetTrue(s: State, r: Request)
    requires !s.closed
    ensures AddsTrue(s, GetConnection(s, r))
  {
  }

  lemma ServeTrue(s: State)
    requires !s.closed
    ensures AddsTrue(s, ServeQueue(s))
  {
    if |s.queue| > 0 {
      var u := s.(queue := s.queue[1..]);
      GetTrue(u, s.queue[0]);
      assert Verdicts(u) == Verdicts(s);
    }
  }

  /** Serving the queue of a full pool leaves it full, and its queue too. */
  lemma ServeStaysTrue(s: State)
    requires !s.closed
    ensures StaysTrue(s, ServeQueue(s))
  {
  }

  lemma ReleaseTrue(s: State, c: Conn)
    requires c < |s.conns| && !s.closed
    ensures AddsTrue(s, ReleaseConnection(s, c))
  {
    ServeTrue(s);
    var u := s.(free := s.free + [c]);
    ServeTrue(u);
    assert Verdicts(u) == Verdicts(s);
  }

  lemma RemoveTrue(s: State, c: Conn)
    requires c < |s.conns| && !s.closed
    ensures AddsTrue(s, RemoveConnection(s, c)) && !RemoveConnection(s, c).closed
  {
    ReleaseTrue(Unlist(s, c), c);
    assert Verdicts(Unlist(s, c)) == Verdicts(s);
  }

  /** The second removal of a connection. */
  lemma RemoveStaysTrue(s: State, c: Conn)
    requires c < |s.conns| && !s.closed && c !in s.all && c !in s.free
    ensures StaysTrue(s, RemoveConnection(s, c))
  {
    var u := Unlist(s, c);
    if c !in s.acquiring {
      ServeStaysTrue(u);
    }
  }

  /** A purge with its two services: what the first one reports is still true after the second. */
  lemma PurgeTrue(s: State, c: Conn)
    requires c < |s.conns| && !s.closed && StructureBut(s, {c})
    ensures AddsTrue(s, PurgeConnection(s, c)) && !PurgeConnection(s, c).closed
  {
    PurgeIsPurged(s, c);
    if !s.conns[c].Disconnected() {
      RemoveTrue(s, c);
      SameTruth(RemoveConnection(s, c), PurgeConnection(s, c));
      TrueThrough(s, RemoveConnection(s, c), PurgeConnection(s, c));
    } else if s.conns[c].pooled {
      DestroyedIsLoose(s, c);
      var e := SetPooled(SetLink(s, c, Ended), c, false);
      TwiceRemovedTrue(e, c);
      assert Verdicts(e) == Verdicts(s);
    } else {
      var d := SetLink(s, c, Ended);
      RemoveTrue(d, c);
      assert Verdicts(d) == Verdicts(s);
    }
  }

  lemma TwiceRemovedTrue(s: State, c: Conn)
    requires c < |s.conns| && !s.closed && StructureBut(s, {c})
    ensures AddsTrue(s, RemoveConnection(RemoveConnection(s, c), c))
    ensures !RemoveConnection(RemoveConnection(s, c), c).closed
  {
    var t := RemoveConnection(s, c);
    RemoveKeepsStructure(s, c);
    RemoveTrue(s, c);
    RemoveTrue(t, c);
    RemoveStaysTrue(t, c);
    TrueThrough(s, t, RemoveConnection(t, c));
  }

  lemma RemoveFromPoolTrue(s: State, c: Conn)
    requires c < |s.conns| && !s.closed && StructureBut(s, {c})
    ensures AddsTrue(s, RemoveFromPool(s, c))
  {
    if s.conns[c].pooled {
      LooseUpdate(s, c, s.conns[c].(pooled := false));
      var u := SetPooled(s, c, false);
      PurgeTrue(u, c);
      assert Verdicts(u) == Verdicts(s);
    }
  }

  lemma EndedTrue(s: State, c: Conn)
    requires c < |s.conns| && !s.closed && Structure(s)
    ensures AddsTrue(s, RemoveFromPool(SetLink(s, c, Ended), c))
  {
    var u := SetLink(s, c, Ended);
    Loosen(s, c);
    LooseUpdate(s, c, s.conns[c].(link := Ended));
    RemoveFromPoolTrue(u, c);
    assert Verdicts(u) == Verdicts(s);
  }

  lemma GivenBackTrue(s: State, c: Conn)
    requires c < |s.conns| && !s.closed && Structure(s)
    ensures AddsTrue(s, ReleaseByUser(GiveBack(s, c), c))
    ensures AddsTrue(s, ReleaseConnection(GiveBack(s, c), c))
    ensures AddsTrue(s, Destroy(GiveBack(s, c), c))
  {
    var u := GiveBack(s, c);
    SameStructure(s, u);
    ReleaseTrue(u, c);
    EndedTrue(u, c);
    assert Verdicts(u) == Verdicts(s);
  }

  lemma CallBackTrue(s: State, t: State, r: Request, outcome: Outcome)
    requires AddsTrue(s, t) && True(t, outcome)
    ensures AddsTrue(s, CallBack(t, r, outcome))
  {
  }

  lemma FailTrue(s: State, op: Op)
    requires op.conn < |s.conns| && !s.closed && Structure(s)
    ensures AddsTrue(s, Fail(s, op))
  {
    if op.connect {
      Loosen(s, op.conn);
      PurgeTrue(s, op.conn);
      CallBackTrue(s, PurgeConnection(s, op.conn), op.request, Failed(OperationError));
    } else {
      var u := s.(queue := [op.request] + s.queue);
      SameStructure(s, u);
      Loosen(u, op.conn);
      PurgeTrue(u, op.conn);
      assert Verdicts(u) == Verdicts(s);
    }
  }

  lemma CompleteTrue(s: State, i: nat, failed: bool)
    requires Structure(s) && !s.closed && Enabled(s, OpDone(i, failed))
    ensures AddsTrue(s, Complete(s, i, failed))
  {
    OverKeepsStructure(s, i);
    assert Verdicts(Over(s, i)) == Verdicts(s);
    if failed {
      FailTrue(Over(s, i), s.pending[i]);
    }
  }

  lemma DeliverTrue(s: State)
    requires s.scheduled != []
    ensures AddsTrue(s, Deliver(s))
  {
    assert s.scheduled[0] in s.scheduled;
    forall d | d in Verdicts(Deliver(s)) ensures d in Verdicts(s) {
      if d !in s.delivered && d != Delivery(s.scheduled[0].request, Failed(s.scheduled[0].code)) {
        var n :| n in s.scheduled[1..] && d == Delivery(n.request, Failed(n.code));
        assert n in s.scheduled;
      }
    }
  }

  lemma AskTrue(s: State)
    requires !s.closed
    ensures AddsTrue(s, Ask(s))
  {
    var u := Issue(s);
    GetTrue(u, s.issued);
    assert Verdicts(u) == Verdicts(s);
  }

  lemma OpenTrue(s: State, step: Step)
    requires Structure(s) && Enabled(s, step) && !s.closed && !step.UserEnd?
    ensures AddsTrue(s, Next(s, step))
  {
    match step
    case UserGet => AskTrue(s);
    case UserRelease(c) => GivenBackTrue(s, c);
    case PoolRelease(c) => GivenBackTrue(s, c);
    case StrayRelease => ServeTrue(s);
    case UserDestroy(c) => GivenBackTrue(s, c);
    case SocketUp(c) => SameTruth(s, SetLink(s, c, Connected));
    case ConnectionEnd(c) => EndedTrue(s, c);
    case FatalError(c) =>
      Loosen(s, c);
      RemoveFromPoolTrue(s, c);
    case OpDone(i, failed) => CompleteTrue(s, i, failed);
    case Tick => DeliverTrue(s);
  }

  /** A step that tells a request of a limit leaves the pool at that limit. */
  lemma NextTrue(s: State, step: Step)
    requires Structure(s) && Enabled(s, step)
    ensures AddsTrue(s, Next(s, step))
  {
    if s.closed {
      NextOnlyClosed(s, step);
    } else if step.UserEnd? {
      PurgeAllOnlyClosed(s.(closed := true));
      assert Verdicts(s.(closed := true)) == Verdicts(s);
    } else {
      OpenTrue(s, step);
    }
  }

  /** `d` was settled by step `k` of the run, which went from `a` to a state of which it is true. */
  ghost predicate SettledAt(s: State, steps: seq<Step>, k: nat, a: State, d: Delivery) {
    && k < |steps| && Reaches(s, steps[..k], a) && Enabled(a, steps[k])
    && d !in Verdicts(a) && d in Verdicts(Next(a, steps[k])) && True(Next(a, steps[k]), d.outcome)
  }

  lemma {:induction false} RunTrue(s: State, steps: seq<Step>, t: State, d: Delivery) returns (k: nat, a: State)
    requires Structure(s) && Reaches(s, steps, t) && d in Verdicts(t) && d !in Verdicts(s)
    ensures SettledAt(s, steps, k, a, d)
    decreases |steps|
  {
    var next := Next(s, steps[0]);
    if d in Verdicts(next) {
      NextTrue(s, steps[0]);
      k, a := 0, s;
    } else {
      NextKeepsStructure(s, steps[0]);
      var j;
      j, a := RunTrue(next, steps[1..], t, d);
      k := j + 1;
      assert steps[..k][1..] == steps[1..][..j];
    }
  }

  /** In every run, whatever a callback was or will be told was true of the pool when it was settled. */
  lemma ErrorsAreTrue(config: Config, steps: seq<Step>, s: State, d: Delivery)
    requires Reaches(Init(config), steps, s) && d in Verdicts(s)
    ensures exists k, a :: SettledAt(Init(config), steps, k, a, d)
  {
    InitIsSound(config);
    assert Verdicts(Init(config)) == {};
    var k, a := RunTrue(Init(config), steps, s, d);
  }
}
