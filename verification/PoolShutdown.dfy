/** What becomes of the pool, and of everybody still waiting, once `end` was called. */
module PoolShutdown {
  import opened Lists
  import opened PoolModel
  import opened PoolInvariants
  import opened PoolSupply
  import opened PoolRuns

  /** The outcomes that are settled: callbacks called, and callbacks scheduled with an error. */
  ghost function Verdicts(s: State): set<Delivery> {
    (set d | d in s.delivered) + (set n | n in s.scheduled :: Delivery(n.request, Failed(n.code)))
  }

  /** Between two states of a closed pool nothing is settled in another way than by POOL_CLOSED. */
  ghost predicate OnlyClosed(s: State, t: State) {
    && t.closed
    && (forall d :: d in Verdicts(t) ==> d in Verdicts(s) || d.outcome == Failed(PoolClosed))
  }

  lemma ServeOnlyClosed(s: State)
    requires s.closed
    ensures OnlyClosed(s, ServeQueue(s))
  {
  }

  lemma PurgeOnlyClosed(s: State, c: Conn)
    requires c < |s.conns| && s.closed
    ensures OnlyClosed(s, PurgeConnection(s, c))
  {
    PurgeIsPurged(s, c);
    ServeOnlyClosed(Unlist(s, c));
    ServeOnlyClosed(Unlist(SetLink(s, c, Ended), c));
  }

  lemma {:induction false} PurgeAllOnlyClosed(s: State)
    requires s.closed && forall c :: c in s.all ==> c < |s.conns|
    ensures OnlyClosed(s, PurgeAll(s))
    decreases |s.all|
  {
    if s.all != [] {
      assert s.all[0] in s.all;
      PurgeWhenClosed(s, s.all[0]);
      PurgeOnlyClosed(s, s.all[0]);
      PurgeAllOnlyClosed(PurgeConnection(s, s.all[0]));
    }
  }

  lemma CompleteOnlyClosed(s: State, i: nat, failed: bool)
    requires s.closed && i < |s.pending| && s.pending[i].conn < |s.conns|
    ensures OnlyClosed(s, Complete(s, i, failed))
  {
    var op := s.pending[i];
    PurgeOnlyClosed(Over(s, i), op.conn);
    PurgeOnlyClosed(Over(s, i).(queue := [op.request] + s.queue), op.conn);
  }

  lemma NextOnlyClosed(s: State, step: Step)
    requires s.closed && Enabled(s, step)
    ensures OnlyClosed(s, Next(s, step))
  {
    match step
    case UserGet =>
    case UserRelease(c) =>
    case PoolRelease(c) =>
      ServeOnlyClosed(GiveBack(s, c));
      ServeOnlyClosed(GiveBack(s, c).(free := s.free + [c]));
    case StrayRelease => ServeOnlyClosed(s);
    case UserDestroy(c) =>
      var u := SetLink(GiveBack(s, c), c, Ended);
      assert Next(s, step) == RemoveFromPool(u, c) == u;
    case UserEnd => PurgeAllOnlyClosed(s.(closed := true));
    case SocketUp(c) =>
    case ConnectionEnd(c) =>
    case FatalError(c) =>
    case OpDone(i, failed) => CompleteOnlyClosed(s, i, failed);
    case Tick => assert s.scheduled[0] in s.scheduled;
  }

  lemma {:induction false} RunOnlyClosed(s: State, steps: seq<Step>, t: State)
    requires s.closed && Reaches(s, steps, t)
    ensures OnlyClosed(s, t)
    decreases |steps|
  {
    if steps != [] {
      NextOnlyClosed(s, steps[0]);
      RunOnlyClosed(Next(s, steps[0]), steps[1..], t);
    }
  }

  /** `end` leaves no connection in the pool, and from then on there is none. */
  lemma EndEmptiesThePool(config: Config, steps: seq<Step>, s: State)
    requires Reaches(Init(config), steps, s) && s.closed
    ensures s.all == [] && s.free == []
    ensures forall c: Conn | c < |s.conns| :: !s.conns[c].pooled
  {
    EveryRunIsSound(config, steps, s);
    EmptyOrInhabited(s.free);
    forall c: Conn | c < |s.conns| ensures !s.conns[c].pooled {
      assert Fits(s, c);
    }
  }

  /** No connection is handed out after `end`. */
  lemma NothingHandedOutAfterEnd(s: State, steps: seq<Step>, t: State, r: Request, c: Conn)
    requires s.closed && Reaches(s, steps, t)
    requires Delivery(r, Given(c)) in t.delivered
    ensures Delivery(r, Given(c)) in s.delivered
  {
    RunOnlyClosed(s, steps, t);
    assert Delivery(r, Given(c)) in Verdicts(t);
  }

  lemma {:induction false} ReachesConcat(a: State, xs: seq<Step>, b: State, ys: seq<Step>, c: State)
    requires Reaches(a, xs, b) && Reaches(b, ys, c)
    ensures Reaches(a, xs + ys, c)
    decreases |xs|
  {
    if xs == [] {
      assert xs + ys == ys;
    } else {
      assert (xs + ys)[1..] == xs[1..] + ys;
      ReachesConcat(Next(a, xs[0]), xs[1..], b, ys, c);
    }
  }

  /**
  Shutdown drains: once nothing is in progress or scheduled any more, nobody waits, and every request that was
  unsettled when the pool closed, or came later, was called back with POOL_CLOSED.
  */
  lemma ShutdownDrains(config: Config, before: seq<Step>, s: State, after: seq<Step>, t: State, r: Request)
    requires Reaches(Init(config), before, s) && s.closed && Reaches(s, after, t)
    requires t.pending == [] && t.scheduled == []
    ensures t.queue == []
    ensures r < t.issued && (forall d :: d in Verdicts(s) ==> d.request != r) ==>
              Delivery(r, Failed(PoolClosed)) in t.delivered
  {
    ReachesConcat(Init(config), before, s, after, t);
    EveryRunIsSound(config, before + after, t);
    RunOnlyClosed(s, after, t);
    assert t.acquiring == [];
    if r < t.issued && forall d :: d in Verdicts(s) ==> d.request != r {
      CallbacksAreConserved(config, before + after, t, r);
      var reqs := DeliveryRequests(t.delivered);
      assert r in reqs;
      var i :| 0 <= i < |reqs| && reqs[i] == r;
      assert t.delivered[i] in Verdicts(t);
    }
  }
}
