/** No waiter is stranded: what the waiting queue tells about the rest of the pool, kept by every step. */
module PoolSupply {
  import opened Lists
  import opened PoolModel
  import opened PoolInvariants

  /** The connections that count against new ones: listed, or still being acquired although no longer listed. */
  ghost function Occupied(s: State): set<Conn> {
    Elements(s.all) + Elements(s.acquiring)
  }

  /** While somebody waits in an open pool, nothing is free and the limit is used up. */
  ghost predicate Supplied(s: State) {
    s.closed || s.queue == [] ||
    (s.free == [] && s.config.connectionLimit > 0 && |Occupied(s)| >= s.config.connectionLimit)
  }

  ghost predicate QueueWithin(s: State) {
    && (s.config.queueLimit > 0 ==> |s.queue| <= s.config.queueLimit)
    && (!s.config.waitForConnections ==> s.queue == [])
  }

  /** The state `releaseConnection` may be in when it gets to the queue: at most one connection short. */
  ghost predicate OneShort(s: State) {
    && (s.closed || |s.queue| <= 1 ||
        (s.config.connectionLimit > 0 && |s.free| <= 1 &&
         |Occupied(s)| + 1 - |s.free| >= s.config.connectionLimit))
    && (s.config.queueLimit > 0 ==> |s.queue| <= s.config.queueLimit + 1)
    && (!s.config.waitForConnections ==> |s.queue| <= 1)
  }

  lemma ListedAreOccupied(s: State)
    requires Listing(s)
    ensures |s.all| <= |Occupied(s)|
  {
    NoDupSize(s.all);
    SubsetSize(Elements(s.all), Occupied(s));
  }

  lemma OpeningOccupies(s: State, r: Request)
    requires Listing(s)
    ensures |Occupied(OpenConnection(s, r))| == |Occupied(s)| + 1
  {
    var c := |s.conns|;
    ElementsSnoc(s.all, c);
    ElementsSnoc(s.acquiring, c);
    assert c !in Occupied(s);
    assert Occupied(OpenConnection(s, r)) == Elements(s.all) + {c} + (Elements(s.acquiring) + {c}) == Occupied(s) + {c};
    SetSnocSize(Occupied(s), c);
  }

  lemma GetKeepsSupply(s: State, r: Request)
    requires Listing(s) && Supplied(s) && QueueWithin(s)
    ensures Supplied(GetConnection(s, r)) && QueueWithin(GetConnection(s, r))
  {
    ListedAreOccupied(s);
    OpeningOccupies(s, r);
  }

  lemma AcquiringKeepsOccupied(s: State, r: Request)
    requires Listing(s) && s.free != []
    ensures Occupied(AcquireConnection(s.(free := s.free[1..]), s.free[0], r)) == Occupied(s)
  {
    assert s.free[0] in s.free;
  }

  /** Asking once more makes up for one connection lost: `s` has lost it, and its first waiter was taken off. */
  lemma GetRestoresSupply(s: State, r: Request)
    requires Listing(s) && !s.closed
    requires s.queue == [] ||
             (s.config.connectionLimit > 0 && |s.free| <= 1 &&
              |Occupied(s)| + 1 - |s.free| >= s.config.connectionLimit)
    requires QueueWithin(s)
    ensures Supplied(GetConnection(s, r)) && QueueWithin(GetConnection(s, r))
  {
    if s.free != [] {
      AcquiringKeepsOccupied(s, r);
    } else if s.config.connectionLimit == 0 || |s.all| < s.config.connectionLimit {
      OpeningOccupies(s, r);
    } else {
      ListedAreOccupied(s);
      SameOccupied(s, GetConnection(s, r));
    }
  }

  lemma SameOccupied(s: State, t: State)
    requires t.all == s.all && t.acquiring == s.acquiring
    ensures Occupied(t) == Occupied(s)
  {
  }

  lemma ServeRestoresSupply(s: State)
    requires Listing(s) && OneShort(s)
    ensures Supplied(ServeQueue(s)) && QueueWithin(ServeQueue(s))
    ensures s.closed ==> ServeQueue(s).queue == []
  {
    if !s.closed && |s.queue| > 0 {
      var u := s.(queue := s.queue[1..]);
      assert Occupied(u) == Occupied(s);
      GetRestoresSupply(u, s.queue[0]);
    }
  }

  lemma ReleaseKeepsSupply(s: State, c: Conn)
    requires c < |s.conns| && Listing(s) && Supplied(s) && QueueWithin(s)
    requires s.conns[c].pooled ==> c in s.all
    ensures Supplied(ReleaseConnection(s, c)) && QueueWithin(ReleaseConnection(s, c))
  {
    if c !in s.acquiring {
      if !s.conns[c].pooled {
        ServeRestoresSupply(s);
      } else if c !in s.free {
        var u := s.(free := s.free + [c]);
        NoDupSnoc(s.free, c);
        assert Occupied(u) == Occupied(s);
        ServeRestoresSupply(u);
      }
    }
  }

  /** Supply as seen when `c` no longer counts as being acquired. */
  ghost predicate SuppliedBut(s: State, c: Conn) {
    && (s.closed || |s.queue| <= 1 ||
        (s.free == [] && s.config.connectionLimit > 0 && |Occupied(s) + {c}| >= s.config.connectionLimit))
    && (s.config.queueLimit > 0 ==> |s.queue| <= s.config.queueLimit + 1)
    && (!s.config.waitForConnections ==> |s.queue| <= 1)
  }

  /** A connection that is no longer being acquired stops counting when it is unlisted. */
  lemma UnlistedIsOneShort(s: State, c: Conn)
    requires c < |s.conns| && StructureBut(s, {c}) && c !in s.acquiring && SuppliedBut(s, c)
    ensures Listing(Unlist(s, c)) && OneShort(Unlist(s, c))
  {
    UnlistKeepsStructure(s, c);
    var u := Unlist(s, c);
    assert Occupied(s) + {c} == Occupied(u) + {c};
    assert c !in Occupied(u);
    SetSnocSize(Occupied(u), c);
  }

  lemma RemoveRestoresSupply(s: State, c: Conn)
    requires c < |s.conns| && StructureBut(s, {c})
    requires if c in s.acquiring then Supplied(s) && QueueWithin(s) else SuppliedBut(s, c)
    ensures Supplied(RemoveConnection(s, c)) && QueueWithin(RemoveConnection(s, c))
    ensures s.closed && c !in s.acquiring ==> RemoveConnection(s, c).queue == []
  {
    var u := Unlist(s, c);
    if c in s.acquiring {
      assert Occupied(u) == Occupied(s);
    } else {
      UnlistedIsOneShort(s, c);
      ServeRestoresSupply(u);
    }
  }

  lemma SuppliedImpliesBut(s: State, c: Conn)
    requires Supplied(s) && QueueWithin(s)
    ensures SuppliedBut(s, c)
  {
    SubsetSize(Occupied(s), Occupied(s) + {c});
  }

  lemma TwiceRemovedSupplies(s: State, c: Conn)
    requires c < |s.conns| && StructureBut(s, {c}) && !s.closed
    requires if c in s.acquiring then Supplied(s) && QueueWithin(s) else SuppliedBut(s, c)
    ensures var t := RemoveConnection(RemoveConnection(s, c), c); Supplied(t) && QueueWithin(t)
  {
    RemoveRestoresSupply(s, c);
    RemoveKeepsStructure(s, c);
    var t := RemoveConnection(s, c);
    SuppliedImpliesBut(t, c);
    RemoveRestoresSupply(t, c);
  }

  /** A purge in an open pool leaves the waiters supplied. */
  lemma PurgeRestoresSupply(s: State, c: Conn)
    requires c < |s.conns| && StructureBut(s, {c}) && !s.closed
    requires if c in s.acquiring then Supplied(s) && QueueWithin(s) else SuppliedBut(s, c)
    ensures Supplied(PurgeConnection(s, c)) && QueueWithin(PurgeConnection(s, c))
  {
    PurgeIsPurged(s, c);
    if !s.conns[c].Disconnected() {
      RemoveRestoresSupply(s, c);
      var t := RemoveConnection(s, c);
      assert Occupied(Quit(t, c)) == Occupied(t);
    } else {
      DestroyedIsLoose(s, c);
      var d := SetLink(s, c, Ended);
      SameOccupied(s, d);
      if s.conns[c].pooled {
        var e := SetPooled(d, c, false);
        SameOccupied(s, e);
        TwiceRemovedSupplies(e, c);
      } else {
        RemoveRestoresSupply(d, c);
      }
    }
  }

  // ----- After `end` -----

  /** A closed pool lists nothing, and keeps waiters only while some operation is in progress. */
  ghost predicate Drained(s: State) {
    s.closed ==> s.all == [] && (s.acquiring == [] ==> s.queue == [])
  }

  lemma PurgeFlushesClosed(s: State, c: Conn)
    requires c < |s.conns| && s.closed
    ensures PurgeConnection(s, c).acquiring == s.acquiring
    ensures c !in s.acquiring ==> PurgeConnection(s, c).queue == []
    ensures c in s.acquiring ==> PurgeConnection(s, c).queue == s.queue
  {
    PurgeIsPurged(s, c);
  }

  lemma {:induction false} PurgeAllFlushes(s: State)
    requires Structure(s) && s.closed
    ensures PurgeAll(s).acquiring == s.acquiring
    ensures s.queue == [] ==> PurgeAll(s).queue == []
    ensures |PurgeAll(s).queue| <= |s.queue|
    ensures s.acquiring == [] && s.all != [] ==> PurgeAll(s).queue == []
    decreases |s.all|
  {
    if s.all != [] {
      var c := s.all[0];
      assert c in s.all;
      Loosen(s, c);
      PurgeKeepsStructure(s, c);
      PurgeWhenClosed(s, c);
      PurgeFlushesClosed(s, c);
      PurgeAllFlushes(PurgeConnection(s, c));
    }
  }

  lemma EndDrains(s: State)
    requires Structure(s) && Supplied(s) && Drained(s)
    ensures Drained(End(s)) && |End(s).queue| <= |s.queue|
  {
    var u := s.(closed := true);
    SameStructure(s, u);
    PurgeAllKeepsStructure(u);
    PurgeAllFlushes(u);
    if s.all == [] && s.acquiring == [] && !s.closed {
      assert Occupied(s) == {};
    }
  }

  // ----- All steps -----

  /** The waiting queue is in order: supplied, within its limit, and drained after `end`. */
  ghost predicate Queueing(s: State) {
    Supplied(s) && QueueWithin(s) && Drained(s)
  }

  lemma PurgeKeepsQueueing(s: State, c: Conn)
    requires c < |s.conns| && StructureBut(s, {c})
    requires s.closed ==> s.all == [] && c !in s.acquiring
    requires !s.closed ==> if c in s.acquiring then Supplied(s) && QueueWithin(s) else SuppliedBut(s, c)
    ensures Queueing(PurgeConnection(s, c))
  {
    PurgeKeepsStructure(s, c);
    if s.closed {
      PurgeWhenClosed(s, c);
      PurgeFlushesClosed(s, c);
    } else {
      PurgeRestoresSupply(s, c);
    }
  }

  lemma RemoveFromPoolKeepsQueueing(s: State, c: Conn)
    requires c < |s.conns| && StructureBut(s, {c}) && Queueing(s)
    ensures Queueing(RemoveFromPool(s, c))
  {
    if s.conns[c].pooled && !s.closed {
      LooseUpdate(s, c, s.conns[c].(pooled := false));
      var u := SetPooled(s, c, false);
      assert Occupied(u) == Occupied(s);
      SuppliedImpliesBut(u, c);
      PurgeKeepsQueueing(u, c);
    }
  }

  /** With its operation over, the pool may be short of the connection it worked with. */
  lemma OverIsShort(s: State, i: nat)
    requires Structure(s) && Queueing(s) && i < |s.pending|
    ensures Structure(Over(s, i)) && SuppliedBut(Over(s, i), s.pending[i].conn)
    ensures SuppliedBut(Over(s, i).(queue := [s.pending[i].request] + s.queue), s.pending[i].conn)
    ensures s.closed ==> s.all == []
    ensures s.pending[i].conn in s.all ==> Occupied(Over(s, i)) == Occupied(s)
  {
    OverKeepsStructure(s, i);
    OverOccupies(s, i);
  }

  lemma OverOccupies(s: State, i: nat)
    requires Structure(s) && i < |s.pending|
    ensures Occupied(Over(s, i)) + {s.pending[i].conn} == Occupied(s)
    ensures Occupied(Over(s, i).(queue := [s.pending[i].request] + s.queue)) == Occupied(Over(s, i))
  {
    OverKeepsStructure(s, i);
  }

  lemma FailKeepsQueueing(s: State, op: Op)
    requires Structure(s) && op.conn < |s.conns| && op.conn !in s.acquiring
    requires s.closed ==> s.all == []
    requires SuppliedBut(if op.connect then s else s.(queue := [op.request] + s.queue), op.conn)
    ensures Queueing(Fail(s, op))
  {
    if op.connect {
      Loosen(s, op.conn);
      PurgeKeepsQueueing(s, op.conn);
      SameQueueing(PurgeConnection(s, op.conn), Fail(s, op));
    } else {
      var u := s.(queue := [op.request] + s.queue);
      SameStructure(s, u);
      Loosen(u, op.conn);
      PurgeKeepsQueueing(u, op.conn);
    }
  }

  lemma CompleteKeepsQueueing(s: State, i: nat, failed: bool)
    requires Structure(s) && Queueing(s) && Enabled(s, OpDone(i, failed))
    ensures Queueing(Complete(s, i, failed))
  {
    OverIsShort(s, i);
    if s.closed || failed {
      OverKeepsStructure(s, i);
      FailKeepsQueueing(Over(s, i), s.pending[i]);
    } else {
      assert Fits(s, s.pending[i].conn);
      assert Occupied(Complete(s, i, failed)) == Occupied(Over(s, i));
    }
  }

  lemma SameQueueing(s: State, t: State)
    requires Queueing(s)
    requires t.all == s.all && t.free == s.free && t.acquiring == s.acquiring && t.queue == s.queue
    requires t.closed == s.closed && t.config == s.config
    ensures Queueing(t)
  {
    assert Occupied(t) == Occupied(s);
  }

  lemma ReleaseKeepsQueueing(s: State, c: Conn)
    requires Structure(s) && Queueing(s) && c < |s.conns|
    ensures Queueing(ReleaseConnection(s, c))
  {
    assert Fits(s, c);
    if !s.closed {
      ReleaseKeepsSupply(s, c);
      ReleaseKeepsStructure(s, c, {});
    }
  }

  lemma UserGetKeepsQueueing(s: State)
    requires Structure(s) && Queueing(s)
    ensures Queueing(Ask(s))
  {
    var u := Issue(s);
    SameQueueing(s, u);
    if !s.closed {
      GetKeepsSupply(u, s.issued);
    }
  }

  lemma GivenBackKeepsQueueing(s: State, c: Conn)
    requires Structure(s) && Queueing(s) && c < |s.conns|
    ensures Queueing(ReleaseByUser(GiveBack(s, c), c))
    ensures Queueing(ReleaseConnection(GiveBack(s, c), c))
    ensures Queueing(Destroy(GiveBack(s, c), c))
  {
    var u := GiveBack(s, c);
    SameQueueing(s, u);
    SameStructure(s, u);
    ReleaseKeepsQueueing(u, c);
    EndedKeepsQueueing(u, c);
  }

  lemma StrayKeepsQueueing(s: State)
    requires Structure(s) && Queueing(s)
    ensures Queueing(ServeQueue(s))
  {
    ServeRestoresSupply(s);
    ServeKeepsStructure(s, {});
  }

  lemma EndKeepsQueueing(s: State)
    requires Structure(s) && Queueing(s)
    ensures Queueing(End(s))
  {
    EndDrains(s);
    SameStructure(s, s.(closed := true));
    PurgeAllKeepsStructure(s.(closed := true));
  }

  lemma NextKeepsQueueing(s: State, step: Step)
    requires Structure(s) && Queueing(s) && Enabled(s, step)
    ensures Queueing(Next(s, step))
  {
    match step
    case UserGet => UserGetKeepsQueueing(s);
    case UserRelease(c) => GivenBackKeepsQueueing(s, c);
    case PoolRelease(c) => GivenBackKeepsQueueing(s, c);
    case StrayRelease => StrayKeepsQueueing(s);
    case UserDestroy(c) => GivenBackKeepsQueueing(s, c);
    case UserEnd => EndKeepsQueueing(s);
    case SocketUp(c) => SameQueueing(s, SetLink(s, c, Connected));
    case ConnectionEnd(c) => EndedKeepsQueueing(s, c);
    case FatalError(c) =>
      Loosen(s, c);
      RemoveFromPoolKeepsQueueing(s, c);
    case OpDone(i, failed) => CompleteKeepsQueueing(s, i, failed);
    case Tick => SameQueueing(s, Deliver(s));
  }

  lemma EndedKeepsQueueing(s: State, c: Conn)
    requires Structure(s) && Queueing(s) && c < |s.conns|
    ensures Queueing(RemoveFromPool(SetLink(s, c, Ended), c))
  {
    Loosen(s, c);
    LooseUpdate(s, c, s.conns[c].(link := Ended));
    SameQueueing(s, SetLink(s, c, Ended));
    RemoveFromPoolKeepsQueueing(SetLink(s, c, Ended), c);
  }
}
