/** First come, first served: runs in which nobody can overtake. */
module PoolFairness {
  import opened Lists
  import opened PoolModel
  import opened PoolInvariants
  import opened PoolSupply
  import opened PoolRuns
  import opened PoolStarts
  import opened PoolLines
  import opened PoolOrder

  // ----- Connections being acquired stay listed -----

  /** Every connection being acquired is listed. */
  ghost predicate Listed(s: State) {
    s.closed || forall c :: c in s.acquiring ==> c in s.all
  }

  /** While every connection being acquired is listed, there is no room as long as somebody waits. */
  lemma FullWhileWaiting(s: State)
    requires Invariant(s) && !s.closed && s.queue != [] && Listed(s)
    ensures !Room(s)
  {
    assert Occupied(s) == Elements(s.all);
    NoDupSize(s.all);
  }

  lemma GetStaysListed(s: State, r: Request)
    requires Listing(s) && Listed(s)
    ensures Listed(GetConnection(s, r))
  {
    if !s.closed && s.free != [] {
      assert s.free[0] in s.free;
    }
  }

  lemma ServeStaysListed(s: State)
    requires Listing(s) && Listed(s)
    ensures Listed(ServeQueue(s))
  {
    if !s.closed && s.queue != [] {
      GetStaysListed(s.(queue := s.queue[1..]), s.queue[0]);
    }
  }

  lemma ReleaseStaysListed(s: State, c: Conn)
    requires Listing(s) && Listed(s) && c < |s.conns| && (s.conns[c].pooled ==> c in s.all)
    ensures Listed(ReleaseConnection(s, c))
  {
    if c !in s.acquiring {
      if !s.conns[c].pooled {
        ServeStaysListed(s);
      } else if c !in s.free {
        NoDupSnoc(s.free, c);
        ServeStaysListed(s.(free := s.free + [c]));
      }
    }
  }

  /** Only a connection that is not being acquired may be taken off the list. */
  lemma RemoveStaysListed(s: State, c: Conn)
    requires StructureBut(s, {c}) && Listed(s) && c < |s.conns| && c !in s.acquiring
    ensures Listed(RemoveConnection(s, c)) && c !in RemoveConnection(s, c).acquiring
  {
    var u := Unlist(s, c);
    UnlistKeepsStructure(s, c);
    assert RemoveConnection(s, c) == ServeQueue(u);
    ServeStaysListed(u);
    NotTaken(u, c);
  }

  lemma PurgeStaysListed(s: State, c: Conn)
    requires StructureBut(s, {c}) && Listed(s) && c < |s.conns| && c !in s.acquiring
    ensures Listed(PurgeConnection(s, c))
  {
    PurgeIsPurged(s, c);
    if !s.conns[c].Disconnected() {
      RemoveStaysListed(s, c);
    } else {
      DestroyedIsLoose(s, c);
      var d := SetLink(s, c, Ended);
      if s.conns[c].pooled && !s.closed {
        var e := SetPooled(d, c, false);
        RemoveStaysListed(e, c);
        RemoveKeepsStructure(e, c);
        RemoveStaysListed(RemoveConnection(e, c), c);
      } else {
        RemoveStaysListed(d, c);
      }
    }
  }

  lemma DropStaysListed(s: State, c: Conn)
    requires StructureBut(s, {c}) && Listed(s) && c < |s.conns| && c !in s.acquiring
    ensures Listed(RemoveFromPool(s, c))
  {
    LooseUpdate(s, c, s.conns[c].(pooled := false));
    if s.conns[c].pooled && !s.closed {
      PurgeStaysListed(SetPooled(s, c, false), c);
    }
  }

  lemma CompleteStaysListed(s: State, i: nat, failed: bool)
    requires Structure(s) && Listed(s) && !s.closed && i < |s.pending| && s.pending[i].conn < |s.conns|
    ensures Listed(Complete(s, i, failed))
  {
    var o, op := Over(s, i), s.pending[i];
    OverKeepsStructure(s, i);
    Loosen(o, op.conn);
    if failed {
      if op.connect {
        PurgeStaysListed(o, op.conn);
      } else {
        var u := Requeued(s, i);
        SameStructure(o, u);
        Loosen(u, op.conn);
        PingFails(s, i);
        PurgeStaysListed(u, op.conn);
      }
    }
  }

  /** The step ends no connection that is being acquired. */
  predicate SparesAcquiring(s: State, step: Step) {
    step.UserDestroy? || step.ConnectionEnd? || step.FatalError? ==> step.conn !in s.acquiring
  }

  /** Whatever fails, connections being acquired stay listed as long as none of them is ended. */
  lemma NextStaysListed(s: State, step: Step)
    requires Structure(s) && Listed(s) && !s.closed && Enabled(s, step) && SparesAcquiring(s, step)
    requires !step.UserEnd?
    ensures Listed(Next(s, step))
  {
    match step
    case UserGet => GetStaysListed(Issue(s), s.issued);
    case UserRelease(c) =>
      assert Fits(s, c);
      ReleaseStaysListed(GiveBack(s, c), c);
    case PoolRelease(c) =>
      assert Fits(s, c);
      ReleaseStaysListed(GiveBack(s, c), c);
    case StrayRelease => ServeStaysListed(s);
    case UserDestroy(c) =>
      SameStructure(s, GiveBack(s, c));
      EndedStaysListed(GiveBack(s, c), c);
    case SocketUp(c) =>
    case ConnectionEnd(c) => EndedStaysListed(s, c);
    case FatalError(c) =>
      Loosen(s, c);
      DropStaysListed(s, c);
    case OpDone(i, failed) => CompleteStaysListed(s, i, failed);
    case Tick =>
  }

  lemma EndedStaysListed(s: State, c: Conn)
    requires Structure(s) && Listed(s) && c < |s.conns| && c !in s.acquiring
    ensures Listed(RemoveFromPool(SetLink(s, c, Ended), c))
  {
    Loosen(s, c);
    DestroyedIsLoose(s, c);
    DropStaysListed(SetLink(s, c, Ended), c);
  }

  // ----- Nobody overtakes -----

  ghost predicate SparingRun(s: State, steps: seq<Step>)
    decreases |steps|
  {
    steps != [] ==>
      Enabled(s, steps[0]) && SparesAcquiring(s, steps[0]) && SparingRun(Next(s, steps[0]), steps[1..])
  }

  lemma NextSpares(s: State, step: Step)
    requires Invariant(s) && Listed(s) && Enabled(s, step) && (s.closed || SparesAcquiring(s, step))
    ensures Invariant(Next(s, step)) && Listed(Next(s, step))
  {
    NextKeepsInvariant(s, step);
    if s.closed || step.UserEnd? {
      ClosedStartsNothing(s, step);
    } else {
      NextStaysListed(s, step);
    }
  }

  lemma {:induction false} SparingRunsStayListed(s: State, steps: seq<Step>, t: State)
    requires Invariant(s) && Listed(s) && SparingRun(s, steps) && Reaches(s, steps, t)
    ensures Invariant(t) && Listed(t)
    decreases |steps|
  {
    if steps != [] {
      NextSpares(s, steps[0]);
      SparingRunsStayListed(Next(s, steps[0]), steps[1..], t);
    }
  }

  /** As long as no connection ends while it is being acquired, no new request is started while somebody waits. */
  lemma NobodyOvertakes(config: Config, steps: seq<Step>, s: State)
    requires SparingRun(Init(config), steps) && Reaches(Init(config), steps, s) && !s.closed && s.queue != []
    ensures Ask(s).started == s.started && s.queue <= Ask(s).queue
  {
    InitIsSound(config);
    SparingRunsStayListed(Init(config), steps, s);
    FullWhileWaiting(s);
    AskLine(s);
  }

  /** A step that spares connections being acquired and keeps the order.  Nothing is asked of new requests. */
  ghost predicate Calm(s: State, step: Step)
    requires Enabled(s, step)
  {
    s.closed || (SparesAcquiring(s, step) && (step.UserGet? || KeepsOrder(s, step)))
  }

  ghost predicate CalmRun(s: State, steps: seq<Step>)
    decreases |steps|
  {
    steps != [] ==> Enabled(s, steps[0]) && Calm(s, steps[0]) && CalmRun(Next(s, steps[0]), steps[1..])
  }

  lemma {:induction false} CalmRunsKeepOrder(s: State, steps: seq<Step>)
    requires Invariant(s) && Listed(s) && CalmRun(s, steps)
    ensures KeepingRun(s, steps)
    decreases |steps|
  {
    if steps != [] {
      if !s.closed && s.queue != [] {
        FullWhileWaiting(s);
      }
      NextSpares(s, steps[0]);
      CalmRunsKeepOrder(Next(s, steps[0]), steps[1..]);
    }
  }

  /** In a calm run new requests do no harm: the order is kept. */
  lemma CalmRunsAreInOrder(config: Config, steps: seq<Step>, s: State)
    requires CalmRun(Init(config), steps) && Reaches(Init(config), steps, s)
    ensures KeepingRun(Init(config), steps)
    ensures !s.closed ==> InOrder(s.started + s.queue)
  {
    InitIsSound(config);
    CalmRunsKeepOrder(Init(config), steps);
    KeepingRunsAreInOrder(config, steps, s);
  }

  // ----- Runs without failures -----

  /** No operation fails, no connection ends, and what is given back is a connection of this pool. */
  predicate Peaceful(step: Step) {
    match step
    case UserGet => true
    case UserRelease(_) => true
    case PoolRelease(_) => true
    case UserEnd => true
    case SocketUp(_) => true
    case OpDone(_, failed) => !failed
    case Tick => true
    case _ => false
  }

  /** All connections ever made belong to the pool. */
  ghost predicate AllPooled(s: State) {
    s.closed || forall c: Conn | c < |s.conns| :: s.conns[c].pooled
  }

  lemma PeacefulStaysPooled(s: State, step: Step)
    requires AllPooled(s) && Enabled(s, step) && Peaceful(step)
    ensures AllPooled(Next(s, step))
  {
    if s.closed || step.UserEnd? {
      ClosedStartsNothing(s, step);
    } else {
      match step
      case UserGet => GetStaysPooled(Issue(s), s.issued);
      case UserRelease(c) => ReleaseStaysPooled(GiveBack(s, c), c);
      case PoolRelease(c) => ReleaseStaysPooled(GiveBack(s, c), c);
      case SocketUp(c) =>
      case OpDone(i, failed) =>
      case Tick =>
    }
  }

  lemma PeacefulIsCalm(s: State, step: Step)
    requires AllPooled(s) && Enabled(s, step) && Peaceful(step)
    ensures Calm(s, step) && !FailsPing(s, step)
  {
  }

  lemma GetStaysPooled(s: State, r: Request)
    requires AllPooled(s)
    ensures AllPooled(GetConnection(s, r))
  {
  }

  lemma ReleaseStaysPooled(s: State, c: Conn)
    requires AllPooled(s) && !s.closed && c < |s.conns|
    ensures AllPooled(ReleaseConnection(s, c)) && AllPooled(ReleaseByUser(s, c))
  {
    var u := s.(free := s.free + [c]);
    if c !in s.acquiring && c !in s.free && s.queue != [] {
      GetStaysPooled(u.(queue := u.queue[1..]), u.queue[0]);
    }
  }

  lemma {:induction false} PeacefulRunsAreCalm(s: State, steps: seq<Step>, t: State)
    requires AllPooled(s) && Reaches(s, steps, t) && forall step :: step in steps ==> Peaceful(step)
    ensures CalmRun(s, steps) && SparingRun(s, steps) && NoPingFails(s, steps)
    decreases |steps|
  {
    if steps != [] {
      assert steps[0] in steps;
      assert forall step :: step in steps[1..] ==> step in steps;
      PeacefulIsCalm(s, steps[0]);
      PeacefulStaysPooled(s, steps[0]);
      PeacefulRunsAreCalm(Next(s, steps[0]), steps[1..], t);
    }
  }

  /**
  First come, first served: in every run in which no operation fails and no connection ends, requests are given
  connections in the order of their arrival, each once, and nobody is started before a request that waits and came
  earlier.
  */
  lemma FirstComeFirstServed(config: Config, steps: seq<Step>, s: State)
    requires Reaches(Init(config), steps, s) && forall step :: step in steps ==> Peaceful(step)
    ensures Ascending(s.started)
    ensures !s.closed ==> Ascending(s.started + s.queue)
    ensures !s.closed && s.queue != [] ==> Ask(s).started == s.started
  {
    PeacefulRunsAreCalm(Init(config), steps, s);
    CalmRunsAreInOrder(config, steps, s);
    KeepingRunsAreInOrder(config, steps, s);
    if !s.closed && s.queue != [] {
      NobodyOvertakes(config, steps, s);
    }
  }
}
