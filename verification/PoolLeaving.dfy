/** How connections leave the pool, and that they do so for good. */
module PoolLeaving {
  import opened Lists
  import opened PoolModel
  import opened PoolInvariants
  import opened PoolExclusive
  import opened PoolRuns
  import opened PoolSupply

  // ----- What the operations do to the list and to what was let go -----

  /** Only what is in `gone` leaves the list or ends, nothing becomes pooled again, and no callback is called. */
  ghost predicate LosesOnly(s: State, t: State, gone: set<Conn>) {
    && |s.conns| <= |t.conns| && t.delivered == s.delivered && t.held == s.held && t.closed == s.closed
    && (forall c :: c in s.all && c !in gone ==> c in t.all)
    && (forall c: Conn :: c < |s.conns| && !s.conns[c].pooled ==> !t.conns[c].pooled)
    && (forall c: Conn :: c < |t.conns| && c !in gone ==> SameStanding(s, t, c))
    && StartsOnly(s, t)
  }

  /** A connection that an operation may be started on: a new one, or one of the pool. */
  predicate Usable(s: State, c: Conn) {
    c >= |s.conns| || s.conns[c].pooled || c in s.free
  }

  ghost predicate StartsOnly(s: State, t: State) {
    && (forall c :: c in t.free ==> Usable(s, c))
    && (forall op :: op in t.pending ==> op in s.pending || Usable(s, op.conn))
  }

  /** A connection of `t` has neither ended nor been let go since `s`. */
  predicate SameStanding(s: State, t: State, c: Conn)
    requires c < |t.conns|
  {
    && (t.conns[c].link.Ended? ==> c < |s.conns| && s.conns[c].link.Ended?)
    && (!t.conns[c].pooled ==> c < |s.conns| && !s.conns[c].pooled)
  }

  lemma GetLoses(s: State, r: Request)
    ensures LosesOnly(s, GetConnection(s, r), {})
  {
  }

  lemma ServeLoses(s: State)
    ensures LosesOnly(s, ServeQueue(s), {})
  {
    if !s.closed && |s.queue| > 0 {
      GetLoses(s.(queue := s.queue[1..]), s.queue[0]);
    }
  }

  lemma ReleaseLoses(s: State, c: Conn)
    requires c < |s.conns|
    ensures LosesOnly(s, ReleaseConnection(s, c), {})
  {
    ServeLoses(s);
    ServeLoses(s.(free := s.free + [c]));
  }

  lemma RemoveLoses(s: State, c: Conn)
    requires c < |s.conns|
    ensures LosesOnly(s, RemoveConnection(s, c), {c})
  {
    ReleaseLoses(Unlist(s, c), c);
  }

  lemma LosesTwice(s: State, u: State, t: State, gone: set<Conn>)
    requires LosesOnly(s, u, gone) && LosesOnly(u, t, gone)
    ensures LosesOnly(s, t, gone)
  {
  }

  lemma OwnEntry(s: State, c: Conn, info: ConnInfo)
    requires c < |s.conns| && (info.pooled ==> s.conns[c].pooled)
    ensures LosesOnly(s, s.(conns := s.conns[c := info]), {c})
  {
  }

  lemma PurgeLoses(s: State, c: Conn)
    requires c < |s.conns|
    ensures LosesOnly(s, PurgeConnection(s, c), {c})
  {
    PurgeIsPurged(s, c);
    if !s.conns[c].Disconnected() {
      var t := RemoveConnection(s, c);
      RemoveLoses(s, c);
      OwnEntry(t, c, t.conns[c].(quitting := true));
      LosesTwice(s, t, Quit(t, c), {c});
    } else {
      var d := SetLink(s, c, Ended);
      OwnEntry(s, c, d.conns[c]);
      if s.conns[c].pooled && !s.closed {
        RemoveTwiceLoses(d, c);
      } else {
        RemoveLoses(d, c);
      }
      LosesTwice(s, d, Purged(s, c), {c});
    }
  }

  lemma RemoveTwiceLoses(d: State, c: Conn)
    requires c < |d.conns|
    ensures LosesOnly(d, RemoveConnection(RemoveConnection(SetPooled(d, c, false), c), c), {c})
  {
    var e := SetPooled(d, c, false);
    var t := RemoveConnection(e, c);
    OwnEntry(d, c, e.conns[c]);
    RemoveLoses(e, c);
    RemoveLoses(t, c);
    LosesTwice(d, e, t, {c});
    LosesTwice(d, t, RemoveConnection(t, c), {c});
  }

  lemma RemoveFromPoolLoses(s: State, c: Conn)
    requires c < |s.conns|
    ensures LosesOnly(s, RemoveFromPool(s, c), {c})
  {
    if s.conns[c].pooled && !s.closed {
      var u := SetPooled(s, c, false);
      OwnEntry(s, c, u.conns[c]);
      PurgeLoses(u, c);
      LosesTwice(s, u, PurgeConnection(u, c), {c});
    }
  }

  lemma LosesWider(s: State, t: State, gone: set<Conn>, wider: set<Conn>)
    requires LosesOnly(s, t, gone) && gone <= wider
    ensures LosesOnly(s, t, wider)
  {
  }

  lemma {:induction false} PurgeAllLoses(s: State, gone: set<Conn>)
    requires s.closed && forall c :: c in s.all ==> c < |s.conns| && c in gone
    ensures LosesOnly(s, PurgeAll(s), gone)
    decreases |s.all|
  {
    if s.all != [] {
      var c := s.all[0];
      assert c in s.all;
      var t := PurgeConnection(s, c);
      PurgeWhenClosed(s, c);
      PurgeLoses(s, c);
      LosesWider(s, t, {c}, gone);
      PurgeAllLoses(t, gone);
      LosesTwice(s, t, PurgeAll(t), gone);
    }
  }

  // ----- Steps -----

  /** The steps that take a connection out of an open pool. */
  predicate TakesOut(s: State, step: Step, c: Conn) {
    match step
    case UserEnd => true
    case ConnectionEnd(d) => d == c
    case FatalError(d) => d == c
    case UserDestroy(d) => d == c
    case OpDone(i, failed) => i < |s.pending| && s.pending[i].conn == c && failed
    case _ => false
  }

  /** A step calls back at most once, and gives a connection only when an operation on it has succeeded. */
  ghost predicate Gives(s: State, step: Step, t: State) {
    || (t.delivered == s.delivered && t.held <= s.held)
    || (&& |t.delivered| == |s.delivered| + 1 && t.delivered[..|s.delivered|] == s.delivered
        && var d := t.delivered[|s.delivered|];
           if d.outcome.Failed? then t.held <= s.held
           else
             && step.OpDone? && !step.failed && !s.closed && step.index < |s.pending|
             && d == Delivery(s.pending[step.index].request, Given(s.pending[step.index].conn))
             && t.held == s.held + multiset{s.pending[step.index].conn})
  }

  /** What a step does to connections: those it does not take out stay, and none comes back. */
  ghost predicate KeepsOthers(s: State, step: Step, t: State) {
    && |s.conns| <= |t.conns| && (t.closed <==> s.closed || step.UserEnd?)
    && (forall c :: c in s.all && !TakesOut(s, step, c) && !s.closed ==> c in t.all)
    && (forall c: Conn :: c < |s.conns| && !s.conns[c].pooled ==> !t.conns[c].pooled)
    && (forall c: Conn :: c < |t.conns| && !t.closed && !TakesOut(s, step, c) ==> SameStanding(s, t, c))
    && StartsOnly(s, t)
  }

  /** `u` is `s` when an operation begins: something may have been given back, and what is taken out may have ended. */
  ghost predicate Begins(s: State, u: State, gone: set<Conn>) {
    && u.all == s.all && u.delivered == s.delivered && u.held <= s.held && u.closed == s.closed
    && |u.conns| == |s.conns| && u.free == s.free && (forall op :: op in u.pending ==> op in s.pending)
    && (forall c: Conn :: c < |s.conns| ==>
          u.conns[c].pooled == s.conns[c].pooled && (c !in gone ==> u.conns[c].link == s.conns[c].link))
  }

  lemma OperationGives(s: State, u: State, t: State, gone: set<Conn>, step: Step)
    requires Begins(s, u, gone) && LosesOnly(u, t, gone)
    requires !step.UserEnd? && forall c :: c in gone && !s.closed ==> TakesOut(s, step, c)
    ensures Gives(s, step, t) && KeepsOthers(s, step, t)
  {
  }

  lemma CompleteGives(s: State, i: nat, failed: bool)
    requires Enabled(s, OpDone(i, failed))
    ensures var t := Complete(s, i, failed); Gives(s, OpDone(i, failed), t) && KeepsOthers(s, OpDone(i, failed), t)
  {
    var op, u := s.pending[i], Over(s, i);
    if s.closed || failed {
      var v := if op.connect then u else u.(queue := [op.request] + u.queue);
      assert forall op :: op in v.pending ==> op in s.pending;
      PurgeGives(s, v, i, failed);
      if op.connect {
        var code := if s.closed then PoolClosed else OperationError;
        FailureGives(s, OpDone(i, failed), PurgeConnection(v, op.conn), op.request, code);
      }
    }
  }

  lemma PurgeGives(s: State, v: State, i: nat, failed: bool)
    requires Enabled(s, OpDone(i, failed)) && (s.closed || failed)
    requires Begins(s, v, {}) && v.held == s.held
    ensures var t := PurgeConnection(v, s.pending[i].conn);
            t.delivered == s.delivered && t.held == s.held && KeepsOthers(s, OpDone(i, failed), t)
  {
    var c := s.pending[i].conn;
    PurgeLoses(v, c);
    OperationGives(s, v, PurgeConnection(v, c), {c}, OpDone(i, failed));
  }

  lemma FailureGives(s: State, step: Step, t: State, r: Request, code: Code)
    requires t.delivered == s.delivered && t.held == s.held && KeepsOthers(s, step, t)
    ensures Gives(s, step, CallBack(t, r, Failed(code))) && KeepsOthers(s, step, CallBack(t, r, Failed(code)))
  {
  }

  lemma ReleaseGives(s: State, c: Conn)
    requires c < |s.conns|
    ensures var t := ReleaseConnection(GiveBack(s, c), c);
            Gives(s, PoolRelease(c), t) && KeepsOthers(s, PoolRelease(c), t)
    ensures var t := ReleaseByUser(GiveBack(s, c), c);
            Gives(s, UserRelease(c), t) && KeepsOthers(s, UserRelease(c), t)
  {
    var u := GiveBack(s, c);
    ReleaseLoses(u, c);
    OperationGives(s, u, ReleaseConnection(u, c), {}, PoolRelease(c));
    OperationGives(s, u, ReleaseConnection(u, c), {}, UserRelease(c));
  }

  lemma DropGives(s: State, u: State, c: Conn, step: Step)
    requires c < |s.conns| && Begins(s, u, {c}) && TakesOut(s, step, c) && !step.UserEnd?
    ensures var t := RemoveFromPool(u, c); Gives(s, step, t) && KeepsOthers(s, step, t)
  {
    RemoveFromPoolLoses(u, c);
    OperationGives(s, u, RemoveFromPool(u, c), {c}, step);
  }

  lemma DestroyGives(s: State, c: Conn)
    requires c < |s.conns|
    ensures var t := Destroy(GiveBack(s, c), c); Gives(s, UserDestroy(c), t) && KeepsOthers(s, UserDestroy(c), t)
  {
    DropGives(s, SetLink(GiveBack(s, c), c, Ended), c, UserDestroy(c));
  }

  lemma ConnectionEndGives(s: State, c: Conn)
    requires c < |s.conns|
    ensures var t := RemoveFromPool(SetLink(s, c, Ended), c);
            Gives(s, ConnectionEnd(c), t) && KeepsOthers(s, ConnectionEnd(c), t)
  {
    DropGives(s, SetLink(s, c, Ended), c, ConnectionEnd(c));
  }

  lemma EndGives(s: State)
    requires Enabled(s, UserEnd)
    ensures var t := End(s); Gives(s, UserEnd, t) && KeepsOthers(s, UserEnd, t)
  {
    PurgeAllLoses(s.(closed := true), Elements(s.all));
  }

  lemma AskGives(s: State)
    ensures Gives(s, UserGet, Ask(s)) && KeepsOthers(s, UserGet, Ask(s))
  {
    GetLoses(Issue(s), s.issued);
    OperationGives(s, Issue(s), Ask(s), {}, UserGet);
  }

  lemma StrayGives(s: State)
    ensures Gives(s, StrayRelease, ServeQueue(s)) && KeepsOthers(s, StrayRelease, ServeQueue(s))
  {
    ServeLoses(s);
    OperationGives(s, s, ServeQueue(s), {}, StrayRelease);
  }

  lemma StepGives(s: State, step: Step)
    requires Enabled(s, step)
    ensures var t := Next(s, step); Gives(s, step, t) && KeepsOthers(s, step, t)
  {
    match step
    case UserGet => AskGives(s);
    case UserRelease(c) => ReleaseGives(s, c);
    case PoolRelease(c) => ReleaseGives(s, c);
    case StrayRelease => StrayGives(s);
    case UserDestroy(c) => DestroyGives(s, c);
    case UserEnd => EndGives(s);
    case SocketUp(_) =>
    case ConnectionEnd(c) => ConnectionEndGives(s, c);
    case FatalError(c) => DropGives(s, s, c, step);
    case OpDone(i, failed) => CompleteGives(s, i, failed);
    case Tick =>
  }

  // ----- Taken out -----

  lemma RemovedFromPool(s: State, c: Conn)
    requires c < |s.conns| && StructureBut(s, {c}) && !s.closed && (!s.conns[c].pooled ==> c !in s.all)
    ensures c !in RemoveFromPool(s, c).all
  {
    if s.conns[c].pooled {
      LooseUpdate(s, c, s.conns[c].(pooled := false));
      PurgeKeepsStructure(SetPooled(s, c, false), c);
    }
  }

  lemma FailedIsOut(s: State, i: nat)
    requires Structure(s) && Enabled(s, OpDone(i, true))
    ensures s.pending[i].conn !in Complete(s, i, true).all
  {
    var op, u := s.pending[i], Over(s, i);
    OverKeepsStructure(s, i);
    var v := if op.connect then u else u.(queue := [op.request] + u.queue);
    SameStructure(u, v);
    Loosen(v, op.conn);
    PurgeKeepsStructure(v, op.conn);
  }

  lemma EndedIsOut(s: State, c: Conn)
    requires Structure(s) && c < |s.conns| && !s.closed
    ensures c !in RemoveFromPool(SetLink(s, c, Ended), c).all && c !in RemoveFromPool(s, c).all
  {
    assert Fits(s, c);
    Loosen(s, c);
    LooseUpdate(s, c, s.conns[c].(link := Ended));
    RemovedFromPool(SetLink(s, c, Ended), c);
    RemovedFromPool(s, c);
  }

  lemma TakenOut(s: State, step: Step, c: Conn)
    requires Structure(s) && Enabled(s, step) && !s.closed && TakesOut(s, step, c)
    ensures c !in Next(s, step).all
  {
    match step
    case UserEnd =>
      SameStructure(s, s.(closed := true));
      PurgeAllKeepsStructure(s.(closed := true));
    case UserDestroy(_) =>
      SameStructure(s, GiveBack(s, c));
      EndedIsOut(GiveBack(s, c), c);
    case ConnectionEnd(_) => EndedIsOut(s, c);
    case FatalError(_) => EndedIsOut(s, c);
    case OpDone(i, _) => FailedIsOut(s, i);
  }

  /** A listed connection of an open pool leaves it in a step exactly if the step takes it out. */
  lemma LeavesExactlyBy(config: Config, steps: seq<Step>, s: State, step: Step, c: Conn)
    requires Reaches(Init(config), steps, s) && Enabled(s, step) && !s.closed
    ensures c in s.all ==> (c !in Next(s, step).all <==> TakesOut(s, step, c))
    ensures TakesOut(s, step, c) ==> c !in Next(s, step).all && c !in Next(s, step).free
  {
    EveryRunIsSound(config, steps, s);
    StepGives(s, step);
    if TakesOut(s, step, c) {
      TakenOut(s, step, c);
      NextKeepsStructure(s, step);
    }
  }

  /** No connection that has ended is listed, so none is free. */
  ghost predicate NoneEnded(s: State) {
    forall c: Conn :: c < |s.conns| && s.conns[c].link.Ended? ==> c !in s.all
  }

  lemma NextNoneEnded(s: State, step: Step)
    requires Invariant(s) && NoneEnded(s) && Enabled(s, step)
    ensures NoneEnded(Next(s, step))
  {
    var t := Next(s, step);
    NextKeepsInvariant(s, step);
    StepGives(s, step);
    forall c: Conn | c < |t.conns| && t.conns[c].link.Ended? ensures c !in t.all {
      if !t.closed {
        if TakesOut(s, step, c) {
          TakenOut(s, step, c);
        } else {
          assert SameStanding(s, t, c) && Fits(s, c) && Fits(t, c);
        }
      }
    }
  }

  lemma {:induction false} RunNoneEnded(s: State, steps: seq<Step>, t: State)
    requires Invariant(s) && NoneEnded(s) && Reaches(s, steps, t)
    ensures NoneEnded(t)
    decreases |steps|
  {
    if steps != [] {
      NextKeepsInvariant(s, steps[0]);
      NextNoneEnded(s, steps[0]);
      RunNoneEnded(Next(s, steps[0]), steps[1..], t);
    }
  }

  /** In every state of every run a connection that has ended is neither listed nor free. */
  lemma EndedIsUnlisted(config: Config, steps: seq<Step>, s: State, c: Conn)
    requires Reaches(Init(config), steps, s) && c < |s.conns| && s.conns[c].link.Ended?
    ensures c !in s.all && c !in s.free
  {
    InitIsSound(config);
    EveryRunIsSound(config, steps, s);
    RunNoneEnded(Init(config), steps, s);
  }

  // ----- For good -----

  /** From `s` on nothing more happens with `c`: it stays out, and is neither started on nor given to anybody. */
  ghost predicate LeftAlone(s: State, t: State, c: Conn) {
    && c < |s.conns| <= |t.conns| && !t.conns[c].pooled && c !in t.all && c !in t.free
    && (forall op :: op in t.pending && op.conn == c ==> op in s.pending)
    && |s.delivered| <= |t.delivered| && t.delivered[..|s.delivered|] == s.delivered
    && (forall i :: |s.delivered| <= i < |t.delivered| ==> t.delivered[i].outcome != Given(c))
    && t.held[c] <= s.held[c]
  }

  lemma StepLeavesAlone(s: State, step: Step, t: State, c: Conn)
    requires Structure(s) && Structure(t) && Enabled(s, step) && Gives(s, step, t) && KeepsOthers(s, step, t)
    requires c < |s.conns| && c !in s.all
    ensures LeftAlone(s, t, c)
  {
    assert Fits(s, c) && Fits(t, c);
  }

  lemma NextLeavesAlone(s: State, step: Step, c: Conn)
    requires Invariant(s) && Enabled(s, step) && c < |s.conns| && c !in s.all
    ensures LeftAlone(s, Next(s, step), c)
  {
    NextKeepsStructure(s, step);
    StepGives(s, step);
    StepLeavesAlone(s, step, Next(s, step), c);
  }

  lemma LeftAloneStill(s: State, u: State, t: State, c: Conn)
    requires LeftAlone(s, u, c) && LeftAlone(u, t, c)
    ensures LeftAlone(s, t, c)
  {
    var n, m := |s.delivered|, |u.delivered|;
    assert t.delivered[..n] == t.delivered[..m][..n];
    forall i | n <= i < |t.delivered| ensures t.delivered[i].outcome != Given(c) {
      if i < m {
        assert t.delivered[i] == t.delivered[..m][i];
      }
    }
  }

  lemma {:induction false} RunLeavesAlone(s: State, steps: seq<Step>, t: State, c: Conn)
    requires Invariant(s) && Reaches(s, steps, t) && c < |s.conns| && c !in s.all
    ensures LeftAlone(s, t, c)
    decreases |steps|
  {
    assert Fits(s, c);
    if steps != [] {
      var u := Next(s, steps[0]);
      NextKeepsInvariant(s, steps[0]);
      NextLeavesAlone(s, steps[0], c);
      RunLeavesAlone(u, steps[1..], t, c);
      LeftAloneStill(s, u, t, c);
    }
  }

  /** A connection that has left the pool, at any time of any run, is left alone ever after. */
  lemma LeftForGood(config: Config, before: seq<Step>, s: State, after: seq<Step>, t: State, c: Conn)
    requires Reaches(Init(config), before, s) && Reaches(s, after, t) && c < |s.conns| && c !in s.all
    ensures LeftAlone(s, t, c)
  {
    EveryRunIsSound(config, before, s);
    RunLeavesAlone(s, after, t, c);
  }

  /** It is up, listed, not free and not quitting, and was acquired for that request. */
  ghost predicate ReadyFor(s: State, c: Conn, r: Request) {
    && c < |s.conns| && c in s.all && c !in s.free && s.conns[c].link.Connected? && !s.conns[c].quitting
    && exists op :: op in s.pending && op.conn == c && op.request == r
  }

  lemma GivenIsReady(s: State, step: Step, t: State, i: nat)
    requires Structure(s) && Enabled(s, step) && Gives(s, step, t)
    requires |s.delivered| <= i < |t.delivered| && t.delivered[i].outcome.Given?
    ensures !s.closed && ReadyFor(s, t.delivered[i].outcome.conn, t.delivered[i].request)
  {
    var op := s.pending[step.index];
    assert Fits(s, op.conn) && s.acquiring[step.index] == op.conn && op in s.pending;
  }

  /** Whatever connection a step gives to anybody was ready for it. */
  lemma GivenIsGood(config: Config, steps: seq<Step>, s: State, step: Step, i: nat)
    requires Reaches(Init(config), steps, s) && Enabled(s, step)
    requires |s.delivered| <= i < |Next(s, step).delivered| && Next(s, step).delivered[i].outcome.Given?
    ensures var d := Next(s, step).delivered[i]; !s.closed && ReadyFor(s, d.outcome.conn, d.request)
  {
    EveryRunIsSound(config, steps, s);
    StepGives(s, step);
    GivenIsReady(s, step, Next(s, step), i);
  }
}
