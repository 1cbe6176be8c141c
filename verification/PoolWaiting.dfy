/** Who waits has something to wait for: a connection that somebody holds, or an operation in progress. */
module PoolWaiting {
  import opened Lists
  import opened PoolModel
  import opened PoolInvariants
  import opened PoolSupply
  import opened PoolRuns
  import opened PoolShutdown

  /** Every listed connection outside `loose` is free, being acquired, or in the hands of a user. */
  ghost predicate Accounted(s: State, loose: set<Conn>) {
    forall c :: c in s.all && c !in loose ==> c in s.free || c in s.acquiring || c in s.held
  }

  lemma GetAccounts(s: State, r: Request, loose: set<Conn>)
    requires Accounted(s, loose)
    ensures Accounted(GetConnection(s, r), loose)
  {
    var t := GetConnection(s, r);
    forall c | c in t.all && c !in loose ensures c in t.free || c in t.acquiring || c in t.held {
      assert c in s.all || c == |s.conns|;
    }
  }

  lemma ServeAccounts(s: State, loose: set<Conn>)
    requires Accounted(s, loose)
    ensures Accounted(ServeQueue(s), loose)
  {
    if !s.closed && |s.queue| > 0 {
      GetAccounts(s.(queue := s.queue[1..]), s.queue[0], loose);
    }
  }

  /** A release accounts for the released connection. */
  lemma ReleaseAccounts(s: State, c: Conn)
    requires c < |s.conns| && Accounted(s, {c}) && (s.conns[c].pooled <==> c in s.all)
    ensures Accounted(ReleaseConnection(s, c), {})
  {
    if c !in s.acquiring {
      if !s.conns[c].pooled {
        ServeAccounts(s, {});
      } else if c !in s.free {
        ServeAccounts(s.(free := s.free + [c]), {});
      }
    }
  }

  /** So does a removal. */
  lemma RemoveAccounts(s: State, c: Conn)
    requires c < |s.conns| && NoDup(s.all) && Accounted(s, {c})
    ensures Accounted(RemoveConnection(s, c), {})
  {
    WithoutNoDup(s.all, c);
    ReleaseAccounts(Unlist(s, c), c);
  }

  lemma TwiceRemovedAccounts(s: State, c: Conn)
    requires c < |s.conns| && StructureBut(s, {c}) && Accounted(s, {c})
    ensures Accounted(RemoveConnection(RemoveConnection(s, c), c), {})
  {
    RemoveAccounts(s, c);
    RemoveKeepsStructure(s, c);
    RemoveAccounts(RemoveConnection(s, c), c);
  }

  lemma PurgeAccounts(s: State, c: Conn)
    requires c < |s.conns| && StructureBut(s, {c}) && Accounted(s, {c})
    ensures Accounted(PurgeConnection(s, c), {})
  {
    PurgeIsPurged(s, c);
    if !s.conns[c].Disconnected() {
      RemoveAccounts(s, c);
    } else {
      var d := SetLink(s, c, Ended);
      if s.conns[c].pooled && !s.closed {
        DestroyedIsLoose(s, c);
        TwiceRemovedAccounts(SetPooled(d, c, false), c);
      } else {
        RemoveAccounts(d, c);
      }
    }
  }

  lemma RemoveFromPoolAccounts(s: State, c: Conn)
    requires c < |s.conns| && StructureBut(s, {c}) && Accounted(s, {c}) && !s.closed &&
             (s.conns[c].pooled <==> c in s.all)
    ensures Accounted(RemoveFromPool(s, c), {})
  {
    if s.conns[c].pooled {
      LooseUpdate(s, c, s.conns[c].(pooled := false));
      PurgeAccounts(SetPooled(s, c, false), c);
    }
  }

  lemma EndedAccounts(s: State, c: Conn)
    requires c < |s.conns| && Structure(s) && Accounted(s, {c}) && !s.closed
    ensures Accounted(RemoveFromPool(SetLink(s, c, Ended), c), {})
  {
    assert Fits(s, c);
    Loosen(s, c);
    LooseUpdate(s, c, s.conns[c].(link := Ended));
    RemoveFromPoolAccounts(SetLink(s, c, Ended), c);
  }

  lemma GivenBackAccounts(s: State, c: Conn)
    requires c < |s.conns| && Structure(s) && Accounted(s, {}) && !s.closed
    ensures Accounted(ReleaseByUser(GiveBack(s, c), c), {})
    ensures Accounted(ReleaseConnection(GiveBack(s, c), c), {})
    ensures Accounted(Destroy(GiveBack(s, c), c), {})
  {
    var g := GiveBack(s, c);
    SameStructure(s, g);
    assert Fits(s, c);
    assert Accounted(g, {c});
    ReleaseAccounts(g, c);
    EndedAccounts(g, c);
  }

  lemma CompleteAccounts(s: State, i: nat, failed: bool)
    requires Structure(s) && Accounted(s, {}) && !s.closed && Enabled(s, OpDone(i, failed))
    ensures Accounted(Complete(s, i, failed), {})
  {
    var o, op := Over(s, i), s.pending[i];
    OverKeepsStructure(s, i);
    forall c | c in s.acquiring && c != op.conn ensures c in o.acquiring {
      assert c in Elements(s.acquiring);
    }
    assert Accounted(o, {op.conn});
    if failed {
      var u := if op.connect then o else o.(queue := [op.request] + s.queue);
      SameStructure(o, u);
      Loosen(u, op.conn);
      PurgeAccounts(u, op.conn);
    }
  }

  lemma OpenAccounts(s: State, step: Step)
    requires Structure(s) && Accounted(s, {}) && Enabled(s, step) && !s.closed && !step.UserEnd?
    ensures Accounted(Next(s, step), {})
  {
    match step
    case UserGet => GetAccounts(Issue(s), s.issued, {});
    case UserRelease(c) => GivenBackAccounts(s, c);
    case PoolRelease(c) => GivenBackAccounts(s, c);
    case StrayRelease => ServeAccounts(s, {});
    case UserDestroy(c) => GivenBackAccounts(s, c);
    case SocketUp(c) =>
    case ConnectionEnd(c) => EndedAccounts(s, c);
    case FatalError(c) =>
      assert Fits(s, c);
      Loosen(s, c);
      RemoveFromPoolAccounts(s, c);
    case OpDone(i, failed) => CompleteAccounts(s, i, failed);
    case Tick =>
  }

  lemma NextAccounts(s: State, step: Step)
    requires Invariant(s) && Accounted(s, {}) && Enabled(s, step)
    ensures Accounted(Next(s, step), {})
  {
    if s.closed {
      NextOnlyClosed(s, step);
      NextKeepsQueueing(s, step);
    } else if step.UserEnd? {
      PurgeAllOnlyClosed(s.(closed := true));
      NextKeepsQueueing(s, step);
    } else {
      OpenAccounts(s, step);
    }
  }

  lemma {:induction false} RunAccounts(s: State, steps: seq<Step>, t: State)
    requires Invariant(s) && Accounted(s, {}) && Reaches(s, steps, t)
    ensures Accounted(t, {})
    decreases |steps|
  {
    if steps != [] {
      NextKeepsInvariant(s, steps[0]);
      NextAccounts(s, steps[0]);
      RunAccounts(Next(s, steps[0]), steps[1..], t);
    }
  }

  /** In every run of the pool no listed connection is forgotten. */
  lemma EveryConnectionIsAccounted(config: Config, steps: seq<Step>, s: State, c: Conn)
    requires Reaches(Init(config), steps, s) && c in s.all
    ensures c in s.free || c in s.acquiring || c in s.held
  {
    InitIsSound(config);
    RunAccounts(Init(config), steps, s);
  }

  /** No waiter is stranded: in an open pool an operation is in progress, or some user holds a listed connection. */
  lemma NobodyIsStranded(config: Config, steps: seq<Step>, s: State)
    requires Reaches(Init(config), steps, s) && !s.closed && s.queue != []
    ensures s.pending != [] || exists c :: c in s.all && c in s.held
  {
    NoLostWakeup(config, steps, s);
    EveryRunIsSound(config, steps, s);
    var occupied := Elements(s.all) + Elements(s.acquiring);
    assert occupied != {};
    var c :| c in occupied;
    if c !in s.acquiring {
      EveryConnectionIsAccounted(config, steps, s, c);
    }
  }
}
