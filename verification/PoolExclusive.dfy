/** Exclusive use of connections. */
module PoolExclusive {
  import opened Lists
  import opened PoolModel
  import opened PoolInvariants

  /** Users give back only connections they hold. */
  predicate Fair(s: State, step: Step) {
    match step
    case UserRelease(c) => c in s.held
    case PoolRelease(c) => c in s.held
    case UserDestroy(c) => c in s.held
    case _ => true
  }

  ghost predicate FairRun(s: State, steps: seq<Step>)
    decreases |steps|
  {
    steps != [] ==>
      Enabled(s, steps[0]) && Fair(s, steps[0]) && FairRun(Next(s, steps[0]), steps[1..])
  }

  /** The connections the pool may hand out, now or when an operation on them completes. */
  ghost function Available(s: State): set<Conn> {
    Elements(s.free) + Elements(s.acquiring)
  }

  /** A connection in use is held once, and the pool does not offer it to anybody else. */
  ghost predicate Exclusive(s: State) {
    forall c :: c in s.held ==> s.held[c] == 1 && c < |s.conns| && c !in Available(s)
  }

  /** `t` offers nothing that `s` did not offer, except new connections and those in `back`. */
  ghost predicate OffersNoMore(s: State, t: State, back: set<Conn>) {
    && t.held == s.held
    && |s.conns| <= |t.conns|
    && (forall c :: c in Available(t) ==> c in Available(s) || c in back || c >= |s.conns|)
  }

  lemma OffersStayExclusive(s: State, t: State, back: set<Conn>)
    requires Exclusive(s) && OffersNoMore(s, t, back)
    requires forall c :: c in back ==> c !in s.held
    ensures Exclusive(t)
  {
  }

  lemma GetOffersNoMore(s: State, r: Request)
    ensures OffersNoMore(s, GetConnection(s, r), {})
  {
    assert s.free == [] || s.free[0] in s.free;
  }

  lemma ServeOffersNoMore(s: State)
    ensures OffersNoMore(s, ServeQueue(s), {})
  {
    if !s.closed && |s.queue| > 0 && |s.free| > 0 {
      assert s.free[0] in s.free;
    }
  }

  lemma ReleaseOffersNoMore(s: State, c: Conn)
    requires c < |s.conns|
    ensures OffersNoMore(s, ReleaseConnection(s, c), if s.conns[c].pooled then {c} else {})
  {
    ServeOffersNoMore(s);
    var u := s.(free := s.free + [c]);
    ServeOffersNoMore(u);
    assert Available(u) == Available(s) + {c};
  }

  lemma RemoveOffersNoMore(s: State, c: Conn)
    requires c < |s.conns|
    ensures OffersNoMore(s, RemoveConnection(s, c), {})
  {
    ReleaseOffersNoMore(Unlist(s, c), c);
  }

  lemma PurgeOffersNoMore(s: State, c: Conn)
    requires c < |s.conns|
    ensures OffersNoMore(s, PurgeConnection(s, c), {})
  {
    PurgeIsPurged(s, c);
    if !s.conns[c].Disconnected() {
      RemoveOffersNoMore(s, c);
    } else {
      var d := SetLink(s, c, Ended);
      var e := SetPooled(d, c, false);
      RemoveOffersNoMore(d, c);
      RemoveOffersNoMore(e, c);
      RemoveOffersNoMore(RemoveConnection(e, c), c);
    }
  }

  lemma {:induction false} PurgeAllOffersNoMore(s: State)
    requires s.closed && forall c :: c in s.all ==> c < |s.conns|
    ensures OffersNoMore(s, PurgeAll(s), {})
    decreases |s.all|
  {
    if s.all != [] {
      assert s.all[0] in s.all;
      PurgeWhenClosed(s, s.all[0]);
      PurgeOffersNoMore(s, s.all[0]);
      PurgeAllOffersNoMore(PurgeConnection(s, s.all[0]));
    }
  }

  lemma RemoveFromPoolOffersNoMore(s: State, c: Conn)
    requires c < |s.conns|
    ensures OffersNoMore(s, RemoveFromPool(s, c), {})
  {
    PurgeOffersNoMore(SetPooled(s, c, false), c);
  }

  /** The connection of an operation that is over is no longer offered, and was held by nobody. */
  lemma OverOffersLess(s: State, i: nat)
    requires Structure(s) && Exclusive(s) && i < |s.pending|
    ensures Exclusive(Over(s, i)) && s.pending[i].conn !in s.held
    ensures s.pending[i].conn !in Available(Over(s, i)) && s.pending[i].conn < |s.conns|
  {
    var c := s.pending[i].conn;
    assert s.acquiring[i] == c;
    WithoutNoDup(s.acquiring, c);
    assert c in Available(s);
  }

  lemma FailStaysExclusive(s: State, op: Op)
    requires Exclusive(s) && op.conn < |s.conns|
    ensures Exclusive(Fail(s, op))
  {
    var u := if op.connect then s else s.(queue := [op.request] + s.queue);
    PurgeOffersNoMore(u, op.conn);
    OffersStayExclusive(u, PurgeConnection(u, op.conn), {});
  }

  lemma CompleteStaysExclusive(s: State, i: nat, failed: bool)
    requires Structure(s) && Exclusive(s) && Enabled(s, OpDone(i, failed))
    ensures Exclusive(Complete(s, i, failed))
  {
    OverOffersLess(s, i);
    if s.closed || failed {
      FailStaysExclusive(Over(s, i), s.pending[i]);
    } else {
      var t := Complete(s, i, failed);
      assert Available(t) == Available(Over(s, i));
    }
  }

  lemma GiveBackStaysExclusive(s: State, c: Conn)
    requires Exclusive(s) && c in s.held
    ensures Exclusive(GiveBack(s, c)) && c !in GiveBack(s, c).held
  {
    var t := GiveBack(s, c);
    forall d | d in t.held ensures t.held[d] == 1 && d < |t.conns| && d !in Available(t) {
      assert d in s.held;
    }
  }

  lemma ReleaseStaysExclusive(s: State, c: Conn)
    requires Exclusive(s) && c !in s.held && c < |s.conns|
    ensures Exclusive(ReleaseConnection(s, c))
  {
    ReleaseOffersNoMore(s, c);
    OffersStayExclusive(s, ReleaseConnection(s, c), {c});
  }

  lemma EndedStaysExclusive(s: State, c: Conn)
    requires Exclusive(s) && c < |s.conns|
    ensures Exclusive(RemoveFromPool(SetLink(s, c, Ended), c))
  {
    var u := SetLink(s, c, Ended);
    assert Available(u) == Available(s);
    RemoveFromPoolOffersNoMore(u, c);
    OffersStayExclusive(u, RemoveFromPool(u, c), {});
  }

  lemma UserStepStaysExclusive(s: State, c: Conn)
    requires Exclusive(s) && c in s.held
    ensures Exclusive(ReleaseByUser(GiveBack(s, c), c))
    ensures Exclusive(ReleaseConnection(GiveBack(s, c), c))
    ensures Exclusive(Destroy(GiveBack(s, c), c))
  {
    GiveBackStaysExclusive(s, c);
    ReleaseStaysExclusive(GiveBack(s, c), c);
    EndedStaysExclusive(GiveBack(s, c), c);
  }

  lemma UserGetStaysExclusive(s: State)
    requires Exclusive(s)
    ensures Exclusive(Ask(s))
  {
    var u := Issue(s);
    GetOffersNoMore(u, s.issued);
    OffersStayExclusive(u, GetConnection(u, s.issued), {});
  }

  lemma StrayStaysExclusive(s: State)
    requires Exclusive(s)
    ensures Exclusive(ServeQueue(s))
  {
    ServeOffersNoMore(s);
    OffersStayExclusive(s, ServeQueue(s), {});
  }

  lemma FatalErrorStaysExclusive(s: State, c: Conn)
    requires Exclusive(s) && c < |s.conns|
    ensures Exclusive(RemoveFromPool(s, c))
  {
    RemoveFromPoolOffersNoMore(s, c);
    OffersStayExclusive(s, RemoveFromPool(s, c), {});
  }

  lemma EndStaysExclusive(s: State)
    requires Exclusive(s) && forall c :: c in s.all ==> c < |s.conns|
    ensures Exclusive(End(s))
  {
    PurgeAllOffersNoMore(s.(closed := true));
    OffersStayExclusive(s.(closed := true), End(s), {});
  }

  lemma NextStaysExclusive(s: State, step: Step)
    requires Structure(s) && Exclusive(s) && Enabled(s, step) && Fair(s, step)
    ensures Exclusive(Next(s, step))
  {
    match step
    case UserGet => UserGetStaysExclusive(s);
    case UserRelease(c) => UserStepStaysExclusive(s, c);
    case PoolRelease(c) => UserStepStaysExclusive(s, c);
    case StrayRelease => StrayStaysExclusive(s);
    case UserDestroy(c) => UserStepStaysExclusive(s, c);
    case UserEnd => EndStaysExclusive(s);
    case SocketUp(c) => OffersStayExclusive(s, SetLink(s, c, Connected), {});
    case ConnectionEnd(c) => EndedStaysExclusive(s, c);
    case FatalError(c) => FatalErrorStaysExclusive(s, c);
    case OpDone(i, failed) => CompleteStaysExclusive(s, i, failed);
    case Tick => OffersStayExclusive(s, Deliver(s), {});
  }

  lemma {:induction false} FairRunsStayExclusive(s: State, steps: seq<Step>, t: State)
    requires Structure(s) && Exclusive(s) && FairRun(s, steps) && Reaches(s, steps, t)
    ensures Exclusive(t)
    decreases |steps|
  {
    if steps != [] {
      NextKeepsStructure(s, steps[0]);
      NextStaysExclusive(s, steps[0]);
      FairRunsStayExclusive(Next(s, steps[0]), steps[1..], t);
    }
  }

  /** If users give back only what they hold, no connection is ever in the hands of two of them. */
  lemma ConnectionsAreExclusive(config: Config, steps: seq<Step>, s: State, c: Conn)
    requires FairRun(Init(config), steps) && Reaches(Init(config), steps, s)
    ensures s.held[c] <= 1
    ensures c in s.held ==> c !in s.free && c !in s.acquiring
  {
    FairRunsStayExclusive(Init(config), steps, s);
  }
}
