/** The record of the requests that were started: who is in it, and that a closed pool adds nobody. */
module PoolStarts {
  import opened PoolModel

  /** Started and waiting requests were issued, and every operation in progress was started for its request. */
  ghost predicate Recorded(s: State) {
    && (forall r :: r in s.started ==> r < s.issued)
    && (forall r :: r in s.queue ==> r < s.issued)
    && (forall op :: op in s.pending ==> op.request in s.started)
  }

  lemma SameRecord(s: State, t: State)
    requires Recorded(s) && t.started == s.started && t.issued == s.issued
    requires forall r :: r in t.queue ==> r in s.queue || r in s.started
    requires forall op :: op in t.pending ==> op in s.pending
    ensures Recorded(t)
  {
  }

  lemma GetRecords(s: State, r: Request)
    requires Recorded(s) && r < s.issued
    ensures Recorded(GetConnection(s, r)) && GetConnection(s, r).issued == s.issued
  {
    var t := GetConnection(s, r);
    if t.started != s.started {
      assert t.started == s.started + [r];
      assert forall op :: op in t.pending ==> op in s.pending || op.request == r;
    }
  }

  lemma ServeRecords(s: State)
    requires Recorded(s)
    ensures Recorded(ServeQueue(s)) && ServeQueue(s).issued == s.issued
  {
    if s.closed {
      SameRecord(s, ServeQueue(s));
    } else if |s.queue| > 0 {
      assert s.queue[0] in s.queue;
      SameRecord(s, s.(queue := s.queue[1..]));
      GetRecords(s.(queue := s.queue[1..]), s.queue[0]);
    }
  }

  lemma ReleaseRecords(s: State, c: Conn)
    requires Recorded(s) && c < |s.conns|
    ensures Recorded(ReleaseConnection(s, c)) && ReleaseConnection(s, c).issued == s.issued
  {
    ServeRecords(s);
    SameRecord(s, s.(free := s.free + [c]));
    ServeRecords(s.(free := s.free + [c]));
  }

  lemma RemoveRecords(s: State, c: Conn)
    requires Recorded(s) && c < |s.conns|
    ensures Recorded(RemoveConnection(s, c)) && RemoveConnection(s, c).issued == s.issued
  {
    SameRecord(s, Unlist(s, c));
    ReleaseRecords(Unlist(s, c), c);
  }

  lemma PurgeRecords(s: State, c: Conn)
    requires Recorded(s) && c < |s.conns|
    ensures Recorded(PurgeConnection(s, c)) && PurgeConnection(s, c).issued == s.issued
  {
    PurgeIsPurged(s, c);
    var d := if s.conns[c].Disconnected() then SetLink(s, c, Ended) else s;
    SameRecord(s, d);
    RemoveRecords(d, c);
    var e := SetPooled(d, c, false);
    SameRecord(d, e);
    RemoveRecords(e, c);
    RemoveRecords(RemoveConnection(e, c), c);
    SameRecord(RemoveConnection(d, c), Quit(RemoveConnection(d, c), c));
  }

  lemma DropRecords(s: State, c: Conn)
    requires Recorded(s) && c < |s.conns|
    ensures Recorded(RemoveFromPool(s, c)) && Recorded(RemoveFromPool(SetLink(s, c, Ended), c))
  {
    var d := SetLink(s, c, Ended);
    SameRecord(s, d);
    SameRecord(s, SetPooled(s, c, false));
    SameRecord(s, SetPooled(d, c, false));
    PurgeRecords(SetPooled(s, c, false), c);
    PurgeRecords(SetPooled(d, c, false), c);
  }

  lemma CompleteRecords(s: State, i: nat, failed: bool)
    requires Recorded(s) && i < |s.pending| && s.pending[i].conn < |s.conns|
    ensures Recorded(Complete(s, i, failed))
  {
    var o, op := Over(s, i), s.pending[i];
    assert op in s.pending;
    SameRecord(s, o);
    if op.connect {
      PurgeRecords(o, op.conn);
    } else {
      var u := o.(queue := [op.request] + s.queue);
      SameRecord(o, u);
      PurgeRecords(u, op.conn);
    }
  }

  lemma {:induction false} PurgeAllRecords(s: State)
    requires Recorded(s) && s.closed && forall c :: c in s.all ==> c < |s.conns|
    ensures Recorded(PurgeAll(s))
    decreases |s.all|
  {
    if s.all != [] {
      assert s.all[0] in s.all;
      PurgeWhenClosed(s, s.all[0]);
      PurgeRecords(s, s.all[0]);
      PurgeAllRecords(PurgeConnection(s, s.all[0]));
    }
  }

  lemma NextRecords(s: State, step: Step)
    requires Recorded(s) && Enabled(s, step)
    ensures Recorded(Next(s, step))
  {
    match step
    case UserGet => GetRecords(Issue(s), s.issued);
    case UserRelease(c) => ReleaseRecords(GiveBack(s, c), c);
    case PoolRelease(c) => ReleaseRecords(GiveBack(s, c), c);
    case StrayRelease => ServeRecords(s);
    case UserDestroy(c) => DropRecords(GiveBack(s, c), c);
    case UserEnd => PurgeAllRecords(s.(closed := true));
    case SocketUp(c) =>
    case ConnectionEnd(c) => DropRecords(s, c);
    case FatalError(c) => DropRecords(s, c);
    case OpDone(i, failed) => CompleteRecords(s, i, failed);
    case Tick =>
  }

  lemma {:induction false} RunRecords(s: State, steps: seq<Step>, t: State)
    requires Recorded(s) && Reaches(s, steps, t)
    ensures Recorded(t)
    decreases |steps|
  {
    if steps != [] {
      NextRecords(s, steps[0]);
      RunRecords(Next(s, steps[0]), steps[1..], t);
    }
  }

  // ----- A closed pool starts nothing -----

  lemma PurgeStartsNothing(s: State, c: Conn)
    requires c < |s.conns| && s.closed
    ensures PurgeConnection(s, c).started == s.started && PurgeConnection(s, c).closed
  {
    PurgeIsPurged(s, c);
  }

  lemma {:induction false} PurgeAllStartsNothing(s: State)
    requires s.closed && forall c :: c in s.all ==> c < |s.conns|
    ensures PurgeAll(s).started == s.started && PurgeAll(s).closed
    decreases |s.all|
  {
    if s.all != [] {
      assert s.all[0] in s.all;
      PurgeWhenClosed(s, s.all[0]);
      PurgeStartsNothing(s, s.all[0]);
      PurgeAllStartsNothing(PurgeConnection(s, s.all[0]));
    }
  }

  lemma CompleteStartsNothing(s: State, i: nat, failed: bool)
    requires s.closed && i < |s.pending| && s.pending[i].conn < |s.conns|
    ensures Complete(s, i, failed).started == s.started && Complete(s, i, failed).closed
  {
    var op := s.pending[i];
    PurgeStartsNothing(Over(s, i), op.conn);
    PurgeStartsNothing(Over(s, i).(queue := [op.request] + s.queue), op.conn);
  }

  lemma ClosedStartsNothing(s: State, step: Step)
    requires Enabled(s, step) && (s.closed || step.UserEnd?)
    ensures Next(s, step).started == s.started && Next(s, step).closed
  {
    match step
    case UserGet =>
    case UserRelease(c) =>
    case PoolRelease(c) =>
    case StrayRelease =>
    case UserDestroy(c) =>
      var u := SetLink(GiveBack(s, c), c, Ended);
      assert Next(s, step) == RemoveFromPool(u, c) == u;
    case UserEnd => PurgeAllStartsNothing(s.(closed := true));
    case SocketUp(c) =>
    case ConnectionEnd(c) =>
    case FatalError(c) =>
    case OpDone(i, failed) => CompleteStartsNothing(s, i, failed);
    case Tick =>
  }
}
