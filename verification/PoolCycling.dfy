/** Connections are opened only when none is idle, and are taken from the top of the pool and return to the bottom. */
module PoolCycling {
  import opened Lists
  import opened PoolModel
  import opened PoolInvariants
  import opened PoolLeaving
  import opened PoolRuns
  import opened PoolSupply
  import opened PoolWaiting

  /**
  From the idle connections `idle`, the one that waits longest first, some were taken at the top, and operations were
  started on no others but new ones.  A new connection is opened only if no idle one is left.
  */
  ghost predicate TakesFirst(s: State, idle: seq<Conn>, t: State, k: nat) {
    && k <= |idle| && t.free == idle[k..] && |s.conns| <= |t.conns|
    && (forall op :: op in t.pending ==> op in s.pending || op.conn in idle[..k] || op.conn >= |s.conns|)
    && (|t.conns| > |s.conns| ==> t.free == [])
  }

  ghost predicate Cycles(s: State, idle: seq<Conn>, t: State) {
    exists k: nat :: TakesFirst(s, idle, t, k)
  }

  lemma CyclesTwice(s: State, idle: seq<Conn>, u: State, t: State)
    requires Cycles(s, idle, u) && Cycles(u, u.free, t)
    ensures Cycles(s, idle, t)
  {
    var i: nat :| TakesFirst(s, idle, u, i);
    var j: nat :| TakesFirst(u, u.free, t, j);
    assert idle[i..][j..] == idle[i + j..];
    assert idle[..i + j] == idle[..i] + u.free[..j];
    assert TakesFirst(s, idle, t, i + j);
  }

  lemma GetCycles(s: State, r: Request)
    ensures Cycles(s, s.free, GetConnection(s, r))
  {
    var t := GetConnection(s, r);
    if !s.closed && |s.free| > 0 {
      assert TakesFirst(s, s.free, t, 1);
    } else {
      assert TakesFirst(s, s.free, t, 0);
    }
  }

  lemma ServeCycles(s: State)
    ensures Cycles(s, s.free, ServeQueue(s))
  {
    if !s.closed && |s.queue| > 0 {
      var u := s.(queue := s.queue[1..]);
      GetCycles(u, s.queue[0]);
      var k: nat :| TakesFirst(u, u.free, ServeQueue(s), k);
      assert TakesFirst(s, s.free, ServeQueue(s), k);
    } else {
      assert TakesFirst(s, s.free, ServeQueue(s), 0);
    }
  }

  /** A connection that is given back goes to the bottom, unless it is not the pool's to take. */
  function Returned(s: State, c: Conn): seq<Conn>
    requires c < |s.conns|
  {
    if s.conns[c].pooled && c !in s.acquiring && c !in s.free then s.free + [c] else s.free
  }

  /** Cycling speaks of connections and operations only. */
  lemma SameCycles(s: State, u: State, idle: seq<Conn>, t: State)
    requires Cycles(u, idle, t) && |u.conns| == |s.conns| && forall op :: op in u.pending ==> op in s.pending
    ensures Cycles(s, idle, t)
  {
    var k: nat :| TakesFirst(u, idle, t, k);
    assert TakesFirst(s, idle, t, k);
  }

  lemma Unmoved(s: State, t: State)
    requires t.free == s.free && |t.conns| == |s.conns| && forall op :: op in t.pending ==> op in s.pending
    ensures Cycles(s, s.free, t)
  {
    assert TakesFirst(s, s.free, t, 0);
  }

  lemma ReleaseCycles(s: State, c: Conn)
    requires c < |s.conns|
    ensures Cycles(s, Returned(s, c), ReleaseConnection(s, c))
  {
    var u := s.(free := Returned(s, c));
    if c in s.acquiring || (s.conns[c].pooled && c in s.free) {
      Unmoved(s, s);
    } else {
      ServeCycles(u);
      SameCycles(s, u, u.free, ServeQueue(u));
    }
  }

  lemma RemoveCycles(s: State, c: Conn)
    requires c < |s.conns|
    ensures Cycles(s, Without(s.free, c), RemoveConnection(s, c))
  {
    var u := Unlist(s, c);
    ReleaseCycles(u, c);
    SameCycles(s, u, u.free, RemoveConnection(s, c));
  }

  lemma RemoveTwiceCycles(s: State, c: Conn)
    requires c < |s.conns| && NoDup(s.free)
    ensures Cycles(s, Without(s.free, c), RemoveConnection(RemoveConnection(s, c), c))
  {
    var t := RemoveConnection(s, c);
    RemoveCycles(s, c);
    RemoveCycles(t, c);
    WithoutNoDup(s.free, c);
    var k: nat :| TakesFirst(s, Without(s.free, c), t, k);
    assert c !in t.free;
    CyclesTwice(s, Without(s.free, c), t, RemoveConnection(t, c));
  }

  lemma PurgeCycles(s: State, c: Conn)
    requires c < |s.conns| && NoDup(s.free)
    ensures Cycles(s, Without(s.free, c), PurgeConnection(s, c))
  {
    PurgeIsPurged(s, c);
    var idle, d := Without(s.free, c), SetLink(s, c, Ended);
    var e := SetPooled(d, c, false);
    if !s.conns[c].Disconnected() {
      RemoveCycles(s, c);
      Unmoved(RemoveConnection(s, c), Quit(RemoveConnection(s, c), c));
      CyclesTwice(s, idle, RemoveConnection(s, c), PurgeConnection(s, c));
    } else if s.conns[c].pooled && !s.closed {
      RemoveTwiceCycles(e, c);
      SameCycles(s, e, idle, PurgeConnection(s, c));
    } else {
      RemoveCycles(d, c);
      SameCycles(s, d, idle, PurgeConnection(s, c));
    }
  }

  /** What is idle in a step: a connection given back is at the bottom, one that is taken out is gone. */
  function Idle(s: State, step: Step): seq<Conn>
    requires Enabled(s, step)
  {
    match step
    case UserRelease(c) => Returned(s, c)
    case PoolRelease(c) => Returned(s, c)
    case UserDestroy(c) => Without(s.free, c)
    case ConnectionEnd(c) => Without(s.free, c)
    case FatalError(c) => Without(s.free, c)
    case _ => s.free
  }

  lemma DropCycles(s: State, c: Conn)
    requires c < |s.conns| && NoDup(s.free) && !s.closed && (c in s.free ==> s.conns[c].pooled)
    ensures Cycles(s, Without(s.free, c), RemoveFromPool(s, c))
  {
    if s.conns[c].pooled {
      var u := SetPooled(s, c, false);
      PurgeCycles(u, c);
      SameCycles(s, u, Without(s.free, c), RemoveFromPool(s, c));
    } else {
      Unmoved(s, s);
    }
  }

  lemma CompleteCycles(s: State, i: nat, failed: bool)
    requires Structure(s) && Enabled(s, OpDone(i, failed)) && !s.closed
    ensures Cycles(s, s.free, Complete(s, i, failed))
  {
    var op, u, t := s.pending[i], Over(s, i), Complete(s, i, failed);
    assert forall op :: op in u.pending ==> op in s.pending;
    if failed {
      var v := if op.connect then u else u.(queue := [op.request] + u.queue);
      assert s.acquiring[i] == op.conn;
      PurgeCycles(v, op.conn);
      SameCycles(s, v, s.free, PurgeConnection(v, op.conn));
      Unmoved(PurgeConnection(v, op.conn), t);
      CyclesTwice(s, s.free, PurgeConnection(v, op.conn), t);
    } else {
      Unmoved(s, t);
    }
  }

  lemma EndedCycles(s: State, u: State, c: Conn)
    requires Structure(s) && !s.closed && c < |s.conns|
    requires u.conns == s.conns && u.free == s.free && u.pending == s.pending && u.closed == s.closed
    ensures Cycles(s, Without(s.free, c), RemoveFromPool(SetLink(u, c, Ended), c))
    ensures Cycles(s, Without(s.free, c), RemoveFromPool(u, c))
  {
    var v := SetLink(u, c, Ended);
    assert Fits(s, c);
    DropCycles(u, c);
    DropCycles(v, c);
    SameCycles(s, u, Without(s.free, c), RemoveFromPool(u, c));
    SameCycles(s, v, Without(s.free, c), RemoveFromPool(v, c));
  }

  lemma GivenBackCycles(s: State, c: Conn)
    requires c < |s.conns|
    ensures Cycles(s, Returned(s, c), ReleaseConnection(GiveBack(s, c), c))
  {
    var u := GiveBack(s, c);
    ReleaseCycles(u, c);
    SameCycles(s, u, Returned(s, c), ReleaseConnection(u, c));
  }

  lemma AskCycles(s: State)
    ensures Cycles(s, s.free, Ask(s))
  {
    var u := Issue(s);
    GetCycles(u, s.issued);
    SameCycles(s, u, s.free, Ask(s));
  }

  lemma StepCycles(s: State, step: Step)
    requires Structure(s) && Enabled(s, step) && !s.closed && !step.UserEnd?
    ensures Cycles(s, Idle(s, step), Next(s, step))
  {
    match step
    case UserGet => AskCycles(s);
    case UserRelease(c) =>
      assert Fits(s, c);
      if s.conns[c].pooled {
        GivenBackCycles(s, c);
      } else {
        Unmoved(s, Next(s, step));
      }
    case PoolRelease(c) => GivenBackCycles(s, c);
    case StrayRelease => ServeCycles(s);
    case UserDestroy(c) => EndedCycles(s, GiveBack(s, c), c);
    case SocketUp(_) => Unmoved(s, Next(s, step));
    case ConnectionEnd(c) => EndedCycles(s, s, c);
    case FatalError(c) => EndedCycles(s, s, c);
    case OpDone(i, failed) => CompleteCycles(s, i, failed);
    case Tick => Unmoved(s, Next(s, step));
  }

  /**
  Round robin: in every step of every run that leaves the pool open, connections are taken from the top of those that
  are idle, in order, those given back are at the bottom, and a new one is opened only if no idle one is left.
  */
  lemma TakenFromTheTop(config: Config, steps: seq<Step>, s: State, step: Step)
    requires Reaches(Init(config), steps, s) && Enabled(s, step) && !Next(s, step).closed
    ensures Cycles(s, Idle(s, step), Next(s, step))
  {
    EveryRunIsSound(config, steps, s);
    StepGives(s, step);
    StepCycles(s, step);
  }

  // ----- Connections are made when needed -----

  /** The connections in use: being acquired for somebody, or in the hands of a user. */
  ghost function Busy(s: State): set<Conn> {
    set c | c in s.all && (c in s.acquiring || c in s.held)
  }

  /** In no state of the run are more than `n` connections in use. */
  ghost predicate NeverMore(s: State, steps: seq<Step>, n: nat)
    decreases |steps|
  {
    |Busy(s)| <= n && (steps != [] ==> Enabled(s, steps[0]) && NeverMore(Next(s, steps[0]), steps[1..], n))
  }

  /** No step of the run takes a connection out. */
  ghost predicate NoneLeaves(s: State, steps: seq<Step>)
    decreases |steps|
  {
    steps != [] ==>
      && Enabled(s, steps[0]) && (forall c :: !TakesOut(s, steps[0], c))
      && NoneLeaves(Next(s, steps[0]), steps[1..])
  }

  lemma SubsetIsSmaller(a: set<Conn>, b: set<Conn>)
    requires a <= b
    ensures |a| <= |b|
  {
    assert |b| == |a| + |b - a| by {
      assert b == a + (b - a);
    }
  }

  /** A step that opens no connection lists none anew. */
  lemma ListsNoneAnew(s: State, step: Step, t: State)
    requires Structure(s) && Structure(t) && KeepsOthers(s, step, t) && |t.conns| == |s.conns|
    ensures |t.all| <= |s.all|
  {
    forall c | c in t.all ensures c in s.all {
      assert Fits(s, c) && Fits(t, c);
    }
    NoDupSize(s.all);
    NoDupSize(t.all);
    SubsetIsSmaller(Elements(t.all), Elements(s.all));
  }

  lemma AllBusy(t: State)
    requires Structure(t) && Accounted(t, {}) && t.free == []
    ensures |t.all| <= |Busy(t)|
  {
    NoDupSize(t.all);
    SubsetIsSmaller(Elements(t.all), Busy(t));
  }

  lemma NextIsLazy(s: State, step: Step, n: nat)
    requires Invariant(s) && Accounted(s, {}) && Enabled(s, step) && |s.all| <= n && |Busy(Next(s, step))| <= n
    ensures |Next(s, step).all| <= n
  {
    var t := Next(s, step);
    NextKeepsInvariant(s, step);
    NextAccounts(s, step);
    StepGives(s, step);
    if !t.closed {
      StepCycles(s, step);
      if |t.conns| == |s.conns| {
        ListsNoneAnew(s, step, t);
      } else {
        AllBusy(t);
      }
    }
  }

  lemma {:induction false} RunIsLazy(s: State, steps: seq<Step>, t: State, n: nat)
    requires Invariant(s) && Accounted(s, {}) && Reaches(s, steps, t) && |s.all| <= n && NeverMore(s, steps, n)
    ensures |t.all| <= n
    decreases |steps|
  {
    if steps != [] {
      NextKeepsInvariant(s, steps[0]);
      NextAccounts(s, steps[0]);
      NextIsLazy(s, steps[0], n);
      RunIsLazy(Next(s, steps[0]), steps[1..], t, n);
    }
  }

  ghost predicate AllListed(s: State) {
    forall c: Conn :: c < |s.conns| ==> c in s.all
  }

  lemma ListsAll(s: State, step: Step, t: State)
    requires Structure(s) && Structure(t) && KeepsOthers(s, step, t) && AllListed(s) && !t.closed
    requires forall c :: !TakesOut(s, step, c)
    ensures AllListed(t)
  {
    forall c: Conn | c < |t.conns| ensures c in t.all {
      assert SameStanding(s, t, c) && Fits(t, c);
      assert c < |s.conns| ==> Fits(s, c);
    }
  }

  lemma {:induction false} RunListsAll(s: State, steps: seq<Step>, t: State)
    requires Invariant(s) && AllListed(s) && !s.closed && Reaches(s, steps, t) && NoneLeaves(s, steps)
    ensures AllListed(t)
    decreases |steps|
  {
    if steps != [] {
      var u := Next(s, steps[0]);
      NextKeepsInvariant(s, steps[0]);
      StepGives(s, steps[0]);
      assert !TakesOut(s, steps[0], 0);
      ListsAll(s, steps[0], u);
      RunListsAll(u, steps[1..], t);
    }
  }

  /**
  Lazy creation: in every run in which never more than `n` connections are in use at a time, never more than `n` are
  listed; and if none is taken out, never more than `n` are made.
  */
  lemma MadeWhenNeeded(config: Config, steps: seq<Step>, s: State, n: nat)
    requires Reaches(Init(config), steps, s) && NeverMore(Init(config), steps, n)
    ensures |s.all| <= n
    ensures NoneLeaves(Init(config), steps) ==> |s.conns| <= n
  {
    InitIsSound(config);
    RunIsLazy(Init(config), steps, s, n);
    if NoneLeaves(Init(config), steps) {
      RunListsAll(Init(config), steps, s);
      AllMade(|s.conns|, s.all);
    }
  }

  lemma {:induction false} AllMade(n: nat, all: seq<Conn>)
    requires forall c: Conn :: c < n ==> c in all
    ensures n <= |all|
    decreases n
  {
    if n > 0 {
      var last: Conn := n - 1;
      AllMade(last, Without(all, last));
    }
  }
}
