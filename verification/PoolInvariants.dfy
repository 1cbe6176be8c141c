/** What every operation of the pool keeps: the shape of its arrays, the pool fields of its connections, the limit. */
module PoolInvariants {
  import opened Lists
  import opened PoolModel

  // ----- Structure -----

  ghost function OpConns(ops: seq<Op>): seq<Conn> {
    seq(|ops|, i requires 0 <= i < |ops| => ops[i].conn)
  }

  /** The arrays: no repetition, free connections are listed and not being acquired, the limit is respected. */
  ghost predicate Listing(s: State) {
    && NoDup(s.all) && NoDup(s.free) && NoDup(s.acquiring)
    && (forall c :: c in s.all ==> c < |s.conns|)
    && (forall c :: c in s.acquiring ==> c < |s.conns|)
    && (forall c :: c in s.free ==> c in s.all && c !in s.acquiring)
    && s.acquiring == OpConns(s.pending)
    && (s.config.connectionLimit > 0 ==> |s.all| <= s.config.connectionLimit)
  }

  /** A connection is listed exactly if its `_pool` is this pool; one that was let go is down or quitting. */
  ghost predicate Fits(s: State, c: Conn)
    requires c < |s.conns|
  {
    && (s.conns[c].pooled <==> c in s.all)
    && (!s.conns[c].pooled ==> s.conns[c].link.Ended? || s.conns[c].quitting)
  }

  /** The structure of the pool, with the connections in `loose` exempt because they are being let go. */
  ghost predicate StructureBut(s: State, loose: set<Conn>) {
    && Listing(s)
    && (forall c :: c in loose ==> c < |s.conns|)
    && (forall c: Conn | c < |s.conns| && c !in loose :: Fits(s, c))
  }

  ghost predicate Structure(s: State) {
    StructureBut(s, {})
  }

  /** `t` has the connections of `s`, unchanged, and perhaps more of them, and lists none of `loose` anew. */
  ghost predicate Grown(s: State, t: State, loose: set<Conn>) {
    && s.conns <= t.conns
    && t.closed == s.closed
    && t.config == s.config
    && (forall c :: c in loose && c !in s.all ==> c !in t.all)
  }

  lemma GetKeepsStructure(s: State, r: Request, loose: set<Conn>)
    requires StructureBut(s, loose)
    ensures StructureBut(GetConnection(s, r), loose)
    ensures Grown(s, GetConnection(s, r), loose)
  {
    var t := GetConnection(s, r);
    if !s.closed && |s.free| > 0 {
      assert t.acquiring == OpConns(t.pending);
      assert s.free[0] in s.free;
      NoDupTail(s.free);
      NoDupSnoc(s.acquiring, s.free[0]);
    } else if !s.closed && (s.config.connectionLimit == 0 || |s.all| < s.config.connectionLimit) {
      var n := |s.conns|;
      assert n !in s.all && n !in s.acquiring;
      NoDupSnoc(s.acquiring, n);
      NoDupSnoc(s.all, n);
      assert t.acquiring == OpConns(t.pending);
    }
    forall c: Conn | c < |t.conns| && c !in loose ensures Fits(t, c) {
      if c < |s.conns| {
        assert Fits(s, c);
      }
    }
  }

  lemma ServeKeepsStructure(s: State, loose: set<Conn>)
    requires StructureBut(s, loose)
    ensures StructureBut(ServeQueue(s), loose)
    ensures Grown(s, ServeQueue(s), loose)
  {
    var t := ServeQueue(s);
    if !s.closed && |s.queue| > 0 {
      var u := s.(queue := s.queue[1..]);
      forall c: Conn | c < |u.conns| && c !in loose ensures Fits(u, c) {
        assert Fits(s, c);
      }
      GetKeepsStructure(u, s.queue[0], loose);
    } else {
      forall c: Conn | c < |t.conns| && c !in loose ensures Fits(t, c) {
        assert Fits(s, c);
      }
    }
  }

  lemma ReleaseKeepsStructure(s: State, c: Conn, loose: set<Conn>)
    requires c < |s.conns| && StructureBut(s, loose)
    requires s.conns[c].pooled ==> c in s.all
    ensures StructureBut(ReleaseConnection(s, c), loose)
    ensures Grown(s, ReleaseConnection(s, c), loose)
  {
    if c !in s.acquiring {
      if s.conns[c].pooled && c !in s.free {
        var u := s.(free := s.free + [c]);
        NoDupSnoc(s.free, c);
        forall d: Conn | d < |u.conns| && d !in loose ensures Fits(u, d) {
          assert Fits(s, d);
        }
        ServeKeepsStructure(u, loose);
      } else {
        ServeKeepsStructure(s, loose);
      }
    }
  }

  lemma UnlistKeepsStructure(s: State, c: Conn)
    requires c < |s.conns| && StructureBut(s, {c})
    ensures StructureBut(Unlist(s, c), {c})
    ensures c !in Unlist(s, c).all && c !in Unlist(s, c).free
  {
    var t := Unlist(s, c);
    WithoutNoDup(s.all, c);
    WithoutNoDup(s.free, c);
    forall d: Conn | d < |t.conns| && d !in {c} ensures Fits(t, d) {
      assert Fits(s, d);
    }
  }

  lemma RemoveKeepsStructure(s: State, c: Conn)
    requires c < |s.conns| && StructureBut(s, {c})
    ensures StructureBut(RemoveConnection(s, c), {c})
    ensures c !in RemoveConnection(s, c).all
    ensures Grown(Unlist(s, c), RemoveConnection(s, c), {c})
  {
    UnlistKeepsStructure(s, c);
    ReleaseKeepsStructure(Unlist(s, c), c, {c});
  }

  /** Once the last loose connection fits again the structure is whole. */
  lemma Tighten(s: State, c: Conn)
    requires StructureBut(s, {c}) && Fits(s, c)
    ensures Structure(s)
  {
    forall d: Conn | d < |s.conns| ensures Fits(s, d) {
    }
  }

  lemma QuitKeepsStructure(s: State, c: Conn)
    requires c < |s.conns| && StructureBut(s, {c}) && c !in s.all && !s.conns[c].pooled
    ensures Structure(Quit(s, c))
  {
    LooseUpdate(s, c, s.conns[c].(quitting := true));
    Tighten(Quit(s, c), c);
  }

  /** The destroyed connection is let go once or twice. */
  lemma DownKeepsStructure(s: State, c: Conn)
    requires c < |s.conns| && StructureBut(s, {c}) && s.conns[c].link.Ended?
    ensures Structure(RemoveConnection(s, c)) && c !in RemoveConnection(s, c).all
    ensures StructureBut(RemoveConnection(s, c), {c}) && RemoveConnection(s, c).conns[c].link.Ended?
    ensures RemoveConnection(s, c).closed == s.closed && RemoveConnection(s, c).config == s.config
  {
    RemoveKeepsStructure(s, c);
    Tighten(RemoveConnection(s, c), c);
  }

  lemma PurgeKeepsStructure(s: State, c: Conn)
    requires c < |s.conns| && StructureBut(s, {c})
    ensures Structure(PurgeConnection(s, c))
    ensures c !in PurgeConnection(s, c).all
    ensures |PurgeConnection(s, c).conns| >= |s.conns|
    ensures PurgeConnection(s, c).closed == s.closed && PurgeConnection(s, c).config == s.config
  {
    PurgeIsPurged(s, c);
    if !s.conns[c].Disconnected() {
      RemoveKeepsStructure(s, c);
      QuitKeepsStructure(RemoveConnection(s, c), c);
    } else {
      var d := SetLink(s, c, Ended);
      LooseUpdate(s, c, s.conns[c].(link := Ended));
      if s.conns[c].pooled && !s.closed {
        LooseUpdate(d, c, d.conns[c].(pooled := false));
        var e := SetPooled(d, c, false);
        DownKeepsStructure(e, c);
        DownKeepsStructure(RemoveConnection(e, c), c);
      } else {
        DownKeepsStructure(d, c);
      }
    }
  }

  /** A loose connection's own entry may change freely. */
  lemma LooseUpdate(s: State, c: Conn, info: ConnInfo)
    requires c < |s.conns| && StructureBut(s, {c})
    ensures StructureBut(s.(conns := s.conns[c := info]), {c})
  {
    var t := s.(conns := s.conns[c := info]);
    forall d: Conn | d < |t.conns| && d !in {c} ensures Fits(t, d) {
      assert Fits(s, d);
    }
  }

  /** A connection that is destroyed while it belongs to the pool. */
  lemma DestroyedIsLoose(s: State, c: Conn)
    requires c < |s.conns| && StructureBut(s, {c})
    ensures StructureBut(SetLink(s, c, Ended), {c})
    ensures StructureBut(SetPooled(SetLink(s, c, Ended), c, false), {c})
  {
    LooseUpdate(s, c, s.conns[c].(link := Ended));
    var d := SetLink(s, c, Ended);
    LooseUpdate(d, c, d.conns[c].(pooled := false));
  }

  lemma Loosen(s: State, c: Conn)
    requires Structure(s) && c < |s.conns|
    ensures StructureBut(s, {c})
  {
  }

  lemma RemoveFromPoolKeepsStructure(s: State, c: Conn)
    requires c < |s.conns| && StructureBut(s, {c})
    requires !s.conns[c].pooled || s.closed ==> Fits(s, c)
    ensures Structure(RemoveFromPool(s, c))
  {
    if !s.conns[c].pooled || s.closed {
      Tighten(s, c);
    } else {
      LooseUpdate(s, c, s.conns[c].(pooled := false));
      PurgeKeepsStructure(SetPooled(s, c, false), c);
    }
  }

  lemma OverKeepsStructure(s: State, i: nat)
    requires Structure(s) && i < |s.pending|
    ensures Structure(Over(s, i)) && s.pending[i].conn !in Over(s, i).acquiring
    ensures Elements(s.acquiring) == Elements(Over(s, i).acquiring) + {s.pending[i].conn}
  {
    assert s.acquiring[i] == s.pending[i].conn;
    WithoutAt(s.acquiring, i);
    NoDupCut(s.acquiring, i);
    var t := Over(s, i);
    assert t.acquiring == OpConns(t.pending);
    forall c: Conn | c < |t.conns| ensures Fits(t, c) {
      assert Fits(s, c);
    }
  }

  lemma FailKeepsStructure(s: State, op: Op)
    requires Structure(s) && op.conn < |s.conns|
    ensures Structure(Fail(s, op))
  {
    if op.connect {
      Loosen(s, op.conn);
      PurgeKeepsStructure(s, op.conn);
      SameStructure(PurgeConnection(s, op.conn), Fail(s, op));
    } else {
      var u := s.(queue := [op.request] + s.queue);
      SameStructure(s, u);
      Loosen(u, op.conn);
      PurgeKeepsStructure(u, op.conn);
    }
  }

  lemma CompleteKeepsStructure(s: State, i: nat, failed: bool)
    requires Structure(s) && Enabled(s, OpDone(i, failed))
    ensures Structure(Complete(s, i, failed))
  {
    OverKeepsStructure(s, i);
    if s.closed || failed {
      FailKeepsStructure(Over(s, i), s.pending[i]);
    } else {
      SameStructure(Over(s, i), Complete(s, i, failed));
    }
  }

  /** The structure speaks of the arrays of connections only. */
  lemma SameStructure(s: State, t: State)
    requires Structure(s)
    requires t.conns == s.conns && t.all == s.all && t.free == s.free && t.acquiring == s.acquiring
    requires t.pending == s.pending && t.config == s.config
    ensures Structure(t)
  {
    forall c: Conn | c < |t.conns| ensures Fits(t, c) {
      assert Fits(s, c);
    }
  }

  lemma {:induction false} PurgeAllKeepsStructure(s: State)
    requires Structure(s) && s.closed
    ensures Structure(PurgeAll(s))
    ensures PurgeAll(s).all == [] && PurgeAll(s).closed && PurgeAll(s).config == s.config
    decreases |s.all|
  {
    if s.all != [] {
      var c := s.all[0];
      assert c in s.all;
      Loosen(s, c);
      PurgeKeepsStructure(s, c);
      PurgeWhenClosed(s, c);
      PurgeAllKeepsStructure(PurgeConnection(s, c));
    }
  }

  lemma UserGetKeepsStructure(s: State)
    requires Structure(s)
    ensures Structure(Ask(s))
  {
    var u := Issue(s);
    SameStructure(s, u);
    GetKeepsStructure(u, s.issued, {});
  }

  lemma GivenBackKeepsStructure(s: State, c: Conn)
    requires Structure(s) && c < |s.conns|
    ensures Structure(ReleaseByUser(GiveBack(s, c), c))
    ensures Structure(ReleaseConnection(GiveBack(s, c), c))
    ensures Structure(Destroy(GiveBack(s, c), c))
  {
    var u := GiveBack(s, c);
    SameStructure(s, u);
    assert Fits(s, c);
    ReleaseKeepsStructure(u, c, {});
    EndedKeepsStructure(u, c);
  }

  lemma EndKeepsStructure(s: State)
    requires Structure(s)
    ensures Structure(End(s))
  {
    SameStructure(s, s.(closed := true));
    PurgeAllKeepsStructure(s.(closed := true));
  }

  lemma SocketUpKeepsStructure(s: State, c: Conn)
    requires Structure(s) && c < |s.conns| && s.conns[c].link.Connecting?
    ensures Structure(SetLink(s, c, Connected))
  {
    assert Fits(s, c);
    Loosen(s, c);
    LooseUpdate(s, c, s.conns[c].(link := Connected));
    Tighten(SetLink(s, c, Connected), c);
  }

  lemma NextKeepsStructure(s: State, step: Step)
    requires Structure(s) && Enabled(s, step)
    ensures Structure(Next(s, step))
  {
    match step
    case UserGet => UserGetKeepsStructure(s);
    case UserRelease(c) => GivenBackKeepsStructure(s, c);
    case PoolRelease(c) => GivenBackKeepsStructure(s, c);
    case StrayRelease => ServeKeepsStructure(s, {});
    case UserDestroy(c) => GivenBackKeepsStructure(s, c);
    case UserEnd => EndKeepsStructure(s);
    case SocketUp(c) => SocketUpKeepsStructure(s, c);
    case ConnectionEnd(c) => EndedKeepsStructure(s, c);
    case FatalError(c) =>
      assert Fits(s, c);
      Loosen(s, c);
      RemoveFromPoolKeepsStructure(s, c);
    case OpDone(i, failed) => CompleteKeepsStructure(s, i, failed);
    case Tick => SameStructure(s, Deliver(s));
  }

  lemma EndedKeepsStructure(s: State, c: Conn)
    requires Structure(s) && c < |s.conns|
    ensures Structure(RemoveFromPool(SetLink(s, c, Ended), c))
  {
    assert Fits(s, c);
    Loosen(s, c);
    LooseUpdate(s, c, s.conns[c].(link := Ended));
    RemoveFromPoolKeepsStructure(SetLink(s, c, Ended), c);
  }
}
