/**
The pool and its connections as objects that update their fields.  Every method is proved to take the pool from
one state of PoolModel.dfy to the state that the function of the same name gives.  The model numbers connections;
`id` is a connection's number there.
*/
module PoolClasses {
  import opened EndCallback
  import opened Lists
  import M = PoolModel

  class PoolConnection {
    ghost const id: nat
    var pool: Pool?
    var link: M.Link
    var quitting: bool

    constructor (ghost id: nat, pool: Pool)
      ensures this.id == id && this.pool == pool && link == M.Connecting && !quitting
    {
      this.id := id;
      this.pool := pool;
      link := M.Connecting;
      quitting := false;
    }

    ghost function Info(): M.ConnInfo
      reads this
    {
      M.ConnInfo(pool != null, link, quitting)
    }

    method Release(ghost owner: Pool) returns (error: ReleaseError)
      requires owner.Valid() && owner.Knows(this) && owner.FreeInPool(null)
      modifies owner
      ensures owner.Kept(old(owner.conns)) && owner.FreeInPool(null)
      ensures owner.model == M.ReleaseByUser(old(owner.model), id)
      ensures error == if pool != null && !old(owner.closed) && this in old(owner.free) && this !in old(owner.acquiring)
                       then AlreadyReleased else NoError
    {
      var p := pool;
      if p == null || p.closed {
        return NoError;
      }
      error := p.ReleaseConnection(this);
    }

    method LetGo(ghost owner: Pool)
      requires owner.Valid() && owner.Knows(this)
      modifies owner`model, this`pool
      ensures owner.Valid() && pool == null && owner.model == M.SetPooled(old(owner.model), id, false)
    {
      pool := null;
      owner.model := M.SetPooled(owner.model, id, false);
    }

    method RealEnd(ghost owner: Pool)
      requires owner.Valid() && owner.Knows(this)
      modifies owner`model, this`quitting
      ensures owner.Valid() && owner.model == M.Quit(old(owner.model), id)
    {
      quitting := true;
      owner.model := M.Quit(owner.model, id);
    }

    method Destroy(ghost owner: Pool)
      requires owner.Valid() && owner.Knows(this) && owner.FreeInPool(this)
      modifies owner, this
      ensures owner.Kept(old(owner.conns)) && owner.FreeInPool(this)
      ensures old(owner.FreeInPool(null)) ==> owner.FreeInPool(null)
      ensures owner.model == M.Destroy(old(owner.model), id)
      decreases owner.RankOf(this), 1
    {
      link := M.Ended;
      owner.model := M.SetLink(owner.model, id, M.Ended);
      RemoveFromPool(owner);
    }

    method RemoveFromPool(ghost owner: Pool)
      requires owner.Valid() && owner.Knows(this) && owner.FreeInPool(this)
      modifies owner, this
      ensures owner.Kept(old(owner.conns)) && owner.FreeInPool(this)
      ensures old(owner.FreeInPool(null)) ==> owner.FreeInPool(null)
      ensures owner.model == M.RemoveFromPool(old(owner.model), id)
      decreases owner.RankOf(this), 0
    {
      var p := pool;
      if p == null || p.closed {
        return;
      }
      LetGo(owner);
      p.PurgeConnection(this);
    }
  }

  /** What `releaseConnection` throws. */
  datatype ReleaseError = NoError | WrongPool | AlreadyReleased

  datatype PendingOp = PendingOp(connect: bool, conn: PoolConnection, request: M.Request)

  /** How the callback of a completed operation is called, if it is. */
  datatype Call = NotCalled | CalledBack(code: M.Code) | CalledWith(connection: PoolConnection)

  /** `spliceConnection`: takes out the first occurrence, if there is one. */
  method SpliceConnection(list: seq<PoolConnection>, connection: PoolConnection) returns (rest: seq<PoolConnection>)
    ensures rest == Without(list, connection)
  {
    var index := 0;
    while index < |list| && list[index] != connection
      invariant 0 <= index <= |list|
      invariant connection !in list[..index]
    {
      index := index + 1;
    }
    WithoutFirst(list, connection, index);
    rest := if index < |list| then list[..index] + list[index + 1..] else list;
  }

  lemma {:induction false} WithoutFirst<T>(xs: seq<T>, x: T, i: nat)
    requires i <= |xs| && x !in xs[..i] && (i < |xs| ==> xs[i] == x)
    ensures i == |xs| ==> Without(xs, x) == xs
    ensures i < |xs| ==> Without(xs, x) == xs[..i] + xs[i + 1..]
  {
    if i > 0 {
      assert xs[..i][0] == xs[0];
      assert xs[..i] == [xs[0]] + xs[1..][..i - 1];
      WithoutFirst(xs[1..], x, i - 1);
      if i < |xs| {
        assert xs[1..][i..] == xs[i + 1..];
      } else {
        assert xs == [xs[0]] + xs[1..];
      }
    }
  }

  /** `ids` are the numbers of `cs`, where `conns` lists all connections by number. */
  ghost predicate Named(cs: seq<PoolConnection>, ids: seq<nat>, conns: seq<PoolConnection>) {
    && |cs| == |ids| && (forall c :: c in ids ==> c < |conns|)
    && (forall i: nat :: i < |cs| ==> NamedAt(cs, ids, conns, i))
  }

  ghost predicate NamedAt(cs: seq<PoolConnection>, ids: seq<nat>, conns: seq<PoolConnection>, i: nat)
    requires i < |cs| == |ids|
  {
    cs[i].id == ids[i] < |conns| && conns[ids[i]] == cs[i]
  }

  lemma NamedSnoc(cs: seq<PoolConnection>, ids: seq<nat>, conns: seq<PoolConnection>, c: PoolConnection)
    requires Named(cs, ids, conns) && c.id < |conns| && conns[c.id] == c
    ensures Named(cs + [c], ids + [c.id], conns)
  {
    forall i: nat | i < |cs| + 1 ensures NamedAt(cs + [c], ids + [c.id], conns, i) {
      assert i < |cs| ==> NamedAt(cs, ids, conns, i);
    }
  }

  lemma NamedAmongMore(cs: seq<PoolConnection>, ids: seq<nat>, conns: seq<PoolConnection>, more: seq<PoolConnection>)
    requires Named(cs, ids, conns) && conns <= more
    ensures Named(cs, ids, more)
  {
    forall i: nat | i < |cs| ensures NamedAt(cs, ids, more, i) {
      assert NamedAt(cs, ids, conns, i);
    }
  }

  lemma NamedWithNew(cs: seq<PoolConnection>, ids: seq<nat>, conns: seq<PoolConnection>, c: PoolConnection)
    requires Named(cs, ids, conns) && c.id == |conns|
    ensures Named(cs + [c], ids + [c.id], conns + [c])
  {
    NamedAmongMore(cs, ids, conns, conns + [c]);
    NamedSnoc(cs, ids, conns + [c], c);
  }

  lemma NamedTail(cs: seq<PoolConnection>, ids: seq<nat>, conns: seq<PoolConnection>)
    requires Named(cs, ids, conns) && cs != []
    ensures ids[0] in ids && Named(cs[1..], ids[1..], conns) && cs[0].id == ids[0] < |conns| && conns[ids[0]] == cs[0]
  {
    forall i: nat | i < |cs| - 1 ensures NamedAt(cs[1..], ids[1..], conns, i) {
      assert NamedAt(cs, ids, conns, i + 1);
    }
    assert NamedAt(cs, ids, conns, 0);
    assert forall c :: c in ids[1..] ==> c in ids;
  }

  lemma NamedMember(cs: seq<PoolConnection>, ids: seq<nat>, conns: seq<PoolConnection>, c: PoolConnection)
    requires Named(cs, ids, conns) && c.id < |conns| && conns[c.id] == c
    ensures c in cs <==> c.id in ids
  {
    if c in cs {
      var i: nat :| i < |cs| && cs[i] == c;
      assert NamedAt(cs, ids, conns, i);
    }
    if c.id in ids {
      var i: nat :| i < |ids| && ids[i] == c.id;
      assert NamedAt(cs, ids, conns, i);
    }
  }

  lemma InNamed(cs: seq<PoolConnection>, ids: seq<nat>, conns: seq<PoolConnection>, c: PoolConnection)
    requires Named(cs, ids, conns) && c in cs
    ensures c.id < |conns| && conns[c.id] == c && c.id in ids
  {
    var i: nat :| i < |cs| && cs[i] == c;
    assert NamedAt(cs, ids, conns, i) && ids[i] == c.id;
  }

  lemma {:induction false} NamedWithout(cs: seq<PoolConnection>, ids: seq<nat>, conns: seq<PoolConnection>,
                                        c: PoolConnection)
    requires Named(cs, ids, conns) && c.id < |conns| && conns[c.id] == c
    ensures Named(Without(cs, c), Without(ids, c.id), conns)
  {
    if cs != [] {
      NamedTail(cs, ids, conns);
      if cs[0] != c {
        NamedWithout(cs[1..], ids[1..], conns, c);
        NamedCons(Without(cs[1..], c), Without(ids[1..], c.id), conns, cs[0]);
      }
    }
  }

  lemma NamedCons(cs: seq<PoolConnection>, ids: seq<nat>, conns: seq<PoolConnection>, c: PoolConnection)
    requires Named(cs, ids, conns) && c.id < |conns| && conns[c.id] == c
    ensures Named([c] + cs, [c.id] + ids, conns)
  {
    forall i: nat | i < |cs| + 1 ensures NamedAt([c] + cs, [c.id] + ids, conns, i) {
      assert i > 0 ==> NamedAt(cs, ids, conns, i - 1);
    }
  }

  class Pool {
    const config: M.Config
    var acquiring: seq<PoolConnection>
    var all: seq<PoolConnection>
    var free: seq<PoolConnection>
    var queue: seq<M.Request>
    var closed: bool

    // operations in progress, and callbacks scheduled for the next tick
    var pending: seq<PendingOp>
    var scheduled: seq<M.Notice>

    /** All connections ever made, in order, and the state of the model that this pool is in. */
    ghost var conns: seq<PoolConnection>
    ghost var model: M.State

    ghost predicate Knows(c: PoolConnection)
      reads this
    {
      c.id < |conns| && conns[c.id] == c
    }

    ghost predicate ConnsValid()
      reads this, conns
    {
      && |conns| == |model.conns|
      && (forall i :: 0 <= i < |conns| ==>
            && conns[i].id == i
            && (conns[i].pool == null || conns[i].pool == this)
            && conns[i].Info() == model.conns[i])
    }

    ghost predicate OpsValid()
      reads this
    {
      && |pending| == |model.pending|
      && (forall i :: 0 <= i < |pending| ==>
            && Knows(pending[i].conn)
            && model.pending[i] == M.Op(pending[i].connect, pending[i].conn.id, pending[i].request))
    }

    ghost predicate Valid()
      reads this, conns
    {
      && ConnsValid()
      && Named(acquiring, model.acquiring, conns)
      && Named(all, model.all, conns)
      && Named(free, model.free, conns)
      && OpsValid()
      && config == model.config && queue == model.queue && closed == model.closed && scheduled == model.scheduled
    }

    /**
    Free connections are not repeated, and all but perhaps `x` belong to this pool: `acquireConnection` cannot
    throw.
    */
    ghost predicate FreeInPool(x: PoolConnection?)
      reads this, free
    {
      NoDup(free) && forall c :: c in free && c != x ==> c.pool == this
    }

    /** The pool is valid, and its connections are the given ones followed by new ones. */
    twostate predicate Kept(before: seq<PoolConnection>)
      reads this, conns
    {
      && Valid()
      && before <= conns
      && (forall i :: |before| <= i < |conns| ==> fresh(conns[i]))
    }

    ghost function RankOf(c: PoolConnection): nat
      reads c
    {
      if c.pool != null then 1 else 0
    }

    constructor (config: M.Config)
      ensures Valid() && FreeInPool(null) && model == M.Init(config)
    {
      this.config := config;
      acquiring, all, free, queue, closed := [], [], [], [], false;
      pending, scheduled, conns := [], [], [];
      model := M.Init(config);
    }

    method Schedule(r: M.Request, code: M.Code)
      requires Valid()
      modifies this`scheduled, this`model
      ensures Valid() && model == M.Schedule(old(model), r, code)
    {
      scheduled := scheduled + [M.Notice(r, code)];
      model := M.Schedule(model, r, code);
    }

    method EnqueueCallback(r: M.Request)
      requires Valid()
      modifies this`scheduled, this`queue, this`model
      ensures Valid() && model == M.EnqueueCallback(old(model), r)
    {
      if config.queueLimit != 0 && |queue| >= config.queueLimit {
        Schedule(r, M.EnqueueLimit);
        return;
      }
      queue := queue + [r];
      model := model.(queue := queue);
    }

    /** A connection of another pool, or of none, is an error. */
    method AcquireConnection(connection: PoolConnection, r: M.Request) returns (thrown: bool)
      requires Valid() && (connection.pool == this ==> Knows(connection))
      modifies this`acquiring, this`pending, this`model
      ensures Valid() && (thrown <==> connection.pool != this)
      ensures model == if thrown then old(model) else M.AcquireConnection(old(model), connection.id, r)
    {
      if connection.pool != this {
        return true;
      }
      thrown := false;
      NamedSnoc(acquiring, model.acquiring, conns, connection);
      acquiring := acquiring + [connection];
      pending := pending + [PendingOp(false, connection, r)];
      model := M.AcquireConnection(model, connection.id, r);
    }

    method OpenConnection(r: M.Request)
      requires Valid()
      modifies this`acquiring, this`all, this`pending, this`conns, this`model
      ensures Kept(old(conns))
      ensures model == M.OpenConnection(old(model), r)
    {
      var connection := new PoolConnection(|conns|, this);
      StartConnect(connection, r);
    }

    method StartConnect(connection: PoolConnection, r: M.Request)
      requires Valid() && connection.id == |conns| && connection.pool == this && connection !in conns
      requires connection.Info() == M.ConnInfo(true, M.Connecting, false)
      modifies this`acquiring, this`all, this`pending, this`conns, this`model
      ensures Valid() && conns == old(conns) + [connection] && model == M.OpenConnection(old(model), r)
    {
      NamedWithNew(acquiring, model.acquiring, conns, connection);
      NamedWithNew(all, model.all, conns, connection);
      NamedAmongMore(free, model.free, conns, conns + [connection]);
      acquiring := acquiring + [connection];
      all := all + [connection];
      pending := pending + [PendingOp(true, connection, r)];
      conns := conns + [connection];
      model := M.OpenConnection(model, r);
    }

    method TakeFree() returns (connection: PoolConnection)
      requires Valid() && FreeInPool(null) && free != []
      modifies this`free, this`model
      ensures Valid() && FreeInPool(null) && Knows(connection) && connection.pool == this
      ensures connection.id == old(model).free[0] && model == old(model).(free := old(model).free[1..])
    {
      connection := free[0];
      assert connection in free;
      NamedTail(free, model.free, conns);
      NoDupTail(free);
      assert forall c :: c in free[1..] ==> c in free;
      free := free[1..];
      model := model.(free := model.free[1..]);
    }

    method GetConnection(r: M.Request)
      requires Valid() && FreeInPool(null)
      modifies this
      ensures Kept(old(conns)) && FreeInPool(null)
      ensures model == M.GetConnection(old(model), r)
    {
      if closed {
        Schedule(r, M.PoolClosed);
        return;
      }
      if |free| > 0 {
        var connection := TakeFree();
        var _ := AcquireConnection(connection, r);
        return;
      }
      if config.connectionLimit == 0 || |all| < config.connectionLimit {
        OpenConnection(r);
        return;
      }
      if !config.waitForConnections {
        Schedule(r, M.ConnLimit);
        return;
      }
      EnqueueCallback(r);
    }

    method TurnAllAway()
      requires Valid()
      modifies this`queue, this`scheduled, this`model
      ensures Valid() &&
              model == old(model).(queue := [], scheduled := old(model).scheduled + M.ClosedNotices(old(queue)))
    {
      var waiting := queue;
      queue := [];
      model := model.(queue := []);
      var i := 0;
      while i < |waiting|
        invariant 0 <= i <= |waiting|
        invariant Valid()
        invariant model == old(model).(queue := [], scheduled := old(model).scheduled + M.ClosedNotices(waiting)[..i])
      {
        Schedule(waiting[i], M.PoolClosed);
        i := i + 1;
      }
    }

    method ServeQueue()
      requires Valid() && FreeInPool(null)
      modifies this
      ensures Kept(old(conns)) && FreeInPool(null)
      ensures model == M.ServeQueue(old(model))
    {
      if closed {
        TurnAllAway();
      } else if |queue| > 0 {
        var r := queue[0];
        queue := queue[1..];
        model := model.(queue := queue);
        GetConnection(r);
      }
    }

    /** A connection that another pool has let go serves the queue; one that it still has is an error. */
    method ReleaseConnection(connection: PoolConnection) returns (error: ReleaseError)
      requires Valid() && FreeInPool(null) && (connection.pool == this ==> Knows(connection))
      modifies this
      ensures Kept(old(conns)) && FreeInPool(null)
      ensures old(Knows(connection)) ==> model == M.ReleaseConnection(old(model), connection.id)
      ensures !old(Knows(connection)) ==>
                model == if connection.pool == null then M.ServeQueue(old(model)) else old(model)
      ensures error == if connection in old(acquiring) || connection.pool == null then NoError
                       else if connection.pool != this then WrongPool
                       else if connection in old(free) then AlreadyReleased
                       else NoError
    {
      if connection in acquiring {
        InNamed(acquiring, model.acquiring, conns, connection);
        return NoError;
      }
      if connection.pool != null {
        if connection.pool != this {
          return WrongPool;
        }
        NamedMember(acquiring, model.acquiring, conns, connection);
        NamedMember(free, model.free, conns, connection);
        if connection in free {
          return AlreadyReleased;
        }
        PushFree(connection);
      } else if Knows(connection) {
        NamedMember(acquiring, model.acquiring, conns, connection);
      }
      ServeQueue();
      return NoError;
    }

    method PushFree(connection: PoolConnection)
      requires Valid() && Knows(connection) && FreeInPool(null) && connection.pool == this && connection !in free
      modifies this`free, this`model
      ensures Valid() && FreeInPool(null) && model == old(model).(free := old(model).free + [connection.id])
    {
      NoDupSnoc(free, connection);
      NamedSnoc(free, model.free, conns, connection);
      free := free + [connection];
      model := model.(free := model.free + [connection.id]);
    }

    method UnlistAll(connection: PoolConnection)
      requires Valid() && Knows(connection)
      modifies this`all, this`model
      ensures Valid() && model == old(model).(all := Without(old(model).all, connection.id))
    {
      NamedWithout(all, model.all, conns, connection);
      all := SpliceConnection(all, connection);
      model := model.(all := Without(model.all, connection.id));
    }

    method UnlistFree(connection: PoolConnection)
      requires Valid() && Knows(connection)
      modifies this`free, this`model
      ensures Valid() && model == old(model).(free := Without(old(model).free, connection.id))
      ensures free == Without(old(free), connection)
    {
      NamedWithout(free, model.free, conns, connection);
      free := SpliceConnection(free, connection);
      model := model.(free := Without(model.free, connection.id));
    }

    method RemoveConnection(connection: PoolConnection)
      requires Valid() && Knows(connection) && FreeInPool(connection)
      modifies this, connection`pool
      ensures Kept(old(conns)) && FreeInPool(null)
      ensures model == M.RemoveConnection(old(model), connection.id)
    {
      connection.LetGo(this);
      WithoutNoDup(free, connection);
      UnlistAll(connection);
      UnlistFree(connection);
      var _ := ReleaseConnection(connection);
    }

    /** The start of `_purgeConnection`. */
    method DestroyIfDown(connection: PoolConnection)
      requires Valid() && Knows(connection) && FreeInPool(connection)
      modifies this, connection
      ensures Kept(old(conns)) && FreeInPool(connection)
      ensures model == if old(model).conns[connection.id].Disconnected()
                       then M.Destroy(old(model), connection.id) else old(model)
      decreases RankOf(connection), 2
    {
      if connection.link != M.Connected {
        connection.Destroy(this);
      }
    }

    method PurgeConnection(connection: PoolConnection)
      requires Valid() && Knows(connection) && FreeInPool(connection)
      modifies this, connection
      ensures Kept(old(conns)) && FreeInPool(null)
      ensures model == M.PurgeConnection(old(model), connection.id)
      decreases RankOf(connection), 3
    {
      DestroyIfDown(connection);
      RemoveConnection(connection);
      EndIfUp(connection);
    }

    /** The end of `_purgeConnection`. */
    method EndIfUp(connection: PoolConnection)
      requires Valid() && Knows(connection) && FreeInPool(null)
      modifies this`model, connection`quitting
      ensures Valid() && FreeInPool(null)
      ensures var info := old(model).conns[connection.id];
              model == if !info.Disconnected() && !info.quitting then M.Quit(old(model), connection.id) else old(model)
    {
      if connection.link == M.Connected && !connection.quitting {
        connection.RealEnd(this);
      }
    }

    method NoLongerAcquiring(connection: PoolConnection)
      requires Valid() && Knows(connection)
      modifies this`acquiring, this`model
      ensures Valid() && model == old(model).(acquiring := Without(old(model).acquiring, connection.id))
    {
      NamedWithout(acquiring, model.acquiring, conns, connection);
      acquiring := SpliceConnection(acquiring, connection);
      model := model.(acquiring := Without(model.acquiring, connection.id));
    }

    /** An operation has completed: it is no longer pending, nor its connection being acquired. */
    method OpIsOver(i: nat)
      requires Valid() && i < |pending|
      modifies this`acquiring, this`pending, this`model
      ensures Valid() && model == M.Over(old(model), i)
    {
      NoLongerAcquiring(pending[i].conn);
      pending := pending[..i] + pending[i + 1..];
      model := model.(pending := model.pending[..i] + model.pending[i + 1..]);
    }

    ghost method CallBack(r: M.Request, code: M.Code)
      requires Valid()
      modifies this`model
      ensures Valid() && model == M.CallBack(old(model), r, M.Failed(code))
    {
      model := M.CallBack(model, r, M.Failed(code));
    }

    ghost method HandOut(op: PendingOp)
      requires Valid()
      modifies this`model
      ensures Valid() && model == M.HandOut(old(model), M.Op(op.connect, op.conn.id, op.request))
    {
      model := M.HandOut(model, M.Op(op.connect, op.conn.id, op.request));
    }

    /** The callback given to `connect`. */
    method OnConnect(i: nat, failed: bool) returns (call: Call)
      requires Valid() && FreeInPool(null) && i < |pending| && pending[i].connect
      modifies this, pending[i].conn
      ensures Kept(old(conns)) && FreeInPool(null)
      ensures model == M.Complete(old(model), i, failed)
      ensures call == if old(closed) then CalledBack(M.PoolClosed)
                      else if failed then CalledBack(M.OperationError)
                      else CalledWith(old(pending)[i].conn)
    {
      var op := pending[i];
      OpIsOver(i);
      if closed || failed {
        var code := if closed then M.PoolClosed else M.OperationError;
        PurgeConnection(op.conn);
        CallBack(op.request, code);
        return CalledBack(code);
      }
      HandOut(op);
      return CalledWith(op.conn);
    }

    /** The callback given to `ping` and `changeUser`. */
    method OnOperationComplete(i: nat, failed: bool) returns (call: Call)
      requires Valid() && FreeInPool(null) && i < |pending| && !pending[i].connect
      modifies this, pending[i].conn
      ensures Kept(old(conns)) && FreeInPool(null)
      ensures model == M.Complete(old(model), i, failed)
      ensures call == if old(closed) || failed then NotCalled else CalledWith(old(pending)[i].conn)
    {
      var op := pending[i];
      OpIsOver(i);
      if closed || failed {
        queue := [op.request] + queue;
        model := model.(queue := queue);
        PurgeConnection(op.conn);
        return NotCalled;
      }
      HandOut(op);
      return CalledWith(op.conn);
    }

    method Close()
      requires Valid()
      modifies this`closed, this`model
      ensures Valid() && closed && model == old(model).(closed := true)
      ensures forall c :: c in model.all ==> c < |model.conns|
    {
      closed := true;
      model := model.(closed := true);
    }

    method PurgeFirst()
      requires Valid() && FreeInPool(null) && closed && all != []
      modifies this, conns
      ensures Valid() && FreeInPool(null) && closed && conns == old(conns)
      ensures forall c :: c in model.all ==> c < |model.conns|
      ensures |all| == old(|all|) - 1 && M.PurgeAll(model) == M.PurgeAll(old(model))
    {
      NamedTail(all, model.all, conns);
      ghost var c := model.all[0];
      assert c in model.all && all[0].id == c;
      M.PurgeWhenClosed(model, c);
      PurgeConnection(all[0]);
    }

    /** Every purge reports once to the variables returned, after `end` has returned. */
    method End() returns (closing: Closing<string>)
      requires Valid() && FreeInPool(null)
      modifies this, conns
      ensures Valid() && FreeInPool(null)
      ensures all == [] && model == M.End(old(model))
      ensures fresh(closing) && closing.Valid() && closing.reports == [] && closing.awaited == old(|all|)
    {
      var waitingClose := PurgeAll();
      closing := new Closing(waitingClose);
    }

    method PurgeAll() returns (waitingClose: nat)
      requires Valid() && FreeInPool(null)
      modifies this, conns
      ensures Valid() && FreeInPool(null)
      ensures all == [] && model == M.End(old(model)) && waitingClose == old(|all|)
    {
      Close();
      waitingClose := 0;
      while |all| != 0
        invariant Valid() && FreeInPool(null) && closed && conns == old(conns)
        invariant forall c :: c in model.all ==> c < |model.conns|
        invariant M.PurgeAll(model) == M.End(old(model))
        invariant waitingClose + |all| == old(|all|)
        decreases |all|
      {
        waitingClose := waitingClose + 1;
        PurgeFirst();
      }
    }

    /** The next scheduled callback is called. */
    method Tick() returns (notice: M.Notice)
      requires Valid() && scheduled != []
      modifies this`scheduled, this`model
      ensures Valid() && model == M.Deliver(old(model)) && notice == old(scheduled)[0]
    {
      notice := scheduled[0];
      scheduled := scheduled[1..];
      model := M.Deliver(model);
    }
  }
}
