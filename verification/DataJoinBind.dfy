/** The keyed `bind` of a selection, with its three loops, on nodes whose datum is replaced in place. */
module DataJoinBind {
  import opened DataJoin
  import opened Lists
  import opened Options

  class DomNode<D> {
    var data: D

    constructor (data: D)
      ensures this.data == data
    {
      this.data := data;
    }
  }

  ghost function NodeKeys<D>(group: seq<DomNode<D>>, key: (D, nat) -> string): (ks: seq<string>)
    reads group
    ensures |ks| == |group|
  {
    seq(|group|, i requires 0 <= i < |group| reads group => key(group[i].data, i))
  }

  ghost function DataOf<D>(group: seq<DomNode<D>>): (data: seq<D>)
    reads group
    ensures |data| == |group|
  {
    seq(|group|, i requires 0 <= i < |group| reads group => group[i].data)
  }

  function DataKeys<D>(data: seq<D>, key: (D, nat) -> string): (ds: seq<string>)
    ensures |ds| == |data|
  {
    seq(|data|, i requires 0 <= i < |data| => key(data[i], i))
  }

  ghost predicate Distinct<D>(group: seq<DomNode<D>>) {
    forall i, j :: 0 <= i < j < |group| ==> group[i] != group[j]
  }

  /** The map holds, for every key of the nodes outside `gone`, the first node with that key. */
  ghost predicate Indexed<D>(byKey: map<string, DomNode<D>>, group: seq<DomNode<D>>, ks: seq<string>, gone: seq<string>)
    requires |ks| == |group|
  {
    && (forall k :: k in byKey <==> k in ks && k !in gone)
    && (forall k :: k in byKey ==> byKey[k] == group[FirstAt(ks, k)])
  }

  lemma {:induction false} RankGrows(ks: seq<string>, j: nat, i: nat)
    requires j < i <= |ks|
    ensures Rank(ks, j) + (if IsDup(ks, j) then 1 else 0) <= Rank(ks, i)
    decreases i
  {
    if j < i - 1 {
      RankGrows(ks, j, i - 1);
    }
  }

  /** A node that repeats a key is put aside at its place. */
  ghost predicate AsideIn<D>(exit: map<nat, DomNode<D>>, group: seq<DomNode<D>>, ks: seq<string>, m: nat, e: nat,
                             i: nat)
    requires i < |ks| == |group|
  {
    PutAside(ks, m, e, i) ==> e in exit && exit[e] == group[i]
  }

  /** Whatever is put aside is one of the first `n` nodes, at its place. */
  ghost predicate AsideFrom<D>(exit: map<nat, DomNode<D>>, group: seq<DomNode<D>>, ks: seq<string>, m: nat, n: nat,
                               e: nat)
    requires n <= |ks| == |group|
  {
    e in exit ==> exists i: nat :: i < n && PutAside(ks, m, e, i) && exit[e] == group[i]
  }

  /** The exit nodes after the first loop has seen `n` nodes. */
  ghost predicate Aside<D>(exit: map<nat, DomNode<D>>, group: seq<DomNode<D>>, ks: seq<string>, m: nat, n: nat)
    requires n <= |ks| == |group|
  {
    && (forall e: nat, i: nat :: i < n ==> AsideIn(exit, group, ks, m, e, i))
    && (forall e: nat :: AsideFrom(exit, group, ks, m, n, e))
  }

  lemma {:induction false} AsideStep<D>(exit: map<nat, DomNode<D>>, group: seq<DomNode<D>>, ks: seq<string>, m: nat,
                                        n: nat, next: nat, e0: nat)
    requires n < |ks| == |group| && next == n + 1 && e0 == m + Rank(ks, n) && Aside(exit, group, ks, m, n)
    ensures Aside(if IsDup(ks, n) then exit[e0 := group[n]] else exit, group, ks, m, next)
  {
    var exit' := if IsDup(ks, n) then exit[e0 := group[n]] else exit;
    forall e: nat, i: nat | i < next ensures AsideIn(exit', group, ks, m, e, i) {
      if i < n {
        assert AsideIn(exit, group, ks, m, e, i);
        RankGrows(ks, i, n);
      }
    }
    forall e: nat ensures AsideFrom(exit', group, ks, m, next, e) {
      AsideOnly(exit, exit', group, ks, m, n, next, e0, e);
    }
  }

  lemma {:induction false} AsideOnly<D>(exit: map<nat, DomNode<D>>, exit': map<nat, DomNode<D>>, group: seq<DomNode<D>>,
                                        ks: seq<string>, m: nat, n: nat, next: nat, e0: nat, e: nat)
    requires n < |ks| == |group| && next == n + 1 && e0 == m + Rank(ks, n) && AsideFrom(exit, group, ks, m, n, e)
    requires exit' == if IsDup(ks, n) then exit[e0 := group[n]] else exit
    ensures AsideFrom(exit', group, ks, m, next, e)
  {
    if IsDup(ks, n) && e == e0 {
      assert PutAside(ks, m, e, n);
    }
  }

  /** The first loop: nodes by key, the keys, and the nodes that repeat a key. */
  method IndexNodes<D>(group: seq<DomNode<D>>, m: nat, key: (D, nat) -> string)
    returns (byKey: map<string, DomNode<D>>, keyValues: seq<string>, exit: map<nat, DomNode<D>>)
    ensures keyValues == NodeKeys(group, key)
    ensures Indexed(byKey, group, keyValues, [])
    ensures Aside(exit, group, keyValues, m, |group|)
  {
    byKey, keyValues, exit := map[], [], map[];
    ghost var ks := NodeKeys(group, key);
    var j := m;
    for i := 0 to |group|
      invariant keyValues == ks[..i]
      invariant ByKey(byKey, group, ks, i)
      invariant j == m + Rank(ks, i)
      invariant Aside(exit, group, ks, m, i)
    {
      var keyValue := key(group[i].data, i);
      byKey, exit, j := IndexNode(group, m, ks, i, i + 1, keyValue, byKey, exit, j);
      keyValues := keyValues + [keyValue];
      TakeNext(ks, i);
    }
    AllIndexed(byKey, group, ks);
  }

  lemma AllIndexed<D>(byKey: map<string, DomNode<D>>, group: seq<DomNode<D>>, ks: seq<string>)
    requires ByKey(byKey, group, ks, |ks|)
    ensures Indexed(byKey, group, ks, []) && ks[..|ks|] == ks
  {
    assert ks[..|ks|] == ks;
  }

  /** One round: the first node of its key, or one more spare place. */
  method IndexNode<D>(group: seq<DomNode<D>>, ghost m: nat, ghost ks: seq<string>, i: nat, ghost next: nat,
                      keyValue: string, byKey: map<string, DomNode<D>>, exit: map<nat, DomNode<D>>, j: nat)
    returns (byKey': map<string, DomNode<D>>, exit': map<nat, DomNode<D>>, j': nat)
    requires i < |group| == |ks| && next == i + 1 && keyValue == ks[i] && j == m + Rank(ks, i)
    requires ByKey(byKey, group, ks, i) && Aside(exit, group, ks, m, i)
    ensures ByKey(byKey', group, ks, next) && Aside(exit', group, ks, m, next) && j' == m + Rank(ks, next)
  {
    ByKeyStep(byKey, group, ks, i, next);
    AsideStep(exit, group, ks, m, i, next, j);
    byKey', exit', j' := byKey, exit, j;
    if keyValue in byKey {
      exit' := exit[j := group[i]];
      j' := j + 1;
    } else {
      byKey' := byKey[keyValue := group[i]];
    }
  }

  /** The first node of each key among the first `n`. */
  ghost predicate ByKey<D>(byKey: map<string, DomNode<D>>, group: seq<DomNode<D>>, ks: seq<string>, n: nat) {
    && n <= |ks| == |group|
    && (forall k :: k in byKey <==> k in ks[..n])
    && (forall k :: k in byKey ==> k in ks && byKey[k] == group[FirstAt(ks, k)])
  }

  lemma {:induction false} ByKeyStep<D>(byKey: map<string, DomNode<D>>, group: seq<DomNode<D>>, ks: seq<string>, n: nat,
                                        next: nat)
    requires n < |ks| && next == n + 1 && ByKey(byKey, group, ks, n)
    ensures IsDup(ks, n) <==> ks[n] in byKey
    ensures ks[..next] == ks[..n] + [ks[n]]
    ensures ks[n] in byKey ==> ByKey(byKey, group, ks, next)
    ensures ks[n] !in byKey ==> ByKey(byKey[ks[n] := group[n]], group, ks, next)
  {
    assert ks[..next] == ks[..n] + [ks[n]];
    if ks[n] !in byKey {
      FirstIsFirst(ks, n);
    }
  }

  /**
  The data of the nodes after the first `n` data were joined: an updated node has its new datum, any other its old
  one.
  */
  ghost predicate DataJoined<D>(group: seq<DomNode<D>>, before: seq<D>, data: seq<D>, ks: seq<string>,
                                ds: seq<string>, n: nat)
    requires |before| == |group| == |ks| && n <= |data| == |ds|
    reads group
  {
    && (forall d: nat :: d < n && UpdateAt(ks, ds, d).Some? ==> group[UpdateAt(ks, ds, d).value].data == data[d])
    && (forall i: nat :: i < |group| && (forall d: nat :: d < n ==> UpdateAt(ks, ds, d) != Some(i)) ==>
          group[i].data == before[i])
  }

  lemma {:induction false} NotTakenYet(ks: seq<string>, ds: seq<string>, d: nat, d': nat)
    requires d' < d < |ds| && UpdateAt(ks, ds, d).Some?
    ensures UpdateAt(ks, ds, d') != UpdateAt(ks, ds, d)
  {
    assert ds[..d][d'] == ds[d'];
  }

  /** One datum that found its node. */
  method UpdateNode<D>(group: seq<DomNode<D>>, ghost before: seq<D>, data: seq<D>, ghost ks: seq<string>,
                       ghost ds: seq<string>, d: nat, node: DomNode<D>)
    requires |before| == |group| == |ks| && d < |data| == |ds| && Distinct(group)
    requires UpdateAt(ks, ds, d).Some? && node == group[UpdateAt(ks, ds, d).value]
    requires DataJoined(group, before, data, ks, ds, d)
    modifies node
    ensures DataJoined(group, before, data, ks, ds, d + 1)
  {
    ghost var i := UpdateAt(ks, ds, d).value;
    forall d': nat | d' < d ensures UpdateAt(ks, ds, d') != Some(i) {
      NotTakenYet(ks, ds, d, d');
    }
    node.data := data[d];
    assert forall j :: 0 <= j < |group| && j != i ==> group[j] != node;
  }

  lemma {:induction false} IndexedStep<D>(byKey: map<string, DomNode<D>>, group: seq<DomNode<D>>, ks: seq<string>,
                                          ds: seq<string>, d: nat)
    requires |ks| == |group| && d < |ds| && Indexed(byKey, group, ks, ds[..d])
    ensures Indexed(byKey - {ds[d]}, group, ks, ds[..d + 1])
    ensures ds[d] in byKey <==> UpdateAt(ks, ds, d).Some?
    ensures ds[d] in byKey ==> byKey[ds[d]] == group[UpdateAt(ks, ds, d).value]
  {
    assert ds[..d + 1] == ds[..d] + [ds[d]];
  }

  /** `update` and `enter` are right for the first `n` data: each has a node to update or enters. */
  ghost predicate Joined<D>(update: seq<DomNode?<D>>, enter: seq<Option<D>>, group: seq<DomNode<D>>, data: seq<D>,
                            ks: seq<string>, ds: seq<string>, n: nat)
    requires |ks| == |group| && n <= |data| == |ds|
  {
    && |update| == |enter| == n
    && (forall d: nat :: d < n ==>
          update[d] == if UpdateAt(ks, ds, d).Some? then group[UpdateAt(ks, ds, d).value] else null)
    && (forall d: nat :: d < n ==> enter[d] == if UpdateAt(ks, ds, d).Some? then None else Some(data[d]))
  }

  lemma SkipDatum<D>(group: seq<DomNode<D>>, before: seq<D>, data: seq<D>, ks: seq<string>, ds: seq<string>, d: nat)
    requires |before| == |group| == |ks| && d < |data| == |ds|
    requires DataJoined(group, before, data, ks, ds, d) && UpdateAt(ks, ds, d).None?
    ensures DataJoined(group, before, data, ks, ds, d + 1)
  {
  }

  method MatchDatum<D>(group: seq<DomNode<D>>, data: seq<D>, d: nat, keyValue: string, byKey: map<string, DomNode<D>>,
                       update0: seq<DomNode?<D>>, enter0: seq<Option<D>>,
                       ghost ks: seq<string>, ghost ds: seq<string>, ghost before: seq<D>)
    returns (update: seq<DomNode?<D>>, enter: seq<Option<D>>)
    requires |before| == |group| == |ks| && d < |data| == |ds| && Distinct(group)
    requires keyValue in byKey <==> UpdateAt(ks, ds, d).Some?
    requires keyValue in byKey ==> byKey[keyValue] == group[UpdateAt(ks, ds, d).value]
    requires Joined(update0, enter0, group, data, ks, ds, d)
    requires DataJoined(group, before, data, ks, ds, d)
    modifies group
    ensures Joined(update, enter, group, data, ks, ds, d + 1)
    ensures DataJoined(group, before, data, ks, ds, d + 1)
  {
    if keyValue in byKey {
      var node := byKey[keyValue];
      UpdateNode(group, before, data, ks, ds, d, node);
      update := update0 + [node];
      enter := enter0 + [None];
    } else {
      SkipDatum(group, before, data, ks, ds, d);
      update := update0 + [null];
      enter := enter0 + [Some(data[d])];
    }
  }

  /** The second loop: every datum takes the first node with its key, or enters. */
  method MatchData<D>(group: seq<DomNode<D>>, data: seq<D>, key: (D, nat) -> string, byKey0: map<string, DomNode<D>>,
                      ghost ks: seq<string>, ghost ds: seq<string>, ghost before: seq<D>)
    returns (update: seq<DomNode?<D>>, enter: seq<Option<D>>, byKey: map<string, DomNode<D>>)
    requires |before| == |group| == |ks| && Distinct(group) && ds == DataKeys(data, key)
    requires Indexed(byKey0, group, ks, []) && before == DataOf(group)
    modifies group
    ensures Indexed(byKey, group, ks, ds)
    ensures Joined(update, enter, group, data, ks, ds, |data|)
    ensures DataJoined(group, before, data, ks, ds, |data|)
  {
    update, enter, byKey := [], [], byKey0;
    for d := 0 to |data|
      invariant Indexed(byKey, group, ks, ds[..d])
      invariant Joined(update, enter, group, data, ks, ds, d)
      invariant DataJoined(group, before, data, ks, ds, d)
    {
      var keyValue := key(data[d], d);
      IndexedStep(byKey, group, ks, ds, d);
      update, enter := MatchDatum(group, data, d, keyValue, byKey, update, enter, ks, ds, before);
      byKey := byKey - {keyValue};
    }
    assert ds[..|data|] == ds;
  }

  /** The third loop: nodes whose key no datum has exit at their own index. */
  method ExitNodes<D>(group: seq<DomNode<D>>, keyValues: seq<string>, byKey: map<string, DomNode<D>>,
                      exit0: map<nat, DomNode<D>>, ghost ds: seq<string>)
    returns (exit: map<nat, DomNode<D>>)
    requires |keyValues| == |group| && Indexed(byKey, group, keyValues, ds)
    ensures forall e: nat :: Unmatched(keyValues, ds, e) ==> e in exit && exit[e] == group[e]
    ensures forall e: nat :: !Unmatched(keyValues, ds, e) ==>
              (e in exit <==> e in exit0) && (e in exit ==> exit[e] == exit0[e])
  {
    exit := exit0;
    for i := 0 to |group|
      invariant forall e: nat :: e < i && Unmatched(keyValues, ds, e) ==> e in exit && exit[e] == group[e]
      invariant forall e: nat :: e >= i || !Unmatched(keyValues, ds, e) ==>
                  (e in exit <==> e in exit0) && (e in exit ==> exit[e] == exit0[e])
    {
      if keyValues[i] in byKey {
        exit := exit[i := group[i]];
      }
    }
  }

  lemma {:induction false} ExitsAreSpots<D>(exit0: map<nat, DomNode<D>>, exit: map<nat, DomNode<D>>,
                                            group: seq<DomNode<D>>, ks: seq<string>, ds: seq<string>, e: nat, i: nat)
    requires |ks| == |group| && Distinct(group) && i < |group|
    requires Aside(exit0, group, ks, |ds|, |group|)
    requires Unmatched(ks, ds, e) ==> e in exit && exit[e] == group[e]
    requires !Unmatched(ks, ds, e) ==> (e in exit <==> e in exit0) && (e in exit ==> exit[e] == exit0[e])
    ensures (e in exit && exit[e] == group[i]) <==> ExitsAt(ks, ds, e, i)
  {
    assert AsideIn(exit0, group, ks, |ds|, e, i);
    assert AsideFrom(exit0, group, ks, |ds|, |group|, e);
  }

  /**
  The join.  `update` and `enter` have one place per datum, `exit` is the sparse array of exit nodes; the first array
  index behind the data is the first spare place.
  */
  method Bind<D>(group: seq<DomNode<D>>, data: seq<D>, key: (D, nat) -> string)
    returns (update: seq<DomNode?<D>>, enter: seq<Option<D>>, exit: map<nat, DomNode<D>>)
    requires Distinct(group)
    modifies group
    ensures |update| == |enter| == |data| && forall d: nat :: d < |data| ==> (update[d] == null <==> enter[d].Some?)
    ensures var ks, ds := old(NodeKeys(group, key)), DataKeys(data, key);
            && Joined(update, enter, group, data, ks, ds, |data|)
            && (forall e: nat, i: nat :: i < |group| ==> ExitRight(exit, group, ks, ds, e, i))
    ensures forall d: nat, i: nat :: d < |data| && i < |group| && update[d] == group[i] ==>
              old(key(group[i].data, i)) == key(data[d], d) && group[i].data == data[d]
    ensures forall i: nat :: i < |group| && group[i] !in update ==> group[i].data == old(group[i].data)
  {
    ghost var before := DataOf(group);
    ghost var ks, ds := NodeKeys(group, key), DataKeys(data, key);
    var byKey, keyValues, exit0 := IndexNodes(group, |data|, key);
    update, enter, byKey := MatchData(group, data, key, byKey, ks, ds, before);
    exit := ExitNodes(group, keyValues, byKey, exit0, ds);
    ExitsAreRight(exit0, exit, group, ks, ds);
    UpdatesAre(update, enter, group, data, ks, ds);
  }

  /** Node `i` exits at place `e` exactly if it should. */
  ghost predicate ExitRight<D>(exit: map<nat, DomNode<D>>, group: seq<DomNode<D>>, ks: seq<string>, ds: seq<string>,
                               e: nat, i: nat)
    requires i < |group| == |ks|
  {
    (e in exit && exit[e] == group[i]) <==> ExitsAt(ks, ds, e, i)
  }

  lemma {:induction false} ExitsAreRight<D>(exit0: map<nat, DomNode<D>>, exit: map<nat, DomNode<D>>,
                                            group: seq<DomNode<D>>, ks: seq<string>, ds: seq<string>)
    requires |ks| == |group| && Distinct(group) && Aside(exit0, group, ks, |ds|, |group|)
    requires forall e: nat :: Unmatched(ks, ds, e) ==> e in exit && exit[e] == group[e]
    requires forall e: nat :: !Unmatched(ks, ds, e) ==>
               (e in exit <==> e in exit0) && (e in exit ==> exit[e] == exit0[e])
    ensures forall e: nat, i: nat :: i < |group| ==> ExitRight(exit, group, ks, ds, e, i)
  {
    forall e: nat, i: nat | i < |group| ensures ExitRight(exit, group, ks, ds, e, i) {
      ExitsAreSpots(exit0, exit, group, ks, ds, e, i);
    }
  }

  /** An updated node is that of its datum, and has its key. */
  lemma {:induction false} UpdatesAre<D>(update: seq<DomNode?<D>>, enter: seq<Option<D>>, group: seq<DomNode<D>>,
                                         data: seq<D>, ks: seq<string>, ds: seq<string>)
    requires |ks| == |group| && |data| == |ds| && Distinct(group)
    requires Joined(update, enter, group, data, ks, ds, |data|)
    ensures forall d: nat, i: nat :: d < |data| && i < |group| && update[d] == group[i] ==>
              UpdateAt(ks, ds, d) == Some(i) && ks[i] == ds[d]
    ensures forall i: nat :: i < |group| && group[i] !in update ==>
              forall d: nat :: d < |data| ==> UpdateAt(ks, ds, d) != Some(i)
  {
    forall i: nat, d: nat | i < |group| && group[i] !in update && d < |data| ensures UpdateAt(ks, ds, d) != Some(i) {
      assert update[d] in update;
    }
  }
}
