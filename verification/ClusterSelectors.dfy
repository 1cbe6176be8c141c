/** How a namespace selects one of the nodes that are online: in turn, the first one, or any. */
module ClusterSelectors {

  datatype Selector = RR | Ordered | Random

  /** Where the round-robin selector goes on: an index past the ids starts over. */
  function First(index: nat, n: nat): nat {
    if index >= n then 0 else index
  }

  /**
  A node chosen among those that are online, and the selector's index before and after.  With one node online the
  selector is not asked.
  */
  predicate Chosen(selector: Selector, found: seq<string>, index: nat, id: string, after: nat) {
    && found != [] && id in found
    && (selector == Ordered ==> id == found[0])
    && (|found| == 1 || selector != RR ==> after == index)
    && (|found| > 1 && selector == RR ==>
          id == found[First(index, |found|)] && after == First(index, |found|) + 1)
  }

  /** Successive choices while the same nodes are online. */
  predicate Turns(selector: Selector, found: seq<string>, ids: seq<string>, indexes: seq<nat>) {
    && |indexes| == |ids| + 1
    && forall k :: 0 <= k < |ids| ==> Chosen(selector, found, indexes[k], ids[k], indexes[k + 1])
  }

  /** The place that is `k` places on from `p`, around a list of `n`. */
  function PlacesOn(p: nat, k: nat, n: nat): (r: nat)
    requires n > 0
    ensures r < n
  {
    (p + k) % n
  }

  lemma {:induction false} ModuloIs(a: nat, q: nat, r: nat, n: nat)
    requires n > 0 && r < n && a == q * n + r
    ensures a % n == r
  {
    var d := a / n - q;
    assert a == (a / n) * n + a % n;
    assert d * n == r - a % n;
  }

  lemma {:induction false} OnePlaceOn(p: nat, k: nat, n: nat)
    requires n > 0
    ensures PlacesOn(p, k + 1, n) == First(PlacesOn(p, k, n) + 1, n)
  {
    var a := p + k;
    var q, r := a / n, a % n;
    assert a + 1 == q * n + (r + 1);
    if r + 1 == n {
      assert a + 1 == (q + 1) * n;
      ModuloIs(a + 1, q + 1, 0, n);
    } else {
      ModuloIs(a + 1, q, r + 1, n);
    }
  }

  /** The round-robin choice number `k` is `k` places on from the first one. */
  lemma {:induction false} TakesTurns(found: seq<string>, ids: seq<string>, indexes: seq<nat>, k: nat)
    requires |found| > 1 && Turns(RR, found, ids, indexes) && k < |ids|
    ensures First(indexes[k], |found|) == PlacesOn(First(indexes[0], |found|), k, |found|)
    ensures ids[k] == found[PlacesOn(First(indexes[0], |found|), k, |found|)]
  {
    var n := |found|;
    var p := First(indexes[0], n);
    assert Chosen(RR, found, indexes[k], ids[k], indexes[k + 1]);
    if k == 0 {
      ModuloIs(p, 0, p, n);
    } else {
      assert Chosen(RR, found, indexes[k - 1], ids[k - 1], indexes[k]);
      TakesTurns(found, ids, indexes, k - 1);
      OnePlaceOn(p, k - 1, n);
    }
  }

  /** In as many successive choices as nodes are online every node has its turn once: they are the list, rotated. */
  lemma EachHasItsTurn(found: seq<string>, ids: seq<string>, indexes: seq<nat>)
    requires |found| > 1 && Turns(RR, found, ids, indexes) && |ids| == |found|
    ensures var p := First(indexes[0], |found|); ids == found[p..] + found[..p]
  {
    var n := |found|;
    var p := First(indexes[0], n);
    forall k | 0 <= k < n ensures ids[k] == (found[p..] + found[..p])[k] {
      TakesTurns(found, ids, indexes, k);
      if p + k < n {
        ModuloIs(p + k, 0, p + k, n);
      } else {
        ModuloIs(p + k, 1, p + k - n, n);
      }
    }
  }

  /**
  Who serves successive requests: with several nodes online the round-robin selector goes from node to node, `k` places
  on for request number `k`, so that as many requests as there are nodes reach each of them once; the ordered selector
  always gives the first one.
  */
  predicate Distributed(selector: Selector, found: seq<string>, ids: seq<string>, index: nat) {
    && found != []
    && (selector == Ordered ==> forall k :: 0 <= k < |ids| ==> ids[k] == found[0])
    && (selector == RR && |found| > 1 ==>
          var p := First(index, |found|);
          && (forall k :: 0 <= k < |ids| ==> ids[k] == found[PlacesOn(p, k, |found|)])
          && (|ids| == |found| ==> ids == found[p..] + found[..p]))
  }

  lemma InTurn(selector: Selector, found: seq<string>, ids: seq<string>, indexes: seq<nat>)
    requires found != [] && Turns(selector, found, ids, indexes)
    ensures Distributed(selector, found, ids, indexes[0])
  {
    forall k | 0 <= k < |ids|
      ensures selector == Ordered ==> ids[k] == found[0]
      ensures selector == RR && |found| > 1 ==> ids[k] == found[PlacesOn(First(indexes[0], |found|), k, |found|)]
    {
      assert Chosen(selector, found, indexes[k], ids[k], indexes[k + 1]);
      if selector == RR && |found| > 1 {
        TakesTurns(found, ids, indexes, k);
      }
    }
    if selector == RR && |found| > 1 && |ids| == |found| {
      EachHasItsTurn(found, ids, indexes);
    }
  }
}
