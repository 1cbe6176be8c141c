/**
The keyed data join of a selection: nodes and data are matched by their keys; data without a node enter, nodes without
a datum exit.
*/
module DataJoin {
  import opened Options

  // ----- What the join computes, by the keys of the nodes and of the data -----

  /** An earlier node has the same key. */
  predicate IsDup(ks: seq<string>, i: nat)
    requires i < |ks|
  {
    ks[i] in ks[..i]
  }

  function FirstAt(ks: seq<string>, k: string): (i: nat)
    requires k in ks
    ensures i < |ks| && ks[i] == k && k !in ks[..i]
  {
    if ks[0] == k then 0 else
      assert k in ks[1..];
      var i := 1 + FirstAt(ks[1..], k);
      assert ks[..i] == [ks[0]] + ks[1..][..i - 1];
      i
  }

  /** How many of the first `i` nodes repeat a key. */
  function Rank(ks: seq<string>, i: nat): nat
    requires i <= |ks|
  {
    if i == 0 then 0 else Rank(ks, i - 1) + if IsDup(ks, i - 1) then 1 else 0
  }

  /** The node updated by datum `d`: the first with its key, if no earlier datum took it. */
  function UpdateAt(ks: seq<string>, ds: seq<string>, d: nat): Option<nat>
    requires d < |ds|
  {
    if ds[d] in ks && ds[d] !in ds[..d] then Some(FirstAt(ks, ds[d])) else None
  }

  predicate Unmatched(ks: seq<string>, ds: seq<string>, i: nat) {
    i < |ks| && ks[i] !in ds
  }

  /** Node `i` repeats a key and was put at index `e` of the exit nodes, behind all data. */
  predicate PutAside(ks: seq<string>, m: nat, e: nat, i: nat) {
    i < |ks| && IsDup(ks, i) && e == m + Rank(ks, i)
  }

  /** Node `i` ends up at index `e` of the exit nodes: an unmatched node takes its own index, whoever is there. */
  predicate ExitsAt(ks: seq<string>, ds: seq<string>, e: nat, i: nat) {
    if Unmatched(ks, ds, e) then i == e else PutAside(ks, |ds|, e, i)
  }

  // ----- Every node once -----

  datatype Spot = InUpdate(at: nat) | InExit(at: nat)

  ghost predicate IsAt(ks: seq<string>, ds: seq<string>, i: nat, spot: Spot) {
    match spot
    case InUpdate(d) => d < |ds| && UpdateAt(ks, ds, d) == Some(i)
    case InExit(e) => ExitsAt(ks, ds, e, i)
  }

  /** The node is at one spot of the update and exit selections, and at no other. */
  ghost predicate Once(ks: seq<string>, ds: seq<string>, i: nat) {
    exists spot :: IsAt(ks, ds, i, spot) && forall other :: IsAt(ks, ds, i, other) ==> other == spot
  }

  /**
  A repeated key does no harm to node `i` if its spare place is taken over exactly when it has a place of its own.
  */
  predicate Harmless(ks: seq<string>, ds: seq<string>, i: nat)
    requires i < |ks|
  {
    IsDup(ks, i) ==> (Unmatched(ks, ds, i) <==> Unmatched(ks, ds, |ds| + Rank(ks, i)))
  }

  lemma SameFirst(ks: seq<string>, i: nat, j: nat)
    requires i < |ks| && j < |ks| && ks[i] == ks[j] && !IsDup(ks, i) && !IsDup(ks, j)
    ensures i == j
  {
  }

  lemma FirstIsFirst(ks: seq<string>, i: nat)
    requires i < |ks| && !IsDup(ks, i)
    ensures ks[i] in ks && FirstAt(ks, ks[i]) == i
  {
    assert ks[i] in ks;
    var j := FirstAt(ks, ks[i]);
    SameFirst(ks, i, j);
  }

  lemma {:induction false} MatchedFirst(ks: seq<string>, ds: seq<string>, i: nat)
    requires i < |ks| && !IsDup(ks, i) && !Unmatched(ks, ds, i)
    ensures Once(ks, ds, i)
  {
    FirstIsFirst(ks, i);
    var d := FirstAt(ds, ks[i]);
    assert IsAt(ks, ds, i, InUpdate(d));
    forall other | IsAt(ks, ds, i, other) ensures other == InUpdate(d) {
      match other
      case InUpdate(d') =>
        assert ds[d'] == ks[i];
        SameFirst(ds, d, d');
      case InExit(e) =>
    }
  }

  lemma UpdatedIsNoDup(ks: seq<string>, ds: seq<string>, i: nat, d: nat)
    requires i < |ks| && d < |ds| && UpdateAt(ks, ds, d) == Some(i)
    ensures !IsDup(ks, i) && !Unmatched(ks, ds, i)
  {
  }

  lemma UnmatchedFirst(ks: seq<string>, ds: seq<string>, i: nat)
    requires i < |ks| && !IsDup(ks, i) && Unmatched(ks, ds, i)
    ensures Once(ks, ds, i)
  {
    assert IsAt(ks, ds, i, InExit(i));
    forall other | IsAt(ks, ds, i, other) ensures other == InExit(i) {
      match other
      case InUpdate(d) => UpdatedIsNoDup(ks, ds, i, d);
      case InExit(e) =>
    }
  }

  /** Where a node with a repeated key can be: at its own index, and at its spare place. */
  lemma DupSpots(ks: seq<string>, ds: seq<string>, i: nat, spot: Spot)
    requires i < |ks| && IsDup(ks, i)
    ensures IsAt(ks, ds, i, spot) <==>
              var e := |ds| + Rank(ks, i);
              (spot == InExit(i) && Unmatched(ks, ds, i)) || (spot == InExit(e) && !Unmatched(ks, ds, e))
  {
    match spot
    case InUpdate(d) =>
      if d < |ds| && UpdateAt(ks, ds, d) == Some(i) {
        UpdatedIsNoDup(ks, ds, i, d);
      }
    case InExit(e) =>
  }

  lemma DupOnce(ks: seq<string>, ds: seq<string>, i: nat)
    requires i < |ks| && IsDup(ks, i)
    ensures Once(ks, ds, i) <==> Harmless(ks, ds, i)
  {
    var e := |ds| + Rank(ks, i);
    forall spot ensures IsAt(ks, ds, i, spot) <==>
        (spot == InExit(i) && Unmatched(ks, ds, i)) || (spot == InExit(e) && !Unmatched(ks, ds, e)) {
      DupSpots(ks, ds, i, spot);
    }
    if Unmatched(ks, ds, i) {
      assert IsAt(ks, ds, i, InExit(i));
      assert Unmatched(ks, ds, e) || (IsAt(ks, ds, i, InExit(e)) && InExit(e) != InExit(i));
    } else if !Unmatched(ks, ds, e) {
      assert IsAt(ks, ds, i, InExit(e));
    }
  }

  /** The join keeps track of every node exactly if the repeated keys do no harm. */
  lemma EveryNodeOnce(ks: seq<string>, ds: seq<string>)
    ensures (forall i: nat :: i < |ks| ==> Once(ks, ds, i)) <==> (forall i: nat :: i < |ks| ==> Harmless(ks, ds, i))
  {
    forall i: nat | i < |ks| ensures Once(ks, ds, i) <==> Harmless(ks, ds, i) {
      if IsDup(ks, i) {
        DupOnce(ks, ds, i);
      } else if Unmatched(ks, ds, i) {
        UnmatchedFirst(ks, ds, i);
      } else {
        MatchedFirst(ks, ds, i);
      }
    }
  }

  /** In particular it does when the keys of the nodes are distinct, whatever the keys of the data. */
  lemma DistinctKeys(ks: seq<string>, ds: seq<string>)
    requires forall i, j :: 0 <= i < j < |ks| ==> ks[i] != ks[j]
    ensures forall i: nat :: i < |ks| ==> Once(ks, ds, i)
  {
    forall i: nat | i < |ks| ensures Harmless(ks, ds, i) {
    }
    EveryNodeOnce(ks, ds);
  }

  /** A node can get lost: the first two nodes share a key with the first datum, the third has a key of its own. */
  lemma NodeLost()
    ensures !exists spot :: IsAt(["a", "a", "b"], ["a", "x"], 1, spot)
  {
    var ks, ds := ["a", "a", "b"], ["a", "x"];
    assert Rank(ks, 1) == 0;
    assert IsDup(ks, 1);
    assert !IsDup(ks, 2);
    forall spot | IsAt(ks, ds, 1, spot) ensures false {
      match spot
      case InUpdate(d) => UpdatedIsNoDup(ks, ds, 1, d);
      case InExit(e) =>
    }
  }
}
