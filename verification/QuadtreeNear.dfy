/** Which points the quadtree keeps together: those whose distances in `x` and in `y` add up to less than 0.01. */
module QuadtreeNear {
  import opened Quadtree
  import opened QuadtreeEnds

  /** `p` is inside the diamond around `v`. */
  predicate Near(v: Point, p: Point) {
    && -0.01 < (v.x - p.x) + (v.y - p.y) < 0.01
    && -0.01 < (v.x - p.x) - (v.y - p.y) < 0.01
  }

  ghost predicate NearIn(k: Tree, v: Point) {
    exists p :: p in k.Points() && Near(v, p)
  }

  /** A node above the leaves holds a point only if a point near it is below. */
  ghost predicate Crowded(t: Tree) {
    t.Node? ==>
      && (!t.leaf && t.point.Taken? ==> exists i :: 0 <= i < 4 && NearIn(t.Kid(i), t.point.at))
      && (forall i :: 0 <= i < 4 ==> Crowded(t.Kid(i)))
  }

  /** A leaf that gets a second point keeps its own exactly if the two are near. */
  lemma KeepsExactlyNear(t: Tree, p: Point, b: Box)
    requires t.Node? && Placed(t, b) && Ends(t, p, b) && t.leaf && t.point.Taken?
    ensures Insert(t, p, b).point == if Near(t.point.at, p) then t.point else Vacant
  {
    if Coincide(t.point.at, p) {
      PutIsSmaller(t, p, b);
    } else {
      LowersPoint(t, p, b);
    }
  }

  lemma PutCrowded(t: Tree, i: nat, k: Tree)
    requires t.Node? && i < 4 && Crowded(k) && t.Kid(i).Points() <= k.Points()
    requires forall j :: 0 <= j < 4 ==> Crowded(t.Kid(j))
    requires t.point.Taken? ==> NearIn(k, t.point.at) || exists j :: 0 <= j < 4 && NearIn(t.Kid(j), t.point.at)
    ensures Crowded(t.(leaf := false).WithKid(i, k))
  {
    var r := t.(leaf := false).WithKid(i, k);
    assert forall j :: 0 <= j < 4 && j != i ==> r.Kid(j) == t.Kid(j);
    assert r.Kid(i) == k;
    if t.point.Taken? && !NearIn(k, t.point.at) {
      var j :| 0 <= j < 4 && NearIn(t.Kid(j), t.point.at);
      var q :| q in t.Kid(j).Points() && Near(t.point.at, q);
      assert j == i ==> q in k.Points();
      assert NearIn(r.Kid(j), t.point.at);
    }
  }

  lemma LoweredCrowded(t: Tree, b: Box)
    requires t.Node? && Placed(t, b) && t.leaf && t.point.Taken?
    ensures Crowded(Lowered(t, b))
  {
    LeafIsBare(t, b);
    PutCrowded(t.(point := Vacant), b.Quarter(t.point.at), Fresh.(point := t.point));
  }

  /** Insertion moves a point down from its node unless a point near it has come below. */
  lemma {:induction false} InsertCrowded(t: Tree, p: Point, b: Box)
    requires t.Node? && Placed(t, b) && Ends(t, p, b) && Crowded(t)
    ensures Crowded(Insert(t, p, b))
    decreases t.Height(), Splits(t, p, b), 0
  {
    var i, c := b.Quarter(p), b.Child(b.Quarter(p));
    if t.leaf && t.point.Vacant? {
      LeafIsBare(t, b);
    } else if t.leaf && !Coincide(t.point.at, p) {
      var t1 := Lowered(t, b);
      SplitIsSmaller(t, p, b);
      LowersPoint(t, p, b);
      LoweredCrowded(t, b);
      KidCrowded(t1, i, p, c);
      PutCrowded(t1, i, Insert(Target(t1, i), p, c));
      assert Put(t1, p, b) == t1.(leaf := false).WithKid(i, Insert(Target(t1, i), p, c));
    } else {
      PutIsSmaller(t, p, b);
      KidCrowded(t, i, p, c);
      PutCrowded(t, i, Insert(Target(t, i), p, c));
      assert Insert(t, p, b) == Put(t, p, b);
    }
  }

  lemma {:induction false} KidCrowded(t: Tree, i: nat, p: Point, c: Box)
    requires t.Node? && i < 4 && Placed(Target(t, i), c) && Ends(Target(t, i), p, c) && Crowded(t.Kid(i))
    ensures var k := Insert(Target(t, i), p, c); Crowded(k) && t.Kid(i).Points() <= k.Points() && p in k.Points()
    decreases Target(t, i).Height(), Splits(Target(t, i), p, c), 1
  {
    InsertAdds(Target(t, i), p, c);
    InsertCrowded(Target(t, i), p, c);
  }
}
