/**
The quadtree as nodes that are updated in place, each method proved to compute the function on trees of the same
name.
*/
module QuadtreeNodes {
  import opened Lists
  import opened Options
  import opened T = Quadtree
  import opened QuadtreeEnds
  import opened QuadtreeNear

  class QuadNode {
    var leaf: bool
    var nodes: seq<QuadNode?>
    var point: Place
    ghost var tree: Tree
    ghost var Repr: set<object>

    ghost predicate Valid()
      reads this, Repr
      decreases Repr
    {
      && this in Repr && |nodes| == 4
      && tree.Node? && tree.leaf == leaf && tree.point == point
      && (forall i :: 0 <= i < 4 ==>
            if nodes[i] == null then tree.Kid(i) == Nil
            else
              && nodes[i] in Repr && nodes[i].Repr <= Repr && this !in nodes[i].Repr
              && nodes[i].Valid()
              && tree.Kid(i) == nodes[i].tree)
      && (forall i, j :: 0 <= i < j < 4 && nodes[i] != null && nodes[j] != null ==> nodes[i].Repr !! nodes[j].Repr)
    }

    constructor ()
      ensures Valid() && fresh(Repr) && tree == Fresh
    {
      leaf, point, nodes := true, Vacant, [null, null, null, null];
      tree := Fresh;
      Repr := {this};
    }

    method Insert(p: Point, b: Box)
      requires Valid() && Placed(tree, b) && Ends(tree, p, b)
      modifies Repr
      ensures Valid() && fresh(Repr - old(Repr))
      ensures tree == T.Insert(old(tree), p, b)
      decreases tree.Height(), Splits(tree, p, b), 1
    {
      if leaf && point.Vacant? {
        point := Taken(p);
        tree := tree.(point := Taken(p));
      } else if leaf && !Coincide(point.at, p) {
        Split(p, b);
      } else {
        PutIsSmaller(tree, p, b);
        Put(p, b);
      }
    }

    /** A leaf with another point passes it down before it takes in `p`. */
    method Split(p: Point, b: Box)
      requires Valid() && Placed(tree, b) && Ends(tree, p, b) && leaf && point.Taken? && !Coincide(point.at, p)
      modifies Repr
      ensures Valid() && fresh(Repr - old(Repr))
      ensures tree == T.Insert(old(tree), p, b)
      decreases tree.Height(), Splits(tree, p, b), 0
    {
      SplitIsSmaller(tree, p, b);
      assert T.Put(tree.(point := Vacant), tree.point.at, b) == Lowered(tree, b);
      var v := point.at;
      point := Vacant;
      tree := tree.(point := Vacant);
      Put(v, b);
      Put(p, b);
    }

    /** `insertChild` */
    method Put(p: Point, b: Box)
      requires Valid() && Placed(Target(tree, b.Quarter(p)), b.Child(b.Quarter(p)))
      requires Ends(Target(tree, b.Quarter(p)), p, b.Child(b.Quarter(p)))
      modifies Repr
      ensures Valid() && fresh(Repr - old(Repr))
      ensures tree == T.Put(old(tree), p, b)
      decreases Target(tree, b.Quarter(p)).Height(), Splits(Target(tree, b.Quarter(p)), p, b.Child(b.Quarter(p))), 3
    {
      var i := b.Quarter(p);
      EnsureKid(i);
      InsertBelow(i, p, b.Child(i));
    }

    method InsertBelow(i: nat, p: Point, c: Box)
      requires Valid() && i < 4 && nodes[i] != null
      requires nodes[i].tree.Node? && Placed(nodes[i].tree, c) && Ends(nodes[i].tree, p, c)
      modifies Repr
      ensures Valid() && fresh(Repr - old(Repr))
      ensures tree == old(tree).WithKid(i, T.Insert(old(nodes[i].tree), p, c))
      decreases nodes[i].tree.Height(), Splits(nodes[i].tree, p, c), 2
    {
      nodes[i].Insert(p, c);
      Repr := Repr + nodes[i].Repr;
      tree := tree.WithKid(i, nodes[i].tree);
    }

    /** The node stops being a leaf and has a child in quarter `i`. */
    method EnsureKid(i: nat)
      requires Valid() && i < 4
      modifies this
      ensures Valid() && fresh(Repr - old(Repr)) && nodes[i] != null
      ensures tree == old(tree).(leaf := false).WithKid(i, Target(old(tree), i))
    {
      leaf := false;
      tree := tree.(leaf := false);
      if nodes[i] == null {
        var n := new QuadNode();
        AddKid(i, n);
      }
    }

    method AddKid(i: nat, n: QuadNode)
      requires Valid() && i < 4 && nodes[i] == null && n.Valid() && n.Repr !! Repr
      modifies this
      ensures Valid() && Repr == old(Repr) + n.Repr && nodes[i] == n && tree == old(tree).WithKid(i, n.tree)
    {
      nodes := nodes[i := n];
      Repr := Repr + n.Repr;
      tree := tree.WithKid(i, n.tree);
    }
  }

  /** The box of a call without bounds: the smallest one around the points, made square by moving its far sides. */
  method Bounds(points: seq<Point>) returns (b: Box)
    requires points != []
    ensures forall p :: p in points ==> b.Has(p)
    ensures b.x2 - b.x1 == b.y2 - b.y1
    ensures exists p, q :: p in points && q in points && b.x1 == p.x && b.y1 == q.y
    ensures exists p :: p in points && (b.x2 == p.x || b.y2 == p.y)
  {
    var x1, y1, x2, y2 := points[0].x, points[0].y, points[0].x, points[0].y;
    ghost var left, top, right, bottom := points[0], points[0], points[0], points[0];
    for i := 0 to |points|
      invariant left in points && left.x == x1 && top in points && top.y == y1
      invariant right in points && right.x == x2 && bottom in points && bottom.y == y2
      invariant x1 <= x2 && y1 <= y2
      invariant forall k :: 0 <= k < i ==> x1 <= points[k].x <= x2 && y1 <= points[k].y <= y2
    {
      var p := points[i];
      if p.x < x1 { x1 := p.x; left := p; }
      if p.y < y1 { y1 := p.y; top := p; }
      if p.x > x2 { x2 := p.x; right := p; }
      if p.y > y2 { y2 := p.y; bottom := p; }
    }
    var dx, dy := x2 - x1, y2 - y1;
    if dx > dy { y2 := y1 + dx; } else { x2 := x1 + dy; }
    b := Box(x1, y1, x2, y2);
    forall p | p in points ensures b.Has(p) {
      var k :| 0 <= k < |points| && points[k] == p;
    }
  }

  /** `root.add`, for any point whose insertion ends. */
  method Add(root: QuadNode, p: Point, b: Box)
    requires root.Valid() && Placed(root.tree, b) && Ends(root.tree, p, b)
    modifies root.Repr
    ensures root.Valid() && fresh(root.Repr - old(root.Repr))
    ensures Placed(root.tree, b) && root.tree.Points() == old(root.tree.Points()) + multiset{p}
    ensures root.tree == T.Insert(old(root.tree), p, b)
  {
    InsertAdds(root.tree, p, b);
    root.Insert(p, b);
  }

  lemma AllStoredAreFound(t: Tree, b: Box, points: seq<Point>)
    requires Placed(t, b) && t.Points() == multiset(points)
    ensures forall p :: Finds(t, p, b) <==> p in points
  {
    forall p ensures Finds(t, p, b) <==> p in points {
      StoredIsFound(t, p, b);
    }
  }

  ghost predicate AllIn(points: seq<Point>, b: Box) {
    forall p :: p in points ==> b.Has(p)
  }

  /** The tree after the first `i` points. */
  ghost predicate Built(t: Tree, points: seq<Point>, i: nat, b: Box) {
    && i <= |points|
    && t.Node? && Placed(t, b) && AllEnd(t, points[i..], b)
    && t.Points() == multiset(points[..i])
    && Crowded(t) && (AllIn(points, b) ==> InBoxes(t, b))
  }

  lemma {:induction false} BuiltNext(t: Tree, points: seq<Point>, i: nat, b: Box)
    requires i < |points| && Built(t, points, i, b)
    ensures Ends(t, points[i], b) && Built(T.Insert(t, points[i], b), points, i + 1, b)
  {
    EndsNext(t, points[i..], b);
    assert points[i..][1..] == points[i + 1..];
    TakeNext(points, i);
    InsertCrowded(t, points[i], b);
    if AllIn(points, b) {
      assert points[i] in points;
      InsertInBoxes(t, points[i], b);
    }
  }

  lemma {:induction false} EndsNext(t: Tree, points: seq<Point>, b: Box)
    requires points != [] && t.Node? && Placed(t, b) && AllEnd(t, points, b)
    ensures Ends(t, points[0], b)
    ensures var t' := T.Insert(t, points[0], b);
            t'.Node? && Placed(t', b) && AllEnd(t', points[1..], b) && t'.Points() == t.Points() + multiset{points[0]}
  {
    InsertAdds(t, points[0], b);
  }

  lemma BuiltFirst(points: seq<Point>, b: Box)
    requires Placed(Fresh, b) && AllEnd(Fresh, points, b)
    ensures Built(Fresh, points, 0, b)
  {
    assert points[0..] == points;
    FreshIsPlaced(b, Point(0.0, 0.0));
  }

  method AddNext(root: QuadNode, points: seq<Point>, i: nat, b: Box)
    requires root.Valid() && i < |points| && Built(root.tree, points, i, b)
    modifies root.Repr
    ensures root.Valid() && fresh(root.Repr - old(root.Repr)) && Built(root.tree, points, i + 1, b)
  {
    BuiltNext(root.tree, points, i, b);
    Add(root, points[i], b);
  }

  /** The loop over the points, which may lie outside the box. */
  method AddAll(root: QuadNode, points: seq<Point>, b: Box)
    requires root.Valid() && Built(root.tree, points, 0, b)
    modifies root.Repr
    ensures root.Valid() && fresh(root.Repr - old(root.Repr)) && Built(root.tree, points, |points|, b)
  {
    for i := 0 to |points|
      invariant root.Valid() && fresh(root.Repr - old(root.Repr)) && Built(root.tree, points, i, b)
    {
      AddNext(root, points, i, b);
    }
  }

  /** Building stores each point once, where its coordinates lead. */
  method BuildIn(points: seq<Point>, b: Box) returns (root: QuadNode)
    requires Placed(Fresh, b) && AllEnd(Fresh, points, b)
    ensures root.Valid() && fresh(root.Repr)
    ensures Placed(root.tree, b) && root.tree.Points() == multiset(points)
    ensures forall p :: Finds(root.tree, p, b) <==> p in points
    ensures Crowded(root.tree) && (AllIn(points, b) ==> InBoxes(root.tree, b))
  {
    BuiltFirst(points, b);
    root := new QuadNode();
    AddAll(root, points, b);
    assert points[..|points|] == points;
    AllStoredAreFound(root.tree, b, points);
  }

  /** The same with the box taken from the points themselves.  No points give an empty root, and no box of numbers. */
  method Build(points: seq<Point>) returns (root: QuadNode, b: Option<Box>)
    ensures root.Valid() && fresh(root.Repr) && root.tree.Points() == multiset(points) && Crowded(root.tree)
    ensures b.Some? <==> points != []
    ensures b.Some? ==> AllIn(points, b.value) && Placed(root.tree, b.value) && InBoxes(root.tree, b.value)
    ensures b.Some? ==> forall p :: Finds(root.tree, p, b.value) <==> p in points
  {
    if points == [] {
      root := new QuadNode();
      b := None;
    } else {
      var box := Bounds(points);
      InBoxAllEnd(points, box);
      root := BuildIn(points, box);
      b := Some(box);
    }
  }
}
