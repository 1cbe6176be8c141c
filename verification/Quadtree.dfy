/**
The quadtree: each node covers a box and has up to four children, one per quarter.  Points closer together than 0.01
in both coordinates together count as coincident and are stored one below the other.  Boxes and points are arbitrary:
a box may have a side of no length or be given the wrong way round, and points may lie outside it.
*/
module Quadtree {
  import opened Options

  datatype Point = Point(x: real, y: real)

  /** One side of a box. */
  datatype Span = Span(lo: real, hi: real) {
    function Mid(): real {
      (lo + hi) * 0.5
    }

    predicate Upper(x: real) {
      x >= Mid()
    }

    function Half(x: real): Span {
      if Upper(x) then Span(Mid(), hi) else Span(lo, Mid())
    }
  }

  datatype Box = Box(x1: real, y1: real, x2: real, y2: real) {
    function X(): Span {
      Span(x1, x2)
    }

    function Y(): Span {
      Span(y1, y2)
    }

    predicate Has(p: Point) {
      x1 <= p.x <= x2 && y1 <= p.y <= y2
    }

    /** The quarter a point belongs to. */
    function Quarter(p: Point): (i: nat)
      ensures i < 4
    {
      (if Y().Upper(p.y) then 2 else 0) + (if X().Upper(p.x) then 1 else 0)
    }

    function Child(i: nat): Box
      requires i < 4
    {
      var sx, sy := X().Mid(), Y().Mid();
      Box(if i % 2 == 1 then sx else x1, if i >= 2 then sy else y1,
          if i % 2 == 1 then x2 else sx, if i >= 2 then y2 else sy)
    }
  }

  datatype Place = Vacant | Taken(at: Point)

  /** `Nil` stands for a child that does not exist. */
  datatype Tree = Nil | Node(leaf: bool, point: Place, nw: Tree, ne: Tree, sw: Tree, se: Tree) {
    function Kid(i: nat): Tree
      requires Node? && i < 4
    {
      if i == 0 then nw else if i == 1 then ne else if i == 2 then sw else se
    }

    function WithKid(i: nat, k: Tree): (t: Tree)
      requires Node? && i < 4
      ensures t.Node? && t.leaf == leaf && t.point == point
      ensures forall j :: 0 <= j < 4 ==> t.Kid(j) == if j == i then k else Kid(j)
    {
      if i == 0 then this.(nw := k) else if i == 1 then this.(ne := k)
      else if i == 2 then this.(sw := k) else this.(se := k)
    }

    function Height(): nat {
      match this
      case Nil => 0
      case Node(_, _, a, b, c, d) => 1 + Max(Max(a.Height(), b.Height()), Max(c.Height(), d.Height()))
    }

    /** All points stored, with multiplicity. */
    ghost function Points(): multiset<Point> {
      match this
      case Nil => multiset{}
      case Node(_, p, a, b, c, d) =>
        (if p.Taken? then multiset{p.at} else multiset{}) + (a.Points() + b.Points() + c.Points() + d.Points())
    }
  }

  function Max(a: nat, b: nat): nat {
    if a >= b then a else b
  }

  const Fresh := Node(true, Vacant, Nil, Nil, Nil, Nil)

  function Abs(x: real): real {
    if x < 0.0 then -x else x
  }

  predicate Coincide(v: Point, p: Point) {
    Abs(v.x - p.x) + Abs(v.y - p.y) < 0.01
  }

  // ----- When two points part -----

  /** The box after descending `n` times into the quarter of `p`. */
  ghost function Descent(b: Box, p: Point, n: nat): Box
    decreases n
  {
    if n == 0 then b else Descent(b.Child(b.Quarter(p)), p, n - 1)
  }

  ghost predicate PartAt(b: Box, v: Point, p: Point, n: nat) {
    Descent(b, p, n).Quarter(v) != Descent(b, p, n).Quarter(p)
  }

  /** At some depth the two points are sent to different quarters. */
  ghost predicate Separated(b: Box, v: Point, p: Point) {
    exists n: nat :: PartAt(b, v, p, n)
  }

  ghost function FirstDepth(b: Box, v: Point, p: Point, n: nat): nat
    requires PartAt(b, v, p, n)
    decreases n
  {
    if b.Quarter(v) != b.Quarter(p) then 0 else 1 + FirstDepth(b.Child(b.Quarter(p)), v, p, n - 1)
  }

  lemma {:induction false} FirstDepthSame(b: Box, v: Point, p: Point, n: nat, m: nat)
    requires PartAt(b, v, p, n) && PartAt(b, v, p, m)
    ensures FirstDepth(b, v, p, n) == FirstDepth(b, v, p, m)
    decreases n
  {
    if b.Quarter(v) == b.Quarter(p) {
      FirstDepthSame(b.Child(b.Quarter(p)), v, p, n - 1, m - 1);
    }
  }

  /** The depth at which they part. */
  ghost function PartDepth(b: Box, v: Point, p: Point): nat
    requires Separated(b, v, p)
  {
    var n: nat :| PartAt(b, v, p, n);
    FirstDepth(b, v, p, n)
  }

  /** Points in the same quarter part in it or not at all, one level sooner. */
  lemma {:induction false} PartBelow(b: Box, v: Point, p: Point)
    requires b.Quarter(v) == b.Quarter(p)
    ensures var c := b.Child(b.Quarter(p));
            && (Separated(b, v, p) <==> Separated(c, v, p))
            && (Separated(b, v, p) ==> PartDepth(b, v, p) == 1 + PartDepth(c, v, p))
  {
    var c := b.Child(b.Quarter(p));
    if Separated(c, v, p) {
      var n: nat :| PartAt(c, v, p, n);
      assert PartAt(b, v, p, n + 1);
    }
    if Separated(b, v, p) {
      var n: nat :| PartAt(b, v, p, n) && PartDepth(b, v, p) == FirstDepth(b, v, p, n);
      assert n > 0 && PartAt(c, v, p, n - 1);
      assert FirstDepth(b, v, p, n) == 1 + FirstDepth(c, v, p, n - 1);
      var m: nat :| PartAt(c, v, p, m) && PartDepth(c, v, p) == FirstDepth(c, v, p, m);
      FirstDepthSame(c, v, p, n - 1, m);
    }
  }

  // ----- Insertion -----

  /** Every point is in the quarter of its coordinates, and leaves have no children. */
  ghost predicate Placed(t: Tree, b: Box) {
    t.Node? ==>
      && (t.leaf ==> forall i :: 0 <= i < 4 ==> t.Kid(i) == Nil)
      && (forall i :: 0 <= i < 4 ==> Placed(t.Kid(i), b.Child(i)))
      && (forall i, p :: 0 <= i < 4 && p in t.Kid(i).Points() ==> b.Quarter(p) == i)
  }

  /**
  The leaf that `p` gets to, if it gets to one, is vacant, or holds a point that coincides with `p` or parts from
  it.
  */
  ghost predicate Ends(t: Tree, p: Point, b: Box) {
    t.Node? ==>
      if t.leaf then t.point.Vacant? || Coincide(t.point.at, p) || Separated(b, t.point.at, p)
      else Ends(t.Kid(b.Quarter(p)), p, b.Child(b.Quarter(p)))
  }

  /** The child that will take the point, made if it does not exist. */
  function Target(t: Tree, i: nat): (k: Tree)
    requires t.Node? && i < 4
    ensures k.Node?
  {
    if t.Kid(i) == Nil then Fresh else t.Kid(i)
  }

  /** Splitting a leaf ends where its two points part. */
  ghost function Splits(t: Tree, p: Point, b: Box): nat
    requires Ends(t, p, b)
  {
    if t.Nil? || (t.leaf && t.point.Vacant?) then 0
    else if t.leaf && !Coincide(t.point.at, p) then 2 + PartDepth(b, t.point.at, p)
    else 1
  }

  function Insert(t: Tree, p: Point, b: Box): (r: Tree)
    requires t.Node? && Placed(t, b) && Ends(t, p, b)
    ensures r.Node?
    decreases t.Height(), Splits(t, p, b), 0
  {
    if t.leaf && t.point.Vacant? then
      t.(point := Taken(p))
    else if t.leaf && !Coincide(t.point.at, p) then
      var v, t0 := t.point.at, t.(point := Vacant);
      SplitIsSmaller(t, p, b);
      assert Put(t0, v, b) == Lowered(t, b);
      Put(Put(t0, v, b), p, b)
    else
      PutIsSmaller(t, p, b);
      Put(t, p, b)
  }

  /** `insertChild` */
  function Put(t: Tree, p: Point, b: Box): (r: Tree)
    requires t.Node?
    requires Placed(Target(t, b.Quarter(p)), b.Child(b.Quarter(p))) &&
             Ends(Target(t, b.Quarter(p)), p, b.Child(b.Quarter(p)))
    ensures r.Node?
    decreases Target(t, b.Quarter(p)).Height(), Splits(Target(t, b.Quarter(p)), p, b.Child(b.Quarter(p))), 1
  {
    var i := b.Quarter(p);
    t.(leaf := false).WithKid(i, Insert(Target(t, i), p, b.Child(i)))
  }

  lemma FreshIsPlaced(b: Box, p: Point)
    ensures Placed(Fresh, b) && Ends(Fresh, p, b) && Splits(Fresh, p, b) == 0
    ensures Fresh.Height() == 1 && Fresh.Points() == multiset{}
  {
  }

  lemma KidIsLower(t: Tree, i: nat)
    requires t.Node? && i < 4
    ensures t.Kid(i).Height() < t.Height()
  {
  }

  lemma LeafIsBare(t: Tree, b: Box)
    requires t.Node? && t.leaf && Placed(t, b)
    ensures t == Node(true, t.point, Nil, Nil, Nil, Nil) && t.Height() == 1
  {
    assert t.Kid(0) == Nil && t.Kid(1) == Nil && t.Kid(2) == Nil && t.Kid(3) == Nil;
  }

  lemma PutIsSmaller(t: Tree, p: Point, b: Box)
    requires t.Node? && Placed(t, b) && Ends(t, p, b)
    requires t.leaf ==> t.point.Taken? && Coincide(t.point.at, p)
    ensures var k, c := Target(t, b.Quarter(p)), b.Child(b.Quarter(p));
            && Placed(k, c) && Ends(k, p, c)
            && (k.Height() < t.Height() || (k.Height() == t.Height() && Splits(k, p, c) < Splits(t, p, b)))
  {
    var i := b.Quarter(p);
    KidIsLower(t, i);
    FreshIsPlaced(b.Child(i), p);
    if t.leaf {
      LeafIsBare(t, b);
    }
  }

  /** A leaf whose point was moved one level down. */
  function Lowered(t: Tree, b: Box): (r: Tree)
    requires t.Node? && t.leaf && t.point.Taken?
    ensures r.Node?
  {
    t.(point := Vacant, leaf := false).WithKid(b.Quarter(t.point.at), Fresh.(point := t.point))
  }

  lemma TakenLeaf(v: Point, p: Point, b: Box)
    ensures var k := Fresh.(point := Taken(v));
            && Placed(k, b) && k.Height() == 1 && k.Points() == multiset{v}
            && (Coincide(v, p) || Separated(b, v, p) <==> Ends(k, p, b))
  {
  }

  lemma SplitIsSmaller(t: Tree, p: Point, b: Box)
    requires t.Node? && Placed(t, b) && Ends(t, p, b) && t.leaf && t.point.Taken? && !Coincide(t.point.at, p)
    ensures var v, t0 := t.point.at, t.(point := Vacant);
            var k, c := Target(t0, b.Quarter(v)), b.Child(b.Quarter(v));
            && k == Fresh && Placed(k, c) && Ends(k, v, c)
            && k.Height() == t.Height() && Splits(k, v, c) < Splits(t, p, b)
    ensures var k, c := Target(Lowered(t, b), b.Quarter(p)), b.Child(b.Quarter(p));
            Placed(k, c) && Ends(k, p, c) && k.Height() == t.Height() && Splits(k, p, c) < Splits(t, p, b)
  {
    LeafIsBare(t, b);
    var v := t.point.at;
    FreshIsPlaced(b.Child(b.Quarter(v)), v);
    FreshIsPlaced(b.Child(b.Quarter(p)), p);
    TakenLeaf(v, p, b.Child(b.Quarter(v)));
    if b.Quarter(v) == b.Quarter(p) {
      PartBelow(b, v, p);
    }
  }

  // ----- What insertion keeps and adds -----

  ghost function Own(t: Tree): multiset<Point> {
    if t.Node? && t.point.Taken? then multiset{t.point.at} else multiset{}
  }

  lemma {:induction false} PointsByKid(t: Tree)
    requires t.Node?
    ensures t.Points() == Own(t) + (t.Kid(0).Points() + t.Kid(1).Points() + t.Kid(2).Points() + t.Kid(3).Points())
  {
  }

  lemma {:induction false} KidPoints(t: Tree, i: nat, k: Tree, p: Point)
    requires t.Node? && i < 4 && k.Points() == t.Kid(i).Points() + multiset{p}
    ensures t.WithKid(i, k).Points() == t.Points() + multiset{p}
  {
    var r := t.WithKid(i, k);
    PointsByKid(t);
    PointsByKid(r);
    AddIn(Own(t), t.Kid(0).Points(), t.Kid(1).Points(), t.Kid(2).Points(), t.Kid(3).Points(), multiset{p});
    assert Own(r) == Own(t);
    assert forall j :: 0 <= j < 4 && j != i ==> r.Kid(j) == t.Kid(j);
    assert r.Kid(i) == k;
  }

  lemma AddIn<T>(o: multiset<T>, a: multiset<T>, b: multiset<T>, c: multiset<T>, d: multiset<T>, x: multiset<T>)
    ensures o + ((a + x) + b + c + d) == o + (a + b + c + d) + x
    ensures o + (a + (b + x) + c + d) == o + (a + b + c + d) + x
    ensures o + (a + b + (c + x) + d) == o + (a + b + c + d) + x
    ensures o + (a + b + c + (d + x)) == o + (a + b + c + d) + x
  {
  }

  lemma {:induction false} TargetPoints(t: Tree, i: nat)
    requires t.Node? && i < 4
    ensures t.(leaf := false).Kid(i) == t.Kid(i)
    ensures Target(t, i).Points() == t.Kid(i).Points()
  {
    if t.Kid(i).Nil? {
      FreshIsPlaced(Box(0.0, 0.0, 0.0, 0.0), Point(0.0, 0.0));
    }
  }

  lemma {:induction false} PutAdds(t: Tree, p: Point, b: Box)
    requires t.Node? && Placed(t.(leaf := false), b)
    requires Placed(Target(t, b.Quarter(p)), b.Child(b.Quarter(p))) &&
             Ends(Target(t, b.Quarter(p)), p, b.Child(b.Quarter(p)))
    ensures Placed(Put(t, p, b), b) && Put(t, p, b).Points() == t.Points() + multiset{p}
    decreases Target(t, b.Quarter(p)).Height(), Splits(Target(t, b.Quarter(p)), p, b.Child(b.Quarter(p))), 2
  {
    var i := b.Quarter(p);
    var k := Target(t, i);
    InsertAdds(k, p, b.Child(i));
    FreshIsPlaced(b.Child(i), p);
    var k' := Insert(k, p, b.Child(i));
    var t0 := t.(leaf := false);
    TargetPoints(t, i);
    KidPoints(t0, i, k', p);
    forall q | q in k'.Points() ensures b.Quarter(q) == i {
      assert q == p || q in t0.Kid(i).Points();
    }
    WithKidIsPlaced(t0, b, i, k');
    assert t0.Points() == t.Points();
  }

  lemma {:induction false} WithKidIsPlaced(t: Tree, b: Box, i: nat, k: Tree)
    requires t.Node? && !t.leaf && Placed(t, b) && i < 4
    requires Placed(k, b.Child(i)) && forall p :: p in k.Points() ==> b.Quarter(p) == i
    ensures Placed(t.WithKid(i, k), b)
  {
    var r := t.WithKid(i, k);
    forall j | 0 <= j < 4 ensures Placed(r.Kid(j), b.Child(j)) {
    }
    forall j, p | 0 <= j < 4 && p in r.Kid(j).Points() ensures b.Quarter(p) == j {
      if j != i {
        assert p in t.Kid(j).Points();
      }
    }
  }

  /** Insertion keeps every point where it belongs, and adds exactly the new one. */
  lemma {:induction false} InsertAdds(t: Tree, p: Point, b: Box)
    requires t.Node? && Placed(t, b) && Ends(t, p, b)
    ensures Placed(Insert(t, p, b), b) && Insert(t, p, b).Points() == t.Points() + multiset{p}
    decreases t.Height(), Splits(t, p, b), 1
  {
    if t.leaf && t.point.Vacant? {
      LeafIsBare(t, b);
    } else if t.leaf && !Coincide(t.point.at, p) {
      SplitAdds(t, p, b);
    } else {
      PutIsSmaller(t, p, b);
      SameKids(t, b);
      PutAdds(t, p, b);
    }
  }

  lemma {:induction false} SplitAdds(t: Tree, p: Point, b: Box)
    requires t.Node? && Placed(t, b) && Ends(t, p, b) && t.leaf && t.point.Taken? && !Coincide(t.point.at, p)
    ensures Placed(Insert(t, p, b), b) && Insert(t, p, b).Points() == t.Points() + multiset{p}
    decreases t.Height(), Splits(t, p, b), 0
  {
    var v, t0, t1 := t.point.at, t.(point := Vacant), Lowered(t, b);
    SplitIsSmaller(t, p, b);
    Emptied(t, b);
    LowersPoint(t, p, b);
    PutAdds(t0, v, b);
    PutAdds(t1, p, b);
  }

  /** A leaf without its point has none. */
  lemma {:induction false} Emptied(t: Tree, b: Box)
    requires t.Node? && Placed(t, b) && t.leaf && t.point.Taken?
    ensures var t0 := t.(point := Vacant);
            Placed(t0.(leaf := false), b) && t0.Points() == multiset{} && t.Points() == multiset{t.point.at}
  {
    LeafIsBare(t, b);
  }

  /** Splitting puts the point of the leaf one level down, and then the new one. */
  lemma {:induction false} LowersPoint(t: Tree, p: Point, b: Box)
    requires t.Node? && Placed(t, b) && Ends(t, p, b) && t.leaf && t.point.Taken? && !Coincide(t.point.at, p)
    ensures var v, t0, t1 := t.point.at, t.(point := Vacant), Lowered(t, b);
            var k, c := Target(t0, b.Quarter(v)), b.Child(b.Quarter(v));
            && Placed(k, c) && Ends(k, v, c) && t1 == Put(t0, v, b) && t1.(leaf := false) == t1
    ensures var t1 := Lowered(t, b);
            var k, c := Target(t1, b.Quarter(p)), b.Child(b.Quarter(p));
            Placed(k, c) && Ends(k, p, c) && Insert(t, p, b) == Put(t1, p, b)
  {
    SplitIsSmaller(t, p, b);
    LeafIsBare(t, b);
  }

  lemma {:induction false} SameKids(t: Tree, b: Box)
    requires t.Node? && Placed(t, b)
    ensures Placed(t.(leaf := false), b)
  {
    var r := t.(leaf := false);
    assert forall j :: 0 <= j < 4 ==> r.Kid(j) == t.Kid(j);
  }

  // ----- Looking a point up -----

  /** Descending by the coordinates of `p` alone meets a node that stores `p`. */
  ghost predicate Finds(t: Tree, p: Point, b: Box) {
    t.Node? && (t.point == Taken(p) || Finds(t.Kid(b.Quarter(p)), p, b.Child(b.Quarter(p))))
  }

  /** Every stored point is found on the one path its coordinates give, and nothing else is. */
  lemma {:induction false} StoredIsFound(t: Tree, p: Point, b: Box)
    requires Placed(t, b)
    ensures Finds(t, p, b) <==> p in t.Points()
    decreases t
  {
    if t.Node? {
      var i := b.Quarter(p);
      StoredIsFound(t.Kid(i), p, b.Child(i));
      PointsByKid(t);
      assert p in t.Points() <==> p in Own(t) || exists j :: 0 <= j < 4 && p in t.Kid(j).Points();
    }
  }
}
