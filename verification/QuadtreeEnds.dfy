/** When insertion into a quadtree ends: always for points in the box, and exactly when outside it. */
module QuadtreeEnds {
  import opened Options
  import opened Quadtree

  // ----- One side -----

  /** The span after descending `n` times towards `x`. */
  ghost function Down(s: Span, x: real, n: nat): Span
    decreases n
  {
    if n == 0 then s else Down(s.Half(x), x, n - 1)
  }

  ghost predicate SplitAt(s: Span, v: real, p: real, n: nat) {
    Down(s, p, n).Upper(v) != Down(s, p, n).Upper(p)
  }

  function Clamp(s: Span, x: real): real {
    if x < s.lo then s.lo else if x > s.hi then s.hi else x
  }

  /** On a span with a length the nearest points differ; on any other the halves do at once. */
  predicate Differ(s: Span, v: real, p: real) {
    if s.lo < s.hi then Clamp(s, v) != Clamp(s, p) else s.Upper(v) != s.Upper(p)
  }

  /** A half has the same nearest point as the span. */
  lemma {:induction false} ClampBelow(s: Span, x: real)
    requires s.lo < s.hi
    ensures s.Half(x).lo < s.Half(x).hi && Clamp(s.Half(x), x) == Clamp(s, x)
  {
  }

  lemma {:induction false} SameHalf(s: Span, v: real, p: real)
    requires !Differ(s, v, p)
    ensures s.Upper(v) == s.Upper(p) && !Differ(s.Half(p), v, p)
  {
    if s.lo < s.hi {
      assert s.Upper(v) == s.Upper(p);
      ClampBelow(s, v);
      ClampBelow(s, p);
    }
  }

  lemma {:induction false} NeverSplit(s: Span, v: real, p: real, n: nat)
    requires !Differ(s, v, p)
    ensures !SplitAt(s, v, p, n)
    decreases n
  {
    SameHalf(s, v, p);
    if n > 0 {
      NeverSplit(s.Half(p), v, p, n - 1);
    }
  }

  function Gap(s: Span, v: real, p: real): real {
    Abs(Clamp(s, v) - Clamp(s, p))
  }

  function Steps(s: Span, gap: real): nat
    requires gap > 0.0
  {
    var n := ((s.hi - s.lo) / gap).Floor;
    if n < 0 then 0 else n
  }

  lemma {:induction false} HalfTheSteps(w: real, gap: real)
    requires gap > 0.0 && w >= gap
    ensures (w * 0.5 / gap).Floor < (w / gap).Floor
  {
    var q := w / gap;
    assert q * gap == w;
    assert q >= 1.0;
    assert w * 0.5 / gap == q * 0.5;
  }

  lemma {:induction false} StepsFall(s: Span, x: real, gap: real)
    requires s.lo < s.hi && 0.0 < gap <= s.hi - s.lo
    ensures Steps(s.Half(x), gap) < Steps(s, gap)
  {
    var h := s.Half(x);
    assert h.hi - h.lo == (s.hi - s.lo) * 0.5;
    HalfTheSteps(s.hi - s.lo, gap);
  }

  /** The depth at which coordinates with different nearest points are split. */
  lemma {:induction false} SplitsAt(s: Span, v: real, p: real) returns (n: nat)
    requires s.lo < s.hi && Gap(s, v, p) > 0.0
    ensures SplitAt(s, v, p, n)
    decreases Steps(s, Gap(s, v, p))
  {
    if s.Upper(v) != s.Upper(p) {
      n := 0;
    } else {
      ClampBelow(s, v);
      ClampBelow(s, p);
      StepsFall(s, p, Gap(s, v, p));
      var m := SplitsAt(s.Half(p), v, p);
      n := m + 1;
    }
  }

  // ----- Both sides -----

  lemma {:induction false} DescentSides(b: Box, p: Point, n: nat)
    ensures Descent(b, p, n).X() == Down(b.X(), p.x, n) && Descent(b, p, n).Y() == Down(b.Y(), p.y, n)
    decreases n
  {
    if n > 0 {
      DescentSides(b.Child(b.Quarter(p)), p, n - 1);
    }
  }

  lemma PartsBySide(b: Box, v: Point, p: Point, n: nat)
    ensures PartAt(b, v, p, n) <==> SplitAt(b.X(), v.x, p.x, n) || SplitAt(b.Y(), v.y, p.y, n)
  {
    DescentSides(b, p, n);
  }

  /**
  Two points, in the box or not, part at some depth if and only if they differ on one side of the box: by their nearest
  points in it where the side has a length, and by their halves where it has none or is given the wrong way round.
  */
  lemma {:induction false} SeparatedExactlyIf(b: Box, v: Point, p: Point)
    ensures Separated(b, v, p) <==> Differ(b.X(), v.x, p.x) || Differ(b.Y(), v.y, p.y)
  {
    if Differ(b.X(), v.x, p.x) {
      var n := 0;
      if b.x1 < b.x2 {
        n := SplitsAt(b.X(), v.x, p.x);
      }
      assert SplitAt(b.X(), v.x, p.x, n);
      PartsBySide(b, v, p, n);
    } else if Differ(b.Y(), v.y, p.y) {
      var n := 0;
      if b.y1 < b.y2 {
        n := SplitsAt(b.Y(), v.y, p.y);
      }
      assert SplitAt(b.Y(), v.y, p.y, n);
      PartsBySide(b, v, p, n);
    } else {
      forall n: nat ensures !PartAt(b, v, p, n) {
        NeverSplit(b.X(), v.x, p.x, n);
        NeverSplit(b.Y(), v.y, p.y, n);
        PartsBySide(b, v, p, n);
      }
    }
  }

  // ----- Insertion with a bound on its depth -----

  /** The recursion of the code, cut off after `fuel` levels; nothing is required of the point. */
  function InsertWithin(fuel: nat, t: Tree, p: Point, b: Box): (r: Option<Tree>)
    requires t.Node?
    ensures r.Some? ==> r.value.Node?
    decreases fuel, 1
  {
    if t.leaf && t.point.Vacant? then
      Some(t.(point := Taken(p)))
    else if t.leaf && !Coincide(t.point.at, p) then
      match PutWithin(fuel, t.(point := Vacant), t.point.at, b)
      case None => None
      case Some(t1) => PutWithin(fuel, t1, p, b)
    else
      PutWithin(fuel, t, p, b)
  }

  function PutWithin(fuel: nat, t: Tree, p: Point, b: Box): (r: Option<Tree>)
    requires t.Node?
    ensures r.Some? ==> r.value.Node?
    decreases fuel, 0
  {
    if fuel == 0 then None
    else
      var i := b.Quarter(p);
      match InsertWithin(fuel - 1, Target(t, i), p, b.Child(i))
      case None => None
      case Some(k) => Some(t.(leaf := false).WithKid(i, k))
  }

  lemma PutLowers(fuel: nat, t: Tree, b: Box)
    requires t.Node? && Placed(t, b) && t.leaf && t.point.Taken?
    ensures PutWithin(fuel, t.(point := Vacant), t.point.at, b) == if fuel == 0 then None else Some(Lowered(t, b))
  {
    LeafIsBare(t, b);
  }

  /** If the recursion ends, its point parts from the one in its way. */
  lemma {:induction false} WithinEnds(fuel: nat, t: Tree, p: Point, b: Box)
    requires t.Node? && Placed(t, b) && InsertWithin(fuel, t, p, b).Some?
    ensures Ends(t, p, b)
    decreases fuel
  {
    var i := b.Quarter(p);
    if !t.leaf {
      if t.Kid(i) != Nil {
        WithinEnds(fuel - 1, t.Kid(i), p, b.Child(i));
      }
    } else if t.point.Taken? && !Coincide(t.point.at, p) {
      var v := t.point.at;
      PutLowers(fuel, t, b);
      if b.Quarter(v) == i {
        LeafIsBare(t, b);
        var k := Fresh.(point := Taken(v));
        assert Target(Lowered(t, b), i) == k;
        TakenLeaf(v, p, b.Child(i));
        WithinEnds(fuel - 1, k, p, b.Child(i));
        PartBelow(b, v, p);
      } else {
        assert PartAt(b, v, p, 0);
      }
    }
  }

  /** If it parts from that one, the recursion ends, with the tree of the model. */
  lemma {:induction false} EndsWithin(t: Tree, p: Point, b: Box) returns (fuel: nat)
    requires t.Node? && Placed(t, b) && Ends(t, p, b)
    ensures InsertWithin(fuel, t, p, b) == Some(Insert(t, p, b))
    decreases t.Height(), Splits(t, p, b)
  {
    var i := b.Quarter(p);
    if t.leaf && t.point.Vacant? {
      fuel := 0;
    } else if t.leaf && !Coincide(t.point.at, p) {
      SplitIsSmaller(t, p, b);
      var k := EndsWithin(Target(Lowered(t, b), i), p, b.Child(i));
      fuel := k + 1;
      PutLowers(fuel, t, b);
      PutIsLowered(t, b);
    } else {
      PutIsSmaller(t, p, b);
      var k := EndsWithin(Target(t, i), p, b.Child(i));
      fuel := k + 1;
    }
  }

  lemma PutIsLowered(t: Tree, b: Box)
    requires t.Node? && Placed(t, b) && t.leaf && t.point.Taken?
    ensures var v, t0 := t.point.at, t.(point := Vacant);
            var k, c := Target(t0, b.Quarter(v)), b.Child(b.Quarter(v));
            Placed(k, c) && Ends(k, v, c) && Put(t0, v, b) == Lowered(t, b)
  {
    LeafIsBare(t, b);
  }

  /** Insertion ends if and only if the point in the way coincides with the new one or parts from it. */
  lemma {:induction false} InsertionEndsExactlyIf(t: Tree, p: Point, b: Box)
    requires t.Node? && Placed(t, b)
    ensures Ends(t, p, b) <==> exists fuel :: InsertWithin(fuel, t, p, b).Some?
    ensures forall fuel :: Ends(t, p, b) && InsertWithin(fuel, t, p, b).Some? ==>
              InsertWithin(fuel, t, p, b) == Some(Insert(t, p, b))
  {
    if fuel :| InsertWithin(fuel, t, p, b).Some? {
      WithinEnds(fuel, t, p, b);
    }
    if Ends(t, p, b) {
      var fuel := EndsWithin(t, p, b);
      forall f | InsertWithin(f, t, p, b).Some? ensures InsertWithin(f, t, p, b) == Some(Insert(t, p, b)) {
        WithinAgree(f, fuel, t, p, b);
      }
    }
  }

  lemma {:induction false} WithinAgree(f: nat, g: nat, t: Tree, p: Point, b: Box)
    requires t.Node? && InsertWithin(f, t, p, b).Some? && InsertWithin(g, t, p, b).Some?
    ensures InsertWithin(f, t, p, b) == InsertWithin(g, t, p, b)
    decreases f, 1
  {
    if t.leaf && t.point.Vacant? {
    } else if t.leaf && !Coincide(t.point.at, p) {
      PutsAgree(f, g, t.(point := Vacant), t.point.at, b);
      PutsAgree(f, g, PutWithin(f, t.(point := Vacant), t.point.at, b).value, p, b);
    } else {
      PutsAgree(f, g, t, p, b);
    }
  }

  lemma {:induction false} PutsAgree(f: nat, g: nat, t: Tree, p: Point, b: Box)
    requires t.Node? && PutWithin(f, t, p, b).Some? && PutWithin(g, t, p, b).Some?
    ensures PutWithin(f, t, p, b) == PutWithin(g, t, p, b)
    decreases f, 0
  {
    WithinAgree(f - 1, g - 1, Target(t, b.Quarter(p)), p, b.Child(b.Quarter(p)));
  }

  /** The box of a single point at the origin, to which the point (1, 1) is added: the recursion has no end. */
  lemma NeverEnds(fuel: nat)
    ensures var t, b := Fresh.(point := Taken(Point(0.0, 0.0))), Box(0.0, 0.0, 0.0, 0.0);
            InsertWithin(fuel, t, Point(1.0, 1.0), b).None?
  {
    var t, b := Fresh.(point := Taken(Point(0.0, 0.0))), Box(0.0, 0.0, 0.0, 0.0);
    var v, p := Point(0.0, 0.0), Point(1.0, 1.0);
    TakenLeaf(v, p, b);
    SeparatedExactlyIf(b, v, p);
    if InsertWithin(fuel, t, p, b).Some? {
      WithinEnds(fuel, t, p, b);
    }
  }

  // ----- Points in the box -----

  /** Every point is in the box of its node. */
  ghost predicate InBoxes(t: Tree, b: Box) {
    t.Node? ==> (t.point.Taken? ==> b.Has(t.point.at)) && forall i :: 0 <= i < 4 ==> InBoxes(t.Kid(i), b.Child(i))
  }

  lemma QuarterHolds(b: Box, p: Point)
    requires b.Has(p)
    ensures b.Child(b.Quarter(p)).Has(p)
  {
  }

  lemma PutInBoxes(t: Tree, b: Box, i: nat, k: Tree)
    requires t.Node? && InBoxes(t, b) && i < 4 && InBoxes(k, b.Child(i))
    ensures InBoxes(t.(leaf := false).WithKid(i, k), b)
  {
    var r := t.(leaf := false).WithKid(i, k);
    assert forall j :: 0 <= j < 4 && j != i ==> r.Kid(j) == t.Kid(j);
  }

  /** Points inserted in the box stay in the boxes of their nodes. */
  lemma {:induction false} InsertInBoxes(t: Tree, p: Point, b: Box)
    requires t.Node? && Placed(t, b) && Ends(t, p, b) && InBoxes(t, b) && b.Has(p)
    ensures InBoxes(Insert(t, p, b), b)
    decreases t.Height(), Splits(t, p, b)
  {
    var i := b.Quarter(p);
    QuarterHolds(b, p);
    if t.leaf && t.point.Vacant? {
    } else if t.leaf && !Coincide(t.point.at, p) {
      SplitIsSmaller(t, p, b);
      PutIsLowered(t, b);
      LoweredInBoxes(t, b);
      var t1 := Lowered(t, b);
      InsertInBoxes(Target(t1, i), p, b.Child(i));
      PutInBoxes(t1, b, i, Insert(Target(t1, i), p, b.Child(i)));
    } else {
      PutIsSmaller(t, p, b);
      InsertInBoxes(Target(t, i), p, b.Child(i));
      PutInBoxes(t, b, i, Insert(Target(t, i), p, b.Child(i)));
    }
  }

  lemma LoweredInBoxes(t: Tree, b: Box)
    requires t.Node? && Placed(t, b) && t.leaf && t.point.Taken? && InBoxes(t, b)
    ensures InBoxes(Lowered(t, b), b)
  {
    LeafIsBare(t, b);
    QuarterHolds(b, t.point.at);
    PutInBoxes(t.(point := Vacant), b, b.Quarter(t.point.at), Fresh.(point := t.point));
  }

  // ----- Many points -----

  /** The later point can be inserted where the earlier one is in its way. */
  ghost predicate Compatible(b: Box, v: Point, p: Point) {
    Coincide(v, p) || Separated(b, v, p)
  }

  lemma {:induction false} InBoxCompatible(b: Box, v: Point, p: Point)
    requires b.Has(v) && b.Has(p)
    ensures Compatible(b, v, p)
  {
    SeparatedExactlyIf(b, v, p);
  }

  lemma {:induction false} CompatibleEnds(t: Tree, p: Point, b: Box)
    requires Placed(t, b) && forall v :: v in t.Points() ==> Compatible(b, v, p)
    ensures Ends(t, p, b)
    decreases t
  {
    if t.Node? {
      PointsByKid(t);
      if t.leaf {
        if t.point.Taken? {
          assert t.point.at in t.Points();
        }
      } else {
        var i := b.Quarter(p);
        forall v | v in t.Kid(i).Points() ensures Compatible(b.Child(i), v, p) {
          assert v in t.Points();
          PartBelow(b, v, p);
        }
        CompatibleEnds(t.Kid(i), p, b.Child(i));
      }
    }
  }

  /** Every point of the list can be inserted after those before it. */
  ghost predicate AllEnd(t: Tree, points: seq<Point>, b: Box)
    requires t.Node? && Placed(t, b)
    decreases |points|
  {
    points == [] ||
    (Ends(t, points[0], b) &&
     (InsertAdds(t, points[0], b);
      AllEnd(Insert(t, points[0], b), points[1..], b)))
  }

  ghost predicate Welcome(stored: multiset<Point>, points: seq<Point>, b: Box) {
    && (forall v, p :: v in stored && p in points ==> Compatible(b, v, p))
    && (forall i, j :: 0 <= i < j < |points| ==> Compatible(b, points[i], points[j]))
  }

  lemma {:induction false} WelcomeNext(stored: multiset<Point>, points: seq<Point>, b: Box)
    requires Welcome(stored, points, b) && points != []
    ensures Welcome(stored + multiset{points[0]}, points[1..], b)
  {
    var rest := points[1..];
    forall v, q | v in stored + multiset{points[0]} && q in rest ensures Compatible(b, v, q) {
      var j :| 0 <= j < |rest| && rest[j] == q;
      assert points[j + 1] == q && q in points;
      assert v == points[0] || v in stored;
    }
    forall i, j | 0 <= i < j < |rest| ensures Compatible(b, rest[i], rest[j]) {
      assert rest[i] == points[i + 1] && rest[j] == points[j + 1];
    }
  }

  /** They can if any two of them are compatible, as any two points of the box are. */
  lemma {:induction false} CompatibleAllEnd(t: Tree, points: seq<Point>, b: Box)
    requires t.Node? && Placed(t, b) && Welcome(t.Points(), points, b)
    ensures AllEnd(t, points, b)
    decreases |points|
  {
    if points != [] {
      var p := points[0];
      assert p in points;
      CompatibleEnds(t, p, b);
      InsertAdds(t, p, b);
      WelcomeNext(t.Points(), points, b);
      CompatibleAllEnd(Insert(t, p, b), points[1..], b);
    }
  }

  lemma InBoxAllEnd(points: seq<Point>, b: Box)
    requires forall p :: p in points ==> b.Has(p)
    ensures Placed(Fresh, b) && AllEnd(Fresh, points, b)
  {
    FreshIsPlaced(b, Point(0.0, 0.0));
    forall i, j | 0 <= i < j < |points| ensures Compatible(b, points[i], points[j]) {
      InBoxCompatible(b, points[i], points[j]);
    }
    CompatibleAllEnd(Fresh, points, b);
  }
}
