/** A whole treemap: padding, the areas of the children, and the recursion over the tree. */
module TreemapTree {
  import opened Tiling
  import opened Options
  import opened Treemap
  import opened TreemapLayout
  import opened TreemapStages
  import opened TreemapRows
  import opened TreemapUnique
  import opened Floats

  datatype Tree = Tree(value: real, children: seq<Tree>)

  datatype Padding = NoPadding | Padding(top: real, right: real, bottom: real, left: real)

  /** A padded side: a negative rest becomes a line halfway. */
  function PadSide(x: real, dx: real, before: real, after: real): (real, real) {
    var w := dx - after - before;
    if w < 0.0 then (x + before + w / 2.0, 0.0) else (x + before, w)
  }

  function Pad(r: Rect, p: Padding): Rect {
    match p
    case NoPadding => r
    case Padding(top, right, bottom, left) =>
      var (x, dx) := PadSide(r.x, r.dx, left, right);
      var (y, dy) := PadSide(r.y, r.dy, top, bottom);
      Rect(x, y, dx, dy)
  }

  /** Padding that fits must not be negative; padding that does not may be lopsided by the size of the side at most. */
  predicate SideInside(dx: real, before: real, after: real) {
    if before + after <= dx then before >= 0.0 && after >= 0.0 else -dx <= before - after <= dx
  }

  /** Padding, negative or not, stays inside the rectangle exactly if it does on both sides. */
  lemma PadInside(r: Rect, p: Padding)
    requires Proper(r)
    ensures Proper(Pad(r, p))
    ensures p.Padding? ==>
              (Inside(Pad(r, p), r) <==> SideInside(r.dx, p.left, p.right) && SideInside(r.dy, p.top, p.bottom))
  {
  }

  lemma PadIsProper(r: Rect, p: Padding)
    requires Proper(r)
    ensures Proper(Pad(r, p))
  {
  }

  // ----- The areas of the children -----

  /** The area of a child with the given value, in a node of value `total` with the given room. */
  function AreaOf(value: real, room: real, total: real): Float {
    var k := Quotient(Number(room), Number(total), false);
    var area := Product(Number(value), if Less(k, Number(0.0)) then Number(0.0) else k);
    if area == NaN || AtMost(area, Number(0.0)) then Number(0.0) else area
  }

  lemma {:induction false} AreaIs(value: real, room: real, total: real)
    requires room >= 0.0
    ensures IsArea(AreaOf(value, room, total))
    ensures AreaOf(value, room, total) == Infinity <==> total == 0.0 && room > 0.0 && value > 0.0
  {
  }

  /** The areas of the children. */
  function Areas(ts: seq<Tree>, room: real, total: real): (areas: seq<Float>)
    ensures |areas| == |ts|
  {
    seq(|ts|, i requires 0 <= i < |ts| => AreaOf(ts[i].value, room, total))
  }

  /** The node has value zero, room, and a child of positive value, whose area is then infinite. */
  predicate Boundless(t: Tree, room: real) {
    t.value == 0.0 && room > 0.0 && exists i :: 0 <= i < |t.children| && t.children[i].value > 0.0
  }

  lemma {:induction false} AreasAre(t: Tree, room: real)
    requires room >= 0.0
    ensures AllAreas(Areas(t.children, room, t.value))
    ensures Infinity in Areas(t.children, room, t.value) <==> Boundless(t, room)
  {
    var areas := Areas(t.children, room, t.value);
    forall i | 0 <= i < |areas|
      ensures IsArea(areas[i])
      ensures areas[i] == Infinity <==> t.value == 0.0 && room > 0.0 && t.children[i].value > 0.0 {
      AreaIs(t.children[i].value, room, t.value);
    }
    if Boundless(t, room) {
      var i :| 0 <= i < |t.children| && t.children[i].value > 0.0;
      assert areas[i] == Infinity;
    }
  }

  /** `scale` */
  method Scale(t: Tree, room: real) returns (areas: seq<Float>)
    requires room >= 0.0
    ensures areas == Areas(t.children, room, t.value) && AllAreas(areas)
    ensures Infinity in areas <==> Boundless(t, room)
  {
    areas := [];
    for i := 0 to |t.children|
      invariant |areas| == i
      invariant forall k :: 0 <= k < i ==> areas[k] == AreaOf(t.children[k].value, room, t.value)
    {
      areas := areas + [AreaOf(t.children[i].value, room, t.value)];
    }
    AreasAre(t, room);
    assert areas == Areas(t.children, room, t.value);
  }

  // ----- The layout -----

  datatype Laid = Laid(rect: Rect, children: seq<Laid>)

  function Rects(ls: seq<Laid>): (rs: seq<Rect>)
    ensures |rs| == |ls|
  {
    seq(|ls|, i requires 0 <= i < |ls| => ls[i].rect)
  }

  /** How a treemap is made: what rounds, what pads, and the wanted ratio. */
  datatype Style = Style(padding: (Tree, nat) -> Padding, round: real -> real, ratio: real)

  ghost predicate Usable(style: Style) {
    KeepsSign(style.round)
  }

  function Padded(t: Tree, rect: Rect, depth: nat, style: Style): Rect {
    Pad(rect, style.padding(t, depth))
  }

  /** The areas of the children in the given rectangle, as reals. */
  function Shares(t: Tree, inner: Rect): (areas: seq<real>)
    ensures |areas| == |t.children|
  {
    Reals(Areas(t.children, Area(inner), t.value))
  }

  /** The children are squarified in the given rectangle, by their shares of it. */
  ghost predicate SquarifiedIn(t: Tree, cells: seq<Rect>, inner: Rect, style: Style) {
    exists stages :: Squarified(cells, stages, Shares(t, inner), inner, style.ratio, style.round)
  }

  /** Every node's children are squarified in its padded rectangle. */
  ghost predicate WellLaid(t: Tree, l: Laid, depth: nat, style: Style) {
    && Proper(l.rect)
    && |l.children| == |t.children|
    && (t.children != [] ==>
          && !Boundless(t, Area(Padded(t, l.rect, depth, style)))
          && SquarifiedIn(t, Rects(l.children), Padded(t, l.rect, depth, style), style))
    && (forall i :: 0 <= i < |t.children| ==> WellLaid(t.children[i], l.children[i], depth + 1, style))
  }

  /** Some node of the tree is boundless in the rectangle that it is given. */
  ghost predicate Fails(t: Tree, rect: Rect, depth: nat, style: Style)
    decreases t
  {
    var inner := Padded(t, rect, depth, style);
    t.children != [] &&
    (Boundless(t, Area(inner)) ||
     exists cells: seq<Rect>, i: nat ::
       && SquarifiedIn(t, cells, inner, style) && i < |t.children| == |cells|
       && Fails(t.children[i], cells[i], depth + 1, style))
  }

  /** No node of value zero has a child of positive value. */
  predicate Balanced(t: Tree) {
    && (t.value == 0.0 ==> forall i :: 0 <= i < |t.children| ==> t.children[i].value <= 0.0)
    && (forall i :: 0 <= i < |t.children| ==> Balanced(t.children[i]))
  }

  lemma {:induction false} CellsUnique(t: Tree, cells: seq<Rect>, cells': seq<Rect>, inner: Rect, style: Style)
    requires SquarifiedIn(t, cells, inner, style) && SquarifiedIn(t, cells', inner, style)
    ensures cells == cells'
  {
    var ss :| Squarified(cells, ss, Shares(t, inner), inner, style.ratio, style.round);
    var ts :| Squarified(cells', ts, Shares(t, inner), inner, style.ratio, style.round);
    SquarifiedUnique(cells, ss, cells', ts, Shares(t, inner), inner, style.ratio, style.round);
  }

  /** `squarify` on a whole tree.  It fails, on an empty row, if and only if some node is boundless in its rectangle. */
  method Layout(t: Tree, rect: Rect, depth: nat, style: Style) returns (result: Option<Laid>)
    requires Proper(rect) && Usable(style)
    ensures result.Some? ==> result.value.rect == rect && WellLaid(t, result.value, depth, style)
    ensures result.None? <==> Fails(t, rect, depth, style)
    decreases t
  {
    if t.children == [] {
      return Some(Laid(rect, []));
    }
    var inner := Padded(t, rect, depth, style);
    PadIsProper(rect, style.padding(t, depth));
    TimesZero(inner.dx, inner.dy);
    var areas := Scale(t, Area(inner));
    var boxes, emptyRow;
    ghost var stages;
    boxes, emptyRow, stages := Squarify(areas, inner, style.round, style.ratio);
    if emptyRow {
      return None;
    }
    RealsAreNonNegative(areas);
    SquarifiedTiles(boxes[..], stages, Reals(areas), inner, style.ratio, style.round);
    assert Reals(areas) == Shares(t, inner);
    assert SquarifiedIn(t, boxes[..], inner, style);
    var laid;
    ghost var failed;
    laid, failed := LayoutAll(t, boxes[..], inner, depth, style);
    FailsExactly(t, rect, depth, style, boxes[..]);
    if laid.None? {
      return None;
    }
    return Some(Laid(rect, laid.value));
  }

  /** As there is one layout, the tree fails exactly if a child fails in its cell of it. */
  lemma {:induction false} FailsExactly(t: Tree, rect: Rect, depth: nat, style: Style, cells: seq<Rect>)
    requires t.children != [] && |cells| == |t.children|
    requires !Boundless(t, Area(Padded(t, rect, depth, style)))
    requires SquarifiedIn(t, cells, Padded(t, rect, depth, style), style)
    ensures Fails(t, rect, depth, style) <==>
            exists i: nat :: i < |cells| && Fails(t.children[i], cells[i], depth + 1, style)
  {
    var inner := Padded(t, rect, depth, style);
    if Fails(t, rect, depth, style) {
      var cells': seq<Rect>, i: nat :| SquarifiedIn(t, cells', inner, style) && i < |t.children| == |cells'| &&
        Fails(t.children[i], cells'[i], depth + 1, style);
      CellsUnique(t, cells, cells', inner, style);
    }
  }

  /** The recursion into the children. */
  method LayoutAll(t: Tree, boxes: seq<Rect>, inner: Rect, depth: nat, style: Style)
    returns (result: Option<seq<Laid>>, ghost failed: nat)
    requires |boxes| == |t.children| && Tiles(boxes, inner) && Usable(style)
    ensures result.Some? ==>
              && |result.value| == |t.children| && Rects(result.value) == boxes
              && (forall k :: 0 <= k < |t.children| ==> WellLaid(t.children[k], result.value[k], depth + 1, style))
              && (forall k :: 0 <= k < |t.children| ==> !Fails(t.children[k], boxes[k], depth + 1, style))
    ensures result.None? ==> failed < |t.children| && Fails(t.children[failed], boxes[failed], depth + 1, style)
    decreases t, 0
  {
    var laid: seq<Laid> := [];
    failed := 0;
    for i := 0 to |t.children|
      invariant |laid| == i
      invariant forall k :: 0 <= k < i ==>
        laid[k].rect == boxes[k] && WellLaid(t.children[k], laid[k], depth + 1, style)
      invariant forall k :: 0 <= k < i ==> !Fails(t.children[k], boxes[k], depth + 1, style)
    {
      assert Inside(boxes[i], inner);
      var child := Layout(t.children[i], boxes[i], depth + 1, style);
      if child.None? {
        return None, i;
      }
      laid := laid + [child.value];
    }
    return Some(laid), 0;
  }

  /** A balanced tree never fails. */
  lemma {:induction false} BalancedNeverFails(t: Tree, rect: Rect, depth: nat, style: Style)
    requires Balanced(t)
    ensures !Fails(t, rect, depth, style)
    decreases t
  {
    forall cells: seq<Rect>, i: nat | i < |t.children| == |cells|
      ensures !Fails(t.children[i], cells[i], depth + 1, style) {
      BalancedNeverFails(t.children[i], cells[i], depth + 1, style);
    }
  }

  lemma {:induction false} SharesNonNegative(t: Tree, inner: Rect)
    requires Proper(inner)
    ensures AllNonNegative(Shares(t, inner))
  {
    TimesZero(inner.dx, inner.dy);
    AreasAre(t, Area(inner));
    RealsAreNonNegative(Areas(t.children, Area(inner), t.value));
  }

  /** Every node's children tile its padded rectangle. */
  lemma {:induction false} ChildrenTile(t: Tree, l: Laid, depth: nat, style: Style)
    requires Usable(style) && WellLaid(t, l, depth, style) && t.children != []
    ensures Tiles(Rects(l.children), Padded(t, l.rect, depth, style))
  {
    var inner := Padded(t, l.rect, depth, style);
    PadIsProper(l.rect, style.padding(t, depth));
    SharesNonNegative(t, inner);
    var stages :| Squarified(Rects(l.children), stages, Shares(t, inner), inner, style.ratio, style.round);
    SquarifiedTiles(Rects(l.children), stages, Shares(t, inner), inner, style.ratio, style.round);
  }

  // ----- Without padding -----

  function Flatten(rss: seq<seq<Rect>>): seq<Rect> {
    if rss == [] then [] else rss[0] + Flatten(rss[1..])
  }

  /** The rectangles of the leaves, in order. */
  function Leaves(l: Laid): seq<Rect> {
    if l.children == [] then [l.rect]
    else Flatten(seq(|l.children|, i requires 0 <= i < |l.children| => Leaves(l.children[i])))
  }

  /** Tiles that are tiled in turn make a finer tiling. */
  lemma {:induction false} TilesOfTiles(done: seq<Rect>, bs: seq<Rect>, css: seq<seq<Rect>>, r: Rect)
    requires |bs| == |css| && Tiles(done + bs, r) && forall i :: 0 <= i < |bs| ==> Tiles(css[i], bs[i])
    ensures Tiles(done + Flatten(css), r)
    decreases |bs|
  {
    if bs == [] {
      assert done + bs == done + Flatten(css);
    } else {
      assert done + bs == done + [bs[0]] + bs[1..];
      RefineAt(done, bs[0], css[0], bs[1..], r);
      TilesOfTiles(done + css[0], bs[1..], css[1..], r);
      assert done + css[0] + Flatten(css[1..]) == done + Flatten(css);
    }
  }

  ghost predicate Unpadded(style: Style) {
    forall t, depth :: style.padding(t, depth) == NoPadding
  }

  /** Without padding the leaves of the whole tree tile the root's rectangle. */
  lemma {:induction false} LeavesTile(t: Tree, l: Laid, depth: nat, style: Style)
    requires Usable(style) && WellLaid(t, l, depth, style) && Unpadded(style)
    ensures Tiles(Leaves(l), l.rect)
    decreases l
  {
    if l.children == [] {
      One(l.rect);
    } else {
      ChildrenTile(t, l, depth, style);
      var css := seq(|l.children|, i requires 0 <= i < |l.children| => Leaves(l.children[i]));
      forall i | 0 <= i < |l.children| ensures Tiles(css[i], Rects(l.children)[i]) {
        LeavesTile(t.children[i], l.children[i], depth + 1, style);
      }
      assert [] + Rects(l.children) == Rects(l.children);
      TilesOfTiles([], Rects(l.children), css, l.rect);
      assert [] + Flatten(css) == Flatten(css);
    }
  }

  // ----- Values as the hierarchy computes them -----

  function Sum(ts: seq<Tree>): real {
    if ts == [] then 0.0 else Sum(ts[..|ts| - 1]) + ts[|ts| - 1].value
  }

  /** A leaf has a non-negative value, any other node the sum of its children's values. */
  predicate Summed(t: Tree) {
    && (t.children == [] ==> t.value >= 0.0)
    && (t.children != [] ==> t.value == Sum(t.children))
    && (forall i :: 0 <= i < |t.children| ==> Summed(t.children[i]))
  }

  lemma {:induction false} SumOfNonNegative(ts: seq<Tree>)
    requires forall i :: 0 <= i < |ts| ==> ts[i].value >= 0.0
    ensures Sum(ts) >= 0.0
    ensures Sum(ts) == 0.0 ==> forall i :: 0 <= i < |ts| ==> ts[i].value == 0.0
  {
    if ts != [] {
      SumOfNonNegative(ts[..|ts| - 1]);
    }
  }

  /** Trees with non-negative leaves are laid out without failure. */
  lemma {:induction false} SummedIsBalanced(t: Tree)
    requires Summed(t)
    ensures t.value >= 0.0 && Balanced(t)
  {
    forall i | 0 <= i < |t.children| ensures t.children[i].value >= 0.0 && Balanced(t.children[i]) {
      SummedIsBalanced(t.children[i]);
    }
    SumOfNonNegative(t.children);
  }

  lemma {:induction false} Share(value: real, room: real, total: real)
    requires value >= 0.0 && room >= 0.0 && total > 0.0
    ensures AreaOf(value, room, total) == Number(Times(value, room / total))
  {
    DivNonNegative(room, total);
    TimesZero(value, room / total);
  }

  /** Areas in a fixed proportion to the values add up in that proportion. */
  lemma {:induction false} ProportionalTotal(ts: seq<Tree>, areas: seq<real>, k: real)
    requires |areas| == |ts| && forall i :: 0 <= i < |ts| ==> areas[i] == Times(ts[i].value, k)
    ensures Total(areas) == Times(Sum(ts), k)
    decreases |ts|
  {
    if ts != [] {
      var n := |ts| - 1;
      ProportionalTotal(ts[..n], areas[..n], k);
      Distribute(Sum(ts[..n]), ts[n].value, k);
    }
  }

  /** Every child gets its share of the room, and together they use all of it. */
  lemma {:induction false} SharesAddUp(ts: seq<Tree>, room: real, total: real)
    requires room >= 0.0 && total > 0.0 && total == Sum(ts) && forall i :: 0 <= i < |ts| ==> ts[i].value >= 0.0
    ensures forall i :: 0 <= i < |ts| ==> Reals(Areas(ts, room, total))[i] == Times(ts[i].value, room / total)
    ensures Total(Reals(Areas(ts, room, total))) == room
  {
    var areas := Reals(Areas(ts, room, total));
    forall i | 0 <= i < |ts| ensures areas[i] == Times(ts[i].value, room / total) {
      Share(ts[i].value, room, total);
    }
    ProportionalTotal(ts, areas, room / total);
    TimesQuotient(room, total);
  }

  // ----- Areas in proportion to the values -----

  /** Every node's area is its value times `k`. */
  ghost predicate Proportional(t: Tree, l: Laid, k: real) {
    && Area(l.rect) == Times(t.value, k)
    && |l.children| == |t.children|
    && (forall i :: 0 <= i < |t.children| ==> Proportional(t.children[i], l.children[i], k))
  }

  /** The children's areas are their values times the same factor as their parent's, and fill its rectangle. */
  lemma {:induction false} SharesFill(t: Tree, room: real, k: real)
    requires t.children != [] && Summed(t) && room >= 0.0 && room == Times(t.value, k)
    requires forall i :: 0 <= i < |t.children| ==> t.children[i].value >= 0.0
    ensures Total(Reals(Areas(t.children, room, t.value))) == room
    ensures forall i :: 0 <= i < |t.children| ==>
      Reals(Areas(t.children, room, t.value))[i] == Times(t.children[i].value, k)
  {
    SumOfNonNegative(t.children);
    if t.value > 0.0 {
      SharesAddUp(t.children, room, t.value);
      QuotientOfTimes(t.value, k);
    } else {
      NoShares(t.children, k);
      TotalSign(Reals(Areas(t.children, room, t.value)));
    }
  }

  lemma {:induction false} QuotientOfTimes(a: real, k: real)
    requires a > 0.0
    ensures Times(a, k) / a == k
  {
  }

  lemma {:induction false} NoShares(ts: seq<Tree>, k: real)
    requires forall i :: 0 <= i < |ts| ==> ts[i].value == 0.0
    ensures forall i :: 0 <= i < |ts| ==> Areas(ts, 0.0, 0.0)[i] == Number(0.0) && Times(ts[i].value, k) == 0.0
    ensures Times(0.0, k) == 0.0
  {
  }

  /**
  The point of a treemap: where nothing is rounded or padded, all nodes of the tree, not only siblings, have areas in
  the same proportion to their values.
  */
  lemma {:induction false} AreasAreProportional(t: Tree, l: Laid, depth: nat, style: Style, k: real)
    requires Usable(style) && Unpadded(style) && Exact(style.round) && WellLaid(t, l, depth, style)
    requires Summed(t) && Area(l.rect) == Times(t.value, k)
    ensures Proportional(t, l, k)
    decreases t
  {
    if t.children != [] {
      forall i | 0 <= i < |t.children| ensures t.children[i].value >= 0.0 {
        SummedIsBalanced(t.children[i]);
      }
      TimesZero(l.rect.dx, l.rect.dy);
      SharesFill(t, Area(l.rect), k);
      ChildrenSized(t, l, depth, style);
      forall i | 0 <= i < |t.children| ensures Proportional(t.children[i], l.children[i], k) {
        assert Rects(l.children)[i] == l.children[i].rect;
        AreasAreProportional(t.children[i], l.children[i], depth + 1, style, k);
      }
    }
  }

  lemma {:induction false} ChildrenSized(t: Tree, l: Laid, depth: nat, style: Style)
    requires Usable(style) && Unpadded(style) && Exact(style.round) && WellLaid(t, l, depth, style) && t.children != []
    requires Total(Shares(t, l.rect)) == Area(l.rect)
    ensures Sized(Rects(l.children), Shares(t, l.rect))
  {
    SharesNonNegative(t, l.rect);
    assert Padded(t, l.rect, depth, style) == l.rect;
    var stages :| Squarified(Rects(l.children), stages, Shares(t, l.rect), l.rect, style.ratio, style.round);
    SquarifiedIsSized(Rects(l.children), stages, Shares(t, l.rect), l.rect, style.ratio, style.round);
  }

  // ----- Trees that fail, and one that might have -----

  function Leaf(value: real): Tree {
    Tree(value, [])
  }

  /** Values 1 and -1 make a node of value 0, whose first child has no finite area: any rectangle with room fails. */
  lemma OneAndMinusOneFail(rect: Rect, depth: nat, style: Style)
    requires Unpadded(style) && rect.dx > 0.0 && rect.dy > 0.0
    ensures Fails(Tree(0.0, [Leaf(1.0), Leaf(-1.0)]), rect, depth, style)
  {
    var t := Tree(0.0, [Leaf(1.0), Leaf(-1.0)]);
    TimesPositive(rect.dx, rect.dy);
    assert t.children[0].value > 0.0;
  }

  /** The same node next to one of value 1 is given no room where nothing is rounded, and the tree does not fail. */
  lemma {:induction false} NoRoomToFail(rect: Rect, depth: nat, style: Style)
    requires Usable(style) && Unpadded(style) && Exact(style.round) && Proper(rect)
    ensures !Fails(Tree(1.0, [Tree(0.0, [Leaf(1.0), Leaf(-1.0)]), Leaf(1.0)]), rect, depth, style)
  {
    var inner := Tree(0.0, [Leaf(1.0), Leaf(-1.0)]);
    var t := Tree(1.0, [inner, Leaf(1.0)]);
    TimesZero(rect.dx, rect.dy);
    assert Padded(t, rect, depth, style) == rect;
    forall cells: seq<Rect>, i: nat | SquarifiedIn(t, cells, rect, style) && i < |t.children| == |cells|
      ensures !Fails(t.children[i], cells[i], depth + 1, style) {
      NoRoom(t, inner, cells, rect, style);
      NothingToFail(inner, cells[0], depth + 1, style);
      NothingToFail(Leaf(1.0), cells[1], depth + 1, style);
    }
  }

  lemma SumOfTwo(a: Tree, b: Tree)
    ensures Sum([a, b]) == a.value + b.value
  {
    assert [a, b][..1] == [a] && [a][..0] == [];
    assert Sum([a]) == a.value;
  }

  lemma {:induction false} NoRoom(t: Tree, inner: Tree, cells: seq<Rect>, rect: Rect, style: Style)
    requires t == Tree(1.0, [inner, Leaf(1.0)]) && inner.value == 0.0 && Proper(rect) && Exact(style.round)
    requires |cells| == 2 && SquarifiedIn(t, cells, rect, style)
    ensures Area(cells[0]) == 0.0
  {
    NoShare(t, inner, rect);
    SharesNonNegative(t, rect);
    var stages :| Squarified(cells, stages, Shares(t, rect), rect, style.ratio, style.round);
    SquarifiedIsSized(cells, stages, Shares(t, rect), rect, style.ratio, style.round);
  }

  lemma {:induction false} NoShare(t: Tree, inner: Tree, rect: Rect)
    requires t == Tree(1.0, [inner, Leaf(1.0)]) && inner.value == 0.0 && Proper(rect)
    ensures Total(Shares(t, rect)) == Area(rect) && Shares(t, rect)[0] == 0.0
  {
    TimesZero(rect.dx, rect.dy);
    SumOfTwo(inner, Leaf(1.0));
    SharesAddUp(t.children, Area(rect), 1.0);
    DivNonNegative(Area(rect), 1.0);
    TimesZero(0.0, Area(rect) / 1.0);
  }

  /** A node whose children are leaves does not fail without room, and a leaf never does. */
  lemma {:induction false} NothingToFail(t: Tree, rect: Rect, depth: nat, style: Style)
    requires Unpadded(style) && (t.children == [] || Area(rect) == 0.0)
    requires forall i :: 0 <= i < |t.children| ==> t.children[i].children == []
    ensures !Fails(t, rect, depth, style)
  {
    assert Padded(t, rect, depth, style) == rect;
  }
}
