/**
The squarified treemap: the children of a node are laid out in rows along the shorter side of what is left of the
node's rectangle, a row being closed when one more child would make its worst aspect ratio worse.  Numbers are exact;
`round` is any function that keeps non-negative numbers non-negative.
*/
module Treemap {
  import opened Tiling

  ghost predicate KeepsSign(round: real -> real) {
    forall x :: x >= 0.0 ==> round(x) >= 0.0
  }

  ghost predicate AllNonNegative(areas: seq<real>) {
    forall i :: 0 <= i < |areas| ==> areas[i] >= 0.0
  }

  function MinOf(a: real, b: real): real {
    if a <= b then a else b
  }

  // ----- One row, on values -----

  /** How much of a row of thickness `v` a child of the given area takes. */
  function Width(area: real, v: real, round: real -> real): real {
    if v == 0.0 then 0.0 else round(area / v)
  }

  /** The widths the children of a row would like to have. */
  function Widths(areas: seq<real>, v: real, round: real -> real): (ws: seq<real>)
    ensures |ws| == |areas|
  {
    seq(|areas|, i requires 0 <= i < |areas| => Width(areas[i], v, round))
  }

  /** The children of a row from `x` to `end`, given their wanted widths; the last one takes all that is left. */
  function RowCells(ws: seq<real>, x: real, end: real, y: real, v: real): (cells: seq<Rect>)
    ensures |cells| == |ws|
  {
    if ws == [] then []
    else if |ws| == 1 then [Rect(x, y, end - x, v)]
    else
      var w := MinOf(end - x, ws[0]);
      [Rect(x, y, w, v)] + RowCells(ws[1..], x + w, end, y, v)
  }

  lemma {:induction false} CutDown(r: Rect, w: real)
    requires Proper(r) && 0.0 <= w <= r.dx
    ensures Tiles([Rect(r.x, r.y, w, r.dy), Rect(r.x + w, r.y, r.dx - w, r.dy)], r)
  {
    Cut(Flip(r), w);
    var bs := [Rect(r.y, r.x, r.dy, w), Rect(r.y, r.x + w, r.dy, r.dx - w)];
    FlipTiles(bs, Flip(r));
    assert FlipAll(bs) == [Rect(r.x, r.y, w, r.dy), Rect(r.x + w, r.y, r.dx - w, r.dy)];
  }

  lemma {:induction false} DivNonNegative(a: real, b: real)
    requires a >= 0.0 && b > 0.0
    ensures a / b >= 0.0
  {
  }

  lemma {:induction false} WidthsNonNegative(areas: seq<real>, v: real, round: real -> real)
    requires AllNonNegative(areas) && v >= 0.0 && KeepsSign(round)
    ensures AllNonNegative(Widths(areas, v, round))
  {
    forall i | 0 <= i < |areas| ensures Width(areas[i], v, round) >= 0.0 {
      if v != 0.0 {
        DivNonNegative(areas[i], v);
      }
    }
  }

  lemma {:induction false} RowTiles(ws: seq<real>, x: real, end: real, y: real, v: real)
    requires ws != [] && AllNonNegative(ws) && x <= end && v >= 0.0
    ensures Tiles(RowCells(ws, x, end, y, v), Rect(x, y, end - x, v))
    decreases |ws|
  {
    var r := Rect(x, y, end - x, v);
    if |ws| == 1 {
      One(r);
    } else {
      var w := MinOf(end - x, ws[0]);
      CutDown(r, w);
      RowTiles(ws[1..], x + w, end, y, v);
      var rest := Rect(x + w, y, end - (x + w), v);
      assert [Rect(x, y, w, v)] + [rest] == [Rect(r.x, r.y, w, r.dy), Rect(r.x + w, r.y, r.dx - w, r.dy)];
      Refine([Rect(x, y, w, v)], rest, RowCells(ws[1..], x + w, end, y, v), r);
    }
  }

  /** The room for a row that runs across the rectangle, or down. */
  function Room(rect: Rect, across: bool): real {
    if across then rect.dy else rect.dx
  }

  /** The thickness of a row of the given area along a side `u`, and never more than there is room for. */
  function Thickness(area: real, u: real, room: real, flush: bool, round: real -> real): real {
    var v := if u == 0.0 then 0.0 else round(area / u);
    if flush || v > room then room else v
  }

  /** The rectangles of the children of a row of thickness `v`. */
  function Strip(ws: seq<real>, rect: Rect, across: bool, v: real): (cells: seq<Rect>)
    ensures |cells| == |ws|
  {
    if across then RowCells(ws, rect.x, rect.x + rect.dx, rect.y, v)
    else FlipAll(RowCells(ws, rect.y, rect.y + rect.dy, rect.x, v))
  }

  /** What the row leaves of the rectangle. */
  function Remains(rect: Rect, across: bool, v: real): Rect {
    if across then Rect(rect.x, rect.y + v, rect.dx, rect.dy - v)
    else Rect(rect.x + v, rect.y, rect.dx - v, rect.dy)
  }

  lemma {:induction false} ThicknessFits(area: real, u: real, room: real, flush: bool, round: real -> real)
    requires area >= 0.0 && u >= 0.0 && room >= 0.0 && KeepsSign(round)
    ensures 0.0 <= Thickness(area, u, room, flush, round) <= room
    ensures flush ==> Thickness(area, u, room, flush, round) == room
  {
    if u != 0.0 {
      DivNonNegative(area, u);
    }
  }

  /** A row and what it leaves tile the rectangle; a row that takes all the room tiles it alone. */
  lemma {:induction false} StripTiles(ws: seq<real>, rect: Rect, across: bool, v: real)
    requires ws != [] && AllNonNegative(ws) && Proper(rect) && 0.0 <= v <= Room(rect, across)
    ensures Tiles(Strip(ws, rect, across, v) + [Remains(rect, across, v)], rect)
    ensures v == Room(rect, across) ==> Tiles(Strip(ws, rect, across, v), rect)
    ensures Proper(Remains(rect, across, v))
  {
    if across {
      UpperStrip(ws, rect, v);
      assert Remains(rect, across, v) == Rect(rect.x, rect.y + v, rect.dx, rect.dy - v);
    } else {
      LeftStrip(ws, rect, v);
      assert Remains(rect, across, v) == Rect(rect.x + v, rect.y, rect.dx - v, rect.dy);
    }
  }

  lemma {:induction false} LeftStrip(ws: seq<real>, r: Rect, v: real)
    requires ws != [] && AllNonNegative(ws) && Proper(r) && 0.0 <= v <= r.dx
    ensures var cells := FlipAll(RowCells(ws, r.y, r.y + r.dy, r.x, v));
            && Tiles(cells + [Rect(r.x + v, r.y, r.dx - v, r.dy)], r)
            && (v == r.dx ==> Tiles(cells, r))
  {
    var f := Flip(r);
    var cells := RowCells(ws, f.x, f.x + f.dx, f.y, v);
    var left := Rect(f.x, f.y + v, f.dx, f.dy - v);
    UpperStrip(ws, f, v);
    FlipTiles(cells + [left], f);
    assert FlipAll(cells + [left]) == FlipAll(cells) + [Flip(left)];
    if v == r.dx {
      FlipTiles(cells, f);
    }
  }

  lemma {:induction false} UpperStrip(ws: seq<real>, r: Rect, v: real)
    requires ws != [] && AllNonNegative(ws) && Proper(r) && 0.0 <= v <= r.dy
    ensures var cells := RowCells(ws, r.x, r.x + r.dx, r.y, v);
            && Tiles(cells + [Rect(r.x, r.y + v, r.dx, r.dy - v)], r)
            && (v == r.dy ==> Tiles(cells, r))
  {
    var cells := RowCells(ws, r.x, r.x + r.dx, r.y, v);
    var top, left := Rect(r.x, r.y, r.dx, v), Rect(r.x, r.y + v, r.dx, r.dy - v);
    RowTiles(ws, r.x, r.x + r.dx, r.y, v);
    Cut(r, v);
    SwapTiles(top, left, r);
    assert [left] + [top] == [left, top];
    assert top == Rect(r.x, r.y, r.x + r.dx - r.x, v);
    Refine([left], top, cells, r);
    RotateTiles(left, cells, r);
  }

  lemma {:induction false} SwapTiles(a: Rect, b: Rect, r: Rect)
    requires Tiles([a, b], r)
    ensures Tiles([b, a], r)
  {
    ReverseTiles([a, b], r);
    assert Reverse([a, b]) == [b, a];
  }

  lemma {:induction false} RotateTiles(a: Rect, bs: seq<Rect>, r: Rect)
    requires Tiles([a] + bs, r)
    ensures Tiles(bs + [a], r)
  {
    var cs, ds := [a] + bs, bs + [a];
    forall i | 0 <= i < |ds| ensures Inside(ds[i], r) {
      assert ds[i] == if i < |bs| then cs[i + 1] else cs[0];
    }
    forall i, j | 0 <= i < j < |ds| ensures Apart(ds[i], ds[j]) {
      if j < |bs| {
        assert Apart(cs[i + 1], cs[j + 1]);
      } else {
        assert Apart(cs[0], cs[i + 1]);
        forall px, py ensures !(Inner(ds[i], px, py) && Inner(ds[j], px, py)) {
        }
      }
    }
    forall px, py | Holds(r, px, py) ensures exists i :: 0 <= i < |ds| && Holds(ds[i], px, py) {
      var i :| 0 <= i < |cs| && Holds(cs[i], px, py);
      assert Holds(ds[if i == 0 then |bs| else i - 1], px, py);
    }
  }
}
