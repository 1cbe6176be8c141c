/**
What the rows of a treemap amount to: they tile the rectangle, and where nothing is rounded they have the right
sizes.
*/
module TreemapRows {
  import opened Tiling
  import opened Treemap
  import opened TreemapStages

  // ----- The rows tile the rectangle -----

  lemma {:induction false} RowIsDone(done: seq<Rect>, rect: Rect, strip: seq<Rect>, rest: Rect, whole: Rect, full: bool)
    requires Tiles(done + [rect], whole) && Tiles(strip + [rest], rect) && (full ==> Tiles(strip, rect))
    ensures Tiles(done + strip + [rest], whole)
    ensures full ==> Tiles(done + strip, whole)
  {
    Refine(done, rect, strip + [rest], whole);
    assert done + (strip + [rest]) == done + strip + [rest];
    if full {
      Refine(done, rect, strip, whole);
    }
  }

  /** One row and what it leaves tile the rectangle, and a flush row alone. */
  lemma {:induction false} CellsTile(rect: Rect, areas: seq<real>, flush: bool, round: real -> real)
    requires areas != [] && AllNonNegative(areas) && Proper(rect) && KeepsSign(round)
    ensures Tiles(CellsIn(rect, areas, flush, round) + [RestOf(rect, areas, flush, round)], rect)
    ensures flush ==> Tiles(CellsIn(rect, areas, flush, round), rect)
    ensures Proper(RestOf(rect, areas, flush, round))
  {
    var across := Side(rect) == rect.dx;
    var v := ThicknessOf(rect, areas, flush, round);
    TotalSign(areas);
    ThicknessFits(Total(areas), Side(rect), Room(rect, across), flush, round);
    WidthsNonNegative(areas, v, round);
    StripTiles(Widths(areas, v, round), rect, across, v);
  }

  lemma PickNonNegative(areas: seq<real>, row: seq<nat>)
    requires AllNonNegative(areas) && Within(row, |areas|)
    ensures AllNonNegative(Pick(areas, row))
  {
  }

  lemma {:induction false} StagesTile(cells: seq<Rect>, stages: seq<Stage>, areas: seq<real>, whole: Rect,
                                      ratio: real, round: real -> real)
    requires Greedy(stages, areas, whole, ratio, round) && LaidOut(cells, stages, areas, false, round)
    requires AllNonNegative(areas) && Proper(whole) && KeepsSign(round)
    ensures Within(Joined(stages), |areas|) && (stages != [] ==> Within(stages[|stages| - 1].row, |areas|))
    ensures Proper(LeftBy(stages, areas, whole, round))
    ensures Tiles(Pick(cells, Joined(stages)) + [LeftBy(stages, areas, whole, round)], whole)
    decreases |stages|
  {
    if stages == [] {
      One(whole);
      assert Pick(cells, []) + [whole] == [whole];
    } else {
      var n := |stages| - 1;
      var before, st := stages[..n], stages[n];
      GreedyPrefix(stages, areas, whole, ratio, round);
      LaidOutPrefix(cells, stages, areas, false, round);
      StagesTile(cells, before, areas, whole, ratio, round);
      PickNonNegative(areas, st.row);
      CellsTile(st.rect, Pick(areas, st.row), false, round);
      RowIsDone(Pick(cells, Joined(before)), st.rect, CellsIn(st.rect, Pick(areas, st.row), false, round),
                LeftBy(stages, areas, whole, round), whole, false);
      PickConcat(cells, Joined(before), st.row);
    }
  }

  lemma {:induction false} InOrder(cells: seq<Rect>, whole: Rect)
    requires Tiles(Pick(cells, Down(|cells|, 0)), whole)
    ensures Tiles(cells, whole)
  {
    ReverseTiles(Pick(cells, Down(|cells|, 0)), whole);
    assert Reverse(Pick(cells, Down(|cells|, 0))) == cells;
  }

  /** A squarified layout tiles the rectangle. */
  lemma {:induction false} SquarifiedTiles(cells: seq<Rect>, stages: seq<Stage>, areas: seq<real>, whole: Rect,
                                           ratio: real, round: real -> real)
    requires Squarified(cells, stages, areas, whole, ratio, round)
    requires AllNonNegative(areas) && Proper(whole) && KeepsSign(round)
    ensures Tiles(cells, whole)
  {
    var n := |stages| - 1;
    var before, st := stages[..n], stages[n];
    GreedyPrefix(stages, areas, whole, ratio, round);
    LaidOutPrefix(cells, stages, areas, true, round);
    StagesTile(cells, before, areas, whole, ratio, round);
    PickNonNegative(areas, st.row);
    CellsTile(st.rect, Pick(areas, st.row), true, round);
    RowIsDone(Pick(cells, Joined(before)), st.rect, CellsIn(st.rect, Pick(areas, st.row), true, round),
              RestOf(st.rect, Pick(areas, st.row), true, round), whole, true);
    PickConcat(cells, Joined(before), st.row);
    InOrder(cells, whole);
  }

  // ----- Sizes, where nothing is rounded -----

  ghost predicate Exact(round: real -> real) {
    forall x :: round(x) == x
  }

  function Area(r: Rect): real {
    Times(r.dx, r.dy)
  }

  /** The rectangles have the given areas. */
  ghost predicate Sized(cells: seq<Rect>, areas: seq<real>) {
    |cells| == |areas| && forall i :: 0 <= i < |areas| ==> Area(cells[i]) == areas[i]
  }

  lemma {:induction false} TotalCons(a: real, rest: seq<real>)
    ensures Total([a] + rest) == a + Total(rest)
    decreases |rest|
  {
    if rest == [] {
      assert [a] + rest == [a];
      assert [a][..0] == [];
    } else {
      var n := |rest| - 1;
      assert ([a] + rest)[..|rest|] == [a] + rest[..n];
      TotalCons(a, rest[..n]);
    }
  }

  /** In a row of thickness `v` that is just long enough, every child gets its area. */
  lemma {:induction false} RowSized(areas: seq<real>, x: real, end: real, y: real, v: real, round: real -> real)
    requires areas != [] && AllNonNegative(areas) && v > 0.0 && Exact(round)
    requires Times(end - x, v) == Total(areas)
    ensures Sized(RowCells(Widths(areas, v, round), x, end, y, v), areas)
    decreases |areas|
  {
    var ws := Widths(areas, v, round);
    if |areas| == 1 {
      assert areas[..0] == [];
    } else {
      var a, rest := areas[0], areas[1..];
      var w := a / v;
      assert areas == [a] + rest;
      TotalCons(a, rest);
      TotalSign(rest);
      TimesQuotient(a, v);
      TimesCommutes(w, v);
      TimesOrder(w, end - x, v);
      Distribute(end - (x + w), w, v);
      assert ws[1..] == Widths(rest, v, round);
      RowSized(rest, x + w, end, y, v, round);
      SizedCons(RowCells(ws, x, end, y, v), areas, Rect(x, y, w, v), RowCells(ws[1..], x + w, end, y, v));
    }
  }

  lemma {:induction false} SizedCons(cells: seq<Rect>, areas: seq<real>, first: Rect, rest: seq<Rect>)
    requires areas != [] && cells == [first] + rest
    requires Area(first) == areas[0] && Sized(rest, areas[1..])
    ensures Sized(cells, areas)
  {
    forall i | 0 <= i < |areas| ensures Area(cells[i]) == areas[i] {
      assert i > 0 ==> cells[i] == rest[i - 1] && areas[i] == areas[1..][i - 1];
    }
  }

  lemma {:induction false} NothingSized(areas: seq<real>, x: real, end: real, y: real, round: real -> real)
    requires AllNonNegative(areas) && Total(areas) == 0.0
    ensures Sized(RowCells(Widths(areas, 0.0, round), x, end, y, 0.0), areas)
  {
    TotalSign(areas);
    FlatCells(Widths(areas, 0.0, round), x, end, y);
    forall i | 0 <= i < |areas| ensures areas[i] == 0.0 {
    }
  }

  lemma {:induction false} FlatCells(ws: seq<real>, x: real, end: real, y: real)
    ensures forall i :: 0 <= i < |ws| ==> Area(RowCells(ws, x, end, y, 0.0)[i]) == 0.0
  {
    if |ws| > 1 {
      FlatCells(ws[1..], x + MinOf(end - x, ws[0]), end, y);
    }
  }

  lemma {:induction false} FlipSized(cells: seq<Rect>, areas: seq<real>)
    requires Sized(cells, areas)
    ensures Sized(FlipAll(cells), areas)
  {
    forall i | 0 <= i < |areas| ensures Area(FlipAll(cells)[i]) == areas[i] {
      TimesCommutes(cells[i].dx, cells[i].dy);
    }
  }

  /** The thickness of a row is such that it takes its area of the side. */
  lemma {:induction false} ThicknessExact(area: real, u: real, room: real, flush: bool, round: real -> real)
    requires 0.0 <= area <= Times(u, room) && u >= 0.0 && room >= 0.0 && Exact(round)
    requires flush ==> area == Times(u, room)
    ensures Times(u, Thickness(area, u, room, flush, round)) == area
    ensures 0.0 <= Thickness(area, u, room, flush, round)
  {
    if u == 0.0 {
      TimesZero(u, room);
    } else {
      TimesQuotient(area, u);
      DivNonNegative(area, u);
      TimesCommutes(u, area / u);
      TimesCommutes(u, room);
      TimesOrder(area / u, room, u);
    }
  }

  /** A row gives every child its area, and leaves the rest of the rectangle's. */
  lemma {:induction false} StripSized(areas: seq<real>, rect: Rect, flush: bool, round: real -> real)
    requires areas != [] && AllNonNegative(areas) && Proper(rect) && Exact(round)
    requires Total(areas) <= Area(rect) && (flush ==> Total(areas) == Area(rect))
    ensures Sized(CellsIn(rect, areas, flush, round), areas)
    ensures Area(RestOf(rect, areas, flush, round)) == Area(rect) - Total(areas)
  {
    var u, across := Side(rect), Side(rect) == rect.dx;
    var room := Room(rect, across);
    var v := ThicknessOf(rect, areas, flush, round);
    TotalSign(areas);
    TimesCommutes(rect.dx, rect.dy);
    ThicknessExact(Total(areas), u, room, flush, round);
    var f := if across then rect else Flip(rect);
    if v > 0.0 {
      RowSized(areas, f.x, f.x + f.dx, f.y, v, round);
    } else {
      TimesZero(u, v);
      NothingSized(areas, f.x, f.x + f.dx, f.y, round);
    }
    if !across {
      FlipSized(RowCells(Widths(areas, v, round), f.x, f.x + f.dx, f.y, v), areas);
    }
    RestSized(rect, across, v);
  }

  lemma {:induction false} RestSized(rect: Rect, across: bool, v: real)
    ensures Area(Remains(rect, across, v)) == Area(rect) - Times(if across then rect.dx else rect.dy, v)
  {
  }

  lemma {:induction false} TotalConcat(a: seq<real>, b: seq<real>)
    ensures Total(a + b) == Total(a) + Total(b)
    decreases |b|
  {
    if b == [] {
      assert a + b == a;
    } else {
      assert (a + b)[..|a| + |b| - 1] == a + b[..|b| - 1];
      TotalConcat(a, b[..|b| - 1]);
    }
  }

  /** The areas add up in any of the two orders. */
  lemma {:induction false} TotalDown(areas: seq<real>, k: nat)
    requires k <= |areas|
    ensures Within(Down(|areas|, k), |areas|)
    ensures Total(Pick(areas, Down(|areas|, k))) + Total(areas[..k]) == Total(areas)
    decreases |areas| - k
  {
    if k == |areas| {
      assert areas[..k] == areas;
      assert Pick(areas, Down(|areas|, k)) == [];
    } else {
      TotalDown(areas, k + 1);
      DownIsRow(|areas|, k + 1);
      PickConcat(areas, Down(|areas|, k + 1), [k]);
      assert Pick(areas, [k]) == [areas[k]];
      TotalConcat(Pick(areas, Down(|areas|, k + 1)), [areas[k]]);
      assert [areas[k]][..0] == [];
      assert areas[..k + 1][..k] == areas[..k];
    }
  }

  /** Every child of the row has its area. */
  ghost predicate StageSized(st: Stage, areas: seq<real>, flush: bool, round: real -> real) {
    Within(st.row, |areas|) && Sized(CellsIn(st.rect, Pick(areas, st.row), flush, round), Pick(areas, st.row))
  }

  ghost predicate AllStagesSized(stages: seq<Stage>, areas: seq<real>, round: real -> real) {
    forall i :: 0 <= i < |stages| ==> StageSized(stages[i], areas, false, round)
  }

  lemma {:induction false} AllStagesStep(stages: seq<Stage>, areas: seq<real>, round: real -> real)
    requires stages != [] && AllStagesSized(stages[..|stages| - 1], areas, round)
    requires StageSized(stages[|stages| - 1], areas, false, round)
    ensures AllStagesSized(stages, areas, round)
  {
    var before := stages[..|stages| - 1];
    forall i | 0 <= i < |stages| ensures StageSized(stages[i], areas, false, round) {
      if i < |before| {
        assert StageSized(before[i], areas, false, round);
      }
    }
  }

  /** One more row has its area of what the rows before it left. */
  lemma {:induction false} StageSizes(st: Stage, areas: seq<real>, flush: bool, round: real -> real)
    requires AllNonNegative(areas) && Within(st.row, |areas|) && st.row != [] && Proper(st.rect) && Exact(round)
    requires Total(Pick(areas, st.row)) <= Area(st.rect) && (flush ==> Total(Pick(areas, st.row)) == Area(st.rect))
    ensures StageSized(st, areas, flush, round)
    ensures Proper(RestOf(st.rect, Pick(areas, st.row), flush, round))
    ensures Area(RestOf(st.rect, Pick(areas, st.row), flush, round)) == Area(st.rect) - Total(Pick(areas, st.row))
  {
    PickNonNegative(areas, st.row);
    StripSized(Pick(areas, st.row), st.rect, flush, round);
    CellsTile(st.rect, Pick(areas, st.row), flush, round);
  }

  /** The rows so far have used up their areas, and every child has its own. */
  lemma {:induction false} StagesSized(stages: seq<Stage>, areas: seq<real>, whole: Rect, ratio: real,
                                       round: real -> real)
    requires Greedy(stages, areas, whole, ratio, round) && Within(Joined(stages), |areas|)
    requires AllNonNegative(areas) && Proper(whole) && Exact(round) && Total(Pick(areas, Joined(stages))) <= Area(whole)
    ensures stages != [] ==> Within(stages[|stages| - 1].row, |areas|)
    ensures Proper(LeftBy(stages, areas, whole, round))
    ensures Area(LeftBy(stages, areas, whole, round)) == Area(whole) - Total(Pick(areas, Joined(stages)))
    ensures AllStagesSized(stages, areas, round)
    decreases |stages|
  {
    if stages == [] {
      assert Pick(areas, []) == [];
    } else {
      var n := |stages| - 1;
      GreedyPrefix(stages, areas, whole, ratio, round);
      JoinedParts(stages, areas);
      StagesSized(stages[..n], areas, whole, ratio, round);
      StageSizes(stages[n], areas, false, round);
      AllStagesStep(stages, areas, round);
    }
  }

  lemma {:induction false} JoinedParts(stages: seq<Stage>, areas: seq<real>)
    requires stages != [] && Within(Joined(stages), |areas|) && Within(stages[|stages| - 1].row, |areas|)
    ensures Within(Joined(stages[..|stages| - 1]), |areas|)
    ensures Total(Pick(areas, Joined(stages))) ==
            Total(Pick(areas, Joined(stages[..|stages| - 1]))) + Total(Pick(areas, stages[|stages| - 1].row))
    ensures AllNonNegative(areas) ==> Total(Pick(areas, stages[|stages| - 1].row)) >= 0.0
  {
    var before, row := Joined(stages[..|stages| - 1]), stages[|stages| - 1].row;
    assert forall k :: 0 <= k < |before| ==> before[k] == Joined(stages)[k];
    PickConcat(areas, before, row);
    TotalConcat(Pick(areas, before), Pick(areas, row));
    if AllNonNegative(areas) {
      PickNonNegative(areas, row);
      TotalSign(Pick(areas, row));
    }
  }

  /**
  Where nothing is rounded and the areas fill the rectangle, every child of a squarified layout gets exactly its
  area.
  */
  lemma {:induction false} SquarifiedIsSized(cells: seq<Rect>, stages: seq<Stage>, areas: seq<real>, whole: Rect,
                                             ratio: real, round: real -> real)
    requires Squarified(cells, stages, areas, whole, ratio, round)
    requires AllNonNegative(areas) && Proper(whole) && Exact(round) && Total(areas) == Area(whole)
    ensures Sized(cells, areas)
  {
    var n := |stages| - 1;
    var before, st := stages[..n], stages[n];
    GreedyPrefix(stages, areas, whole, ratio, round);
    TotalDown(areas, 0);
    assert areas[..0] == [];
    JoinedParts(stages, areas);
    StagesSized(before, areas, whole, ratio, round);
    StageSizes(st, areas, true, round);
    AllSized(cells, stages, areas, round);
  }

  lemma {:induction false} LaidOutSized(cells: seq<Rect>, stages: seq<Stage>, areas: seq<real>, round: real -> real,
                                        i: nat)
    requires LaidOut(cells, stages, areas, true, round) && i < |stages|
    requires StageSized(stages[i], areas, i == |stages| - 1, round)
    ensures Within(stages[i].row, |areas|) && Sized(Pick(cells, stages[i].row), Pick(areas, stages[i].row))
  {
    assert Pick(cells, stages[i].row) == CellsIn(stages[i].rect, Pick(areas, stages[i].row), i == |stages| - 1, round);
  }

  /** Where every row is sized, every child is. */
  lemma {:induction false} AllSized(cells: seq<Rect>, stages: seq<Stage>, areas: seq<real>, round: real -> real)
    requires LaidOut(cells, stages, areas, true, round) && stages != [] && Joined(stages) == Down(|areas|, 0)
    requires AllStagesSized(stages[..|stages| - 1], areas, round) &&
             StageSized(stages[|stages| - 1], areas, true, round)
    ensures Sized(cells, areas)
  {
    var before := stages[..|stages| - 1];
    forall c: nat | c < |areas| ensures Area(cells[c]) == areas[c] {
      assert Down(|areas|, 0)[|areas| - 1 - c] == c;
      var i, k := FindChild(stages, c);
      if i < |before| {
        assert StageSized(before[i], areas, false, round);
      }
      LaidOutSized(cells, stages, areas, round, i);
      var row := stages[i].row;
      assert cells[c] == Pick(cells, row)[k];
      assert Pick(areas, row)[k] == areas[c];
    }
  }
}
