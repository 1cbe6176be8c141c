/** `position`, `worst` and `squarify`, with the rectangles of the children in an array that is filled in place. */
module TreemapLayout {
  import opened Tiling
  import opened Treemap
  import opened TreemapStages
  import opened Floats
  import opened TreemapRows

  /** Only the children of the row were moved. */
  twostate predicate OthersKept(boxes: array<Rect>, row: seq<nat>)
    reads boxes
  {
    forall c :: 0 <= c < boxes.Length && c !in row ==> boxes[c] == old(boxes[c])
  }

  /** `st` lists where the children of a row start, and where the last one ends before it is stretched. */
  ghost predicate Starts(st: seq<real>, ws: seq<real>, x: real, end: real) {
    && |st| == |ws| + 1
    && st[0] == x
    && (forall k {:trigger ws[k]} :: 0 <= k < |ws| ==> st[k + 1] == st[k] + MinOf(end - st[k], ws[k]))
  }

  ghost function StartsOf(ws: seq<real>, x: real, end: real): (st: seq<real>)
    ensures Starts(st, ws, x, end)
  {
    if ws == [] then [x]
    else
      var rest := StartsOf(ws[1..], x + MinOf(end - x, ws[0]), end);
      var st := [x] + rest;
      assert forall k :: 0 < k < |ws| ==> ws[k] == ws[1..][k - 1];
      st
  }

  lemma {:induction false} RowCellsNth(ws: seq<real>, st: seq<real>, i: nat, x: real, end: real, y: real, v: real)
    requires i < |ws| && Starts(st, ws, x, end)
    ensures RowCells(ws, x, end, y, v)[i] == Rect(st[i], y, if i == |ws| - 1 then end - st[i] else st[i + 1] - st[i], v)
    decreases i
  {
    assert st[1] == x + MinOf(end - x, ws[0]);
    if i > 0 {
      assert forall k :: 0 <= k < |ws| - 1 ==> ws[1..][k] == ws[k + 1];
      RowCellsNth(ws[1..], st[1..], i - 1, st[1], end, y, v);
    }
  }

  /** The first loop of `position`: a row across the rectangle, up to the stretching of its last child. */
  method FillAcross(row: seq<nat>, areas: seq<real>, rect: Rect, v: real, width: real -> real, boxes: array<Rect>,
             ghost ws: seq<real>, ghost st: seq<real>)
    returns (x: real)
    requires RowOf(row, boxes.Length) && boxes.Length == |areas|
    requires |ws| == |row| && forall k :: 0 <= k < |row| ==> ws[k] == width(areas[row[k]])
    requires Starts(st, ws, rect.x, rect.x + rect.dx)
    modifies boxes
    ensures x == st[|row|]
    ensures forall k :: 0 <= k < |row| ==> boxes[row[k]] == Rect(st[k], rect.y, st[k + 1] - st[k], v)
    ensures OthersKept(boxes, row)
  {
    x := rect.x;
    var end := rect.x + rect.dx;
    var i := 0;
    while i < |row|
      invariant 0 <= i <= |row|
      invariant x == st[i]
      invariant forall k :: 0 <= k < i ==> boxes[row[k]] == Rect(st[k], rect.y, st[k + 1] - st[k], v)
      invariant OthersKept(boxes, row)
    {
      var dx := MinOf(end - x, width(areas[row[i]]));
      assert st[i + 1] == st[i] + MinOf(end - st[i], ws[i]);
      boxes[row[i]] := Rect(x, rect.y, dx, v);
      x := x + dx;
      i := i + 1;
    }
  }

  method PlaceAcross(row: seq<nat>, areas: seq<real>, rect: Rect, v: real, round: real -> real, boxes: array<Rect>)
    requires row != [] && RowOf(row, boxes.Length) && boxes.Length == |areas|
    modifies boxes
    ensures Pick(boxes[..], row) == RowCells(Widths(Pick(areas, row), v, round), rect.x, rect.x + rect.dx, rect.y, v)
    ensures OthersKept(boxes, row)
  {
    ghost var ws := Widths(Pick(areas, row), v, round);
    var end := rect.x + rect.dx;
    ghost var st := StartsOf(ws, rect.x, end);
    var x := FillAcross(row, areas, rect, v, area => Width(area, v, round), boxes, ws, st);
    var last := row[|row| - 1];
    boxes[last] := boxes[last].(dx := boxes[last].dx + (end - x));
    forall k | 0 <= k < |row| ensures boxes[row[k]] == RowCells(ws, rect.x, end, rect.y, v)[k] {
      RowCellsNth(ws, st, k, rect.x, end, rect.y, v);
    }
  }

  /** The second loop of `position`: a row down the rectangle, up to the stretching of its last child. */
  method FillDown(row: seq<nat>, areas: seq<real>, rect: Rect, v: real, width: real -> real, boxes: array<Rect>,
             ghost ws: seq<real>, ghost st: seq<real>)
    returns (y: real)
    requires RowOf(row, boxes.Length) && boxes.Length == |areas|
    requires |ws| == |row| && forall k :: 0 <= k < |row| ==> ws[k] == width(areas[row[k]])
    requires Starts(st, ws, rect.y, rect.y + rect.dy)
    modifies boxes
    ensures y == st[|row|]
    ensures forall k :: 0 <= k < |row| ==> boxes[row[k]] == Rect(rect.x, st[k], v, st[k + 1] - st[k])
    ensures OthersKept(boxes, row)
  {
    y := rect.y;
    var end := rect.y + rect.dy;
    var i := 0;
    while i < |row|
      invariant 0 <= i <= |row|
      invariant y == st[i]
      invariant forall k :: 0 <= k < i ==> boxes[row[k]] == Rect(rect.x, st[k], v, st[k + 1] - st[k])
      invariant OthersKept(boxes, row)
    {
      var dy := MinOf(end - y, width(areas[row[i]]));
      assert st[i + 1] == st[i] + MinOf(end - st[i], ws[i]);
      boxes[row[i]] := Rect(rect.x, y, v, dy);
      y := y + dy;
      i := i + 1;
    }
  }

  method PlaceDown(row: seq<nat>, areas: seq<real>, rect: Rect, v: real, round: real -> real, boxes: array<Rect>)
    requires row != [] && RowOf(row, boxes.Length) && boxes.Length == |areas|
    modifies boxes
    ensures Pick(boxes[..], row) ==
            FlipAll(RowCells(Widths(Pick(areas, row), v, round), rect.y, rect.y + rect.dy, rect.x, v))
    ensures OthersKept(boxes, row)
  {
    ghost var ws := Widths(Pick(areas, row), v, round);
    var end := rect.y + rect.dy;
    ghost var st := StartsOf(ws, rect.y, end);
    var y := FillDown(row, areas, rect, v, area => Width(area, v, round), boxes, ws, st);
    var last := row[|row| - 1];
    boxes[last] := boxes[last].(dy := boxes[last].dy + (end - y));
    forall k | 0 <= k < |row| ensures boxes[row[k]] == Flip(RowCells(ws, rect.y, end, rect.x, v)[k]) {
      RowCellsNth(ws, st, k, rect.y, end, rect.x, v);
    }
  }

  /** Places a row, and returns what is left of the rectangle. */
  method Position(row: seq<nat>, area: real, areas: seq<real>, u: real, rect: Rect, flush: bool, round: real -> real,
                  boxes: array<Rect>)
    returns (rest: Rect)
    requires row != [] && RowOf(row, boxes.Length) && boxes.Length == |areas|
    modifies boxes
    ensures var across := u == rect.dx;
            var v := Thickness(area, u, Room(rect, across), flush, round);
            && Pick(boxes[..], row) == Strip(Widths(Pick(areas, row), v, round), rect, across, v)
            && rest == Remains(rect, across, v)
    ensures OthersKept(boxes, row)
  {
    var v;
    if u == rect.dx {
      v := Thick(area, u, rect.dy, flush, round);
      PlaceAcross(row, areas, rect, v, round, boxes);
      rest := Rect(rect.x, rect.y + v, rect.dx, rect.dy - v);
    } else {
      v := Thick(area, u, rect.dx, flush, round);
      PlaceDown(row, areas, rect, v, round, boxes);
      rest := Rect(rect.x + v, rect.y, rect.dx - v, rect.dy);
    }
  }

  method Thick(area: real, u: real, room: real, flush: bool, round: real -> real) returns (v: real)
    ensures v == Thickness(area, u, room, flush, round)
  {
    v := if u == 0.0 then 0.0 else round(area / u);
    if flush || v > room {
      v := room;
    }
  }

  // ----- The worst aspect ratio of a row -----

  /** An area is a number that is not negative, or infinite. */
  predicate IsArea(a: Float) {
    a == Infinity || (a.Number? && a.r >= 0.0)
  }

  ghost predicate AllAreas(areas: seq<Float>) {
    forall k :: 0 <= k < |areas| ==> IsArea(areas[k])
  }

  /** The areas as reals; one that is infinite counts for nothing here. */
  function Reals(areas: seq<Float>): (rs: seq<real>)
    ensures |rs| == |areas|
  {
    seq(|areas|, k requires 0 <= k < |areas| => if areas[k].Number? then areas[k].r else 0.0)
  }

  lemma RealsAreNonNegative(areas: seq<Float>)
    requires AllAreas(areas)
    ensures AllNonNegative(Reals(areas))
  {
  }

  /** What the loop of `worst` finds: nothing, the two extremes, or an infinite area. */
  ghost predicate Found(areas: seq<Float>, rmin: Float, rmax: Float) {
    && (Infinity in areas ==> rmax == Infinity)
    && (Infinity !in areas && (forall k :: 0 <= k < |areas| ==> areas[k] == Number(0.0)) ==>
          rmax == Number(0.0) && rmin == Infinity)
    && (Infinity !in areas && (exists k :: 0 <= k < |areas| && areas[k] != Number(0.0)) ==>
          rmin.Number? && rmax.Number? && Extremal(Reals(areas), rmin.r, rmax.r))
  }

  lemma {:induction false} FoundStep(areas: seq<Float>, r: Float, rmin: Float, rmax: Float)
    requires AllAreas(areas) && IsArea(r) && Found(areas, rmin, rmax) &&
             (rmax == Infinity || (rmax.Number? && rmax.r >= 0.0))
    ensures var rmin', rmax' :=
              if Truthy(r) && Less(r, rmin) then r else rmin, if Truthy(r) && Less(rmax, r) then r else rmax;
            Found(areas + [r], rmin', rmax') && (rmax' == Infinity || (rmax'.Number? && rmax'.r >= 0.0))
  {
    var more := areas + [r];
    assert more[|areas|] == r;
    assert forall k :: 0 <= k < |areas| ==> more[k] == areas[k];
    assert Infinity in more <==> Infinity in areas || r == Infinity;
    if Infinity !in more {
      FoundNumber(areas, r, rmin, rmax);
    }
  }

  lemma {:induction false} FoundNumber(areas: seq<Float>, r: Float, rmin: Float, rmax: Float)
    requires AllAreas(areas) && r.Number? && r.r >= 0.0 && Infinity !in areas && Found(areas, rmin, rmax)
    ensures var rmin', rmax' :=
              if Truthy(r) && Less(r, rmin) then r else rmin, if Truthy(r) && Less(rmax, r) then r else rmax;
            Infinity !in areas + [r] ==> Found(areas + [r], rmin', rmax') && rmax'.Number? && rmax'.r >= 0.0
  {
    var rs := Reals(areas);
    var more := areas + [r];
    assert Reals(more) == rs + [r.r];
    assert more[|areas|] == r;
    assert forall k :: 0 <= k < |areas| ==> more[k] == areas[k] && areas[k] in areas;
  }

  /** `worst` */
  method Worst(row: seq<Float>, s: Float, u: Float, ratio: real) returns (score: Float)
    requires AllAreas(row)
    requires Infinity !in row ==> s == Number(Total(Reals(row)))
    requires Infinity in row ==> s == Infinity
    ensures Infinity !in row && u.Number? ==> ScoreIs(Reals(row), u.r, ratio, score)
    ensures Infinity in row ==> score == NaN
  {
    var rmax, rmin := Number(0.0), Infinity;
    var i := 0;
    while i < |row|
      invariant 0 <= i <= |row| && Found(row[..i], rmin, rmax)
      invariant rmax == Infinity || (rmax.Number? && rmax.r >= 0.0)
    {
      FoundStep(row[..i], row[i], rmin, rmax);
      assert row[..i + 1] == row[..i] + [row[i]];
      var r := row[i];
      if Truthy(r) {
        if Less(r, rmin) {
          rmin := r;
        }
        if Less(rmax, r) {
          rmax := r;
        }
      }
      i := i + 1;
    }
    assert row[..|row|] == row;
    WorstIs(row, s, u, ratio, rmin, rmax);
    score := if Truthy(Product(s, s)) then Rating(s, u, rmax, rmin, ratio) else Infinity;
  }

  lemma {:induction false} WorstIs(row: seq<Float>, s: Float, u: Float, ratio: real, rmin: Float, rmax: Float)
    requires AllAreas(row) && Found(row, rmin, rmax)
    requires s == if Infinity in row then Infinity else Number(Total(Reals(row)))
    ensures var score := if Truthy(Product(s, s)) then Rating(s, u, rmax, rmin, ratio) else Infinity;
            && (Infinity in row ==> score == NaN)
            && (Infinity !in row && u.Number? ==> ScoreIs(Reals(row), u.r, ratio, score))
  {
    if Infinity in row {
      InfiniteRating(u, rmin, ratio);
    } else {
      FiniteWorst(row, u, ratio, rmin, rmax);
    }
  }

  lemma {:induction false} FiniteWorst(row: seq<Float>, u: Float, ratio: real, rmin: Float, rmax: Float)
    requires AllAreas(row) && Found(row, rmin, rmax) && Infinity !in row
    ensures var s := Number(Total(Reals(row)));
            var score := if Truthy(Product(s, s)) then Rating(s, u, rmax, rmin, ratio) else Infinity;
            u.Number? ==> ScoreIs(Reals(row), u.r, ratio, score)
  {
    RealsAreNonNegative(row);
    TotalSign(Reals(row));
    var s := Total(Reals(row));
    if s > 0.0 {
      var k :| 0 <= k < |row| && Reals(row)[k] > 0.0;
      assert row[k] != Number(0.0);
      SquareIsTruthy(s);
    }
  }

  lemma {:induction false} SquareIsTruthy(s: real)
    requires s > 0.0
    ensures Truthy(Product(Number(s), Number(s)))
  {
    SquarePositive(s);
  }

  /** A row with an infinite area has no score, whatever the side and the ratio. */
  lemma {:induction false} InfiniteRating(u: Float, rmin: Float, ratio: real)
    ensures Rating(Infinity, u, Infinity, rmin, ratio) == NaN
  {
    var top := Product(Product(Product(u, u), Infinity), Number(ratio));
    assert !top.Number?;
  }

  // ----- Squarify -----

  /** The rows in `stages` are placed, and the children from `n` on that are not in them are in the row `st`. */
  ghost predicate InProgress(cells: seq<Rect>, stages: seq<Stage>, st: Stage, n: nat, areas: seq<real>, whole: Rect,
                             ratio: real, round: real -> real)
  {
    && n <= |areas| && Joined(stages) + st.row == Down(|areas|, n)
    && Greedy(stages, areas, whole, ratio, round) && LaidOut(cells, stages, areas, false, round)
    && (stages != [] ==> Within(stages[|stages| - 1].row, |areas|)) && st.rect == LeftBy(stages, areas, whole, round)
    && Scored(st, areas, ratio)
    && (st.row == [] ==> n > 0)
    && (stages != [] ==> Ripe(stages[|stages| - 1], areas, ratio, if st.row == [] then n - 1 else st.row[0]))
  }

  /** The next child joins the row. */
  lemma {:induction false} JoinRow(cells: seq<Rect>, stages: seq<Stage>, st: Stage, n: nat, child: nat, st': Stage,
                                   areas: seq<real>, whole: Rect, ratio: real, round: real -> real, score: Float)
    requires InProgress(cells, stages, st, n, areas, whole, ratio, round) && n == child + 1
    requires ScoreIs(Pick(areas, st.row + [child]), Side(st.rect), ratio, score)
    requires st.row != [] ==> AtMost(score, st.scores[|st.row| - 1])
    requires st' == Stage(st.rect, st.row + [child], st.scores + [score])
    ensures InProgress(cells, stages, st', child, areas, whole, ratio, round)
  {
    JoinLine(stages, st.row, n, child, |areas|);
    ScoredStep(st, areas, ratio, child, score);
  }

  lemma {:induction false} JoinLine(stages: seq<Stage>, row: seq<nat>, n: nat, child: nat, size: nat)
    requires n == child + 1 && n <= size && Joined(stages) + row == Down(size, n)
    ensures Joined(stages) + (row + [child]) == Down(size, child)
  {
    DownIsRow(size, n);
    assert Joined(stages) + (row + [child]) == (Joined(stages) + row) + [child];
  }

  /** The children of the row are in no earlier one. */
  lemma {:induction false} RowIsNew(stages: seq<Stage>, row: seq<nat>, n: nat, size: nat)
    requires n <= size && Joined(stages) + row == Down(size, n)
    ensures RowOf(row, size) && forall k :: 0 <= k < |row| ==> row[k] !in Joined(stages)
  {
    DownIsRow(size, n);
    var a := Joined(stages);
    var c := a + row;
    assert forall k :: 0 <= k < |a| ==> a[k] == c[k];
    assert forall k :: 0 <= k < |row| ==> row[k] == c[|a| + k];
  }

  /** The row is placed, and the next one is begun with what it left. */
  lemma {:induction false} CloseRow(before: seq<Rect>, cells: seq<Rect>, stages: seq<Stage>, st: Stage, n: nat,
                                    areas: seq<real>, whole: Rect, ratio: real, round: real -> real)
    requires InProgress(before, stages, st, n, areas, whole, ratio, round)
    requires n > 0 && Ripe(st, areas, ratio, n - 1) && |cells| == |areas|
    requires forall c :: 0 <= c < |cells| && c !in st.row ==> cells[c] == before[c]
    requires Pick(cells, st.row) == CellsIn(st.rect, Pick(areas, st.row), false, round)
    ensures InProgress(cells, stages + [st], Stage(RestOf(st.rect, Pick(areas, st.row), false, round), [], []), n,
                       areas, whole, ratio, round)
  {
    RowIsNew(stages, st.row, n, |areas|);
    GreedyStep(stages, st, areas, whole, ratio, round);
    LaidOutStep(before, cells, stages, st, areas, false, round);
    JoinedStep(stages, st);
    NewStage(cells, stages + [st], n, areas, whole, ratio, round);
  }

  lemma {:induction false} NewStage(cells: seq<Rect>, stages: seq<Stage>, n: nat, areas: seq<real>, whole: Rect,
                                    ratio: real, round: real -> real)
    requires stages != [] && 0 < n <= |areas| && Joined(stages) == Down(|areas|, n)
    requires Greedy(stages, areas, whole, ratio, round) && LaidOut(cells, stages, areas, false, round)
    requires Ripe(stages[|stages| - 1], areas, ratio, n - 1)
    ensures InProgress(cells, stages, Stage(LeftBy(stages, areas, whole, round), [], []), n, areas, whole, ratio, round)
  {
    assert Joined(stages) + [] == Joined(stages);
  }

  /** The last row is placed, and takes all that is left. */
  lemma {:induction false} CloseLastRow(before: seq<Rect>, cells: seq<Rect>, stages: seq<Stage>, st: Stage,
                                        areas: seq<real>, whole: Rect, ratio: real, round: real -> real)
    requires InProgress(before, stages, st, 0, areas, whole, ratio, round) && |cells| == |areas|
    requires forall c :: 0 <= c < |cells| && c !in st.row ==> cells[c] == before[c]
    requires Pick(cells, st.row) == CellsIn(st.rect, Pick(areas, st.row), true, round)
    ensures Squarified(cells, stages + [st], areas, whole, ratio, round)
  {
    RowIsNew(stages, st.row, 0, |areas|);
    GreedyStep(stages, st, areas, whole, ratio, round);
    LaidOutStep(before, cells, stages, st, areas, true, round);
    JoinedStep(stages, st);
  }

  lemma {:induction false} LongerArea(areas: seq<real>, row: seq<nat>, child: nat)
    requires Within(row, |areas|) && child < |areas|
    ensures Within(row + [child], |areas|)
    ensures Total(Pick(areas, row + [child])) == Total(Pick(areas, row)) + areas[child]
  {
    PickConcat(areas, row, [child]);
    var longer := Pick(areas, row + [child]);
    assert longer[..|row|] == Pick(areas, row);
  }

  method PlaceRow(row: seq<nat>, area: real, areas: seq<real>, u: real, rect: Rect, round: real -> real,
                  boxes: array<Rect>, ghost stages: seq<Stage>, ghost scores: seq<Float>, ghost n: nat,
                  ghost whole: Rect, ghost ratio: real)
    returns (rest: Rect)
    requires boxes.Length == |areas| && AllNonNegative(areas) && Proper(rect) && KeepsSign(round)
    requires InProgress(boxes[..], stages, Stage(rect, row, scores), n, areas, whole, ratio, round)
    requires u == Side(rect) && area == Total(Pick(areas, row)) && n > 0 &&
             Ripe(Stage(rect, row, scores), areas, ratio, n - 1)
    modifies boxes
    ensures InProgress(boxes[..], stages + [Stage(rect, row, scores)], Stage(rest, [], []), n, areas, whole,
                       ratio, round)
    ensures Proper(rest)
  {
    RowIsNew(stages, row, n, |areas|);
    rest := Position(row, area, areas, u, rect, false, round, boxes);
    CloseRow(old(boxes[..]), boxes[..], stages, Stage(rect, row, scores), n, areas, whole, ratio, round);
    PickNonNegative(areas, row);
    CellsTile(rect, Pick(areas, row), false, round);
  }

  method PlaceLastRow(row: seq<nat>, area: real, areas: seq<real>, u: real, rect: Rect, round: real -> real,
                      boxes: array<Rect>, ghost stages: seq<Stage>, ghost scores: seq<Float>, ghost whole: Rect,
                      ghost ratio: real)
    requires boxes.Length == |areas|
    requires InProgress(boxes[..], stages, Stage(rect, row, scores), 0, areas, whole, ratio, round)
    requires u == Side(rect) && area == Total(Pick(areas, row))
    modifies boxes
    ensures Squarified(boxes[..], stages + [Stage(rect, row, scores)], areas, whole, ratio, round)
  {
    RowIsNew(stages, row, 0, |areas|);
    var _ := Position(row, area, areas, u, rect, true, round, boxes);
    CloseLastRow(old(boxes[..]), boxes[..], stages, Stage(rect, row, scores), areas, whole, ratio, round);
  }

  /** The sides of what is left after a row that is not the last one, whatever its area. */
  function SidesAfter(area: Float, u: Float, dx: Float, dy: Float, round: real -> real): (Float, Float) {
    var v := if Truthy(u) then Applied(round, Quotient(area, u, false)) else Number(0.0);
    if u == dx && u != NaN then (dx, Minus(dy, if Less(dy, v) then dy else v))
    else (Minus(dx, if Less(dx, v) then dx else v), dy)
  }

  /** With a number for its area these are the sides of what `position` leaves. */
  lemma {:induction false} SidesAreThose(area: real, rect: Rect, round: real -> real)
    ensures var u, across := Side(rect), Side(rect) == rect.dx;
            var rest := Remains(rect, across, Thickness(area, u, Room(rect, across), false, round));
            SidesAfter(Number(area), Number(u), Number(rect.dx), Number(rect.dy), round) ==
            (Number(rest.dx), Number(rest.dy))
  {
  }

  /** The loop has met no infinite area, and is where the rows say. */
  ghost predicate OnTrack(areas: seq<Float>, row: seq<nat>, area: Float, best: Float, scores: seq<Float>, n: nat) {
    && n <= |areas| && Within(row, |areas|) && |scores| == |row|
    && (forall k :: n <= k < |areas| ==> areas[k] != Infinity)
    && (forall k :: 0 <= k < |row| ==> areas[row[k]] != Infinity)
    && area == Number(Total(Pick(Reals(areas), row)))
    && best == if row == [] then Infinity else scores[|row| - 1]
  }

  /** The loop has rejected an infinite area once, and nothing is in the row. */
  ghost predicate OffTrack(areas: seq<Float>, row: seq<nat>, area: Float, best: Float, n: nat) {
    0 < n <= |areas| && areas[n - 1] == Infinity && row == [] && area == Number(0.0) && best == Infinity
  }

  lemma {:induction false} RowAreas(areas: seq<Float>, row: seq<nat>, child: nat)
    requires AllAreas(areas) && Within(row, |areas|) && child < |areas|
    requires forall k :: 0 <= k < |row| ==> areas[row[k]] != Infinity
    ensures var longer := row + [child];
            && Within(longer, |areas|) && AllAreas(Pick(areas, longer))
            && (Infinity in Pick(areas, longer) <==> areas[child] == Infinity)
            && Reals(Pick(areas, longer)) == Pick(Reals(areas), longer)
            && Total(Pick(Reals(areas), longer)) == Total(Pick(Reals(areas), row)) + Reals(areas)[child]
  {
    LongerArea(Reals(areas), row, child);
    var longer := row + [child];
    var picked := Pick(areas, longer);
    assert forall k :: 0 <= k < |row| ==> longer[k] == row[k];
    assert picked[|row|] == areas[child];
    forall k | 0 <= k < |row| ensures picked[k] != Infinity {
      assert picked[k] == areas[row[k]];
    }
  }

  /** The rectangle left is that of the rows, and its sides are the ones the loop works with. */
  ghost predicate Tracked(areas: seq<Float>, cells: seq<Rect>, stages: seq<Stage>, st: Stage, n: nat, dx: Float,
                          dy: Float, whole: Rect, ratio: real, round: real -> real)
  {
    && Proper(st.rect) && dx == Number(st.rect.dx) && dy == Number(st.rect.dy)
    && InProgress(cells, stages, st, n, Reals(areas), whole, ratio, round)
  }

  /** The score that the row would have with one more child. */
  method Try(areas: seq<Float>, row: seq<nat>, area: Float, u: Float, ratio: real, child: nat) returns (score: Float)
    requires AllAreas(areas) && Within(row, |areas|) && child < |areas|
    requires forall k :: 0 <= k < |row| ==> areas[row[k]] != Infinity
    requires area == Number(Total(Pick(Reals(areas), row)))
    ensures areas[child] == Infinity ==> score == NaN
    ensures areas[child] != Infinity && u.Number? ==> ScoreIs(Pick(Reals(areas), row + [child]), u.r, ratio, score)
  {
    RowAreas(areas, row, child);
    score := Worst(Pick(areas, row + [child]), Plus(area, areas[child]), u, ratio);
  }

  /** The child is accepted: its area is not infinite. */
  lemma {:induction false} AcceptOnTrack(areas: seq<Float>, row: seq<nat>, area: Float, best: Float,
                                         scores: seq<Float>, n: nat, child: nat, score: Float)
    requires AllAreas(areas) && n == child + 1 && OnTrack(areas, row, area, best, scores, n) && areas[child] != Infinity
    ensures OnTrack(areas, row + [child], Plus(area, areas[child]), score, scores + [score], child)
  {
    RowAreas(areas, row, child);
  }

  lemma {:induction false} RejectIsRipe(areas: seq<Float>, st: Stage, ratio: real, child: nat, score: Float)
    requires Within(st.row, |areas|) && child < |areas| && |st.scores| == |st.row| > 0
    requires !AtMost(score, st.scores[|st.row| - 1])
    requires areas[child] != Infinity ==> ScoreIs(Pick(Reals(areas), st.row + [child]), Side(st.rect), ratio, score)
    ensures areas[child] != Infinity ==> Ripe(st, Reals(areas), ratio, child)
  {
  }

  /** The row before a rejected child is positioned; after an infinite one there is nothing but an empty row. */
  method Reject(areas: seq<Float>, row: seq<nat>, area: Float, u: Float, rect: Rect, dx: Float, dy: Float,
                round: real -> real, boxes: array<Rect>, ghost stages: seq<Stage>, ghost scores: seq<Float>, n: nat,
                ghost whole: Rect, ghost ratio: real)
    returns (rect': Rect, dx': Float, dy': Float, ghost stages': seq<Stage>)
    requires AllAreas(areas) && boxes.Length == |areas| && KeepsSign(round) && 0 < n <= |areas| && row != []
    requires Tracked(areas, boxes[..], stages, Stage(rect, row, scores), n, dx, dy, whole, ratio, round)
    requires u == Number(Side(rect)) && Within(row, |areas|)
    requires areas[n - 1] == Infinity ==> area == NaN
    requires areas[n - 1] != Infinity ==>
               area == Number(Total(Pick(Reals(areas), row))) &&
               Ripe(Stage(rect, row, scores), Reals(areas), ratio, n - 1)
    modifies boxes
    ensures areas[n - 1] != Infinity ==>
              Tracked(areas, boxes[..], stages', Stage(rect', [], []), n, dx', dy', whole, ratio, round)
  {
    rect', stages' := rect, stages;
    if area.Number? {
      RealsAreNonNegative(areas);
      rect' := PlaceRow(row, area.r, Reals(areas), u.r, rect, round, boxes, stages, scores, n, whole, ratio);
      stages' := stages + [Stage(rect, row, scores)];
      SidesAreThose(area.r, rect, round);
    }
    dx', dy' := SidesAfter(area, u, dx, dy, round).0, SidesAfter(area, u, dx, dy, round).1;
  }

  /** The variables of the loop. */
  datatype Work = Work(n: nat, row: seq<nat>, area: Float, best: Float, u: Float, rect: Rect, dx: Float, dy: Float)

  ghost predicate Running(areas: seq<Float>, w: Work, cells: seq<Rect>, stages: seq<Stage>, scores: seq<Float>,
                          whole: Rect, ratio: real, round: real -> real)
  {
    || OffTrack(areas, w.row, w.area, w.best, w.n)
    || (&& OnTrack(areas, w.row, w.area, w.best, scores, w.n) && w.u == Number(Side(w.rect))
        && Tracked(areas, cells, stages, Stage(w.rect, w.row, scores), w.n, w.dx, w.dy, whole, ratio, round))
  }

  lemma {:induction false} Accept(areas: seq<Float>, w: Work, w': Work, child: nat, cells: seq<Rect>,
                                  stages: seq<Stage>, scores: seq<Float>, whole: Rect, ratio: real,
                                  round: real -> real, score: Float)
    requires AllAreas(areas) && w.n == child + 1 && Running(areas, w, cells, stages, scores, whole, ratio, round)
    requires areas[child] != Infinity && AtMost(score, w.best)
    requires w.u.Number? ==> ScoreIs(Pick(Reals(areas), w.row + [child]), w.u.r, ratio, score)
    requires w' == w.(n := child, row := w.row + [child], area := Plus(w.area, areas[child]), best := score)
    ensures Running(areas, w', cells, stages, scores + [score], whole, ratio, round)
  {
    AcceptOnTrack(areas, w.row, w.area, w.best, scores, w.n, child, score);
    JoinRow(cells, stages, Stage(w.rect, w.row, scores), w.n, child, Stage(w.rect, w'.row, scores + [score]),
            Reals(areas), whole, ratio, round, score);
  }

  method RejectChild(areas: seq<Float>, w: Work, boxes: array<Rect>, ghost stages: seq<Stage>, ghost scores: seq<Float>,
                     ghost whole: Rect, ghost ratio: real, round: real -> real, ghost score: Float)
    returns (w': Work, ghost stages': seq<Stage>)
    requires AllAreas(areas) && boxes.Length == |areas| && KeepsSign(round) && w.n > 0 && w.row != []
    requires Running(areas, w, boxes[..], stages, scores, whole, ratio, round) && !AtMost(score, w.best)
    requires areas[w.n - 1] != Infinity && w.u.Number? ==>
               ScoreIs(Pick(Reals(areas), w.row + [w.n - 1]), w.u.r, ratio, score)
    modifies boxes
    ensures Running(areas, w', boxes[..], stages', [], whole, ratio, round) && w'.n == w.n && w'.row == []
  {
    assert OnTrack(areas, w.row, w.area, w.best, scores, w.n);
    RejectIsRipe(areas, Stage(w.rect, w.row, scores), ratio, w.n - 1, score);
    TakenBack(w.area, areas[w.n - 1]);
    var area := Minus(Plus(w.area, areas[w.n - 1]), areas[w.n - 1]);
    var rect, dx, dy;
    rect, dx, dy, stages' := Reject(areas, w.row, area, w.u, w.rect, w.dx, w.dy, round, boxes, stages, scores, w.n,
                                    whole, ratio);
    w' := Work(w.n, [], Number(0.0), Infinity, Smaller(dx, dy), rect, dx, dy);
    NewRow(areas, w', boxes[..], stages', whole, ratio, round);
  }

  /** The area of a rejected child is taken back, which leaves no number if it is infinite. */
  lemma TakenBack(area: Float, a: Float)
    requires area.Number? && IsArea(a)
    ensures Minus(Plus(area, a), a) == if a == Infinity then NaN else area
  {
  }

  lemma {:induction false} NewRow(areas: seq<Float>, w: Work, cells: seq<Rect>, stages: seq<Stage>, whole: Rect,
                                  ratio: real, round: real -> real)
    requires 0 < w.n <= |areas| && w.row == [] && w.area == Number(0.0) && w.best == Infinity &&
             w.u == Smaller(w.dx, w.dy)
    requires forall k :: w.n <= k < |areas| ==> areas[k] != Infinity
    requires areas[w.n - 1] != Infinity ==>
               Tracked(areas, cells, stages, Stage(w.rect, [], []), w.n, w.dx, w.dy, whole, ratio, round)
    ensures Running(areas, w, cells, stages, [], whole, ratio, round)
  {
    if areas[w.n - 1] != Infinity {
      assert Pick(Reals(areas), []) == [];
    }
  }

  /** One round of the loop: the last child joins the row, or the row before it is positioned, or there is none. */
  method Round(areas: seq<Float>, w: Work, boxes: array<Rect>, ghost stages: seq<Stage>, ghost scores: seq<Float>,
               ghost whole: Rect, ratio: real, round: real -> real)
    returns (w': Work, emptyRow: bool, ghost stages': seq<Stage>, ghost scores': seq<Float>)
    requires AllAreas(areas) && boxes.Length == |areas| && KeepsSign(round) && w.n > 0
    requires Running(areas, w, boxes[..], stages, scores, whole, ratio, round)
    modifies boxes
    ensures emptyRow ==> Infinity in areas
    ensures !emptyRow ==>
              && Running(areas, w', boxes[..], stages', scores', whole, ratio, round)
              && (w'.n < w.n || (w'.n == w.n && |w'.row| < |w.row|))
  {
    var child := w.n - 1;
    var score := Try(areas, w.row, w.area, w.u, ratio, child);
    if AtMost(score, w.best) {
      w' := w.(n := child, row := w.row + [child], area := Plus(w.area, areas[child]), best := score);
      Accept(areas, w, w', child, boxes[..], stages, scores, whole, ratio, round, score);
      return w', false, stages, scores + [score];
    }
    if w.row == [] {
      RowStartsWell(areas, ratio, w.u, child, score);
      return w, true, stages, scores;
    }
    w', stages' := RejectChild(areas, w, boxes, stages, scores, whole, ratio, round, score);
    emptyRow, scores' := false, [];
  }

  /**
  For any areas the loop ends.  It positions an empty row, on which `position` fails, if and only if some area is
  infinite; otherwise the rows are the greedy ones.  Once an infinite area was rejected, the area of the row is not a
  number, and neither are the rectangles then made; they are not represented, as the next row is the empty one.
  */
  method Squarify(areas: seq<Float>, whole: Rect, round: real -> real, ratio: real)
    returns (boxes: array<Rect>, emptyRow: bool, ghost stages: seq<Stage>)
    requires areas != [] && AllAreas(areas) && Proper(whole) && KeepsSign(round)
    ensures fresh(boxes) && boxes.Length == |areas|
    ensures emptyRow <==> Infinity in areas
    ensures !emptyRow ==> Squarified(boxes[..], stages, Reals(areas), whole, ratio, round)
  {
    boxes := new Rect[|areas|](i => Rect(0.0, 0.0, 0.0, 0.0));
    var dx, dy := Number(whole.dx), Number(whole.dy);
    var w := Work(|areas|, [], Number(0.0), Infinity, Smaller(dx, dy), whole, dx, dy);
    ghost var scores: seq<Float>;
    stages, scores := [], [];
    while w.n > 0
      invariant fresh(boxes) && boxes.Length == |areas|
      invariant Running(areas, w, boxes[..], stages, scores, whole, ratio, round)
      decreases w.n, |w.row|
    {
      w, emptyRow, stages, scores := Round(areas, w, boxes, stages, scores, whole, ratio, round);
      if emptyRow {
        return;
      }
    }
    PlaceLastRow(w.row, w.area.r, Reals(areas), w.u.r, w.rect, round, boxes, stages, scores, whole, ratio);
    stages := stages + [Stage(w.rect, w.row, scores)];
    emptyRow := false;
  }

  /** A single child is accepted unless its area is infinite. */
  lemma {:induction false} RowStartsWell(areas: seq<Float>, ratio: real, u: Float, child: nat, score: Float)
    requires AllAreas(areas) && child < |areas|
    requires areas[child] != Infinity ==> u.Number? && ScoreIs(Pick(Reals(areas), [] + [child]), u.r, ratio, score)
    ensures areas[child] != Infinity ==> AtMost(score, Infinity)
  {
    if areas[child] != Infinity {
      RealsAreNonNegative(areas);
      ScoreIsNumber(Pick(Reals(areas), [] + [child]), u.r, ratio, score);
    }
  }
}
