/**
The rows of a squarified treemap, as values: which children make a row, where its rectangles are, and, where nothing
is rounded, how large they are.
*/
module TreemapStages {
  import opened Tiling
  import opened Treemap
  import opened Floats

  function Pick<T>(xs: seq<T>, row: seq<nat>): (ys: seq<T>)
    requires forall k :: 0 <= k < |row| ==> row[k] < |xs|
    ensures |ys| == |row|
  {
    seq(|row|, k requires 0 <= k < |row| => xs[row[k]])
  }

  ghost predicate RowOf(row: seq<nat>, n: nat) {
    && (forall k :: 0 <= k < |row| ==> row[k] < n)
    && (forall i, j :: 0 <= i < j < |row| ==> row[i] != row[j])
  }

  lemma {:induction false} PickConcat<T>(xs: seq<T>, a: seq<nat>, b: seq<nat>)
    requires forall k :: 0 <= k < |a| ==> a[k] < |xs|
    requires forall k :: 0 <= k < |b| ==> b[k] < |xs|
    ensures forall k :: 0 <= k < |a + b| ==> (a + b)[k] < |xs|
    ensures Pick(xs, a + b) == Pick(xs, a) + Pick(xs, b)
  {
  }

  // ----- Sums and products -----

  function Total(areas: seq<real>): real {
    if areas == [] then 0.0 else Total(areas[..|areas| - 1]) + areas[|areas| - 1]
  }

  lemma {:induction false} TotalSign(areas: seq<real>)
    requires AllNonNegative(areas)
    ensures Total(areas) >= 0.0
    ensures Total(areas) > 0.0 <==> exists i :: 0 <= i < |areas| && areas[i] > 0.0
  {
    if areas != [] {
      var rest := areas[..|areas| - 1];
      TotalSign(rest);
      assert forall i :: 0 <= i < |rest| ==> rest[i] == areas[i];
      if Total(areas) > 0.0 && !(Total(rest) > 0.0) {
        assert areas[|areas| - 1] > 0.0;
      }
    }
  }

  function Times(a: real, b: real): real {
    a * b
  }

  lemma {:induction false} TimesPositive(a: real, b: real)
    requires a > 0.0 && b > 0.0
    ensures Times(a, b) > 0.0
  {
  }

  lemma {:induction false} Distribute(a: real, b: real, c: real)
    ensures Times(a + b, c) == Times(a, c) + Times(b, c)
  {
  }

  lemma {:induction false} TimesQuotient(a: real, b: real)
    requires b > 0.0
    ensures Times(b, a / b) == a
  {
  }

  lemma {:induction false} TimesCommutes(a: real, b: real)
    ensures Times(a, b) == Times(b, a)
  {
  }

  lemma {:induction false} TimesOrder(a: real, b: real, c: real)
    requires c > 0.0 && Times(a, c) <= Times(b, c)
    ensures a <= b
  {
  }

  lemma {:induction false} TimesZero(a: real, b: real)
    requires a >= 0.0 && b >= 0.0
    ensures Times(a, b) >= 0.0
    ensures a == 0.0 || b == 0.0 ==> Times(a, b) == 0.0
  {
  }

  function Square(x: real): real {
    Times(x, x)
  }

  lemma {:induction false} SquarePositive(x: real)
    requires x > 0.0
    ensures Square(x) > 0.0
  {
    TimesPositive(x, x);
  }

  // ----- The worst aspect ratio of a row -----

  function MaxOf(a: real, b: real): real {
    if a >= b then a else b
  }

  /** The squared side, a child's area and the wanted ratio, multiplied. */
  function Scaled(u2: real, r: real, ratio: real): real {
    u2 * r * ratio
  }

  /**
  How far a child of area `r` in a row is from the wanted ratio, either way: `s2` is the square of the row's total
  area, `u2` the square of the side the row runs along.
  */
  ghost function Stretch(r: real, s2: real, u2: real, ratio: real): real
    requires r > 0.0 && s2 > 0.0 && u2 > 0.0 && ratio > 0.0
  {
    ScaledOrder(u2, r, r, ratio);
    MaxOf(Scaled(u2, r, ratio) / s2, s2 / Scaled(u2, r, ratio))
  }

  lemma {:induction false} PositiveProduct(a: real, b: real)
    requires a > 0.0 && b > 0.0
    ensures a * b > 0.0
  {
  }

  lemma {:induction false} MulGrows(a: real, b: real, c: real)
    requires a <= b && c > 0.0
    ensures c * a <= c * b
  {
  }

  lemma {:induction false} ScaledOrder(u2: real, r: real, r': real, ratio: real)
    requires 0.0 < r <= r' && u2 > 0.0 && ratio > 0.0
    ensures 0.0 < Scaled(u2, r, ratio) <= Scaled(u2, r', ratio)
  {
    PositiveProduct(u2, r);
    PositiveProduct(u2 * r, ratio);
    MulGrows(r, r', u2);
    MulGrows(u2 * r, u2 * r', ratio);
  }

  lemma {:induction false} DivGrows(a: real, b: real, c: real)
    requires a <= b && c > 0.0
    ensures a / c <= b / c
  {
  }

  lemma {:induction false} DivShrinks(x: real, a: real, b: real)
    requires x > 0.0 && 0.0 < a <= b
    ensures x / b <= x / a
  {
    var p, q := x / a, x / b;
    assert p * a == x && q * b == x;
  }

  /** A larger child is stretched more one way, and less the other. */
  lemma {:induction false} StretchBound(r: real, rmin: real, rmax: real, s2: real, u2: real, ratio: real)
    requires 0.0 < rmin <= r <= rmax && s2 > 0.0 && u2 > 0.0 && ratio > 0.0
    ensures Scaled(u2, rmin, ratio) > 0.0
    ensures Stretch(r, s2, u2, ratio) <= MaxOf(Scaled(u2, rmax, ratio) / s2, s2 / Scaled(u2, rmin, ratio))
  {
    ScaledOrder(u2, rmin, r, ratio);
    ScaledOrder(u2, r, rmax, ratio);
    DivGrows(Scaled(u2, r, ratio), Scaled(u2, rmax, ratio), s2);
    DivShrinks(s2, Scaled(u2, rmin, ratio), Scaled(u2, r, ratio));
  }

  /** The score is the largest stretch of any child of the row that has an area. */
  ghost predicate IsWorst(areas: seq<real>, s2: real, u2: real, ratio: real, worst: real)
    requires s2 > 0.0 && u2 > 0.0 && ratio > 0.0
  {
    && (forall i :: 0 <= i < |areas| && areas[i] > 0.0 ==> Stretch(areas[i], s2, u2, ratio) <= worst)
    && (exists i :: 0 <= i < |areas| && areas[i] > 0.0 && Stretch(areas[i], s2, u2, ratio) == worst)
  }

  /** The smallest and the largest of the areas decide. */
  lemma {:induction false} ExtremesDecide(areas: seq<real>, imin: nat, imax: nat, s2: real, u2: real, ratio: real)
    requires s2 > 0.0 && u2 > 0.0 && ratio > 0.0
    requires imin < |areas| && imax < |areas| && 0.0 < areas[imin] <= areas[imax]
    requires forall k :: 0 <= k < |areas| && areas[k] > 0.0 ==> areas[imin] <= areas[k] <= areas[imax]
    ensures Scaled(u2, areas[imin], ratio) > 0.0
    ensures IsWorst(areas, s2, u2, ratio,
                    MaxOf(Scaled(u2, areas[imax], ratio) / s2, s2 / Scaled(u2, areas[imin], ratio)))
  {
    var lo, hi := areas[imin], areas[imax];
    ScaledOrder(u2, lo, hi, ratio);
    var worst := MaxOf(Scaled(u2, hi, ratio) / s2, s2 / Scaled(u2, lo, ratio));
    forall k | 0 <= k < |areas| && areas[k] > 0.0 ensures Stretch(areas[k], s2, u2, ratio) <= worst {
      StretchBound(areas[k], lo, hi, s2, u2, ratio);
    }
    StretchBound(lo, lo, hi, s2, u2, ratio);
    StretchBound(hi, lo, hi, s2, u2, ratio);
    assert Stretch(areas[imax], s2, u2, ratio) == worst || Stretch(areas[imin], s2, u2, ratio) == worst;
  }

  /** What `worst` makes of the total, the side, and the largest and the smallest area of a row. */
  function Rating(s: Float, u: Float, rmax: Float, rmin: Float, ratio: real): Float {
    var s2, u2 := Product(s, s), Product(u, u);
    Larger(Quotient(Product(Product(u2, rmax), Number(ratio)), s2, false),
           Quotient(s2, Product(Product(u2, rmin), Number(ratio)), ratio < 0.0))
  }

  /** The smallest and the largest of the areas that are not zero. */
  ghost predicate Extremal(areas: seq<real>, rmin: real, rmax: real) {
    && rmin in areas && rmax in areas && 0.0 < rmin <= rmax
    && (forall k :: 0 <= k < |areas| && areas[k] > 0.0 ==> rmin <= areas[k] <= rmax)
  }

  /** The score of a row with the given areas along a side `u`: a row without area is infinitely bad. */
  ghost predicate ScoreIs(areas: seq<real>, u: real, ratio: real, score: Float) {
    if Total(areas) == 0.0 then score == Infinity
    else exists rmin, rmax :: Extremal(areas, rmin, rmax) &&
           score == Rating(Number(Total(areas)), Number(u), Number(rmax), Number(rmin), ratio)
  }

  lemma {:induction false} ScoreUnique(areas: seq<real>, u: real, ratio: real, a: Float, b: Float)
    requires ScoreIs(areas, u, ratio, a) && ScoreIs(areas, u, ratio, b)
    ensures a == b
  {
    if Total(areas) != 0.0 {
      var rmin, rmax :| Extremal(areas, rmin, rmax) &&
        a == Rating(Number(Total(areas)), Number(u), Number(rmax), Number(rmin), ratio);
      var qmin, qmax :| Extremal(areas, qmin, qmax) &&
        b == Rating(Number(Total(areas)), Number(u), Number(qmax), Number(qmin), ratio);
      ExtremalUnique(areas, rmin, rmax, qmin, qmax);
    }
  }

  lemma {:induction false} ExtremalUnique(areas: seq<real>, rmin: real, rmax: real, qmin: real, qmax: real)
    requires Extremal(areas, rmin, rmax) && Extremal(areas, qmin, qmax)
    ensures rmin == qmin && rmax == qmax
  {
  }

  /** The same number, hidden from arithmetic. */
  lemma {:induction false} RatingIs(s: real, u: real, rmax: real, rmin: real, ratio: real)
    requires s > 0.0
    ensures Square(s) > 0.0
    ensures var least, most := Scaled(Square(u), rmin, ratio), Scaled(Square(u), rmax, ratio) / Square(s);
            Rating(Number(s), Number(u), Number(rmax), Number(rmin), ratio) ==
            if least != 0.0 then Number(MaxOf(most, Square(s) / least))
            else if ratio < 0.0 then Number(most)
            else Infinity
  {
    SquarePositive(s);
  }

  /** A score is a number or plus infinity, so that it is never worse than the infinity a row starts with. */
  lemma {:induction false} ScoreIsNumber(areas: seq<real>, u: real, ratio: real, score: Float)
    requires AllNonNegative(areas) && ScoreIs(areas, u, ratio, score)
    ensures score.Number? || score == Infinity
    ensures AtMost(score, Infinity)
  {
    TotalSign(areas);
    if Total(areas) != 0.0 {
      var rmin, rmax :| Extremal(areas, rmin, rmax) &&
        score == Rating(Number(Total(areas)), Number(u), Number(rmax), Number(rmin), ratio);
      RatingIs(Total(areas), u, rmax, rmin, ratio);
    }
  }

  /** For a positive ratio the score is the worst stretch of any child of the row that has an area. */
  lemma {:induction false} ScoreIsWorst(areas: seq<real>, u: real, ratio: real, score: Float)
    requires AllNonNegative(areas) && u >= 0.0 && ratio > 0.0 && ScoreIs(areas, u, ratio, score)
    ensures score == Infinity <==> Total(areas) == 0.0 || u == 0.0
    ensures score != Infinity ==>
              && score.Number? && Square(Total(areas)) > 0.0 && Square(u) > 0.0
              && IsWorst(areas, Square(Total(areas)), Square(u), ratio, score.r)
  {
    TotalSign(areas);
    if Total(areas) != 0.0 {
      var rmin, rmax :| Extremal(areas, rmin, rmax) &&
        score == Rating(Number(Total(areas)), Number(u), Number(rmax), Number(rmin), ratio);
      RatingIs(Total(areas), u, rmax, rmin, ratio);
      if u == 0.0 {
        NoSide(rmin, ratio);
      } else {
        SquarePositive(u);
        var imin :| 0 <= imin < |areas| && areas[imin] == rmin;
        var imax :| 0 <= imax < |areas| && areas[imax] == rmax;
        ExtremesDecide(areas, imin, imax, Square(Total(areas)), Square(u), ratio);
      }
    }
  }

  lemma {:induction false} NoSide(r: real, ratio: real)
    ensures Scaled(Square(0.0), r, ratio) == 0.0
  {
  }

  // ----- Rows -----

  /** The order in which children are taken: from the last one down to number `k`. */
  function Down(n: nat, k: nat): (order: seq<nat>)
    requires k <= n
    ensures |order| == n - k
  {
    seq(n - k, i requires 0 <= i < n - k => n - 1 - i)
  }

  lemma {:induction false} DownIsRow(n: nat, k: nat)
    requires k <= n
    ensures RowOf(Down(n, k), n)
    ensures k > 0 ==> Down(n, k - 1) == Down(n, k) + [k - 1]
  {
  }

  /** A row: the rectangle that was left when it was begun, its children, and the scores it had as they joined it. */
  datatype Stage = Stage(rect: Rect, row: seq<nat>, scores: seq<Float>)

  function Side(rect: Rect): real {
    MinOf(rect.dx, rect.dy)
  }

  ghost predicate Within(row: seq<nat>, n: nat) {
    forall k :: 0 <= k < |row| ==> row[k] < n
  }

  /** Score `k` is that of the row up to its child `k`, and not worse than the one before. */
  ghost predicate ScoredAt(st: Stage, areas: seq<real>, ratio: real, k: nat)
    requires Within(st.row, |areas|) && k < |st.scores| == |st.row|
  {
    && ScoreIs(Pick(areas, st.row[..k + 1]), Side(st.rect), ratio, st.scores[k])
    && (k > 0 ==> AtMost(st.scores[k], st.scores[k - 1]))
  }

  ghost predicate Scored(st: Stage, areas: seq<real>, ratio: real) {
    && Within(st.row, |areas|) && |st.scores| == |st.row|
    && (forall k: nat :: k < |st.row| ==> ScoredAt(st, areas, ratio, k))
  }

  /** The row is closed: one more child would make its score worse. */
  ghost predicate Ripe(st: Stage, areas: seq<real>, ratio: real, child: nat)
  {
    && Within(st.row, |areas|) && child < |areas| && |st.scores| == |st.row| > 0
    && exists score :: ScoreIs(Pick(areas, st.row + [child]), Side(st.rect), ratio, score) &&
                       !AtMost(score, st.scores[|st.row| - 1])
  }

  function ThicknessOf(rect: Rect, areas: seq<real>, flush: bool, round: real -> real): real {
    Thickness(Total(areas), Side(rect), Room(rect, Side(rect) == rect.dx), flush, round)
  }

  /** The rectangles of the children of a row, and what it leaves. */
  function CellsIn(rect: Rect, areas: seq<real>, flush: bool, round: real -> real): (cells: seq<Rect>)
    ensures |cells| == |areas|
  {
    var v := ThicknessOf(rect, areas, flush, round);
    Strip(Widths(areas, v, round), rect, Side(rect) == rect.dx, v)
  }

  /** Cells of one thickness side by side, from `x` to `end`. */
  predicate InLine(cells: seq<Rect>, x: real, end: real, y: real, v: real) {
    && cells != [] && cells[0].x == x && cells[|cells| - 1].x + cells[|cells| - 1].dx == end
    && (forall k :: 0 <= k < |cells| ==> cells[k].y == y && cells[k].dy == v)
    && (forall k :: 0 < k < |cells| ==> cells[k].x == cells[k - 1].x + cells[k - 1].dx)
  }

  lemma {:induction false} RowCellsInLine(ws: seq<real>, x: real, end: real, y: real, v: real)
    requires ws != []
    ensures InLine(RowCells(ws, x, end, y, v), x, end, y, v)
  {
    if |ws| > 1 {
      RowCellsInLine(ws[1..], x + MinOf(end - x, ws[0]), end, y, v);
    }
  }

  /** A row runs along the shorter side of what is left, from one end of it to the other. */
  lemma AlongShorterSide(rect: Rect, areas: seq<real>, flush: bool, round: real -> real)
    requires areas != []
    ensures var cells, v := CellsIn(rect, areas, flush, round), ThicknessOf(rect, areas, flush, round);
            if rect.dx <= rect.dy then InLine(cells, rect.x, rect.x + rect.dx, rect.y, v)
            else InLine(FlipAll(cells), rect.y, rect.y + rect.dy, rect.x, v)
  {
    var v := ThicknessOf(rect, areas, flush, round);
    var ws := Widths(areas, v, round);
    if rect.dx <= rect.dy {
      RowCellsInLine(ws, rect.x, rect.x + rect.dx, rect.y, v);
    } else {
      RowCellsInLine(ws, rect.y, rect.y + rect.dy, rect.x, v);
      var cells := RowCells(ws, rect.y, rect.y + rect.dy, rect.x, v);
      assert FlipAll(FlipAll(cells)) == cells;
    }
  }

  function RestOf(rect: Rect, areas: seq<real>, flush: bool, round: real -> real): Rect {
    Remains(rect, Side(rect) == rect.dx, ThicknessOf(rect, areas, flush, round))
  }

  /** The children of all rows, in order. */
  function Joined(stages: seq<Stage>): seq<nat> {
    if stages == [] then [] else Joined(stages[..|stages| - 1]) + stages[|stages| - 1].row
  }

  /** What the rows leave of the rectangle. */
  function LeftBy(stages: seq<Stage>, areas: seq<real>, whole: Rect, round: real -> real): Rect
    requires stages != [] ==> Within(stages[|stages| - 1].row, |areas|)
  {
    if stages == [] then whole
    else var st := stages[|stages| - 1]; RestOf(st.rect, Pick(areas, st.row), false, round)
  }

  /** Row `i` begins with what the row before it left, and with the child that would have made that one worse. */
  ghost predicate Follows(stages: seq<Stage>, i: nat, areas: seq<real>, whole: Rect, ratio: real, round: real -> real)
    requires i < |stages|
  {
    var st := stages[i];
    && Scored(st, areas, ratio) && st.row != []
    && if i == 0 then st.rect == whole
       else
         var last := stages[i - 1];
         Ripe(last, areas, ratio, st.row[0]) && st.rect == RestOf(last.rect, Pick(areas, last.row), false, round)
  }

  /** Rows that were closed one after the other, each as soon as one more child would have made it worse. */
  ghost predicate Greedy(stages: seq<Stage>, areas: seq<real>, whole: Rect, ratio: real, round: real -> real)
  {
    forall i: nat :: i < |stages| ==> Follows(stages, i, areas, whole, ratio, round)
  }

  /** The rectangles are those of the rows; the last row is flush if `flush` says so. */
  ghost predicate LaidOut(cells: seq<Rect>, stages: seq<Stage>, areas: seq<real>, flush: bool, round: real -> real) {
    && |cells| == |areas|
    && (forall i :: 0 <= i < |stages| ==>
          && Within(stages[i].row, |areas|)
          && Pick(cells, stages[i].row) ==
             CellsIn(stages[i].rect, Pick(areas, stages[i].row), flush && i == |stages| - 1, round))
  }

  /** All children are in rows, from the last child to the first, and have the rectangles of their rows. */
  ghost predicate Squarified(cells: seq<Rect>, stages: seq<Stage>, areas: seq<real>, whole: Rect, ratio: real,
                             round: real -> real)
  {
    && stages != [] && Joined(stages) == Down(|areas|, 0)
    && Greedy(stages, areas, whole, ratio, round)
    && LaidOut(cells, stages, areas, true, round)
  }

  // ----- One step -----

  /** A child joins the row. */
  lemma {:induction false} ScoredStep(st: Stage, areas: seq<real>, ratio: real, child: nat, score: Float)
    requires Scored(st, areas, ratio) && child < |areas|
    requires ScoreIs(Pick(areas, st.row + [child]), Side(st.rect), ratio, score)
    requires st.row != [] ==> AtMost(score, st.scores[|st.row| - 1])
    ensures Scored(Stage(st.rect, st.row + [child], st.scores + [score]), areas, ratio)
  {
    var st' := Stage(st.rect, st.row + [child], st.scores + [score]);
    forall k: nat | k < |st.row| ensures ScoredAt(st', areas, ratio, k) {
      StaysScored(st, st', areas, ratio, k);
    }
    LastScored(st', areas, ratio, |st.row|);
    ScoredUpTo(st', areas, ratio, |st.row|);
  }

  lemma {:induction false} ScoredUpTo(st: Stage, areas: seq<real>, ratio: real, n: nat)
    requires Within(st.row, |areas|) && n + 1 == |st.scores| == |st.row|
    requires forall k: nat :: k < n ==> ScoredAt(st, areas, ratio, k)
    requires ScoredAt(st, areas, ratio, n)
    ensures Scored(st, areas, ratio)
  {
    forall k: nat | k < |st.row| ensures ScoredAt(st, areas, ratio, k) {
      assert k == n || k < n;
    }
  }

  lemma {:induction false} LastScored(st: Stage, areas: seq<real>, ratio: real, k: nat)
    requires Within(st.row, |areas|) && k + 1 == |st.scores| == |st.row|
    requires ScoreIs(Pick(areas, st.row), Side(st.rect), ratio, st.scores[k])
    requires k > 0 ==> AtMost(st.scores[k], st.scores[k - 1])
    ensures ScoredAt(st, areas, ratio, k)
  {
    assert st.row[..k + 1] == st.row;
  }

  lemma {:induction false} StaysScored(st: Stage, st': Stage, areas: seq<real>, ratio: real, k: nat)
    requires Scored(st, areas, ratio) && k < |st.row| && st'.rect == st.rect
    requires st.row <= st'.row && st.scores <= st'.scores && Within(st'.row, |areas|) && |st'.scores| == |st'.row|
    ensures ScoredAt(st', areas, ratio, k)
  {
    assert ScoredAt(st, areas, ratio, k);
    assert st'.row[..k + 1] == st.row[..k + 1];
  }

  /** A row is closed. */
  lemma {:induction false} GreedyStep(stages: seq<Stage>, st: Stage, areas: seq<real>, whole: Rect, ratio: real,
                                      round: real -> real)
    requires Greedy(stages, areas, whole, ratio, round)
    requires stages != [] ==> Within(stages[|stages| - 1].row, |areas|)
    requires Scored(st, areas, ratio) && st.row != [] && st.rect == LeftBy(stages, areas, whole, round)
    requires stages != [] ==> Ripe(stages[|stages| - 1], areas, ratio, st.row[0])
    ensures Greedy(stages + [st], areas, whole, ratio, round)
  {
    var more := stages + [st];
    forall i: nat | i < |more| ensures Follows(more, i, areas, whole, ratio, round) {
      if i < |stages| {
        assert Follows(stages, i, areas, whole, ratio, round);
        assert more[i] == stages[i] && (i > 0 ==> more[i - 1] == stages[i - 1]);
      }
    }
  }

  lemma {:induction false} JoinedHas(stages: seq<Stage>, i: nat, k: nat)
    requires i < |stages| && k < |stages[i].row|
    ensures stages[i].row[k] in Joined(stages)
    decreases |stages|
  {
    if i < |stages| - 1 {
      JoinedHas(stages[..|stages| - 1], i, k);
    }
  }

  lemma {:induction false} JoinedStep(stages: seq<Stage>, st: Stage)
    ensures Joined(stages + [st]) == Joined(stages) + st.row
  {
    assert (stages + [st])[..|stages|] == stages;
  }

  /** Placing a row leaves the rectangles of earlier rows alone. */
  lemma {:induction false} LaidOutStep(before: seq<Rect>, cells: seq<Rect>, stages: seq<Stage>, st: Stage,
                                       areas: seq<real>, flush: bool, round: real -> real)
    requires LaidOut(before, stages, areas, false, round) && |cells| == |areas| && Within(st.row, |areas|)
    requires forall c :: 0 <= c < |cells| && c !in st.row ==> cells[c] == before[c]
    requires forall k :: 0 <= k < |st.row| ==> st.row[k] !in Joined(stages)
    requires Pick(cells, st.row) == CellsIn(st.rect, Pick(areas, st.row), flush, round)
    ensures LaidOut(cells, stages + [st], areas, flush, round)
  {
    var more := stages + [st];
    forall i | 0 <= i < |stages|
      ensures Within(stages[i].row, |areas|) && Pick(cells, stages[i].row) == Pick(before, stages[i].row) {
      forall k | 0 <= k < |stages[i].row| ensures cells[stages[i].row[k]] == before[stages[i].row[k]] {
        JoinedHas(stages, i, k);
        assert stages[i].row[k] !in st.row;
      }
    }
    forall i | 0 <= i < |more|
      ensures Within(more[i].row, |areas|)
      ensures Pick(cells, more[i].row) ==
              CellsIn(more[i].rect, Pick(areas, more[i].row), flush && i == |more| - 1, round) {
      assert i < |stages| ==> more[i] == stages[i];
    }
  }

  lemma {:induction false} GreedyPrefix(stages: seq<Stage>, areas: seq<real>, whole: Rect, ratio: real,
                                        round: real -> real)
    requires stages != [] && Greedy(stages, areas, whole, ratio, round)
    ensures var before, st := stages[..|stages| - 1], stages[|stages| - 1];
            && Greedy(before, areas, whole, ratio, round)
            && Within(st.row, |areas|) && st.row != []
            && (before != [] ==> Within(before[|before| - 1].row, |areas|))
            && st.rect == LeftBy(before, areas, whole, round)
  {
    var n := |stages| - 1;
    var before := stages[..n];
    assert Follows(stages, n, areas, whole, ratio, round);
    forall i: nat | i < n ensures Follows(before, i, areas, whole, ratio, round) {
      assert Follows(stages, i, areas, whole, ratio, round);
      assert before[i] == stages[i] && (i > 0 ==> before[i - 1] == stages[i - 1]);
    }
    if n > 0 {
      assert before[n - 1] == stages[n - 1];
    }
  }

  lemma {:induction false} LaidOutPrefix(cells: seq<Rect>, stages: seq<Stage>, areas: seq<real>, flush: bool,
                                         round: real -> real)
    requires LaidOut(cells, stages, areas, flush, round) && stages != []
    ensures LaidOut(cells, stages[..|stages| - 1], areas, false, round)
  {
    var before := stages[..|stages| - 1];
    forall i | 0 <= i < |before|
      ensures Within(before[i].row, |areas|)
      ensures Pick(cells, before[i].row) == CellsIn(before[i].rect, Pick(areas, before[i].row), false, round) {
      assert before[i] == stages[i];
    }
  }

  lemma {:induction false} FindChild(stages: seq<Stage>, c: nat) returns (i: nat, k: nat)
    requires c in Joined(stages)
    ensures i < |stages| && k < |stages[i].row| && stages[i].row[k] == c
    decreases |stages|
  {
    var n := |stages| - 1;
    if c in stages[n].row {
      i := n;
      k :| 0 <= k < |stages[n].row| && stages[n].row[k] == c;
    } else {
      i, k := FindChild(stages[..n], c);
    }
  }
}
