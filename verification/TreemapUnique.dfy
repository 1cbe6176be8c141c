/** The rows of a squarified layout are determined by the areas, the rectangle and the ratio. */
module TreemapUnique {
  import opened Tiling
  import opened Treemap
  import opened TreemapStages
  import opened Floats

  /** Where the children of row `i` are in the order of all children. */
  lemma {:induction false} JoinedAt(stages: seq<Stage>, i: nat, k: nat)
    requires i < |stages| && k < |stages[i].row|
    ensures |Joined(stages[..i])| + k < |Joined(stages)|
    ensures Joined(stages)[|Joined(stages[..i])| + k] == stages[i].row[k]
    decreases |stages|
  {
    var n := |stages| - 1;
    if i < n {
      JoinedAt(stages[..n], i, k);
      assert stages[..n][..i] == stages[..i];
    } else {
      assert stages[..i] == stages[..n];
    }
  }

  lemma {:induction false} JoinedNext(stages: seq<Stage>, i: nat)
    requires i < |stages|
    ensures Joined(stages[..i + 1]) == Joined(stages[..i]) + stages[i].row
  {
    assert stages[..i + 1] == stages[..i] + [stages[i]];
    JoinedStep(stages[..i], stages[i]);
  }

  /** Both layouts have the same children in row `i`, as far as both rows go. */
  lemma {:induction false} SameChild(ss: seq<Stage>, ts: seq<Stage>, i: nat, k: nat)
    requires Joined(ss) == Joined(ts) && i < |ss| && i < |ts| && ss[..i] == ts[..i]
    requires k < |ss[i].row| && k < |ts[i].row|
    ensures ss[i].row[k] == ts[i].row[k]
  {
    JoinedAt(ss, i, k);
    JoinedAt(ts, i, k);
  }

  lemma {:induction false} SameScore(a: Stage, b: Stage, areas: seq<real>, ratio: real, k: nat)
    requires Scored(a, areas, ratio) && Scored(b, areas, ratio) && a.rect == b.rect
    requires k < |a.row| && k < |b.row| && a.row[..k + 1] == b.row[..k + 1]
    ensures a.scores[k] == b.scores[k]
  {
    assert ScoredAt(a, areas, ratio, k) && ScoredAt(b, areas, ratio, k);
    ScoreUnique(Pick(areas, a.row[..k + 1]), Side(a.rect), ratio, a.scores[k], b.scores[k]);
  }

  /** A row that goes on is no worse for it, so the other one was not closed there. */
  lemma {:induction false} RipeStops(a: Stage, b: Stage, areas: seq<real>, ratio: real)
    requires Scored(a, areas, ratio) && Scored(b, areas, ratio) && a.rect == b.rect
    requires 0 < |a.row| < |b.row| && a.row == b.row[..|a.row|]
    ensures !Ripe(a, areas, ratio, b.row[|a.row|])
  {
    var n := |a.row|;
    assert a.row + [b.row[n]] == b.row[..n + 1];
    assert a.row[..n - 1 + 1] == b.row[..n - 1 + 1];
    SameScore(a, b, areas, ratio, n - 1);
    assert ScoredAt(b, areas, ratio, n);
    forall score | ScoreIs(Pick(areas, a.row + [b.row[n]]), Side(a.rect), ratio, score)
      ensures AtMost(score, a.scores[n - 1]) {
      ScoreUnique(Pick(areas, b.row[..n + 1]), Side(b.rect), ratio, score, b.scores[n]);
    }
  }

  /** The row of one layout is not shorter than that of the other. */
  lemma {:induction false} NotShorter(ss: seq<Stage>, ts: seq<Stage>, i: nat, areas: seq<real>, whole: Rect,
                                      ratio: real, round: real -> real)
    requires Greedy(ss, areas, whole, ratio, round) && Greedy(ts, areas, whole, ratio, round) &&
             Joined(ss) == Joined(ts)
    requires i < |ss| && i < |ts| && ss[..i] == ts[..i] && ss[i].rect == ts[i].rect
    ensures |ss[i].row| >= |ts[i].row|
  {
    var a, b := ss[i], ts[i];
    assert ss[..|ss|] == ss;
    assert Follows(ss, i, areas, whole, ratio, round) && Follows(ts, i, areas, whole, ratio, round);
    if |a.row| < |b.row| {
      var n := |a.row|;
      forall k | 0 <= k < n ensures a.row[k] == b.row[k] {
        SameChild(ss, ts, i, k);
      }
      assert a.row == b.row[..n];
      JoinedAt(ts, i, n);
      JoinedNext(ss, i);
      RipeStops(a, b, areas, ratio);
      if i + 1 < |ss| {
        assert Follows(ss, i + 1, areas, whole, ratio, round);
        JoinedAt(ss, i + 1, 0);
      }
    }
  }

  lemma {:induction false} SameStage(ss: seq<Stage>, ts: seq<Stage>, i: nat, areas: seq<real>, whole: Rect, ratio: real,
                                     round: real -> real)
    requires Greedy(ss, areas, whole, ratio, round) && Greedy(ts, areas, whole, ratio, round) &&
             Joined(ss) == Joined(ts)
    requires i < |ss| && i < |ts| && ss[..i] == ts[..i]
    ensures ss[i] == ts[i]
  {
    var a, b := ss[i], ts[i];
    assert Follows(ss, i, areas, whole, ratio, round) && Follows(ts, i, areas, whole, ratio, round);
    if i > 0 {
      assert ss[..i][i - 1] == ss[i - 1] && ts[..i][i - 1] == ts[i - 1];
    }
    NotShorter(ss, ts, i, areas, whole, ratio, round);
    NotShorter(ts, ss, i, areas, whole, ratio, round);
    forall k | 0 <= k < |a.row| ensures a.row[k] == b.row[k] {
      SameChild(ss, ts, i, k);
    }
    forall k | 0 <= k < |a.row| ensures a.scores[k] == b.scores[k] {
      assert a.row[..k + 1] == b.row[..k + 1];
      SameScore(a, b, areas, ratio, k);
    }
  }

  lemma {:induction false} SamePrefix(ss: seq<Stage>, ts: seq<Stage>, i: nat, areas: seq<real>, whole: Rect,
                                      ratio: real, round: real -> real)
    requires Greedy(ss, areas, whole, ratio, round) && Greedy(ts, areas, whole, ratio, round) &&
             Joined(ss) == Joined(ts)
    requires i <= |ss|
    ensures i <= |ts| && ss[..i] == ts[..i]
    decreases i
  {
    assert ts[..|ts|] == ts;
    if i > 0 {
      SamePrefix(ss, ts, i - 1, areas, whole, ratio, round);
      assert Follows(ss, i - 1, areas, whole, ratio, round);
      JoinedAt(ss, i - 1, 0);
      if i - 1 < |ts| {
        SameStage(ss, ts, i - 1, areas, whole, ratio, round);
        assert ss[..i] == ss[..i - 1] + [ss[i - 1]] && ts[..i] == ts[..i - 1] + [ts[i - 1]];
      }
    }
  }

  /** There is one squarified layout. */
  lemma {:induction false} SquarifiedUnique(cells: seq<Rect>, ss: seq<Stage>, cells': seq<Rect>, ts: seq<Stage>,
                                            areas: seq<real>, whole: Rect, ratio: real, round: real -> real)
    requires Squarified(cells, ss, areas, whole, ratio, round) && Squarified(cells', ts, areas, whole, ratio, round)
    ensures ss == ts && cells == cells'
  {
    SamePrefix(ss, ts, |ss|, areas, whole, ratio, round);
    SamePrefix(ts, ss, |ts|, areas, whole, ratio, round);
    assert ss[..|ss|] == ss && ts[..|ts|] == ts;
    forall c: nat | c < |areas| ensures cells[c] == cells'[c] {
      assert Down(|areas|, 0)[|areas| - 1 - c] == c;
      var i, k := FindChild(ss, c);
      assert cells[c] == Pick(cells, ss[i].row)[k];
      assert cells'[c] == Pick(cells', ss[i].row)[k];
    }
  }
}
