/** Axis-parallel rectangles, and what it means that some of them tile another. */
module Tiling {

  datatype Rect = Rect(x: real, y: real, dx: real, dy: real)

  predicate Proper(r: Rect) {
    r.dx >= 0.0 && r.dy >= 0.0
  }

  /** The point is in the rectangle or on its border. */
  predicate Holds(r: Rect, px: real, py: real) {
    r.x <= px <= r.x + r.dx && r.y <= py <= r.y + r.dy
  }

  predicate Inner(r: Rect, px: real, py: real) {
    r.x < px < r.x + r.dx && r.y < py < r.y + r.dy
  }

  predicate Inside(a: Rect, r: Rect) {
    Proper(a) && r.x <= a.x && a.x + a.dx <= r.x + r.dx && r.y <= a.y && a.y + a.dy <= r.y + r.dy
  }

  /** No point is inside both. */
  ghost predicate Apart(a: Rect, b: Rect) {
    forall px, py :: !(Inner(a, px, py) && Inner(b, px, py))
  }

  ghost predicate Covers(bs: seq<Rect>, r: Rect) {
    forall px, py :: Holds(r, px, py) ==> exists i :: 0 <= i < |bs| && Holds(bs[i], px, py)
  }

  /** The rectangles lie in `r`, do not overlap, and leave no point of `r` out. */
  ghost predicate Tiles(bs: seq<Rect>, r: Rect) {
    && (forall i :: 0 <= i < |bs| ==> Inside(bs[i], r))
    && (forall i, j :: 0 <= i < j < |bs| ==> Apart(bs[i], bs[j]))
    && Covers(bs, r)
  }

  lemma {:induction false} One(r: Rect)
    requires Proper(r)
    ensures Tiles([r], r)
  {
    forall px, py | Holds(r, px, py) ensures exists i :: 0 <= i < |[r]| && Holds([r][i], px, py) {
      assert Holds([r][0], px, py);
    }
  }

  /** A cut across: the upper strip has height `v`. */
  lemma {:induction false} Cut(r: Rect, v: real)
    requires Proper(r) && 0.0 <= v <= r.dy
    ensures Tiles([Rect(r.x, r.y, r.dx, v), Rect(r.x, r.y + v, r.dx, r.dy - v)], r)
  {
    var bs := [Rect(r.x, r.y, r.dx, v), Rect(r.x, r.y + v, r.dx, r.dy - v)];
    forall px, py | Holds(r, px, py) ensures exists i :: 0 <= i < |bs| && Holds(bs[i], px, py) {
      assert Holds(bs[0], px, py) || Holds(bs[1], px, py);
    }
  }

  /** Any tile may be tiled in turn. */
  lemma {:induction false} RefineAt(done: seq<Rect>, m: Rect, bs: seq<Rect>, tail: seq<Rect>, r: Rect)
    requires Tiles(done + [m] + tail, r) && Tiles(bs, m)
    ensures Tiles(done + bs + tail, r)
  {
    var cs, ds := done + bs + tail, done + [m] + tail;
    forall i | 0 <= i < |cs| ensures Inside(cs[i], r) {
      OriginOf(done, m, bs, tail, r, i);
    }
    forall i, j | 0 <= i < j < |cs| ensures Apart(cs[i], cs[j]) {
      ApartAt(done, m, bs, tail, r, i, j);
    }
    RefineCovers(done, m, bs, tail, r);
  }

  /** The tile of the old tiling that a tile of the new one comes from. */
  ghost function Origin(done: seq<Rect>, bs: seq<Rect>, i: nat): nat {
    if i < |done| then i else if i < |done| + |bs| then |done| else i - |bs| + 1
  }

  lemma {:induction false} OriginOf(done: seq<Rect>, m: Rect, bs: seq<Rect>, tail: seq<Rect>, r: Rect, i: nat)
    requires Tiles(done + [m] + tail, r) && Tiles(bs, m) && i < |done + bs + tail|
    ensures var k := Origin(done, bs, i);
            && k < |done| + 1 + |tail|
            && Inside((done + bs + tail)[i], r)
            && forall px, py :: Inner((done + bs + tail)[i], px, py) ==> Inner((done + [m] + tail)[k], px, py)
  {
    var cs, ds := done + bs + tail, done + [m] + tail;
    var k := Origin(done, bs, i);
    assert Inside(ds[k], r);
    if |done| <= i < |done| + |bs| {
      assert cs[i] == bs[i - |done|] && ds[k] == m;
      assert Inside(bs[i - |done|], m);
    } else {
      assert cs[i] == ds[k];
    }
  }

  lemma {:induction false} ApartAt(done: seq<Rect>, m: Rect, bs: seq<Rect>, tail: seq<Rect>, r: Rect, i: nat, j: nat)
    requires Tiles(done + [m] + tail, r) && Tiles(bs, m) && i < j < |done + bs + tail|
    ensures Apart((done + bs + tail)[i], (done + bs + tail)[j])
  {
    var cs, ds := done + bs + tail, done + [m] + tail;
    OriginOf(done, m, bs, tail, r, i);
    OriginOf(done, m, bs, tail, r, j);
    var k, l := Origin(done, bs, i), Origin(done, bs, j);
    if k < l {
      assert Apart(ds[k], ds[l]);
    } else {
      assert cs[i] == bs[i - |done|] && cs[j] == bs[j - |done|];
      assert Apart(bs[i - |done|], bs[j - |done|]);
    }
  }

  lemma {:induction false} RefineCovers(done: seq<Rect>, m: Rect, bs: seq<Rect>, tail: seq<Rect>, r: Rect)
    requires Covers(done + [m] + tail, r) && Covers(bs, m)
    ensures Covers(done + bs + tail, r)
  {
    var cs, ds := done + bs + tail, done + [m] + tail;
    forall px, py | Holds(r, px, py) ensures exists i :: 0 <= i < |cs| && Holds(cs[i], px, py) {
      var i :| 0 <= i < |ds| && Holds(ds[i], px, py);
      if i < |done| {
        assert Holds(cs[i], px, py);
      } else if i == |done| {
        assert Holds(m, px, py);
        var j :| 0 <= j < |bs| && Holds(bs[j], px, py);
        assert Holds(cs[|done| + j], px, py);
      } else {
        assert Holds(cs[i - 1 + |bs|], px, py);
      }
    }
  }

  lemma {:induction false} Refine(done: seq<Rect>, m: Rect, bs: seq<Rect>, r: Rect)
    requires Tiles(done + [m], r) && Tiles(bs, m)
    ensures Tiles(done + bs, r)
  {
    assert done + [m] + [] == done + [m];
    RefineAt(done, m, bs, [], r);
    assert done + bs + [] == done + bs;
  }

  // ----- Mirroring along the diagonal -----

  function Flip(r: Rect): Rect {
    Rect(r.y, r.x, r.dy, r.dx)
  }

  function FlipAll(bs: seq<Rect>): (cs: seq<Rect>)
    ensures |cs| == |bs|
  {
    seq(|bs|, i requires 0 <= i < |bs| => Flip(bs[i]))
  }

  lemma {:induction false} FlipTiles(bs: seq<Rect>, r: Rect)
    requires Tiles(bs, r)
    ensures Tiles(FlipAll(bs), Flip(r))
  {
    var cs := FlipAll(bs);
    forall i | 0 <= i < |cs| ensures Inside(cs[i], Flip(r)) {
      assert Inside(bs[i], r);
    }
    forall i, j | 0 <= i < j < |cs| ensures Apart(cs[i], cs[j]) {
      assert Apart(bs[i], bs[j]);
      forall px, py ensures !(Inner(cs[i], px, py) && Inner(cs[j], px, py)) {
        assert Inner(cs[i], px, py) ==> Inner(bs[i], py, px);
        assert Inner(cs[j], px, py) ==> Inner(bs[j], py, px);
      }
    }
    forall px, py | Holds(Flip(r), px, py) ensures exists i :: 0 <= i < |cs| && Holds(cs[i], px, py) {
      assert Holds(r, py, px);
      var i :| 0 <= i < |bs| && Holds(bs[i], py, px);
      assert Holds(cs[i], px, py);
    }
  }

  // ----- Order -----

  function Reverse<T>(xs: seq<T>): (ys: seq<T>)
    ensures |ys| == |xs|
  {
    seq(|xs|, i requires 0 <= i < |xs| => xs[|xs| - 1 - i])
  }

  lemma {:induction false} ReverseTiles(bs: seq<Rect>, r: Rect)
    requires Tiles(bs, r)
    ensures Tiles(Reverse(bs), r)
  {
    var cs := Reverse(bs);
    var n := |bs|;
    forall i, j | 0 <= i < j < n ensures Apart(cs[i], cs[j]) {
      assert Apart(bs[n - 1 - j], bs[n - 1 - i]);
      forall px, py ensures !(Inner(cs[i], px, py) && Inner(cs[j], px, py)) {
      }
    }
    forall px, py | Holds(r, px, py) ensures exists i :: 0 <= i < n && Holds(cs[i], px, py) {
      var i :| 0 <= i < n && Holds(bs[i], px, py);
      assert Holds(cs[n - 1 - i], px, py);
    }
  }
}
