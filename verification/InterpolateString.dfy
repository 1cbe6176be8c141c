/**
String interpolation: the numbers of `b` are cut out of it, those that differ from the number in the same place of
`a` become slots, and the others are spliced back into the text around them.
*/
module InterpolateString {
  import Lists

  // ----- The number pattern -----

  predicate Digit(s: string, i: nat) {
    i < |s| && '0' <= s[i] <= '9'
  }

  function Digits(s: string, i: nat): (e: nat)
    ensures e >= i
    ensures i <= |s| ==> e <= |s|
    decreases |s| - i
  {
    if Digit(s, i) then Digits(s, i + 1) else i
  }

  function SkipSign(s: string, i: nat): (e: nat)
    requires i <= |s|
    ensures i <= e <= |s|
  {
    if i < |s| && (s[i] == '-' || s[i] == '+') then i + 1 else i
  }

  /** The end of the digits with an optional point, or `i` if there are none. */
  function Mantissa(s: string, i: nat): (e: nat)
    requires i <= |s|
    ensures i <= e <= |s|
  {
    var d := Digits(s, i);
    if d > i then
      if d < |s| && s[d] == '.' then Digits(s, d + 1) else d
    else if i < |s| && s[i] == '.' && Digits(s, i + 1) > i + 1 then
      Digits(s, i + 1)
    else
      i
  }

  function Exponent(s: string, i: nat): (e: nat)
    requires i <= |s|
    ensures i <= e <= |s|
  {
    if i < |s| && (s[i] == 'e' || s[i] == 'E') then
      var b := SkipSign(s, i + 1);
      if Digits(s, b) > b then Digits(s, b) else i
    else
      i
  }

  /** The end of the number that starts at `i`, or `i` if none does. */
  function NumberEnd(s: string, i: nat): (e: nat)
    requires i <= |s|
    ensures i <= e <= |s|
  {
    var a := SkipSign(s, i);
    var m := Mantissa(s, a);
    if m == a then i else Exponent(s, m)
  }

  datatype Match = NoMatch | Match(index: nat, end: nat)

  /** `exec` from position `i`: the leftmost number. */
  function Exec(s: string, i: nat): (m: Match)
    requires i <= |s|
    ensures m.Match? ==> i <= m.index < m.end <= |s|
    decreases |s| - i
  {
    if NumberEnd(s, i) > i then Match(i, NumberEnd(s, i))
    else if i == |s| then NoMatch
    else Exec(s, i + 1)
  }

  /** All numbers from position `i` on, as `exec` finds them one after the other. */
  function Numbers(s: string, i: nat): (ms: seq<Match>)
    requires i <= |s|
    ensures forall k :: 0 <= k < |ms| ==> ms[k].Match? && i <= ms[k].index < ms[k].end <= |s|
    decreases |s| - i
  {
    var m := Exec(s, i);
    if m.NoMatch? then [] else [m] + Numbers(s, m.end)
  }

  function Tokens(s: string, i: nat): seq<string>
    requires i <= |s|
  {
    var ms := Numbers(s, i);
    seq(|ms|, k requires 0 <= k < |ms| => s[ms[k].index..ms[k].end])
  }

  // ----- What the interpolator shall return -----

  /** `b` from position `i` on, with the numbers replaced by `vals`. */
  function Replaced(b: string, i: nat, vals: seq<string>): string
    requires i <= |b| && |vals| == |Numbers(b, i)|
    decreases |b| - i
  {
    var m := Exec(b, i);
    if m.NoMatch? then b[i..]
    else b[i..m.index] + vals[0] + Replaced(b, m.end, vals[1..])
  }

  /** The values of the numbers of `b`: a number that differs from its counterpart in `a` is blended with it. */
  function Blended(xs: seq<string>, ys: seq<string>, num: (string, string) -> string): (vals: seq<string>)
    ensures |vals| == |ys|
  {
    seq(|ys|, k requires 0 <= k < |ys| => if k < |xs| && xs[k] != ys[k] then num(xs[k], ys[k]) else ys[k])
  }

  function Expected(a: string, b: string, num: (string, string) -> string): string {
    Replaced(b, 0, Blended(Tokens(a, 0), Tokens(b, 0), num))
  }

  lemma {:induction false} TokensStep(s: string, i: nat)
    requires i <= |s| && Exec(s, i).Match?
    ensures Tokens(s, i) == [s[Exec(s, i).index..Exec(s, i).end]] + Tokens(s, Exec(s, i).end)
  {
  }

  lemma {:induction false} ReplacedStep(b: string, i: nat, v: string, vals: seq<string>)
    requires i <= |b| && Exec(b, i).Match? && |vals| == |Numbers(b, Exec(b, i).end)|
    ensures |[v] + vals| == |Numbers(b, i)|
    ensures Replaced(b, i, [v] + vals) == b[i..Exec(b, i).index] + v + Replaced(b, Exec(b, i).end, vals)
  {
    assert ([v] + vals)[1..] == vals;
  }

  lemma {:induction false} Joined<T>(xs: seq<T>, i: nat, j: nat, k: nat)
    requires i <= j <= k <= |xs|
    ensures xs[i..j] + xs[j..k] + xs[k..] == xs[i..]
  {
  }

  /** Filled with its own numbers, `b` is `b` again. */
  lemma {:induction false} OwnTokens(b: string, i: nat)
    requires i <= |b|
    ensures Replaced(b, i, Tokens(b, i)) == b[i..]
    decreases |b| - i
  {
    var m := Exec(b, i);
    if m.Match? {
      TokensStep(b, i);
      OwnTokens(b, m.end);
      ReplacedStep(b, i, b[m.index..m.end], Tokens(b, m.end));
      Joined(b, i, m.index, m.end);
    }
  }

  /** Where every blend gives the number of `b`, as at the end of an interpolation, the result is `b`. */
  lemma {:induction false} EndsAtB(a: string, b: string, num: (string, string) -> string)
    requires forall x, y :: num(x, y) == y
    ensures Expected(a, b, num) == b
  {
    assert Blended(Tokens(a, 0), Tokens(b, 0), num) == Tokens(b, 0);
    OwnTokens(b, 0);
  }

  // ----- Templates -----

  datatype Piece = Hole | Text(text: string)

  /** A slot still to be compared holds its number; a slot that stays holds the two numbers to blend. */
  datatype Filler = Token(token: string) | Blend(from: string, to: string)

  datatype Slot = Slot(i: nat, x: Filler)

  function HoleCount(s: seq<Piece>): nat {
    if s == [] then 0 else (if s[0].Hole? then 1 else 0) + HoleCount(s[1..])
  }

  /** The text of a template whose holes, in order, are filled with `vals`. */
  function Render(s: seq<Piece>, vals: seq<string>): string
    requires |vals| == HoleCount(s)
  {
    if s == [] then ""
    else match s[0]
      case Hole => vals[0] + Render(s[1..], vals[1..])
      case Text(t) => t + Render(s[1..], vals)
  }

  /** Where the holes are, counting from `base`. */
  function HolesAt(s: seq<Piece>, base: int): (at: seq<int>)
    ensures |at| == HoleCount(s)
  {
    if s == [] then []
    else (if s[0].Hole? then [base] else []) + HolesAt(s[1..], base + 1)
  }

  function Indices(q: seq<Slot>): seq<int> {
    seq(|q|, k requires 0 <= k < |q| => q[k].i)
  }

  predicate NoNeighbours(s: seq<Piece>) {
    forall k :: 0 <= k < |s| - 1 ==> s[k].Text? || s[k + 1].Text?
  }

  /** Every slot points at its own hole, in order. */
  predicate Fits(s: seq<Piece>, q: seq<Slot>) {
    HolesAt(s, 0) == Indices(q) && NoNeighbours(s)
  }

  lemma {:induction false} ConcatCount(p: seq<Piece>, r: seq<Piece>)
    ensures HoleCount(p + r) == HoleCount(p) + HoleCount(r)
  {
    if p == [] {
      assert p + r == r;
    } else {
      assert (p + r)[1..] == p[1..] + r;
      ConcatCount(p[1..], r);
    }
  }

  lemma {:induction false} ConcatHoles(p: seq<Piece>, r: seq<Piece>, base: int)
    ensures HolesAt(p + r, base) == HolesAt(p, base) + HolesAt(r, base + |p|)
  {
    if p == [] {
      assert p + r == r;
    } else {
      assert (p + r)[1..] == p[1..] + r;
      ConcatHoles(p[1..], r, base + 1);
    }
  }

  lemma {:induction false} ConcatRender(p: seq<Piece>, r: seq<Piece>, vp: seq<string>, vr: seq<string>)
    requires |vp| == HoleCount(p) && |vr| == HoleCount(r)
    ensures HoleCount(p + r) == |vp + vr|
    ensures Render(p + r, vp + vr) == Render(p, vp) + Render(r, vr)
  {
    ConcatCount(p, r);
    if p == [] {
      assert p + r == r && vp + vr == vr;
    } else {
      assert (p + r)[1..] == p[1..] + r;
      if p[0].Hole? {
        assert (vp + vr)[1..] == vp[1..] + vr;
        ConcatRender(p[1..], r, vp[1..], vr);
      } else {
        ConcatRender(p[1..], r, vp, vr);
      }
    }
  }

  /** Positions move with the base. */
  lemma {:induction false} HolesShift(s: seq<Piece>, base: int, shift: int)
    ensures forall k :: 0 <= k < HoleCount(s) ==> HolesAt(s, base + shift)[k] == HolesAt(s, base)[k] + shift
  {
    if s != [] {
      HolesShift(s[1..], base + 1, shift);
    }
  }

  lemma {:induction false} HolesRange(s: seq<Piece>, base: int, k: nat)
    requires k < HoleCount(s)
    ensures var i := HolesAt(s, base)[k] - base; 0 <= i < |s| && s[i].Hole? && HoleCount(s[..i]) == k
  {
    var i := HolesAt(s, base)[k] - base;
    if s[0].Hole? && k == 0 {
      assert s[..0] == [];
    } else {
      var k1 := if s[0].Hole? then k - 1 else k;
      HolesRange(s[1..], base + 1, k1);
      assert s[..i] == [s[0]] + s[1..][..i - 1];
    }
  }

  // ----- Splicing -----

  predicate CanMove(q: seq<Slot>, shift: int) {
    forall k :: 0 <= k < |q| ==> q[k].i + shift >= 0
  }

  /** The loop that corrects the indices of all later slots. */
  function Moved(q: seq<Slot>, shift: int): (r: seq<Slot>)
    requires CanMove(q, shift)
    ensures |r| == |q|
  {
    seq(|q|, k requires 0 <= k < |q| => q[k].(i := q[k].i + shift))
  }

  lemma {:induction false} SplitUnique<T>(a: seq<T>, b: seq<T>, c: seq<T>, d: seq<T>)
    requires a + b == c + d && |a| == |c|
    ensures a == c && b == d
  {
    assert a == (a + b)[..|a|];
    assert c == (c + d)[..|c|];
    assert b == (a + b)[|a|..];
    assert d == (c + d)[|c|..];
  }

  /** Around a stretch with one hole, the holes before and after it belong to the slots before and after its own. */
  lemma {:induction false} Around(p: seq<Piece>, mid: seq<Piece>, r: seq<Piece>, qp: seq<Slot>, o: Slot, qr: seq<Slot>)
    requires HolesAt(p + (mid + r), 0) == Indices(qp + ([o] + qr))
    requires HoleCount(p) == |qp| && HoleCount(mid) == 1
    ensures HolesAt(p, 0) == Indices(qp)
    ensures HolesAt(r, |p| + |mid|) == Indices(qr)
  {
    ConcatHoles(p, mid + r, 0);
    ConcatHoles(mid, r, |p|);
    ConcatIndices(qp, [o] + qr);
    ConcatIndices([o], qr);
    SplitUnique(HolesAt(p, 0), HolesAt(mid + r, |p|), Indices(qp), Indices([o] + qr));
    SplitUnique(HolesAt(mid, |p|), HolesAt(r, |p| + |mid|), Indices([o]), Indices(qr));
  }

  lemma {:induction false} MovedIndices(r: seq<Piece>, q: seq<Slot>, base: nat, shift: int)
    requires HolesAt(r, base) == Indices(q) && base + shift >= 0
    ensures CanMove(q, shift) && HolesAt(r, base + shift) == Indices(Moved(q, shift))
  {
    HolesShift(r, base, shift);
    forall k | 0 <= k < |q| ensures q[k].i + shift >= 0 {
      assert Indices(q)[k] == q[k].i;
      HolesRange(r, base, k);
    }
    forall k | 0 <= k < |q| ensures HolesAt(r, base + shift)[k] == Indices(Moved(q, shift))[k] {
      assert Indices(q)[k] == q[k].i;
    }
  }

  /** Replacing a stretch with one hole by a text: its slot goes, later slots move, and the others stay in place. */
  lemma {:induction false} SpliceFits(p: seq<Piece>, mid: seq<Piece>, r: seq<Piece>, qp: seq<Slot>, o: Slot,
                                      qr: seq<Slot>, t: string)
    requires Fits(p + (mid + r), qp + ([o] + qr))
    requires HoleCount(p) == |qp| && HoleCount(mid) == 1
    ensures CanMove(qr, 1 - |mid|) && Fits(p + ([Text(t)] + r), qp + Moved(qr, 1 - |mid|))
  {
    Around(p, mid, r, qp, o, qr);
    MovedIndices(r, qr, |p| + |mid|, 1 - |mid|);
    TextHoles(p, r, t);
    ConcatIndices(qp, Moved(qr, 1 - |mid|));
    SpliceNeighbours(p, mid, r, t);
  }

  lemma {:induction false} TextHoles(p: seq<Piece>, r: seq<Piece>, t: string)
    ensures HolesAt(p + ([Text(t)] + r), 0) == HolesAt(p, 0) + HolesAt(r, |p| + 1)
  {
    ConcatHoles(p, [Text(t)] + r, 0);
    ConcatHoles([Text(t)], r, |p|);
    assert HolesAt([Text(t)], |p|) == [];
  }

  lemma {:induction false} ConcatIndices(a: seq<Slot>, b: seq<Slot>)
    ensures Indices(a + b) == Indices(a) + Indices(b)
  {
  }

  lemma {:induction false} SpliceNeighbours(p: seq<Piece>, mid: seq<Piece>, r: seq<Piece>, t: string)
    requires NoNeighbours(p + (mid + r))
    ensures NoNeighbours(p + ([Text(t)] + r))
  {
    var s := p + (mid + r);
    var s' := p + ([Text(t)] + r);
    forall k | 0 <= k < |s'| - 1 ensures s'[k].Text? || s'[k + 1].Text? {
      if k < |p| - 1 {
        assert s[k] == s'[k] && s[k + 1] == s'[k + 1];
      } else if k > |p| {
        var i := k - 1 + |mid|;
        assert s[i] == s'[k] && s[i + 1] == s'[k + 1];
      }
    }
  }

  lemma {:induction false} SpliceRender(p: seq<Piece>, mid: seq<Piece>, r: seq<Piece>,
                                        vp: seq<string>, v: string, vr: seq<string>, t: string)
    requires HoleCount(p) == |vp| && HoleCount(mid) == 1 && HoleCount(r) == |vr|
    requires Render(mid, [v]) == t
    ensures HoleCount(p + (mid + r)) == |vp + ([v] + vr)| && HoleCount(p + ([Text(t)] + r)) == |vp + vr|
    ensures Render(p + ([Text(t)] + r), vp + vr) == Render(p + (mid + r), vp + ([v] + vr))
  {
    ConcatRender(mid, r, [v], vr);
    ConcatRender(p, mid + r, vp, [v] + vr);
    assert Render([Text(t)], []) == t;
    ConcatRender([Text(t)], r, [], vr);
    assert [] + vr == vr;
    ConcatRender(p, [Text(t)] + r, vp, vr);
  }

  /** `s'` and `q'` are `s` and `q` without slot `j`, whose value became part of the text. */
  ghost predicate Without(s: seq<Piece>, q: seq<Slot>, j: nat, vals: seq<string>, s': seq<Piece>, q': seq<Slot>)
    requires j < |q| == |vals| == HoleCount(s)
  {
    && Fits(s', q') && |q'| == |q| - 1 == HoleCount(s')
    && Render(s', vals[..j] + vals[j + 1..]) == Render(s, vals)
    && (forall k :: 0 <= k < j ==> q'[k] == q[k])
    && (forall k :: j <= k < |q'| ==> q'[k].x == q[k + 1].x)
  }

  lemma {:induction false} SplitAt<T>(xs: seq<T>, j: nat)
    requires j < |xs|
    ensures xs == xs[..j] + ([xs[j]] + xs[j + 1..])
  {
  }

  lemma {:induction false} SplitTwice<T>(xs: seq<T>, lo: nat, hi: nat)
    requires lo <= hi <= |xs|
    ensures xs == xs[..lo] + (xs[lo..hi] + xs[hi..])
  {
  }

  /** The same by positions: the hole of slot `j`, with or without the texts next to it, becomes one text. */
  lemma {:induction false} Replace(s: seq<Piece>, q: seq<Slot>, j: nat, lo: nat, hi: nat, t: string, vals: seq<string>)
    requires Fits(s, q) && j < |q| == |vals| == HoleCount(s)
    requires lo <= q[j].i < hi <= |s|
    requires HoleCount(s[..lo]) == j && HoleCount(s[lo..hi]) == 1 && Render(s[lo..hi], [vals[j]]) == t
    ensures CanMove(q[j + 1..], 1 - (hi - lo))
    ensures Without(s, q, j, vals, s[..lo] + ([Text(t)] + s[hi..]), q[..j] + Moved(q[j + 1..], 1 - (hi - lo)))
  {
    ReplaceFits(s, q, j, lo, hi, t);
    ReplaceRenders(s, j, lo, hi, t, vals);
  }

  lemma {:induction false} ReplaceFits(s: seq<Piece>, q: seq<Slot>, j: nat, lo: nat, hi: nat, t: string)
    requires Fits(s, q) && j < |q| && lo <= hi <= |s|
    requires HoleCount(s[..lo]) == j && HoleCount(s[lo..hi]) == 1
    ensures CanMove(q[j + 1..], 1 - (hi - lo))
    ensures Fits(s[..lo] + ([Text(t)] + s[hi..]), q[..j] + Moved(q[j + 1..], 1 - (hi - lo)))
  {
    SplitTwice(s, lo, hi);
    SplitAt(q, j);
    SpliceFits(s[..lo], s[lo..hi], s[hi..], q[..j], q[j], q[j + 1..], t);
  }

  lemma {:induction false} ReplaceRenders(s: seq<Piece>, j: nat, lo: nat, hi: nat, t: string, vals: seq<string>)
    requires j < |vals| == HoleCount(s) && lo <= hi <= |s|
    requires HoleCount(s[..lo]) == j && HoleCount(s[lo..hi]) == 1 && Render(s[lo..hi], [vals[j]]) == t
    ensures var s' := s[..lo] + ([Text(t)] + s[hi..]);
            HoleCount(s') == |vals| - 1 && Render(s', vals[..j] + vals[j + 1..]) == Render(s, vals)
  {
    SplitTwice(s, lo, hi);
    SplitAt(vals, j);
    ConcatCount(s[..lo], s[lo..hi] + s[hi..]);
    ConcatCount(s[lo..hi], s[hi..]);
    SpliceRender(s[..lo], s[lo..hi], s[hi..], vals[..j], vals[j], vals[j + 1..], t);
  }

  /** The same whatever the values of the other slots are. */
  ghost predicate Spliced(s: seq<Piece>, q: seq<Slot>, j: nat, token: string, s': seq<Piece>, q': seq<Slot>)
    requires j < |q| == HoleCount(s)
  {
    forall vals: seq<string> :: |vals| == |q| && vals[j] == token ==> Without(s, q, j, vals, s', q')
  }

  lemma {:induction false} SplicedFits(s: seq<Piece>, q: seq<Slot>, j: nat, token: string, s': seq<Piece>,
                                       q': seq<Slot>)
    requires j < |q| == HoleCount(s) && Spliced(s, q, j, token, s', q')
    ensures Fits(s', q') && |q'| == |q| - 1 == HoleCount(s')
    ensures forall k :: 0 <= k < j ==> q'[k] == q[k]
    ensures forall k :: j <= k < |q'| ==> q'[k].x == q[k + 1].x
  {
    var vals := seq(|q|, _ => token);
    assert Without(s, q, j, vals, s', q');
  }

  lemma {:induction false} ReplaceAll(s: seq<Piece>, q: seq<Slot>, j: nat, lo: nat, hi: nat, t: string, token: string)
    requires Fits(s, q) && j < |q| == HoleCount(s) && lo <= q[j].i < hi <= |s|
    requires HoleCount(s[..lo]) == j && HoleCount(s[lo..hi]) == 1 && Render(s[lo..hi], [token]) == t
    ensures CanMove(q[j + 1..], 1 - (hi - lo))
    ensures Spliced(s, q, j, token, s[..lo] + ([Text(t)] + s[hi..]), q[..j] + Moved(q[j + 1..], 1 - (hi - lo)))
  {
    Replace(s, q, j, lo, hi, t, seq(|q|, _ => token));
    forall vals: seq<string> | |vals| == |q| && vals[j] == token
      ensures Without(s, q, j, vals, s[..lo] + ([Text(t)] + s[hi..]), q[..j] + Moved(q[j + 1..], 1 - (hi - lo))) {
      Replace(s, q, j, lo, hi, t, vals);
    }
  }

  /** Where slot `j` points, and what is next to it. */
  lemma {:induction false} SlotPlace(s: seq<Piece>, q: seq<Slot>, j: nat)
    requires Fits(s, q) && j < |q|
    ensures HoleCount(s) == |q|
    ensures q[j].i < |s| && s[q[j].i].Hole? && HoleCount(s[..q[j].i]) == j
    ensures q[j].i > 0 ==> s[q[j].i - 1].Text? && HoleCount(s[..q[j].i - 1]) == j
    ensures q[j].i + 1 < |s| ==> s[q[j].i + 1].Text?
  {
    assert |HolesAt(s, 0)| == |Indices(q)|;
    assert Indices(q)[j] == q[j].i;
    HolesRange(s, 0, j);
    var i := q[j].i;
    if i > 0 {
      assert s[..i] == s[..i - 1] + [s[i - 1]];
      ConcatCount(s[..i - 1], [s[i - 1]]);
    }
  }

  lemma {:induction false} ShortRenders(x: string, u: string, w: string)
    ensures HoleCount([Hole]) == 1 && Render([Hole], [x]) == x
    ensures HoleCount([Hole, Text(w)]) == 1 && Render([Hole, Text(w)], [x]) == x + w
    ensures HoleCount([Text(u), Hole]) == 1 && Render([Text(u), Hole], [x]) == u + x
    ensures HoleCount([Text(u), Hole, Text(w)]) == 1 && Render([Text(u), Hole, Text(w)], [x]) == u + (x + w)
  {
    assert [Hole, Text(w)][1..] == [Text(w)];
    assert [Text(u), Hole][1..] == [Hole];
    assert [Text(u), Hole, Text(w)][1..] == [Hole, Text(w)];
    assert [Hole][1..] == [] && [Text(w)][1..] == [];
    assert Render([Text(w)], []) == w;
  }

  /** The number of slot `i` did not change: splice it into the text around it. */
  method MergeSlot(s: seq<Piece>, q: seq<Slot>, i: nat) returns (s': seq<Piece>, q': seq<Slot>)
    requires Fits(s, q) && i < |q| == HoleCount(s) && q[i].x.Token?
    ensures Spliced(s, q, i, q[i].x.token, s', q')
  {
    SlotPlace(s, q, i);
    var o := q[i];
    var x := o.x.token;
    if o.i == 0 {
      s', q' := FillSlot(s, q, i);
    } else if o.i + 1 == |s| {
      var t := s[o.i - 1].text + x;
      MergeLast(s, q, i, x);
      s' := s[o.i - 1 := Text(t)];
      s' := s'[..o.i] + s'[o.i + 1..];
      assert s' == s[..o.i - 1] + ([Text(t)] + s[o.i + 1..]);
      q' := q[..i] + Moved(q[i + 1..], -1);
    } else {
      var t := s[o.i - 1].text + (x + s[o.i + 1].text);
      MergeMiddle(s, q, i, x);
      s' := s[o.i - 1 := Text(t)];
      s' := s'[..o.i] + s'[o.i + 2..];
      assert s' == s[..o.i - 1] + ([Text(t)] + s[o.i + 2..]);
      q' := q[..i] + Moved(q[i + 1..], -2);
    }
  }

  lemma {:induction false} MergeLast(s: seq<Piece>, q: seq<Slot>, j: nat, x: string)
    requires Fits(s, q) && j < |q| == HoleCount(s)
    requires 0 < q[j].i && q[j].i + 1 == |s| && s[q[j].i - 1].Text?
    ensures CanMove(q[j + 1..], -1)
    ensures var i := q[j].i;
            Spliced(s, q, j, x, s[..i - 1] + ([Text(s[i - 1].text + x)] + s[i + 1..]), q[..j] + Moved(q[j + 1..], -1))
  {
    SlotPlace(s, q, j);
    var i := q[j].i;
    ShortRenders(x, s[i - 1].text, "");
    assert s[i - 1..i + 1] == [Text(s[i - 1].text), Hole];
    ReplaceAll(s, q, j, i - 1, i + 1, s[i - 1].text + x, x);
  }

  lemma {:induction false} MergeMiddle(s: seq<Piece>, q: seq<Slot>, j: nat, x: string)
    requires Fits(s, q) && j < |q| == HoleCount(s)
    requires 0 < q[j].i && q[j].i + 1 < |s| && s[q[j].i - 1].Text? && s[q[j].i + 1].Text?
    ensures CanMove(q[j + 1..], -2)
    ensures var i := q[j].i;
            var t := s[i - 1].text + (x + s[i + 1].text);
            Spliced(s, q, j, x, s[..i - 1] + ([Text(t)] + s[i + 2..]), q[..j] + Moved(q[j + 1..], -2))
  {
    SlotPlace(s, q, j);
    var i := q[j].i;
    ShortRenders(x, s[i - 1].text, s[i + 1].text);
    assert s[i - 1..i + 2] == [Text(s[i - 1].text), Hole, Text(s[i + 1].text)];
    ReplaceAll(s, q, j, i - 1, i + 2, s[i - 1].text + (x + s[i + 1].text), x);
  }

  /** A slot takes its own number, together with the text after it. */
  method FillSlot(s: seq<Piece>, q: seq<Slot>, i: nat) returns (s': seq<Piece>, q': seq<Slot>)
    requires Fits(s, q) && i < |q| == HoleCount(s) && q[i].x.Token?
    ensures Spliced(s, q, i, q[i].x.token, s', q')
  {
    SlotPlace(s, q, i);
    var o := q[i];
    var x := o.x.token;
    if o.i + 1 == |s| {
      FillLast(s, q, i, x);
      s' := s[o.i := Text(x)];
      assert s' == s[..o.i] + ([Text(x)] + s[o.i + 1..]);
      q' := q[..i] + Moved(q[i + 1..], 0);
    } else {
      var t := x + s[o.i + 1].text;
      FillNext(s, q, i, x);
      s' := s[o.i := Text(t)];
      s' := s'[..o.i + 1] + s'[o.i + 2..];
      assert s' == s[..o.i] + ([Text(t)] + s[o.i + 2..]);
      q' := q[..i] + Moved(q[i + 1..], -1);
    }
  }

  lemma {:induction false} FillLast(s: seq<Piece>, q: seq<Slot>, j: nat, x: string)
    requires Fits(s, q) && j < |q| == HoleCount(s) && q[j].i + 1 == |s|
    ensures CanMove(q[j + 1..], 0)
    ensures var i := q[j].i;
            Spliced(s, q, j, x, s[..i] + ([Text(x)] + s[i + 1..]), q[..j] + Moved(q[j + 1..], 0))
  {
    SlotPlace(s, q, j);
    var i := q[j].i;
    ShortRenders(x, "", "");
    assert s[i..i + 1] == [Hole];
    ReplaceAll(s, q, j, i, i + 1, x, x);
  }

  lemma {:induction false} FillNext(s: seq<Piece>, q: seq<Slot>, j: nat, x: string)
    requires Fits(s, q) && j < |q| == HoleCount(s) && q[j].i + 1 < |s| && s[q[j].i + 1].Text?
    ensures CanMove(q[j + 1..], -1)
    ensures var i := q[j].i;
            Spliced(s, q, j, x, s[..i] + ([Text(x + s[i + 1].text)] + s[i + 2..]), q[..j] + Moved(q[j + 1..], -1))
  {
    SlotPlace(s, q, j);
    var i := q[j].i;
    ShortRenders(x, "", s[i + 1].text);
    assert s[i..i + 2] == [Hole, Text(s[i + 1].text)];
    ReplaceAll(s, q, j, i, i + 2, x + s[i + 1].text, x);
  }

  // ----- The three loops -----

  lemma {:induction false} PushText(s: seq<Piece>, q: seq<Slot>, vals: seq<string>, u: string)
    requires Fits(s, q) && |vals| == |q| == HoleCount(s)
    ensures Fits(s + [Text(u)], q) && HoleCount(s + [Text(u)]) == |q|
    ensures Render(s + [Text(u)], vals) == Render(s, vals) + u
  {
    ConcatHoles(s, [Text(u)], 0);
    assert HolesAt([Text(u)], |s|) == [];
    assert Render([Text(u)], []) == u;
    ConcatRender(s, [Text(u)], vals, []);
    assert vals + [] == vals;
  }

  lemma {:induction false} OneHole(v: string, base: int)
    ensures HoleCount([Hole]) == 1 && HolesAt([Hole], base) == [base] && Render([Hole], [v]) == v
  {
    assert [Hole][1..] == [] && [v][1..] == [];
  }

  lemma {:induction false} PushHole(s: seq<Piece>, q: seq<Slot>, vals: seq<string>, x: Filler, v: string)
    requires Fits(s, q) && |vals| == |q| == HoleCount(s)
    requires s == [] || s[|s| - 1].Text?
    ensures Fits(s + [Hole], q + [Slot(|s|, x)]) && HoleCount(s + [Hole]) == |q| + 1
    ensures Render(s + [Hole], vals + [v]) == Render(s, vals) + v
  {
    OneHole(v, |s|);
    PushHoleFits(s, q, x);
    ConcatRender(s, [Hole], vals, [v]);
  }

  lemma {:induction false} PushHoleFits(s: seq<Piece>, q: seq<Slot>, x: Filler)
    requires Fits(s, q) && (s == [] || s[|s| - 1].Text?)
    ensures Fits(s + [Hole], q + [Slot(|s|, x)])
  {
    OneHole("", |s|);
    ConcatHoles(s, [Hole], 0);
    ConcatIndices(q, [Slot(|s|, x)]);
    assert Indices([Slot(|s|, x)]) == [|s|];
  }

  /** The first numbers of `b` have their slots, and `s0` is where the last of them ends. */
  ghost predicate NumbersCut(b: string, s0: nat, q: seq<Slot>) {
    && s0 <= |b| && |q| <= |Tokens(b, 0)|
    && Tokens(b, s0) == Tokens(b, 0)[|q|..]
    && (forall k :: 0 <= k < |q| ==> q[k].x == Token(Tokens(b, 0)[k]))
  }

  /** The text up to `s0` is in the template: with the first values in its holes it goes before the rest. */
  ghost predicate TextAt(b: string, vals: seq<string>, s0: nat, s: seq<Piece>, n: nat)
    requires s0 <= |b| && n == HoleCount(s) <= |vals| == |Numbers(b, 0)| && |vals| - n == |Numbers(b, s0)|
  {
    Render(s, vals[..n]) + Replaced(b, s0, vals[n..]) == Replaced(b, 0, vals)
  }

  ghost predicate TextCut(b: string, s0: nat, s: seq<Piece>, q: seq<Slot>) {
    && s0 <= |b|
    && Fits(s, q) && |q| == HoleCount(s) && |q| + |Numbers(b, s0)| == |Numbers(b, 0)|
    && (forall vals: seq<string> :: |vals| == |Numbers(b, 0)| ==> TextAt(b, vals, s0, s, |q|))
  }

  method CutOne(b: string, s0: nat, s: seq<Piece>, q: seq<Slot>, m: Match) returns (s': seq<Piece>, q': seq<Slot>)
    requires NumbersCut(b, s0, q) && TextCut(b, s0, s, q) && m == Exec(b, s0) && m.Match?
    requires s == [] || (s0 > 0 && s[|s| - 1].Hole?)
    ensures NumbersCut(b, m.end, q') && TextCut(b, m.end, s', q')
    ensures s' != [] && s'[|s'| - 1].Hole?
  {
    s' := s;
    if m.index > 0 {
      PushTextAll(s, q, b[s0..m.index]);
      s' := s + [Text(b[s0..m.index])];
    }
    NumberNext(b, s0, q, |s'|);
    HoleNextAll(b, s0, s, q, s', Token(b[m.index..m.end]));
    q' := q + [Slot(|s'|, Token(b[m.index..m.end]))];
    s' := s' + [Hole];
  }

  /** `s1` is `s` with a text behind it, whatever fills the holes. */
  ghost predicate Longer(s: seq<Piece>, s1: seq<Piece>, u: string) {
    && HoleCount(s1) == HoleCount(s)
    && (forall vals: seq<string> :: |vals| == HoleCount(s) ==> Render(s1, vals) == Render(s, vals) + u)
  }

  lemma {:induction false} PushTextAll(s: seq<Piece>, q: seq<Slot>, u: string)
    requires Fits(s, q) && |q| == HoleCount(s)
    ensures Fits(s + [Text(u)], q) && Longer(s, s + [Text(u)], u)
  {
    PushText(s, q, seq(|q|, _ => ""), u);
    forall vals: seq<string> | |vals| == HoleCount(s) ensures Render(s + [Text(u)], vals) == Render(s, vals) + u {
      PushText(s, q, vals, u);
    }
  }

  /** The next number has its slot. */
  lemma {:induction false} NumberNext(b: string, s0: nat, q: seq<Slot>, i: nat)
    requires NumbersCut(b, s0, q) && Exec(b, s0).Match?
    ensures NumbersCut(b, Exec(b, s0).end, q + [Slot(i, Token(b[Exec(b, s0).index..Exec(b, s0).end]))])
  {
    TokensNext(b, s0, |q|);
  }

  /** The text before the next number is in `s1`; the number itself becomes a hole. */
  lemma {:induction false} HoleNextAll(b: string, s0: nat, s: seq<Piece>, q: seq<Slot>, s1: seq<Piece>, x: Filler)
    requires TextCut(b, s0, s, q) && Exec(b, s0).Match?
    requires Fits(s1, q) && Longer(s, s1, b[s0..Exec(b, s0).index]) && (s1 == [] || s1[|s1| - 1].Text?)
    ensures TextCut(b, Exec(b, s0).end, s1 + [Hole], q + [Slot(|s1|, x)])
  {
    PushHole(s1, q, seq(|q|, _ => ""), x, "");
    forall vals: seq<string> | |vals| == |Numbers(b, 0)|
      ensures TextAt(b, vals, Exec(b, s0).end, s1 + [Hole], |q| + 1) {
      assert TextAt(b, vals, s0, s, |q|);
      HoleNext(b, vals, s0, s, q, s1, x);
    }
  }

  lemma {:induction false} HoleNext(b: string, vals: seq<string>, s0: nat, s: seq<Piece>, q: seq<Slot>,
                                    s1: seq<Piece>, x: Filler)
    requires s0 <= |b| && Exec(b, s0).Match? && |q| + |Numbers(b, s0)| == |vals| == |Numbers(b, 0)|
    requires |q| == HoleCount(s) == HoleCount(s1) && TextAt(b, vals, s0, s, |q|)
    requires Fits(s1, q) && (s1 == [] || s1[|s1| - 1].Text?)
    requires Render(s1, vals[..|q|]) == Render(s, vals[..|q|]) + b[s0..Exec(b, s0).index]
    ensures HoleCount(s1 + [Hole]) == |q| + 1 && |vals| - (|q| + 1) == |Numbers(b, Exec(b, s0).end)|
    ensures TextAt(b, vals, Exec(b, s0).end, s1 + [Hole], |q| + 1)
  {
    var n := |q|;
    PushHole(s1, q, vals[..n], x, vals[n]);
    RenderNext(b, vals, s0, n, Render(s, vals[..n]));
    Lists.TakeNext(vals, n);
  }

  lemma {:induction false} TokensNext(b: string, s0: nat, n: nat)
    requires s0 <= |b| && n <= |Tokens(b, 0)| && Tokens(b, s0) == Tokens(b, 0)[n..] && Exec(b, s0).Match?
    ensures n < |Tokens(b, 0)| && Tokens(b, 0)[n] == b[Exec(b, s0).index..Exec(b, s0).end]
    ensures Tokens(b, Exec(b, s0).end) == Tokens(b, 0)[n + 1..]
  {
    TokensStep(b, s0);
    assert Tokens(b, 0)[n + 1..] == Tokens(b, 0)[n..][1..];
  }

  lemma {:induction false} RenderNext(b: string, vals: seq<string>, s0: nat, n: nat, done: string)
    requires s0 <= |b| && n < |vals| && |vals| - n == |Numbers(b, s0)| && Exec(b, s0).Match?
    ensures |vals| - (n + 1) == |Numbers(b, Exec(b, s0).end)|
    ensures var m := Exec(b, s0);
            done + Replaced(b, s0, vals[n..]) ==
            done + b[s0..m.index] + vals[n] + Replaced(b, m.end, vals[n + 1..])
  {
    var m := Exec(b, s0);
    assert vals[n..] == [vals[n]] + vals[n + 1..];
    ReplacedStep(b, s0, vals[n], vals[n + 1..]);
    Regroup(done, b[s0..m.index], vals[n], Replaced(b, m.end, vals[n + 1..]));
  }

  lemma {:induction false} Regroup(a: string, b: string, c: string, d: string)
    ensures a + (b + c + d) == a + b + c + d
  {
  }

  /** The first loop: the numbers of `b` are cut out and leave a slot each. */
  method CutNumbers(b: string) returns (s: seq<Piece>, q: seq<Slot>)
    ensures Fits(s, q) && |q| == HoleCount(s) == |Numbers(b, 0)|
    ensures forall k :: 0 <= k < |q| ==> q[k].x == Token(Tokens(b, 0)[k])
    ensures forall vals: seq<string> :: |vals| == |q| ==> Render(s, vals) == Replaced(b, 0, vals)
  {
    var s0 := 0;
    s, q := [], [];
    var m := Exec(b, 0);
    NothingCut(b);
    while m.Match?
      invariant NumbersCut(b, s0, q) && TextCut(b, s0, s, q) && m == Exec(b, s0)
      invariant if s == [] then s0 == 0 else s0 > 0 && s[|s| - 1].Hole?
      decreases |b| - s0
    {
      s, q := CutOne(b, s0, s, q, m);
      s0 := m.end;
      m := Exec(b, s0);
    }
    AllCut(b, s0, s, q);
    if s0 < |b| {
      PushTextAll(s, q, b[s0..]);
      s := s + [Text(b[s0..])];
    }
  }

  lemma {:induction false} NothingCut(b: string)
    ensures NumbersCut(b, 0, []) && TextCut(b, 0, [], [])
  {
    assert Tokens(b, 0)[0..] == Tokens(b, 0);
    forall vals: seq<string> | |vals| == |Numbers(b, 0)| ensures TextAt(b, vals, 0, [], 0) {
      assert vals[0..] == vals;
    }
  }

  /** After the last number all values are in the template, and the rest is text. */
  lemma {:induction false} AllCut(b: string, s0: nat, s: seq<Piece>, q: seq<Slot>)
    requires TextCut(b, s0, s, q) && Exec(b, s0).NoMatch?
    ensures |q| == |Numbers(b, 0)|
    ensures forall vals: seq<string> :: |vals| == |q| ==> Render(s, vals) + b[s0..] == Replaced(b, 0, vals)
  {
    forall vals: seq<string> | |vals| == |q| ensures Render(s, vals) + b[s0..] == Replaced(b, 0, vals) {
      assert TextAt(b, vals, s0, s, |q|);
      assert vals[..|q|] == vals;
    }
  }

  /** The values the slots will have in the end: the first `i` are settled, the others follow `vals` from `c` on. */
  ghost function Outlook(q: seq<Slot>, i: nat, vals: seq<string>, c: nat,
                         num: (string, string) -> string): (r: seq<string>)
    requires i <= |q| && c + (|q| - i) == |vals|
    requires forall k :: 0 <= k < i ==> q[k].x.Blend?
    ensures |r| == |q|
  {
    seq(i, k requires 0 <= k < i => num(q[k].x.from, q[k].x.to)) + vals[c..]
  }

  /** The template stands for `b` with its numbers blended, at the moment at which `num` gives the blends. */
  ghost predicate StandsFor(xs: seq<string>, b: string, num: (string, string) -> string, s: seq<Piece>, q: seq<Slot>,
                            i: nat, c: nat)
    requires i <= |q| == HoleCount(s) && c + (|q| - i) == |Tokens(b, 0)|
    requires forall k :: 0 <= k < i ==> q[k].x.Blend?
  {
    var vals := Blended(xs, Tokens(b, 0), num);
    Render(s, Outlook(q, i, vals, c, num)) == Replaced(b, 0, vals)
  }

  /** The slots from `i` on have the numbers from `c` on. */
  ghost predicate Follow(q: seq<Slot>, i: nat, ys: seq<string>, c: nat) {
    && i <= |q| && c + (|q| - i) == |ys|
    && forall k :: i <= k < |q| ==> q[k].x == Token(ys[c + k - i])
  }

  lemma {:induction false} OneFewerFollow(q: seq<Slot>, i: nat, ys: seq<string>, c: nat, d: nat, q': seq<Slot>)
    requires Follow(q, i, ys, c) && i < |q| && d == c + 1 && |q'| == |q| - 1
    requires forall k :: i <= k < |q'| ==> q'[k].x == q[k + 1].x
    ensures Follow(q', i, ys, d)
  {
    forall k | i <= k < |q'| ensures q'[k].x == Token(ys[d + k - i]) {
      assert q[k + 1].x == Token(ys[c + (k + 1) - i]);
    }
  }

  lemma {:induction false} LaterFollow(q: seq<Slot>, i: nat, ys: seq<string>, c: nat, j: nat, d: nat, q': seq<Slot>)
    requires Follow(q, i, ys, c) && i < |q| == |q'| && j == i + 1 && d == c + 1
    requires forall k :: j <= k < |q| ==> q'[k] == q[k]
    ensures Follow(q', j, ys, d)
  {
    forall k | j <= k < |q'| ensures q'[k].x == Token(ys[d + k - j]) {
      assert q[k].x == Token(ys[c + k - i]);
    }
  }

  /** The first `c` numbers of `b` were compared, and the first `i` slots belong to those that differ. */
  ghost predicate Slotted(xs: seq<string>, b: string, s: seq<Piece>, q: seq<Slot>, i: nat, c: nat) {
    var ys := Tokens(b, 0);
    && c <= |xs|
    && i <= |q| && c + (|q| - i) == |ys|
    && Fits(s, q) && |q| == HoleCount(s)
    && (forall k :: 0 <= k < i ==> q[k].x.Blend?)
    && Follow(q, i, ys, c)
    && (i == 0 ==> forall k :: 0 <= k < c ==> xs[k] == ys[k])
  }

  /** And whatever the blends are, the template stands for what it should. */
  ghost predicate Compared(xs: seq<string>, b: string, s: seq<Piece>, q: seq<Slot>, i: nat, c: nat) {
    && Slotted(xs, b, s, q, i, c)
    && (forall num: (string, string) -> string :: StandsFor(xs, b, num, s, q, i, c))
  }

  /** A slot that was not compared has its number. */
  lemma SlotIsToken(xs: seq<string>, b: string, s: seq<Piece>, q: seq<Slot>, i: nat, c: nat)
    requires Compared(xs, b, s, q, i, c) && i < |q|
    ensures q[i].x.Token? && Fits(s, q) && |q| == HoleCount(s)
  {
  }

  /** One round of the second loop, for a slot whose number is that of `a`. */
  method KeepNumber(ghost xs: seq<string>, ghost b: string, s: seq<Piece>, q: seq<Slot>, i: nat, ghost c: nat,
                    ghost d: nat)
    returns (s': seq<Piece>, q': seq<Slot>)
    requires Compared(xs, b, s, q, i, c) && i < |q| && c < |xs| && d == c + 1
    requires q[i].x == Token(xs[c])
    ensures Compared(xs, b, s', q', i, d)
  {
    SlotIsToken(xs, b, s, q, i, c);
    s', q' := MergeSlot(s, q, i);
    KeptCompared(xs, b, s, q, i, c, d, s', q');
  }

  lemma {:induction false} KeptCompared(xs: seq<string>, b: string, s: seq<Piece>, q: seq<Slot>, i: nat, c: nat, d: nat,
                                        s': seq<Piece>, q': seq<Slot>)
    requires Compared(xs, b, s, q, i, c) && i < |q| && c < |xs| && d == c + 1 && q[i].x == Token(xs[c])
    requires Spliced(s, q, i, xs[c], s', q')
    ensures Compared(xs, b, s', q', i, d)
  {
    SplicedFits(s, q, i, xs[c], s', q');
    KeptSlotted(xs, b, s, q, i, c, d, s', q');
    forall num: (string, string) -> string ensures StandsFor(xs, b, num, s', q', i, d) {
      assert StandsFor(xs, b, num, s, q, i, c);
      KeptAt(xs, b, num, s, q, i, c, d, s', q');
    }
  }

  lemma {:induction false} KeptSlotted(xs: seq<string>, b: string, s: seq<Piece>, q: seq<Slot>, i: nat, c: nat, d: nat,
                                       s': seq<Piece>, q': seq<Slot>)
    requires Slotted(xs, b, s, q, i, c) && i < |q| && c < |xs| && d == c + 1 && q[i].x == Token(xs[c])
    requires Fits(s', q') && |q'| == |q| - 1 == HoleCount(s')
    requires forall k :: 0 <= k < i ==> q'[k] == q[k]
    requires forall k :: i <= k < |q'| ==> q'[k].x == q[k + 1].x
    ensures Slotted(xs, b, s', q', i, d) && Tokens(b, 0)[c] == xs[c]
    ensures forall k :: 0 <= k < i ==> q[k].x.Blend? && q'[k] == q[k]
  {
    OneFewerFollow(q, i, Tokens(b, 0), c, d, q');
    assert q[i].x == Token(Tokens(b, 0)[c]);
  }

  lemma {:induction false} KeptAt(xs: seq<string>, b: string, num: (string, string) -> string, s: seq<Piece>,
                                  q: seq<Slot>, i: nat, c: nat, d: nat, s': seq<Piece>, q': seq<Slot>)
    requires i < |q| == HoleCount(s) && c + (|q| - i) == |Tokens(b, 0)| && d == c + 1
    requires c < |xs| && Tokens(b, 0)[c] == xs[c]
    requires |q'| == |q| - 1 == HoleCount(s') && forall k :: 0 <= k < i ==> q[k].x.Blend? && q'[k] == q[k]
    requires StandsFor(xs, b, num, s, q, i, c) && Spliced(s, q, i, xs[c], s', q')
    ensures StandsFor(xs, b, num, s', q', i, d)
  {
    var before := Outlook(q, i, Blended(xs, Tokens(b, 0), num), c, num);
    assert before[i] == xs[c];
    assert Without(s, q, i, before, s', q');
    KeptStandsFor(xs, b, num, s, q, i, c, d, s', q');
  }

  lemma {:induction false} KeptStandsFor(xs: seq<string>, b: string, num: (string, string) -> string, s: seq<Piece>,
                                         q: seq<Slot>, i: nat, c: nat, d: nat, s': seq<Piece>, q': seq<Slot>)
    requires i < |q| == HoleCount(s) && c + (|q| - i) == |Tokens(b, 0)| && d == c + 1
    requires |q'| == |q| - 1 == HoleCount(s') && forall k :: 0 <= k < i ==> q[k].x.Blend? && q'[k] == q[k]
    requires StandsFor(xs, b, num, s, q, i, c)
    requires Without(s, q, i, Outlook(q, i, Blended(xs, Tokens(b, 0), num), c, num), s', q')
    ensures StandsFor(xs, b, num, s', q', i, d)
  {
    var vals := Blended(xs, Tokens(b, 0), num);
    var before := Outlook(q, i, vals, c, num);
    assert Outlook(q', i, vals, d, num) == before[..i] + before[i + 1..];
  }

  /** One round of the second loop, for a slot whose number differs from that of `a`. */
  method BlendNumber(ghost xs: seq<string>, ghost b: string, s: seq<Piece>, q: seq<Slot>, i: nat, ghost c: nat,
                     ghost d: nat, token: string)
    returns (q': seq<Slot>, i': nat)
    requires Compared(xs, b, s, q, i, c) && i < |q| && c < |xs| && d == c + 1
    requires token == xs[c] && q[i].x != Token(token)
    ensures Compared(xs, b, s, q', i', d)
  {
    SlotIsToken(xs, b, s, q, i, c);
    q' := q[i := Slot(q[i].i, Blend(token, q[i].x.token))];
    i' := i + 1;
    BlendCompared(xs, b, s, q, i, c, i', d, q');
  }

  lemma {:induction false} BlendCompared(xs: seq<string>, b: string, s: seq<Piece>, q: seq<Slot>, i: nat, c: nat,
                                         j: nat, d: nat, q': seq<Slot>)
    requires Compared(xs, b, s, q, i, c) && i < |q| && c < |xs| && j == i + 1 && d == c + 1
    requires q[i].x != Token(xs[c]) && q[i].x.Token? && q' == q[i := Slot(q[i].i, Blend(xs[c], q[i].x.token))]
    ensures Compared(xs, b, s, q', j, d)
  {
    BlendSlotted(xs, b, s, q, i, c, j, d, q');
    forall num: (string, string) -> string ensures StandsFor(xs, b, num, s, q', j, d) {
      assert StandsFor(xs, b, num, s, q, i, c);
      SameOutlook(xs, Tokens(b, 0), num, q, i, c, j, d, q');
    }
  }

  lemma {:induction false} BlendSlotted(xs: seq<string>, b: string, s: seq<Piece>, q: seq<Slot>, i: nat, c: nat,
                                        j: nat, d: nat, q': seq<Slot>)
    requires Slotted(xs, b, s, q, i, c) && i < |q| && c < |xs| && j == i + 1 && d == c + 1
    requires q[i].x != Token(xs[c]) && q[i].x.Token? && q' == q[i := Slot(q[i].i, Blend(xs[c], q[i].x.token))]
    ensures Slotted(xs, b, s, q', j, d) && q'[i].x == Blend(xs[c], Tokens(b, 0)[c]) && xs[c] != Tokens(b, 0)[c]
    ensures forall k :: 0 <= k < i ==> q[k].x.Blend? && q'[k] == q[k]
  {
    assert Indices(q') == Indices(q);
    LaterFollow(q, i, Tokens(b, 0), c, j, d, q');
    assert q[i].x == Token(Tokens(b, 0)[c]);
  }

  lemma {:induction false} SameOutlook(xs: seq<string>, ys: seq<string>, num: (string, string) -> string, q: seq<Slot>,
                                       i: nat, c: nat, j: nat, d: nat, q': seq<Slot>)
    requires i < |q| == |q'| && c + (|q| - i) == |ys| && c < |xs| && xs[c] != ys[c] && j == i + 1 && d == c + 1
    requires forall k :: 0 <= k < i ==> q[k].x.Blend? && q'[k] == q[k]
    requires q'[i].x == Blend(xs[c], ys[c])
    ensures Outlook(q', j, Blended(xs, ys, num), d, num) == Outlook(q, i, Blended(xs, ys, num), c, num)
  {
  }

  method CompareOne(ghost xs: seq<string>, ghost b: string, s: seq<Piece>, q: seq<Slot>, i: nat, ghost c: nat,
                    ghost d: nat, token: string)
    returns (s': seq<Piece>, q': seq<Slot>, i': nat)
    requires Compared(xs, b, s, q, i, c) && i < |q| && c < |xs| && d == c + 1
    requires token == xs[c]
    ensures Compared(xs, b, s', q', i', d)
  {
    SlotIsToken(xs, b, s, q, i, c);
    if q[i].x.token == token {
      s', q' := KeepNumber(xs, b, s, q, i, c, d);
      i' := i;
    } else {
      s' := s;
      q', i' := BlendNumber(xs, b, s, q, i, c, d, token);
    }
  }

  lemma {:induction false} NextToken(a: string, pos: nat, xs: seq<string>, c: nat)
    requires pos <= |a| && c <= |xs| && xs[c..] == Tokens(a, pos)
    ensures var m := Exec(a, pos);
            if m.NoMatch? then c == |xs|
            else c < |xs| && xs[c] == a[m.index..m.end] && xs[c + 1..] == Tokens(a, m.end)
  {
    if Exec(a, pos).Match? {
      TokensStep(a, pos);
      assert xs[c] == xs[c..][0];
      assert xs[c + 1..] == xs[c..][1..];
    }
  }

  /** The second loop: compare the numbers of `a` and `b` in order. */
  method CompareNumbers(a: string, s0: seq<Piece>, q0: seq<Slot>, ghost b: string)
    returns (s: seq<Piece>, q: seq<Slot>, i: nat, ghost c: nat)
    requires Compared(Tokens(a, 0), b, s0, q0, 0, 0)
    ensures Compared(Tokens(a, 0), b, s, q, i, c)
    ensures i < |q| ==> c == |Tokens(a, 0)|
  {
    ghost var xs := Tokens(a, 0);
    assert xs[0..] == xs;
    s, q, i, c := s0, q0, 0, 0;
    var pos := 0;
    var m := Exec(a, 0);
    while m.Match? && i < |q|
      invariant pos <= |a| && m == Exec(a, pos)
      invariant Compared(xs, b, s, q, i, c)
      invariant xs[c..] == Tokens(a, pos)
      decreases |a| - pos
    {
      NextToken(a, pos, xs, c);
      var token := a[m.index..m.end];
      s, q, i := CompareOne(xs, b, s, q, i, c, c + 1, token);
      c := c + 1;
      pos := m.end;
      m := Exec(a, pos);
    }
    NextToken(a, pos, xs, c);
  }

  /** Values that agree with the numbers of the slots from `n` on. */
  ghost predicate Agree(q: seq<Slot>, n: nat, vals: seq<string>) {
    |vals| == |q| && forall k :: n <= k < |q| ==> q[k].x == Token(vals[k])
  }

  /** With such values `s0` gives the same text as `s` with the first of them. */
  ghost predicate FilledFrom(s0: seq<Piece>, q0: seq<Slot>, n: nat, s: seq<Piece>, m: nat)
    requires m <= |q0| == HoleCount(s0) && m == HoleCount(s)
  {
    forall vals: seq<string> :: Agree(q0, n, vals) ==> Render(s, vals[..m]) == Render(s0, vals)
  }

  /** The third loop: numbers of `b` without a counterpart in `a` are filled in again, from the end. */
  method FillRest(s0: seq<Piece>, q0: seq<Slot>, n: nat) returns (s: seq<Piece>, q: seq<Slot>)
    requires Fits(s0, q0) && n <= |q0| == HoleCount(s0)
    requires forall k :: n <= k < |q0| ==> q0[k].x.Token?
    ensures Fits(s, q) && |q| == n == HoleCount(s) && FilledFrom(s0, q0, n, s, n)
    ensures forall k :: 0 <= k < n ==> q[k] == q0[k]
  {
    s, q := s0, q0;
    NothingFilled(s0, q0, n);
    while n < |q|
      invariant n <= |q| <= |q0|
      invariant Fits(s, q) && |q| == HoleCount(s)
      invariant forall k :: 0 <= k < |q| ==> q[k] == q0[k]
      invariant FilledFrom(s0, q0, n, s, |q|)
    {
      s, q := FillLastSlot(s0, q0, n, s, q);
    }
  }

  method FillLastSlot(ghost s0: seq<Piece>, ghost q0: seq<Slot>, ghost n: nat, s: seq<Piece>, q: seq<Slot>)
    returns (s': seq<Piece>, q': seq<Slot>)
    requires Fits(s, q) && n < |q| <= |q0| == HoleCount(s0) && |q| == HoleCount(s) && FilledFrom(s0, q0, n, s, |q|)
    requires q[|q| - 1] == q0[|q| - 1] && q[|q| - 1].x.Token?
    ensures Fits(s', q') && |q'| == |q| - 1 == HoleCount(s') && FilledFrom(s0, q0, n, s', |q'|)
    ensures forall k :: 0 <= k < |q'| ==> q'[k] == q[k]
  {
    s', q' := FillSlot(s, q, |q| - 1);
    SplicedFits(s, q, |q| - 1, q[|q| - 1].x.token, s', q');
    FillNextRest(s0, q0, n, s, q, s', q');
  }

  lemma NothingFilled(s0: seq<Piece>, q0: seq<Slot>, n: nat)
    requires |q0| == HoleCount(s0)
    ensures FilledFrom(s0, q0, n, s0, |q0|)
  {
    forall vals: seq<string> | Agree(q0, n, vals) ensures Render(s0, vals[..|q0|]) == Render(s0, vals) {
      assert vals[..|q0|] == vals;
    }
  }

  lemma {:induction false} FillNextRest(s0: seq<Piece>, q0: seq<Slot>, n: nat, s1: seq<Piece>, q1: seq<Slot>,
                                        s: seq<Piece>, q: seq<Slot>)
    requires n < |q1| <= |q0| == HoleCount(s0) && |q1| == HoleCount(s1) && q1[|q1| - 1] == q0[|q1| - 1]
    requires q1[|q1| - 1].x.Token? && FilledFrom(s0, q0, n, s1, |q1|)
    requires Spliced(s1, q1, |q1| - 1, q1[|q1| - 1].x.token, s, q)
    ensures HoleCount(s) == |q1| - 1 && FilledFrom(s0, q0, n, s, |q1| - 1)
  {
    var m := |q1| - 1;
    SplicedFits(s1, q1, m, q1[m].x.token, s, q);
    forall vals: seq<string> | Agree(q0, n, vals) ensures Render(s, vals[..m]) == Render(s0, vals) {
      var now := vals[..m + 1];
      assert Without(s1, q1, m, now, s, q);
      assert now[..m] + now[m + 1..] == vals[..m];
    }
  }

  /** What `interpolateString` returns. */
  datatype Interpolator =
    | Constant(text: string)
    | Single(from: string, to: string)
    | Template(s: seq<Piece>, q: seq<Slot>)

  ghost function SlotValues(q: seq<Slot>, num: (string, string) -> string): (vals: seq<string>)
    requires forall k :: 0 <= k < |q| ==> q[k].x.Blend?
    ensures |vals| == |q|
  {
    seq(|q|, k requires 0 <= k < |q| => num(q[k].x.from, q[k].x.to))
  }

  /** The returned function at one moment, `num` giving the blend of two numbers at that moment as text. */
  ghost predicate Yields(f: Interpolator, num: (string, string) -> string, goal: string) {
    match f
    case Constant(text) => text == goal
    case Single(from, to) => num(from, to) == goal
    case Template(s, q) =>
      && Fits(s, q)
      && (forall k :: 0 <= k < |q| ==> q[k].x.Blend?)
      && Render(s, SlotValues(q, num)) == goal
  }

  lemma {:induction false} AllEqual(xs: seq<string>, ys: seq<string>, num: (string, string) -> string)
    requires forall k :: 0 <= k < |xs| && k < |ys| ==> xs[k] == ys[k]
    ensures Blended(xs, ys, num) == ys
  {
  }

  /** The three loops together. */
  method BuildTemplate(a: string, b: string) returns (s: seq<Piece>, q: seq<Slot>)
    ensures Fits(s, q) && |q| == HoleCount(s)
    ensures forall k :: 0 <= k < |q| ==> q[k].x.Blend?
    ensures forall num: (string, string) -> string :: Render(s, SlotValues(q, num)) == Expected(a, b, num)
    ensures q == [] ==> forall num: (string, string) -> string :: Expected(a, b, num) == b
  {
    ghost var xs := Tokens(a, 0);
    s, q := CutNumbers(b);
    StartCompared(xs, b, s, q);
    var i;
    ghost var c;
    s, q, i, c := CompareNumbers(a, s, q, b);
    ghost var s1, q1 := s, q;
    s, q := FillRest(s, q, i);
    forall num: (string, string) -> string ensures Render(s, SlotValues(q, num)) == Expected(a, b, num) {
      TemplateYields(a, b, num, s1, q1, i, c, s, q);
    }
    if i == 0 {
      forall num: (string, string) -> string ensures Expected(a, b, num) == b {
        AllEqual(xs, Tokens(b, 0), num);
        OwnTokens(b, 0);
      }
    }
  }

  lemma {:induction false} TemplateYields(a: string, b: string, num: (string, string) -> string, s1: seq<Piece>,
                                          q1: seq<Slot>, i: nat, c: nat, s: seq<Piece>, q: seq<Slot>)
    requires Compared(Tokens(a, 0), b, s1, q1, i, c) && (i < |q1| ==> c == |Tokens(a, 0)|)
    requires |q| == i == HoleCount(s) && FilledFrom(s1, q1, i, s, i) && forall k :: 0 <= k < i ==> q[k] == q1[k]
    ensures Render(s, SlotValues(q, num)) == Expected(a, b, num)
  {
    RestIsKnown(Tokens(a, 0), b, num, s1, q1, i, c);
    assert Outlook(q1, i, Blended(Tokens(a, 0), Tokens(b, 0), num), c, num)[..i] == SlotValues(q, num);
  }

  lemma {:induction false} StartCompared(xs: seq<string>, b: string, s: seq<Piece>, q: seq<Slot>)
    requires Fits(s, q) && |q| == HoleCount(s) == |Numbers(b, 0)|
    requires forall k :: 0 <= k < |q| ==> q[k].x == Token(Tokens(b, 0)[k])
    requires forall vals: seq<string> :: |vals| == |q| ==> Render(s, vals) == Replaced(b, 0, vals)
    ensures Compared(xs, b, s, q, 0, 0)
  {
    forall num: (string, string) -> string ensures StandsFor(xs, b, num, s, q, 0, 0) {
      var vals := Blended(xs, Tokens(b, 0), num);
      assert Outlook(q, 0, vals, 0, num) == vals;
    }
  }

  lemma {:induction false} RestIsKnown(xs: seq<string>, b: string, num: (string, string) -> string,
                                       s: seq<Piece>, q: seq<Slot>, i: nat, c: nat)
    requires Compared(xs, b, s, q, i, c) && (i < |q| ==> c == |xs|)
    ensures var vals := Blended(xs, Tokens(b, 0), num);
            Agree(q, i, Outlook(q, i, vals, c, num)) && Render(s, Outlook(q, i, vals, c, num)) == Replaced(b, 0, vals)
  {
    assert StandsFor(xs, b, num, s, q, i, c);
  }

  /** For all strings, and at every moment, the interpolator gives `b` with its differing numbers blended. */
  method Interpolate(a: string, b: string) returns (f: Interpolator)
    ensures forall num: (string, string) -> string :: Yields(f, num, Expected(a, b, num))
  {
    var s, q := BuildTemplate(a, b);
    if |s| == 1 {
      if s[0].Hole? {
        assert s == [Hole];
        f := Single(q[0].x.from, q[0].x.to);
        forall num: (string, string) -> string ensures Yields(f, num, Expected(a, b, num)) {
          ShortRenders(SlotValues(q, num)[0], "", "");
          assert SlotValues(q, num) == [SlotValues(q, num)[0]];
        }
      } else {
        assert s == [s[0]];
        f := Constant(b);
      }
    } else {
      f := Template(s, q);
    }
  }
}
