/** Evaluating the template of a string interpolation, as often as one likes. */
module InterpolateEvaluate {
  import opened InterpolateString

  /** `s` with its holes filled in order. */
  ghost function Filled(s: seq<Piece>, vals: seq<string>): (r: seq<Piece>)
    requires |vals| == HoleCount(s)
    ensures |r| == |s|
  {
    if s == [] then []
    else match s[0]
      case Hole => [Text(vals[0])] + Filled(s[1..], vals[1..])
      case Text(t) => [s[0]] + Filled(s[1..], vals)
  }

  function Join(s: seq<Piece>): string {
    if s == [] then ""
    else (if s[0].Text? then s[0].text else "") + Join(s[1..])
  }

  lemma {:induction false} JoinFilled(s: seq<Piece>, vals: seq<string>)
    requires |vals| == HoleCount(s)
    ensures Join(Filled(s, vals)) == Render(s, vals)
  {
    if s != [] {
      match s[0]
      case Hole => JoinFilled(s[1..], vals[1..]);
      case Text(t) => JoinFilled(s[1..], vals);
    }
  }

  lemma {:induction false} HolesFollow(s: seq<Piece>, base: int)
    ensures forall k :: 0 <= k < HoleCount(s) ==> HolesAt(s, base)[k] >= base
  {
    forall k | 0 <= k < HoleCount(s) ensures HolesAt(s, base)[k] >= base {
      HolesRange(s, base, k);
    }
  }

  /** The filled template differs from the template at the holes, and has the k-th value at the k-th hole. */
  lemma {:induction false} FilledAt(s: seq<Piece>, vals: seq<string>, base: int, i: nat)
    requires |vals| == HoleCount(s) && i < |s|
    ensures s[i].Text? ==> Filled(s, vals)[i] == s[i]
    ensures forall k :: 0 <= k < |vals| && HolesAt(s, base)[k] == base + i ==> Filled(s, vals)[i] == Text(vals[k])
    ensures s[i].Hole? ==> exists k :: 0 <= k < |vals| && HolesAt(s, base)[k] == base + i
  {
    HolesFollow(s[1..], base + 1);
    if s[0].Hole? {
      assert HolesAt(s, base) == [base] + HolesAt(s[1..], base + 1);
      if i > 0 {
        FilledAt(s[1..], vals[1..], base + 1, i - 1);
        if s[i].Hole? {
          var k :| 0 <= k < |vals| - 1 && HolesAt(s[1..], base + 1)[k] == base + i;
          assert HolesAt(s, base)[k + 1] == base + i;
        }
      } else {
        assert HolesAt(s, base)[0] == base;
      }
    } else if i > 0 {
      FilledAt(s[1..], vals, base + 1, i - 1);
    }
  }

  /** The returned function: its array is the template, with the values of the last call in the holes. */
  class TemplateFunction {
    const s: array<Piece>
    const q: seq<Slot>
    ghost const template: seq<Piece>

    ghost predicate Valid()
      reads this, s
    {
      && Fits(template, q) && |q| == HoleCount(template)
      && (forall k :: 0 <= k < |q| ==> q[k].x.Blend?)
      && SameTexts(template, s[..])
    }

    constructor (template: seq<Piece>, q: seq<Slot>)
      requires Fits(template, q) && |q| == HoleCount(template) && forall k :: 0 <= k < |q| ==> q[k].x.Blend?
      ensures Valid() && fresh(s) && this.template == template && this.q == q
    {
      this.template, this.q := template, q;
      s := new Piece[|template|](i requires 0 <= i < |template| => template[i]);
    }

    /** Writes the values into the slots by their indices, and joins. */
    method Call(num: (string, string) -> string) returns (text: string)
      requires Valid()
      modifies s
      ensures Valid()
      ensures text == Render(template, SlotValues(q, num)) && s[..] == Filled(template, SlotValues(q, num))
    {
      ghost var vals := SlotValues(q, num);
      var n := 0;
      while n < |q|
        invariant 0 <= n <= |q| && SameTexts(template, s[..])
        invariant forall k :: 0 <= k < n ==> q[k].i < s.Length && s[q[k].i] == Text(vals[k])
      {
        SlotPlace(template, q, n);
        OwnPlaces(template, q, n);
        s[q[n].i] := Text(num(q[n].x.from, q[n].x.to));
        n := n + 1;
      }
      AllFilled(template, q, vals, s[..]);
      JoinFilled(template, vals);
      text := Join(s[..]);
    }
  }

  /** The texts of the template are in place, whatever is in the holes. */
  ghost predicate SameTexts(template: seq<Piece>, s: seq<Piece>) {
    |s| == |template| && forall i :: 0 <= i < |s| && template[i].Text? ==> s[i] == template[i]
  }

  /** No two slots point at the same hole. */
  lemma {:induction false} OwnPlaces(s: seq<Piece>, q: seq<Slot>, n: nat)
    requires Fits(s, q) && n < |q|
    ensures forall k :: 0 <= k < n ==> q[k].i != q[n].i
  {
    forall k | 0 <= k < n ensures q[k].i != q[n].i {
      SlotPlace(s, q, k);
      SlotPlace(s, q, n);
    }
  }

  lemma {:induction false} AllFilled(template: seq<Piece>, q: seq<Slot>, vals: seq<string>, s: seq<Piece>)
    requires Fits(template, q) && |q| == |vals| == HoleCount(template) && SameTexts(template, s)
    requires forall k :: 0 <= k < |q| ==> q[k].i < |s| && s[q[k].i] == Text(vals[k])
    ensures s == Filled(template, vals)
  {
    forall i | 0 <= i < |s| ensures s[i] == Filled(template, vals)[i] {
      FilledAt(template, vals, 0, i);
      if template[i].Hole? {
        var k :| 0 <= k < |vals| && HolesAt(template, 0)[k] == i;
        assert Indices(q)[k] == q[k].i;
      }
    }
  }
}
