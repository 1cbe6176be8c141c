/**
What the number pattern matches, as a grammar of strings: the numbers that are cut out of a text are the longest ones
that begin at the leftmost places, and no number begins between them.
*/
module NumberPattern {
  import opened InterpolateString

  // ----- The grammar: which parts `s[lo..hi]` of a text are numbers -----

  predicate DigitsIn(s: string, lo: nat, hi: nat) {
    lo <= hi <= |s| && forall j :: lo <= j < hi ==> '0' <= s[j] <= '9'
  }

  /** An optional sign. */
  predicate SignIn(s: string, lo: nat, hi: nat) {
    lo <= hi <= |s| && (lo < hi ==> hi == lo + 1 && s[lo] in ['-', '+'])
  }

  /** Digits up to `p` with an optional point and more digits, or a point and digits. */
  predicate MantissaIn(s: string, lo: nat, p: nat, hi: nat) {
    && DigitsIn(s, lo, p) && p <= hi <= |s|
    && (if p == hi then lo < p else s[p] == '.' && DigitsIn(s, p + 1, hi) && lo + 1 < hi)
  }

  /** An optional exponent: its letter, an optional sign up to `b`, and digits. */
  predicate PowerIn(s: string, lo: nat, b: nat, hi: nat) {
    && lo <= b <= hi <= |s|
    && (lo < hi ==> b < hi && SignIn(s, lo + 1, b) && DigitsIn(s, b, hi) && s[lo] in ['e', 'E'])
  }

  /** The parts of a number: a sign up to `a`, a mantissa up to `m`, and an exponent. */
  predicate PartsIn(s: string, lo: nat, a: nat, p: nat, m: nat, b: nat, hi: nat) {
    SignIn(s, lo, a) && MantissaIn(s, a, p, m) && PowerIn(s, m, b, hi)
  }

  ghost predicate NumberIn(s: string, lo: nat, hi: nat) {
    exists a: nat, p: nat, m: nat, b: nat :: PartsIn(s, lo, a, p, m, b, hi)
  }

  ghost predicate IsNumber(x: string) {
    NumberIn(x, 0, |x|)
  }

  /** Some number begins at `i`. */
  ghost predicate Begins(s: string, i: nat) {
    exists k: nat :: i <= k <= |s| && NumberIn(s, i, k)
  }

  // ----- A part of a text is a number by itself -----

  lemma SameDigits(s: string, i: nat, k: nat, lo: nat, hi: nat)
    requires i <= lo <= hi <= k <= |s|
    ensures DigitsIn(s, lo, hi) <==> DigitsIn(s[i..k], lo - i, hi - i)
  {
    forall j | lo <= j < hi ensures s[j] == s[i..k][j - i] {
    }
    if DigitsIn(s[i..k], lo - i, hi - i) {
      assert forall j :: lo <= j < hi ==> s[j] == s[i..k][j - i];
    }
  }

  lemma SameMantissa(s: string, i: nat, k: nat, lo: nat, p: nat, hi: nat)
    requires i <= lo <= p <= hi <= k <= |s|
    ensures MantissaIn(s, lo, p, hi) <==> MantissaIn(s[i..k], lo - i, p - i, hi - i)
  {
    SameDigits(s, i, k, lo, p);
    if p < hi {
      SameDigits(s, i, k, p + 1, hi);
    }
  }

  lemma SamePower(s: string, i: nat, k: nat, lo: nat, b: nat, hi: nat)
    requires i <= lo <= b <= hi <= k <= |s|
    ensures PowerIn(s, lo, b, hi) <==> PowerIn(s[i..k], lo - i, b - i, hi - i)
  {
    SameDigits(s, i, k, b, hi);
  }

  lemma SameParts(s: string, i: nat, k: nat, a: nat, p: nat, m: nat, b: nat)
    requires i <= a <= p <= m <= b <= k <= |s|
    ensures PartsIn(s, i, a, p, m, b, k) <==> PartsIn(s[i..k], 0, a - i, p - i, m - i, b - i, k - i)
  {
    SameMantissa(s, i, k, a, p, m);
    SamePower(s, i, k, m, b, k);
    assert SignIn(s, i, a) <==> SignIn(s[i..k], 0, a - i);
  }

  lemma NumberByItself(s: string, i: nat, k: nat)
    requires i <= k <= |s|
    ensures NumberIn(s, i, k) <==> IsNumber(s[i..k])
  {
    if NumberIn(s, i, k) {
      var a: nat, p: nat, m: nat, b: nat :| PartsIn(s, i, a, p, m, b, k);
      SameParts(s, i, k, a, p, m, b);
    }
    if IsNumber(s[i..k]) {
      var a: nat, p: nat, m: nat, b: nat :| PartsIn(s[i..k], 0, a, p, m, b, k - i);
      SameParts(s, i, k, a + i, p + i, m + i, b + i);
    }
  }

  // ----- What the pattern matches is a number -----

  /** The run of digits is the longest one. */
  lemma {:induction false} DigitsRun(s: string, i: nat)
    requires i <= |s|
    ensures DigitsIn(s, i, Digits(s, i)) && !Digit(s, Digits(s, i))
    decreases |s| - i
  {
    if Digit(s, i) {
      DigitsRun(s, i + 1);
    }
  }

  lemma PowerFound(s: string, i: nat) returns (b: nat)
    requires i <= |s|
    ensures PowerIn(s, i, b, Exponent(s, i))
  {
    b := i;
    if Exponent(s, i) > i {
      b := SkipSign(s, i + 1);
      DigitsRun(s, b);
    }
  }

  lemma MantissaFound(s: string, i: nat)
    requires i <= |s| && Mantissa(s, i) > i
    ensures MantissaIn(s, i, Digits(s, i), Mantissa(s, i))
  {
    var d := Digits(s, i);
    DigitsRun(s, i);
    if Mantissa(s, i) > d {
      DigitsRun(s, d + 1);
    }
  }

  lemma NumberFound(s: string, i: nat)
    requires i <= |s| && NumberEnd(s, i) > i
    ensures NumberIn(s, i, NumberEnd(s, i))
  {
    var a := SkipSign(s, i);
    var m := Mantissa(s, a);
    MantissaFound(s, a);
    var b := PowerFound(s, m);
    assert PartsIn(s, i, a, Digits(s, a), m, b, NumberEnd(s, i));
  }

  // ----- No number that stands there is longer -----

  /** Digits belong to the run that begins where they do, and are the run if no digit follows them. */
  lemma {:induction false} DigitsReach(s: string, i: nat, k: nat)
    requires DigitsIn(s, i, k)
    ensures Digits(s, i) >= k
    ensures !Digit(s, k) ==> Digits(s, i) == k
    decreases k - i
  {
    if i < k {
      DigitsReach(s, i + 1, k);
    }
  }

  lemma PowerReaches(s: string, i: nat, b: nat, k: nat)
    requires PowerIn(s, i, b, k)
    ensures Exponent(s, i) >= k
  {
    if i < k {
      assert SkipSign(s, i + 1) == b;
      DigitsReach(s, b, k);
    }
  }

  /** A mantissa reaches as far as the match does, and is its mantissa if an exponent follows. */
  lemma MantissaReaches(s: string, i: nat, p: nat, k: nat)
    requires MantissaIn(s, i, p, k)
    ensures Mantissa(s, i) >= k
    ensures k < |s| && s[k] in ['e', 'E'] ==> Mantissa(s, i) == k
  {
    DigitsReach(s, i, p);
    if p < k {
      DigitsReach(s, p + 1, k);
    }
  }

  lemma NumberReaches(s: string, i: nat, k: nat)
    requires NumberIn(s, i, k)
    ensures i < k <= NumberEnd(s, i)
  {
    var a: nat, p: nat, m: nat, b: nat :| PartsIn(s, i, a, p, m, b, k);
    assert SkipSign(s, i) == a;
    MantissaReaches(s, a, p, m);
    PowerReaches(s, m, b, k);
  }

  /** A number begins at `i` exactly if the pattern matches there, and the match is the longest of those numbers. */
  lemma LongestNumber(s: string, i: nat)
    requires i <= |s|
    ensures NumberEnd(s, i) > i <==> Begins(s, i)
    ensures Begins(s, i) ==> NumberIn(s, i, NumberEnd(s, i))
    ensures forall k: nat :: NumberIn(s, i, k) ==> k <= NumberEnd(s, i)
  {
    if NumberEnd(s, i) > i {
      NumberFound(s, i);
    }
    forall k: nat | NumberIn(s, i, k) ensures i < k <= NumberEnd(s, i) {
      NumberReaches(s, i, k);
    }
  }

  lemma MatchesWhereBegins(s: string, i: nat)
    requires i <= |s|
    ensures NumberEnd(s, i) > i <==> Begins(s, i)
  {
    LongestNumber(s, i);
  }

  // ----- All the numbers of a text -----

  ghost predicate NoneBegins(s: string, i: nat, end: nat) {
    forall j: nat :: i <= j < end ==> !Begins(s, j)
  }

  predicate NoneMatches(s: string, i: nat, end: nat) {
    forall j :: i <= j < end && j <= |s| ==> NumberEnd(s, j) == j
  }

  /** `exec` finds the first match. */
  lemma {:induction false} FirstMatch(s: string, i: nat)
    requires i <= |s|
    ensures var m := Exec(s, i);
            if m.Match? then NoneMatches(s, i, m.index) && m.end == NumberEnd(s, m.index)
            else NoneMatches(s, i, |s| + 1)
    decreases |s| - i
  {
    if NumberEnd(s, i) == i && i < |s| {
      FirstMatch(s, i + 1);
    }
  }

  lemma NoneMatchesNoneBegins(s: string, i: nat, end: nat)
    requires NoneMatches(s, i, end)
    ensures NoneBegins(s, i, end)
  {
    forall j: nat | i <= j < end && Begins(s, j) ensures false {
      MatchesWhereBegins(s, j);
    }
  }

  /** `exec` finds the leftmost number, or there is none. */
  lemma LeftmostNumber(s: string, i: nat)
    requires i <= |s|
    ensures var m := Exec(s, i);
            if m.Match? then NoneBegins(s, i, m.index) && Begins(s, m.index) && m.end == NumberEnd(s, m.index)
            else NoneBegins(s, i, |s| + 1)
  {
    FirstMatch(s, i);
    var m := Exec(s, i);
    if m.Match? {
      NoneMatchesNoneBegins(s, i, m.index);
      MatchesWhereBegins(s, m.index);
    } else {
      NoneMatchesNoneBegins(s, i, |s| + 1);
    }
  }

  /** A match is the longest number at its place. */
  ghost predicate Longest(s: string, m: Match) {
    && m.Match? && m.index < m.end <= |s| && NumberIn(s, m.index, m.end)
    && forall k: nat :: NumberIn(s, m.index, k) ==> k <= m.end
  }

  predicate Covered(ms: seq<Match>, j: nat) {
    exists k :: 0 <= k < |ms| && ms[k].Match? && ms[k].index <= j < ms[k].end
  }

  ghost predicate AllCovered(s: string, i: nat, ms: seq<Match>) {
    forall j: nat :: i <= j && Begins(s, j) ==> Covered(ms, j)
  }

  lemma CoversMore(s: string, i: nat, m: Match, rest: seq<Match>)
    requires m.Match? && NoneBegins(s, i, m.index) && AllCovered(s, m.end, rest)
    ensures AllCovered(s, i, [m] + rest)
  {
    var ms := [m] + rest;
    forall j: nat | i <= j && Begins(s, j) ensures Covered(ms, j) {
      if j < m.end {
        assert ms[0] == m;
      } else {
        var k :| 0 <= k < |rest| && rest[k].Match? && rest[k].index <= j < rest[k].end;
        assert ms[k + 1] == rest[k];
      }
    }
  }

  lemma {:induction false} AllAreCovered(s: string, i: nat)
    requires i <= |s|
    ensures AllCovered(s, i, Numbers(s, i))
    decreases |s| - i
  {
    var m := Exec(s, i);
    LeftmostNumber(s, i);
    if m.Match? {
      AllAreCovered(s, m.end);
      CoversMore(s, i, m, Numbers(s, m.end));
    }
  }

  lemma {:induction false} AllAreLongest(s: string, i: nat)
    requires i <= |s|
    ensures forall k :: 0 <= k < |Numbers(s, i)| ==> Longest(s, Numbers(s, i)[k])
    decreases |s| - i
  {
    var m := Exec(s, i);
    if m.Match? {
      LeftmostNumber(s, i);
      LongestNumber(s, m.index);
      AllAreLongest(s, m.end);
    }
  }

  /** Every match is a longest number, the matches follow one another, and no number begins outside of them. */
  lemma {:induction false} NumbersOfText(s: string, i: nat)
    requires i <= |s|
    ensures var ms := Numbers(s, i);
            && (forall k :: 0 <= k < |ms| ==> Longest(s, ms[k]))
            && (forall k :: 0 < k < |ms| ==> ms[k - 1].end <= ms[k].index)
            && AllCovered(s, i, ms)
    decreases |s| - i
  {
    AllAreLongest(s, i);
    AllAreCovered(s, i);
    if Exec(s, i).Match? {
      NumbersOfText(s, Exec(s, i).end);
    }
  }

  /** A number is its own only token. */
  lemma TokensOfNumber(x: string)
    requires IsNumber(x)
    ensures Tokens(x, 0) == [x]
  {
    LongestNumber(x, 0);
    assert x[0..|x|] == x;
    assert Numbers(x, |x|) == [];
    assert Numbers(x, 0) == [Match(0, |x|)];
  }

  // ----- The text between the numbers -----

  /** The texts around the numbers, from position `i` on. */
  function Gaps(s: string, i: nat): seq<string>
    requires i <= |s|
    decreases |s| - i
  {
    var m := Exec(s, i);
    if m.NoMatch? then [s[i..]] else [s[i..m.index]] + Gaps(s, m.end)
  }

  lemma {:induction false} SameGaps(a: string, i: nat, b: string, j: nat, vals: seq<string>)
    requires i <= |a| && j <= |b| && Gaps(a, i) == Gaps(b, j) && |vals| == |Numbers(a, i)|
    ensures |Numbers(b, j)| == |vals| && Replaced(b, j, vals) == Replaced(a, i, vals)
    decreases |a| - i
  {
    var x, y := Exec(a, i), Exec(b, j);
    assert Gaps(a, i)[0] == Gaps(b, j)[0];
    if x.Match? {
      assert Gaps(a, i)[1..] == Gaps(a, x.end);
      assert |Gaps(a, x.end)| > 0;
      assert Gaps(b, j)[1..] == Gaps(b, y.end);
      SameGaps(a, x.end, b, y.end, vals[1..]);
    } else {
      assert |Gaps(b, j)| == 1;
    }
  }

  /** Where the texts around the numbers are the same and every blend gives the number of `a`, the result is `a`. */
  lemma {:induction false} StartsAtA(a: string, b: string, num: (string, string) -> string)
    requires Gaps(a, 0) == Gaps(b, 0) && forall x, y :: num(x, y) == x
    ensures Expected(a, b, num) == a
  {
    SameGaps(a, 0, b, 0, Tokens(a, 0));
    assert Blended(Tokens(a, 0), Tokens(b, 0), num) == Tokens(a, 0);
    OwnTokens(a, 0);
  }
}
