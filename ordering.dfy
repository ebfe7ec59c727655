/** The two orders the charts impose: `Series.sort_values(ascending=False)`,
    sectors by a score (their mean or their share), largest first; and
    `sort_index()`, the pivot years in ascending text order. */
module Ordering {
  import opened Seqs
  import opened Cleaning

  predicate Scored(xs: seq<string>, score: map<string, real>) {
    forall i :: 0 <= i < |xs| ==> xs[i] in score
  }

  /** Scores never increase along the sequence. */
  predicate Nonincreasing(xs: seq<string>, score: map<string, real>)
    requires Scored(xs, score)
  {
    forall i, j :: 0 <= i < j < |xs| ==> score[xs[i]] >= score[xs[j]]
  }

  /** The sectors by nonincreasing score: a rearrangement of the input
      (nothing lost, nothing repeated) with the largest score first.  Ties
      keep the order of their first appearance. */
  function SortByScoreDesc(xs: seq<string>, score: map<string, real>): (r: seq<string>)
    requires Scored(xs, score)
    ensures |r| == |xs| && Scored(r, score)
    ensures multiset(r) == multiset(xs)
    ensures Nonincreasing(r, score)
    decreases |xs|
  {
    if xs == [] then []
    else
      var init := xs[..|xs| - 1];
      assert xs == init + [xs[|xs| - 1]];
      var sorted := SortByScoreDesc(init, score);
      InsertLast(xs[|xs| - 1], sorted, score)
  }

  /** Inserting after every element with the same score keeps ties in
      input order. */
  function InsertLast(x: string, xs: seq<string>, score: map<string, real>): (r: seq<string>)
    requires x in score && Scored(xs, score)
    requires Nonincreasing(xs, score)
    ensures |r| == |xs| + 1 && Scored(r, score)
    ensures multiset(r) == multiset(xs) + multiset{x}
    ensures Nonincreasing(r, score)
    decreases |xs|
  {
    if xs == [] then [x]
    else
      var last := xs[|xs| - 1];
      if score[last] >= score[x] then
        AppendSmallest(xs, x, score);
        xs + [x]
      else
        var init := xs[..|xs| - 1];
        assert xs == init + [last];
        var r := InsertLast(x, init, score);
        AllAtLeast(r, init, x, score, score[last]);
        AppendSmallest(r, last, score);
        r + [last]
  }

  /** Every element of a rearrangement of `init` plus `x` scores at least
      `bound` when they all do. */
  lemma AllAtLeast(r: seq<string>, init: seq<string>, x: string, score: map<string, real>, bound: real)
    requires x in score && Scored(init, score) && Scored(r, score)
    requires multiset(r) == multiset(init) + multiset{x}
    requires score[x] >= bound
    requires forall i :: 0 <= i < |init| ==> score[init[i]] >= bound
    ensures forall i :: 0 <= i < |r| ==> score[r[i]] >= bound
  {
    forall i | 0 <= i < |r| ensures score[r[i]] >= bound {
      assert r[i] in multiset(r);
      if r[i] != x {
        assert r[i] in multiset(init);
        var j :| 0 <= j < |init| && init[j] == r[i];
      }
    }
  }

  /** Appending an element no larger than any other keeps the order. */
  lemma AppendSmallest(xs: seq<string>, y: string, score: map<string, real>)
    requires y in score && Scored(xs, score) && Nonincreasing(xs, score)
    requires forall i :: 0 <= i < |xs| ==> score[xs[i]] >= score[y]
    ensures Scored(xs + [y], score) && Nonincreasing(xs + [y], score)
  {
    var r := xs + [y];
    assert forall i :: 0 <= i < |xs| ==> r[i] == xs[i];
  }

  /** Python's order on `str`: character by character by code point, a
      proper prefix before the longer text. */
  predicate TextLe(a: string, b: string)
    decreases |a|
  {
    a == [] || (b != [] && (a[0] < b[0] || (a[0] == b[0] && TextLe(a[1..], b[1..]))))
  }

  /** Any two texts are ordered one way or the other. */
  lemma {:induction false} TextLeTotal(a: string, b: string)
    ensures TextLe(a, b) || TextLe(b, a)
    decreases |a|
  {
    if a != [] && b != [] && a[0] == b[0] {
      TextLeTotal(a[1..], b[1..]);
    }
  }

  /** The text order is transitive. */
  lemma {:induction false} TextLeTrans(a: string, b: string, c: string)
    requires TextLe(a, b) && TextLe(b, c)
    ensures TextLe(a, c)
    decreases |a|
  {
    if a != [] && a[0] == b[0] && b[0] == c[0] {
      TextLeTrans(a[1..], b[1..], c[1..]);
    }
  }

  /** Two texts each at most the other are equal. */
  lemma {:induction false} TextLeAntisymmetric(a: string, b: string)
    requires TextLe(a, b) && TextLe(b, a)
    ensures a == b
    decreases |a|
  {
    if a != [] {
      TextLeAntisymmetric(a[1..], b[1..]);
      assert a == [a[0]] + a[1..] && b == [b[0]] + b[1..];
    }
  }

  /** Digit texts of one length, such as four-digit years, compare as
      text exactly as the numbers they spell compare. */
  lemma {:induction false} YearTextOrder(a: string, b: string)
    requires |a| == |b| && AllDigits(a) && AllDigits(b)
    ensures TextLe(a, b) <==> DigitsValue(a) <= DigitsValue(b)
    decreases |a|
  {
    if a != [] {
      var n := |a| - 1;
      var ra, rb := a[1..], b[1..];
      assert AllDigits(ra) && AllDigits(rb) by {
        assert forall i :: 0 <= i < n ==> ra[i] == a[i + 1] && rb[i] == b[i + 1];
      }
      DigitsFront(a);
      DigitsFront(b);
      var da, db := a[0] as int - '0' as int, b[0] as int - '0' as int;
      assert IsDigit(a[0]) && IsDigit(b[0]);
      if da == db {
        YearTextOrder(ra, rb);
      } else if da < db {
        DigitsBound(ra);
        LeadingDigitDecides(da, db, DigitsValue(ra), DigitsValue(rb), Pow10(n));
      } else {
        DigitsBound(rb);
        LeadingDigitDecides(db, da, DigitsValue(rb), DigitsValue(ra), Pow10(n));
      }
    }
  }

  /** A smaller leading digit gives a smaller number whatever follows. */
  lemma LeadingDigitDecides(da: nat, db: nat, ra: nat, rb: nat, p: nat)
    requires da < db && ra < p
    ensures da * p + ra < db * p + rb
  {
    var k := db - da - 1;
    calc {
      db * p;
      (da + 1 + k) * p;
      da * p + p + k * p;
    }
    assert k * p >= 0;
  }

  /** A run of `k` digits spells less than `10^k`. */
  lemma {:induction false} DigitsBound(s: string)
    requires AllDigits(s)
    ensures DigitsValue(s) < Pow10(|s|)
    decreases |s|
  {
    if s != [] {
      var init := s[..|s| - 1];
      assert AllDigits(init) by {
        assert forall i :: 0 <= i < |init| ==> init[i] == s[i];
      }
      DigitsBound(init);
      assert IsDigit(s[|s| - 1]);
      assert DigitsValue(init) + 1 <= Pow10(|init|);
      assert DigitsValue(init) * 10 + 10 <= Pow10(|init|) * 10;
    }
  }

  /** The value of a digit run, read from its first digit. */
  lemma {:induction false} DigitsFront(s: string)
    requires AllDigits(s) && s != []
    ensures AllDigits(s[1..])
    ensures DigitsValue(s) == (s[0] as int - '0' as int) * Pow10(|s| - 1) + DigitsValue(s[1..])
    decreases |s|
  {
    assert forall i :: 0 <= i < |s| - 1 ==> s[1..][i] == s[i + 1];
    if |s| == 1 {
      assert s[..0] == [] && s[1..] == [];
    } else {
      var n := |s| - 1;
      var init := s[..n];
      assert AllDigits(init) by {
        assert forall i :: 0 <= i < n ==> init[i] == s[i];
      }
      DigitsFront(init);
      var d := s[0] as int - '0' as int;
      assert init[0] == s[0];
      assert init[1..] == s[1..][..n - 1];
      assert s[1..][n - 1] == s[n];
      var last := s[n] as int - '0' as int;
      assert DigitsValue(s[1..]) == DigitsValue(init[1..]) * 10 + last;
      assert DigitsValue(s) == DigitsValue(init) * 10 + last;
      ShiftLeading(d, Pow10(n - 1), DigitsValue(init[1..]), DigitsValue(init), last);
    }
  }

  /** Appending a digit multiplies the leading digit's place value by 10. */
  lemma ShiftLeading(d: int, p: int, rest: int, v: int, last: int)
    requires v == d * p + rest
    ensures v * 10 + last == d * (10 * p) + (rest * 10 + last)
  {
    calc {
      v * 10 + last;
      (d * p + rest) * 10 + last;
      d * p * 10 + rest * 10 + last;
      d * (10 * p) + (rest * 10 + last);
    }
  }

  /** Each text is at most the next one, and so at most every later one. */
  predicate Ascending(xs: seq<string>) {
    forall i, j :: 0 <= i < j < |xs| ==> TextLe(xs[i], xs[j])
  }

  /** `sort_index()` on a text index: the same texts, nothing lost and
      nothing repeated, in ascending order. */
  function SortText(xs: seq<string>): (r: seq<string>)
    ensures |r| == |xs| && multiset(r) == multiset(xs)
    ensures forall x :: x in r <==> x in xs
    ensures Ascending(r)
    ensures Distinct(xs) ==> Distinct(r)
    decreases |xs|
  {
    if xs == [] then []
    else
      var init, last := xs[..|xs| - 1], xs[|xs| - 1];
      assert xs == init + [last];
      var sorted := SortText(init);
      InitDistinct(xs);
      var r := InsertText(last, sorted);
      assert forall x :: x in r <==> x in multiset(r);
      assert forall x :: x in xs <==> x in multiset(xs);
      r
  }

  /** Inserting a text into an ascending sequence after every text at
      most it. */
  function InsertText(x: string, xs: seq<string>): (r: seq<string>)
    requires Ascending(xs)
    ensures |r| == |xs| + 1 && multiset(r) == multiset(xs) + multiset{x}
    ensures Ascending(r)
    ensures Distinct(xs) && x !in xs ==> Distinct(r)
    decreases |xs|
  {
    if xs == [] then [x]
    else
      var last := xs[|xs| - 1];
      if TextLe(last, x) then
        forall i | 0 <= i < |xs| ensures TextLe(xs[i], x) {
          if i < |xs| - 1 { TextLeTrans(xs[i], last, x); }
        }
        AppendLargest(xs, x);
        AppendNew(xs, x);
        xs + [x]
      else
        var init := xs[..|xs| - 1];
        assert xs == init + [last];
        TextLeTotal(last, x);
        var r := InsertText(x, init);
        AllAtMost(r, init, x, last);
        AppendLargest(r, last);
        InitDistinct(xs);
        AppendMissing(r, init, x, last);
        r + [last]
  }

  /** The last element of a sequence of distinct elements is not among
      the others, which are distinct too. */
  lemma InitDistinct<T>(xs: seq<T>)
    requires xs != []
    ensures Distinct(xs) ==> Distinct(xs[..|xs| - 1]) && xs[|xs| - 1] !in xs[..|xs| - 1]
  {
    var init := xs[..|xs| - 1];
    assert forall i :: 0 <= i < |init| ==> init[i] == xs[i];
  }

  /** A rearrangement of `init` plus `x` lacks any `y` that is neither. */
  lemma AppendMissing<T>(r: seq<T>, init: seq<T>, x: T, y: T)
    requires multiset(r) == multiset(init) + multiset{x}
    ensures Distinct(r) && y !in init && y != x ==> Distinct(r + [y])
  {
    if y !in init && y != x {
      assert y !in multiset(r);
      AppendNew(r, y);
    }
  }

  /** Appending an element not yet present keeps the elements distinct. */
  lemma AppendNew<T>(xs: seq<T>, y: T)
    ensures Distinct(xs) && y !in xs ==> Distinct(xs + [y])
  {
    var r := xs + [y];
    assert forall i :: 0 <= i < |xs| ==> r[i] == xs[i];
  }

  /** Every element of a rearrangement of `init` plus `x` is at most
      `bound` when they all are. */
  lemma AllAtMost(r: seq<string>, init: seq<string>, x: string, bound: string)
    requires multiset(r) == multiset(init) + multiset{x}
    requires TextLe(x, bound)
    requires forall i :: 0 <= i < |init| ==> TextLe(init[i], bound)
    ensures forall i :: 0 <= i < |r| ==> TextLe(r[i], bound)
  {
    forall i | 0 <= i < |r| ensures TextLe(r[i], bound) {
      assert r[i] in multiset(r);
      if r[i] != x {
        assert r[i] in multiset(init);
        var j :| 0 <= j < |init| && init[j] == r[i];
      }
    }
  }

  /** Appending a text no smaller than any other keeps the order. */
  lemma AppendLargest(xs: seq<string>, y: string)
    requires Ascending(xs)
    requires forall i :: 0 <= i < |xs| ==> TextLe(xs[i], y)
    ensures Ascending(xs + [y])
  {
    var r := xs + [y];
    assert forall i :: 0 <= i < |xs| ==> r[i] == xs[i];
  }
}
