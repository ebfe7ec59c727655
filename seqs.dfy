/** Sequence and number utilities shared by the scripts: sums, filtering,
    means, maxima, the first minimum, and dictionary lookups with a
    default. */
module Seqs {

  /** Sum of a sequence, accumulated from the front (the order in which
      `np.cumsum` and `Series.sum` add). */
  function Sum(s: seq<real>): real
    decreases |s|
  {
    if s == [] then 0.0 else Sum(s[..|s| - 1]) + s[|s| - 1]
  }

  lemma SumStep(s: seq<real>, i: nat)
    requires i < |s|
    ensures Sum(s[..i + 1]) == Sum(s[..i]) + s[i]
  {
    assert s[..i + 1][..i] == s[..i];
  }

  lemma {:induction false} SumAppend(s: seq<real>, t: seq<real>)
    ensures Sum(s + t) == Sum(s) + Sum(t)
    decreases |t|
  {
    if t == [] {
      assert s + t == s;
    } else {
      var t' := t[..|t| - 1];
      assert (s + t)[..|s + t| - 1] == s + t';
      SumAppend(s, t');
    }
  }

  /** Prefix sums of a sequence with no negative entry never decrease. */
  lemma {:induction false} SumPrefixMonotone(s: seq<real>, i: nat, j: nat)
    requires i <= j <= |s|
    requires forall k :: 0 <= k < |s| ==> s[k] >= 0.0
    ensures Sum(s[..i]) <= Sum(s[..j])
    decreases j - i
  {
    if i < j {
      SumStep(s, j - 1);
      SumPrefixMonotone(s, i, j - 1);
    }
  }

  /** Scaling every entry scales the sum. */
  lemma {:induction false} SumScaled(s: seq<real>, t: seq<real>, c: real)
    requires |t| == |s|
    requires forall k :: 0 <= k < |s| ==> t[k] == s[k] * c
    ensures Sum(t) == Sum(s) * c
    decreases |s|
  {
    if s != [] {
      SumScaled(s[..|s| - 1], t[..|t| - 1], c);
    }
  }

  /** The elements of `s` that `keep` accepts, in their original order
      (a boolean mask or a list comprehension with an `if`). */
  function Filter<T(!new)>(s: seq<T>, keep: T -> bool): (r: seq<T>)
    ensures |r| <= |s|
    ensures forall x :: x in r <==> x in s && keep(x)
    decreases |s|
  {
    if s == [] then []
    else
      var init := s[..|s| - 1];
      assert s == init + [s[|s| - 1]];
      Filter(init, keep) + (if keep(s[|s| - 1]) then [s[|s| - 1]] else [])
  }

  lemma {:induction false} FilterAppend<T(!new)>(s: seq<T>, t: seq<T>, keep: T -> bool)
    ensures Filter(s + t, keep) == Filter(s, keep) + Filter(t, keep)
    decreases |t|
  {
    if t == [] {
      assert s + t == s;
    } else {
      var t', x := t[..|t| - 1], t[|t| - 1];
      var tail := if keep(x) then [x] else [];
      assert t == t' + [x];
      assert s + t == (s + t') + [x];
      FilterSnoc(s + t', x, keep);
      FilterSnoc(t', x, keep);
      FilterAppend(s, t', keep);
      calc {
        Filter(s + t, keep);
        Filter(s + t', keep) + tail;
        (Filter(s, keep) + Filter(t', keep)) + tail;
        { AppendAssoc(Filter(s, keep), Filter(t', keep), tail); }
        Filter(s, keep) + (Filter(t', keep) + tail);
        Filter(s, keep) + Filter(t, keep);
      }
    }
  }

  lemma AppendAssoc<T>(a: seq<T>, b: seq<T>, c: seq<T>)
    ensures (a + b) + c == a + (b + c)
  {
  }

  /** Filtering a sequence with one more element at the end. */
  lemma FilterSnoc<T(!new)>(s: seq<T>, x: T, keep: T -> bool)
    ensures Filter(s + [x], keep) == Filter(s, keep) + (if keep(x) then [x] else [])
  {
    assert (s + [x])[..|s|] == s;
  }

  /** Two masks that agree on every element select the same elements. */
  lemma {:induction false} FilterExt<T(!new)>(s: seq<T>, f: T -> bool, g: T -> bool)
    requires forall x :: x in s ==> f(x) == g(x)
    ensures Filter(s, f) == Filter(s, g)
    decreases |s|
  {
    if s != [] {
      var init := s[..|s| - 1];
      assert forall x :: x in init ==> x in s;
      FilterExt(init, f, g);
    }
  }

  /** Filtering keeps every accepted element exactly as often as the
      input holds it, and no other element. */
  lemma {:induction false} FilterCount<T(!new)>(s: seq<T>, keep: T -> bool)
    ensures forall x :: multiset(Filter(s, keep))[x] == if keep(x) then multiset(s)[x] else 0
    decreases |s|
  {
    if s != [] {
      var init, x := s[..|s| - 1], s[|s| - 1];
      assert s == init + [x];
      FilterCount(init, keep);
    }
  }

  /** Arithmetic mean; pandas' `mean` of a non-empty group. */
  function Mean(s: seq<real>): (m: real)
    requires |s| > 0
    ensures m * (|s| as real) == Sum(s)
  {
    Sum(s) / (|s| as real)
  }

  /** The largest element (`Series.max`). */
  function MaxOf(s: seq<real>): (m: real)
    requires |s| > 0
    ensures forall k :: 0 <= k < |s| ==> s[k] <= m
    ensures exists k :: 0 <= k < |s| && s[k] == m
    decreases |s|
  {
    if |s| == 1 then s[0]
    else
      var m' := MaxOf(s[..|s| - 1]);
      if s[|s| - 1] > m' then s[|s| - 1] else m'
  }

  /** Index of the first smallest element (`np.argmin`). */
  function ArgMin(s: seq<real>): (k: nat)
    requires |s| > 0
    ensures k < |s|
    ensures forall j :: 0 <= j < |s| ==> s[k] <= s[j]
    ensures forall j :: 0 <= j < k ==> s[j] > s[k]
    decreases |s|
  {
    if |s| == 1 then 0
    else
      var k' := ArgMin(s[..|s| - 1]);
      if s[|s| - 1] < s[k'] then |s| - 1 else k'
  }

  function Abs(x: real): (r: real)
    ensures r >= 0.0 && (r == x || r == -x)
  {
    if x < 0.0 then -x else x
  }

  function Max(x: real, y: real): (r: real)
    ensures r >= x && r >= y && (r == x || r == y)
  {
    if x < y then y else x
  }

  predicate Distinct<T(==)>(s: seq<T>) {
    forall i, j :: 0 <= i < j < |s| ==> s[i] != s[j]
  }

  /** Position of the first occurrence of `c`. */
  function FirstIndex(s: string, c: char): (i: nat)
    requires c in s
    ensures i < |s| && s[i] == c && c !in s[..i]
    decreases |s|
  {
    if s[0] == c then 0
    else
      assert c in s[1..] by {
        var j :| 0 <= j < |s| && s[j] == c;
        assert s[1..][j - 1] == c;
      }
      var j := FirstIndex(s[1..], c);
      assert s[..j + 1] == [s[0]] + s[1..][..j];
      j + 1
  }

  /** `str.startswith`. */
  predicate StartsWith(s: string, prefix: string) {
    |prefix| <= |s| && s[..|prefix|] == prefix
  }

  /** `dict.get(key, default)`. */
  function GetOr<K, V>(m: map<K, V>, key: K, default: V): (r: V)
    ensures key in m ==> r == m[key]
    ensures key !in m ==> r == default
  {
    if key in m then m[key] else default
  }

  /** Sum of the values a map holds for the listed keys, in list order
      (a key the map lacks counts as zero). */
  function SumOver<K>(keys: seq<K>, m: map<K, real>): real
    decreases |keys|
  {
    if keys == [] then 0.0
    else SumOver(keys[..|keys| - 1], m) + GetOr(m, keys[|keys| - 1], 0.0)
  }

  /** Scaling every listed value scales their sum. */
  lemma {:induction false} SumOverScaled<K>(keys: seq<K>, m: map<K, real>, m': map<K, real>, c: real)
    requires forall k :: k in keys ==> k in m && k in m' && m'[k] == m[k] * c
    ensures SumOver(keys, m') == SumOver(keys, m) * c
    decreases |keys|
  {
    if keys != [] {
      var init := keys[..|keys| - 1];
      assert forall k :: k in init ==> k in keys;
      SumOverScaled(init, m, m', c);
    }
  }

  /** Maps that agree on the listed keys give the same sum over them. */
  lemma {:induction false} SumOverAgree<K>(keys: seq<K>, m: map<K, real>, m': map<K, real>)
    requires forall k :: k in keys ==> GetOr(m', k, 0.0) == GetOr(m, k, 0.0)
    ensures SumOver(keys, m') == SumOver(keys, m)
    decreases |keys|
  {
    if keys != [] {
      var init := keys[..|keys| - 1];
      assert forall k :: k in init ==> k in keys;
      SumOverAgree(init, m, m');
    }
  }

  /** Raising the value of one key that the list holds exactly once
      raises the sum by the same amount. */
  lemma {:induction false} SumOverBump<K>(keys: seq<K>, m: map<K, real>, key: K, delta: real)
    requires Distinct(keys) && key in keys && key in m
    ensures SumOver(keys, m[key := m[key] + delta]) == SumOver(keys, m) + delta
    decreases |keys|
  {
    var m' := m[key := m[key] + delta];
    var init := keys[..|keys| - 1];
    var last := keys[|keys| - 1];
    if last == key {
      assert forall i :: 0 <= i < |init| ==> init[i] != key by {
        forall i | 0 <= i < |init| ensures init[i] != key {
          assert init[i] == keys[i];
        }
      }
      SumOverAgree(init, m, m');
    } else {
      assert key in init;
      assert Distinct(init);
      SumOverBump(init, m, key, delta);
    }
  }

  /** Splitting the listed keys in two splits their sum. */
  lemma {:induction false} SumOverAppend<K>(a: seq<K>, b: seq<K>, m: map<K, real>)
    ensures SumOver(a + b, m) == SumOver(a, m) + SumOver(b, m)
    decreases |b|
  {
    if b != [] {
      var init := b[..|b| - 1];
      assert (a + b)[..|a + b| - 1] == a + init;
      SumOverAppend(a, init, m);
    } else {
      assert a + b == a;
    }
  }

  /** The sum over a list of keys does not depend on their order. */
  lemma {:induction false} SumOverPermutation<K>(a: seq<K>, b: seq<K>, m: map<K, real>)
    requires multiset(a) == multiset(b)
    ensures SumOver(a, m) == SumOver(b, m)
    decreases |a|
  {
    if a == [] {
      assert |b| == |multiset(b)| == 0;
    } else {
      var init, x := a[..|a| - 1], a[|a| - 1];
      assert a == init + [x];
      assert x in multiset(b);
      var j :| 0 <= j < |b| && b[j] == x;
      var rest := b[..j] + b[j + 1..];
      RemoveMatching(init, x, b, j);
      SumOverPermutation(init, rest, m);
      SumOverRemove(b, j, m);
    }
  }

  /** Taking the same element out of two permutations of each other
      leaves permutations of each other. */
  lemma RemoveMatching<K>(init: seq<K>, x: K, b: seq<K>, j: nat)
    requires j < |b| && b[j] == x && multiset(init + [x]) == multiset(b)
    ensures multiset(b[..j] + b[j + 1..]) == multiset(init)
  {
    assert b == b[..j] + [x] + b[j + 1..];
    assert multiset(b) == multiset(b[..j]) + multiset{x} + multiset(b[j + 1..]);
    assert multiset(init + [x]) == multiset(init) + multiset{x};
    var rest := b[..j] + b[j + 1..];
    assert multiset(rest) == multiset(b[..j]) + multiset(b[j + 1..]);
    forall y ensures multiset(rest)[y] == multiset(init)[y] {
      assert multiset(init + [x])[y] == multiset(b)[y];
    }
  }

  /** Taking one key out of the list takes its value out of the sum. */
  lemma SumOverRemove<K>(b: seq<K>, j: nat, m: map<K, real>)
    requires j < |b|
    ensures SumOver(b, m) == SumOver(b[..j] + b[j + 1..], m) + GetOr(m, b[j], 0.0)
  {
    var x := b[j];
    assert b == b[..j] + [x] + b[j + 1..];
    SumOverAppend(b[..j] + [x], b[j + 1..], m);
    SumOverAppend(b[..j], [x], m);
    SumOverAppend(b[..j], b[j + 1..], m);
    assert SumOver([x], m) == GetOr(m, x, 0.0) by {
      assert [x][..0] == [];
    }
  }

  /** `sep.join(parts)`. */
  function Join(parts: seq<string>, sep: char): (s: string)
    ensures |parts| == 1 ==> s == parts[0]
    decreases |parts|
  {
    if parts == [] then ""
    else if |parts| == 1 then parts[0]
    else parts[0] + [sep] + Join(parts[1..], sep)
  }

  /** `s.split(sep)`: the pieces between the separators, always at least
      one. */
  function Split(s: string, sep: char): (parts: seq<string>)
    ensures |parts| > 0
    decreases |s|
  {
    if sep in s then
      var i := FirstIndex(s, sep);
      [s[..i]] + Split(s[i + 1..], sep)
    else [s]
  }

  /** Splitting what was joined gives back the parts, as long as no part
      holds the separator. */
  lemma {:induction false} SplitJoin(parts: seq<string>, sep: char)
    requires |parts| > 0
    requires forall i :: 0 <= i < |parts| ==> sep !in parts[i]
    ensures Split(Join(parts, sep), sep) == parts
    decreases |parts|
  {
    if |parts| > 1 {
      var head, tail := parts[0], parts[1..];
      var rest := Join(tail, sep);
      var s := head + [sep] + rest;
      assert Join(parts, sep) == s;
      FirstIndexAfter(head, sep, rest);
      assert s[..|head|] == head;
      assert s[|head| + 1..] == rest;
      assert Split(s, sep) == [head] + Split(rest, sep);
      assert forall i :: 0 <= i < |tail| ==> tail[i] == parts[i + 1];
      SplitJoin(tail, sep);
      assert parts == [head] + tail;
    }
  }

  /** The first separator of `head + [sep] + rest` is the one after
      `head`, when `head` has none. */
  lemma FirstIndexAfter(head: string, sep: char, rest: string)
    requires sep !in head
    ensures sep in head + [sep] + rest && FirstIndex(head + [sep] + rest, sep) == |head|
  {
    var s := head + [sep] + rest;
    assert s[|head|] == sep;
    FirstIndexIs(s, sep, |head|);
  }

  /** A position holding `c` with no `c` before it is the first index. */
  lemma FirstIndexIs(s: string, c: char, k: nat)
    requires k < |s| && s[k] == c
    requires forall j :: 0 <= j < k ==> s[j] != c
    ensures c in s && FirstIndex(s, c) == k
  {
    var i := FirstIndex(s, c);
    assert forall j :: 0 <= j < i ==> s[..i][j] == s[j];
  }

  /** `r` keeps some of the elements of `s`, in their order in `s`. */
  predicate Subsequence<T(==)>(r: seq<T>, s: seq<T>)
    decreases |s|
  {
    if r == [] then true
    else if s == [] then false
    else if r[|r| - 1] == s[|s| - 1] then Subsequence(r[..|r| - 1], s[..|s| - 1])
    else Subsequence(r, s[..|s| - 1])
  }
}
