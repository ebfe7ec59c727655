/** The set meaning of the pandas aggregations the scripts use:
    `groupby(key)[col].sum()` and `.mean()` over rows whose key may be
    missing (rows with a missing key fall out of every group), and the
    inner merge of two keyed aggregates. */
module GroupBy {
  import opened Wrappers
  import opened Seqs

  /** One data row as an aggregation sees it: its group key (missing
      when the key column is NaN) and the value being aggregated. */
  datatype Row<K> = Row(key: Option<K>, value: real)

  /** The keys that occur in the rows. */
  function KeysOf<K(==,!new)>(rows: seq<Row<K>>): set<K>
    decreases |rows|
  {
    if rows == [] then {}
    else
      var init, last := rows[..|rows| - 1], rows[|rows| - 1];
      KeysOf(init) + (if last.key.Some? then {last.key.value} else {})
  }

  /** A key is among the keys exactly when some row carries it. */
  lemma {:induction false} KeysOfRows<K(!new)>(rows: seq<Row<K>>, k: K)
    ensures k in KeysOf(rows) <==> exists i :: 0 <= i < |rows| && rows[i].key == Some(k)
    decreases |rows|
  {
    if rows != [] {
      var init := rows[..|rows| - 1];
      KeysOfRows(init, k);
      if k in KeysOf(init) {
        var i :| 0 <= i < |init| && init[i].key == Some(k);
        assert rows[i] == init[i];
      } else if exists i :: 0 <= i < |rows| && rows[i].key == Some(k) {
        var i :| 0 <= i < |rows| && rows[i].key == Some(k);
        if i < |init| {
          assert init[i] == rows[i];
        }
      }
    }
  }

  /** Sum of the values of the rows with key `k`. */
  function GroupTotal<K(==,!new)>(rows: seq<Row<K>>, k: K): (t: real)
    ensures k !in KeysOf(rows) ==> t == 0.0
    decreases |rows|
  {
    if rows == [] then 0.0
    else
      var init, last := rows[..|rows| - 1], rows[|rows| - 1];
      GroupTotal(init, k) + (if last.key == Some(k) then last.value else 0.0)
  }

  /** Number of rows with key `k`. */
  function GroupCount<K(==,!new)>(rows: seq<Row<K>>, k: K): (c: nat)
    ensures c > 0 <==> k in KeysOf(rows)
    decreases |rows|
  {
    if rows == [] then 0
    else
      var init, last := rows[..|rows| - 1], rows[|rows| - 1];
      GroupCount(init, k) + (if last.key == Some(k) then 1 else 0)
  }

  /** Sum of the values of every row that has a key. */
  function KeyedTotal<K(==,!new)>(rows: seq<Row<K>>): real
    decreases |rows|
  {
    if rows == [] then 0.0
    else
      var init, last := rows[..|rows| - 1], rows[|rows| - 1];
      KeyedTotal(init) + (if last.key.Some? then last.value else 0.0)
  }

  /** `groupby(key).sum()`, accumulated row by row into a dictionary:
      one entry per key that occurs, holding the total of its rows. */
  function GroupSum<K(==,!new)>(rows: seq<Row<K>>): (m: map<K, real>)
    ensures m.Keys == KeysOf(rows)
    ensures forall k :: k in m ==> m[k] == GroupTotal(rows, k)
    decreases |rows|
  {
    if rows == [] then map[]
    else
      var init, last := rows[..|rows| - 1], rows[|rows| - 1];
      var m := GroupSum(init);
      match last.key
      case None => m
      case Some(k) => m[k := GetOr(m, k, 0.0) + last.value]
  }

  /** `groupby(key).mean()`: one entry per key that occurs, holding the
      mean of its rows. */
  function GroupMean<K(==,!new)>(rows: seq<Row<K>>): (m: map<K, real>)
    ensures forall k :: k in m <==> k in KeysOf(rows)
    ensures forall k :: k in m ==> IsMean(rows, k, m[k])
  {
    map k | k in KeysOf(rows) :: MeanOf(rows, k)
  }

  /** `v` is a mean of the rows with key `k`: times their number, it
      gives their total. */
  predicate IsMean<K(==,!new)>(rows: seq<Row<K>>, k: K, v: real) {
    v * (GroupCount(rows, k) as real) == GroupTotal(rows, k)
  }

  /** Mean of the rows with key `k`. */
  function MeanOf<K(==,!new)>(rows: seq<Row<K>>, k: K): (q: real)
    requires k in KeysOf(rows)
    ensures IsMean(rows, k, q)
  {
    var c := GroupCount(rows, k) as real;
    assert c > 0.0;
    GroupTotal(rows, k) / c
  }

  /** The keys in order of first appearance, each once. */
  function KeyOrder<K(==,!new)>(rows: seq<Row<K>>): (ks: seq<K>)
    ensures Distinct(ks)
    ensures forall k :: k in ks <==> k in KeysOf(rows)
    decreases |rows|
  {
    if rows == [] then []
    else
      var init, last := rows[..|rows| - 1], rows[|rows| - 1];
      var ks := KeyOrder(init);
      match last.key
      case None => ks
      case Some(k) =>
        if k in ks then ks
        else
          assert forall i :: 0 <= i < |ks| ==> (ks + [k])[i] == ks[i] && ks[i] != k;
          ks + [k]
  }

  /** The group sums add up to the total of the keyed rows: grouping
      loses and duplicates nothing. */
  lemma {:induction false} GroupSumsAddUp<K(!new)>(rows: seq<Row<K>>)
    ensures SumOver(KeyOrder(rows), GroupSum(rows)) == KeyedTotal(rows)
    decreases |rows|
  {
    if rows != [] {
      var init, last := rows[..|rows| - 1], rows[|rows| - 1];
      GroupSumsAddUp(init);
      if last.key.Some? {
        KeyedStep(rows);
        AddToSum(KeyOrder(init), GroupSum(init), KeyOrder(rows), GroupSum(rows), last.key.value, last.value);
      } else {
        assert KeyOrder(rows) == KeyOrder(init) && GroupSum(rows) == GroupSum(init);
      }
    }
  }

  /** Aggregating a keyed last row, unfolded once. */
  lemma KeyedStep<K(!new)>(rows: seq<Row<K>>)
    requires rows != [] && rows[|rows| - 1].key.Some?
    ensures var init, last := rows[..|rows| - 1], rows[|rows| - 1];
      var k := last.key.value;
      && KeyOrder(rows) == (if k in KeyOrder(init) then KeyOrder(init) else KeyOrder(init) + [k])
      && GroupSum(rows) == GroupSum(init)[k := GetOr(GroupSum(init), k, 0.0) + last.value]
      && (k in KeyOrder(init) <==> k in GroupSum(init))
  {
  }

  /** Adding `v` to the entry of `k` (a new entry when absent), and
      listing `k` when it is not yet listed, raises the sum by `v`. */
  lemma AddToSum<K>(ks0: seq<K>, m0: map<K, real>, ks1: seq<K>, m1: map<K, real>, k: K, v: real)
    requires Distinct(ks0) && (k in ks0 <==> k in m0)
    requires ks1 == if k in ks0 then ks0 else ks0 + [k]
    requires m1 == m0[k := GetOr(m0, k, 0.0) + v]
    ensures SumOver(ks1, m1) == SumOver(ks0, m0) + v
  {
    if k in ks0 {
      assert m1 == m0[k := m0[k] + v];
      SumOverBump(ks0, m0, k, v);
    } else {
      assert m1 == m0[k := v];
      NewKey(ks0, m0, k, v);
    }
  }

  /** Adding an entry for a key the list lacks, and appending that key,
      raises the sum by the entry. */
  lemma NewKey<K>(ks: seq<K>, m: map<K, real>, k: K, v: real)
    requires k !in ks && k !in m
    ensures SumOver(ks + [k], m[k := v]) == SumOver(ks, m) + v
  {
    var m' := m[k := v];
    assert forall j :: j in ks ==> GetOr(m', j, 0.0) == GetOr(m, j, 0.0);
    SumOverAgree(ks, m, m');
    assert (ks + [k])[..|ks|] == ks;
  }

  /** `pd.merge(left, right, on=key, how='inner')`: the keys present on
      both sides, each with its left and right value. */
  function InnerJoin<K(==,!new)>(left: map<K, real>, right: map<K, real>): (m: map<K, (real, real)>)
    ensures forall k :: k in m <==> k in left && k in right
    ensures forall k :: k in m ==> m[k] == (left[k], right[k])
  {
    map k | k in left.Keys * right.Keys :: (left[k], right[k])
  }
}
