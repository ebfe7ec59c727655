/** The year-by-sector tables the stacked charts are drawn from: a pivot
    whose index is the years and whose columns are the sectors, its
    columns picked out in stacking order, one year's row across them, and
    the shares of a year's total. */
module Frames {
  import opened Wrappers
  import opened Seqs
  import opened Ordering
  import opened GroupBy

  /** A pivoted table: one value per (year, sector), kept by column. */
  datatype Frame = Frame(index: seq<string>, columns: seq<string>, data: map<string, seq<real>>)

  ghost predicate WellFormed(f: Frame) {
    && Distinct(f.columns)
    && (forall c :: c in f.columns <==> c in f.data)
    && (forall c :: c in f.data ==> |f.data[c]| == |f.index|)
  }

  /** `pivot(index=year, columns=sector).fillna(0)`: each cell is the
      aggregated value of its (year, sector) pair, or 0 when no row had
      that pair. */
  function Pivot(cells: map<(string, string), real>, index: seq<string>, columns: seq<string>): (f: Frame)
    requires Distinct(columns)
    ensures WellFormed(f) && f.index == index && f.columns == columns
    ensures forall c, t :: c in columns && 0 <= t < |index| ==>
      f.data[c][t] == (if (index[t], c) in cells then cells[(index[t], c)] else 0.0)
  {
    Frame(index, columns,
      map c | c in columns :: seq(|index|, t requires 0 <= t < |index| => GetOr(cells, (index[t], c), 0.0)))
  }

  /** What a cell of a pivoted mean holds: the mean of its group's rows,
      or the fill value 0 when the group has none. */
  predicate MeanCell<K(==,!new)>(groups: seq<Row<K>>, k: K, v: real) {
    && IsMean(groups, k, v)
    && (GroupCount(groups, k) == 0 ==> v == 0.0)
  }

  /** `groupby([year, sector]).mean()` pivoted and filled with 0. */
  function MeanPivot(groups: seq<Row<(string, string)>>, index: seq<string>, columns: seq<string>): (f: Frame)
    requires Distinct(columns)
    ensures WellFormed(f) && f.index == index && f.columns == columns
    ensures forall c, t :: c in columns && 0 <= t < |index| ==> MeanCell(groups, (index[t], c), f.data[c][t])
  {
    var means := GroupMean(groups);
    var f := Pivot(means, index, columns);
    forall c, t | c in columns && 0 <= t < |index| ensures MeanCell(groups, (index[t], c), f.data[c][t]) {
      MeanOrFill(groups, means, (index[t], c));
    }
    f
  }

  /** A group's mean, or 0 for a key with no rows, is what a pivoted
      mean cell holds. */
  lemma MeanOrFill<K(!new)>(groups: seq<Row<K>>, means: map<K, real>, k: K)
    requires means == GroupMean(groups)
    ensures MeanCell(groups, k, if k in means then means[k] else 0.0)
  {
  }

  /** Every column of `cols` has `n` entries. */
  predicate Rect(cols: seq<seq<real>>, n: nat) {
    forall i :: 0 <= i < |cols| ==> |cols[i]| == n
  }

  /** `df[sectors].values.T`: the chosen columns, in the given order. */
  function Stack(f: Frame, sectors: seq<string>): (cols: seq<seq<real>>)
    requires WellFormed(f)
    requires forall s :: s in sectors ==> s in f.columns
    ensures |cols| == |sectors| && Rect(cols, |f.index|)
    ensures forall i :: 0 <= i < |sectors| ==> cols[i] == f.data[sectors[i]]
  {
    seq(|sectors|, i requires 0 <= i < |sectors| => f.data[sectors[i]])
  }

  /** `df.iloc[t]`: one year's values across the stacked columns. */
  function Across(cols: seq<seq<real>>, t: nat): (row: seq<real>)
    requires forall i :: 0 <= i < |cols| ==> t < |cols[i]|
    ensures |row| == |cols|
    ensures forall i :: 0 <= i < |cols| ==> row[i] == cols[i][t]
  {
    seq(|cols|, i requires 0 <= i < |cols| => cols[i][t])
  }

  /** The row across the first `n` columns is the first `n` entries of
      the row across all of them. */
  lemma AcrossPrefix(cols: seq<seq<real>>, t: nat, n: nat)
    requires n <= |cols|
    requires forall i :: 0 <= i < |cols| ==> t < |cols[i]|
    ensures Across(cols[..n], t) == Across(cols, t)[..n]
  {
    assert forall i :: 0 <= i < n ==> cols[..n][i] == cols[i];
  }

  /** Adding one more column to the running totals. */
  lemma AcrossStep(cols: seq<seq<real>>, t: nat, i: nat)
    requires i < |cols| && forall j :: 0 <= j < |cols| ==> t < |cols[j]|
    ensures Sum(Across(cols[..i + 1], t)) == Sum(Across(cols[..i], t)) + cols[i][t]
  {
    var a := Across(cols[..i + 1], t);
    assert a[..i] == Across(cols[..i], t);
  }

  /** `df[sectors].mean()`: each chosen sector's mean over the years. */
  function MeanScores(f: Frame, sectors: seq<string>): (m: map<string, real>)
    requires WellFormed(f) && |f.index| > 0
    requires forall s :: s in sectors ==> s in f.columns
    ensures forall s :: s in m <==> s in sectors
    ensures forall s :: s in m ==> m[s] * (|f.index| as real) == Sum(f.data[s])
  {
    map s | s in sectors :: Mean(f.data[s])
  }

  /** `df[sectors].mean().sort_values(ascending=False).index`: the chosen
      sectors rearranged by nonincreasing mean. */
  function StackOrder(f: Frame, sectors: seq<string>): (ordered: seq<string>)
    requires WellFormed(f) && |f.index| > 0
    requires forall s :: s in sectors ==> s in f.columns
    ensures multiset(ordered) == multiset(sectors)
    ensures forall s :: s in ordered ==> s in f.columns
    ensures Scored(ordered, MeanScores(f, sectors)) && Nonincreasing(ordered, MeanScores(f, sectors))
  {
    var ordered := SortByScoreDesc(sectors, MeanScores(f, sectors));
    assert forall s :: s in ordered ==> s in multiset(sectors);
    ordered
  }

  /** Sum of one year's values over all columns: `sum(axis=1)`. */
  function YearTotal(f: Frame, t: nat): real
    requires WellFormed(f) && t < |f.index|
  {
    Sum(Across(Stack(f, f.columns), t))
  }

  /** One value as a percentage of a total; `None` when the total is
      zero (the division gives NaN or an infinity there). */
  function ShareOf(value: real, total: real): (p: Option<real>)
    ensures p.Some? <==> total != 0.0
    ensures p.Some? ==> p.value * total == value * 100.0
  {
    if total == 0.0 then None else Some(value / total * 100.0)
  }

  /** `df.divide(df.sum(axis=1), axis=0) * 100`: each value as a
      percentage of its year's total. */
  function Shares(f: Frame): (g: map<string, seq<Option<real>>>)
    requires WellFormed(f)
    ensures forall c :: c in g <==> c in f.columns
    ensures forall c :: c in g ==> |g[c]| == |f.index|
    ensures forall c, t :: c in g && 0 <= t < |f.index| ==> g[c][t] == ShareOf(f.data[c][t], YearTotal(f, t))
  {
    map c | c in f.columns ::
      seq(|f.index|, t requires 0 <= t < |f.index| => ShareOf(f.data[c][t], YearTotal(f, t)))
  }

  /** The shares of one row of values, for a row with a nonzero total. */
  function RowShares(row: seq<real>): (r: seq<real>)
    requires Sum(row) != 0.0
    ensures |r| == |row|
    ensures forall j :: 0 <= j < |row| ==> ShareOf(row[j], Sum(row)) == Some(r[j])
  {
    seq(|row|, j requires 0 <= j < |row| => row[j] / Sum(row) * 100.0)
  }

  /** A row with a nonzero total has shares that add up to 100. */
  lemma RowSharesAddUp(row: seq<real>)
    requires Sum(row) != 0.0
    ensures Sum(RowShares(row)) == 100.0
  {
    var total := Sum(row);
    var s := RowShares(row);
    forall j | 0 <= j < |row| ensures s[j] == row[j] * (100.0 / total) {
      DivideOut(s[j], row[j], total);
    }
    SumScaled(row, s, 100.0 / total);
  }

  /** A year with a nonzero total has a share in every column, and its
      shares across the columns add up to 100. */
  lemma SharesAddUp(f: Frame, t: nat)
    requires WellFormed(f) && t < |f.index| && YearTotal(f, t) != 0.0
    ensures forall c :: c in f.columns ==> Shares(f)[c][t].Some?
    ensures Sum(seq(|f.columns|, i requires 0 <= i < |f.columns| => Shares(f)[f.columns[i]][t].value)) == 100.0
  {
    var g: map<string, seq<Option<real>>> := Shares(f);
    var row := Across(Stack(f, f.columns), t);
    var shares := seq(|f.columns|, i requires 0 <= i < |f.columns| => g[f.columns[i]][t].value);
    var r := RowShares(row);
    assert shares == r;
    RowSharesAddUp(row);
  }

  lemma DivideOut(share: real, value: real, total: real)
    requires total != 0.0 && share * total == value * 100.0
    ensures share == value * (100.0 / total)
  {
    calc {
      share;
      share * total / total;
      value * 100.0 / total;
    }
  }

  /** `df.max()` for one column of shares: the largest share of the
      years that have one (pandas skips NaN); `None` when no year has one. */
  function MaxShare(shares: seq<Option<real>>): (m: Option<real>)
    ensures m.None? <==> forall t :: 0 <= t < |shares| ==> shares[t].None?
    ensures m.Some? ==> forall t :: 0 <= t < |shares| && shares[t].Some? ==> shares[t].value <= m.value
    ensures m.Some? ==> exists t :: 0 <= t < |shares| && shares[t] == m
    decreases |shares|
  {
    if shares == [] then None
    else
      var init, last := shares[..|shares| - 1], shares[|shares| - 1];
      var m := MaxShare(init);
      assert forall t :: 0 <= t < |init| ==> shares[t] == init[t];
      match (m, last)
      case (None, _) => last
      case (Some(a), None) => m
      case (Some(a), Some(b)) => if b > a then last else m
  }
}
