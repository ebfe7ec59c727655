/** The employment-by-sector stacked chart for one sex: the quarterly
    sector shares and the quarterly total employment are cleaned and
    averaged per year, the shares are turned into absolute counts, the
    sectors are split at 3 %, and each chart's labels are placed by the
    loops of `plot_sector_stackplot_with_labels`. */
module EmploymentOverTime {
  import opened Wrappers
  import opened Seqs
  import opened Cleaning
  import opened Colors
  import opened Sectors
  import opened GroupBy
  import opened Ordering
  import opened Frames
  import opened Stacking

  /** English words for the `Sexo` values, used in the chart titles. */
  const SexTitles: map<string, string> :=
    map["Mujeres" := "Women", "Hombres" := "Men", "Ambos sexos" := "Both sexes"]

  /** The title word for a `Sexo` value; an unknown value is used as it is. */
  function SexTitle(sexo: string): (t: string)
    ensures sexo in SexTitles ==> t == SexTitles[sexo]
    ensures sexo !in SexTitles ==> t == sexo
  {
    GetOr(SexTitles, sexo, sexo)
  }

  /** One line of either input table. */
  datatype Record = Record(sector: Option<string>, sexo: string, unidad: string, periodo: string, total: string)

  /** A record with its `Total` converted. */
  datatype Cleaned = Cleaned(rec: Record, value: Option<real>)

  /** `Periodo.str[:4]`: the year part of a quarter such as `2023T4`. */
  function Year(periodo: string): (y: string)
    ensures y <= periodo
    ensures |y| == if |periodo| < 4 then |periodo| else 4
  {
    if |periodo| < 4 then periodo else periodo[..4]
  }

  /** `cs` is `recs` with each `Total` converted by `clean`, row for row:
      nothing dropped, added or reordered. */
  predicate CleanedFrom(cs: seq<Cleaned>, recs: seq<Record>, clean: string -> Result<Option<real>>) {
    && |cs| == |recs|
    && forall i :: 0 <= i < |recs| ==>
      clean(recs[i].total).Ok? && cs[i] == Cleaned(recs[i], clean(recs[i].total).value)
  }

  /** Converts the `Total` of every record with `clean`; one failure fails
      the whole column, as `astype(float)` raises. */
  function CleanAll(records: seq<Record>, clean: string -> Result<Option<real>>): (r: Result<seq<Cleaned>>)
    ensures r.Ok? <==> forall x :: x in records ==> clean(x.total).Ok?
    ensures r.Ok? ==> CleanedFrom(r.value, records, clean)
    ensures r.Ok? ==> forall c :: c in r.value <==>
      c.rec in records && clean(c.rec.total).Ok? && c.value == clean(c.rec.total).value
  {
    var convert := (x: Record) =>
      match clean(x.total)
      case Ok(v) => Ok(Cleaned(x, v))
      case Err(e) => Err(e);
    TryMapMembers(records, convert);
    var r := TryMap(records, convert);
    if r.Ok? then
      assert forall c: Cleaned :: c in r.value ==> c.rec in records && clean(c.rec.total).Ok? && c.value == clean(c.rec.total).value;
      assert forall c: Cleaned :: c.rec in records && clean(c.rec.total).Ok? && c.value == clean(c.rec.total).value ==> convert(c.rec).Ok? && c == convert(c.rec).value;
      r
    else r
  }

  /** The cleaned rows whose record passes `keep`, in their order. */
  function KeepCleaned(cs: seq<Cleaned>, keep: Record -> bool): seq<Cleaned> {
    Filter(cs, (c: Cleaned) => keep(c.rec))
  }

  /** Cleaning then filtering on the record gives the cleaned rows of the
      filtered records, row for row. */
  lemma {:induction false} KeepCleanedFrom(cs: seq<Cleaned>, recs: seq<Record>,
                                           clean: string -> Result<Option<real>>, keep: Record -> bool)
    requires CleanedFrom(cs, recs, clean)
    ensures CleanedFrom(KeepCleaned(cs, keep), Filter(recs, keep), clean)
    decreases |recs|
  {
    if recs != [] {
      var n := |recs| - 1;
      var ci, ri := cs[..n], recs[..n];
      assert CleanedFrom(ci, ri, clean) by {
        forall i | 0 <= i < n ensures ci[i] == cs[i] && ri[i] == recs[i] { }
      }
      KeepCleanedFrom(ci, ri, clean, keep);
      assert cs == ci + [cs[n]] && recs == ri + [recs[n]];
      var tail, rtail := if keep(recs[n]) then [cs[n]] else [], if keep(recs[n]) then [recs[n]] else [];
      assert KeepCleaned(cs, keep) == KeepCleaned(ci, keep) + tail;
      assert Filter(recs, keep) == Filter(ri, keep) + rtail;
      CleanedFromAppend(KeepCleaned(ci, keep), Filter(ri, keep), tail, rtail, clean);
    }
  }

  lemma CleanedFromAppend(a: seq<Cleaned>, ra: seq<Record>, b: seq<Cleaned>, rb: seq<Record>,
                          clean: string -> Result<Option<real>>)
    requires CleanedFrom(a, ra, clean) && CleanedFrom(b, rb, clean)
    ensures CleanedFrom(a + b, ra + rb, clean)
  {
    var c, rc := a + b, ra + rb;
    forall i | 0 <= i < |rc| ensures clean(rc[i].total).Ok? && c[i] == Cleaned(rc[i], clean(rc[i].total).value) {
      if i < |ra| {
        assert c[i] == a[i] && rc[i] == ra[i];
      } else {
        assert c[i] == b[i - |ra|] && rc[i] == rb[i - |ra|];
      }
    }
  }

  /** A share row of the chosen sex. */
  predicate ShareSelected(sexo: string, x: Record) {
    x.sexo == sexo && x.unidad == "Porcentaje"
  }

  function ShareFilter(sexo: string): Record -> bool {
    x => ShareSelected(sexo, x)
  }

  /** The share filter: the records of the sex in percentage units, each
      as often as in the input, in input order. */
  function ShareRecords(records: seq<Record>, sexo: string): (kept: seq<Record>)
    ensures forall x :: x in kept <==> x in records && ShareSelected(sexo, x)
    ensures forall x :: multiset(kept)[x] == if ShareSelected(sexo, x) then multiset(records)[x] else 0
  {
    FilterCount(records, ShareFilter(sexo));
    Filter(records, ShareFilter(sexo))
  }

  /** The share rows of the chosen sex: every `Total` is cleaned first,
      so a malformed share in any row, of any sex, stops the script; then
      the rows are filtered. */
  function PercentageRows(records: seq<Record>, sexo: string): (r: Result<seq<Cleaned>>)
    ensures r.Ok? <==> forall x :: x in records ==> CleanPercentage(x.total).Ok?
    ensures r.Ok? ==> CleanedFrom(r.value, ShareRecords(records, sexo), CleanPercentage)
  {
    match CleanAll(records, CleanPercentage)
    case Err(e) => Err(e)
    case Ok(cs) =>
      KeepCleanedFrom(cs, records, CleanPercentage, ShareFilter(sexo));
      Ok(KeepCleaned(cs, ShareFilter(sexo)))
  }

  /** The (year, sector) group of a cleaned row; rows without a sector or
      without a value take part in no mean. */
  function ShareRow(c: Cleaned): Row<(string, string)> {
    if c.rec.sector.Some? && c.value.Some? then Row(Some((Year(c.rec.periodo), c.rec.sector.value)), c.value.value)
    else Row(None, 0.0)
  }

  function YearRow(c: Cleaned): Row<string> {
    Row(if c.rec.sector.Some? then Some(Year(c.rec.periodo)) else None, 0.0)
  }

  function SectorRow(c: Cleaned): Row<string> {
    Row(c.rec.sector, 0.0)
  }

  function ShareGroups(rows: seq<Cleaned>): seq<Row<(string, string)>> {
    seq(|rows|, i requires 0 <= i < |rows| => ShareRow(rows[i]))
  }

  /** `groupby(['Year', sector]).mean()` pivoted with years as rows and
      sectors as columns, both in ascending text order as `pivot` and
      `sort_index()` leave them, gaps filled with 0.  The years and the sectors
      are those of the rows that have a sector; a cell holds the mean of
      the values present for its pair, or 0 when there are none. */
  function SharePivot(rows: seq<Cleaned>): (f: Frame)
    ensures WellFormed(f)
    ensures Ascending(f.index) && Ascending(f.columns)
    ensures forall s, t :: s in f.columns && 0 <= t < |f.index| ==>
      MeanCell(ShareGroups(rows), (f.index[t], s), f.data[s][t])
  {
    var years := SortText(KeyOrder(seq(|rows|, i requires 0 <= i < |rows| => YearRow(rows[i]))));
    var sectors := SortText(KeyOrder(seq(|rows|, i requires 0 <= i < |rows| => SectorRow(rows[i]))));
    MeanPivot(ShareGroups(rows), years, sectors)
  }

  /** The years of a share pivot are exactly those of the rows that
      have a sector. */
  lemma SharePivotYears(rows: seq<Cleaned>, y: string)
    ensures y in SharePivot(rows).index <==>
      exists i :: 0 <= i < |rows| && rows[i].rec.sector.Some? && Year(rows[i].rec.periodo) == y
  {
    var yr := seq(|rows|, i requires 0 <= i < |rows| => YearRow(rows[i]));
    KeysOfRows(yr, y);
    if exists i :: 0 <= i < |rows| && rows[i].rec.sector.Some? && Year(rows[i].rec.periodo) == y {
      var i :| 0 <= i < |rows| && rows[i].rec.sector.Some? && Year(rows[i].rec.periodo) == y;
      assert yr[i].key == Some(y);
    }
    if exists i :: 0 <= i < |yr| && yr[i].key == Some(y) {
      var i :| 0 <= i < |yr| && yr[i].key == Some(y);
      assert rows[i].rec.sector.Some? && Year(rows[i].rec.periodo) == y;
    }
  }

  /** The sectors of a share pivot are exactly those of the rows. */
  lemma SharePivotSectors(rows: seq<Cleaned>, sector: string)
    ensures sector in SharePivot(rows).columns <==>
      exists i :: 0 <= i < |rows| && rows[i].rec.sector == Some(sector)
  {
    var sr := seq(|rows|, i requires 0 <= i < |rows| => SectorRow(rows[i]));
    KeysOfRows(sr, sector);
    if exists i :: 0 <= i < |rows| && rows[i].rec.sector == Some(sector) {
      var i :| 0 <= i < |rows| && rows[i].rec.sector == Some(sector);
      assert sr[i].key == Some(sector);
    }
  }

  /** A total-employment row of the chosen sex in absolute units. */
  predicate AbsoluteSelected(sexo: string, r: Record) {
    r.sector == Some("Total") && r.sexo == sexo && r.unidad == "Valor absoluto"
  }

  /** The total-employment filter: the records of the sex for the whole
      economy in absolute units, each as often as in the input, in input
      order. */
  function TotalRecords(records: seq<Record>, sexo: string): (kept: seq<Record>)
    ensures forall x :: x in kept <==> x in records && AbsoluteSelected(sexo, x)
    ensures forall x :: multiset(kept)[x] == if AbsoluteSelected(sexo, x) then multiset(records)[x] else 0
  {
    var keep := x => AbsoluteSelected(sexo, x);
    FilterCount(records, keep);
    Filter(records, keep)
  }

  /** The total-employment rows of the chosen sex: filtered first, then
      cleaned, so only a malformed count in a selected row stops the
      script. */
  function AbsoluteRows(records: seq<Record>, sexo: string): (r: Result<seq<Cleaned>>)
    ensures r.Ok? <==> forall x :: x in records && AbsoluteSelected(sexo, x) ==> CleanAbsoluteCount(x.total).Ok?
    ensures r.Ok? ==> CleanedFrom(r.value, TotalRecords(records, sexo), CleanAbsoluteCount)
  {
    CleanAll(TotalRecords(records, sexo), CleanAbsoluteCount)
  }

  /** The year group of a total-employment row; a missing count takes
      part in no mean. */
  function TotalRow(c: Cleaned): Row<string> {
    if c.value.Some? then Row(Some(Year(c.rec.periodo)), c.value.value) else Row(None, 0.0)
  }

  function TotalGroups(rows: seq<Cleaned>): seq<Row<string>> {
    seq(|rows|, i requires 0 <= i < |rows| => TotalRow(rows[i]))
  }

  /** `groupby('Year')['Total'].mean()`: the mean quarterly total of every
      year that has at least one count. */
  function AnnualTotals(rows: seq<Cleaned>): (m: map<string, real>)
    ensures forall y :: y in m <==> GroupCount(TotalGroups(rows), y) > 0
    ensures forall y :: y in m ==> m[y] * (GroupCount(TotalGroups(rows), y) as real) == GroupTotal(TotalGroups(rows), y)
  {
    GroupMean(TotalGroups(rows))
  }

  /** `pivot_pct.mul(annual_total, axis=0) / 100`: each share of a year
      applied to that year's total.  A year without a total would give a
      row of NaN; the model stops there with `None`. */
  function PercentToAbsolute(pct: Frame, totals: map<string, real>): (r: Option<Frame>)
    requires WellFormed(pct)
    ensures r.None? <==> exists t :: 0 <= t < |pct.index| && pct.index[t] !in totals
    ensures r.Some? ==> WellFormed(r.value) && r.value.index == pct.index && r.value.columns == pct.columns
    ensures r.Some? ==> forall c, t :: c in pct.columns && 0 <= t < |pct.index| ==>
      r.value.data[c][t] * 100.0 == pct.data[c][t] * totals[pct.index[t]]
  {
    if exists t :: 0 <= t < |pct.index| && pct.index[t] !in totals then None
    else
      Some(Frame(pct.index, pct.columns,
        map c | c in pct.columns ::
          seq(|pct.index|, t requires 0 <= t < |pct.index| => pct.data[c][t] * totals[pct.index[t]] / 100.0)))
  }

  /** When a year's shares add up to 100, its absolute values add up to
      that year's total. */
  lemma AbsoluteAddsUp(pct: Frame, totals: map<string, real>, t: nat)
    requires WellFormed(pct) && t < |pct.index| && PercentToAbsolute(pct, totals).Some?
    requires Sum(Across(Stack(pct, pct.columns), t)) == 100.0
    ensures Sum(Across(Stack(PercentToAbsolute(pct, totals).value, pct.columns), t)) == totals[pct.index[t]]
  {
    var f := PercentToAbsolute(pct, totals).value;
    AbsoluteRowTotal(pct, f, totals[pct.index[t]], t);
  }

  /** One year of a frame whose cells are that year's shares of `total`. */
  lemma AbsoluteRowTotal(pct: Frame, f: Frame, total: real, t: nat)
    requires WellFormed(pct) && WellFormed(f) && f.columns == pct.columns && f.index == pct.index
    requires t < |pct.index| && Sum(Across(Stack(pct, pct.columns), t)) == 100.0
    requires forall c :: c in pct.columns ==> f.data[c][t] * 100.0 == pct.data[c][t] * total
    ensures Sum(Across(Stack(f, pct.columns), t)) == total
  {
    var shares := Across(Stack(pct, pct.columns), t);
    var counts := Across(Stack(f, pct.columns), t);
    forall j | 0 <= j < |shares| ensures counts[j] * 100.0 == shares[j] * total {
      var c := pct.columns[j];
      assert counts[j] == f.data[c][t] && shares[j] == pct.data[c][t];
    }
    ScaledRowTotal(shares, counts, total);
  }

  /** Counts that are shares of a total, for shares adding up to 100,
      add up to the total. */
  lemma ScaledRowTotal(shares: seq<real>, counts: seq<real>, total: real)
    requires |counts| == |shares| && Sum(shares) == 100.0
    requires forall j :: 0 <= j < |shares| ==> counts[j] * 100.0 == shares[j] * total
    ensures Sum(counts) == total
  {
    var unit := total / 100.0;
    forall j | 0 <= j < |shares| ensures counts[j] == shares[j] * unit {
      Rescale(counts[j], shares[j], total);
    }
    SumScaled(shares, counts, unit);
    assert Sum(counts) == 100.0 * unit;
  }

  lemma Rescale(count: real, share: real, total: real)
    requires count * 100.0 == share * total
    ensures count == share * (total / 100.0)
  {
  }

  /** The 3 % line between the two charts. */
  const Threshold: real := 3.0

  predicate ReachesThreshold(col: seq<real>) {
    exists t :: 0 <= t < |col| && col[t] >= Threshold
  }

  /** `columns[(pivot >= 3).any()]`: the sectors with a share of at least
      3 % in some year, in column order. */
  function Above(f: Frame): (r: seq<string>)
    requires WellFormed(f)
    ensures forall c :: c in r <==> c in f.columns && exists t :: 0 <= t < |f.index| && f.data[c][t] >= Threshold
    ensures forall c :: multiset(r)[c] == if c in f.data && ReachesThreshold(f.data[c]) then multiset(f.columns)[c] else 0
  {
    var keep := c => c in f.data && ReachesThreshold(f.data[c]);
    FilterCount(f.columns, keep);
    Filter(f.columns, keep)
  }

  /** `columns[~columns.isin(above)]`: the other sectors, in column order;
      these are exactly the sectors below 3 % in every year. */
  function Below(f: Frame): (r: seq<string>)
    requires WellFormed(f)
    ensures forall c :: c in r <==> c in f.columns && forall t :: 0 <= t < |f.index| ==> f.data[c][t] < Threshold
    ensures forall c :: multiset(r)[c] == if c !in Above(f) then multiset(f.columns)[c] else 0
  {
    var above := Above(f);
    var keep := c => c !in above;
    FilterCount(f.columns, keep);
    Filter(f.columns, keep)
  }

  /** Every sector goes to exactly one of the two charts. */
  lemma AboveBelowPartition(f: Frame)
    requires WellFormed(f)
    ensures multiset(Above(f)) + multiset(Below(f)) == multiset(f.columns)
  {
    var a, b := Above(f), Below(f);
    forall c ensures (multiset(a) + multiset(b))[c] == multiset(f.columns)[c] {
      if c in f.columns {
        assert c in a <==> c in f.data && ReachesThreshold(f.data[c]);
      } else {
        assert multiset(f.columns)[c] == 0;
      }
    }
    assert multiset(a) + multiset(b) == multiset(f.columns);
  }

  /** The colour of a midpoint name: white on a dark band, but only for a
      sector other than "Other Services" whose middle-year share is above
      2 %; black otherwise. */
  function MidTextColor(name: string, pct: real, hex: string): (color: TextColor)
    ensures color == White <==>
      name != "Other Services" && pct > 2.0 && ParseHex(hex).Some? && IsDark(ParseHex(hex).value)
    ensures color != DarkRed
  {
    if name != "Other Services" && pct > 2.0 then
      match ParseHex(hex)
      case Some(c) => if IsDark(c) then White else Black
      case None => Black
    else Black
  }

  /** A navy band with a share above 2 % gets white text; a gold one, or
      "Other Services" on any background, gets black. */
  lemma MidTextColorExamples()
    ensures MidTextColor("Finance & Insurance", 5.0, "#000080") == White
    ensures MidTextColor("Trade", 5.0, "#FFD700") == Black
    ensures MidTextColor("Other Services", 5.0, "#000080") == Black
    ensures MidTextColor("Finance & Insurance", 2.0, "#000080") == Black
  {
    NavyIsDark();
    GoldIsLight();
  }

  /** The midpoint colour of every stacked sector, from its translated
      name, its middle-year share and its palette colour. */
  function MidColors(ordered: seq<string>, pcts: seq<real>): (colors: seq<TextColor>)
    requires |pcts| == |ordered|
    ensures |colors| == |ordered|
    ensures forall i :: 0 <= i < |ordered| ==>
      colors[i] == MidTextColor(SectionLabel(ordered[i]), pcts[i], SectionColor(ordered[i]))
  {
    seq(|ordered|, i requires 0 <= i < |ordered| =>
      MidTextColor(SectionLabel(ordered[i]), pcts[i], SectionColor(ordered[i])))
  }

  /** The vertical gap enforced between neighbouring labels, in
      thousands of people. */
  const MinSep: real := 30.0

  /** The start and end labels: one loop over the stacked sectors with
      the last height of each side remembered.  It places exactly the
      labels of `SeparatedPass` on the first and the last year's rows. */
  method StartEndLabels(cols: seq<seq<real>>, years: nat) returns (start: seq<Label>, end: seq<Label>)
    requires years > 0 && Rect(cols, years)
    ensures start == SeparatedPass(Across(cols, 0), MinSep).labels
    ensures end == SeparatedPass(Across(cols, years - 1), MinSep).labels
  {
    var first, final := Across(cols, 0), Across(cols, years - 1);
    var startBases, endBases := Bases(first), Bases(final);
    var lastStart: Option<real> := None;
    var lastEnd: Option<real> := None;
    start, end := [], [];
    for i := 0 to |cols|
      invariant Pass(start, lastStart) == SeparatedPass(first[..i], MinSep)
      invariant Pass(end, lastEnd) == SeparatedPass(final[..i], MinSep)
    {
      start, lastStart := PlaceSeparated(first, startBases, i, start, lastStart);
      end, lastEnd := PlaceSeparated(final, endBases, i, end, lastEnd);
    }
    assert first[..|cols|] == first && final[..|cols|] == final;
  }

  /** The body of the start/end loop for one side: a positive band gets a
      dark-red label at its base plus half its value, moved to `minSep`
      above the previous label when closer than that; the remembered
      height follows the label placed. */
  method PlaceSeparated(row: seq<real>, bases: seq<real>, i: nat, labels: seq<Label>, last: Option<real>)
    returns (labels': seq<Label>, last': Option<real>)
    requires i < |row| && bases == Bases(row)
    requires Pass(labels, last) == SeparatedPass(row[..i], MinSep)
    ensures Pass(labels', last') == SeparatedPass(row[..i + 1], MinSep)
  {
    SeparatedStep(row, i);
    labels', last' := labels, last;
    var v := row[i];
    if v > 0.0 {
      var y := bases[i] + v / 2.0;
      if last.Some? && Abs(y - last.value) < MinSep {
        y := last.value + MinSep;
      }
      last' := Some(y);
      labels' := labels + [Label(i, y, DarkRed)];
    }
  }

  /** One more band of a separated pass, unfolded. */
  lemma SeparatedStep(row: seq<real>, i: nat)
    requires i < |row|
    ensures var prev := SeparatedPass(row[..i], MinSep);
      SeparatedPass(row[..i + 1], MinSep) ==
        if row[i] > 0.0 then
          var y := Nudge(prev.last, Bases(row)[i] + row[i] / 2.0, MinSep);
          Pass(prev.labels + [Label(i, y, DarkRed)], Some(y))
        else prev
  {
    assert row[..i + 1][..i] == row[..i];
    CentrePrefix(row, i + 1, i);
  }

  /** The midpoint names: one loop over the stacked sectors that keeps
      the running total of every year in an array, labels a positive band
      or the first smallest one at its running total plus half its value,
      and moves only the smallest band's label.  It places exactly the
      labels of `MidPass` on the middle year's row. */
  method MidpointLabels(cols: seq<seq<real>>, years: nat, colors: seq<TextColor>) returns (labels: seq<Label>)
    requires years > 0 && Rect(cols, years) && |cols| > 0 && |colors| == |cols|
    ensures labels == MidPass(Across(cols, years / 2), ArgMin(Across(cols, years / 2)), colors, MinSep).labels
  {
    var mid := years / 2;
    var row := Across(cols, mid);
    var cumMid := new real[years](_ => 0.0);
    var smallest := ArgMin(row);
    var last: Option<real> := None;
    labels := [];
    for i := 0 to |cols|
      invariant RunningTotals(cumMid[..], cols, i)
      invariant Pass(labels, last) == MidPass(row[..i], smallest, colors[..i], MinSep)
    {
      AcrossPrefix(cols, mid, i);
      assert cumMid[mid] == cumMid[..][mid];
      labels, last := PlaceMid(row, smallest, colors, i, labels, last, cumMid[mid]);
      AddColumn(cumMid, cols, i);
    }
    assert row[..|cols|] == row && colors[..|cols|] == colors;
  }

  /** Each year's entry is the sum of that year's values over the first
      `i` stacked columns. */
  ghost predicate RunningTotals(cum: seq<real>, cols: seq<seq<real>>, i: nat) {
    && i <= |cols| && Rect(cols, |cum|)
    && forall t :: 0 <= t < |cum| ==> cum[t] == Sum(Across(cols[..i], t))
  }

  /** `cum_mid += df.iloc[:, i]`: the running totals of every year take
      in one more stacked column. */
  method AddColumn(cum: array<real>, cols: seq<seq<real>>, i: nat)
    requires i < |cols| && RunningTotals(cum[..], cols, i)
    modifies cum
    ensures RunningTotals(cum[..], cols, i + 1)
  {
    forall t | 0 <= t < cum.Length {
      cum[t] := cum[t] + cols[i][t];
    }
    forall t | 0 <= t < cum.Length ensures cum[t] == Sum(Across(cols[..i + 1], t)) {
      AcrossStep(cols, t, i);
    }
  }

  /** The body of the midpoint loop: a positive band, or the smallest
      one, gets its name at its base (the sum of the bands below it) plus
      half its value, and only the smallest band's name is moved clear of
      the name placed before it. */
  method PlaceMid(row: seq<real>, smallest: nat, colors: seq<TextColor>, i: nat,
                  labels: seq<Label>, last: Option<real>, base: real)
    returns (labels': seq<Label>, last': Option<real>)
    requires i < |row| && |colors| == |row| && base == Sum(row[..i])
    requires Pass(labels, last) == MidPass(row[..i], smallest, colors[..i], MinSep)
    ensures Pass(labels', last') == MidPass(row[..i + 1], smallest, colors[..i + 1], MinSep)
  {
    MidStep(row, smallest, colors, i);
    labels', last' := labels, last;
    if row[i] > 0.0 || i == smallest {
      var y := base + Max(row[i], 0.0) / 2.0;
      if i == smallest && last.Some? && Abs(y - last.value) < MinSep {
        y := last.value + MinSep;
      }
      labels' := labels + [Label(i, y, colors[i])];
      last' := Some(y);
    }
  }

  /** One more band of a midpoint pass, unfolded. */
  lemma MidStep(row: seq<real>, smallest: nat, colors: seq<TextColor>, i: nat)
    requires i < |row| && |colors| == |row|
    ensures var prev := MidPass(row[..i], smallest, colors[..i], MinSep);
      MidPass(row[..i + 1], smallest, colors[..i + 1], MinSep) ==
        if row[i] > 0.0 || i == smallest then
          var raw := Sum(row[..i]) + Max(row[i], 0.0) / 2.0;
          var y := if i == smallest then Nudge(prev.last, raw, MinSep) else raw;
          Pass(prev.labels + [Label(i, y, colors[i])], Some(y))
        else prev
  {
    assert row[..i + 1][..i] == row[..i];
    assert colors[..i + 1][..i] == colors[..i];
    MidHeightPrefix(row, i + 1, i);
  }

  /** `plot_sector_stackplot_with_labels` without the drawing: the chosen
      sectors by nonincreasing mean, and the three label lists it hands to
      `ax.text`.  `np.argmin` fails on an empty row, so the sector list
      must not be empty. */
  method PlotSectorStackplotWithLabels(abs: Frame, pct: Frame, sectors: seq<string>)
    returns (ordered: seq<string>, start: seq<Label>, end: seq<Label>, mid: seq<Label>)
    requires WellFormed(abs) && WellFormed(pct) && pct.index == abs.index && pct.columns == abs.columns
    requires |abs.index| > 0 && |sectors| > 0
    requires forall s :: s in sectors ==> s in abs.columns
    ensures ordered == StackOrder(abs, sectors)
    ensures start == SeparatedPass(Across(Stack(abs, ordered), 0), MinSep).labels
    ensures end == SeparatedPass(Across(Stack(abs, ordered), |abs.index| - 1), MinSep).labels
    ensures mid == MidPass(Across(Stack(abs, ordered), |abs.index| / 2),
                           ArgMin(Across(Stack(abs, ordered), |abs.index| / 2)),
                           MidColors(ordered, Across(Stack(pct, ordered), |abs.index| / 2)), MinSep).labels
  {
    var years := |abs.index|;
    ordered := StackOrder(abs, sectors);
    assert |ordered| == |sectors| by {
      assert |multiset(ordered)| == |multiset(sectors)|;
    }
    var cols := Stack(abs, ordered);
    var pcts := Stack(pct, ordered);
    start, end := StartEndLabels(cols, years);
    var colors := MidColors(ordered, Across(pcts, years / 2));
    mid := MidpointLabels(cols, years, colors);
  }
}
