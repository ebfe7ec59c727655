/** The two scatter charts of 2023: gross value added (summed per A10
    group) against employment (averaged per A10 group), one point per
    group present on both sides, plotted either as value added per worker
    or as value added in billions, with a legend of the groups shown. */
module SectorScatter {
  import opened Wrappers
  import opened Seqs
  import opened Cleaning
  import opened Sectors
  import opened GroupBy

  /** One line of the value-added export: the macro aggregate, the A10
      name (missing when the cell is empty), the year and the value in
      millions of euros. */
  datatype GdpRecord = GdpRecord(aggregate: string, a10: Option<string>, year: string, gdp: string)

  /** One line of the employment export; the section name is taken in its
      accent-free spelling. */
  datatype EmpRecord = EmpRecord(sexo: string, unidad: string, name: string, total: string)

  /** A gross-value-added line with an A10 name. */
  predicate IsGva(r: GdpRecord) {
    r.aggregate == "Valor añadido bruto" && r.a10.Some?
  }

  /** `pd.to_numeric(Year) == 2023`. */
  predicate Is2023(r: GdpRecord) {
    ParseFloat(r.year) == Some(2023.0)
  }

  /** The group key of a value-added line: the leading capitals of its
      A10 name. */
  function GdpKey(r: GdpRecord): Option<string>
    requires IsGva(r)
  {
    LeadingCode(r.a10.value)
  }

  /** A value-added line of 2023 as a keyed row. */
  function GdpRow(r: GdpRecord): Row<string>
    requires IsGva(r) && ParseGrouped(r.gdp).Some?
  {
    Row(GdpKey(r), ParseGrouped(r.gdp).value)
  }

  /** The row of a value-added line, or the text that does not parse. */
  function GdpResult(r: GdpRecord): (row: Result<Row<string>>)
    ensures row.Ok? <==> IsGva(r) && ParseGrouped(r.gdp).Some?
    ensures row.Ok? ==> row.value == GdpRow(r)
  {
    if !IsGva(r) then Err(r.gdp)
    else match CleanGrouped(r.gdp)
      case Ok(v) => Ok(Row(GdpKey(r), v))
      case Err(e) => Err(e)
  }

  /** The gross-value-added lines of 2023 with an A10 name, each as
      often as in the input, in input order. */
  function GdpRecords2023(records: seq<GdpRecord>): (kept: seq<GdpRecord>)
    ensures forall x :: x in kept <==> x in records && IsGva(x) && Is2023(x)
    ensures forall x :: multiset(kept)[x] == if IsGva(x) && Is2023(x) then multiset(records)[x] else 0
  {
    var gva := Filter(records, IsGva);
    FilterCount(records, IsGva);
    FilterCount(gva, Is2023);
    Filter(gva, Is2023)
  }

  /** The value-added rows: every gross-value-added line with a name is
      cleaned (deleting `.`, reading `,` as the point), so one malformed
      value of any year stops the script; then the 2023 lines are kept,
      keyed by their leading code.  Row `i` comes from the `i`-th such
      line. */
  function GdpRows(records: seq<GdpRecord>): (r: Result<seq<Row<string>>>)
    ensures r.Ok? <==> forall x :: x in records && IsGva(x) ==> ParseGrouped(x.gdp).Some?
    ensures r.Ok? ==> var kept := GdpRecords2023(records);
      && |r.value| == |kept|
      && forall i :: 0 <= i < |kept| ==>
        IsGva(kept[i]) && ParseGrouped(kept[i].gdp).Some? && r.value[i] == GdpRow(kept[i])
    ensures r.Ok? ==> forall row :: row in r.value <==>
      exists x :: x in records && IsGva(x) && Is2023(x) && row == GdpRow(x)
  {
    var kept := Filter(records, IsGva);
    TryMapMembers(kept, GdpResult);
    match TryMap(kept, GdpResult)
    case Err(e) => Err(e)
    case Ok(_) =>
      var year := GdpRecords2023(records);
      TryMapMembers(year, GdpResult);
      Ok(TryMap(year, GdpResult).value)
  }

  /** Both sexes, absolute values. */
  predicate IsBothAbsolute(r: EmpRecord) {
    r.sexo == "Ambos sexos" && r.unidad == "Valor absoluto"
  }

  /** An employment line as a row keyed by its A10 group. */
  function EmpRow(r: EmpRecord): Row<string>
    requires ParseGrouped(r.total).Some?
  {
    Row(A10Group(r.name), ParseGrouped(r.total).value)
  }

  /** The row of an employment line, or the text that does not parse. */
  function EmpResult(r: EmpRecord): (row: Result<Row<string>>)
    ensures row.Ok? <==> ParseGrouped(r.total).Some?
    ensures row.Ok? ==> row.value == EmpRow(r)
  {
    match CleanGrouped(r.total)
    case Ok(v) => Ok(Row(A10Group(r.name), v))
    case Err(e) => Err(e)
  }

  /** The employment lines of both sexes in absolute values, each as
      often as in the input, in input order. */
  function BothAbsoluteRecords(records: seq<EmpRecord>): (kept: seq<EmpRecord>)
    ensures forall x :: x in kept <==> x in records && IsBothAbsolute(x)
    ensures forall x :: multiset(kept)[x] == if IsBothAbsolute(x) then multiset(records)[x] else 0
  {
    FilterCount(records, IsBothAbsolute);
    Filter(records, IsBothAbsolute)
  }

  /** The employment rows of both sexes in absolute values, cleaned like
      the value-added column and keyed by A10 group; a section the table
      does not know gets no group and drops out of the means.  Row `i`
      comes from the `i`-th such line. */
  function EmpRows(records: seq<EmpRecord>): (r: Result<seq<Row<string>>>)
    ensures r.Ok? <==> forall x :: x in records && IsBothAbsolute(x) ==> ParseGrouped(x.total).Some?
    ensures r.Ok? ==> var kept := BothAbsoluteRecords(records);
      && |r.value| == |kept|
      && forall i :: 0 <= i < |kept| ==> ParseGrouped(kept[i].total).Some? && r.value[i] == EmpRow(kept[i])
    ensures r.Ok? ==> forall row :: row in r.value <==>
      exists x :: x in records && IsBothAbsolute(x) && row == EmpRow(x)
  {
    var kept := BothAbsoluteRecords(records);
    TryMapMembers(kept, EmpResult);
    TryMap(kept, EmpResult)
  }

  /** `merge(gdp.groupby(code).sum(), emp.groupby(group).mean(),
      how='inner')`: one entry per group present on both sides, holding
      the group's summed value added and its mean employment. */
  function Merged(gdp: seq<Row<string>>, emp: seq<Row<string>>): (m: map<string, (real, real)>)
    ensures forall g :: g in m <==> g in KeysOf(gdp) && g in KeysOf(emp)
    ensures forall g :: g in m ==> m[g].0 == GroupTotal(gdp, g)
    ensures forall g :: g in m ==> m[g].1 * (GroupCount(emp, g) as real) == GroupTotal(emp, g)
  {
    InnerJoin(GroupSum(gdp), GroupMean(emp))
  }

  /** No value-added code is ever "Total Economy", so that group is never
      merged and the dashed average line of the productivity chart is
      never drawn. */
  lemma NoTotalEconomyPoint(records: seq<GdpRecord>, emp: seq<Row<string>>)
    requires GdpRows(records).Ok?
    ensures "Total Economy" !in Merged(GdpRows(records).value, emp)
  {
    var rows := GdpRows(records).value;
    KeysOfRows(rows, "Total Economy");
    if "Total Economy" in KeysOf(rows) {
      var i :| 0 <= i < |rows| && rows[i].key == Some("Total Economy");
      assert rows[i] in rows;
      var x :| x in records && IsGva(x) && Is2023(x) && rows[i] == GdpRow(x);
      LeadingCodeIsNeverTotalEconomy(x.a10.value);
    }
  }

  /** The employment side splits O, P and Q, so the value-added export's
      public-services group "OPQ" is never merged. */
  lemma NoOPQPoint(gdp: seq<Row<string>>, records: seq<EmpRecord>)
    requires EmpRows(records).Ok?
    ensures "OPQ" !in Merged(gdp, EmpRows(records).value)
  {
    var rows := EmpRows(records).value;
    KeysOfRows(rows, "OPQ");
    if "OPQ" in KeysOf(rows) {
      var i :| 0 <= i < |rows| && rows[i].key == Some("OPQ");
      assert rows[i] in rows;
      var x :| x in records && IsBothAbsolute(x) && rows[i] == EmpRow(x);
      NoSectionMapsToOPQ();
    }
  }

  /** `((GDP * 1e6) / (Employment * 1e3)) / 1e3`: euros per worker in
      thousands, which is millions of euros over thousands employed;
      missing when employment is zero (an infinity or NaN there). */
  function GvaPerWorker(gdp: real, emp: real): (r: Option<real>)
    ensures r.None? <==> emp == 0.0
    ensures r.Some? ==> r.value * emp == gdp
  {
    if emp == 0.0 then None
    else
      var q := (gdp * 1000000.0) / (emp * 1000.0);
      assert q * (emp * 1000.0) == gdp * 1000000.0;
      var r := q / 1000.0;
      assert r * 1000.0 == q;
      assert r * emp * 1000000.0 == gdp * 1000000.0;
      Some(r)
  }

  /** `GDP / 1000`: millions to billions. */
  function GdpBillions(gdp: real): (b: real)
    ensures b * 1000.0 == gdp
  {
    gdp / 1000.0
  }

  /** The chart names of the groups. */
  const ScatterNames: map<string, string> := map[
    "A" := "Agriculture & Fishing",
    "BDE" := "Extractive, Energy, Water & Waste",
    "C" := "Manufacturing",
    "F" := "Construction",
    "GHI" := "Trade, Transport & Hospitality",
    "J" := "Information & Comms",
    "K" := "Finance & Insurance",
    "L" := "Real Estate",
    "MN" := "Professional & Admin Services",
    "O" := "Public Admin",
    "P" := "Education",
    "Q" := "Health & Social Work",
    "RSTU" := "Arts & Other",
    "Total Economy" := "Total Economy"
  ]

  /** The chart colours, in the palette's own order (the legend keeps it). */
  const ScatterPalette: seq<(string, string)> := [
    ("Agriculture & Fishing", "#8FBC8F"),
    ("Extractive, Energy, Water & Waste", "#DAA520"),
    ("Manufacturing", "#4682B4"),
    ("Construction", "#D2691E"),
    ("Trade, Transport & Hospitality", "#FFD700"),
    ("Information & Comms", "#00CED1"),
    ("Finance & Insurance", "#000080"),
    ("Real Estate", "#BC8F8F"),
    ("Professional & Admin Services", "#9932CC"),
    ("Public Admin", "#2E8B57"),
    ("Education", "#6A5ACD"),
    ("Health & Social Work", "#FF6347"),
    ("Arts & Other", "#DB7093"),
    ("Total Economy", "#B0B0B0")
  ]

  /** `Series.map(sector_name_dict)`: a group's chart name, missing (NaN)
      for a code the table lacks. */
  function ScatterName(code: string): (name: Option<string>)
    ensures name.Some? <==> code in ScatterNames
    ensures name.Some? ==> name.value == ScatterNames[code]
  {
    if code in ScatterNames then Some(ScatterNames[code]) else None
  }

  /** `Series.map(sector_color_dict)`: the colour the palette gives a
      name, missing when it gives none. */
  function PaletteColor(palette: seq<(string, string)>, name: string): (color: Option<string>)
    ensures color.Some? <==> exists i :: 0 <= i < |palette| && palette[i].0 == name
    ensures color.Some? ==> (name, color.value) in palette
    decreases |palette|
  {
    if palette == [] then None
    else if palette[0].0 == name then Some(palette[0].1)
    else
      var c := PaletteColor(palette[1..], name);
      assert forall i :: 1 <= i < |palette| ==> palette[i] == palette[1..][i - 1];
      if c.Some? then
        assert (name, c.value) in palette[1..];
        c
      else c
  }

  /** Every named group has a colour. */
  lemma NamedGroupsHaveColors()
    ensures forall code :: code in ScatterNames ==> PaletteColor(ScatterPalette, ScatterNames[code]).Some?
  {
    var names := seq(|ScatterPalette|, i requires 0 <= i < |ScatterPalette| => ScatterPalette[i].0);
    assert names == ["Agriculture & Fishing", "Extractive, Energy, Water & Waste", "Manufacturing",
      "Construction", "Trade, Transport & Hospitality", "Information & Comms", "Finance & Insurance",
      "Real Estate", "Professional & Admin Services", "Public Admin", "Education",
      "Health & Social Work", "Arts & Other", "Total Economy"];
    forall code | code in ScatterNames ensures PaletteColor(ScatterPalette, ScatterNames[code]).Some? {
      assert ScatterNames[code] in names;
      var i :| 0 <= i < |names| && names[i] == ScatterNames[code];
      assert ScatterPalette[i].0 == ScatterNames[code];
    }
  }

  /** One plotted group: its x (mean employment), its y, and the name and
      colour it is drawn with. */
  datatype Point = Point(employment: real, y: Option<real>, name: Option<string>, color: Option<string>)

  function PointOf(code: string, employment: real, y: Option<real>): (p: Point)
    ensures p.employment == employment && p.y == y && p.name == ScatterName(code)
    ensures p.color.Some? <==> code in ScatterNames && PaletteColor(ScatterPalette, ScatterNames[code]).Some?
  {
    var name := ScatterName(code);
    Point(employment, y, name, if name.Some? then PaletteColor(ScatterPalette, name.value) else None)
  }

  /** The productivity chart: each merged group at its mean employment
      and its value added per worker. */
  function ProductivityPoints(merged: map<string, (real, real)>): (pts: map<string, Point>)
    ensures pts.Keys == merged.Keys
    ensures forall g :: g in pts ==> pts[g].employment == merged[g].1
    ensures forall g :: g in pts ==> (pts[g].y.Some? <==> merged[g].1 != 0.0)
    ensures forall g :: g in pts && pts[g].y.Some? ==> pts[g].y.value * pts[g].employment == merged[g].0
  {
    map g | g in merged :: PointOf(g, merged[g].1, GvaPerWorker(merged[g].0, merged[g].1))
  }

  /** The value-added chart: each merged group at its mean employment and
      its value added in billions. */
  function BillionsPoints(merged: map<string, (real, real)>): (pts: map<string, Point>)
    ensures pts.Keys == merged.Keys
    ensures forall g :: g in pts ==> pts[g].employment == merged[g].1
    ensures forall g :: g in pts ==> pts[g].y.Some? && pts[g].y.value * 1000.0 == merged[g].0
  {
    map g | g in merged :: PointOf(g, merged[g].1, Some(GdpBillions(merged[g].0)))
  }

  /** `df_merged['Sector Label'].values`: the names of the plotted groups
      that have one. */
  function ShownNames(pts: map<string, Point>): (names: set<string>)
    ensures forall n :: n in names <==> exists g :: g in pts && pts[g].name == Some(n)
  {
    set g | g in pts && pts[g].name.Some? :: pts[g].name.value
  }

  /** The legend: the palette entries whose name is shown, in palette
      order. */
  function Legend(palette: seq<(string, string)>, shown: set<string>): (r: seq<(string, string)>)
    ensures forall e :: e in r <==> e in palette && e.0 in shown
    ensures Subsequence(r, palette)
    decreases |palette|
  {
    if palette == [] then []
    else
      var n := |palette| - 1;
      var init, last := palette[..n], palette[n];
      var r := Legend(init, shown);
      assert forall e :: e in palette <==> e in init || e == last;
      if last.0 in shown then
        var r' := r + [last];
        assert r'[..|r'| - 1] == r;
        r'
      else r
  }

  /** The productivity chart's value-added rows need a 2023 line: the
      title takes the first year left, and there is none to take
      otherwise. */
  function ProductivityChart(gdpRecords: seq<GdpRecord>, empRecords: seq<EmpRecord>): (r: Result<map<string, Point>>)
    ensures r.Ok? <==> GdpRows(gdpRecords).Ok? && EmpRows(empRecords).Ok? && |GdpRows(gdpRecords).value| > 0
    ensures r.Ok? ==> r.value.Keys == Merged(GdpRows(gdpRecords).value, EmpRows(empRecords).value).Keys
  {
    match (GdpRows(gdpRecords), EmpRows(empRecords))
    case (Ok(gdp), Ok(emp)) =>
      if |gdp| == 0 then Err("no 2023 value-added line")
      else Ok(ProductivityPoints(Merged(gdp, emp)))
    case (Err(e), _) => Err(e)
    case (_, Err(e)) => Err(e)
  }
}
