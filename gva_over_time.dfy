/** The gross-value-added stacked charts: the A10 sector series are
    cleaned, pivoted by year, turned into yearly shares, renamed to short
    English names, split at a 3 % peak share into a major and a minor
    chart, and labelled by the loops of `plot_stack`. */
module GvaOverTime {
  import opened Wrappers
  import opened Seqs
  import opened Cleaning
  import opened Colors
  import opened GroupBy
  import opened Ordering
  import opened Frames
  import opened Stacking

  /** One line of the export: A10 sector (missing when the cell is
      empty), year and gross value added in millions of euros. */
  datatype Record = Record(sector: Option<string>, year: string, vab: string)

  predicate HasSector(r: Record) {
    r.sector.Some? && r.sector.value != ""
  }

  /** A kept record as a (year, sector) row with its cleaned value. */
  function CleanRecord(r: Record): (row: Result<Row<(string, string)>>)
    requires HasSector(r)
    ensures row.Ok? <==> ParseGrouped(r.vab).Some?
    ensures row.Ok? ==> row.value == Row(Some((r.year, r.sector.value)), ParseGrouped(r.vab).value)
  {
    match CleanGrouped(r.vab)
    case Ok(v) => Ok(Row(Some((r.year, r.sector.value)), v))
    case Err(e) => Err(e)
  }

  /** The sector filter: the records whose A10 sector is present and
      nonempty, each as often as in the input, in input order. */
  function SectorRecords(records: seq<Record>): (kept: seq<Record>)
    ensures forall x :: x in kept <==> x in records && HasSector(x)
    ensures forall x :: multiset(kept)[x] == if HasSector(x) then multiset(records)[x] else 0
  {
    FilterCount(records, HasSector);
    Filter(records, HasSector)
  }

  /** The rows with a sector, each value cleaned by deleting every `.` and
      reading `,` as the decimal point; one value that does not parse
      (`..` among them, which becomes empty text) stops the script.  Row
      `i` is the `i`-th record with a sector. */
  function GvaRows(records: seq<Record>): (r: Result<seq<Row<(string, string)>>>)
    ensures r.Ok? <==> forall x :: x in records && HasSector(x) ==> ParseGrouped(x.vab).Some?
    ensures r.Ok? ==> var kept := SectorRecords(records);
      && |r.value| == |kept|
      && forall i :: 0 <= i < |kept| ==>
        var x := kept[i];
        HasSector(x) && ParseGrouped(x.vab).Some?
        && r.value[i] == Row(Some((x.year, x.sector.value)), ParseGrouped(x.vab).value)
  {
    var kept := SectorRecords(records);
    TryMapMembers(kept, CleanKept);
    TryMap(kept, CleanKept)
  }

  /** `CleanRecord` on a record that has a sector. */
  function CleanKept(r: Record): (row: Result<Row<(string, string)>>)
    ensures row.Ok? <==> HasSector(r) && ParseGrouped(r.vab).Some?
    ensures row.Ok? ==> row.value == Row(Some((r.year, r.sector.value)), ParseGrouped(r.vab).value)
  {
    if HasSector(r) then CleanRecord(r) else Err(r.vab)
  }

  /** Two rows for the same (year, sector) pair. */
  predicate HasDuplicatePair(rows: seq<Row<(string, string)>>) {
    exists i, j :: 0 <= i < j < |rows| && rows[i].key == rows[j].key
  }

  function YearOf(row: Row<(string, string)>): Row<string> {
    Row(if row.key.Some? then Some(row.key.value.0) else None, 0.0)
  }

  function SectorOf(row: Row<(string, string)>): Row<string> {
    Row(if row.key.Some? then Some(row.key.value.1) else None, 0.0)
  }

  /** `pivot(index='Year', columns='Sector').sort_index().fillna(0)`:
      fails when a pair occurs twice, as `pivot` refuses to reshape then;
      otherwise the years and the sectors run in ascending text order and
      each cell holds the total of its pair's rows, which is the value of
      its one row, or 0. */
  function GvaPivot(rows: seq<Row<(string, string)>>): (r: Result<Frame>)
    ensures r.Err? <==> HasDuplicatePair(rows)
    ensures r.Ok? ==> WellFormed(r.value) && Ascending(r.value.index) && Ascending(r.value.columns)
    ensures r.Ok? ==> forall s, t :: s in r.value.columns && 0 <= t < |r.value.index| ==>
      r.value.data[s][t] == GroupTotal(rows, (r.value.index[t], s))
  {
    if HasDuplicatePair(rows) then Err("duplicate (year, sector) pair")
    else
      var years := SortText(KeyOrder(seq(|rows|, i requires 0 <= i < |rows| => YearOf(rows[i]))));
      var sectors := SortText(KeyOrder(seq(|rows|, i requires 0 <= i < |rows| => SectorOf(rows[i]))));
      var sums := GroupSum(rows);
      var f := Pivot(sums, years, sectors);
      assert forall s, t :: s in sectors && 0 <= t < |years| ==>
        f.data[s][t] == GroupTotal(rows, (years[t], s));
      Ok(f)
  }

  /** The years of the GVA pivot are exactly those of the rows. */
  lemma GvaPivotYears(rows: seq<Row<(string, string)>>, y: string)
    requires !HasDuplicatePair(rows)
    ensures y in GvaPivot(rows).value.index <==>
      exists i :: 0 <= i < |rows| && rows[i].key.Some? && rows[i].key.value.0 == y
  {
    var yr := seq(|rows|, i requires 0 <= i < |rows| => YearOf(rows[i]));
    KeysOfRows(yr, y);
    if exists i :: 0 <= i < |rows| && rows[i].key.Some? && rows[i].key.value.0 == y {
      var i :| 0 <= i < |rows| && rows[i].key.Some? && rows[i].key.value.0 == y;
      assert yr[i].key == Some(y);
    }
    if exists i :: 0 <= i < |yr| && yr[i].key == Some(y) {
      var i :| 0 <= i < |yr| && yr[i].key == Some(y);
      assert rows[i].key.Some? && rows[i].key.value.0 == y;
    }
  }

  /** The sectors of the GVA pivot are exactly those of the rows. */
  lemma GvaPivotSectors(rows: seq<Row<(string, string)>>, sector: string)
    requires !HasDuplicatePair(rows)
    ensures sector in GvaPivot(rows).value.columns <==>
      exists i :: 0 <= i < |rows| && rows[i].key.Some? && rows[i].key.value.1 == sector
  {
    var sr := seq(|rows|, i requires 0 <= i < |rows| => SectorOf(rows[i]));
    KeysOfRows(sr, sector);
    if exists i :: 0 <= i < |rows| && rows[i].key.Some? && rows[i].key.value.1 == sector {
      var i :| 0 <= i < |rows| && rows[i].key.Some? && rows[i].key.value.1 == sector;
      assert sr[i].key == Some(sector);
    }
    if exists i :: 0 <= i < |sr| && sr[i].key == Some(sector) {
      var i :| 0 <= i < |sr| && sr[i].key == Some(sector);
      assert rows[i].key.Some? && rows[i].key.value.1 == sector;
    }
  }

  /** With no pair repeated, a pair's total is the value of its one row. */
  lemma {:induction false} SingleRowTotal(rows: seq<Row<(string, string)>>, i: nat)
    requires !HasDuplicatePair(rows) && i < |rows| && rows[i].key.Some?
    ensures GroupTotal(rows, rows[i].key.value) == rows[i].value
    decreases |rows|
  {
    var k := rows[i].key.value;
    var n := |rows| - 1;
    var init := rows[..n];
    assert forall j :: 0 <= j < n ==> init[j] == rows[j];
    assert !HasDuplicatePair(init);
    if i == n {
      KeysOfRows(init, k);
      assert k !in KeysOf(init);
    } else {
      assert init[i] == rows[i];
      SingleRowTotal(init, i);
      assert rows[n].key != Some(k);
    }
  }

  /** Short English names of the A10 sectors. */
  const SectorNames: map<string, string> := map[
    "A Agricultura, ganadería, silvicultura y pesca" := "Agriculture & Fishing",
    "BDE Industrias extractivas; suministro de energía eléctrica, gas, vapor y aire acondicionado; suministro de agua, actividades de saneamiento, gestión de residuos y descontaminación" := "Extractive, Energy, Water & Waste",
    "C Industria manufacturera" := "Manufacturing",
    "F Construcción" := "Construction",
    "GHI Comercio al por mayor y al por menor; reparación de vehículos de motor y motocicletas; transporte y almacenamiento; hostelería" := "Trade, Transport & Hospitality",
    "J Información y comunicaciones" := "Information & Comms",
    "K Actividades financieras y de seguros" := "Finance & Insurance",
    "L Actividades inmobiliarias" := "Real Estate",
    "MN Actividades profesionales, científicas y técnicas; actividades administrativas y servicios auxiliares" := "Professional & Admin Services",
    "OPQ Administración pública y defensa; seguridad social obligatoria; educación; actividades sanitarias y de servicios sociales" := "Public Services (Admin, Education, Health)",
    "RSTU Actividades artísticas, recreativas y de entretenimiento; otras actividades de servicios; actividades de los hogares como empleadores de personal doméstico; actividades de los hogares como productores de bienes y servicios para uso propio" := "Arts, Other & Household Services"
  ]

  /** `rename(columns=sector_name_dict)`: a known sector gets its short
      name, any other column keeps its own. */
  function Rename(sector: string): (name: string)
    ensures sector in SectorNames ==> name == SectorNames[sector]
    ensures sector !in SectorNames ==> name == sector
  {
    GetOr(SectorNames, sector, sector)
  }

  /** Colours of the short names. */
  const GvaPalette: map<string, string> := map[
    "Agriculture & Fishing" := "#8FBC8F",
    "Extractive, Energy, Water & Waste" := "#DAA520",
    "Manufacturing" := "#4682B4",
    "Construction" := "#D2691E",
    "Trade, Transport & Hospitality" := "#FFD700",
    "Information & Comms" := "#00CED1",
    "Finance & Insurance" := "#000080",
    "Real Estate" := "#BC8F8F",
    "Professional & Admin Services" := "#9932CC",
    "Public Services (Admin, Education, Health)" := "#2E8B57",
    "Arts, Other & Household Services" := "#DB7093"
  ]

  const DefaultColor: string := "#B0B0B0"

  /** A band's colour: its palette entry, or the silver default. */
  function GvaColor(name: string): (hex: string)
    ensures name in GvaPalette ==> hex == GvaPalette[name]
    ensures name !in GvaPalette ==> hex == DefaultColor
  {
    GetOr(GvaPalette, name, DefaultColor)
  }

  /** `Rename` can merge two columns: a dictionary column and one that
      already bears its short name. */
  lemma RenameCollides()
    ensures Rename("C Industria manufacturera") == Rename("Manufacturing")
  {
    assert "Manufacturing" !in SectorNames;
  }

  /** Every known sector, once renamed, has its own colour. */
  lemma RenamedSectorsHaveColors()
    ensures forall s :: s in SectorNames ==> GvaColor(Rename(s)) != DefaultColor
  {
    forall s | s in SectorNames ensures GvaColor(Rename(s)) != DefaultColor {
      assert SectorNames[s] in GvaPalette;
    }
  }

  /** White text on a dark band, black on a light one. */
  function BandTextColor(hex: string): (color: TextColor)
    ensures color == White <==> ParseHex(hex).Some? && IsDark(ParseHex(hex).value)
    ensures color != DarkRed
  {
    match ParseHex(hex)
    case Some(c) => if IsDark(c) then White else Black
    case None => Black
  }

  /** Finance's navy band takes white names, Trade's gold band and any
      sector outside the palette (silver) take black ones. */
  lemma BandTextColorExamples()
    ensures BandTextColor(GvaColor(Rename("K Actividades financieras y de seguros"))) == White
    ensures BandTextColor(GvaColor("Trade, Transport & Hospitality")) == Black
    ensures BandTextColor(GvaColor("Unknown")) == Black
  {
    var finance := Rename("K Actividades financieras y de seguros");
    assert finance == "Finance & Insurance";
    assert GvaColor(finance) == "#000080";
    NavyIsDark();
    assert GvaColor("Trade, Transport & Hospitality") == "#FFD700";
    GoldIsLight();
    assert "Unknown" !in GvaPalette;
    SilverIsLight();
  }

  /** The peak share line between the two charts. */
  const Threshold: real := 3.0

  predicate IsMajor(f: Frame, s: string)
    requires WellFormed(f)
  {
    s in f.columns && var m := MaxShare(Shares(f)[s]); m.Some? && m.value >= Threshold
  }

  predicate IsMinor(f: Frame, s: string)
    requires WellFormed(f)
  {
    s in f.columns && var m := MaxShare(Shares(f)[s]); m.Some? && m.value < Threshold
  }

  /** `max_share[max_share >= 3].index`: the sectors whose share reached
      3 % in some year. */
  function MajorSectors(f: Frame): (r: seq<string>)
    requires WellFormed(f)
    ensures forall s :: s in r <==> s in f.columns && IsMajor(f, s)
  {
    Filter(f.columns, s => s in f.columns && IsMajor(f, s))
  }

  /** `max_share[max_share < 3].index`: the sectors whose share stayed
      below 3 % in every year with a share. */
  function MinorSectors(f: Frame): (r: seq<string>)
    requires WellFormed(f)
    ensures forall s :: s in r <==> s in f.columns && IsMinor(f, s)
  {
    Filter(f.columns, s => s in f.columns && IsMinor(f, s))
  }

  /** No sector is in both charts, and a sector is in neither exactly
      when no year gives it a share (every year total is zero, so its
      peak share is NaN and fails both comparisons). */
  lemma MajorMinorSplit(f: Frame, s: string)
    requires WellFormed(f) && s in f.columns
    ensures !(s in MajorSectors(f) && s in MinorSectors(f))
    ensures s !in MajorSectors(f) && s !in MinorSectors(f) <==>
      forall t :: 0 <= t < |f.index| ==> YearTotal(f, t) == 0.0
  {
    var shares := Shares(f)[s];
    var m := MaxShare(shares);
    assert s in MajorSectors(f) <==> m.Some? && m.value >= Threshold;
    assert s in MinorSectors(f) <==> m.Some? && m.value < Threshold;
    NoShareNoPeak(f, s);
  }

  /** A column's peak share is missing exactly when every year total is
      zero. */
  lemma NoShareNoPeak(f: Frame, s: string)
    requires WellFormed(f) && s in f.columns
    ensures MaxShare(Shares(f)[s]).None? <==> forall t :: 0 <= t < |f.index| ==> YearTotal(f, t) == 0.0
  {
    var shares := Shares(f)[s];
    if !forall t :: 0 <= t < |f.index| ==> YearTotal(f, t) == 0.0 {
      var t :| 0 <= t < |f.index| && YearTotal(f, t) != 0.0;
      assert shares[t].Some?;
    }
  }

  /** The start and end labels of `plot_stack`: every positive band at
      its centre, in black, with no separation rule.  It places exactly
      the labels of `CentrePass` on the first and the last year's rows. */
  method EdgeLabels(cols: seq<seq<real>>, years: nat) returns (start: seq<Label>, end: seq<Label>)
    requires years > 0 && Rect(cols, years)
    ensures start == CentrePass(Across(cols, 0), Blacks(|cols|))
    ensures end == CentrePass(Across(cols, years - 1), Blacks(|cols|))
  {
    var first, final := Across(cols, 0), Across(cols, years - 1);
    var startBases, endBases := Bases(first), Bases(final);
    var blacks := Blacks(|cols|);
    start, end := [], [];
    for i := 0 to |cols|
      invariant start == CentrePass(first[..i], blacks[..i])
      invariant end == CentrePass(final[..i], blacks[..i])
    {
      start := PlaceCentre(first, blacks, i, start, startBases[i]);
      end := PlaceCentre(final, blacks, i, end, endBases[i]);
    }
    assert first[..|cols|] == first && final[..|cols|] == final && blacks[..|cols|] == blacks;
  }

  /** One band of a centre pass: a positive value is labelled at its
      base (the sum of the bands below it) plus half its height. */
  method PlaceCentre(row: seq<real>, colors: seq<TextColor>, i: nat, labels: seq<Label>, base: real)
    returns (labels': seq<Label>)
    requires i < |row| && |colors| == |row| && base == Sum(row[..i])
    requires labels == CentrePass(row[..i], colors[..i])
    ensures labels' == CentrePass(row[..i + 1], colors[..i + 1])
  {
    CentreStep(row, colors, i);
    labels' := labels;
    if row[i] > 0.0 {
      labels' := labels' + [Label(i, base + row[i] / 2.0, colors[i])];
    }
  }

  /** Black for every band: the edge labels compute a brightness but
      never use it. */
  function Blacks(n: nat): (colors: seq<TextColor>)
    ensures |colors| == n && forall i :: 0 <= i < n ==> colors[i] == Black
  {
    seq(n, i => Black)
  }

  /** One more band of a centre pass, unfolded. */
  lemma CentreStep(row: seq<real>, colors: seq<TextColor>, i: nat)
    requires i < |row| && |colors| == |row|
    ensures CentrePass(row[..i + 1], colors[..i + 1]) ==
      CentrePass(row[..i], colors[..i]) + (if row[i] > 0.0 then [Label(i, Bases(row)[i] + row[i] / 2.0, colors[i])] else [])
  {
    assert row[..i + 1][..i] == row[..i];
    assert colors[..i + 1][..i] == colors[..i];
    CentrePrefix(row, i + 1, i);
  }

  /** The midpoint names of `plot_stack`: the running total of every year
      is kept in an array, and each positive band gets its name at its
      running total plus half its value.  It places exactly the labels of
      `CentrePass` on the middle year's row. */
  method MidLabels(cols: seq<seq<real>>, years: nat, colors: seq<TextColor>) returns (labels: seq<Label>)
    requires years > 0 && Rect(cols, years) && |colors| == |cols|
    ensures labels == CentrePass(Across(cols, years / 2), colors)
  {
    var mid := years / 2;
    var row := Across(cols, mid);
    var cumMid := new real[years](_ => 0.0);
    labels := [];
    for i := 0 to |cols|
      invariant forall t :: 0 <= t < years ==> cumMid[t] == Sum(Across(cols[..i], t))
      invariant labels == CentrePass(row[..i], colors[..i])
    {
      AcrossPrefix(cols, mid, i);
      labels := PlaceCentre(row, colors, i, labels, cumMid[mid]);
      forall t | 0 <= t < years {
        cumMid[t] := cumMid[t] + cols[i][t];
      }
      forall t | 0 <= t < years ensures cumMid[t] == Sum(Across(cols[..i + 1], t)) {
        AcrossStep(cols, t, i);
      }
    }
    assert row[..|cols|] == row && colors[..|cols|] == colors;
  }

  /** The midpoint text colour of every stacked sector, from the palette
      colour of its short name. */
  function MidColors(ordered: seq<string>): (colors: seq<TextColor>)
    ensures |colors| == |ordered|
    ensures forall i :: 0 <= i < |ordered| ==> colors[i] == BandTextColor(GvaColor(Rename(ordered[i])))
  {
    seq(|ordered|, i requires 0 <= i < |ordered| => BandTextColor(GvaColor(Rename(ordered[i]))))
  }

  /** `plot_stack` without the drawing: the chosen sectors by
      nonincreasing mean and the three label lists it hands to `ax.text`. */
  method PlotStack(abs: Frame, sectors: seq<string>)
    returns (ordered: seq<string>, start: seq<Label>, end: seq<Label>, mid: seq<Label>)
    requires WellFormed(abs) && |abs.index| > 0
    requires forall s :: s in sectors ==> s in abs.columns
    ensures ordered == StackOrder(abs, sectors)
    ensures start == CentrePass(Across(Stack(abs, ordered), 0), Blacks(|ordered|))
    ensures end == CentrePass(Across(Stack(abs, ordered), |abs.index| - 1), Blacks(|ordered|))
    ensures mid == CentrePass(Across(Stack(abs, ordered), |abs.index| / 2), MidColors(ordered))
  {
    var years := |abs.index|;
    ordered := StackOrder(abs, sectors);
    var cols := Stack(abs, ordered);
    start, end := EdgeLabels(cols, years);
    mid := MidLabels(cols, years, MidColors(ordered));
  }
}
