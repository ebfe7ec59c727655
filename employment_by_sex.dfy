/** The employment pie chart of one sex and one year: the quarterly rows
    of the selection are averaged per section, each section's average is
    put as a percentage of the sum of the averages, the sections are split
    at 2.5 % into wedges and a list of excluded sections, and each wedge
    is labelled with its share of the whole economy. */
module EmploymentBySex {
  import opened Wrappers
  import opened Seqs
  import opened Cleaning
  import opened Sectors
  import opened GroupBy
  import opened Ordering
  import Frames

  /** One line of the export: section (missing when the cell is empty),
      sex, quarter (`2024T1`, …) and the number employed, in thousands. */
  datatype Record = Record(sector: Option<string>, sexo: string, periodo: string, total: string)

  /** The rows of one sex whose quarter lies in one year. */
  predicate Selected(r: Record, sex: string, year: string) {
    r.sexo == sex && StartsWith(r.periodo, year)
  }

  /** `df[df['Sexo'] == sex]` then `df[df['Periodo'].str.startswith(year)]`:
      exactly the selected rows, each as often as the input holds it. */
  function SelectedRecords(records: seq<Record>, sex: string, year: string): (r: seq<Record>)
    ensures forall x :: x in r <==> x in records && Selected(x, sex, year)
    ensures forall x :: multiset(r)[x] == if Selected(x, sex, year) then multiset(records)[x] else 0
  {
    var keep := x => Selected(x, sex, year);
    FilterCount(records, keep);
    Filter(records, keep)
  }

  /** A record as a row keyed by its section. */
  function SectorRow(r: Record): (row: Result<Row<string>>)
    ensures row.Ok? <==> CleanDecimalComma(r.total).Ok?
    ensures row.Ok? ==> row.value == Row(r.sector, CleanDecimalComma(r.total).value)
  {
    match CleanDecimalComma(r.total)
    case Ok(v) => Ok(Row(r.sector, v))
    case Err(e) => Err(e)
  }

  /** The selected rows with `Total` read after `,` becomes `.`; a value
      that does not then read as a number (such as `..`, or one with a
      thousands dot and a decimal comma) stops the script. */
  function SectorRows(records: seq<Record>, sex: string, year: string): (r: Result<seq<Row<string>>>)
    ensures r.Ok? <==> forall x :: x in records && Selected(x, sex, year) ==> CleanDecimalComma(x.total).Ok?
    ensures r.Ok? ==> var sel := SelectedRecords(records, sex, year);
      |r.value| == |sel| && forall i :: 0 <= i < |sel| ==> r.value[i] == Row(sel[i].sector, CleanDecimalComma(sel[i].total).value)
  {
    var sel := SelectedRecords(records, sex, year);
    TryMapMembers(sel, SectorRow);
    TryMap(sel, SectorRow)
  }

  /** `100 * sector_data / total_economy`: each section's average as a
      percentage of the sum of the averages over `keys`; missing when that
      sum is zero (the division gives NaN or an infinity there). */
  function Percents(means: map<string, real>, keys: seq<string>): (p: Option<map<string, real>>)
    ensures p.None? <==> SumOver(keys, means) == 0.0
    ensures p.Some? ==> p.value.Keys == means.Keys
    ensures p.Some? ==> forall s :: s in p.value ==> p.value[s] * SumOver(keys, means) == 100.0 * means[s]
  {
    var total := SumOver(keys, means);
    if total == 0.0 then None
    else Some(map s | s in means :: 100.0 * means[s] / total)
  }

  /** The percentages of the listed sections add up to 100. */
  lemma PercentsAddUp(means: map<string, real>, keys: seq<string>)
    requires forall k :: k in keys ==> k in means
    requires SumOver(keys, means) != 0.0
    ensures SumOver(keys, Percents(means, keys).value) == 100.0
  {
    var total := SumOver(keys, means);
    var p := Percents(means, keys).value;
    forall k | k in keys ensures p[k] == means[k] * (100.0 / total) {
      Frames.DivideOut(p[k], means[k], total);
    }
    SumOverScaled(keys, means, p, 100.0 / total);
    assert total * (100.0 / total) == 100.0;
  }

  /** `sector_percent`: the sections' averages (`groupby(...).mean()`)
      as percentages of their sum; one entry per section that occurs, and
      the entries add up to 100. */
  function SectorPercent(rows: seq<Row<string>>): (p: Option<map<string, real>>)
    ensures p.None? <==> SumOver(KeyOrder(rows), GroupMean(rows)) == 0.0
    ensures p.Some? ==> forall s :: s in p.value <==> s in KeysOf(rows)
    ensures p.Some? ==> SumOver(KeyOrder(rows), p.value) == 100.0
  {
    var means := GroupMean(rows);
    var p := Percents(means, KeyOrder(rows));
    if p.Some? then
      PercentsAddUp(means, KeyOrder(rows));
      p
    else p
  }

  /** The threshold between a wedge and the excluded list. */
  const PieThreshold: real := 2.5

  /** `sector_percent[sector_percent >= 2.5].sort_values(ascending=False)`:
      the sections of at least 2.5 %, each once for every time it is
      listed, by nonincreasing percentage. */
  function Included(pct: map<string, real>, keys: seq<string>): (r: seq<string>)
    requires forall k :: k in keys ==> k in pct
    ensures forall s :: multiset(r)[s] == if s in pct && pct[s] >= PieThreshold then multiset(keys)[s] else 0
    ensures Scored(r, pct) && Nonincreasing(r, pct)
  {
    var keep := s => s in pct && pct[s] >= PieThreshold;
    FilterCount(keys, keep);
    SortByScoreDesc(Filter(keys, keep), pct)
  }

  /** `sector_percent[sector_percent < 2.5].sort_values(ascending=False)`:
      the other sections, by nonincreasing percentage. */
  function Excluded(pct: map<string, real>, keys: seq<string>): (r: seq<string>)
    requires forall k :: k in keys ==> k in pct
    ensures forall s :: multiset(r)[s] == if s in pct && pct[s] < PieThreshold then multiset(keys)[s] else 0
    ensures Scored(r, pct) && Nonincreasing(r, pct)
  {
    var keep := s => s in pct && pct[s] < PieThreshold;
    FilterCount(keys, keep);
    SortByScoreDesc(Filter(keys, keep), pct)
  }

  /** Every section is either a wedge or excluded, never both, and none
      is lost or repeated. */
  lemma IncludedExcludedPartition(pct: map<string, real>, keys: seq<string>)
    requires forall k :: k in keys ==> k in pct
    ensures multiset(Included(pct, keys)) + multiset(Excluded(pct, keys)) == multiset(keys)
    ensures forall s :: !(s in Included(pct, keys) && s in Excluded(pct, keys))
  {
    SplitCounts(Included(pct, keys), Excluded(pct, keys), keys, pct);
  }

  /** Two sequences that count each listed key by whether its percentage
      reaches the threshold split the listed keys between them. */
  lemma SplitCounts(a: seq<string>, b: seq<string>, keys: seq<string>, pct: map<string, real>)
    requires forall k :: k in keys ==> k in pct
    requires forall s :: multiset(a)[s] == if s in pct && pct[s] >= PieThreshold then multiset(keys)[s] else 0
    requires forall s :: multiset(b)[s] == if s in pct && pct[s] < PieThreshold then multiset(keys)[s] else 0
    ensures multiset(a) + multiset(b) == multiset(keys)
    ensures forall s :: !(s in a && s in b)
  {
    forall s ensures (multiset(a) + multiset(b))[s] == multiset(keys)[s] {
      if s !in keys {
        assert multiset(keys)[s] == 0;
      }
    }
    assert multiset(a) + multiset(b) == multiset(keys);
    forall s | s in a ensures s !in b {
      assert multiset(a)[s] > 0;
    }
  }

  /** Wedges and excluded sections together hold the whole sum. */
  lemma IncludedPlusExcluded(pct: map<string, real>, keys: seq<string>, means: map<string, real>)
    requires forall k :: k in keys ==> k in pct
    ensures SumOver(Included(pct, keys), means) + SumOver(Excluded(pct, keys), means) == SumOver(keys, means)
  {
    var a, b := Included(pct, keys), Excluded(pct, keys);
    IncludedExcludedPartition(pct, keys);
    SumOverAppend(a, b, means);
    SumOverPermutation(a + b, keys, means);
  }

  /** With nonnegative averages, the wedges never hold more than the whole
      sum, and exactly the whole sum when no section is excluded. */
  lemma IncludedSumBounds(pct: map<string, real>, keys: seq<string>, means: map<string, real>)
    requires forall k :: k in keys ==> k in pct && k in means && means[k] >= 0.0
    ensures SumOver(Included(pct, keys), means) <= SumOver(keys, means)
    ensures Excluded(pct, keys) == [] ==> SumOver(Included(pct, keys), means) == SumOver(keys, means)
  {
    IncludedPlusExcluded(pct, keys, means);
    var b := Excluded(pct, keys);
    forall k | k in b ensures k in means && means[k] >= 0.0 {
      assert multiset(b)[k] > 0;
    }
    SumOverNonnegative(b, means);
  }

  lemma {:induction false} SumOverNonnegative(keys: seq<string>, m: map<string, real>)
    requires forall k :: k in keys ==> k in m && m[k] >= 0.0
    ensures SumOver(keys, m) >= 0.0
    decreases |keys|
  {
    if keys != [] {
      var init := keys[..|keys| - 1];
      assert forall k :: k in init ==> k in keys;
      SumOverNonnegative(init, m);
    }
  }

  /** `format_pct`: matplotlib hands it a wedge's percentage of the pie
      (`value`); it scales that back to thousands employed with the sum of
      the wedges and then to a percentage of the whole economy. */
  function FormatPct(value: real, includedSum: real, total: real): (p: Option<real>)
    ensures p.None? <==> total == 0.0
    ensures p.Some? ==> p.value * total == value * includedSum
  {
    Frames.ShareOf(value * includedSum / 100.0, total)
  }

  /** The label of a wedge of raw average `m` is that sector's
      percentage of the whole economy: the pie hands over `m` as a share
      of the included sum, and the label scales it back to the total. */
  lemma FormatPctOfWhole(m: real, includedSum: real, total: real)
    requires includedSum > 0.0 && total > 0.0
    ensures FormatPct(100.0 * m / includedSum, includedSum, total) == Some(100.0 * m / total)
  {
    var value := 100.0 * m / includedSum;
    assert value * includedSum == 100.0 * m;
    var p := FormatPct(value, includedSum, total).value;
    assert p * total == 100.0 * m;
    assert p == p * total / total;
  }

  /** With nothing excluded the label repeats the wedge's percentage. */
  lemma FormatPctWhole(value: real, total: real)
    requires total != 0.0
    ensures FormatPct(value, total, total) == Some(value)
  {
    var p := FormatPct(value, total, total).value;
    assert (p - value) * total == 0.0;
  }

  /** For nonnegative data the label never exceeds the wedge's
      percentage. */
  lemma FormatPctBounded(value: real, includedSum: real, total: real)
    requires value >= 0.0 && 0.0 <= includedSum <= total && total > 0.0
    ensures FormatPct(value, includedSum, total).value <= value
  {
    var p := FormatPct(value, includedSum, total).value;
    assert value * (total - includedSum) >= 0.0;
    assert (value - p) * total >= 0.0;
    if p > value {
      assert (value - p) * total < 0.0;
    }
  }

  /** A wedge label of the chart: with no section excluded it repeats
      the wedge's percentage; otherwise, for nonnegative averages with a
      positive sum, it is at most that percentage. */
  lemma PieLabel(pct: map<string, real>, keys: seq<string>, means: map<string, real>, value: real)
    requires forall k :: k in keys ==> k in pct && k in means && means[k] >= 0.0
    requires SumOver(keys, means) > 0.0 && value >= 0.0
    ensures var shown := FormatPct(value, SumOver(Included(pct, keys), means), SumOver(keys, means));
      && shown.Some? && shown.value <= value
      && (Excluded(pct, keys) == [] ==> shown == Some(value))
  {
    var inc, total := SumOver(Included(pct, keys), means), SumOver(keys, means);
    IncludedSumBounds(pct, keys, means);
    var b := Included(pct, keys);
    forall k | k in b ensures k in means && means[k] >= 0.0 {
      assert multiset(b)[k] > 0;
    }
    SumOverNonnegative(b, means);
    FormatPctBounded(value, inc, total);
    if Excluded(pct, keys) == [] {
      FormatPctWhole(value, total);
    }
  }

  /** One wedge as `ax.pie` receives it: its short label, its colour and
      its size (the section's raw average). */
  datatype Wedge = Wedge(name: string, color: string, raw: real)

  /** The wedges in included order: each section's short label, its
      colour and its average. */
  function Wedges(included: seq<string>, means: map<string, real>): (w: seq<Wedge>)
    requires forall s :: s in included ==> s in means
    ensures |w| == |included|
    ensures forall i :: 0 <= i < |included| ==> w[i] == Wedge(SectionLabel(included[i]), SectionColor(included[i]), means[included[i]])
  {
    seq(|included|, i requires 0 <= i < |included| => Wedge(SectionLabel(included[i]), SectionColor(included[i]), means[included[i]]))
  }

  function WedgeSizes(w: seq<Wedge>): (sizes: seq<real>)
    ensures |sizes| == |w| && forall i :: 0 <= i < |w| ==> sizes[i] == w[i].raw
  {
    seq(|w|, i requires 0 <= i < |w| => w[i].raw)
  }

  /** The wedge sizes add up to the sum that `format_pct` scales by,
      `included_raw.sum()`. */
  lemma WedgeSizesSum(included: seq<string>, means: map<string, real>)
    requires forall s :: s in included ==> s in means
    ensures Sum(WedgeSizes(Wedges(included, means))) == SumOver(included, means)
  {
    var sizes := WedgeSizes(Wedges(included, means));
    forall i | 0 <= i < |included| ensures sizes[i] == GetOr(means, included[i], 0.0) {
      assert included[i] in included;
    }
    ListedSum(included, means, sizes);
  }

  /** Values listed key by key add up to the keyed sum. */
  lemma {:induction false} ListedSum(keys: seq<string>, m: map<string, real>, values: seq<real>)
    requires |values| == |keys|
    requires forall i :: 0 <= i < |keys| ==> values[i] == GetOr(m, keys[i], 0.0)
    ensures Sum(values) == SumOver(keys, m)
    decreases |keys|
  {
    if keys != [] {
      var n := |keys| - 1;
      ListedSum(keys[..n], m, values[..n]);
      SumStep(values, n);
      assert values[..n + 1] == values;
    }
  }

  const ExcludedHeader: string := "Excluded Sectors (<2.5%):"

  /** `f"- {label}: {pct:.2f}%"`; `fmt` stands for the two-decimal
      number formatting. */
  function ExcludedLine(name: string, pct: real, fmt: real -> string): (line: string)
    ensures StartsWith(line, "- " + name + ": ") && line[|line| - 1] == '%'
    ensures |line| == |"- " + name + ": "| + |fmt(pct)| + 1
    ensures line[|"- " + name + ": "|..|line| - 1] == fmt(pct)
  {
    var prefix := "- " + name + ": ";
    var line := prefix + fmt(pct) + "%";
    assert line[..|prefix|] == prefix;
    assert line[|prefix|..|line| - 1] == fmt(pct);
    line
  }

  /** One line per excluded section, in excluded order. */
  function ExcludedLines(excluded: seq<string>, pct: map<string, real>, fmt: real -> string): (lines: seq<string>)
    requires forall s :: s in excluded ==> s in pct
    ensures |lines| == |excluded|
    ensures forall i :: 0 <= i < |excluded| ==> lines[i] == ExcludedLine(SectionLabel(excluded[i]), pct[excluded[i]], fmt)
  {
    seq(|excluded|, i requires 0 <= i < |excluded| => ExcludedLine(SectionLabel(excluded[i]), pct[excluded[i]], fmt))
  }

  /** The text box below the pie: the header line, then the excluded
      sections' lines joined by line breaks. */
  function ExcludedText(excluded: seq<string>, pct: map<string, real>, fmt: real -> string): (text: string)
    requires forall s :: s in excluded ==> s in pct
    ensures StartsWith(text, ExcludedHeader + "\n")
  {
    var text := ExcludedHeader + "\n" + Join(ExcludedLines(excluded, pct, fmt), '\n');
    assert text[..|ExcludedHeader + "\n"|] == ExcludedHeader + "\n";
    text
  }

  /** Read back line by line, the text box is the header followed by each
      excluded section's line, in order, as long as no label or formatted
      number holds a line break. */
  lemma ExcludedTextLines(excluded: seq<string>, pct: map<string, real>, fmt: real -> string)
    requires |excluded| > 0
    requires forall s :: s in excluded ==> s in pct && '\n' !in SectionLabel(s) && '\n' !in fmt(pct[s])
    ensures Split(ExcludedText(excluded, pct, fmt), '\n') == [ExcludedHeader] + ExcludedLines(excluded, pct, fmt)
  {
    var lines := ExcludedLines(excluded, pct, fmt);
    forall i | 0 <= i < |lines| ensures '\n' !in lines[i] {
      var s := excluded[i];
      assert s in excluded;
      LineWithoutBreak(SectionLabel(s), pct[s], fmt);
    }
    var all := [ExcludedHeader] + lines;
    assert all[1..] == lines;
    SplitJoin(all, '\n');
  }

  /** A line has no break when its label and its number have none. */
  lemma LineWithoutBreak(name: string, pct: real, fmt: real -> string)
    requires '\n' !in name && '\n' !in fmt(pct)
    ensures '\n' !in ExcludedLine(name, pct, fmt)
  {
  }

  /** With nothing excluded the box holds the header alone. */
  lemma NoExcludedText(pct: map<string, real>, fmt: real -> string)
    ensures ExcludedText([], pct, fmt) == ExcludedHeader + "\n"
  {
  }
}
