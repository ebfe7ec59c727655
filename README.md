# Spanish employment and value-added charts, modelled in Dafny

The repository is five one-shot pandas/matplotlib scripts. They draw
charts of Spanish gross value added (GVA, *valor añadido bruto*) and
employment by economic sector from tab-separated tables published by the
national statistics agency. Beneath the plotting calls sits a small amount
of sequential logic, and this project models that logic and proves
properties about it:

- **Localized number cleaning.** `..` marks a missing value. In absolute
  columns every `.` is a thousands separator and `,` is the decimal point.
  The percentage columns only swap `,` for `.`.
- **Sector classification.**
  - `translate_sector`: a table lookup with a truncating fallback.
  - Colour lookups with their defaults.
  - The leading upper-case sector code of an A10 name.
  - The many-to-one table from CNAE 2009 sections to A10 groups.
- **Aggregation.**
  - Pivots by year and sector.
  - Shares of a year's total, and conversion of shares to absolute counts.
  - Threshold splits at 3 % and 2.5 %.
  - Ordering by nonincreasing mean.
  - Group means and sums, and their inner join.
  - GVA per worker and GVA in billions.
  - The pie-label rescaling, the excluded-sector text box and the legend filter.
- **Stacked-chart label placement.**
  - Where each text label of a stacked-area chart goes (band, height, colour).
  - The greedy separation rule of the employment chart.
  - The midpoint pass that always labels the smallest band.
  - The luma test that chooses white or black text.

Numbers are Dafny `real`s. A value the scripts would turn into NaN is an
`Option`. A conversion that would raise in Python is the `Err` case of a
`Result`.

Modules, in dependency order:

| module | file | concern |
|---|---|---|
| `Wrappers` | wrappers.dfy | `Option`, `Result`, all-or-nothing `TryMap` |
| `Seqs` | seqs.dfy | sums, filters, keyed sums, means, arg-min, split/join of text |
| `Cleaning` | cleaning.dfy | Python `float()` on plain decimals and the four cleaning pipelines |
| `Colors` | colors.dfy | `#RRGGBB` parsing, luma and the dark-background test |
| `Sectors` | sectors.dfy | `translate_sector`, section labels and colours, leading codes, CNAE→A10 |
| `Ordering` | ordering.dfy | stable sort by nonincreasing score; text order and sorting of the pivot axes |
| `GroupBy` | groupby.dfy | `groupby().sum()`, `.mean()`, key order, inner merge |
| `Frames` | frames.dfy | year-by-sector pivots, stacking order, rows across columns, shares |
| `Stacking` | stacking.dfy | the label passes as specification functions, with their lemmas |
| `EmploymentOverTime` | employment_over_time.dfy | employment stacked charts per sex, with the label loops as methods |
| `GvaOverTime` | gva_over_time.dfy | GVA stacked charts, with the label loops as methods |
| `EmploymentBySex` | employment_by_sex.dfy | employment pie chart and excluded-sector text |
| `SectorScatter` | sector_scatter.dfy | the two GVA-versus-employment scatter charts |

The scripts are mostly expression chains, and those become functions and
lemmas. The two stacked-chart plotting functions are different: they
place labels in loops, one sector at a time. Both add each sector into
the `cum_mid` array, and the employment chart also updates
`last_start_y`, `last_end_y` and `last_mid_y`. Those loops are methods:
`cum_mid` is a local `array<real>`, and the remembered heights are local
variables. Each method is proved equal to a recursive specification pass
in `Stacking`. The lemmas about that pass state what the labels satisfy.

## Model

| member | source | states |
|---|---|---|
| Cleaning.CleanAbsoluteCount | employment_by_sector_by_sex_over_time.py:37-43 | `..` is missing; otherwise the text with dots deleted and commas made points is read as a plain decimal: a value exactly when it is one, and then that number |
| Cleaning.CleanPercentage | employment_by_sector_by_sex_over_time.py:22 | `..` is missing; otherwise only commas become points: a value exactly when the result is a plain decimal, and then that number |
| Cleaning.CleanGrouped | GVA_by_sector_over_time.py:19-24 | the dot-deleted, comma-to-point text read as a plain decimal: a value exactly when it is one, and then that number; `..` fails |
| Cleaning.CleanDecimalComma | employment_by_sector_by_sex.py:25 | only `,`→`.`, then read as a plain decimal: a value exactly when it is one, and then that number; `..` is not special and fails |
| Cleaning.DecimalCommaRead | employment_by_sector_by_sex_over_time.py:22 | `w,f` of digits reads as `w` plus `f` scaled by its length (`12,5` → 12.5), in the percentage column and in the pie chart's column |
| Cleaning.GroupedWithDecimalComma | GVA_by_sector_over_time.py:21-23 | `1.234,5`-style text reads as its grouped digits plus the fraction |
| Cleaning.DotDecimalReadAsInteger | employment_by_sector_by_sex_over_time.py:40-41 | a dot-decimal without a comma loses its point: `w.f` reads as the integer `wf` (so `1234.56` → 123456) |
| Cleaning.AbsoluteCountDotExample | employment_by_sector_by_sex_over_time.py:37-43 | the absolute column reads `1.5` as 15 |
| Cleaning.PercentageRejectsGrouping | employment_by_sector_by_sex_over_time.py:22 | a percentage holding both `.` and `,` fails to convert |
| Cleaning.ParseRejectsComma | employment_by_sector_by_sex.py:25 | `float()` never accepts a comma |
| Colors.ParseToHex | GVA_by_sector_over_time.py:125 | reading back the hex text of a colour gives the same colour |
| Colors.Brightness | employment_by_sector_by_sex_over_time.py:204 | brightness is in [0, 1] and is below 0.5 exactly when 299R+587G+114B < 127500 |
| Colors.NavyIsDark | employment_by_sector_by_sex_over_time.py:97 | `#000080` parses and is dark |
| Colors.GoldIsLight | employment_by_sector_by_sex_over_time.py:93 | `#FFD700` parses and is light |
| Colors.LightGreyIsLight | employment_by_sector_by_sex_over_time.py:133 | the fallback `#CCCCCC` is light |
| Colors.SilverIsLight | GVA_by_sector_over_time.py:64 | the fallback `#B0B0B0` is light |
| Sectors.TranslateSector | employment_by_sector_by_sex_over_time.py:110-112 | table value for a mapped name; otherwise the text after the first space cut to 40, with `...` exactly when the whole name exceeds 40, never over 43 characters |
| Sectors.SectionLabel | employment_by_sector_by_sex.py:90-91 | the 21-entry translation, with the fallback at most 43 characters |
| Sectors.SectionColor | employment_by_sector_by_sex_over_time.py:133 | colour of the translated label, `#CCCCCC` when it has none |
| Sectors.KnownSectionsHaveColors | employment_by_sector_by_sex.py:65-87 | every translated section label has a palette colour |
| Sectors.LeadingCode | labour_productivity_by_sector_vs_workforce_size_by_sector.py:18 | `^([A-Z]+)`: missing exactly when the text does not start with A–Z; otherwise the maximal leading run of capitals |
| Sectors.LeadingCodeOfName | gva_by_sector_vs_workforce_size_by_sector.py:19 | `code + " " + rest` yields `code` (so `BDE Industrias…` → `BDE`) |
| Sectors.LeadingCodeIsNeverTotalEconomy | labour_productivity_by_sector_vs_workforce_size_by_sector.py:130-133 | no extracted code equals `Total Economy` |
| Sectors.Strip | labour_productivity_by_sector_vs_workforce_size_by_sector.py:62 | `.strip()`: a slice of the text with only whitespace outside it, and no whitespace left at either end |
| Sectors.StripIdempotent | gva_by_sector_vs_workforce_size_by_sector.py:59 | stripping twice is stripping once |
| Sectors.A10Group | labour_productivity_by_sector_vs_workforce_size_by_sector.py:62-63 | the group of the stripped name, missing exactly when the stripped name is not a mapping key |
| Sectors.CnaeGroupsAreA10Groups | labour_productivity_by_sector_vs_workforce_size_by_sector.py:30-53 | every mapping value is one of the 14 A10 groups and every group is hit |
| Sectors.MergedSections | gva_by_sector_vs_workforce_size_by_sector.py:30-53 | B→BDE, I→GHI, S→RSTU, `Total`→`Total Economy` |
| Sectors.NoSectionMapsToOPQ | gva_by_sector_vs_workforce_size_by_sector.py:45-47 | O, P and Q stay separate, so no section maps to the GDP table's `OPQ` |
| Ordering.SortByScoreDesc | GVA_by_sector_over_time.py:77 | a permutation of its input in nonincreasing score order |
| Ordering.SortText | GVA_by_sector_over_time.py:27 | `sort_index()`: a rearrangement of the years (same multiset, distinct stays distinct) in ascending text order |
| Ordering.TextLeTotal | employment_by_sector_by_sex_over_time.py:52 | any two years are ordered one way or the other |
| Ordering.TextLeTrans | employment_by_sector_by_sex_over_time.py:52 | the text order is transitive |
| Ordering.TextLeAntisymmetric | employment_by_sector_by_sex_over_time.py:52 | two texts each at most the other are equal, so the sorted order is unique |
| Ordering.YearTextOrder | GVA_by_sector_over_time.py:18 | for digit texts of equal length, such as four-digit years, text order agrees with the order of the numbers they spell |
| GroupBy.KeyOrder | GVA_by_sector_over_time.py:27 | each key that occurs exactly once |
| GroupBy.GroupSum | labour_productivity_by_sector_vs_workforce_size_by_sector.py:70 | one entry per occurring key, holding the total of its rows |
| GroupBy.GroupMean | labour_productivity_by_sector_vs_workforce_size_by_sector.py:66 | one entry per occurring key; entry × row count = row total |
| GroupBy.GroupSumsAddUp | gva_by_sector_vs_workforce_size_by_sector.py:67 | the group sums add up to the total of all keyed rows |
| GroupBy.InnerJoin | labour_productivity_by_sector_vs_workforce_size_by_sector.py:73 | keys on both sides, each with its left and right value |
| Frames.Pivot | GVA_by_sector_over_time.py:27 | each cell is its pair's value, or 0 for a missing pair |
| Frames.MeanPivot | employment_by_sector_by_sex_over_time.py:50-52 | each cell × its group's row count = the group total, 0 when empty |
| Frames.StackOrder | employment_by_sector_by_sex_over_time.py:122-123 | the chosen sectors rearranged (same multiset) by nonincreasing mean |
| Frames.Shares | GVA_by_sector_over_time.py:30-31 | each cell as a percentage of its year's total, missing when that total is 0 |
| Frames.RowSharesAddUp | GVA_by_sector_over_time.py:30-31 | a year with a nonzero total has shares adding up to 100 |
| Frames.SharesAddUp | GVA_by_sector_over_time.py:30-31 | a year with a nonzero total has a share in every column, and they add up to 100 |
| Frames.MaxShare | GVA_by_sector_over_time.py:67 | the largest present share; missing exactly when none is present |
| Stacking.Bases | GVA_by_sector_over_time.py:87-88 | `cumsum − value` is the exclusive prefix sum |
| Stacking.Centre | employment_by_sector_by_sex_over_time.py:157 | a positive band's centre lies strictly inside the band |
| Stacking.Nudge | employment_by_sector_by_sex_over_time.py:159-160 | the height stays or becomes `last + min_sep`; it is never lowered and ends at least `min_sep` from `last` |
| Stacking.SeparatedPassBands | employment_by_sector_by_sex_over_time.py:156-168 | start/end labels name exactly the positive bands, in stacking order |
| Stacking.SeparatedPassLast | employment_by_sector_by_sex_over_time.py:161-173 | the remembered height is the last placed label's, untouched by skipped bands |
| Stacking.SeparatedPassHeights | employment_by_sector_by_sex_over_time.py:157-166 | every start/end label is dark red and never below its band's centre |
| Stacking.SeparatedPassGaps | employment_by_sector_by_sex_over_time.py:159-161 | consecutive labels keep at least 30 apart, and each sits at its band's centre or exactly 30 above the label before it |
| Stacking.NonAdjacentLabelsMayCoincide | employment_by_sector_by_sex_over_time.py:159-161 | four equal bands of 10 give labels 1 and 3 closer than 30 |
| Stacking.MidHeight | employment_by_sector_by_sex_over_time.py:194 | the centre for a positive band, the running offset for a band of 0 or less |
| Stacking.MidPassBands | employment_by_sector_by_sex_over_time.py:193 | midpoint labels name the positive bands and the smallest band, in order |
| Stacking.MidPassLast | employment_by_sector_by_sex_over_time.py:217 | the remembered height is the last placed label's |
| Stacking.MidPassHeights | employment_by_sector_by_sex_over_time.py:194-215 | each label has its band's colour; all but the smallest band's sit at the band's centre, and the smallest band's is never below its raw midpoint height |
| Stacking.MidPassSmallestGap | employment_by_sector_by_sex_over_time.py:196-198 | the smallest band's label keeps at least 30 from the label before it |
| Stacking.CentrePassBands | GVA_by_sector_over_time.py:102-122 | GVA labels name exactly the positive bands, in stacking order |
| Stacking.CentrePassHeights | GVA_by_sector_over_time.py:103-123 | each GVA label sits at its band's centre, strictly inside the band, in its band's colour |
| Stacking.CentrePassRises | GVA_by_sector_over_time.py:120-132 | with no negative band the GVA labels rise strictly |
| EmploymentOverTime.SexTitle | employment_by_sector_by_sex_over_time.py:12-17 | the English word for a known `Sexo`, the value itself otherwise |
| EmploymentOverTime.Year | employment_by_sector_by_sex_over_time.py:23 | `Periodo.str[:4]`: a prefix of at most four characters |
| EmploymentOverTime.CleanAll | employment_by_sector_by_sex_over_time.py:22 | every record's `Total` cleaned, row for row; fails exactly when one fails |
| EmploymentOverTime.KeepCleanedFrom | employment_by_sector_by_sex_over_time.py:22-24 | cleaning then filtering gives the cleaned rows of the filtered records, row for row |
| EmploymentOverTime.ShareRecords | employment_by_sector_by_sex_over_time.py:24 | exactly the share records of the sex, each as often as in the input |
| EmploymentOverTime.PercentageRows | employment_by_sector_by_sex_over_time.py:22-24 | every `Total` is cleaned before filtering, so one bad value anywhere fails; otherwise row `i` is the `i`-th share record of the sex with its cleaned value |
| EmploymentOverTime.SharePivot | employment_by_sector_by_sex_over_time.py:50-52 | years and sectors in ascending text order; each cell is the mean share of its (year, sector) group, 0 when the group is empty |
| EmploymentOverTime.SharePivotYears | employment_by_sector_by_sex_over_time.py:50-52 | the pivot's years are those of the kept rows with a sector |
| EmploymentOverTime.SharePivotSectors | employment_by_sector_by_sex_over_time.py:50-52 | the pivot's sectors are those of the kept rows with a year |
| EmploymentOverTime.TotalRecords | employment_by_sector_by_sex_over_time.py:30-34 | exactly the total-employment records of the sex in absolute units, each as often as in the input |
| EmploymentOverTime.AbsoluteRows | employment_by_sector_by_sex_over_time.py:30-43 | fails exactly when a selected count fails; otherwise row `i` is the `i`-th selected total record with its cleaned count |
| EmploymentOverTime.AnnualTotals | employment_by_sector_by_sex_over_time.py:46-47 | one mean quarterly total per year that has rows |
| EmploymentOverTime.PercentToAbsolute | employment_by_sector_by_sex_over_time.py:59 | cell = share × year total / 100; missing when a year has no total |
| EmploymentOverTime.AbsoluteAddsUp | employment_by_sector_by_sex_over_time.py:59 | when a year's shares add up to 100, its absolute counts add up to the year total |
| EmploymentOverTime.Above | employment_by_sector_by_sex_over_time.py:116 | sectors with some yearly share ≥ 3, in column order |
| EmploymentOverTime.Below | employment_by_sector_by_sex_over_time.py:117 | sectors with every yearly share < 3, in column order |
| EmploymentOverTime.AboveBelowPartition | employment_by_sector_by_sex_over_time.py:115-117 | the two lists together are exactly the columns |
| EmploymentOverTime.MidTextColor | employment_by_sector_by_sex_over_time.py:200-206 | white exactly when the label is not `Other Services`, the share exceeds 2 and the colour is dark |
| EmploymentOverTime.MidTextColorExamples | employment_by_sector_by_sex_over_time.py:200-206 | navy gives white; gold, `Other Services` or a share of 2 give black |
| EmploymentOverTime.MidColors | employment_by_sector_by_sex_over_time.py:202-203 | each sector's midpoint colour from its translated label and mid share |
| EmploymentOverTime.StartEndLabels | employment_by_sector_by_sex_over_time.py:141-178 | the start/end loop produces the separated passes over the first and last years |
| EmploymentOverTime.PlaceSeparated | employment_by_sector_by_sex_over_time.py:156-161 | one iteration of that loop extends the pass by one band |
| EmploymentOverTime.MidpointLabels | employment_by_sector_by_sex_over_time.py:181-219 | the midpoint loop, with `cum_mid` as an array, produces the midpoint pass at `len // 2` with the first arg-min band |
| EmploymentOverTime.AddColumn | employment_by_sector_by_sex_over_time.py:219 | after adding stacked column `i`, each year's running total is that year's sum over the first `i + 1` columns |
| EmploymentOverTime.PlotSectorStackplotWithLabels | employment_by_sector_by_sex_over_time.py:120-219 | stacking order by nonincreasing mean, then the three passes over the stacked columns |
| GvaOverTime.SectorRecords | GVA_by_sector_over_time.py:11 | exactly the records with a nonempty sector, each as often as in the input |
| GvaOverTime.GvaRows | GVA_by_sector_over_time.py:11-24 | fails exactly when a kept VAB fails; otherwise row `i` is the `i`-th record with a sector, keyed by (year, sector), with its cleaned VAB |
| GvaOverTime.GvaPivot | GVA_by_sector_over_time.py:27 | fails exactly on a duplicate (year, sector) pair; otherwise years and sectors in ascending text order, each cell its pair's value or 0 |
| GvaOverTime.GvaPivotYears | GVA_by_sector_over_time.py:27 | the pivot's years are exactly those of the rows |
| GvaOverTime.GvaPivotSectors | GVA_by_sector_over_time.py:27 | the pivot's sectors are exactly those of the rows |
| GvaOverTime.SingleRowTotal | GVA_by_sector_over_time.py:27 | without duplicates, a pair's total is its single row's value |
| GvaOverTime.Rename | GVA_by_sector_over_time.py:47-48 | names outside the dictionary are unchanged |
| GvaOverTime.RenameCollides | GVA_by_sector_over_time.py:47-48 | a dictionary column and a column already named `Manufacturing` rename to the same name |
| GvaOverTime.GvaColor | GVA_by_sector_over_time.py:82 | palette colour or `#B0B0B0` |
| GvaOverTime.RenamedSectorsHaveColors | GVA_by_sector_over_time.py:34-63 | every renamed sector has its own palette colour |
| GvaOverTime.BandTextColor | GVA_by_sector_over_time.py:125-127 | white exactly when the colour parses and is dark |
| GvaOverTime.BandTextColorExamples | GVA_by_sector_over_time.py:58 | finance (navy) gives white; trade (gold) and an unknown sector give black |
| GvaOverTime.MajorSectors | GVA_by_sector_over_time.py:68 | sectors whose largest share is ≥ 3 |
| GvaOverTime.MinorSectors | GVA_by_sector_over_time.py:69 | sectors whose largest share is < 3 |
| GvaOverTime.MajorMinorSplit | GVA_by_sector_over_time.py:67-69 | the lists are disjoint, and a sector is in neither exactly when every year total is 0 |
| GvaOverTime.EdgeLabels | GVA_by_sector_over_time.py:86-112 | the start/end loop produces black centre passes over the first and last years |
| GvaOverTime.PlaceCentre | GVA_by_sector_over_time.py:122-130 | one iteration extends the centre pass by one band |
| GvaOverTime.MidLabels | GVA_by_sector_over_time.py:116-132 | the midpoint loop, with `cum_mid` as an array, produces the centre pass at `len // 2` |
| GvaOverTime.MidColors | GVA_by_sector_over_time.py:125-127 | each band's text colour from its renamed palette colour |
| GvaOverTime.PlotStack | GVA_by_sector_over_time.py:72-132 | stacking order by nonincreasing mean, then the three centre passes |
| EmploymentBySex.SelectedRecords | employment_by_sector_by_sex.py:20-21 | exactly the rows of the sex whose period starts with the year, with their multiplicities |
| EmploymentBySex.SectorRows | employment_by_sector_by_sex.py:20-25 | the selected rows, each cleaned by comma swap; fails when one fails |
| EmploymentBySex.Percents | employment_by_sector_by_sex.py:32 | percent × total of means = 100 × mean; missing when that total is 0 |
| EmploymentBySex.PercentsAddUp | employment_by_sector_by_sex.py:29-32 | the percents add up to 100 |
| EmploymentBySex.SectorPercent | employment_by_sector_by_sex.py:28-32 | one percent per sector that occurs, adding up to 100 |
| EmploymentBySex.Included | employment_by_sector_by_sex.py:36 | sectors ≥ 2.5 with their multiplicities, by nonincreasing percent |
| EmploymentBySex.Excluded | employment_by_sector_by_sex.py:37 | sectors < 2.5 with their multiplicities, by nonincreasing percent |
| EmploymentBySex.IncludedExcludedPartition | employment_by_sector_by_sex.py:35-37 | the two lists are disjoint and together are all sectors |
| EmploymentBySex.IncludedPlusExcluded | employment_by_sector_by_sex.py:98 | included and excluded raw averages add up to the whole |
| EmploymentBySex.IncludedSumBounds | employment_by_sector_by_sex.py:98 | the included raw sum is at most the total, and equal when nothing is excluded |
| EmploymentBySex.FormatPct | employment_by_sector_by_sex.py:101-104 | shown × total = value × included sum; missing when the total is 0 |
| EmploymentBySex.FormatPctOfWhole | employment_by_sector_by_sex.py:101-104 | a wedge's label is its sector's percentage of the whole economy, not of the pie |
| EmploymentBySex.FormatPctWhole | employment_by_sector_by_sex.py:101-104 | with everything included the shown percent is the wedge's own |
| EmploymentBySex.FormatPctBounded | employment_by_sector_by_sex.py:101-104 | for nonnegative data the shown percent never exceeds the wedge's |
| EmploymentBySex.PieLabel | employment_by_sector_by_sex.py:98-104 | for the real included sum the label exists, is at most the wedge's percent, and equals it when nothing is excluded |
| EmploymentBySex.Wedges | employment_by_sector_by_sex.py:93-98 | each wedge has its sector's short label, colour and raw average, in included order |
| EmploymentBySex.WedgeSizesSum | employment_by_sector_by_sex.py:108 | the wedge sizes add up to the included raw sum |
| EmploymentBySex.ExcludedLine | employment_by_sector_by_sex.py:117 | the line is `- label: `, then the formatted percent, then `%` |
| EmploymentBySex.ExcludedLines | employment_by_sector_by_sex.py:114-117 | one line per excluded sector, in excluded order |
| EmploymentBySex.ExcludedText | employment_by_sector_by_sex.py:116-118 | the text starts with the header line |
| EmploymentBySex.ExcludedTextLines | employment_by_sector_by_sex.py:116-118 | splitting at newlines gives the header followed by the excluded lines |
| EmploymentBySex.NoExcludedText | employment_by_sector_by_sex.py:116-118 | with nothing excluded only the header and its newline remain |
| SectorScatter.GdpRecords2023 | labour_productivity_by_sector_vs_workforce_size_by_sector.py:11-21 | exactly the 2023 gross-value-added records with an A10 name, each as often as in the input |
| SectorScatter.GdpRows | labour_productivity_by_sector_vs_workforce_size_by_sector.py:11-21 | every GVA row with a sector is cleaned (one failure fails); otherwise row `i` is the `i`-th 2023 record, keyed by leading code, with its cleaned value |
| SectorScatter.BothAbsoluteRecords | labour_productivity_by_sector_vs_workforce_size_by_sector.py:26 | exactly the both-sexes absolute records, each as often as in the input |
| SectorScatter.EmpRows | labour_productivity_by_sector_vs_workforce_size_by_sector.py:26-63 | fails exactly when a selected total fails; otherwise row `i` is the `i`-th both-sexes absolute record, keyed by A10 group, with its cleaned value |
| SectorScatter.Merged | labour_productivity_by_sector_vs_workforce_size_by_sector.py:66-73 | groups in both aggregates, with summed GDP and mean employment |
| SectorScatter.NoTotalEconomyPoint | labour_productivity_by_sector_vs_workforce_size_by_sector.py:130-133 | `Total Economy` never reaches the merged table, so the average line is never drawn |
| SectorScatter.NoOPQPoint | gva_by_sector_vs_workforce_size_by_sector.py:70 | the GDP side's `OPQ` never merges |
| SectorScatter.GvaPerWorker | labour_productivity_by_sector_vs_workforce_size_by_sector.py:74 | result × employment = GDP (thousand € per worker); missing for zero employment |
| SectorScatter.GdpBillions | gva_by_sector_vs_workforce_size_by_sector.py:71 | billions × 1000 = millions |
| SectorScatter.ScatterName | labour_productivity_by_sector_vs_workforce_size_by_sector.py:77-93 | the label of a known group, missing otherwise |
| SectorScatter.PaletteColor | labour_productivity_by_sector_vs_workforce_size_by_sector.py:112 | a colour exactly when the palette lists the label |
| SectorScatter.NamedGroupsHaveColors | gva_by_sector_vs_workforce_size_by_sector.py:74-109 | every group label has a palette colour |
| SectorScatter.ProductivityPoints | labour_productivity_by_sector_vs_workforce_size_by_sector.py:74 | one point per merged group, y × employment = GDP |
| SectorScatter.BillionsPoints | gva_by_sector_vs_workforce_size_by_sector.py:71 | one point per merged group, y × 1000 = GDP |
| SectorScatter.Legend | labour_productivity_by_sector_vs_workforce_size_by_sector.py:142-146 | exactly the palette entries whose label is shown, in palette order |
| SectorScatter.ProductivityChart | labour_productivity_by_sector_vs_workforce_size_by_sector.py:10-74 | fails unless both tables clean and a 2023 GDP row exists; one point per merged group |

## Left out

- Rendering: stackplots, pies, scatters, text placement on the axes,
  legends drawn as patches, limits, ticks, titles, saving and showing.
  Only the values handed to these calls are modelled.
- File reading, the hard-coded paths, latin-1 decoding and the
  diagnostic prints. The tables are parameters, given as sequences of
  records.
- Unicode NFKD normalisation and ASCII re-encoding of the CNAE names.
  It lives in a foreign library. `Sectors.CnaeToA10` holds the keys in
  their already-normalised, accent-free form, and the employment names
  are assumed normalised as well. Only `.strip()` is modelled.
- `matplotlib.colors.to_rgb`. It is replaced by a `#RRGGBB` parser, the
  only colour form the palettes use. The brightness test is the exact
  integer form of the 0.299/0.587/0.114 weights.
- IEEE-754 floating point and NaN propagation. Values are exact reals.
  A division by a zero total, which gives NaN or an infinity, is `None`.
  `float()`'s acceptance of `nan`, `inf`, exponents, surrounding
  whitespace, underscores between digits (`1_000`) and non-ASCII decimal
  digits is not modelled: the cleaners return `Err` on such text where
  the scripts read a number. Their contracts speak of plain ASCII
  decimals only.
- Cleaning.CleanAbsoluteCount: fails on rewritten text that `float()`
  reads but that is not a plain ASCII decimal (see the line above).
- Cleaning.CleanPercentage: the same restriction to plain ASCII decimals.
- Cleaning.CleanGrouped: the same restriction to plain ASCII decimals.
- Cleaning.CleanDecimalComma: the same restriction to plain ASCII
  decimals.
- The f-string number formats (`:.1f`, `:.2f`, `:,.0f`). The
  excluded-sector text takes the formatter as a parameter. Label text is
  not modelled: labels carry band, height and colour.
- pandas sort orders outside the pivots. The pivots' years and sectors
  are sorted (`Ordering.SortText`), so the first, last and middle years
  the label passes read are those of the script. The pie chart's
  `groupby` keys are kept in first-appearance order; they are then
  sorted by percent, so only the order among equal percents may differ.
  `sort_values` is modelled as a stable sort; pandas' default sort is not
  guaranteed stable, so again only the order among equal means may
  differ.
- Years are kept as their text. `pd.to_numeric` and `astype(int)` are not
  modelled, except that the 2023 filter compares the parsed year with
  2023, as `pd.to_numeric` would. The GVA pivot therefore sorts its years
  as text where the script sorts numbers; the two orders agree on
  four-digit years, as for all digit texts of one length
  (`Ordering.YearTextOrder`).
- A missing `VAB`, `GDP` or `Total` cell. `astype(str)` turns it into
  `nan`, which `float()` would read back as NaN. Records carry text, so
  such a cell is not represented.
- GvaOverTime.PlotStack: the frame keeps the raw A10 column names, and
  the Spanish-to-English rename is applied where the colour is looked up.
  The script renames the columns first. The two agree as long as no raw
  column name is already one of the English short names; otherwise the
  rename merges two columns into one name (`GvaOverTime.RenameCollides`),
  which the model does not represent.
- EmploymentOverTime.PlotSectorStackplotWithLabels: requires at least one
  chosen sector and at least one year. With no sector `np.argmin`
  raises; with no year `iloc[0]` raises `IndexError`. The model does not
  represent either failure.
- GvaOverTime.PlotStack: requires at least one year. With none,
  `iloc[0]` raises `IndexError`; the model does not represent the
  failure.
- EmploymentOverTime.PercentToAbsolute: a year with no absolute total
  makes the whole result missing. pandas would give NaN for that year
  only.
- EmploymentOverTime.PercentToAbsolute: keeps the share pivot's years.
  `mul(axis=0)` aligns on the union of the two indexes, so a year that
  has a total but no share row becomes an extra all-NaN row in the
  script, which the label passes may then read as the first, last or
  middle year. The model has no such row.
- EmploymentBySex.SectorPercent: rows whose sector is missing fall out
  of the groups, as pandas' `groupby` drops NaN keys.
- The `y_max` argument and the axis limits computed from column sums.
- The order of the rows of the merged scatter table. The model keeps the
  merge as a map keyed by group.

## Notes on the number cleaning

The absolute-value pipelines delete every `.` before turning `,` into a
decimal point. So a value written with a decimal point, such as
`1234.56`, reads as 123456 (`Cleaning.DotDecimalReadAsInteger`). The
model follows the code here, not a reading of `1234.56` as a decimal.
