/** Sector names: the short English labels of the employment charts (a
    table lookup with a truncating fallback), their colours, the leading
    A10 code of a GDP sector name, and the many-to-one table from CNAE 2009
    sections to A10 groups used by the scatter charts. */
module Sectors {
  import opened Wrappers
  import opened Seqs
  import Cleaning

  /** `s.split(' ', 1)[-1]`: the text after the first space, or the whole
      text when it has none. */
  function AfterFirstSpace(s: string): (r: string)
    ensures |r| <= |s| && r == s[|s| - |r|..]
    ensures ' ' !in s ==> r == s
    ensures ' ' in s ==> |r| < |s| && s[|s| - |r| - 1] == ' ' && ' ' !in s[..|s| - |r| - 1]
  {
    if ' ' in s then s[FirstIndex(s, ' ') + 1..] else s
  }

  /** Longest label the fallback keeps before the ellipsis. */
  const LabelWidth: nat := 40

  /** `translate_sector`: the table's label for a known section name;
      otherwise the name without its leading code, cut to 40 characters,
      with `...` added when the original name is longer than 40. */
  function TranslateSector(table: map<string, string>, s: string): (r: string)
    ensures s in table ==> r == table[s]
    ensures s !in table ==> |r| <= LabelWidth + 3
    ensures s !in table && |s| <= LabelWidth ==> r == AfterFirstSpace(s)
    ensures s !in table && |s| > LabelWidth ==>
              |r| >= 3 && r[|r| - 3..] == "..."
              && r[..|r| - 3] <= AfterFirstSpace(s)
              && (|r| == LabelWidth + 3 || r[..|r| - 3] == AfterFirstSpace(s))
  {
    if s in table then table[s]
    else
      var tail := AfterFirstSpace(s);
      var cut := if |tail| <= LabelWidth then tail else tail[..LabelWidth];
      cut + (if |s| > LabelWidth then "..." else "")
  }

  /** The section names of the employment exports and their short labels
      (shared by both employment scripts). */
  const SectionLabels: map<string, string> := map[
    "A Agricultura, ganadería, silvicultura y pesca" := "Agriculture & Fishing",
    "B Industrias extractivas" := "Extractive Industries",
    "C Industria manufacturera" := "Manufacturing",
    "D Suministro de energía eléctrica, gas, vapor y aire acondicionado" := "Energy Supply",
    "E Suministro de agua, actividades de saneamiento, gestión de residuos y descontaminación" := "Water & Waste",
    "F Construcción" := "Construction",
    "G Comercio al por mayor y al por menor; reparación de vehículos de motor y motocicletas" := "Trade & Repair",
    "H Transporte y almacenamiento" := "Transport & Storage",
    "I Hostelería" := "Hospitality",
    "J Información y comunicaciones" := "Information & Comms",
    "K Actividades financieras y de seguros" := "Finance & Insurance",
    "L Actividades inmobiliarias" := "Real Estate",
    "M Actividades profesionales, científicas y técnicas" := "Professional & Technical",
    "N Actividades administrativas y servicios auxiliares" := "Administrative Services",
    "O Administración Pública y defensa; Seguridad Social obligatoria" := "Public Administration",
    "P Educación" := "Education",
    "Q Actividades sanitarias y de servicios sociales" := "Health & Social Services",
    "R Actividades artísticas, recreativas y de entretenimiento" := "Arts & Entertainment",
    "S Otros servicios" := "Other Services",
    "T Actividades de los hogares como empleadores de personal doméstico; actividades de los hogares como productores de bienes y servicios para uso propio" := "Household Activities",
    "U Actividades de organizaciones y organismos extraterritoriales" := "Extraterritorial Organizations"
  ]

  /** Colours of the short labels (shared by both employment scripts). */
  const SectionPalette: map<string, string> := map[
    "Agriculture & Fishing" := "#8FBC8F",
    "Extractive Industries" := "#DAA520",
    "Manufacturing" := "#4682B4",
    "Energy Supply" := "#B22222",
    "Water & Waste" := "#20B2AA",
    "Construction" := "#D2691E",
    "Trade & Repair" := "#FFD700",
    "Transport & Storage" := "#708090",
    "Hospitality" := "#FF8C00",
    "Information & Comms" := "#00CED1",
    "Finance & Insurance" := "#000080",
    "Real Estate" := "#BC8F8F",
    "Professional & Technical" := "#9932CC",
    "Administrative Services" := "#A0522D",
    "Public Administration" := "#2E8B57",
    "Education" := "#1E90FF",
    "Health & Social Services" := "#FF69B4",
    "Arts & Entertainment" := "#DB7093",
    "Other Services" := "#696969",
    "Household Activities" := "#778899",
    "Extraterritorial Organizations" := "#556B2F"
  ]

  /** Colour of bands and wedges whose label has no palette entry. */
  const EmploymentFallbackColor: string := "#CCCCCC"

  /** The employment scripts' short label for a section name. */
  function SectionLabel(s: string): (r: string)
    ensures s in SectionLabels ==> r == SectionLabels[s]
    ensures s !in SectionLabels ==> |r| <= LabelWidth + 3
  {
    TranslateSector(SectionLabels, s)
  }

  /** Colour of a section in the employment charts: the palette colour of
      its short label, grey when the label has none. */
  function SectionColor(s: string): (c: string)
    ensures SectionLabel(s) in SectionPalette ==> c == SectionPalette[SectionLabel(s)]
    ensures SectionLabel(s) !in SectionPalette ==> c == EmploymentFallbackColor
  {
    GetOr(SectionPalette, SectionLabel(s), EmploymentFallbackColor)
  }

  /** Every known section has its own colour: the grey fallback only ever
      colours names missing from the label table. */
  lemma KnownSectionsHaveColors()
    ensures forall s :: s in SectionLabels ==> SectionLabels[s] in SectionPalette
  {
  }

  predicate IsUpper(c: char) {
    'A' <= c <= 'Z'
  }

  /** The longest prefix made only of the letters A to Z. */
  function UpperRun(s: string): (r: string)
    ensures r <= s
    ensures forall i :: 0 <= i < |r| ==> IsUpper(r[i])
    ensures |r| < |s| ==> !IsUpper(s[|r|])
    decreases |s|
  {
    if s == [] || !IsUpper(s[0]) then []
    else [s[0]] + UpperRun(s[1..])
  }

  /** `str.extract(r'^([A-Z]+)')`: the leading run of capitals of an A10
      name, missing when the name does not start with one. */
  function LeadingCode(s: string): (r: Option<string>)
    ensures r.None? <==> (s == [] || !IsUpper(s[0]))
    ensures r.Some? ==> r.value == UpperRun(s) && r.value != []
  {
    var run := UpperRun(s);
    if run == [] then None else Some(run)
  }

  /** A code followed by a space and a description yields exactly that
      code ("BDE Industrias extractivas; ..." gives "BDE"). */
  lemma {:induction false} LeadingCodeOfName(code: string, rest: string)
    requires code != [] && forall i :: 0 <= i < |code| ==> IsUpper(code[i])
    ensures LeadingCode(code + " " + rest) == Some(code)
  {
    UpperRunOfName(code, rest);
  }

  lemma {:induction false} UpperRunOfName(code: string, rest: string)
    requires forall i :: 0 <= i < |code| ==> IsUpper(code[i])
    ensures UpperRun(code + " " + rest) == code
    decreases |code|
  {
    var s := code + " " + rest;
    if code == [] {
      assert s[0] == ' ';
    } else {
      assert s[0] == code[0];
      assert s[1..] == code[1..] + " " + rest;
      UpperRunOfName(code[1..], rest);
    }
  }

  /** A code is made of capitals only, so no A10 name ever yields the
      employment side's "Total Economy" group. */
  lemma LeadingCodeIsNeverTotalEconomy(s: string)
    ensures LeadingCode(s) != Some("Total Economy")
  {
    var r := LeadingCode(s);
    if r.Some? {
      var v := r.value;
      assert |v| != 13 || v[1] != "Total Economy"[1] by {
        if |v| == 13 {
          assert IsUpper(v[1]);
        }
      }
    }
  }

  /** The ASCII characters Python's `str.isspace()` accepts: space, tab,
      the line and form feeds, carriage return and the four information
      separators 0x1C-0x1F. */
  predicate IsSpace(c: char) {
    c == ' ' || c == '\t' || c == '\n' || c == '\r' || c == '\U{000B}' || c == '\U{000C}'
    || ('\U{001C}' <= c <= '\U{001F}')
  }

  /** Drops leading white space. */
  function StripLeft(s: string): (r: string)
    ensures |r| <= |s| && r == s[|s| - |r|..]
    ensures r != [] ==> !IsSpace(r[0])
    ensures forall i :: 0 <= i < |s| - |r| ==> IsSpace(s[i])
    decreases |s|
  {
    if s != [] && IsSpace(s[0]) then StripLeft(s[1..]) else s
  }

  /** Drops trailing white space. */
  function StripRight(s: string): (r: string)
    ensures r <= s
    ensures r != [] ==> !IsSpace(r[|r| - 1])
    ensures forall i :: |r| <= i < |s| ==> IsSpace(s[i])
    decreases |s|
  {
    if s != [] && IsSpace(s[|s| - 1]) then StripRight(s[..|s| - 1]) else s
  }

  /** Only white space lies outside `s[i..j]`. */
  predicate SpaceOutside(s: string, i: nat, j: nat)
    requires i <= j <= |s|
  {
    && (forall k :: 0 <= k < i ==> IsSpace(s[k]))
    && (forall k :: j <= k < |s| ==> IsSpace(s[k]))
  }

  /** `str.strip()` on ASCII white space: the text between the leading
      and the trailing run of white space. */
  function Strip(s: string): (r: string)
    ensures |r| <= |s|
    ensures r != [] ==> !IsSpace(r[0]) && !IsSpace(r[|r| - 1])
    ensures exists i, j :: 0 <= i <= j <= |s| && r == s[i..j] && SpaceOutside(s, i, j)
  {
    var left := StripLeft(s);
    var r := StripRight(left);
    StripBounds(s, left, r, |s| - |left|);
    r
  }

  /** Where the two halves of `Strip` cut: `i` characters go on the
      left. */
  lemma StripBounds(s: string, left: string, r: string, i: nat)
    requires left == StripLeft(s) && r == StripRight(left) && i == |s| - |left|
    ensures i + |r| <= |s| && r == s[i..i + |r|] && SpaceOutside(s, i, i + |r|)
  {
    SliceOfSlice(s, i, left, r);
    forall k | i + |r| <= k < |s| ensures IsSpace(s[k]) {
      assert s[k] == left[k - i];
    }
  }

  /** A prefix of a suffix is a slice, and what the suffix adds after the
      prefix is what the whole adds there. */
  lemma SliceOfSlice(s: string, i: nat, left: string, r: string)
    requires i <= |s| && left == s[i..] && r <= left
    ensures r == s[i..i + |r|]
    ensures forall k :: i + |r| <= k < |s| ==> s[k] == left[k - i]
  {
    forall k | 0 <= k < |r| ensures r[k] == s[i..i + |r|][k] {
      assert r[k] == left[k];
    }
  }

  lemma {:induction false} StripLeftNoSpace(s: string)
    requires s == [] || !IsSpace(s[0])
    ensures StripLeft(s) == s
  {
  }

  lemma {:induction false} StripRightNoSpace(s: string)
    requires s == [] || !IsSpace(s[|s| - 1])
    ensures StripRight(s) == s
  {
  }

  /** Stripping twice is stripping once. */
  lemma StripIdempotent(s: string)
    ensures Strip(Strip(s)) == Strip(s)
  {
    var r := Strip(s);
    StripLeftNoSpace(r);
    StripRightNoSpace(r);
  }

  /** The CNAE 2009 section names of the employment export, in the
      accent-free spelling the scripts compare against, and their A10
      groups. */
  const CnaeToA10: map<string, string> := map[
    "A Agricultura, ganaderia, silvicultura y pesca" := "A",
    "B Industrias extractivas" := "BDE",
    "C Industria manufacturera" := "C",
    "D Suministro de energia electrica, gas, vapor y aire acondicionado" := "BDE",
    "E Suministro de agua, actividades de saneamiento, gestion de residuos y descontaminacion" := "BDE",
    "F Construccion" := "F",
    "G Comercio al por mayor y al por menor; reparacion de vehiculos de motor y motocicletas" := "GHI",
    "H Transporte y almacenamiento" := "GHI",
    "I Hosteleria" := "GHI",
    "J Informacion y comunicaciones" := "J",
    "K Actividades financieras y de seguros" := "K",
    "L Actividades inmobiliarias" := "L",
    "M Actividades profesionales, cientificas y tecnicas" := "MN",
    "N Actividades administrativas y servicios auxiliares" := "MN",
    "O Administracion Publica y defensa; Seguridad Social obligatoria" := "O",
    "P Educacion" := "P",
    "Q Actividades sanitarias y de servicios sociales" := "Q",
    "R Actividades artisticas, recreativas y de entretenimiento" := "RSTU",
    "S Otros servicios" := "RSTU",
    "T Actividades de los hogares como empleadores de personal domestico; actividades de los hogares como productores de bienes y servicios para uso propio" := "RSTU",
    "U Actividades de organizaciones y organismos extraterritoriales" := "RSTU",
    "Total" := "Total Economy"
  ]

  /** The groups the table can produce. */
  const A10Groups: set<string> :=
    {"A", "BDE", "C", "F", "GHI", "J", "K", "L", "MN", "O", "P", "Q", "RSTU", "Total Economy"}

  /** `Series.map(sector_mapping)` after stripping: the A10 group of an
      employment row, missing for a name the table does not know. */
  function A10Group(name: string): (g: Option<string>)
    ensures g.Some? <==> Strip(name) in CnaeToA10
    ensures g.Some? ==> g.value == CnaeToA10[Strip(name)]
  {
    var key := Strip(name);
    if key in CnaeToA10 then Some(CnaeToA10[key]) else None
  }

  /** The table is many-to-one onto exactly the listed groups. */
  lemma CnaeGroupsAreA10Groups()
    ensures forall k :: k in CnaeToA10 ==> CnaeToA10[k] in A10Groups
    ensures forall g :: g in A10Groups ==> g in CnaeToA10.Values
  {
    assert CnaeToA10["A Agricultura, ganaderia, silvicultura y pesca"] == "A";
    assert CnaeToA10["B Industrias extractivas"] == "BDE";
    assert CnaeToA10["C Industria manufacturera"] == "C";
    assert CnaeToA10["F Construccion"] == "F";
    assert CnaeToA10["I Hosteleria"] == "GHI";
    assert CnaeToA10["J Informacion y comunicaciones"] == "J";
    assert CnaeToA10["K Actividades financieras y de seguros"] == "K";
    assert CnaeToA10["L Actividades inmobiliarias"] == "L";
    assert CnaeToA10["N Actividades administrativas y servicios auxiliares"] == "MN";
    assert CnaeToA10["O Administracion Publica y defensa; Seguridad Social obligatoria"] == "O";
    assert CnaeToA10["P Educacion"] == "P";
    assert CnaeToA10["Q Actividades sanitarias y de servicios sociales"] == "Q";
    assert CnaeToA10["S Otros servicios"] == "RSTU";
    assert CnaeToA10["Total"] == "Total Economy";
  }

  /** A name with no white space at either end is looked up as it is. */
  lemma A10GroupOfTrimmed(name: string)
    requires name != [] && !IsSpace(name[0]) && !IsSpace(name[|name| - 1])
    ensures A10Group(name) == if name in CnaeToA10 then Some(CnaeToA10[name]) else None
  {
    StripLeftNoSpace(name);
    StripRightNoSpace(name);
  }

  /** B, D and E share one group, as do G, H and I; M and N; and R to U;
      the overall total is its own "Total Economy" group. */
  lemma MergedSections()
    ensures A10Group("B Industrias extractivas") == Some("BDE")
    ensures A10Group("I Hosteleria") == Some("GHI")
    ensures A10Group("S Otros servicios") == Some("RSTU")
    ensures A10Group("Total") == Some("Total Economy")
  {
    var b, i, s, t := "B Industrias extractivas", "I Hosteleria", "S Otros servicios", "Total";
    assert b[0] == 'B' && b[|b| - 1] == 's';
    assert i[0] == 'I' && i[|i| - 1] == 'a';
    assert s[0] == 'S' && s[|s| - 1] == 's';
    assert t[0] == 'T' && t[|t| - 1] == 'l';
    A10GroupOfTrimmed(b);
    A10GroupOfTrimmed(i);
    A10GroupOfTrimmed(s);
    A10GroupOfTrimmed(t);
  }

  /** No section maps to "OPQ", the code the GDP export gives its public
      services group; O, P and Q stay separate groups on the employment
      side. */
  lemma NoSectionMapsToOPQ()
    ensures "OPQ" !in CnaeToA10.Values
  {
    CnaeGroupsAreA10Groups();
  }
}
