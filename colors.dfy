/** Colours as the charts use them: `#RRGGBB` hex text, the byte triple
    it stands for, and the perceived-brightness test that picks black or
    white text on a coloured band (ITU-R BT.601 luma weights 0.299, 0.587
    and 0.114 with threshold 0.5). */
module Colors {
  import opened Wrappers

  /** A colour as three channel bytes. */
  datatype Rgb = Rgb(red: nat, green: nat, blue: nat)

  predicate ValidRgb(c: Rgb) {
    c.red < 256 && c.green < 256 && c.blue < 256
  }

  const HexDigits: string := "0123456789ABCDEF"

  /** Value of one hexadecimal digit, either case; `None` for any other
      character. */
  function HexDigitValue(ch: char): (v: Option<nat>)
    ensures v.Some? ==> v.value < 16
    ensures v.Some? <==> ('0' <= ch <= '9' || 'A' <= ch <= 'F' || 'a' <= ch <= 'f')
  {
    if '0' <= ch <= '9' then Some(ch as nat - '0' as nat)
    else if 'A' <= ch <= 'F' then Some(ch as nat - 'A' as nat + 10)
    else if 'a' <= ch <= 'f' then Some(ch as nat - 'a' as nat + 10)
    else None
  }

  /** The byte spelled by two hexadecimal digits. */
  function HexByte(hi: char, lo: char): (v: Option<nat>)
    ensures v.Some? ==> v.value < 256
    ensures v.Some? <==> HexDigitValue(hi).Some? && HexDigitValue(lo).Some?
  {
    match (HexDigitValue(hi), HexDigitValue(lo))
    case (Some(h), Some(l)) => Some(16 * h + l)
    case _ => None
  }

  /** The part of `matplotlib.colors.to_rgb` the charts rely on: a `#`
      followed by six hexadecimal digits; `None` for any other text (where
      `to_rgb` would raise or accept a named colour). */
  function ParseHex(s: string): (c: Option<Rgb>)
    ensures c.Some? ==> ValidRgb(c.value) && |s| == 7 && s[0] == '#'
  {
    if |s| != 7 || s[0] != '#' then None
    else
      match (HexByte(s[1], s[2]), HexByte(s[3], s[4]), HexByte(s[5], s[6]))
      case (Some(r), Some(g), Some(b)) => Some(Rgb(r, g, b))
      case _ => None
  }

  /** Upper-case `#RRGGBB` text for a colour, the form the palettes use. */
  function ToHex(c: Rgb): (s: string)
    requires ValidRgb(c)
    ensures |s| == 7 && s[0] == '#'
    ensures forall i :: 1 <= i < 7 ==> s[i] in HexDigits
  {
    ['#', HexDigits[c.red / 16], HexDigits[c.red % 16],
          HexDigits[c.green / 16], HexDigits[c.green % 16],
          HexDigits[c.blue / 16], HexDigits[c.blue % 16]]
  }

  lemma HexDigitRoundTrip(d: nat)
    requires d < 16
    ensures HexDigitValue(HexDigits[d]) == Some(d)
  {
  }

  lemma HexByteRoundTrip(v: nat)
    requires v < 256
    ensures HexByte(HexDigits[v / 16], HexDigits[v % 16]) == Some(v)
  {
    HexDigitRoundTrip(v / 16);
    HexDigitRoundTrip(v % 16);
  }

  /** Writing a colour as hex and reading it back gives the same colour. */
  lemma ParseToHex(c: Rgb)
    requires ValidRgb(c)
    ensures ParseHex(ToHex(c)) == Some(c)
  {
    HexByteRoundTrip(c.red);
    HexByteRoundTrip(c.green);
    HexByteRoundTrip(c.blue);
  }

  /** 1000 times the luma on the 0..255 byte scale. */
  function Luma(c: Rgb): (l: nat)
    requires ValidRgb(c)
    ensures l <= 255000
  {
    299 * c.red + 587 * c.green + 114 * c.blue
  }

  /** Perceived brightness as the scripts compute it from `to_rgb`'s
      channel fractions: 0.299 r + 0.587 g + 0.114 b with each channel in
      [0, 1].  Below 0.5 is exactly the integer luma test. */
  function Brightness(c: Rgb): (b: real)
    requires ValidRgb(c)
    ensures 0.0 <= b <= 1.0
    ensures b < 0.5 <==> Luma(c) < 127500
    ensures b * 255000.0 == Luma(c) as real
  {
    0.299 * (c.red as real / 255.0) + 0.587 * (c.green as real / 255.0)
      + 0.114 * (c.blue as real / 255.0)
  }

  /** A background that calls for white text. */
  predicate IsDark(c: Rgb)
    requires ValidRgb(c)
  {
    Brightness(c) < 0.5
  }

  /** Navy (`#000080`) is dark: white text. */
  lemma NavyIsDark()
    ensures ParseHex("#000080") == Some(Rgb(0, 0, 128)) && IsDark(Rgb(0, 0, 128))
  {
    ParseToHex(Rgb(0, 0, 128));
    assert ToHex(Rgb(0, 0, 128)) == "#000080";
  }

  /** Gold (`#FFD700`) is light: black text. */
  lemma GoldIsLight()
    ensures ParseHex("#FFD700") == Some(Rgb(255, 215, 0)) && !IsDark(Rgb(255, 215, 0))
  {
    ParseToHex(Rgb(255, 215, 0));
    assert ToHex(Rgb(255, 215, 0)) == "#FFD700";
  }

  /** The grey fallback `#CCCCCC` is light. */
  lemma LightGreyIsLight()
    ensures ParseHex("#CCCCCC") == Some(Rgb(204, 204, 204)) && !IsDark(Rgb(204, 204, 204))
  {
    ParseToHex(Rgb(204, 204, 204));
    assert ToHex(Rgb(204, 204, 204)) == "#CCCCCC";
  }

  /** The grey fallback `#B0B0B0` is light. */
  lemma SilverIsLight()
    ensures ParseHex("#B0B0B0") == Some(Rgb(176, 176, 176)) && !IsDark(Rgb(176, 176, 176))
  {
    ParseToHex(Rgb(176, 176, 176));
    assert ToHex(Rgb(176, 176, 176)) == "#B0B0B0";
  }
}
