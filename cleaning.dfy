/** Conversion of the statistics agency's localized number text into
    numbers.  The exports write thousands with `.` and decimals with `,`
    ("1.234,5"); each script rewrites the text with `str.replace` and then
    hands it to Python's `float()`.  Which rewrite a script applies decides
    the number it reads, so each of the four variants is modelled on its
    own, over one shared model of `float()`. */
module Cleaning {
  import opened Wrappers
  import opened Seqs

  predicate IsDigit(c: char) {
    '0' <= c <= '9'
  }

  predicate AllDigits(s: string) {
    forall i :: 0 <= i < |s| ==> IsDigit(s[i])
  }

  /** Value of a run of decimal digits, most significant first. */
  function DigitsValue(s: string): nat
    requires AllDigits(s)
    decreases |s|
  {
    if s == [] then 0
    else DigitsValue(s[..|s| - 1]) * 10 + (s[|s| - 1] as int - '0' as int)
  }

  /** Ten to the power `k`: the scale of a `k`-digit fraction. */
  function Pow10(k: nat): (p: nat)
    ensures p >= 1
  {
    if k == 0 then 1 else 10 * Pow10(k - 1)
  }

  /** The number a dot-decimal spells: its integer part plus its digits
      after the point, scaled down by their count. */
  function DecimalValue(whole: string, frac: string): real
    requires AllDigits(whole) && AllDigits(frac)
  {
    DigitsValue(whole) as real + DigitsValue(frac) as real / Pow10(|frac|) as real
  }

  /** Python's `float()` on an unsigned plain decimal: digits, at most one
      `.`, more digits, and at least one digit in all. */
  function ParseUnsigned(s: string): Option<real>
  {
    if '.' !in s then
      if s != [] && AllDigits(s) then Some(DigitsValue(s) as real) else None
    else
      var i := FirstIndex(s, '.');
      var whole, frac := s[..i], s[i + 1..];
      if AllDigits(whole) && AllDigits(frac) && |whole| + |frac| > 0
      then Some(DecimalValue(whole, frac))
      else None
  }

  /** Python's `float()` on plain ASCII decimals with an optional sign:
      a number for such text, `None` for any other.  `float()` also reads
      some texts outside that form (underscores between digits, other
      scripts' digits, exponents, `nan`, `inf`); those are `None` here. */
  function ParseFloat(s: string): Option<real>
  {
    if s != [] && (s[0] == '-' || s[0] == '+') then
      match ParseUnsigned(s[1..])
      case Some(v) => Some(if s[0] == '-' then -v else v)
      case None => None
    else ParseUnsigned(s)
  }

  lemma DigitsAreNotPunctuation(s: string)
    requires AllDigits(s)
    ensures '.' !in s && ',' !in s && '-' !in s && '+' !in s
  {
    assert forall i :: 0 <= i < |s| ==> s[i] != '.' && s[i] != ',' && s[i] != '-' && s[i] != '+';
  }

  /** A run of digits reads as the integer it spells. */
  lemma ParseInteger(digits: string)
    requires AllDigits(digits) && digits != []
    ensures ParseFloat(digits) == Some(DigitsValue(digits) as real)
  {
    DigitsAreNotPunctuation(digits);
    assert digits[0] in digits;
  }

  /** A dot-decimal reads as its integer part plus its fraction. */
  lemma ParseDecimal(whole: string, frac: string)
    requires AllDigits(whole) && AllDigits(frac) && |whole| + |frac| > 0
    ensures ParseFloat(whole + "." + frac)
         == Some(DecimalValue(whole, frac))
  {
    var s := whole + "." + frac;
    var i := |whole|;
    assert s[..i] == whole && s[i + 1..] == frac && s[i] == '.';
    forall j | 0 <= j < i ensures s[j] != '.' {
      assert s[j] == whole[j];
    }
    FirstIndexIs(s, '.', i);
    UnsignedAtPoint(s, i, whole, frac);
    assert s[0] == '.' || s[0] == whole[0];
    UnsignedIsFloat(s);
  }

  /** Text that does not start with a sign is read as unsigned. */
  lemma UnsignedIsFloat(s: string)
    requires s != [] && (s[0] == '.' || IsDigit(s[0]))
    ensures ParseFloat(s) == ParseUnsigned(s)
  {
  }

  /** An unsigned decimal is read around its first point. */
  lemma UnsignedAtPoint(s: string, i: nat, whole: string, frac: string)
    requires i < |s| && s[i] == '.' && FirstIndex(s, '.') == i
    requires whole == s[..i] && frac == s[i + 1..]
    requires AllDigits(whole) && AllDigits(frac) && |whole| + |frac| > 0
    ensures ParseUnsigned(s)
         == Some(DecimalValue(whole, frac))
  {
    assert '.' in s;
  }

  /** `float()` never accepts a comma, so every decimal comma has to be
      rewritten before the conversion. */
  lemma ParseRejectsComma(s: string)
    requires ',' in s
    ensures ParseFloat(s) == None
  {
    var k :| 0 <= k < |s| && s[k] == ',';
    var signed := s[0] == '-' || s[0] == '+';
    var u := if signed then s[1..] else s;
    var j := if signed then k - 1 else k;
    assert 0 <= j < |u| && u[j] == ',';
    UnsignedRejectsComma(u, j);
  }

  lemma UnsignedRejectsComma(u: string, j: nat)
    requires j < |u| && u[j] == ','
    ensures ParseUnsigned(u) == None
  {
    if '.' !in u {
      assert !IsDigit(u[j]);
    } else {
      var i := FirstIndex(u, '.');
      assert i != j;
      if j < i {
        assert u[..i][j] == ',';
        assert !IsDigit(u[..i][j]);
      } else {
        assert u[i + 1..][j - i - 1] == ',';
        assert !IsDigit(u[i + 1..][j - i - 1]);
      }
    }
  }

  predicate NotDot(c: char) {
    c != '.'
  }

  /** `str.replace('.', '', regex=False)`: every `.` is deleted. */
  function DeleteDots(s: string): (r: string)
    ensures '.' !in r && |r| <= |s|
    ensures forall c :: c in r <==> c in s && c != '.'
  {
    Filter(s, NotDot)
  }

  lemma DeleteDotsAppend(s: string, t: string)
    ensures DeleteDots(s + t) == DeleteDots(s) + DeleteDots(t)
  {
    FilterAppend(s, t, NotDot);
  }

  /** `str.replace(',', '.')`: every `,` becomes `.`, nothing moves. */
  function CommaToDot(s: string): (r: string)
    ensures |r| == |s| && ',' !in r
    ensures forall i :: 0 <= i < |s| ==> r[i] == (if s[i] == ',' then '.' else s[i])
  {
    seq(|s|, i requires 0 <= i < |s| => if s[i] == ',' then '.' else s[i])
  }

  /** The thousands-separator rewrite shared by the absolute-count and GVA
      columns: delete every `.`, then read `,` as the decimal point. */
  function ParseGrouped(raw: string): Option<real>
  {
    ParseFloat(CommaToDot(DeleteDots(raw)))
  }

  lemma DigitsUnchanged(s: string)
    requires AllDigits(s)
    ensures DeleteDots(s) == s && CommaToDot(s) == s
    decreases |s|
  {
    DigitsAreNotPunctuation(s);
    if s != [] {
      var init := s[..|s| - 1];
      DigitsUnchanged(init);
      assert s == init + [s[|s| - 1]];
    }
  }

  /** The localized form: thousands grouped with `.` before a decimal
      comma ("1.234,5" reads 1234.5). */
  lemma {:induction false} GroupedWithDecimalComma(whole: string, frac: string)
    requires AllDigits(DeleteDots(whole)) && AllDigits(frac)
    requires |DeleteDots(whole)| + |frac| > 0
    ensures ParseGrouped(whole + "," + frac)
         == Some(DecimalValue(DeleteDots(whole), frac))
  {
    GroupedRewrite(whole, frac);
    ParseDecimal(DeleteDots(whole), frac);
  }

  lemma GroupedRewrite(whole: string, frac: string)
    requires AllDigits(DeleteDots(whole)) && AllDigits(frac)
    ensures CommaToDot(DeleteDots(whole + "," + frac)) == DeleteDots(whole) + "." + frac
  {
    var w := DeleteDots(whole);
    DigitsUnchanged(w);
    DigitsUnchanged(frac);
    DeleteDotsAppend(whole, ",");
    DeleteDotsAppend(whole + ",", frac);
    DeleteDotsSingle(',');
    assert DeleteDots(whole + "," + frac) == w + "," + frac;
    CommaToDotJoin(w, frac);
  }

  lemma DeleteDotsSingle(c: char)
    ensures DeleteDots([c]) == if c == '.' then [] else [c]
  {
    assert [c][..0] == [];
  }

  lemma CommaToDotJoin(w: string, frac: string)
    requires AllDigits(w) && AllDigits(frac)
    ensures CommaToDot(w + "," + frac) == w + "." + frac
  {
    var d := w + "," + frac;
    var e := CommaToDot(d);
    var t := w + "." + frac;
    DigitsAreNotPunctuation(w);
    DigitsAreNotPunctuation(frac);
    forall i | 0 <= i < |d| ensures e[i] == t[i] {
      if i < |w| {
        assert d[i] == w[i] && w[i] in w;
      } else if i > |w| {
        assert d[i] == frac[i - |w| - 1] && frac[i - |w| - 1] in frac;
      }
    }
  }

  /** Without a comma every `.` counts as a thousands separator, so a
      dot-decimal is read as an integer ("1234.56" reads 123456). */
  lemma {:induction false} GroupedWithoutComma(s: string)
    requires AllDigits(DeleteDots(s)) && DeleteDots(s) != []
    ensures ParseGrouped(s) == Some(DigitsValue(DeleteDots(s)) as real)
  {
    DigitsUnchanged(DeleteDots(s));
    ParseInteger(DeleteDots(s));
  }

  /** The absolute employment column: `..` is the missing marker; every
      other text goes through the thousands-separator rewrite, and a text
      that rewrite cannot turn into a number is an error. */
  function CleanAbsoluteCount(raw: string): (r: Result<Option<real>>)
    ensures r == Ok(None) <==> raw == ".."
    ensures raw != ".." ==> (r.Ok? <==> ParseGrouped(raw).Some?)
    ensures r.Ok? && raw != ".." ==> r.value == Some(ParseGrouped(raw).value)
  {
    if raw == ".." then Ok(None)
    else
      match ParseGrouped(raw)
      case Some(v) => Ok(Some(v))
      case None => Err(raw)
  }

  /** The percentage column: `..` is missing; otherwise only the decimal
      comma is rewritten before the conversion. */
  function CleanPercentage(raw: string): (r: Result<Option<real>>)
    ensures r == Ok(None) <==> raw == ".."
    ensures raw != ".." ==> (r.Ok? <==> ParseFloat(CommaToDot(raw)).Some?)
    ensures r.Ok? && raw != ".." ==> r.value == Some(ParseFloat(CommaToDot(raw)).value)
  {
    if raw == ".." then Ok(None)
    else
      match ParseFloat(CommaToDot(raw))
      case Some(v) => Ok(Some(v))
      case None => Err(raw)
  }

  lemma DotsVanish()
    ensures DeleteDots("..") == []
  {
    DeleteDotsAppend(".", ".");
    assert "." == [] + ['.'];
    assert ".." == "." + ".";
  }

  /** The thousands-separator rewrite with no missing marker, as the GVA,
      GDP and scatter employment columns are read: `..` leaves an empty
      text that `float()` rejects. */
  function CleanGrouped(raw: string): (r: Result<real>)
    ensures r.Ok? <==> ParseGrouped(raw).Some?
    ensures r.Ok? ==> r.value == ParseGrouped(raw).value
    ensures raw == ".." ==> r == Err("..")
  {
    DotsVanish();
    match ParseGrouped(raw)
    case Some(v) => Ok(v)
    case None => Err(raw)
  }

  /** The pie chart's column: only the decimal comma is rewritten and
      there is no missing marker. */
  function CleanDecimalComma(raw: string): (r: Result<real>)
    ensures r.Ok? <==> ParseFloat(CommaToDot(raw)).Some?
    ensures r.Ok? ==> r.value == ParseFloat(CommaToDot(raw)).value
    ensures raw == ".." ==> r == Err("..")
  {
    match ParseFloat(CommaToDot(raw))
    case Some(v) => Ok(v)
    case None => Err(raw)
  }

  /** The comma-only rewrite reads a decimal comma as the point: "12,5"
      is 12.5 in the percentage column and in the pie chart's column. */
  lemma DecimalCommaRead(whole: string, frac: string)
    requires AllDigits(whole) && AllDigits(frac) && |whole| + |frac| > 0
    ensures CleanPercentage(whole + "," + frac) == Ok(Some(DecimalValue(whole, frac)))
    ensures CleanDecimalComma(whole + "," + frac) == Ok(DecimalValue(whole, frac))
  {
    var raw := whole + "," + frac;
    CommaToDotJoin(whole, frac);
    ParseDecimal(whole, frac);
    assert raw[|whole|] == ',';
  }

  /** A dot-decimal without a comma loses its point: "w.f" reads as the
      integer spelled by the digits of w followed by those of f. */
  lemma {:induction false} DotDecimalReadAsInteger(whole: string, frac: string)
    requires AllDigits(whole) && AllDigits(frac) && |whole| + |frac| > 0
    ensures ParseGrouped(whole + "." + frac) == Some(DigitsValue(whole + frac) as real)
  {
    var s, d := whole + "." + frac, whole + frac;
    DeleteTheDot(whole, frac);
    forall i | 0 <= i < |d| ensures IsDigit(d[i]) {
      if i < |whole| {
        assert d[i] == whole[i];
      } else {
        assert d[i] == frac[i - |whole|];
      }
    }
    GroupedWithoutComma(s);
  }

  /** Deleting the dots of `w.f` for digit runs `w` and `f` leaves `wf`. */
  lemma DeleteTheDot(whole: string, frac: string)
    requires AllDigits(whole) && AllDigits(frac)
    ensures DeleteDots(whole + "." + frac) == whole + frac
  {
    var a := whole + ".";
    assert whole + "." + frac == a + frac;
    DigitsUnchanged(whole);
    DigitsUnchanged(frac);
    DeleteDotsAppend(a, frac);
    DeleteDotsAppend(whole, ".");
    DeleteDotsSingle('.');
    assert "." == ['.'];
    assert DeleteDots(a) == whole;
  }

  lemma SmallDigitValues()
    ensures AllDigits("5") && DigitsValue("5") == 5
    ensures AllDigits("15") && DigitsValue("15") == 15
  {
    assert "15"[..1] == "1" && "1"[..0] == [] && "5"[..0] == [];
    assert AllDigits("1") && DigitsValue("1") == 1;
  }

  /** The absolute-count column reads "1.5" as 15. */
  lemma AbsoluteCountDotExample()
    ensures CleanAbsoluteCount("1.5") == Ok(Some(15.0))
  {
    SmallDigitValues();
    DotDecimalReadAsInteger("1", "5");
    assert "1.5" == "1" + "." + "5";
    assert "1" + "5" == "15";
  }

  /** The percentage column keeps `.` untouched, so a value that also has
      a thousands separator ("1.234,5") cannot be read and aborts the
      script. */
  lemma {:induction false} PercentageRejectsGrouping(raw: string)
    requires '.' in raw && ',' in raw
    ensures CleanPercentage(raw).Err?
  {
    var s := CommaToDot(raw);
    var i :| 0 <= i < |raw| && raw[i] == '.';
    var j :| 0 <= j < |raw| && raw[j] == ',';
    assert s[i] == '.' && s[j] == '.' && i != j;
    var signed := s[0] == '-' || s[0] == '+';
    var u := if signed then s[1..] else s;
    var off := if signed then 1 else 0;
    assert i >= off && j >= off;
    var lo, hi := if i < j then i - off else j - off, if i < j then j - off else i - off;
    assert lo < hi < |u| && u[lo] == '.' && u[hi] == '.';
    TwoDotsRejected(u, lo, hi);
  }

  lemma TwoDotsRejected(u: string, lo: nat, hi: nat)
    requires lo < hi < |u| && u[lo] == '.' && u[hi] == '.'
    ensures ParseUnsigned(u) == None
  {
    var d := FirstIndex(u, '.');
    assert forall k :: 0 <= k < d ==> u[..d][k] == u[k];
    assert d <= lo;
    assert u[d + 1..][hi - d - 1] == '.';
    assert !IsDigit(u[d + 1..][hi - d - 1]);
  }
}
