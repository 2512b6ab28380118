/**
 * Swiss price display and the lenient number reader that undoes it.
 *
 * A price is shown as `Math.round(v).toLocaleString("en-US").replace(/,/g, "'")`, optionally
 * after a label such as `"CHF "`. Prices are read back from the page by deleting every character
 * other than digits, `.` and `-` and handing the rest to `parseFloat`, with a default for
 * unreadable text and for a missing element.
 */
module SwissFormat {
  import opened Wrappers
  import opened JsValues

  function DigitChar(d: nat): (c: char)
    requires d < 10
    ensures IsDigit(c) && DigitValue(c) == d
  {
    ('0' as int + d) as char
  }

  /** The decimal digits of `n`, most significant first, without leading zeros. */
  function NatToString(n: nat): (s: string)
    ensures s != [] && AllDigits(s)
    ensures DigitsValue(s) == n
    ensures n > 0 ==> s[0] != '0'
  {
    if n < 10 then [DigitChar(n)]
    else
      var s := NatToString(n / 10) + [DigitChar(n % 10)];
      assert s[..|s| - 1] == NatToString(n / 10);
      s
  }

  /** `String(k)` for an integer `k`: its digits, after a minus sign when negative. */
  function IntToString(k: int): string
  {
    if k < 0 then "-" + NatToString(-k) else NatToString(k)
  }

  /** The en-US digit grouping: a comma before every block of three digits counted from the right. */
  function GroupThousands(ds: string): string
    decreases |ds|
  {
    if |ds| <= 3 then ds else GroupThousands(ds[..|ds| - 3]) + "," + ds[|ds| - 3..]
  }

  /** `k.toLocaleString("en-US")` for an integer `k`. */
  function ToLocaleStringEnUs(k: int): string
  {
    if k < 0 then "-" + GroupThousands(NatToString(-k)) else GroupThousands(NatToString(k))
  }

  /** `s.replace(/,/g, "'")`. */
  function ReplaceCommas(s: string): (r: string)
    ensures |r| == |s|
    ensures forall i | 0 <= i < |s| :: r[i] == (if s[i] == ',' then '\'' else s[i])
  {
    if s == [] then [] else [if s[0] == ',' then '\'' else s[0]] + ReplaceCommas(s[1..])
  }

  /** The Swiss rendering of an integer amount, e.g. `12'345`. */
  function SwissAmount(k: int): string
  {
    ReplaceCommas(ToLocaleStringEnUs(k))
  }

  /** The price display: `Math.round(value)` in Swiss grouping after the label `prefix`. */
  function FormatPrice(value: real, prefix: string): string
  {
    prefix + SwissAmount(MathRound(value))
  }

  /**
   * `k.toLocaleString("en-US").replace(/,/g, "'")` for `Math.round`/`Math.floor` results: NaN
   * shows as `"NaN"` and the infinities as `"∞"` and `"-∞"`.
   */
  function AmountText(k: WholeNum): string
  {
    match k
    case Whole(n) => SwissAmount(n)
    case WholeNaN => "NaN"
    case WholeInfinite(negative) => if negative then "-\U{221E}" else "\U{221E}"
  }

  /** `String(k)`, as assigning a number to an input's `value` gives. */
  function NumberText(k: WholeNum): string
  {
    match k
    case Whole(n) => IntToString(n)
    case WholeNaN => "NaN"
    case WholeInfinite(negative) => if negative then "-Infinity" else "Infinity"
  }

  // ---------------------------------------------------------------------------------------------
  // String(x) for a number with a fraction

  /** The most decimal places the model writes after the point. */
  const Places: nat := 20

  /** `f` (between 0 and 1) has at most `places` decimal places. */
  predicate EndsWithin(f: real, places: nat)
    requires 0.0 <= f < 1.0
    decreases places
  {
    f == 0.0 || (places > 0 && EndsWithin(f * 10.0 - (f * 10.0).Floor as real, places - 1))
  }

  /** The decimal digits of `f` (between 0 and 1) after the point, at most `places` of them. */
  function FractionText(f: real, places: nat): (s: string)
    requires 0.0 <= f < 1.0
    ensures AllDigits(s)
    decreases places
  {
    if f == 0.0 || places == 0 then []
    else
      var d := (f * 10.0).Floor;
      [DigitChar(d)] + FractionText(f * 10.0 - d as real, places - 1)
  }

  /** `String(x)` for `x >= 0`: the integer digits, then the point and the fraction digits when there is a fraction. */
  function MagnitudeText(x: real): string
    requires x >= 0.0
  {
    var whole := x.Floor;
    var frac := x - whole as real;
    NatToString(whole) + (if frac == 0.0 then "" else "." + FractionText(frac, Places))
  }

  /** `String(x)` for a number `x`, in plain decimal notation. */
  function NumberToString(x: real): string
  {
    if x < 0.0 then "-" + MagnitudeText(-x) else MagnitudeText(x)
  }

  /** The number `x` has at most `Places` decimal places. */
  predicate ShortDecimal(x: real)
  {
    var m := if x < 0.0 then -x else x;
    EndsWithin(m - m.Floor as real, Places)
  }

  /** `String(v)`: the text JavaScript converts a value to. */
  function JsString(v: JsValue): string
  {
    match v
    case Undefined => "undefined"
    case Null => "null"
    case Bool(b) => if b then "true" else "false"
    case Number(x) => NumberToString(x)
    case NaN => "NaN"
    case Str(s) => s
    case Obj(_) => "[object Object]"
  }

  /** The characters that survive `replace(/[^0-9.-]+/g, "")`. */
  predicate IsNumberChar(c: char)
  {
    IsDigit(c) || c == '.' || c == '-'
  }

  /** `s.replace(/[^0-9.-]+/g, "")`. */
  function Strip(s: string): (r: string)
    ensures |r| <= |s|
    ensures forall i | 0 <= i < |r| :: IsNumberChar(r[i])
  {
    if s == [] then []
    else if IsNumberChar(s[0]) then [s[0]] + Strip(s[1..])
    else Strip(s[1..])
  }

  /**
   * `getNumberFromElement(id, default)`: the element's text with every non-number character
   * removed, parsed; `default` for a missing element (`None`) and for text that parses to NaN.
   */
  function ReadNumber(text: Option<string>, default: real): real
  {
    match text
    case None => default
    case Some(t) =>
      match ParseFloat(Strip(t))
      case None => default
      case Some(v) => v
  }

  /** A text without any digit reads as the default. */
  lemma {:induction false} ReadNumberWithoutDigits(t: string, default: real)
    requires forall i | 0 <= i < |t| :: !IsDigit(t[i])
    ensures ReadNumber(Some(t), default) == default
  {
    var s := Strip(t);
    if ParseFloat(s).Some? {
      ParseFloatNeedsDigit(s);
      var i :| 0 <= i < |s| && IsDigit(s[i]);
      StripKeepsOnlyCharsOf(t, i);
      assert false;
    }
  }

  // ---------------------------------------------------------------------------------------------
  // The round trip: reading a displayed price gives back the rounded amount.

  lemma {:induction false} StripKeepsOnlyCharsOf(s: string, i: nat)
    requires i < |Strip(s)|
    ensures Strip(s)[i] in s
  {
    if IsNumberChar(s[0]) {
      if i > 0 {
        StripKeepsOnlyCharsOf(s[1..], i - 1);
      }
    } else {
      StripKeepsOnlyCharsOf(s[1..], i);
    }
  }

  lemma {:induction false} StripConcat(a: string, b: string)
    ensures Strip(a + b) == Strip(a) + Strip(b)
  {
    if a == [] {
      assert a + b == b;
    } else {
      assert (a + b)[0] == a[0];
      assert (a + b)[1..] == a[1..] + b;
      StripConcat(a[1..], b);
    }
  }

  lemma {:induction false} ReplaceCommasConcat(a: string, b: string)
    ensures ReplaceCommas(a + b) == ReplaceCommas(a) + ReplaceCommas(b)
  {
    if a == [] {
      assert a + b == b;
    } else {
      assert (a + b)[0] == a[0];
      assert (a + b)[1..] == a[1..] + b;
      ReplaceCommasConcat(a[1..], b);
    }
  }

  lemma {:induction false} StripDigits(ds: string)
    requires AllDigits(ds)
    ensures Strip(ds) == ds
  {
    if ds != [] {
      StripDigits(ds[1..]);
    }
  }

  lemma {:induction false} ReplaceCommasDigits(ds: string)
    requires AllDigits(ds)
    ensures ReplaceCommas(ds) == ds
  {
  }

  lemma {:induction false} SeparatorStripped()
    ensures ReplaceCommas(",") == "'"
    ensures Strip("'") == []
  {
  }

  /** Deleting the apostrophes of a grouped number gives back its digits. */
  lemma {:induction false} StripGrouped(ds: string)
    requires AllDigits(ds)
    ensures Strip(ReplaceCommas(GroupThousands(ds))) == ds
    decreases |ds|
  {
    if |ds| <= 3 {
      ReplaceCommasDigits(ds);
      StripDigits(ds);
    } else {
      var high, low := ds[..|ds| - 3], ds[|ds| - 3..];
      var gh := GroupThousands(high);
      assert GroupThousands(ds) == gh + "," + low;
      ReplaceCommasConcat(gh + ",", low);
      ReplaceCommasConcat(gh, ",");
      ReplaceCommasDigits(low);
      SeparatorStripped();
      var rgh := ReplaceCommas(gh);
      assert ReplaceCommas(GroupThousands(ds)) == rgh + "'" + low;
      StripConcat(rgh + "'", low);
      StripConcat(rgh, "'");
      StripGrouped(high);
      StripDigits(low);
      assert high + low == ds;
    }
  }

  lemma {:induction false} LeadingDigitsOfDigits(ds: string)
    requires AllDigits(ds)
    ensures LeadingDigits(ds) == ds
  {
    if ds != [] {
      LeadingDigitsOfDigits(ds[1..]);
    }
  }

  lemma {:induction false} ParseUnsignedDigits(ds: string)
    requires ds != [] && AllDigits(ds)
    ensures ParseUnsigned(ds) == Some(DigitsValue(ds) as real)
  {
    LeadingDigitsOfDigits(ds);
    assert ds[|ds|..] == [];
  }

  lemma {:induction false} ParseFloatUnsigned(s: string)
    requires s != [] && IsDigit(s[0])
    ensures ParseFloat(s) == ParseUnsigned(s)
  {
    assert !IsWhiteSpace(s[0]);
    assert TrimStart(s) == s;
  }

  lemma {:induction false} ParseFloatNegative(ds: string, v: real)
    requires ParseUnsigned(ds) == Some(v)
    ensures ParseFloat("-" + ds) == Some(-v)
  {
    var s := "-" + ds;
    assert s[0] == '-' && s[1..] == ds;
    assert !IsWhiteSpace(s[0]);
    assert TrimStart(s) == s;
  }

  /** `parseFloat(String(k)) == k` for every integer `k`. */
  lemma {:induction false} ParseIntToString(k: int)
    ensures ParseFloat(IntToString(k)) == Some(k as real)
  {
    if k < 0 {
      ParseNegativeInt(k);
    } else {
      ParseNonNegativeInt(k);
    }
  }

  lemma {:induction false} ParseNegativeInt(k: int)
    requires k < 0
    ensures ParseFloat(IntToString(k)) == Some(k as real)
  {
    var ds := NatToString(-k);
    assert IntToString(k) == "-" + ds;
    ParseNatToString(-k);
    ParseFloatNegative(ds, (-k) as real);
  }

  lemma {:induction false} ParseNonNegativeInt(k: int)
    requires k >= 0
    ensures ParseFloat(IntToString(k)) == Some(k as real)
  {
    var ds := NatToString(k);
    assert IntToString(k) == ds;
    ParseNatToString(k);
    ParseFloatUnsigned(ds);
  }

  lemma {:induction false} ParseNatToString(n: nat)
    ensures ParseUnsigned(NatToString(n)) == Some(n as real)
  {
    ParseUnsignedDigits(NatToString(n));
  }

  /** The Swiss rendering, stripped of its apostrophes, is the plain decimal rendering. */
  lemma {:induction false} StripSwissAmount(k: int)
    ensures Strip(SwissAmount(k)) == IntToString(k)
  {
    var n: nat := if k < 0 then -k else k;
    StripGrouped(NatToString(n));
    if k < 0 {
      ReplaceCommasConcat("-", GroupThousands(NatToString(n)));
      StripConcat("-", ReplaceCommas(GroupThousands(NatToString(n))));
    }
  }

  /** The plain decimal rendering survives the strip unchanged. */
  lemma {:induction false} StripIntToString(k: int)
    ensures Strip(IntToString(k)) == IntToString(k)
  {
    var n: nat := if k < 0 then -k else k;
    StripDigits(NatToString(n));
    if k < 0 {
      StripConcat("-", NatToString(n));
    }
  }

  /**
   * Round trip: a price displayed after a label without digits, dots or minus signs (such as
   * `"CHF "`) reads back as exactly the rounded amount.
   */
  lemma {:induction false} ReadBackPrice(k: int, prefix: string, default: real)
    requires Strip(prefix) == []
    ensures ReadNumber(Some(prefix + SwissAmount(k)), default) == k as real
  {
    StripConcat(prefix, SwissAmount(k));
    StripSwissAmount(k);
    assert Strip(prefix + SwissAmount(k)) == IntToString(k);
    ParseIntToString(k);
  }

  /** Reading back `FormatPrice(v, "CHF ")` gives `Math.round(v)`. */
  lemma {:induction false} ReadBackFormattedPrice(v: real, default: real)
    ensures ReadNumber(Some(FormatPrice(v, "CHF ")), default) == MathRound(v) as real
  {
    assert Strip("CHF ") == [];
    ReadBackPrice(MathRound(v), "CHF ", default);
  }

  /** The displayed amount contains no comma: every separator became an apostrophe. */
  lemma {:induction false} SwissAmountHasNoComma(k: int)
    ensures ',' !in SwissAmount(k)
  {
  }

  // ---------------------------------------------------------------------------------------------
  // String(x) reads back

  /** A whole number is written as its integer digits, as `String(k)` writes an integer. */
  lemma WholeNumberText(k: int)
    ensures NumberToString(k as real) == IntToString(k)
  {
    if k < 0 {
      assert (-(k as real)).Floor == -k;
    } else {
      assert (k as real).Floor == k;
    }
  }

  /** The digits written for a fraction with at most `places` decimal places denote it exactly. */
  lemma {:induction false} FractionTextValue(f: real, places: nat)
    requires 0.0 <= f < 1.0 && EndsWithin(f, places)
    ensures FractionValue(FractionText(f, places)) == f
    decreases places
  {
    if f != 0.0 {
      var d := (f * 10.0).Floor;
      var g := f * 10.0 - d as real;
      FractionTextValue(g, places - 1);
      var s := FractionText(f, places);
      assert s == [DigitChar(d)] + FractionText(g, places - 1);
      assert s[1..] == FractionText(g, places - 1);
      assert FractionValue(s) == (d as real + g) / 10.0;
    }
  }

  /** The digits of `ds` followed by a text starting with a point are the leading digits. */
  lemma {:induction false} LeadingDigitsBeforePoint(ds: string, rest: string)
    requires AllDigits(ds) && rest != [] && rest[0] == '.'
    ensures LeadingDigits(ds + rest) == ds
    decreases |ds|
  {
    if ds != [] {
      LeadingDigitsBeforePoint(ds[1..], rest);
      assert (ds + rest)[1..] == ds[1..] + rest;
    }
  }

  /** `parseFloat` reads a plain non-negative decimal back as the number written. */
  lemma {:induction false} MagnitudeTextReadsBack(x: real)
    requires x >= 0.0 && EndsWithin(x - x.Floor as real, Places)
    ensures ParseUnsigned(MagnitudeText(x)) == Some(x)
    ensures MagnitudeText(x) != [] && IsDigit(MagnitudeText(x)[0])
  {
    var whole: nat := x.Floor;
    var frac := x - whole as real;
    var ds := NatToString(whole);
    if frac == 0.0 {
      assert MagnitudeText(x) == ds;
      ParseNatToString(whole);
    } else {
      var fs := FractionText(frac, Places);
      assert MagnitudeText(x) == ds + ("." + fs);
      FractionFollowsDigits(ds, fs, whole, frac);
    }
  }

  /** The integer digits, a point and the fraction digits read back as the integer plus the fraction. */
  lemma {:induction false} FractionFollowsDigits(ds: string, fs: string, whole: nat, frac: real)
    requires ds == NatToString(whole) && 0.0 < frac < 1.0 && EndsWithin(frac, Places)
    requires fs == FractionText(frac, Places)
    ensures ParseUnsigned(ds + ("." + fs)) == Some(whole as real + frac)
    ensures IsDigit((ds + ("." + fs))[0])
  {
    var rest := "." + fs;
    LeadingDigitsBeforePoint(ds, rest);
    assert (ds + rest)[|ds|..] == rest;
    assert rest[1..] == fs;
    LeadingDigitsOfDigits(fs);
    FractionTextValue(frac, Places);
    assert (ds + rest)[0] == ds[0];
  }

  /**
   * `parseFloat(String(x)) == x` for every number with at most `Places` decimal places: the text
   * a number is written as reads back as that number.
   */
  lemma {:induction false} NumberToStringReadsBack(x: real)
    requires ShortDecimal(x)
    ensures ParseFloat(NumberToString(x)) == Some(x)
  {
    if x < 0.0 {
      NegativeReadsBack(x);
    } else {
      NonNegativeReadsBack(x);
    }
  }

  lemma NegativeReadsBack(x: real)
    requires x < 0.0 && EndsWithin(-x - (-x).Floor as real, Places)
    ensures ParseFloat("-" + MagnitudeText(-x)) == Some(x)
  {
    var y := -x;
    MagnitudeTextReadsBack(y);
    var t := MagnitudeText(y);
    ParseFloatNegative(t, y);
    assert -y == x;
  }

  lemma NonNegativeReadsBack(x: real)
    requires x >= 0.0 && EndsWithin(x - x.Floor as real, Places)
    ensures ParseFloat(MagnitudeText(x)) == Some(x)
  {
    MagnitudeTextReadsBack(x);
    ParseFloatUnsigned(MagnitudeText(x));
  }
}
