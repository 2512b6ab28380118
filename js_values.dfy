/**
 * The pieces of JavaScript's value semantics that the form and payment code relies on:
 * truthiness, property access, `Math.round` / `Math.floor`, `String.prototype.trim`,
 * `parseFloat`, and the "missing required fields" filter used by every validator.
 */
module JsValues {
  import opened Wrappers

  /** A JavaScript value as far as the validators inspect it. `Number` holds a finite number. */
  datatype JsValue =
    | Undefined
    | Null
    | Bool(b: bool)
    | Number(x: real)
    | NaN
    | Str(s: string)
    | Obj(fields: map<string, JsValue>)

  /** JavaScript truthiness: `false`, `0`, `NaN`, `""`, `null` and `undefined` are falsy. */
  predicate Truthy(v: JsValue)
  {
    match v
    case Undefined => false
    case Null => false
    case Bool(b) => b
    case Number(x) => x != 0.0
    case NaN => false
    case Str(s) => s != ""
    case Obj(_) => true
  }

  /** Property read `v[key]`: `undefined` for a missing key and for any value that is not an object. */
  function Get(v: JsValue, key: string): JsValue
  {
    match v
    case Obj(fields) => if key in fields then fields[key] else Undefined
    case _ => Undefined
  }

  /** `params[key]` on a plain parameter object. */
  function Lookup(params: map<string, JsValue>, key: string): JsValue
  {
    if key in params then params[key] else Undefined
  }

  /** A JavaScript number produced by arithmetic: a finite value, NaN, or an infinity with its sign. */
  datatype Num = Finite(v: real) | NotANumber | Infinite(negative: bool)

  /** The result of `Math.round` or `Math.floor`: an integer, or the NaN or infinity it was given. */
  datatype WholeNum = Whole(k: int) | WholeNaN | WholeInfinite(negative: bool)

  /** `x * k` for a finite `k`: an infinity times 0 is NaN, otherwise the signs multiply. */
  function Times(x: Num, k: real): Num
  {
    match x
    case Finite(a) => Finite(a * k)
    case NotANumber => NotANumber
    case Infinite(negative) => if k == 0.0 then NotANumber else Infinite(negative != (k < 0.0))
  }

  /** `x + y`: NaN wins, and two infinities of opposite sign give NaN. */
  function Plus(x: Num, y: Num): Num
  {
    match (x, y)
    case (NotANumber, _) => NotANumber
    case (_, NotANumber) => NotANumber
    case (Infinite(a), Infinite(b)) => if a == b then x else NotANumber
    case (Infinite(_), Finite(_)) => x
    case (Finite(_), Infinite(_)) => y
    case (Finite(a), Finite(b)) => Finite(a + b)
  }

  /**
   * `x / d` for a finite `d`; a zero divisor is `+0`, so a positive `x` gives +Infinity, a
   * negative one -Infinity, and 0 gives NaN.
   */
  function Over(x: Num, d: real): Num
  {
    match x
    case NotANumber => NotANumber
    case Infinite(negative) => Infinite(negative != (d < 0.0))
    case Finite(a) =>
      if d != 0.0 then Finite(a / d)
      else if a > 0.0 then Infinite(false)
      else if a < 0.0 then Infinite(true)
      else NotANumber
  }

  /** `Math.round`: the nearest integer, halves rounded up (towards +Infinity). */
  function MathRound(x: real): (k: int)
    ensures k as real - 0.5 <= x < k as real + 0.5
  {
    (x + 0.5).Floor
  }

  /** `Math.floor`: the largest integer not above `x`. */
  function MathFloor(x: real): (k: int)
    ensures k as real <= x < k as real + 1.0
  {
    x.Floor
  }

  /** `Math.round` never lies below `Math.floor` and at most one above it. */
  lemma RoundIsFloorOrNext(x: real)
    ensures MathFloor(x) <= MathRound(x) <= MathFloor(x) + 1
    ensures MathRound(x) == MathFloor(x) + 1 <==> x - MathFloor(x) as real >= 0.5
  {
  }

  /** `Math.round` of a number that may be NaN or infinite; those are kept as they are. */
  function RoundNum(n: Num): (r: WholeNum)
    ensures r.Whole? <==> n.Finite?
    ensures n.Finite? ==> r.k == MathRound(n.v)
    ensures r.WholeNaN? <==> n.NotANumber?
    ensures n.Infinite? ==> r == WholeInfinite(n.negative)
  {
    match n
    case Finite(v) => Whole(MathRound(v))
    case NotANumber => WholeNaN
    case Infinite(negative) => WholeInfinite(negative)
  }

  /** `Math.floor` of a number that may be NaN or infinite; those are kept as they are. */
  function FloorNum(n: Num): (r: WholeNum)
    ensures r.Whole? <==> n.Finite?
    ensures n.Finite? ==> r.k == MathFloor(n.v)
    ensures r.WholeNaN? <==> n.NotANumber?
    ensures n.Infinite? ==> r == WholeInfinite(n.negative)
  {
    match n
    case Finite(v) => Whole(MathFloor(v))
    case NotANumber => WholeNaN
    case Infinite(negative) => WholeInfinite(negative)
  }

  /** `parseFloat(text) || 0`: NaN (and 0 itself) become 0. */
  function OrZero(parsed: Option<real>): real
  {
    match parsed
    case Some(v) => v
    case None => 0.0
  }

  // ---------------------------------------------------------------------------------------------
  // Whitespace and trim

  /**
   * The white-space and line-terminator characters that `trim` and `parseFloat` skip: tab,
   * vertical tab, form feed, the space separators of Unicode category Zs, the byte order mark,
   * and the four line terminators.
   */
  predicate IsWhiteSpace(c: char)
  {
    c == '\t' || c == '\U{000B}' || c == '\U{000C}' || c == '\U{FEFF}'
    || c == ' ' || c == '\U{00A0}' || c == '\U{1680}' || '\U{2000}' <= c <= '\U{200A}'
    || c == '\U{202F}' || c == '\U{205F}' || c == '\U{3000}'
    || c == '\n' || c == '\r' || c == '\U{2028}' || c == '\U{2029}'
  }

  /**
   * JavaScript's `length` of a text: the number of UTF-16 code units, in which a character
   * above U+FFFF (a surrogate pair) counts twice.
   */
  function Utf16Length(s: string): (n: nat)
    ensures |s| <= n <= 2 * |s|
    decreases |s|
  {
    if s == [] then 0
    else Utf16Length(s[..|s| - 1]) + (if s[|s| - 1] as int >= 0x1_0000 then 2 else 1)
  }

  /** The UTF-16 length of two texts put together is the sum of their lengths. */
  lemma {:induction false} Utf16LengthConcat(a: string, b: string)
    ensures Utf16Length(a + b) == Utf16Length(a) + Utf16Length(b)
    decreases |b|
  {
    if b != [] {
      assert (a + b)[..|a + b| - 1] == a + b[..|b| - 1];
      Utf16LengthConcat(a, b[..|b| - 1]);
    } else {
      assert a + b == a;
    }
  }

  /** A slice inside another slice of the same text is no longer in UTF-16 units. */
  lemma {:induction false} Utf16LengthSlice(s: string, p: nat, i: nat, j: nat, q: nat)
    requires p <= i <= j <= q <= |s|
    ensures Utf16Length(s[i..j]) <= Utf16Length(s[p..q])
  {
    assert s[p..q] == s[p..i] + s[i..j] + s[j..q];
    Utf16LengthConcat(s[p..i] + s[i..j], s[j..q]);
    Utf16LengthConcat(s[p..i], s[i..j]);
  }

  /** Removes leading white space: a suffix of `s` that does not start with white space. */
  function TrimStart(s: string): (r: string)
    ensures |r| <= |s| && r == s[|s| - |r|..]
    ensures r != [] ==> !IsWhiteSpace(r[0])
  {
    if s != [] && IsWhiteSpace(s[0]) then TrimStart(s[1..]) else s
  }

  /** What `TrimStart` removes is white space only. */
  lemma {:induction false} TrimStartRemovesWhiteSpace(s: string)
    ensures forall i | 0 <= i < |s| - |TrimStart(s)| :: IsWhiteSpace(s[i])
  {
    if s != [] && IsWhiteSpace(s[0]) {
      TrimStartRemovesWhiteSpace(s[1..]);
    }
  }

  /** Removes trailing white space: a prefix of `s` that does not end with white space. */
  function TrimEnd(s: string): (r: string)
    ensures |r| <= |s| && r == s[..|r|]
    ensures r != [] ==> !IsWhiteSpace(r[|r| - 1])
  {
    if s != [] && IsWhiteSpace(s[|s| - 1]) then TrimEnd(s[..|s| - 1]) else s
  }

  /** What `TrimEnd` removes is white space only. */
  lemma {:induction false} TrimEndRemovesWhiteSpace(s: string)
    ensures forall i | |TrimEnd(s)| <= i < |s| :: IsWhiteSpace(s[i])
  {
    if s != [] && IsWhiteSpace(s[|s| - 1]) {
      TrimEndRemovesWhiteSpace(s[..|s| - 1]);
    }
  }

  /** `String.prototype.trim`: a slice of `s` that neither starts nor ends with white space. */
  function Trim(s: string): (r: string)
    ensures |r| <= |s|
    ensures r != [] ==> !IsWhiteSpace(r[0]) && !IsWhiteSpace(r[|r| - 1])
    ensures r == [] <==> forall i | 0 <= i < |s| :: IsWhiteSpace(s[i])
  {
    TrimStartRemovesWhiteSpace(s);
    TrimEndRemovesWhiteSpace(TrimStart(s));
    TrimEnd(TrimStart(s))
  }

  // ---------------------------------------------------------------------------------------------
  // parseFloat

  predicate IsDigit(c: char)
  {
    '0' <= c <= '9'
  }

  predicate AllDigits(s: string)
  {
    forall i | 0 <= i < |s| :: IsDigit(s[i])
  }

  function DigitValue(c: char): (d: nat)
    requires IsDigit(c)
    ensures d < 10
  {
    c as int - '0' as int
  }

  /** The longest prefix of `s` made of decimal digits. */
  function LeadingDigits(s: string): (d: string)
    ensures |d| <= |s| && d == s[..|d|]
    ensures AllDigits(d)
    ensures |d| < |s| ==> !IsDigit(s[|d|])
  {
    if s != [] && IsDigit(s[0]) then [s[0]] + LeadingDigits(s[1..]) else []
  }

  /** The value of a string of decimal digits, most significant first. */
  function DigitsValue(d: string): nat
    requires AllDigits(d)
  {
    if d == [] then 0 else DigitsValue(d[..|d| - 1]) * 10 + DigitValue(d[|d| - 1])
  }

  /** The value of the digits after a decimal point: `0.d1d2...` is `(d1 + 0.d2...) / 10`. */
  function FractionValue(frac: string): (v: real)
    requires AllDigits(frac)
    ensures 0.0 <= v < 1.0
  {
    if frac == [] then 0.0 else (DigitValue(frac[0]) as real + FractionValue(frac[1..])) / 10.0
  }

  /** An unsigned decimal literal `digits [. digits]` at the start of `s`; `None` without any digit. */
  function ParseUnsigned(s: string): (r: Option<real>)
    ensures r.Some? ==> r.value >= 0.0
    ensures r.Some? <==> (s != [] && IsDigit(s[0])) || (|s| >= 2 && s[0] == '.' && IsDigit(s[1]))
  {
    var whole := LeadingDigits(s);
    var rest := s[|whole|..];
    var frac := if rest != [] && rest[0] == '.' then LeadingDigits(rest[1..]) else [];
    assert whole == [] <==> !(s != [] && IsDigit(s[0]));
    assert whole == [] ==> rest == s;
    if whole == [] && frac == [] then None
    else Some(DigitsValue(whole) as real + FractionValue(frac))
  }

  /**
   * `parseFloat`: skips leading white space, reads an optional sign and the longest decimal
   * literal that follows; `None` (NaN) when no digit starts the literal.
   */
  function ParseFloat(s: string): Option<real>
  {
    var t := TrimStart(s);
    if t != [] && (t[0] == '-' || t[0] == '+') then
      match ParseUnsigned(t[1..])
      case None => None
      case Some(v) => Some(if t[0] == '-' then -v else v)
    else
      ParseUnsigned(t)
  }

  /** `parseFloat` gives a number only for a text containing a digit. */
  lemma ParseFloatNeedsDigit(s: string)
    requires ParseFloat(s).Some?
    ensures exists i | 0 <= i < |s| :: IsDigit(s[i])
  {
    var t := TrimStart(s);
    var k := |s| - |t|;
    TrimStartRemovesWhiteSpace(s);
    assert t == s[k..];
    if t != [] && (t[0] == '-' || t[0] == '+') {
      assert IsDigit(s[k + 1]) || IsDigit(s[k + 2]);
    } else {
      assert IsDigit(s[k]) || IsDigit(s[k + 1]);
    }
  }

  // ---------------------------------------------------------------------------------------------
  // The "missing required fields" filter

  /** `a` is `b` with some elements deleted, the rest kept in order. */
  predicate IsSubsequence(a: seq<string>, b: seq<string>)
  {
    if b == [] then a == []
    else (a != [] && a[0] == b[0] && IsSubsequence(a[1..], b[1..])) || IsSubsequence(a, b[1..])
  }

  /**
   * `required.filter(field => !params[field])`: the required fields whose value is falsy,
   * in the order of `required`. Parameters outside `required` play no part.
   */
  function MissingFields(params: map<string, JsValue>, required: seq<string>): (missing: seq<string>)
    ensures forall f :: f in missing <==> f in required && !Truthy(Lookup(params, f))
    ensures IsSubsequence(missing, required)
  {
    if required == [] then []
    else
      var rest := MissingFields(params, required[1..]);
      if !Truthy(Lookup(params, required[0])) then [required[0]] + rest else rest
  }

  /** Two parameter objects that agree on the listed fields have the same missing fields. */
  lemma {:induction false} MissingFieldsIgnoresOtherParams(p: map<string, JsValue>, q: map<string, JsValue>, required: seq<string>)
    requires forall f | f in required :: Lookup(p, f) == Lookup(q, f)
    ensures MissingFields(p, required) == MissingFields(q, required)
  {
    if required != [] {
      MissingFieldsIgnoresOtherParams(p, q, required[1..]);
    }
  }
}
