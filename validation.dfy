/**
 * The validators of the modular calculator: the parameter check before a calculation request,
 * the minimum length of an address search, and the presence of both coordinates of a house.
 */
module Validation {
  import opened Wrappers
  import opened JsValues

  /** The five parameters a calculation request needs. */
  const RequiredFields: seq<string> :=
    ["buildingAge", "livingArea", "currentHeating", "newHeatingPlace", "chosenPayment"]

  /** The two of them that must be positive numbers. */
  const NumericFields: seq<string> := ["buildingAge", "livingArea"]

  /**
   * `parseFloat(v)`: the value is first converted to text, so a number reads as itself, a text
   * as `parseFloat` reads it, and `undefined`, `null`, booleans, NaN and plain objects as NaN.
   */
  function ParseFloatValue(v: JsValue): Option<real>
  {
    match v
    case Number(x) => Some(x)
    case Str(s) => ParseFloat(s)
    case _ => None
  }

  /** `!(isNaN(value) || value <= 0)` for `value = parseFloat(v)`. */
  predicate IsPositiveNumber(v: JsValue)
  {
    match ParseFloatValue(v)
    case None => false
    case Some(x) => x > 0.0
  }

  /** `numericFields.filter(...)`: the fields that are NaN or not positive once parsed, in order. */
  function InvalidNumericFields(params: map<string, JsValue>, fields: seq<string>): (invalid: seq<string>)
    ensures forall f :: f in invalid <==> f in fields && !IsPositiveNumber(Lookup(params, f))
    ensures IsSubsequence(invalid, fields)
  {
    if fields == [] then []
    else
      var rest := InvalidNumericFields(params, fields[1..]);
      if !IsPositiveNumber(Lookup(params, fields[0])) then [fields[0]] + rest else rest
  }

  /**
   * `validateCalculationParams(params)`: `false` when a required field is missing, `false` when
   * a numeric field is not a positive number, `true` otherwise.
   */
  function ValidateCalculationParams(params: map<string, JsValue>): bool
  {
    if |MissingFields(params, RequiredFields)| > 0 then false
    else if |InvalidNumericFields(params, NumericFields)| > 0 then false
    else true
  }

  /**
   * The parameters are valid exactly when all five required fields are truthy and the building
   * age and living area both parse to numbers above zero.
   */
  lemma ValidateCalculationParamsIff(params: map<string, JsValue>)
    ensures ValidateCalculationParams(params) <==>
      (forall f | f in RequiredFields :: Truthy(Lookup(params, f)))
      && (forall f | f in NumericFields :: IsPositiveNumber(Lookup(params, f)))
  {
    var missing := MissingFields(params, RequiredFields);
    var invalid := InvalidNumericFields(params, NumericFields);
    if missing != [] {
      assert missing[0] in missing;
    }
    if invalid != [] {
      assert invalid[0] in invalid;
    }
  }

  /** Parameters outside the five required fields never change the verdict. */
  lemma ValidateIgnoresOtherParams(params: map<string, JsValue>, key: string, v: JsValue)
    requires key !in RequiredFields
    ensures ValidateCalculationParams(params[key := v]) == ValidateCalculationParams(params)
  {
    MissingFieldsIgnoresOtherParams(params[key := v], params, RequiredFields);
    InvalidIgnoresOtherParams(params[key := v], params, NumericFields);
  }

  lemma {:induction false} InvalidIgnoresOtherParams(p: map<string, JsValue>, q: map<string, JsValue>, fields: seq<string>)
    requires forall f | f in fields :: Lookup(p, f) == Lookup(q, f)
    ensures InvalidNumericFields(p, fields) == InvalidNumericFields(q, fields)
  {
    if fields != [] {
      InvalidIgnoresOtherParams(p, q, fields[1..]);
    }
  }

  /**
   * A field can pass the presence check and still fail the numeric one: the text `"0"` is
   * truthy but parses to zero, and a non-empty text without a leading digit parses to NaN.
   */
  lemma ZeroTextFailsNumericCheck(params: map<string, JsValue>)
    requires forall f | f in RequiredFields :: Truthy(Lookup(params, f))
    requires Lookup(params, "livingArea") == Str("0")
    ensures !ValidateCalculationParams(params)
  {
    assert LeadingDigits("0") == "0";
    assert ParseFloat("0") == Some(0.0);
    ValidateCalculationParamsIff(params);
  }

  /**
   * `validateAddressInput(address)`: a non-empty address whose trimmed text is three or more
   * UTF-16 code units long, as `length` counts them.
   */
  function ValidateAddressInput(address: string): (ok: bool)
    ensures ok ==> Utf16Length(address) >= 3
  {
    TrimNoLonger(address);
    address != "" && Utf16Length(Trim(address)) >= 3
  }

  /** Trimming never makes a text longer in UTF-16 units. */
  lemma TrimNoLonger(s: string)
    ensures Utf16Length(Trim(s)) <= Utf16Length(s)
  {
    var p, q := TrimBounds(s);
    Utf16LengthSlice(s, 0, p, q, |s|);
    assert s[0..|s|] == s;
  }

  /**
   * An address is accepted exactly when it has two characters other than white space (possibly
   * the same one) that span, with everything between them, at least three UTF-16 code units:
   * white space around the text does not count, and an empty address is refused.
   */
  lemma {:induction false} ValidateAddressInputIff(address: string)
    ensures ValidateAddressInput(address) <==> HasSpreadText(address)
  {
    var p, q := TrimBounds(address);
    if Utf16Length(Trim(address)) >= 3 {
      SpreadFromTrim(address, p, q);
    }
    if HasSpreadText(address) {
      TrimFromSpread(address, p, q);
    }
  }

  /** Two characters other than white space whose span is at least three UTF-16 code units long. */
  predicate HasSpreadText(s: string)
  {
    exists i, j | 0 <= i <= j < |s| :: !IsWhiteSpace(s[i]) && !IsWhiteSpace(s[j]) && Utf16Length(s[i..j + 1]) >= 3
  }

  lemma SpreadFromTrim(s: string, p: nat, q: nat)
    requires p <= q <= |s| && Trim(s) == s[p..q] && Utf16Length(s[p..q]) >= 3
    ensures HasSpreadText(s)
  {
    assert s[p..q] != [];
    assert Trim(s)[0] == s[p] && Trim(s)[q - p - 1] == s[q - 1];
    assert !IsWhiteSpace(s[p]) && !IsWhiteSpace(s[q - 1]);
    assert s[p..(q - 1) + 1] == s[p..q];
  }

  lemma TrimFromSpread(s: string, p: nat, q: nat)
    requires p <= q <= |s|
    requires forall i | 0 <= i < p :: IsWhiteSpace(s[i])
    requires forall i | q <= i < |s| :: IsWhiteSpace(s[i])
    requires HasSpreadText(s)
    ensures Utf16Length(s[p..q]) >= 3
  {
    var i, j :| 0 <= i <= j < |s| && !IsWhiteSpace(s[i]) && !IsWhiteSpace(s[j]) && Utf16Length(s[i..j + 1]) >= 3;
    assert p <= i && j < q;
    Utf16LengthSlice(s, p, i, j + 1, q);
  }

  /**
   * `"a😀"` is accepted: the emoji is a surrogate pair, so the trimmed text is three UTF-16
   * code units long although it holds two characters.
   */
  lemma SurrogatePairCountsTwice()
    ensures ValidateAddressInput("a\U{1F600}")
  {
    var s := "a\U{1F600}";
    assert Utf16Length(s) == 3 by {
      assert s[..1] == "a" && "a"[..0] == [];
    }
    assert !IsWhiteSpace(s[0]) && !IsWhiteSpace(s[1]);
    assert s[0..1 + 1] == s;
    assert HasSpreadText(s);
    ValidateAddressInputIff(s);
  }

  /** Two characters below U+10000 are two code units, too short to be accepted. */
  lemma TwoCharactersRefused()
    ensures !ValidateAddressInput("ab")
  {
    var t := "ab";
    assert Utf16Length(t) == 2 by {
      assert t[..1] == "a" && "a"[..0] == [];
    }
  }

  /** `trim` keeps the slice `s[p..q]`: everything before `p` and from `q` on is white space. */
  lemma {:induction false} TrimBounds(s: string) returns (p: nat, q: nat)
    ensures p <= q <= |s| && Trim(s) == s[p..q]
    ensures forall i | 0 <= i < p :: IsWhiteSpace(s[i])
    ensures forall i | q <= i < |s| :: IsWhiteSpace(s[i])
  {
    var t := TrimStart(s);
    p := |s| - |t|;
    var u := TrimEnd(t);
    q := p + |u|;
    TrimStartRemovesWhiteSpace(s);
    TrimEndRemovesWhiteSpace(t);
    forall i | q <= i < |s|
      ensures IsWhiteSpace(s[i])
    {
      assert s[i] == t[i - p];
    }
  }

  /** `validateHouseInfo(houseInfo)`: the house info and both of its coordinates are truthy. */
  function ValidateHouseInfo(houseInfo: JsValue): (ok: bool)
    ensures ok ==> houseInfo.Obj? && "dkodeE" in houseInfo.fields && "dkodeN" in houseInfo.fields
  {
    Truthy(houseInfo) && Truthy(Get(houseInfo, "dkodeE")) && Truthy(Get(houseInfo, "dkodeN"))
  }

  /**
   * House info is accepted exactly when it is an object holding both coordinates with truthy
   * values; a coordinate of 0 counts as missing, and so does every coordinate of a non-object.
   */
  lemma ValidateHouseInfoIff(houseInfo: JsValue)
    ensures ValidateHouseInfo(houseInfo) <==>
      houseInfo.Obj? && "dkodeE" in houseInfo.fields && "dkodeN" in houseInfo.fields
      && Truthy(houseInfo.fields["dkodeE"]) && Truthy(houseInfo.fields["dkodeN"])
    ensures houseInfo.Obj? && "dkodeE" in houseInfo.fields && houseInfo.fields["dkodeE"] == Number(0.0)
      ==> !ValidateHouseInfo(houseInfo)
  {
  }
}
