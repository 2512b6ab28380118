/**
 * The helpers of the single-file page: the parameter check before a calculation request, and the
 * display helpers `safeGet`, `formatNumber` and `updateElement` used to show the results.
 */
module MainNewHelpers {
  import opened Wrappers
  import opened JsValues
  import opened SwissFormat
  import opened Dom

  // ---------------------------------------------------------------------------------------------
  // validateCalculationParams

  /** The six parameters a calculation request needs. */
  const RequiredCalculationFields: seq<string> :=
    ["eingangId", "newHeatingPlace", "genh1", "gwaerzh1Name", "warea", "wbauj"]

  /** `validateCalculationParams(params)`: no required field is falsy. */
  function ValidateCalculationParams(params: map<string, JsValue>): bool
  {
    |MissingFields(params, RequiredCalculationFields)| == 0
  }

  /** The parameters are valid exactly when every one of the six required fields is truthy. */
  lemma ValidateCalculationParamsIff(params: map<string, JsValue>)
    ensures ValidateCalculationParams(params) <==>
      forall f | f in RequiredCalculationFields :: Truthy(Lookup(params, f))
  {
    var missing := MissingFields(params, RequiredCalculationFields);
    if missing != [] {
      assert missing[0] in missing;
    }
  }

  /** Parameters outside the six required fields never change the verdict. */
  lemma ValidateIgnoresOtherParams(params: map<string, JsValue>, key: string, v: JsValue)
    requires key !in RequiredCalculationFields
    ensures ValidateCalculationParams(params[key := v]) == ValidateCalculationParams(params)
  {
    MissingFieldsIgnoresOtherParams(params[key := v], params, RequiredCalculationFields);
  }

  // ---------------------------------------------------------------------------------------------
  // safeGet

  /** `v == null`, which holds for `null` and `undefined`. */
  predicate IsNullish(v: JsValue)
  {
    v.Undefined? || v.Null?
  }

  /** One step of the reduce: `xs && xs[x] != null ? xs[x] : defaultValue`. */
  function SafeStep(xs: JsValue, x: string, defaultValue: JsValue): JsValue
  {
    if Truthy(xs) && !IsNullish(Get(xs, x)) then Get(xs, x) else defaultValue
  }

  /**
   * The value at the end of `path` when every object on the way is truthy and every step
   * lands on a value other than `null` and `undefined`; `None` otherwise.
   */
  function Walk(obj: JsValue, path: seq<string>): Option<JsValue>
    decreases |path|
  {
    if path == [] then Some(obj)
    else if Truthy(obj) && !IsNullish(Get(obj, path[0])) then Walk(Get(obj, path[0]), path[1..])
    else None
  }

  /**
   * `safeGet(obj, path, defaultValue)`: `path.reduce(step, obj)`. When the whole path exists
   * it returns the value at its end.
   */
  function SafeGet(obj: JsValue, path: seq<string>, defaultValue: JsValue): (r: JsValue)
    ensures Walk(obj, path).Some? ==> r == Walk(obj, path).value
    decreases |path|
  {
    if path == [] then obj else SafeGet(SafeStep(obj, path[0], defaultValue), path[1..], defaultValue)
  }

  /**
   * When the path breaks off somewhere, `safeGet` returns the default, provided the default is
   * not itself an object the rest of the path could lead into.
   */
  lemma {:induction false} SafeGetFallsBack(obj: JsValue, path: seq<string>, defaultValue: JsValue)
    requires Walk(obj, path).None? && !defaultValue.Obj?
    ensures SafeGet(obj, path, defaultValue) == defaultValue
    decreases |path|
  {
    if Truthy(obj) && !IsNullish(Get(obj, path[0])) {
      SafeGetFallsBack(Get(obj, path[0]), path[1..], defaultValue);
    } else {
      DefaultStays(path[1..], defaultValue);
    }
  }

  /** Once the reduce has fallen back to a default that is not an object, it stays there. */
  lemma {:induction false} DefaultStays(path: seq<string>, defaultValue: JsValue)
    requires !defaultValue.Obj?
    ensures SafeGet(defaultValue, path, defaultValue) == defaultValue
    decreases |path|
  {
    if path != [] {
      DefaultStays(path[1..], defaultValue);
    }
  }

  // ---------------------------------------------------------------------------------------------
  // formatNumber

  /**
   * `formatNumber(value, defaultValue)`: a number is shown as its nearest integer, which
   * `parseFloat` reads back exactly; anything else, NaN included, is shown as the default.
   */
  function FormatNumber(value: JsValue, defaultValue: string): (t: string)
    ensures value.Number? ==> ParseFloat(t) == Some(MathRound(value.x) as real)
    ensures !value.Number? ==> t == defaultValue
  {
    match value
    case Number(x) =>
      ParseIntToString(MathRound(x));
      IntToString(MathRound(x))
    case _ => defaultValue
  }

  // ---------------------------------------------------------------------------------------------
  // updateElement

  /** The options of `updateElement`; a missing `prefix` is the empty text. */
  datatype UpdateOptions = UpdateOptions(isHTML: bool, isPrice: bool, prefix: string)

  /** The combinations the model covers: no HTML, and a number or NaN for the two price displays. */
  predicate TextUpdate(value: JsValue, options: UpdateOptions)
  {
    !options.isHTML
    && (options.isPrice || options.prefix != "" ==> value.Number? || value.NaN?)
  }

  /** `Math.round(value)` of a number or NaN. */
  function RoundedValue(value: JsValue): (r: WholeNum)
    requires value.Number? || value.NaN?
    ensures value.Number? ==> r == Whole(MathRound(value.x))
    ensures value.NaN? ==> r == WholeNaN
  {
    if value.Number? then Whole(MathRound(value.x)) else WholeNaN
  }

  /**
   * The text an element holds after `element.textContent = value`: `null` and `undefined`
   * clear it, anything else is converted with `String`.
   */
  function TextContentOf(value: JsValue): (t: string)
    ensures value.Str? ==> t == value.s
    ensures value.Number? ==> t == NumberToString(value.x)
    ensures IsNullish(value) ==> t == ""
  {
    if IsNullish(value) then "" else JsString(value)
  }

  /**
   * The text `updateElement` writes: a price in Swiss grouping after the prefix (if any); with a
   * prefix but no price flag, the prefix, a space and the Swiss grouping; otherwise the value itself.
   */
  function ElementText(value: JsValue, options: UpdateOptions): string
    requires TextUpdate(value, options)
  {
    if options.isPrice then
      var formattedPrice := AmountText(RoundedValue(value));
      if options.prefix != "" then options.prefix + formattedPrice else formattedPrice
    else if options.prefix != "" then
      options.prefix + " " + AmountText(RoundedValue(value))
    else
      TextContentOf(value)
  }

  /** `updateElement(elementId, value, options)`: `false`, and no change, when the element is missing. */
  method UpdateElement(page: Page, elementId: string, value: JsValue, options: UpdateOptions) returns (updated: bool)
    requires TextUpdate(value, options)
    modifies page
    ensures updated <==> elementId in old(page.elements)
    ensures page.elements == WithText(old(page.elements), elementId, ElementText(value, options))
  {
    if elementId !in page.elements {
      return false;
    }
    if options.isPrice {
      var formattedPrice := AmountText(RoundedValue(value));
      page.SetText(elementId, if options.prefix != "" then options.prefix + formattedPrice else formattedPrice);
    } else if options.prefix != "" {
      page.SetText(elementId, options.prefix + " " + AmountText(RoundedValue(value)));
    } else {
      page.SetText(elementId, TextContentOf(value));
    }
    return true;
  }

  /**
   * A number shown by either price display, after a prefix without digits, dots or minus signs
   * (such as `"CHF "`), reads back with `getNumberFromElement` as the rounded number.
   */
  lemma {:induction false} ShownPriceReadsBack(x: real, options: UpdateOptions, default: real)
    requires !options.isHTML && (options.isPrice || options.prefix != "")
    requires Strip(options.prefix) == []
    ensures ReadNumber(Some(ElementText(Number(x), options)), default) == MathRound(x) as real
  {
    var k := MathRound(x);
    if options.isPrice {
      if options.prefix != "" {
        ReadBackPrice(k, options.prefix, default);
      } else {
        ReadBackPrice(k, "", default);
        assert "" + SwissAmount(k) == SwissAmount(k);
      }
    } else {
      var lead := options.prefix + " ";
      StripConcat(options.prefix, " ");
      ReadBackPrice(k, lead, default);
      assert options.prefix + " " + SwissAmount(k) == lead + SwissAmount(k);
    }
  }

  /**
   * Without price flag or prefix the value is written as it is: a text unchanged, `null` and
   * `undefined` as nothing, and a number of at most 20 decimals as text `parseFloat` reads back.
   */
  lemma {:induction false} PlainTextShowsValue(value: JsValue, options: UpdateOptions)
    requires !options.isHTML && !options.isPrice && options.prefix == ""
    ensures TextUpdate(value, options)
    ensures value.Str? ==> ElementText(value, options) == value.s
    ensures IsNullish(value) ==> ElementText(value, options) == ""
    ensures value.Number? && ShortDecimal(value.x) ==> ParseFloat(ElementText(value, options)) == Some(value.x)
  {
    if value.Number? && ShortDecimal(value.x) {
      NumberToStringReadsBack(value.x);
    }
  }
}
