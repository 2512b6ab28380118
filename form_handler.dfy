/**
 * The form handling of the modular calculator: clearing the house form, filling it from the
 * house information found for an address, and the parameter check before a calculation request.
 */
module FormHandler {
  import opened Wrappers
  import opened JsValues
  import opened SwissFormat
  import opened Dom

  // ---------------------------------------------------------------------------------------------
  // resetFormValues

  /** The ten fields `resetFormValues` clears, in the order it visits them. */
  const FormFields: seq<string> := [
    "buildingAge", "livingArea", "heatingType", "heatingAge", "newHeatingType",
    "newHeatingPlace", "dhw", "dhwAge", "newDhw", "newDhwPlace"
  ]

  /** A cleared field: a radio button is unchecked, any other field gets the empty value. */
  function Cleared(e: Element): (c: Element)
    ensures c.isRadio == e.isRadio && c.text == e.text
    ensures c.isRadio ==> !c.checked && c.value == e.value
    ensures !c.isRadio ==> c.value == "" && c.checked == e.checked
  {
    if e.isRadio then e.(checked := false) else e.(value := "")
  }

  /** One step of the `forEach`: clear field `id` when it exists, otherwise change nothing. */
  function ResetField(els: map<string, Element>, id: string): map<string, Element>
  {
    if id in els then els[id := Cleared(els[id])] else els
  }

  /** The page after visiting the ids in `ids` in order. */
  function ResetAll(els: map<string, Element>, ids: seq<string>): map<string, Element>
    decreases |ids|
  {
    if ids == [] then els else ResetField(ResetAll(els, ids[..|ids| - 1]), ids[|ids| - 1])
  }

  /** `resetFormValues()`: clears every listed field that exists on the page. */
  method ResetFormValues(page: Page)
    modifies page
    ensures page.elements == ResetAll(old(page.elements), FormFields)
  {
    var i := 0;
    while i < |FormFields|
      invariant 0 <= i <= |FormFields|
      invariant page.elements == ResetAll(old(page.elements), FormFields[..i])
    {
      var fieldId := FormFields[i];
      assert FormFields[..i + 1][..i] == FormFields[..i];
      if fieldId in page.elements {
        if page.elements[fieldId].isRadio {
          page.SetChecked(fieldId, false);
        } else {
          page.SetValue(fieldId, "");
        }
      }
      i := i + 1;
    }
    assert FormFields[..i] == FormFields;
  }

  /**
   * Visiting a list of ids clears exactly the listed elements that exist: radios become
   * unchecked, other fields become empty, every other element and the set of ids stay as they were.
   */
  lemma {:induction false} ResetAllEffect(els: map<string, Element>, ids: seq<string>)
    ensures ResetAll(els, ids).Keys == els.Keys
    ensures forall k | k in els :: ResetAll(els, ids)[k] == (if k in ids then Cleared(els[k]) else els[k])
    decreases |ids|
  {
    if ids != [] {
      var init := ids[..|ids| - 1];
      ResetAllEffect(els, init);
      assert forall k :: k in ids <==> k in init || k == ids[|ids| - 1];
    }
  }

  /**
   * After `resetFormValues` the ten listed fields are cleared where they exist; every other
   * element is unchanged and no element appears or disappears.
   */
  lemma ResetFormValuesClears(els: map<string, Element>)
    ensures var r := ResetAll(els, FormFields);
      r.Keys == els.Keys
      && (forall k | k in els && k in FormFields :: r[k] == Cleared(els[k]))
      && (forall k | k in els && k !in FormFields :: r[k] == els[k])
  {
    ResetAllEffect(els, FormFields);
  }

  // ---------------------------------------------------------------------------------------------
  // prefillFormFields

  /** The four fields filled from the house information, each from the property of the same name. */
  const PrefillFields: seq<string> := ["buildingAge", "livingArea", "heatingType", "heatingAge"]

  /**
   * The text an input holds after `element.value = v`: `null` becomes empty, every other value
   * (`undefined` included) its string conversion.
   */
  function ValueText(v: JsValue): (t: string)
    ensures v.Null? ==> t == ""
    ensures v.Str? ==> t == v.s
    ensures v.Number? ==> t == NumberToString(v.x)
  {
    if v.Null? then "" else JsString(v)
  }

  /** The page after writing each listed field's house-information value into it, where it exists. */
  function PrefillAll(els: map<string, Element>, houseInfo: JsValue, ids: seq<string>): map<string, Element>
    decreases |ids|
  {
    if ids == [] then els
    else
      var id := ids[|ids| - 1];
      WithValue(PrefillAll(els, houseInfo, ids[..|ids| - 1]), id, ValueText(Get(houseInfo, id)))
  }

  /** `prefillFormFields(houseInfo)`: nothing without house information, the four fields otherwise. */
  function Prefilled(els: map<string, Element>, houseInfo: JsValue): map<string, Element>
  {
    if !Truthy(houseInfo) then els else PrefillAll(els, houseInfo, PrefillFields)
  }

  /** `prefillFormFields(houseInfo)`. */
  method PrefillFormFields(page: Page, houseInfo: JsValue)
    modifies page
    ensures page.elements == Prefilled(old(page.elements), houseInfo)
  {
    if !Truthy(houseInfo) {
      return;
    }
    WriteFields(page, houseInfo, PrefillFields);
  }

  /** The `forEach` over the field mappings: each listed field that exists gets its value. */
  method WriteFields(page: Page, houseInfo: JsValue, ids: seq<string>)
    modifies page
    ensures page.elements == PrefillAll(old(page.elements), houseInfo, ids)
  {
    var i := 0;
    while i < |ids|
      invariant 0 <= i <= |ids|
      invariant page.elements == PrefillAll(old(page.elements), houseInfo, ids[..i])
    {
      var fieldId := ids[i];
      PrefillStep(old(page.elements), houseInfo, ids, i);
      var value := Get(houseInfo, fieldId);
      if fieldId in page.elements {
        page.SetValue(fieldId, ValueText(value));
      }
      i := i + 1;
    }
    assert ids[..i] == ids;
  }

  /** Visiting one more id writes that one field on top of the page visited so far. */
  lemma PrefillStep(els: map<string, Element>, houseInfo: JsValue, ids: seq<string>, i: nat)
    requires i < |ids|
    ensures PrefillAll(els, houseInfo, ids[..i + 1])
      == WithValue(PrefillAll(els, houseInfo, ids[..i]), ids[i], ValueText(Get(houseInfo, ids[i])))
  {
    assert ids[..i + 1][..i] == ids[..i];
  }

  /**
   * Writing the listed fields sets the value of each listed element that exists to the text of
   * its house-information property; nothing else about any element changes.
   */
  lemma {:induction false} PrefillAllEffect(els: map<string, Element>, houseInfo: JsValue, ids: seq<string>)
    ensures PrefillAll(els, houseInfo, ids).Keys == els.Keys
    ensures forall k | k in els ::
      PrefillAll(els, houseInfo, ids)[k] == (if k in ids then els[k].(value := ValueText(Get(houseInfo, k))) else els[k])
    decreases |ids|
  {
    if ids != [] {
      var init := ids[..|ids| - 1];
      PrefillAllEffect(els, houseInfo, init);
      assert forall k :: k in ids <==> k in init || k == ids[|ids| - 1];
    }
  }

  /**
   * Without house information nothing changes; with it exactly the four fields get the values
   * of the properties of the same name, and every other element is unchanged.
   */
  lemma PrefillFormFieldsWrites(els: map<string, Element>, houseInfo: JsValue)
    ensures !Truthy(houseInfo) ==> Prefilled(els, houseInfo) == els
    ensures var r := Prefilled(els, houseInfo);
      r.Keys == els.Keys
      && (forall k | k in els && k !in PrefillFields :: r[k] == els[k])
      && (Truthy(houseInfo) ==> forall k | k in els && k in PrefillFields ::
            r[k] == els[k].(value := ValueText(Get(houseInfo, k))))
  {
    if Truthy(houseInfo) {
      PrefillAllEffect(els, houseInfo, PrefillFields);
    }
  }

  /**
   * A whole number is written as its decimal digits, and any number of at most 20 decimals as
   * text that `parseFloat` reads back as the number.
   */
  lemma {:induction false} NumberReadsBack(x: real)
    ensures x == x.Floor as real ==> ValueText(Number(x)) == IntToString(x.Floor)
    ensures ShortDecimal(x) ==> ParseFloat(ValueText(Number(x))) == Some(x)
  {
    if x == x.Floor as real {
      WholeNumberText(x.Floor);
    }
    if ShortDecimal(x) {
      NumberToStringReadsBack(x);
    }
  }

  // ---------------------------------------------------------------------------------------------
  // validateCalculationParams

  /** The six parameters the form's calculation request needs. */
  const RequiredFields: seq<string> :=
    ["buildingAge", "livingArea", "heatingType", "heatingAge", "newHeatingType", "newHeatingPlace"]

  /** `requiredFields.filter(field => !params[field])`: the falsy required fields, in their listed order. */
  function MissingCalculationFields(params: map<string, JsValue>): (missing: seq<string>)
    ensures forall f :: f in missing <==> f in RequiredFields && !Truthy(Lookup(params, f))
    ensures IsSubsequence(missing, RequiredFields)
  {
    MissingFields(params, RequiredFields)
  }

  /** `validateCalculationParams(params)`: `false` when a required field is missing, `true` otherwise. */
  function ValidateCalculationParams(params: map<string, JsValue>): bool
  {
    |MissingCalculationFields(params)| == 0
  }

  /** The parameters are valid exactly when every one of the six required fields is truthy. */
  lemma ValidateCalculationParamsIff(params: map<string, JsValue>)
    ensures ValidateCalculationParams(params) <==>
      forall f | f in RequiredFields :: Truthy(Lookup(params, f))
  {
    var missing := MissingCalculationFields(params);
    if missing != [] {
      assert missing[0] in missing;
    }
  }

  /** Parameters outside the six required fields never change the verdict. */
  lemma ValidateIgnoresOtherParams(params: map<string, JsValue>, key: string, v: JsValue)
    requires key !in RequiredFields
    ensures ValidateCalculationParams(params[key := v]) == ValidateCalculationParams(params)
  {
    MissingFieldsIgnoresOtherParams(params[key := v], params, RequiredFields);
  }
}
