/**
 * The interactive calculator of the single-file page (`calculateMonthlyCalc`): the user picks a
 * down-payment percentage, a term in months and a product; the payment is the annuity on what
 * is left after the down payment (exact division when the interest rate is 0), with the
 * product's extras layered on top, shown with `Math.floor`.
 *
 * Elements looked up with `querySelector('input[name="monthlyPayment"]')` are keyed by that
 * name; the checked `productSelection` radio is passed in as its value (`None` when no radio is
 * checked).
 */
module MainNewCalc {
  import opened Wrappers
  import opened JsValues
  import opened SwissFormat
  import opened Annuity
  import opened Dom

  /** The selected product's six rates, each read as `parseFloat(textContent) || 0`. */
  datatype Rates = Rates(
    serviceFee: real, maintenance: real, energyManagement: real, ratInsurance: real,
    interestRate: real, tax: real)

  /** `parseFloat(text) || 0` of the element's raw text (no characters are stripped). */
  function RateOf(els: map<string, Element>, id: string): real
    requires id in els
  {
    OrZero(ParseFloat(els[id].text))
  }

  /**
   * The rates of `product`, or `None` when one of the six elements is missing (reading its
   * `textContent` throws, which ends the calculation).
   */
  function ReadRates(els: map<string, Element>, product: string): (r: Option<Rates>)
    ensures r.Some? <==>
      ("serviceFeeValue" + product in els && "maintenanceValue" + product in els
      && "energyManagementValue" + product in els && "ratInsuranceValue" + product in els
      && "interestRateValue" + product in els && "taxValue" + product in els)
    ensures r.Some? ==> r.value.serviceFee == OrZero(ParseFloat(els["serviceFeeValue" + product].text))
    ensures r.Some? ==> r.value.maintenance == OrZero(ParseFloat(els["maintenanceValue" + product].text))
    ensures r.Some? ==> r.value.energyManagement == OrZero(ParseFloat(els["energyManagementValue" + product].text))
    ensures r.Some? ==> r.value.ratInsurance == OrZero(ParseFloat(els["ratInsuranceValue" + product].text))
    ensures r.Some? ==> r.value.interestRate == OrZero(ParseFloat(els["interestRateValue" + product].text))
    ensures r.Some? ==> r.value.tax == OrZero(ParseFloat(els["taxValue" + product].text))
  {
    if "serviceFeeValue" + product in els && "maintenanceValue" + product in els
      && "energyManagementValue" + product in els && "ratInsuranceValue" + product in els
      && "interestRateValue" + product in els && "taxValue" + product in els
    then
      Some(Rates(
        RateOf(els, "serviceFeeValue" + product), RateOf(els, "maintenanceValue" + product),
        RateOf(els, "energyManagementValue" + product), RateOf(els, "ratInsuranceValue" + product),
        RateOf(els, "interestRateValue" + product), RateOf(els, "taxValue" + product)))
    else None
  }

  /** `parseFloat(value) / 100`: the down-payment share entered in percent; `None` for NaN. */
  function Share(percentText: string): (s: Option<real>)
    ensures s.Some? <==> ParseFloat(percentText).Some?
    ensures s.Some? ==> s.value * 100.0 == ParseFloat(percentText).value
  {
    match ParseFloat(percentText)
    case None => None
    case Some(p) => Some(p / 100.0)
  }

  /** `totalPrice * calcAnzahlung`. */
  function DownPayment(totalPrice: real, share: Option<real>): Num
  {
    match share
    case None => NotANumber
    case Some(a) => Finite(totalPrice * a)
  }

  /** `totalPrice - downPayment`. */
  function Remaining(totalPrice: real, down: Num): Num
  {
    match down
    case Finite(d) => Finite(totalPrice - d)
    case NotANumber => NotANumber
    case Infinite(negative) => Infinite(!negative)
  }

  predicate IsWhole(x: real)
  {
    x == x.Floor as real
  }

  /**
   * The terms for which the model computes `Math.pow(1 + r, n)`: a whole number of months, or
   * NaN; with a zero interest rate the power is not taken and any term is fine.
   */
  predicate TermSupported(years: Option<real>, interestRate: real)
  {
    interestRate == 0.0 || years.None? || IsWhole(years.value)
  }

  /**
   * The base payment: `remaining / n` when the interest rate is exactly 0, otherwise
   * `remaining` times the annuity factor at the monthly rate (with its `1e-9` stand-in) over
   * `n` months. A NaN term gives NaN. A zero term divides by `+0` in both branches (the annuity
   * factor is `rate * 1 / (1 - 1)`, +Infinity), so a positive remainder gives +Infinity, a
   * negative one -Infinity, and 0 gives NaN.
   */
  function BasePayment(remaining: Num, years: Option<real>, interestRate: real): Num
    requires TermSupported(years, interestRate)
  {
    match years
    case None => NotANumber
    case Some(n) =>
      if interestRate == 0.0 then Over(remaining, n)
      else if n.Floor == 0 then Over(remaining, 0.0)
      else Times(remaining, Factor(MonthlyRate(interestRate), n.Floor))
  }

  /** `remainingAmount * annuityFactor` for a non-zero interest rate and term. */
  function AnnuityBase(remaining: real, interestRate: real, n: int): real
    requires n != 0
  {
    remaining * Factor(MonthlyRate(interestRate), n)
  }

  /** The rates as the engine's extras: the three percentages as fractions. */
  function ExtrasOfRates(r: Rates): Extras
  {
    Extras(r.serviceFee / 100.0, r.maintenance, r.energyManagement, r.ratInsurance / 100.0, r.tax / 100.0)
  }

  /**
   * `finalMonthlyPayment`: maintenance and energy management added, the service fee on the base
   * only, insurance on that subtotal, tax last; percentages are divided by 100 here. The
   * arithmetic is JavaScript's, so an infinite base payment can turn into NaN.
   */
  function FinalPayment(base: Num, r: Rates): Num
  {
    var additionalMonthlyCosts := r.maintenance + r.energyManagement;
    var serviceFeeAmount := Times(base, r.serviceFee / 100.0);
    var subtotal := Plus(Plus(base, Finite(additionalMonthlyCosts)), serviceFeeAmount);
    var insuranceAmount := Times(subtotal, r.ratInsurance / 100.0);
    var totalBeforeTax := Plus(subtotal, insuranceAmount);
    Times(totalBeforeTax, 1.0 + r.tax / 100.0)
  }

  /** On a finite base payment the interactive layering is the engine's layering with the percentages converted. */
  lemma LayeredIsEngineLayering(base: real, r: Rates)
    ensures FinalPayment(Finite(base), r) == Finite(WithExtras(base, ExtrasOfRates(r)))
  {
    var e := ExtrasOfRates(r);
    assert base * (r.serviceFee / 100.0) == base * e.serviceFee;
  }

  /**
   * An infinite base payment stays infinite only when the service fee and the insurance are
   * positive and the tax factor is not 0; it changes sign when the tax factor is negative.
   * Otherwise an infinity meets a 0 or an infinity of the other sign and the payment is NaN.
   */
  lemma InfiniteBasePayment(negative: bool, r: Rates)
    ensures FinalPayment(Infinite(negative), r) ==
      if r.serviceFee > 0.0 && r.ratInsurance > 0.0 && 1.0 + r.tax / 100.0 != 0.0
      then Infinite(negative != (1.0 + r.tax / 100.0 < 0.0))
      else NotANumber
  {
  }

  /** The whole interactive computation, from the parsed inputs to `finalMonthlyPayment`. */
  function MonthlyCalcPayment(share: Option<real>, years: Option<real>, totalPrice: real, r: Rates): Num
    requires TermSupported(years, r.interestRate)
  {
    FinalPayment(BasePayment(Remaining(totalPrice, DownPayment(totalPrice, share)), years, r.interestRate), r)
  }

  /** The duration input parses to a whole number of months, or to NaN. */
  predicate WholeTerm(els: map<string, Element>)
  {
    "duration-value" in els ==> TermSupported(ParseFloat(els["duration-value"].value), 1.0)
  }

  /** The four things the calculation needs before it reads anything. */
  predicate RequiredPresent(els: map<string, Element>, selected: Option<string>)
  {
    "anzahlung-no" in els && "duration-value" in els && "monthlyCalcValue" in els && selected.Some?
  }

  /**
   * The page after `calculateMonthlyCalc()`. The writes happen in the source's order and stop
   * at the first missing element: a missing required element, selection or price element, or
   * a price that parses to NaN, stops before any write; a missing `downpayment` or rate
   * element throws and stops the rest.
   */
  function MonthlyCalcPage(els: map<string, Element>, selected: Option<string>): (r: map<string, Element>)
    requires WholeTerm(els)
    ensures r.Keys == els.Keys
  {
    if !RequiredPresent(els, selected) then els
    else
      AfterInputs(els, selected.value, Share(els["anzahlung-no"].value), ParseFloat(els["duration-value"].value))
  }

  /** The calculation once the inputs are read: the selected product's price is read next. */
  function AfterInputs(els: map<string, Element>, product: string, share: Option<real>, years: Option<real>): (r: map<string, Element>)
    requires TermSupported(years, 1.0)
    ensures r.Keys == els.Keys
  {
    match TextAt(els, "totalPrice" + product)
    case None => els
    case Some(priceText) =>
      match ParseFloat(Strip(priceText))
      case None => els
      case Some(totalPrice) => AfterPrice(els, product, share, years, totalPrice)
  }

  /** The calculation once the price is known: the down payment is shown, then the rates are read. */
  function AfterPrice(els: map<string, Element>, product: string, share: Option<real>, years: Option<real>, totalPrice: real): (r: map<string, Element>)
    requires TermSupported(years, 1.0)
    ensures r.Keys == els.Keys
  {
    if "downpayment" !in els then els
    else
      AfterDownPayment(WithText(els, "downpayment", AmountText(RoundNum(DownPayment(totalPrice, share)))), product, share, years, totalPrice)
  }

  /** The calculation once the down payment is shown: the rates are read and the payment shown. */
  function AfterDownPayment(els: map<string, Element>, product: string, share: Option<real>, years: Option<real>, totalPrice: real): (r: map<string, Element>)
    requires TermSupported(years, 1.0)
    ensures r.Keys == els.Keys
  {
    match ReadRates(els, product)
    case None => els
    case Some(r) => ShowPayment(els, FloorNum(MonthlyCalcPayment(share, years, totalPrice, r)))
  }

  /**
   * The last writes: the floored payment into `monthlyCalcValue`, then `selectedmoPrice` (whose
   * absence throws and stops the rest), then the `monthlyPayment` input.
   */
  function ShowPayment(els: map<string, Element>, shown: WholeNum): (r: map<string, Element>)
    ensures r.Keys == els.Keys
  {
    var els2 := WithText(els, "monthlyCalcValue", "CHF " + AmountText(shown));
    if "selectedmoPrice" !in els2 then els2
    else
      var els3 := WithText(els2, "selectedmoPrice", "CHF " + AmountText(shown));
      WithValue(els3, "monthlyPayment", NumberText(shown))
  }

  /** `calculateMonthlyCalc()`, up to the `monthlyPayment` input. */
  method CalculateMonthlyCalc(page: Page, selected: Option<string>)
    requires WholeTerm(page.elements)
    modifies page
    ensures page.elements == MonthlyCalcPage(old(page.elements), selected)
  {
    var els := page.elements;
    if !RequiredPresent(els, selected) {
      return;
    }
    var product := selected.value;
    var share := Share(els["anzahlung-no"].value);
    var years := ParseFloat(els["duration-value"].value);
    var priceText := TextAt(els, "totalPrice" + product);
    if priceText.None? {
      return;
    }
    var parsed := ParseFloat(Strip(priceText.value));
    if parsed.None? {
      return;
    }
    var totalPrice := parsed.value;
    if "downpayment" !in page.elements {
      return;
    }
    page.SetText("downpayment", AmountText(RoundNum(DownPayment(totalPrice, share))));
    var rates := ReadRates(page.elements, product);
    if rates.None? {
      return;
    }
    var shown := FloorNum(MonthlyCalcPayment(share, years, totalPrice, rates.value));
    page.SetText("monthlyCalcValue", "CHF " + AmountText(shown));
    if "selectedmoPrice" !in page.elements {
      return;
    }
    page.SetText("selectedmoPrice", "CHF " + AmountText(shown));
    if "monthlyPayment" in page.elements {
      page.SetValue("monthlyPayment", NumberText(shown));
    } else {
      assert WithValue(page.elements, "monthlyPayment", NumberText(shown)) == page.elements;
    }
  }

  // ---------------------------------------------------------------------------------------------
  // What the page shows afterwards

  /**
   * Nothing on the page changes when a required element or the selection is missing, when the
   * selected product has no price element, or when its price does not parse.
   */
  lemma MonthlyCalcUntouched(els: map<string, Element>, selected: Option<string>)
    requires WholeTerm(els)
    requires !RequiredPresent(els, selected)
      || "totalPrice" + selected.value !in els
      || ParseFloat(Strip(els["totalPrice" + selected.value].text)).None?
    ensures MonthlyCalcPage(els, selected) == els
  {
  }

  /** The ids written before the rates are read are not rate ids. */
  lemma DownpaymentIsNotARate(product: string)
    ensures "downpayment" != "serviceFeeValue" + product
    ensures "downpayment" != "maintenanceValue" + product
    ensures "downpayment" != "energyManagementValue" + product
    ensures "downpayment" != "ratInsuranceValue" + product
    ensures "downpayment" != "interestRateValue" + product
    ensures "downpayment" != "taxValue" + product
  {
    assert ("serviceFeeValue" + product)[0] == 's';
    assert ("maintenanceValue" + product)[0] == 'm';
    assert ("energyManagementValue" + product)[0] == 'e';
    assert ("ratInsuranceValue" + product)[0] == 'r';
    assert ("interestRateValue" + product)[0] == 'i';
    assert ("taxValue" + product)[0] == 't';
  }

  /** Writing the down payment does not change the rates read afterwards. */
  lemma {:induction false} DownpaymentKeepsRates(els: map<string, Element>, t: string, product: string)
    ensures ReadRates(WithText(els, "downpayment", t), product) == ReadRates(els, product)
  {
    DownpaymentIsNotARate(product);
  }

  /** The last writes touch `monthlyCalcValue`, `selectedmoPrice` and the `monthlyPayment` input only. */
  lemma ShowPaymentWrites(els: map<string, Element>, shown: WholeNum)
    ensures ShowPayment(els, shown).Keys == els.Keys
    ensures forall id | id in els && id != "monthlyCalcValue" && id != "selectedmoPrice" ::
      ShowPayment(els, shown)[id].text == els[id].text
    ensures forall id | id in els && id != "monthlyCalcValue" && id != "selectedmoPrice" && id != "monthlyPayment" ::
      ShowPayment(els, shown)[id] == els[id]
    ensures "monthlyCalcValue" in els ==>
      ShowPayment(els, shown)["monthlyCalcValue"] == els["monthlyCalcValue"].(text := "CHF " + AmountText(shown))
    ensures "selectedmoPrice" in els ==>
      ShowPayment(els, shown)["selectedmoPrice"] == els["selectedmoPrice"].(text := "CHF " + AmountText(shown))
    ensures "monthlyPayment" in els && "selectedmoPrice" in els ==>
      ShowPayment(els, shown)["monthlyPayment"] == els["monthlyPayment"].(value := NumberText(shown))
    ensures "monthlyPayment" in els && "selectedmoPrice" !in els ==>
      ShowPayment(els, shown)["monthlyPayment"] == els["monthlyPayment"]
    ensures "monthlyCalcValue" in els ==> ShowPayment(els, shown)["monthlyCalcValue"].text == "CHF " + AmountText(shown)
    ensures "selectedmoPrice" in els ==> ShowPayment(els, shown)["selectedmoPrice"].text == "CHF " + AmountText(shown)
    ensures "selectedmoPrice" in els && "monthlyPayment" in els ==>
      ShowPayment(els, shown)["monthlyPayment"].value == NumberText(shown)
  {
  }

  /** Every element other than the four the calculation writes is as it was. */
  predicate KeepsUnwritten(before: map<string, Element>, after: map<string, Element>)
  {
    forall id | id in before && id in after && id != "downpayment" && id != "monthlyCalcValue" &&
        id != "selectedmoPrice" && id != "monthlyPayment" :: after[id] == before[id]
  }

  /** The stage after the rates keeps every unwritten element. */
  lemma AfterDownPaymentFrame(els: map<string, Element>, product: string, share: Option<real>, years: Option<real>, totalPrice: real)
    requires TermSupported(years, 1.0)
    ensures KeepsUnwritten(els, AfterDownPayment(els, product, share, years, totalPrice))
  {
    match ReadRates(els, product)
    case None =>
    case Some(r) => ShowPaymentWrites(els, FloorNum(MonthlyCalcPayment(share, years, totalPrice, r)));
  }

  /** The stage after the price keeps every unwritten element. */
  lemma AfterPriceFrame(els: map<string, Element>, product: string, share: Option<real>, years: Option<real>, totalPrice: real)
    requires TermSupported(years, 1.0)
    ensures KeepsUnwritten(els, AfterPrice(els, product, share, years, totalPrice))
  {
    if "downpayment" in els {
      var els1 := WithText(els, "downpayment", AmountText(RoundNum(DownPayment(totalPrice, share))));
      AfterDownPaymentFrame(els1, product, share, years, totalPrice);
    }
  }

  /**
   * The whole calculation writes the down payment, the two payment texts and the payment
   * input only: every other element keeps its text, value and checked state.
   */
  lemma MonthlyCalcFrame(els: map<string, Element>, selected: Option<string>)
    requires WholeTerm(els)
    ensures forall id | id in els && id != "downpayment" && id != "monthlyCalcValue" &&
        id != "selectedmoPrice" && id != "monthlyPayment" ::
      MonthlyCalcPage(els, selected)[id] == els[id]
  {
    if RequiredPresent(els, selected) {
      var product := selected.value;
      var share := Share(els["anzahlung-no"].value);
      var years := ParseFloat(els["duration-value"].value);
      match TextAt(els, "totalPrice" + product)
      case None =>
      case Some(priceText) =>
        match ParseFloat(Strip(priceText))
        case None =>
        case Some(totalPrice) =>
          AfterPriceFrame(els, product, share, years, totalPrice);
          assert KeepsUnwritten(els, MonthlyCalcPage(els, selected));
    }
  }

  /** Once the price has parsed, the page is the result of the stage after the price. */
  lemma {:induction false} MonthlyCalcReachesPrice(els: map<string, Element>, selected: Option<string>, totalPrice: real)
    requires WholeTerm(els) && RequiredPresent(els, selected)
    requires "totalPrice" + selected.value in els
    requires ParseFloat(Strip(els["totalPrice" + selected.value].text)) == Some(totalPrice)
    ensures MonthlyCalcPage(els, selected)
      == AfterPrice(els, selected.value, Share(els["anzahlung-no"].value), ParseFloat(els["duration-value"].value), totalPrice)
  {
    var product := selected.value;
    var share := Share(els["anzahlung-no"].value);
    var years := ParseFloat(els["duration-value"].value);
    assert MonthlyCalcPage(els, selected) == AfterInputs(els, product, share, years);
    AfterInputsReachesPrice(els, product, share, years, totalPrice);
  }

  lemma AfterInputsReachesPrice(els: map<string, Element>, product: string, share: Option<real>, years: Option<real>, totalPrice: real)
    requires TermSupported(years, 1.0)
    requires "totalPrice" + product in els
    requires ParseFloat(Strip(els["totalPrice" + product].text)) == Some(totalPrice)
    ensures AfterInputs(els, product, share, years) == AfterPrice(els, product, share, years, totalPrice)
  {
    assert TextAt(els, "totalPrice" + product) == Some(els["totalPrice" + product].text);
  }

  /**
   * Once the price has parsed and the `downpayment` element exists, it shows the rounded down
   * payment in Swiss grouping (without the `"CHF "` label), whatever happens afterwards.
   */
  lemma {:induction false} MonthlyCalcShowsDownPayment(els: map<string, Element>, selected: Option<string>, totalPrice: real)
    requires WholeTerm(els) && RequiredPresent(els, selected)
    requires "totalPrice" + selected.value in els
    requires ParseFloat(Strip(els["totalPrice" + selected.value].text)) == Some(totalPrice)
    requires "downpayment" in els
    ensures "downpayment" in MonthlyCalcPage(els, selected)
    ensures MonthlyCalcPage(els, selected)["downpayment"].text
      == AmountText(RoundNum(DownPayment(totalPrice, Share(els["anzahlung-no"].value))))
  {
    MonthlyCalcReachesPrice(els, selected, totalPrice);
    AfterPriceShowsDownPayment(els, selected.value, Share(els["anzahlung-no"].value), ParseFloat(els["duration-value"].value), totalPrice);
  }

  lemma {:induction false} AfterPriceShowsDownPayment(els: map<string, Element>, product: string, share: Option<real>, years: Option<real>, totalPrice: real)
    requires TermSupported(years, 1.0) && "downpayment" in els
    ensures "downpayment" in AfterPrice(els, product, share, years, totalPrice)
    ensures AfterPrice(els, product, share, years, totalPrice)["downpayment"].text
      == AmountText(RoundNum(DownPayment(totalPrice, share)))
  {
    var els1 := WithText(els, "downpayment", AmountText(RoundNum(DownPayment(totalPrice, share))));
    AfterDownPaymentKeeps(els1, product, share, years, totalPrice);
  }

  /** The writes after the down payment leave the `downpayment` element as it is. */
  lemma AfterDownPaymentKeeps(els: map<string, Element>, product: string, share: Option<real>, years: Option<real>, totalPrice: real)
    requires TermSupported(years, 1.0) && "downpayment" in els
    ensures "downpayment" in AfterDownPayment(els, product, share, years, totalPrice)
    ensures AfterDownPayment(els, product, share, years, totalPrice)["downpayment"].text == els["downpayment"].text
  {
    var rates := ReadRates(els, product);
    if rates.Some? {
      ShowPaymentWrites(els, FloorNum(MonthlyCalcPayment(share, years, totalPrice, rates.value)));
    }
  }

  /**
   * With every element present, the payment is shown, floored, as `"CHF "` plus Swiss grouping
   * in both `monthlyCalcValue` and `selectedmoPrice`, and as a plain number in the
   * `monthlyPayment` input; the rates are those on the original page.
   */
  lemma {:induction false} MonthlyCalcShowsPayment(els: map<string, Element>, selected: Option<string>, totalPrice: real, r: Rates)
    requires WholeTerm(els) && RequiredPresent(els, selected)
    requires "totalPrice" + selected.value in els
    requires ParseFloat(Strip(els["totalPrice" + selected.value].text)) == Some(totalPrice)
    requires "downpayment" in els && "selectedmoPrice" in els && "monthlyPayment" in els
    requires ReadRates(els, selected.value) == Some(r)
    ensures TermSupported(ParseFloat(els["duration-value"].value), r.interestRate)
    ensures var shown := FloorNum(MonthlyCalcPayment(Share(els["anzahlung-no"].value), ParseFloat(els["duration-value"].value), totalPrice, r));
      var page := MonthlyCalcPage(els, selected);
      page.Keys == els.Keys
      && page["monthlyCalcValue"].text == "CHF " + AmountText(shown)
      && page["selectedmoPrice"].text == "CHF " + AmountText(shown)
      && page["monthlyPayment"].value == NumberText(shown)
  {
    var product := selected.value;
    var share := Share(els["anzahlung-no"].value);
    var years := ParseFloat(els["duration-value"].value);
    var els1 := WithText(els, "downpayment", AmountText(RoundNum(DownPayment(totalPrice, share))));
    MonthlyCalcReachesPrice(els, selected, totalPrice);
    AfterPriceReadsRates(els, product, share, years, totalPrice, r);
    ShowPaymentWrites(els1, FloorNum(MonthlyCalcPayment(share, years, totalPrice, r)));
  }

  /** The rates read after the down payment is shown are those of the page before it. */
  lemma {:induction false} AfterPriceReadsRates(els: map<string, Element>, product: string, share: Option<real>, years: Option<real>, totalPrice: real, r: Rates)
    requires TermSupported(years, 1.0) && "downpayment" in els
    requires ReadRates(els, product) == Some(r)
    ensures TermSupported(years, r.interestRate)
    ensures var els1 := WithText(els, "downpayment", AmountText(RoundNum(DownPayment(totalPrice, share))));
      AfterPrice(els, product, share, years, totalPrice)
        == ShowPayment(els1, FloorNum(MonthlyCalcPayment(share, years, totalPrice, r)))
  {
    var t := AmountText(RoundNum(DownPayment(totalPrice, share)));
    DownpaymentKeepsRates(els, t, product);
  }

  /**
   * The display uses `Math.floor`: the shown amount is at most the exact payment and less than
   * one below it, and reading the shown text back gives the shown amount.
   */
  lemma {:induction false} FlooredDisplayReadsBack(payment: real, default: real)
    ensures var k := MathFloor(payment);
      k as real <= payment < k as real + 1.0
      && FloorNum(Finite(payment)) == Whole(k)
      && ReadNumber(Some("CHF " + AmountText(Whole(k))), default) == k as real
  {
    assert Strip("CHF ") == [];
    ReadBackPrice(MathFloor(payment), "CHF ", default);
  }

  // ---------------------------------------------------------------------------------------------
  // The arithmetic

  /** The down payment is `totalPrice * share`, and down payment plus remainder is the total price. */
  lemma DownPlusRemaining(totalPrice: real, share: real)
    ensures DownPayment(totalPrice, Some(share)) == Finite(totalPrice * share)
    ensures Remaining(totalPrice, DownPayment(totalPrice, Some(share))) == Finite(totalPrice * (1.0 - share))
    ensures DownPayment(totalPrice, Some(share)).v + Remaining(totalPrice, DownPayment(totalPrice, Some(share))).v == totalPrice
  {
  }

  /**
   * With an interest rate of exactly 0 the base payment is the remainder divided by the number
   * of months, and paying it every month repays the remainder without interest.
   */
  lemma {:induction false} ZeroRateStraightLine(remaining: real, n: nat)
    requires n >= 1
    ensures BasePayment(Finite(remaining), Some(n as real), 0.0) == Finite(remaining / n as real)
    ensures Balance(remaining, 1.0, remaining / n as real, n) == 0.0
  {
    StraightLineRepays(remaining, n);
  }

  /**
   * With any other interest rate the base payment is the remainder times the annuity factor,
   * and paying it every month repays the remainder at the monthly rate.
   */
  lemma {:induction false} NonZeroRateAnnuity(remaining: real, n: nat, interestRate: real)
    requires n >= 1 && interestRate != 0.0
    ensures BasePayment(Finite(remaining), Some(n as real), interestRate)
      == Finite(AnnuityBase(remaining, interestRate, n))
    ensures Balance(remaining, 1.0 + MonthlyRate(interestRate), AnnuityBase(remaining, interestRate, n), n) == 0.0
  {
    assert (n as real).Floor == n;
    var r := MonthlyRate(interestRate);
    assert AnnuityBase(remaining, interestRate, n) == remaining * Factor(r, n);
    FactorRepaysLoan(remaining, r, n);
  }

  /**
   * A NaN down payment or a NaN term makes the payment NaN; a zero term makes it NaN or
   * infinite, never a number.
   */
  lemma NoPaymentWithoutTerm(share: Option<real>, years: Option<real>, totalPrice: real, r: Rates)
    requires TermSupported(years, r.interestRate)
    requires share.None? || years.None? || years == Some(0.0)
    ensures !MonthlyCalcPayment(share, years, totalPrice, r).Finite?
    ensures share.None? || years.None? ==> MonthlyCalcPayment(share, years, totalPrice, r) == NotANumber
  {
  }

  /**
   * With a zero term and a positive remainder the base payment is +Infinity; with a positive
   * service fee and insurance and a tax above -100 % the payment stays +Infinity, so the page
   * shows "CHF ∞" and the `monthlyPayment` input receives "Infinity".
   */
  lemma {:induction false} ZeroTermShowsInfinity(share: real, totalPrice: real, r: Rates)
    requires totalPrice * (1.0 - share) > 0.0
    requires r.serviceFee > 0.0 && r.ratInsurance > 0.0 && r.tax > -100.0
    ensures BasePayment(Remaining(totalPrice, DownPayment(totalPrice, Some(share))), Some(0.0), r.interestRate) == Infinite(false)
    ensures FloorNum(MonthlyCalcPayment(Some(share), Some(0.0), totalPrice, r)) == WholeInfinite(false)
    ensures AmountText(FloorNum(MonthlyCalcPayment(Some(share), Some(0.0), totalPrice, r))) == "\U{221E}"
    ensures NumberText(FloorNum(MonthlyCalcPayment(Some(share), Some(0.0), totalPrice, r))) == "Infinity"
  {
    DownPlusRemaining(totalPrice, share);
    assert (0.0).Floor == 0;
    InfiniteBasePayment(false, r);
  }

  /**
   * The final payment is the engine's layering of a finite base payment; a NaN base payment
   * stays NaN, and an infinite one stays infinite only with a positive service fee and
   * insurance and a non-zero tax factor.
   */
  lemma {:induction false} FinalPaymentIsLayered(share: Option<real>, years: Option<real>, totalPrice: real, r: Rates)
    requires TermSupported(years, r.interestRate)
    ensures var base := BasePayment(Remaining(totalPrice, DownPayment(totalPrice, share)), years, r.interestRate);
      base.Finite? ==> MonthlyCalcPayment(share, years, totalPrice, r) == Finite(WithExtras(base.v, ExtrasOfRates(r)))
    ensures var base := BasePayment(Remaining(totalPrice, DownPayment(totalPrice, share)), years, r.interestRate);
      base.NotANumber? ==> MonthlyCalcPayment(share, years, totalPrice, r) == NotANumber
    ensures var base := BasePayment(Remaining(totalPrice, DownPayment(totalPrice, share)), years, r.interestRate);
      var stays := r.serviceFee > 0.0 && r.ratInsurance > 0.0 && 1.0 + r.tax / 100.0 != 0.0;
      base.Infinite? ==>
        MonthlyCalcPayment(share, years, totalPrice, r)
        == if stays then Infinite(base.negative != (1.0 + r.tax / 100.0 < 0.0)) else NotANumber
  {
    var base := BasePayment(Remaining(totalPrice, DownPayment(totalPrice, share)), years, r.interestRate);
    if base.Finite? {
      LayeredIsEngineLayering(base.v, r);
    } else if base.Infinite? {
      InfiniteBasePayment(base.negative, r);
    }
  }
}
