/**
 * The earlier single-file page. Its catalog (`calculateMonthlyPayment`) computes products A, B
 * and C with a 10% down payment over 60 payments, reading every number with a bare `parseFloat`
 * (so NaN propagates) and dividing the percentages by 100 twice. Its interactive calculator
 * (`calculateMonthlyCalc`) reads the rates with `|| 0`, computes only when the down payment is a
 * number and the term and price are positive, and shows both `Math.round` and `Math.floor` of
 * the result.
 */
module MainOld {
  import opened Wrappers
  import opened JsValues
  import opened SwissFormat
  import opened Annuity
  import opened Dom
  import MainNewCalc
  import PaymentCalculator

  // ---------------------------------------------------------------------------------------------
  // The catalog

  /** The down-payment share of the catalog. */
  const Anzahlung: real := 0.1
  /** The number of monthly payments of the catalog. */
  const Years: nat := 60

  /**
   * The numbers read for one catalog product, as the source's variables hold them: service fee,
   * insurance, interest rate and tax are already divided by 100. `None` is NaN.
   */
  datatype OldInputs = OldInputs(
    serviceFee: Option<real>, maintenance: Option<real>, energyManagement: Option<real>,
    ratInsurance: Option<real>, interestRate: Option<real>, tax: Option<real>, totalCost: Option<real>)

  /** `parseFloat(text) / 100`; NaN stays NaN. */
  function Div100(parsed: Option<real>): (r: Option<real>)
    ensures r.Some? <==> parsed.Some?
    ensures r.Some? ==> r.value * 100.0 == parsed.value
  {
    match parsed
    case None => None
    case Some(v) => Some(v / 100.0)
  }

  /** The seven element ids of product `suffix`. */
  predicate HasInputs(els: map<string, Element>, suffix: string)
  {
    "serviceFeeValue" + suffix in els && "maintenanceValue" + suffix in els
    && "energyManagementValue" + suffix in els && "ratInsuranceValue" + suffix in els
    && "interestRateValue" + suffix in els && "taxValue" + suffix in els && "totalPrice" + suffix in els
  }

  /** The inputs of product `suffix`, or `None` when an element is missing (reading it throws). */
  function ReadOldInputs(els: map<string, Element>, suffix: string): (r: Option<OldInputs>)
    ensures r.Some? <==> HasInputs(els, suffix)
  {
    if !HasInputs(els, suffix) then None
    else
      Some(OldInputs(
        Div100(ParseFloat(els["serviceFeeValue" + suffix].text)),
        ParseFloat(els["maintenanceValue" + suffix].text),
        ParseFloat(els["energyManagementValue" + suffix].text),
        Div100(ParseFloat(els["ratInsuranceValue" + suffix].text)),
        Div100(ParseFloat(els["interestRateValue" + suffix].text)),
        Div100(ParseFloat(els["taxValue" + suffix].text)),
        ParseFloat(els["totalPrice" + suffix].text)))
  }

  /** Every input other than the interest rate is a number. */
  predicate AllRead(inp: OldInputs)
  {
    inp.serviceFee.Some? && inp.maintenance.Some? && inp.energyManagement.Some?
    && inp.ratInsurance.Some? && inp.tax.Some? && inp.totalCost.Some?
  }

  /** `(totalCost - totalCost * anzahlung) * annuityFactor` over the catalog's 60 payments. */
  function CatalogBase(totalCost: real, rate: real): real
    requires rate > 0.0
  {
    (totalCost - totalCost * Anzahlung) * Factor(rate, Years)
  }

  /**
   * As written: `interestRate > 0 ? interestRate / 100 / 12 : 1e-9` on a rate already divided by
   * 100; NaN fails the comparison and gives the stand-in.
   */
  function MonthlyRateAsWritten(interestRate: Option<real>): real
  {
    match interestRate
    case None => RateStandIn
    case Some(x) => MonthlyRate(x)
  }

  /**
   * `totalWithTax` as written: the percentages, already fractions, are divided by 100 once more
   * where they are applied. A NaN input other than the interest rate makes the total NaN.
   */
  function TotalWithTaxAsWritten(inp: OldInputs): (t: Num)
    ensures t.Finite? <==> AllRead(inp)
    ensures !AllRead(inp) ==> t == NotANumber
  {
    if !AllRead(inp) then NotANumber
    else
      var rate := MonthlyRateAsWritten(inp.interestRate);
      Finite(WithExtras(CatalogBase(inp.totalCost.value, rate), Extras(
        inp.serviceFee.value / 100.0, inp.maintenance.value, inp.energyManagement.value,
        inp.ratInsurance.value / 100.0, inp.tax.value / 100.0)))
  }

  /** The monthly rate for a rate held as a fraction: `interestRate / 12`, or `1e-9` when not positive or NaN. */
  function CatalogMonthlyRate(interestRate: Option<real>): real
  {
    match interestRate
    case None => RateStandIn
    case Some(x) => MonthlyRate(x * 100.0)
  }

  /** `totalWithTax` with every percentage divided by 100 once, as the other copies of the engine do. */
  function TotalWithTax(inp: OldInputs): (t: Num)
    ensures t.Finite? <==> AllRead(inp)
    ensures !AllRead(inp) ==> t == NotANumber
  {
    if !AllRead(inp) then NotANumber
    else
      var rate := CatalogMonthlyRate(inp.interestRate);
      Finite(WithExtras(CatalogBase(inp.totalCost.value, rate), Extras(
        inp.serviceFee.value, inp.maintenance.value, inp.energyManagement.value,
        inp.ratInsurance.value, inp.tax.value)))
  }

  /** `Math.round(totalWithTax)` as the page computes it, with the percentages divided twice. */
  function CatalogPayment(inp: OldInputs): WholeNum
  {
    RoundNum(TotalWithTaxAsWritten(inp))
  }

  /** `Math.round(totalWithTax)` with every percentage divided by 100 once. */
  function CorrectedPayment(inp: OldInputs): WholeNum
  {
    RoundNum(TotalWithTax(inp))
  }

  /**
   * The page after the catalog calculation: nothing changes when an input element is missing
   * (reading it throws before anything is written); otherwise the three payments are written.
   */
  function CatalogPage(els: map<string, Element>): (r: map<string, Element>)
    ensures r.Keys == els.Keys
  {
    match (ReadOldInputs(els, "A"), ReadOldInputs(els, "B"), ReadOldInputs(els, "C"))
    case (Some(a), Some(b), Some(c)) => WritePayments(els, CatalogPayment(a), CatalogPayment(b), CatalogPayment(c))
    case _ => els
  }

  /**
   * `moPriceA`, `moPriceB` and `moPriceC` receive `String(payment)` in that order; a missing
   * element throws and stops the rest.
   */
  function WritePayments(els: map<string, Element>, pa: WholeNum, pb: WholeNum, pc: WholeNum): (r: map<string, Element>)
    ensures r.Keys == els.Keys
  {
    if "moPriceA" !in els then els
    else
      var e1 := WithText(els, "moPriceA", NumberText(pa));
      if "moPriceB" !in e1 then e1
      else
        var e2 := WithText(e1, "moPriceB", NumberText(pb));
        if "moPriceC" !in e2 then e2 else WithText(e2, "moPriceC", NumberText(pc))
  }

  /** `calculateMonthlyPayment()` of the earlier page. */
  method CalculateMonthlyPayment(page: Page)
    modifies page
    ensures page.elements == CatalogPage(old(page.elements))
  {
    var a := ReadOldInputs(page.elements, "A");
    var b := ReadOldInputs(page.elements, "B");
    var c := ReadOldInputs(page.elements, "C");
    if a.None? || b.None? || c.None? {
      return;
    }
    WriteCatalogPayments(page, CatalogPayment(a.value), CatalogPayment(b.value), CatalogPayment(c.value));
  }

  /** The three writes at the end of `calculateMonthlyPayment()`. */
  method WriteCatalogPayments(page: Page, pa: WholeNum, pb: WholeNum, pc: WholeNum)
    modifies page
    ensures page.elements == WritePayments(old(page.elements), pa, pb, pc)
  {
    if "moPriceA" !in page.elements {
      return;
    }
    page.SetText("moPriceA", NumberText(pa));
    if "moPriceB" !in page.elements {
      return;
    }
    page.SetText("moPriceB", NumberText(pb));
    if "moPriceC" !in page.elements {
      return;
    }
    page.SetText("moPriceC", NumberText(pc));
  }

  /** With every `moPrice` element present, each shows its own payment and nothing else changes. */
  lemma WritePaymentsShows(els: map<string, Element>, pa: WholeNum, pb: WholeNum, pc: WholeNum)
    requires "moPriceA" in els && "moPriceB" in els && "moPriceC" in els
    ensures WritePayments(els, pa, pb, pc).Keys == els.Keys
    ensures WritePayments(els, pa, pb, pc)["moPriceA"].text == NumberText(pa)
    ensures WritePayments(els, pa, pb, pc)["moPriceB"].text == NumberText(pb)
    ensures WritePayments(els, pa, pb, pc)["moPriceC"].text == NumberText(pc)
    ensures forall id | id in els && id != "moPriceA" && id != "moPriceB" && id != "moPriceC" ::
      WritePayments(els, pa, pb, pc)[id] == els[id]
  {
  }

  /**
   * With every input and output element present, each `moPrice` element shows its product's
   * payment as written: the corrected computation on the inputs divided by 100 once more.
   */
  lemma {:induction false} CatalogWritesPayments(els: map<string, Element>)
    requires HasInputs(els, "A") && HasInputs(els, "B") && HasInputs(els, "C")
    requires "moPriceA" in els && "moPriceB" in els && "moPriceC" in els
    ensures CatalogPage(els).Keys == els.Keys
    ensures CatalogPage(els)["moPriceA"].text == NumberText(CorrectedPayment(Redivided(ReadOldInputs(els, "A").value)))
    ensures CatalogPage(els)["moPriceB"].text == NumberText(CorrectedPayment(Redivided(ReadOldInputs(els, "B").value)))
    ensures CatalogPage(els)["moPriceC"].text == NumberText(CorrectedPayment(Redivided(ReadOldInputs(els, "C").value)))
  {
    var a, b, c := ReadOldInputs(els, "A").value, ReadOldInputs(els, "B").value, ReadOldInputs(els, "C").value;
    CatalogPageWrites(els);
    WritePaymentsShows(els, CatalogPayment(a), CatalogPayment(b), CatalogPayment(c));
    AsWrittenDividesTwice(a);
    AsWrittenDividesTwice(b);
    AsWrittenDividesTwice(c);
  }

  lemma CatalogPageWrites(els: map<string, Element>)
    requires HasInputs(els, "A") && HasInputs(els, "B") && HasInputs(els, "C")
    ensures CatalogPage(els) == WritePayments(els,
      CatalogPayment(ReadOldInputs(els, "A").value), CatalogPayment(ReadOldInputs(els, "B").value),
      CatalogPayment(ReadOldInputs(els, "C").value))
  {
  }

  /** A missing input element of any product leaves the page as it was. */
  lemma CatalogNeedsAllInputs(els: map<string, Element>)
    requires !HasInputs(els, "A") || !HasInputs(els, "B") || !HasInputs(els, "C")
    ensures CatalogPage(els) == els
  {
  }

  /**
   * A payment is a number exactly when every input other than the interest rate is; a NaN in
   * any of them makes the payment NaN, shown as `"NaN"`. As written and as corrected.
   */
  lemma CatalogNaNPropagates(inp: OldInputs)
    ensures CatalogPayment(inp).Whole? <==> AllRead(inp)
    ensures CorrectedPayment(inp).Whole? <==> AllRead(inp)
    ensures !AllRead(inp) ==> CatalogPayment(inp) == WholeNaN && NumberText(CatalogPayment(inp)) == "NaN"
  {
  }

  /**
   * There is no zero-rate case: a rate that is not positive, or NaN, always gives the `1e-9`
   * stand-in, as written and as corrected.
   */
  lemma CatalogRateStandIn(interestRate: Option<real>)
    requires interestRate.None? || interestRate.value <= 0.0
    ensures MonthlyRateAsWritten(interestRate) == RateStandIn
    ensures CatalogMonthlyRate(interestRate) == RateStandIn
  {
  }

  /** The inputs with the four percentages divided by 100 once more. */
  function Redivided(inp: OldInputs): OldInputs
  {
    inp.(serviceFee := Div100(inp.serviceFee), ratInsurance := Div100(inp.ratInsurance),
      interestRate := Div100(inp.interestRate), tax := Div100(inp.tax))
  }

  /**
   * As written, the effective fractions are the entered percentages divided by 10000, and the
   * monthly rate is the entered annual percentage divided by 120000: the total as written is
   * the corrected total on inputs divided by 100 once more.
   */
  lemma {:induction false} AsWrittenDividesTwice(inp: OldInputs)
    ensures TotalWithTaxAsWritten(inp) == TotalWithTax(Redivided(inp))
    ensures CatalogPayment(inp) == CorrectedPayment(Redivided(inp))
  {
    if inp.interestRate.Some? {
      var x := inp.interestRate.value;
      assert (x / 100.0) * 100.0 == x;
    }
  }

  /**
   * A product with price 0, maintenance 100 and insurance `"10"` (percent) costs 110 a month
   * whatever its interest rate; as written the catalog shows 100, because the insurance is
   * applied as 0.1% instead of 10%.
   */
  lemma {:induction false} DoubleDivisionCounterexample(interestRate: Option<real>)
    ensures Div100(ParseFloat("10")) == Some(0.1)
    ensures var inp := OldInputs(Some(0.0), Some(100.0), Some(0.0), Some(0.1), interestRate, Some(0.0), Some(0.0));
      CatalogPayment(inp) == Whole(100) && CorrectedPayment(inp) == Whole(110)
  {
    assert IntToString(10) == "10";
    ParseIntToString(10);
    var inp := OldInputs(Some(0.0), Some(100.0), Some(0.0), Some(0.1), interestRate, Some(0.0), Some(0.0));
    ZeroPriceTotals(inp);
    assert WithExtras(0.0, Extras(0.0, 100.0, 0.0, 0.001, 0.0)) == 100.1;
    assert WithExtras(0.0, Extras(0.0, 100.0, 0.0, 0.1, 0.0)) == 110.0;
    assert MathRound(100.1) == 100;
    assert MathRound(110.0) == 110;
  }

  /** For a price of 0 only the extras remain, as written and as corrected. */
  lemma ZeroPriceTotals(inp: OldInputs)
    requires AllRead(inp) && inp.totalCost == Some(0.0)
    ensures TotalWithTaxAsWritten(inp) == Finite(WithExtras(0.0, Extras(
      inp.serviceFee.value / 100.0, inp.maintenance.value, inp.energyManagement.value,
      inp.ratInsurance.value / 100.0, inp.tax.value / 100.0)))
    ensures TotalWithTax(inp) == Finite(WithExtras(0.0, Extras(
      inp.serviceFee.value, inp.maintenance.value, inp.energyManagement.value,
      inp.ratInsurance.value, inp.tax.value)))
  {
    ZeroPriceNoBase(MonthlyRateAsWritten(inp.interestRate));
    ZeroPriceNoBase(CatalogMonthlyRate(inp.interestRate));
  }

  lemma ZeroPriceNoBase(rate: real)
    requires rate > 0.0
    ensures CatalogBase(0.0, rate) == 0.0
  {
  }

  /** The cost inputs of the modular calculator that hold the same fractions as `inp`. */
  function EngineInputs(inp: OldInputs): (c: PaymentCalculator.CostInputs)
    requires AllRead(inp)
    ensures c.totalCost == inp.totalCost.value
  {
    PaymentCalculator.CostInputs(inp.serviceFee.value, inp.maintenance.value, inp.energyManagement.value,
      inp.ratInsurance.value, if inp.interestRate.Some? && inp.interestRate.value > 0.0 then inp.interestRate.value * 100.0 else 0.0,
      inp.tax.value, inp.totalCost.value)
  }

  /** The corrected catalog payment is exactly the modular calculator's payment (10% down, 60 payments). */
  lemma {:induction false} CatalogIsEngine(inp: OldInputs)
    requires AllRead(inp)
    ensures CorrectedPayment(inp) == Whole(PaymentCalculator.MonthlyPayment(EngineInputs(inp), Anzahlung, Years))
  {
    var c := EngineInputs(inp);
    assert CatalogMonthlyRate(inp.interestRate) == MonthlyRate(c.interestRate);
    assert CatalogBase(inp.totalCost.value, MonthlyRate(c.interestRate)) == PaymentCalculator.BasePayment(c, Anzahlung, Years);
  }

  /** The catalog's base payment repays the 90% principal over the 60 payments. */
  lemma {:induction false} CatalogBaseRepays(totalCost: real, rate: real)
    requires rate > 0.0
    ensures Balance(totalCost - totalCost * Anzahlung, 1.0 + rate, CatalogBase(totalCost, rate), Years) == 0.0
  {
    RepaysWith(totalCost - totalCost * Anzahlung, rate, Years, CatalogBase(totalCost, rate));
  }

  lemma RepaysWith(principal: real, rate: real, n: nat, payment: real)
    requires rate > 0.0 && n >= 1 && payment == principal * Factor(rate, n)
    ensures Balance(principal, 1.0 + rate, payment, n) == 0.0
  {
    FactorRepaysLoan(principal, rate, n);
  }

  // ---------------------------------------------------------------------------------------------
  // The interactive calculator

  /** The three conditions the calculation needs: a down payment that is a number, a positive term and price. */
  predicate Computes(anzahlung: Option<real>, years: Option<real>, totalCost: real)
  {
    anzahlung.Some? && years.Some? && years.value > 0.0 && totalCost > 0.0
  }

  /** The terms for which the model computes the power: a whole number of months when the calculation runs. */
  predicate WholeYears(years: Option<real>)
  {
    years.None? || years.value <= 0.0 || MainNewCalc.IsWhole(years.value)
  }

  /** What the calculation shows: `"0"`, or the down payment and the payment rounded and floored. */
  datatype CalcOutcome = ShowsZero | Computed(downpayment: int, rounded: int, floored: int)

  /**
   * `totalWithTax` of the interactive calculator: the annuity on what is left after the down
   * payment, at `interestRate / 100 / 12` or the stand-in (there is no zero-rate case), with
   * the percentages divided by 100 once.
   */
  function CalcTotal(anzahlung: real, n: nat, totalCost: real, r: MainNewCalc.Rates): real
    requires n >= 1
  {
    WithExtras(CalcBase(totalCost - totalCost * anzahlung, r.interestRate, n), MainNewCalc.ExtrasOfRates(r))
  }

  /** `principalAfterDownPayment * annuityFactor`. */
  function CalcBase(principal: real, interestRate: real, n: nat): real
    requires n >= 1
  {
    principal * Factor(MonthlyRate(interestRate), n)
  }

  /** The outcome of `calculateMonthlyCalc` for the parsed inputs: computed exactly when its three conditions hold. */
  function CalcOutcomeOf(anzahlung: Option<real>, years: Option<real>, totalCost: real, r: MainNewCalc.Rates): (o: CalcOutcome)
    requires WholeYears(years)
    ensures o.Computed? <==> Computes(anzahlung, years, totalCost)
  {
    if !Computes(anzahlung, years, totalCost) then ShowsZero
    else
      var n := years.value.Floor;
      var t := CalcTotal(anzahlung.value, n, totalCost, r);
      Computed(MathRound(totalCost * anzahlung.value), MathRound(t), MathFloor(t))
  }

  /**
   * When it runs, the rounded and the floored payment differ by at most one, the floored one
   * never exceeds the exact payment, and the base payment repays the principal.
   */
  lemma {:induction false} CalcShowsRoundAndFloor(anzahlung: Option<real>, years: Option<real>, totalCost: real, r: MainNewCalc.Rates)
    requires WholeYears(years) && Computes(anzahlung, years, totalCost)
    ensures var o := CalcOutcomeOf(anzahlung, years, totalCost, r);
      var n := years.value.Floor;
      n >= 1
      && o.floored <= o.rounded <= o.floored + 1
      && o.floored as real <= CalcTotal(anzahlung.value, n, totalCost, r) < o.floored as real + 1.0
      && o.downpayment == MathRound(totalCost * anzahlung.value)
  {
    var n := years.value.Floor;
    RoundIsFloorOrNext(CalcTotal(anzahlung.value, n, totalCost, r));
  }

  /** The base payment of the interactive calculator repays the principal at the monthly rate. */
  lemma {:induction false} CalcBaseRepays(principal: real, interestRate: real, n: nat)
    requires n >= 1
    ensures Balance(principal, 1.0 + MonthlyRate(interestRate), CalcBase(principal, interestRate, n), n) == 0.0
  {
    var r := MonthlyRate(interestRate);
    assert CalcBase(principal, interestRate, n) == principal * Factor(r, n);
    FactorRepaysLoan(principal, r, n);
  }

  /** A rate text without any digit reads as 0 (`|| 0`), where the catalog would read NaN. */
  lemma RateTextWithoutDigits(text: string)
    requires forall i | 0 <= i < |text| :: !IsDigit(text[i])
    ensures OrZero(ParseFloat(text)) == 0.0
    ensures ParseFloat(text) == None
  {
    if ParseFloat(text).Some? {
      ParseFloatNeedsDigit(text);
    }
  }

  /**
   * The page after the outcome is shown: `"0"` in `monthlyCalcValue`; or the down payment and
   * the rounded payment in Swiss grouping, then the floored payment in `selectedmoPrice` and in
   * the `monthlyPayment` input. A missing `downpayment` or `selectedmoPrice` throws and stops the
   * rest.
   */
  function ShownOutcome(els: map<string, Element>, o: CalcOutcome): map<string, Element>
  {
    match o
    case ShowsZero => WithText(els, "monthlyCalcValue", "0")
    case Computed(d, rounded, floored) =>
      if "downpayment" !in els then els
      else
        var e1 := WithText(els, "downpayment", SwissAmount(d));
        var e2 := WithText(e1, "monthlyCalcValue", SwissAmount(rounded));
        if "selectedmoPrice" !in e2 then e2
        else
          var e3 := WithText(e2, "selectedmoPrice", IntToString(floored));
          WithValue(e3, "monthlyPayment", IntToString(floored))
  }

  /** The writes at the end of `calculateMonthlyCalc`. */
  method ShowCalcOutcome(page: Page, o: CalcOutcome)
    modifies page
    ensures page.elements == ShownOutcome(old(page.elements), o)
  {
    if o.ShowsZero? {
      if "monthlyCalcValue" in page.elements {
        page.SetText("monthlyCalcValue", "0");
      }
      return;
    }
    if "downpayment" !in page.elements {
      return;
    }
    page.SetText("downpayment", SwissAmount(o.downpayment));
    if "monthlyCalcValue" in page.elements {
      page.SetText("monthlyCalcValue", SwissAmount(o.rounded));
    }
    if "selectedmoPrice" !in page.elements {
      return;
    }
    page.SetText("selectedmoPrice", IntToString(o.floored));
    if "monthlyPayment" in page.elements {
      page.SetValue("monthlyPayment", IntToString(o.floored));
    }
  }

  /**
   * With all elements present, `monthlyCalcValue` shows the rounded payment and `selectedmoPrice`
   * the floored one; read back, they differ by at most one.
   */
  lemma {:induction false} ShownPaymentsDifferByAtMostOne(els: map<string, Element>, anzahlung: Option<real>, years: Option<real>, totalCost: real, r: MainNewCalc.Rates, default: real)
    requires WholeYears(years) && Computes(anzahlung, years, totalCost)
    requires "downpayment" in els && "monthlyCalcValue" in els && "selectedmoPrice" in els
    ensures var page := ShownOutcome(els, CalcOutcomeOf(anzahlung, years, totalCost, r));
      "monthlyCalcValue" in page && "selectedmoPrice" in page
      && var shownRound := ReadNumber(Some(page["monthlyCalcValue"].text), default);
      var shownFloor := ReadNumber(Some(page["selectedmoPrice"].text), default);
      shownFloor <= shownRound <= shownFloor + 1.0
  {
    var o := CalcOutcomeOf(anzahlung, years, totalCost, r);
    CalcShowsRoundAndFloor(anzahlung, years, totalCost, r);
    var page := ShownOutcome(els, o);
    assert page["monthlyCalcValue"].text == SwissAmount(o.rounded);
    assert page["selectedmoPrice"].text == IntToString(o.floored);
    ReadBackPrice(o.rounded, "", default);
    assert "" + SwissAmount(o.rounded) == SwissAmount(o.rounded);
    StripIntToString(o.floored);
    ParseIntToString(o.floored);
  }

  // ---------------------------------------------------------------------------------------------
  // The selected product's stored result

  /** `productMapping[selectedProduct]`: A, B and C are the indexes 0, 1 and 2; anything else has none. */
  function ProductIndex(product: string): Option<nat>
  {
    if product == "A" then Some(0)
    else if product == "B" then Some(1)
    else if product == "C" then Some(2)
    else None
  }

  /** The index is defined exactly for the three card letters, and each letter sits at its own index. */
  lemma ProductIndexIff(product: string, i: nat)
    ensures ProductIndex(product) == Some(i) <==> i < 3 && product == ["A", "B", "C"][i]
  {
  }

  /**
   * `calculationResults[selectedProductIndex]` when it is truthy; `None` when it is missing.
   * The data is found exactly when the product is one of the three card letters and its own
   * entry is truthy, and it is then that entry.
   */
  function SelectedProductData(calculationResults: seq<JsValue>, product: string): (d: Option<JsValue>)
    ensures d.Some? ==> Truthy(d.value) && d.value in calculationResults
    ensures d.Some? ==> exists i | 0 <= i < 3 && i < |calculationResults| ::
      product == ["A", "B", "C"][i] && d.value == calculationResults[i]
    ensures forall i | 0 <= i < 3 && i < |calculationResults| && product == ["A", "B", "C"][i] ::
      d == if Truthy(calculationResults[i]) then Some(calculationResults[i]) else None
    ensures product != "A" && product != "B" && product != "C" ==> d.None?
  {
    match ProductIndex(product)
    case None => None
    case Some(i) =>
      if i < |calculationResults| && Truthy(calculationResults[i]) then Some(calculationResults[i]) else None
  }
}
