/**
 * The catalog calculation of the single-file page (`calculateMonthlyPayment`): the engine of
 * the modular calculator with no down payment and 60 payments, run for the products A, B and C
 * in that order, each payment written as `"CHF "` plus the Swiss grouping.
 */
module MainNewCatalog {
  import opened Wrappers
  import opened JsValues
  import opened SwissFormat
  import opened Annuity
  import opened Dom
  import opened PaymentCalculator
  import MainNewCalc

  /** No down payment in the catalog. */
  const Anzahlung: real := 0.0
  /** The number of monthly payments. */
  const Years: nat := 60
  /** The product suffixes, in the order they are computed. */
  const Products: seq<string> := ["A", "B", "C"]

  /**
   * `calculateProductMonthlyPayment(suffix)`: the product's payment from the page, written into
   * `moPrice<suffix>` as `"CHF "` plus the Swiss grouping when that element exists.
   */
  method CalculateProductMonthlyPayment(page: Page, suffix: string) returns (monthlyPayment: int)
    modifies page
    ensures monthlyPayment == ProductPayment(old(page.elements), suffix, Anzahlung, Years)
    ensures page.elements == WithText(old(page.elements), "moPrice" + suffix, Shown(Chf, monthlyPayment))
  {
    monthlyPayment := ProductPayment(page.elements, suffix, Anzahlung, Years);
    var id, text := "moPrice" + suffix, "CHF " + SwissAmount(monthlyPayment);
    if id in page.elements {
      page.SetText(id, text);
    } else {
      assert WithText(page.elements, id, text) == page.elements;
    }
  }

  /** `calculateMonthlyPayment()`: every product in turn, collecting the results by suffix. */
  method CalculateMonthlyPayment(page: Page) returns (results: map<string, int>)
    modifies page
    ensures results == Results(old(page.elements), Products, Anzahlung, Years, Chf)
    ensures page.elements == WithPayments(old(page.elements), Products, Anzahlung, Years, Chf)
  {
    results := map[];
    var i := 0;
    while i < |Products|
      invariant 0 <= i <= |Products|
      invariant page.elements == WithPayments(old(page.elements), Products[..i], Anzahlung, Years, Chf)
      invariant results == Results(old(page.elements), Products[..i], Anzahlung, Years, Chf)
    {
      var suffix := Products[i];
      PrefixGrows(Products, i);
      var monthlyPayment := CalculateProductMonthlyPayment(page, suffix);
      results := results[suffix := monthlyPayment];
      i := i + 1;
    }
    PrefixGrows(Products, i);
  }

  /** Without a down payment the whole total price is financed. */
  lemma CatalogPrincipalIsTotal(c: CostInputs)
    ensures Principal(c, Anzahlung) == c.totalCost
  {
  }

  /**
   * After the catalog calculation every product's result is its payment on the original page,
   * its `moPrice` element (when present) shows that payment, and reading the element back with
   * `getNumberFromElement` gives the payment again.
   */
  lemma {:induction false} CatalogShowsPayments(els: map<string, Element>, s: string, default: real)
    requires s in Products
    ensures var k := ProductPayment(els, s, Anzahlung, Years);
      var page := WithPayments(els, Products, Anzahlung, Years, Chf);
      var results := Results(els, Products, Anzahlung, Years, Chf);
      s in results && results[s] == k
      && ("moPrice" + s in els ==> "moPrice" + s in page && page["moPrice" + s].text == "CHF " + SwissAmount(k))
      && ("moPrice" + s in els ==> GetNumberFromElement(page, "moPrice" + s, default) == k as real)
  {
    CardShowsPayment(els, Products, s, default);
  }

  lemma {:induction false} CardShowsPayment(els: map<string, Element>, cards: seq<string>, s: string, default: real)
    requires s in cards
    ensures var k := ProductPayment(els, s, Anzahlung, Years);
      var page := WithPayments(els, cards, Anzahlung, Years, Chf);
      var results := Results(els, cards, Anzahlung, Years, Chf);
      s in results && results[s] == k
      && ("moPrice" + s in els ==> "moPrice" + s in page && page["moPrice" + s].text == "CHF " + SwissAmount(k))
      && ("moPrice" + s in els ==> GetNumberFromElement(page, "moPrice" + s, default) == k as real)
  {
    var k := ProductPayment(els, s, Anzahlung, Years);
    var page := WithPayments(els, cards, Anzahlung, Years, Chf);
    ResultsArePayments(els, cards, Anzahlung, Years, Chf);
    WithPaymentsShows(els, cards, Anzahlung, Years, Chf);
    if "moPrice" + s in els {
      ChfTextReadsBack(page, "moPrice" + s, k, default);
    }
  }

  /** An element showing `"CHF "` plus the Swiss grouping of `k` reads back as `k`. */
  lemma ChfTextReadsBack(els: map<string, Element>, id: string, k: int, default: real)
    requires id in els && els[id].text == "CHF " + SwissAmount(k)
    ensures GetNumberFromElement(els, id, default) == k as real
  {
    assert TextAt(els, id) == Some("CHF " + SwissAmount(k));
    assert Strip("CHF ") == [];
    ReadBackPrice(k, "CHF ", default);
  }

  /** The cost inputs of the catalog that correspond to the interactive calculator's rates. */
  function CostInputsOfRates(r: MainNewCalc.Rates, totalPrice: real): (c: CostInputs)
    ensures ExtrasOf(c) == MainNewCalc.ExtrasOfRates(r)
    ensures c.interestRate == r.interestRate && c.totalCost == totalPrice
  {
    CostInputs(r.serviceFee / 100.0, r.maintenance, r.energyManagement, r.ratInsurance / 100.0,
      r.interestRate, r.tax / 100.0, totalPrice)
  }

  /** Without a down payment the catalog's base payment is the interactive annuity base. */
  lemma NoDownPaymentBase(c: CostInputs, n: nat)
    requires n >= 1
    ensures BasePayment(c, Anzahlung, n) == MainNewCalc.AnnuityBase(c.totalCost, c.interestRate, n)
  {
    CatalogPrincipalIsTotal(c);
  }

  /**
   * With a non-zero interest rate, a 0% down payment and a 60-month term, the interactive
   * calculator computes the same unrounded payment as the catalog; it shows it with
   * `Math.floor`, the catalog with `Math.round`, so the catalog shows the same amount or one more.
   */
  lemma {:induction false} InteractiveAgreesWithCatalog(totalPrice: real, r: MainNewCalc.Rates)
    requires r.interestRate != 0.0
    ensures MainNewCalc.TermSupported(Some(60.0), r.interestRate)
    ensures MainNewCalc.MonthlyCalcPayment(Some(0.0), Some(60.0), totalPrice, r)
      == Finite(TotalWithTax(CostInputsOfRates(r, totalPrice), Anzahlung, Years))
    ensures var t := TotalWithTax(CostInputsOfRates(r, totalPrice), Anzahlung, Years);
      MathFloor(t) <= MathRound(t) <= MathFloor(t) + 1
  {
    var c := CostInputsOfRates(r, totalPrice);
    assert (60.0).Floor == 60;
    var remaining := MainNewCalc.Remaining(totalPrice, MainNewCalc.DownPayment(totalPrice, Some(0.0)));
    assert remaining == Finite(totalPrice);
    var base := MainNewCalc.BasePayment(remaining, Some(60.0), r.interestRate);
    assert base == Finite(MainNewCalc.AnnuityBase(totalPrice, r.interestRate, 60));
    NoDownPaymentBase(c, Years);
    MainNewCalc.FinalPaymentIsLayered(Some(0.0), Some(60.0), totalPrice, r);
    RoundIsFloorOrNext(TotalWithTax(c, Anzahlung, Years));
  }
}
