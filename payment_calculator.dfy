/**
 * The modular payment calculator: a 10% down payment, 60 monthly payments, the annuity factor
 * with the extras layered on top, and `Math.round` of the result, written into the product's
 * `moPrice` element.
 */
module PaymentCalculator {
  import opened Wrappers
  import opened JsValues
  import opened SwissFormat
  import opened Annuity
  import opened Dom

  /** `getNumberFromElement(id, default)`: the element's text, stripped and parsed. */
  function GetNumberFromElement(els: map<string, Element>, id: string, default: real): real
  {
    ReadNumber(TextAt(els, id), default)
  }

  /**
   * The numbers read for one product. Service fee, insurance and tax are converted from percent
   * to a fraction here, once; the interest rate stays in percent.
   */
  datatype CostInputs = CostInputs(
    serviceFee: real, maintenance: real, energyManagement: real, ratInsurance: real,
    interestRate: real, tax: real, totalCost: real)

  function ReadCostInputs(els: map<string, Element>, suffix: string): (c: CostInputs)
    ensures c.serviceFee * 100.0 == GetNumberFromElement(els, "serviceFeeValue" + suffix, 0.0)
    ensures c.maintenance == GetNumberFromElement(els, "maintenanceValue" + suffix, 0.0)
    ensures c.energyManagement == GetNumberFromElement(els, "energyManagementValue" + suffix, 0.0)
    ensures c.ratInsurance * 100.0 == GetNumberFromElement(els, "ratInsuranceValue" + suffix, 0.0)
    ensures c.tax * 100.0 == GetNumberFromElement(els, "taxValue" + suffix, 0.0)
    ensures c.interestRate == GetNumberFromElement(els, "interestRateValue" + suffix, 0.0)
    ensures c.totalCost == GetNumberFromElement(els, "totalPrice" + suffix, 0.0)
  {
    CostInputs(
      GetNumberFromElement(els, "serviceFeeValue" + suffix, 0.0) / 100.0,
      GetNumberFromElement(els, "maintenanceValue" + suffix, 0.0),
      GetNumberFromElement(els, "energyManagementValue" + suffix, 0.0),
      GetNumberFromElement(els, "ratInsuranceValue" + suffix, 0.0) / 100.0,
      GetNumberFromElement(els, "interestRateValue" + suffix, 0.0),
      GetNumberFromElement(els, "taxValue" + suffix, 0.0) / 100.0,
      GetNumberFromElement(els, "totalPrice" + suffix, 0.0))
  }

  /** The extras of one product as the layering uses them. */
  function ExtrasOf(c: CostInputs): Extras
  {
    Extras(c.serviceFee, c.maintenance, c.energyManagement, c.ratInsurance, c.tax)
  }

  /** `totalCost - totalCost * anzahlung`: what is left to finance after the down payment. */
  function Principal(c: CostInputs, anzahlung: real): real
  {
    c.totalCost - c.totalCost * anzahlung
  }

  /** The base payment: the principal times the annuity factor at the monthly rate over `years` payments. */
  function BasePayment(c: CostInputs, anzahlung: real, years: nat): real
    requires years >= 1
  {
    Principal(c, anzahlung) * Factor(MonthlyRate(c.interestRate), years)
  }

  /** The base payment with the product's extras layered on top, before rounding. */
  function TotalWithTax(c: CostInputs, anzahlung: real, years: nat): real
    requires years >= 1
  {
    WithExtras(BasePayment(c, anzahlung, years), ExtrasOf(c))
  }

  /** The payment shown: `Math.round` of the layered total. */
  function MonthlyPayment(c: CostInputs, anzahlung: real, years: nat): (k: int)
    requires years >= 1
    ensures k as real - 0.5 <= TotalWithTax(c, anzahlung, years) < k as real + 0.5
  {
    MathRound(TotalWithTax(c, anzahlung, years))
  }

  /** The base payment repays the principal at the monthly rate over the term. */
  lemma {:induction false} BasePaymentRepays(c: CostInputs, anzahlung: real, years: nat)
    requires years >= 1
    ensures Balance(Principal(c, anzahlung), 1.0 + MonthlyRate(c.interestRate), BasePayment(c, anzahlung, years), years) == 0.0
  {
    var p, r := Principal(c, anzahlung), MonthlyRate(c.interestRate);
    assert BasePayment(c, anzahlung, years) == p * Factor(r, years);
    FactorRepaysLoan(p, r, years);
  }

  /** With non-negative inputs and a down-payment share at most 1, the total is at least the base payment, which is non-negative. */
  lemma {:induction false} TotalAtLeastBase(c: CostInputs, anzahlung: real, years: nat)
    requires years >= 1 && anzahlung <= 1.0 && c.totalCost >= 0.0
    requires c.serviceFee >= 0.0 && c.maintenance >= 0.0 && c.energyManagement >= 0.0
    requires c.ratInsurance >= 0.0 && c.tax >= 0.0
    ensures TotalWithTax(c, anzahlung, years) >= BasePayment(c, anzahlung, years) >= 0.0
  {
    var p := Principal(c, anzahlung);
    assert p == c.totalCost * (1.0 - anzahlung);
    assert p >= 0.0;
    MonthlyTotalAtLeastBase(p, MonthlyRate(c.interestRate), years, ExtrasOf(c));
  }

  /** The monthly payment of product `suffix` as shown on the page `els`. */
  function ProductPayment(els: map<string, Element>, suffix: string, anzahlung: real, years: nat): int
    requires years >= 1
  {
    MonthlyPayment(ReadCostInputs(els, suffix), anzahlung, years)
  }

  /**
   * How a payment is written into its element: `Plain` is `String(k)` (this calculator), `Chf`
   * is `"CHF "` followed by the Swiss grouping (the catalog of the single-file page).
   */
  datatype Display = Plain | Chf

  function Shown(d: Display, k: int): string
  {
    match d
    case Plain => IntToString(k)
    case Chf => "CHF " + SwissAmount(k)
  }

  /**
   * The page after computing the products `cards` in order, each writing its `moPrice` element
   * with the payment rendered by `show`.
   */
  function WithPayments(els: map<string, Element>, cards: seq<string>, anzahlung: real, years: nat, show: Display): map<string, Element>
    requires years >= 1
    decreases |cards|
  {
    if cards == [] then els
    else
      var before := WithPayments(els, cards[..|cards| - 1], anzahlung, years, show);
      var s := cards[|cards| - 1];
      WithText(before, "moPrice" + s, Shown(show, ProductPayment(before, s, anzahlung, years)))
  }

  class PaymentCalculator {
    /** The down-payment share. */
    const anzahlung: real := 0.1
    /** The number of monthly payments. */
    const years: nat := 60

    /**
     * `calculateProductMonthlyPayment(suffix)`: computes the product's payment from the page and
     * writes it into `moPrice<suffix>` when that element exists.
     */
    method CalculateProductMonthlyPayment(page: Page, suffix: string) returns (monthlyPayment: int)
      modifies page
      ensures monthlyPayment == ProductPayment(old(page.elements), suffix, anzahlung, years)
      ensures page.elements == WithText(old(page.elements), "moPrice" + suffix, IntToString(monthlyPayment))
    {
      monthlyPayment := ProductPayment(page.elements, suffix, anzahlung, years);
      var id, text := "moPrice" + suffix, IntToString(monthlyPayment);
      if id in page.elements {
        page.SetText(id, text);
      } else {
        assert WithText(page.elements, id, text) == page.elements;
      }
    }

    /**
     * `calculateAllMonthlyPayments()`: one calculation per card suffix, in order, collecting the
     * results by suffix.
     */
    method CalculateAllMonthlyPayments(page: Page, cards: seq<string>) returns (results: map<string, int>)
      modifies page
      ensures results == Results(old(page.elements), cards, anzahlung, years, Plain)
      ensures page.elements == WithPayments(old(page.elements), cards, anzahlung, years, Plain)
    {
      results := map[];
      var i := 0;
      while i < |cards|
        invariant 0 <= i <= |cards|
        invariant page.elements == WithPayments(old(page.elements), cards[..i], anzahlung, years, Plain)
        invariant results == Results(old(page.elements), cards[..i], anzahlung, years, Plain)
      {
        var suffix := cards[i];
        PrefixGrows(cards, i);
        var monthlyPayment := CalculateProductMonthlyPayment(page, suffix);
        results := results[suffix := monthlyPayment];
        i := i + 1;
      }
      PrefixGrows(cards, i);
    }
  }

  /**
   * The results collected for `cards`, each computed on the page as the earlier cards left it
   * (which, by `ResultsArePayments`, is the payment on the original page).
   */
  function Results(els: map<string, Element>, cards: seq<string>, anzahlung: real, years: nat, show: Display): map<string, int>
    requires years >= 1
    decreases |cards|
  {
    if cards == [] then map[]
    else
      var before := WithPayments(els, cards[..|cards| - 1], anzahlung, years, show);
      var s := cards[|cards| - 1];
      Results(els, cards[..|cards| - 1], anzahlung, years, show)[s := ProductPayment(before, s, anzahlung, years)]
  }

  /** There is exactly one result per card suffix. */
  lemma {:induction false} ResultsKeys(els: map<string, Element>, cards: seq<string>, anzahlung: real, years: nat, show: Display)
    requires years >= 1
    ensures forall s :: s in Results(els, cards, anzahlung, years, show) <==> s in cards
    decreases |cards|
  {
    if cards != [] {
      var init := cards[..|cards| - 1];
      ResultsKeys(els, init, anzahlung, years, show);
      LastSplits(cards);
    }
  }

  /** Each card's result is that product's payment on the original page. */
  lemma {:induction false} ResultsArePayments(els: map<string, Element>, cards: seq<string>, anzahlung: real, years: nat, show: Display)
    requires years >= 1
    ensures forall s | s in cards :: s in Results(els, cards, anzahlung, years, show)
    ensures forall s | s in cards :: Results(els, cards, anzahlung, years, show)[s] == ProductPayment(els, s, anzahlung, years)
    decreases |cards|
  {
    ResultsKeys(els, cards, anzahlung, years, show);
    if cards != [] {
      var init := cards[..|cards| - 1];
      var x := cards[|cards| - 1];
      var before := WithPayments(els, init, anzahlung, years, show);
      var earlier := Results(els, init, anzahlung, years, show);
      var v := ProductPayment(before, x, anzahlung, years);
      assert Results(els, cards, anzahlung, years, show) == earlier[x := v];
      ResultsArePayments(els, init, anzahlung, years, show);
      WithPaymentsKeepsReads(els, init, x, anzahlung, years, show);
      assert v == ProductPayment(els, x, anzahlung, years);
      forall s | s in cards
        ensures earlier[x := v][s] == ProductPayment(els, s, anzahlung, years)
      {
        LastSplits(cards);
      }
    }
  }

  /**
   * After all cards are computed, the `moPrice` element of every card that has one shows that
   * product's payment, and every element that is not a card's `moPrice` element is unchanged.
   */
  lemma {:induction false} WithPaymentsShows(els: map<string, Element>, cards: seq<string>, anzahlung: real, years: nat, show: Display)
    requires years >= 1
    ensures WithPayments(els, cards, anzahlung, years, show).Keys == els.Keys
    ensures forall s | s in cards && "moPrice" + s in els ::
      WithPayments(els, cards, anzahlung, years, show)["moPrice" + s].text == Shown(show, ProductPayment(els, s, anzahlung, years))
    ensures forall id | id in els && (forall s | s in cards :: id != "moPrice" + s) ::
      WithPayments(els, cards, anzahlung, years, show)[id] == els[id]
    decreases |cards|
  {
    if cards != [] {
      var init := cards[..|cards| - 1];
      var x := cards[|cards| - 1];
      WithPaymentsShows(els, init, anzahlung, years, show);
      WithPaymentsKeepsReads(els, init, x, anzahlung, years, show);
      LastSplits(cards);
      forall s | s in cards && "moPrice" + s in els
        ensures WithPayments(els, cards, anzahlung, years, show)["moPrice" + s].text == Shown(show, ProductPayment(els, s, anzahlung, years))
      {
        if s != x {
          SuffixDetermines("moPrice", s, x);
        }
      }
    }
  }

  /** Different suffixes give different ids. */
  lemma SuffixDetermines(prefix: string, s: string, t: string)
    requires s != t
    ensures prefix + s != prefix + t
  {
    assert (prefix + s)[|prefix|..] == s;
    assert (prefix + t)[|prefix|..] == t;
  }

  /** Reading a shown payment back with `getNumberFromElement` gives the payment itself. */
  lemma {:induction false} ShownPaymentReadsBack(els: map<string, Element>, id: string, k: int, default: real)
    ensures GetNumberFromElement(WithText(els, id, IntToString(k)), id, default) == if id in els then k as real else default
  {
    if id in els {
      var t := IntToString(k);
      StripIntToString(k);
      ParseIntToString(k);
      assert TextAt(WithText(els, id, t), id) == Some(t);
    }
  }

  /** A non-empty sequence is its initial part followed by its last element. */
  lemma LastSplits(cards: seq<string>)
    requires cards != []
    ensures forall s :: s in cards <==> s in cards[..|cards| - 1] || s == cards[|cards| - 1]
  {
    assert cards == cards[..|cards| - 1] + [cards[|cards| - 1]];
  }

  /** The prefix of `cards` one element longer. */
  lemma PrefixGrows(cards: seq<string>, i: nat)
    requires i <= |cards|
    ensures i == |cards| ==> cards[..i] == cards
    ensures i < |cards| ==> cards[..i + 1][..i] == cards[..i] && cards[..i + 1][i] == cards[i]
    ensures i < |cards| ==> forall s :: s in cards[..i + 1] <==> s in cards[..i] || s == cards[i]
  {
    if i < |cards| {
      assert cards[..i + 1] == cards[..i] + [cards[i]];
    }
  }

  /** The ten-percent down payment leaves 90% of the total cost as principal, over 60 payments. */
  lemma PrincipalIsNinetyPercent(calculator: PaymentCalculator, c: CostInputs)
    ensures calculator.years == 60
    ensures Principal(c, calculator.anzahlung) == 0.9 * c.totalCost
  {
  }

  // ---------------------------------------------------------------------------------------------
  // Writing a payment never changes what the calculation reads

  /** The ids written and the ids read never coincide. */
  lemma MoPriceIsNotRead(x: string, s: string)
    ensures "moPrice" + x != "serviceFeeValue" + s
    ensures "moPrice" + x != "maintenanceValue" + s
    ensures "moPrice" + x != "energyManagementValue" + s
    ensures "moPrice" + x != "ratInsuranceValue" + s
    ensures "moPrice" + x != "interestRateValue" + s
    ensures "moPrice" + x != "taxValue" + s
    ensures "moPrice" + x != "totalPrice" + s
  {
    var m := "moPrice" + x;
    assert m[0] == 'm' && m[1] == 'o';
    assert ("serviceFeeValue" + s)[0] == 's';
    assert ("maintenanceValue" + s)[1] == 'a';
    assert ("energyManagementValue" + s)[0] == 'e';
    assert ("ratInsuranceValue" + s)[0] == 'r';
    assert ("interestRateValue" + s)[0] == 'i';
    assert ("taxValue" + s)[0] == 't';
    assert ("totalPrice" + s)[0] == 't';
  }

  /** Writing a `moPrice` element leaves every product's payment unchanged. */
  lemma {:induction false} WriteKeepsReads(els: map<string, Element>, x: string, t: string, s: string, anzahlung: real, years: nat)
    requires years >= 1
    ensures ReadCostInputs(WithText(els, "moPrice" + x, t), s) == ReadCostInputs(els, s)
    ensures ProductPayment(WithText(els, "moPrice" + x, t), s, anzahlung, years) == ProductPayment(els, s, anzahlung, years)
  {
    MoPriceIsNotRead(x, s);
  }

  /** Computing some products first leaves every product's payment unchanged. */
  lemma {:induction false} WithPaymentsKeepsReads(els: map<string, Element>, cards: seq<string>, s: string, anzahlung: real, years: nat, show: Display)
    requires years >= 1
    ensures ProductPayment(WithPayments(els, cards, anzahlung, years, show), s, anzahlung, years) == ProductPayment(els, s, anzahlung, years)
    decreases |cards|
  {
    if cards != [] {
      var before := WithPayments(els, cards[..|cards| - 1], anzahlung, years, show);
      var x := cards[|cards| - 1];
      WithPaymentsKeepsReads(els, cards[..|cards| - 1], s, anzahlung, years, show);
      WriteKeepsReads(before, x, Shown(show, ProductPayment(before, x, anzahlung, years)), s, anzahlung, years);
    }
  }
}
