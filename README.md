# Heating-product payment calculator: a Dafny model

This project models the calculation core of a web page that offers heating products A, B and C
and quotes a monthly payment for each. The core has four parts.

- **Annuity engines.** Each reads a product's total price and its rates from the page:
  service fee, maintenance, energy management, insurance, interest and tax. It computes an
  annuity over a number of monthly payments, layers the extra costs on top and writes the
  rounded payment back. Four copies of this computation exist:
  - the modular `PaymentCalculator` (10% down payment, 60 payments, `Math.round`);
  - the catalog of the single-file page `main-new.js` (no down payment, `"CHF "` plus the
    Swiss grouping `1'234`);
  - the interactive calculator of `main-new.js` (the buyer's own down payment and term, an exact
    division when the interest rate is 0, `Math.floor`);
  - the two calculations of the older page `main-old.js` (one catalog, one interactive);
  - and the two `PMT` helpers.
- **Swiss number format.** The en-US grouping with its commas replaced by apostrophes, and
  its inverse `getNumberFromElement`. That function strips everything but digits, dots and minus
  signs, then applies `parseFloat`.
- **Validators and form handling.** The parameter checks before a calculation request, the
  address and house-information checks, clearing and pre-filling the house form, and the display
  helpers `safeGet`, `formatNumber` and `updateElement`.
- **Debug logger.** A mutable level, messages gated by severity, and an on-page panel that
  keeps the 50 newest messages.

Numbers are Dafny `real`s. `Math.round(x)` is `(x + 0.5).Floor` and `Math.floor(x)` is
`x.Floor`. The stand-in monthly rate `1e-9` is `0.000000001`.

A computed JavaScript number is a `JsValues.Num`: a finite value, NaN, or an infinity with its
sign. Multiplication, addition and division by a finite divisor follow IEEE 754: NaN absorbs,
an infinity times 0 is NaN, opposite infinities add to NaN, and a non-zero number divided by 0
is an infinity of its sign. `Math.round` and `Math.floor` keep NaN and the infinities
(`JsValues.WholeNum`). The Swiss display shows them as `"NaN"`, `"∞"` and `"-∞"`, and
`String` writes them as `"NaN"`, `"Infinity"` and `"-Infinity"`.

The page is a `Dom.Page` object holding a map from element id to text, value, radio flag and
checked flag. Operations that change the page are methods on it. Each method is specified by a
function of the old page, and lemmas state what that function writes and what it leaves alone.

Shared pieces:
- `Annuity`: the monthly rate, the annuity factor, the remaining balance after `k` payments and
  the layering of extras.
- `JsValues`: JavaScript truthiness, `Math.round`/`Math.floor`, `trim`, `parseFloat`, and the
  required-field filter.
- `SwissFormat`: the display format and the reading back.

## Model

| member | source | states |
|---|---|---|
| Annuity.MonthlyRate | modular-js/payment-calculator.js:44 | The monthly rate is positive. It is the annual percentage divided by 1200 when that is positive, and the stand-in `1e-9` otherwise. |
| Annuity.FactorRepaysLoan | modular-js/payment-calculator.js:47-50 | Paying principal × annuity factor every month leaves nothing owed after the last of the `n` payments. |
| Annuity.FactorBounds | modular-js/payment-calculator.js:47-48 | The annuity factor lies strictly above the monthly rate and above 1/n, and at most rate + 1/n. |
| Annuity.FactorOnePayment | modular-js/payment-calculator.js:47-48 | With one payment the factor is 1 + rate: the whole debt plus one month's interest. |
| Annuity.StandInNearStraightLine | modular-js/payment-calculator.js:44-48 | With the `1e-9` stand-in rate, the factor lies within `1e-9` above 1/n, so it is practically a straight-line repayment. |
| Annuity.FactorNegativeTerm | main-new.js:1124-1127 | A negative term gives a negative factor. |
| Annuity.BalanceClosedForm | modular-js/payment-calculator.js:47-50 | The balance after k payments is the compounded principal minus the compounded payments. |
| Annuity.BalanceNoInterest | main-new.js:1118-1120 | Without interest, the balance after k payments is principal − k × payment. |
| Annuity.StraightLineRepays | main-new.js:1118-1120 | Without interest, paying principal / n for n months repays exactly. |
| Annuity.ExtrasClosedForm | modular-js/payment-calculator.js:51-55 | The layered total is ((base × (1 + serviceFee) + maintenance + energy) × (1 + insurance)) × (1 + tax). |
| Annuity.NoExtras | modular-js/payment-calculator.js:51-55 | With all extras zero, the total is the base payment. |
| Annuity.ExtrasNeverLower | modular-js/payment-calculator.js:51-55 | With non-negative extras and base, the total is never below the base. |
| Annuity.ExtrasMonotoneInBase | modular-js/payment-calculator.js:51-55 | With non-negative extras, a larger base never gives a smaller total. |
| Annuity.ExtrasMonotoneInCosts | modular-js/payment-calculator.js:51-55 | Higher maintenance or energy-management costs never lower the total. |
| Annuity.ServiceFeeOnBaseOnly | modular-js/payment-calculator.js:51 | The service fee is charged on the base payment only, not on the other costs. |
| Annuity.MonthlyTotalAtLeastBase | modular-js/payment-calculator.js:50-55 | With non-negative inputs, the total is at least principal × factor, which is at least 0. |
| JsValues.MathRound | modular-js/payment-calculator.js:56 | `Math.round(x)` is the integer k with k − 1/2 ≤ x < k + 1/2. |
| JsValues.MathFloor | main-new.js:1144 | `Math.floor(x)` is the integer k with k ≤ x < k + 1. |
| JsValues.RoundIsFloorOrNext | main-old.js:660-666 | `Math.round` is `Math.floor` or one more. |
| JsValues.RoundNum | main-new.js:1074 | `Math.round` of a finite number is its nearest integer; NaN stays NaN and an infinity keeps its sign. |
| JsValues.FloorNum | main-new.js:1144 | `Math.floor` of a finite number is its floor; NaN stays NaN and an infinity keeps its sign. |
| JsValues.Trim | modular-js/validation.js:39 | `trim` gives a slice that neither starts nor ends with white space (every ECMAScript white-space and line-terminator character, the space separators U+1680, U+2000–U+200A, U+202F, U+205F and U+3000 included). It is empty exactly when the text is all white space. |
| JsValues.Utf16Length | modular-js/validation.js:39 | A text's `length` counts a character above U+FFFF twice, so it lies between the number of characters and twice that. |
| JsValues.Utf16LengthConcat | modular-js/validation.js:39 | The `length` of two texts put together is the sum of their lengths. |
| JsValues.ParseUnsigned | modular-js/payment-calculator.js:18 | A decimal literal is read exactly when a digit, or a dot and a digit, starts the text. Its value is not negative. |
| JsValues.ParseFloatNeedsDigit | modular-js/payment-calculator.js:18-19 | `parseFloat` gives a number only for a text that contains a digit. |
| JsValues.MissingFields | modular-js/validation.js:16 | The filter keeps exactly the falsy required fields, in their listed order. |
| JsValues.MissingFieldsIgnoresOtherParams | modular-js/form-handler.js:108 | Parameters that agree on the required fields have the same missing fields. |
| SwissFormat.NatToString | main-new.js:956-958 | The decimal digits of n, without leading zeros, denote n. |
| SwissFormat.ReplaceCommas | main-new.js:958 | `.replace(/,/g, "'")` turns every comma into an apostrophe and keeps every other character. |
| SwissFormat.StripGrouped | main-new.js:883 | Stripping the apostrophes of a grouped amount gives back its plain digits. |
| SwissFormat.StripSwissAmount | main-new.js:883 | The Swiss rendering of any integer strips to its plain decimal rendering. |
| SwissFormat.ParseIntToString | modular-js/payment-calculator.js:18 | `parseFloat(String(k)) == k` for every integer k. |
| SwissFormat.ReadBackPrice | main-new.js:876-885 | An amount shown after a label without digits, dots or minus signs (such as `"CHF "`) reads back as exactly that amount. |
| SwissFormat.ReadBackFormattedPrice | main-new.js:575-580 | A price written by the price display reads back as the rounded price. |
| SwissFormat.ReadNumberWithoutDigits | modular-js/payment-calculator.js:17-19 | A text without digits reads as the default value. |
| SwissFormat.SwissAmountHasNoComma | main-new.js:958 | The Swiss rendering contains no comma. |
| SwissFormat.WholeNumberText | main-new.js:586 | `String` writes a whole number as its integer digits. |
| SwissFormat.FractionText | main-new.js:586 | The digits `String` writes after the point are decimal digits. |
| SwissFormat.FractionTextValue | main-new.js:586 | The digits written after the point denote the fraction exactly when it has at most 20 decimal places. |
| SwissFormat.MagnitudeTextReadsBack | main-new.js:586 | A non-negative number of at most 20 decimal places is written as text that starts with a digit and reads back as the number. |
| SwissFormat.NumberToStringReadsBack | main-new.js:586 | `parseFloat(String(x)) == x` for every number of at most 20 decimal places. |
| Utils.Pmt | modular-js/utils.js:14-18 | Over zero payments `PMT` is never a number: NaN or an infinity. |
| Utils.PmtIsAnnuity | modular-js/utils.js:14-18 | For a positive rate and a non-zero term, `PMT` is pv times the engines' annuity factor. |
| Utils.PmtRepays | modular-js/utils.js:14-18 | Whenever `PMT` is finite, paying it for `nper` months repays `pv`. |
| Utils.PmtUndefinedIffZeroRate | modular-js/utils.js:15-16 | For one or more payments and a rate above −100%, `PMT` fails to be a number exactly when the rate is 0, and then it is NaN. |
| Utils.PmtOnePayment | modular-js/utils.js:14-18 | One payment is pv plus one period's interest. |
| Utils.PmtLinear | modular-js/utils.js:16 | `PMT` scales linearly with pv and stays undefined exactly when it was. |
| PaymentCalculator.ReadCostInputs | modular-js/payment-calculator.js:29-35 | Each of the seven inputs (service fee, maintenance, energy management, insurance, interest rate, tax, price) is the number read from the product's element. The three percentages are divided by 100. |
| PaymentCalculator.BasePaymentRepays | modular-js/payment-calculator.js:42-50 | The base payment repays the principal after the down payment over the 60 months. |
| PaymentCalculator.MonthlyPayment | modular-js/payment-calculator.js:56 | The returned payment is the layered total rounded to the nearest integer. |
| PaymentCalculator.TotalAtLeastBase | modular-js/payment-calculator.js:50-55 | With non-negative inputs and a share of at most 1, the total is at least the base payment, which is at least 0. |
| PaymentCalculator.PrincipalIsNinetyPercent | modular-js/payment-calculator.js:5-8 | The calculator pays 60 installments on 90% of the total cost. |
| PaymentCalculator.PaymentCalculator.CalculateProductMonthlyPayment | modular-js/payment-calculator.js:26-80 | Returns the product's payment computed from the page, and writes it into `moPrice<suffix>` when that element exists. Nothing else changes. |
| PaymentCalculator.PaymentCalculator.CalculateAllMonthlyPayments | modular-js/payment-calculator.js:82-92 | Computes every card in order. The results and the new page are the specification functions of the old page. |
| PaymentCalculator.ResultsKeys | modular-js/payment-calculator.js:84-87 | The results hold exactly one entry per card. |
| PaymentCalculator.ResultsArePayments | modular-js/payment-calculator.js:84-87 | Each card's result is its payment on the original page, even though the earlier cards have written theirs. |
| PaymentCalculator.WithPaymentsShows | modular-js/payment-calculator.js:68-73 | Afterwards each card's `moPrice` element shows its payment. Every other element is unchanged, and no element appears or disappears. |
| PaymentCalculator.WithPaymentsKeepsReads | modular-js/payment-calculator.js:29-35 | Writing payments never changes what a later card reads. |
| PaymentCalculator.MoPriceIsNotRead | modular-js/payment-calculator.js:29-35 | No `moPrice` id is one of the ids the payment reads. |
| PaymentCalculator.ShownPaymentReadsBack | modular-js/payment-calculator.js:10-19 | A written payment reads back as itself, and a missing element reads back as the default. |
| MainNewCatalog.CalculateProductMonthlyPayment | main-new.js:895-975 | The product's payment with no down payment over 60 months, written as `"CHF "` plus the Swiss grouping. |
| MainNewCatalog.CalculateMonthlyPayment | main-new.js:977-990 | Products A, B and C in turn. The results and page are the specification functions of the old page. |
| MainNewCatalog.CatalogPrincipalIsTotal | main-new.js:920-921 | Without a down payment the whole total price is financed. |
| MainNewCatalog.CatalogShowsPayments | main-new.js:954-984 | Each product's result is its payment on the original page. Its `moPrice` element shows `"CHF "` plus that payment in Swiss grouping, which reads back as the payment. |
| MainNewCatalog.InteractiveAgreesWithCatalog | main-new.js:1113-1144 | With a non-zero rate, 0% down and 60 months, the interactive calculator computes the catalog's unrounded total. The catalog shows the same amount or one more. |
| MainNewCalc.ReadRates | main-new.js:1083-1110 | The rates are read exactly when all six rate elements exist. Each of the six rates is the number its element holds, or 0 when it holds none. |
| MainNewCalc.Share | main-new.js:1045 | The down-payment share is the percentage over 100, or NaN when the input is not a number. |
| MainNewCalc.CalculateMonthlyCalc | main-new.js:1023-1157 | The new page is the page function of the old page and the checked product. |
| MainNewCalc.MonthlyCalcPage | main-new.js:1023-1157 | The calculation adds and removes no element. |
| MainNewCalc.MonthlyCalcUntouched | main-new.js:1032-1065 | A missing element, a missing price element or a price that is not a number leaves the page unchanged. |
| MainNewCalc.MonthlyCalcShowsDownPayment | main-new.js:1074-1077 | The `downpayment` element shows the rounded down payment in Swiss grouping. |
| MainNewCalc.MonthlyCalcShowsPayment | main-new.js:1143-1157 | `monthlyCalcValue` and `selectedmoPrice` show `"CHF "` plus the floored payment (`"NaN"`, `"∞"` or `"-∞"` when it is not a number), and the `monthlyPayment` input holds its `String` text. Nothing is added or removed. |
| MainNewCalc.ShowPaymentWrites | main-new.js:1143-1157 | The display step writes the floored payment's text into `monthlyCalcValue` and `selectedmoPrice` and its number text into the `monthlyPayment` value. Each of those elements is otherwise unchanged, and every other element is unchanged in full. |
| MainNewCalc.MonthlyCalcFrame | main-new.js:1023-1157 | The whole calculation changes no element other than `downpayment`, `monthlyCalcValue`, `selectedmoPrice` and `monthlyPayment`: their text, value and checked state all stay. |
| MainNewCalc.FlooredDisplayReadsBack | main-new.js:1144-1147 | The shown payment is the floor of the total, and it reads back as that integer. |
| MainNewCalc.DownPlusRemaining | main-new.js:1074-1080 | The down payment and the remaining amount add up to the total price. |
| MainNewCalc.ZeroRateStraightLine | main-new.js:1118-1120 | At a rate of exactly 0 the base payment is remaining / n, and it repays the amount. |
| MainNewCalc.NonZeroRateAnnuity | main-new.js:1121-1128 | At any other rate the base payment is the annuity, and it repays the amount. |
| MainNewCalc.NoPaymentWithoutTerm | main-new.js:1116-1128 | A share or term that is not a number makes the payment NaN; a zero term gives no finite payment. |
| MainNewCalc.ZeroTermShowsInfinity | main-new.js:1116-1157 | A zero term with a positive remainder, a positive service fee and insurance and a tax above −100% gives +Infinity: the page shows `"CHF ∞"` and the input `"Infinity"`. |
| MainNewCalc.FinalPaymentIsLayered | main-new.js:1130-1141 | A finite base payment is layered as the engines do, with the percentages divided by 100. A NaN base stays NaN, and an infinite one stays infinite only with a positive service fee and insurance and a non-zero tax factor. |
| MainNewCalc.LayeredIsEngineLayering | main-new.js:1130-1141 | On a finite base payment the interactive layering equals the engine's layering. |
| MainNewCalc.InfiniteBasePayment | main-new.js:1130-1141 | An infinite base payment stays infinite (changing sign with a negative tax factor) only when the service fee and insurance are positive and the tax factor is not 0; otherwise the payment is NaN. |
| MainNewPmt.PmtAsWritten | main-new.js:1217-1223 | Over zero payments the helper as written is never a number. |
| MainNewPmt.Pmt | main-new.js:1217-1223 | Over zero payments the corrected helper is never a number either. |
| MainNewPmt.ZeroRateSignFlaw | main-new.js:1217-1223 | As written, a zero rate gives −pv/nper. Paying that grows a 1200 loan to 2400 over 12 months, while every positive rate gives a positive payment. |
| MainNewPmt.AsWrittenIsNegated | main-new.js:1217-1223 | The written helper and the corrected one differ only in the sign of the zero-rate branch; over zero payments the written one gives the infinity of the opposite sign. |
| MainNewPmt.PmtRepays | main-new.js:1217-1223 | The corrected helper gives a finite payment for one or more payments at a rate above −100%, and that payment repays the loan. |
| MainNewHelpers.ValidateCalculationParamsIff | main-new.js:507-525 | Valid exactly when all six required parameters are truthy. |
| MainNewHelpers.ValidateIgnoresOtherParams | main-new.js:508-517 | Other parameters never change the verdict. |
| MainNewHelpers.SafeGet | main-new.js:541-546 | When every step of the path lands on a value that is not nullish, `safeGet` returns the value at its end. |
| MainNewHelpers.SafeGetFallsBack | main-new.js:541-546 | When the path breaks off, `safeGet` returns the default, provided the default is not an object. |
| MainNewHelpers.DefaultStays | main-new.js:543-545 | Once the reduce has fallen back to a default that is not an object, it keeps it. |
| MainNewHelpers.FormatNumber | main-new.js:556-562 | A number is shown as its nearest integer, and `parseFloat` reads that back. Anything else, NaN included, is shown as the default. |
| MainNewHelpers.RoundedValue | main-new.js:575 | `Math.round` of a number is its nearest integer, and of NaN is NaN. |
| MainNewHelpers.TextContentOf | main-new.js:586 | Setting `textContent` to a text keeps it, to `null` or `undefined` clears it, and to a number writes `String` of it. |
| MainNewHelpers.UpdateElement | main-new.js:564-589 | Returns true exactly when the element exists. Only its text changes, to the price, prefixed or plain rendering. |
| MainNewHelpers.PlainTextShowsValue | main-new.js:585-587 | Without price flag or prefix, any value is written: a text as it is, `null` and `undefined` as nothing, a number of at most 20 decimals as text that reads back as it. |
| MainNewHelpers.ShownPriceReadsBack | main-new.js:573-584 | A number shown by either price display, after a label without digits, reads back as the rounded number. |
| MainOld.ReadOldInputs | main-old.js:721-737 | The inputs are read exactly when all seven elements exist. The percentages are divided by 100 at the read. |
| MainOld.Div100 | main-old.js:721-734 | A number read is divided by 100, and NaN stays NaN. |
| MainOld.TotalWithTaxAsWritten | main-old.js:721-757 | As written, the total is a number exactly when every input other than the interest rate is, and NaN otherwise. |
| MainOld.TotalWithTax | main-old.js:740-757 | The corrected total is a number exactly when every input other than the interest rate is, and NaN otherwise. |
| MainOld.CatalogPage | main-old.js:716-844 | The catalog adds and removes no element. |
| MainOld.CalculateMonthlyPayment | main-old.js:716-844 | The new page is the catalog page function of the old page: the payments as written, with the percentages divided by 100 twice. |
| MainOld.WriteCatalogPayments | main-old.js:841-843 | Writes `moPriceA`, `moPriceB` and `moPriceC` in that order, stopping at the first missing element. |
| MainOld.WritePaymentsShows | main-old.js:841-843 | With all three elements present, each shows its payment (or `"NaN"`) and nothing else changes. |
| MainOld.CatalogPageWrites | main-old.js:716-844 | When every product's input elements exist, the page is the three writes of the payments as written. |
| MainOld.CatalogWritesPayments | main-old.js:716-844 | When every element exists, each `moPrice` element shows `String` of its product's payment as written: the corrected computation on the percentages divided by 100 once more. |
| MainOld.CatalogNeedsAllInputs | main-old.js:721-737 | A missing input element leaves the page unchanged. |
| MainOld.CatalogNaNPropagates | main-old.js:721-758 | The payment is a number exactly when every input other than the interest rate is, as written and as corrected; otherwise it is NaN and shown as `"NaN"`. |
| MainOld.CatalogRateStandIn | main-old.js:742-743 | A missing or non-positive rate becomes the `1e-9` stand-in. |
| MainOld.AsWrittenDividesTwice | main-old.js:721-757 | As written, the total and the payment equal the corrected ones with service fee, insurance, interest and tax divided by 100 once more. |
| MainOld.DoubleDivisionCounterexample | main-old.js:729-757 | At a price of 0 with maintenance 100 and an insurance text of 10%, the code shows 100 where 110 was intended. |
| MainOld.ZeroPriceTotals | main-old.js:749-757 | At a price of 0 only the extras remain. As written they use the percentages divided twice; as intended, once. |
| MainOld.CatalogIsEngine | main-old.js:717-758 | The corrected catalog payment (percentages divided once) is the modular engine's payment with a 10% down payment over 60 months. |
| MainOld.CatalogBaseRepays | main-old.js:740-749 | The catalog base payment repays 90% of the price over 60 months. |
| MainOld.CalcOutcomeOf | main-old.js:634-666 | The interactive calculation runs exactly when the share is a number, the term positive and the total cost positive. |
| MainOld.CalcShowsRoundAndFloor | main-old.js:636-666 | The down payment is rounded. The total is shown rounded in one place and floored in another, and the two differ by at most one. |
| MainOld.CalcBaseRepays | main-old.js:642-651 | The interactive base payment repays the principal over the term. |
| MainOld.RateTextWithoutDigits | main-old.js:524-551 | A rate text without digits reads as 0 through `|| 0`. |
| MainOld.ShowCalcOutcome | main-old.js:634-669 | Writes the down payment and the two payment displays with the input, or `"0"` when the calculation does not run. |
| MainOld.ShownPaymentsDifferByAtMostOne | main-old.js:660-666 | The two payment displays read back within one of each other. |
| MainOld.ProductIndexIff | main-old.js:599-606 | A maps to 0, B to 1 and C to 2, and nothing else maps to an index. |
| MainOld.SelectedProductData | main-old.js:609-616 | The data is found exactly when the product is A, B or C and the entry at its own index exists and is truthy; it is then that entry. |
| Validation.InvalidNumericFields | modular-js/validation.js:23-27 | Keeps exactly the numeric fields that are NaN or not positive once parsed, in order. |
| Validation.ValidateCalculationParamsIff | modular-js/validation.js:4-36 | Valid exactly when all five required fields are truthy and the building age and living area parse to numbers above 0. |
| Validation.ValidateIgnoresOtherParams | modular-js/validation.js:7-27 | Fields outside the required list never change the verdict. |
| Validation.ZeroTextFailsNumericCheck | modular-js/validation.js:16-32 | A living area of `"0"` passes the presence check but fails the numeric one. |
| Validation.ValidateAddressInput | modular-js/validation.js:38-40 | An accepted address is at least three UTF-16 code units long, `length` being counted as JavaScript counts it. |
| Validation.SurrogatePairCountsTwice | modular-js/validation.js:39 | `"a😀"` is accepted, because the emoji counts as two code units. |
| Validation.TwoCharactersRefused | modular-js/validation.js:39 | `"ab"` is two code units long and is refused. |
| Validation.ValidateAddressInputIff | modular-js/validation.js:38-40 | An address is accepted exactly when two characters other than white space, with everything between them, span at least three UTF-16 code units. |
| Validation.ValidateHouseInfo | modular-js/validation.js:42-44 | Accepted house information is an object holding both coordinates. |
| Validation.ValidateHouseInfoIff | modular-js/validation.js:42-44 | Accepted exactly when both coordinates are present and truthy. A coordinate of 0 counts as missing. |
| FormHandler.ResetFormValues | modular-js/form-handler.js:6-35 | Visits the ten listed ids in order and clears each one that exists. |
| FormHandler.ResetFormValuesClears | modular-js/form-handler.js:9-34 | Radios among the ten become unchecked and other fields empty. Every other element is unchanged, and absent ids change nothing. |
| FormHandler.ResetAllEffect | modular-js/form-handler.js:22-34 | Visiting any list of ids clears exactly the listed elements that exist. |
| FormHandler.Cleared | modular-js/form-handler.js:25-29 | A cleared radio is unchecked and keeps its value. Any other field gets the empty value and keeps its checked flag. |
| FormHandler.PrefillFormFields | modular-js/form-handler.js:37-70 | Without house information nothing changes. Otherwise the four fields are written. |
| FormHandler.WriteFields | modular-js/form-handler.js:55-63 | Each listed field that exists gets its house-information value, in order. |
| FormHandler.PrefillFormFieldsWrites | modular-js/form-handler.js:41-63 | Falsy house information changes nothing. Otherwise exactly the four fields get the values of the same-named properties, and every other element is unchanged. |
| FormHandler.PrefillAllEffect | modular-js/form-handler.js:55-63 | Writing a list of fields sets exactly the value of each listed element that exists. |
| FormHandler.ValueText | modular-js/form-handler.js:58 | Setting an input's value to `null` clears it, a text is kept, and a number is written as `String` of it. |
| FormHandler.NumberReadsBack | modular-js/form-handler.js:58 | A whole number is written as its digits, and any number of at most 20 decimals reads back as itself. |
| FormHandler.MissingCalculationFields | modular-js/form-handler.js:99-108 | The missing fields are exactly the falsy required ones, in their listed order. |
| FormHandler.ValidateCalculationParamsIff | modular-js/form-handler.js:98-116 | Valid exactly when all six required fields are truthy. |
| FormHandler.ValidateIgnoresOtherParams | modular-js/form-handler.js:99-108 | Other parameters never change the verdict. |
| DebugUtils.DebugUtils.constructor | modular-js/debug-utils.js:2 | The level starts at 0. |
| DebugUtils.DebugUtils.SetLevel | modular-js/debug-utils.js:5-7 | Sets the level and changes nothing else. |
| DebugUtils.DebugUtils.GetLevel | modular-js/debug-utils.js:9-11 | Returns the level last set. |
| DebugUtils.DebugUtils.Log | modular-js/debug-utils.js:13-22 | When the level reaches the message's severity, appends a console line and updates the panel. Otherwise nothing changes. |
| DebugUtils.DebugUtils.Error | modular-js/debug-utils.js:24-26 | Severity 1, with the message after `"ERROR: "`. |
| DebugUtils.DebugUtils.Warn | modular-js/debug-utils.js:28-30 | Severity 2, with the message after `"WARNING: "`. |
| DebugUtils.DebugUtils.Info | modular-js/debug-utils.js:32-34 | Severity 3, with the message as given. |
| DebugUtils.DebugUtils.Debug | modular-js/debug-utils.js:36-38 | Severity 4, with the message as given. |
| DebugUtils.SeverityGating | modular-js/debug-utils.js:14-38 | At level 0 nothing is emitted, and at level 1 only errors are. Raising the level never silences a message. |
| DebugUtils.DebugUtils.InitializeDebugUI | modular-js/debug-utils.js:40-60 | Afterwards a panel exists. An existing panel is kept as it was, so a second call changes nothing. |
| DebugUtils.DebugUtils.UpdateDebugUI | modular-js/debug-utils.js:62-80 | Without a panel nothing changes. Otherwise the entry is appended and the first child is removed while more than 50 remain. |
| DebugUtils.EntryOf | modular-js/debug-utils.js:65-69 | An entry carries the data as its title exactly when the data is truthy. |
| DebugUtils.KeepNewest | modular-js/debug-utils.js:72-75 | Keeps the newest min(n, 50) entries in their order: a suffix, so the oldest go first. |
| DebugUtils.UpdateKeepsNewest | modular-js/debug-utils.js:70-75 | At most 50 entries remain, with the new one last. Nothing is removed while there is room, and a full panel loses exactly its oldest entry. |
| DebugUtils.UpdatesStayBounded | modular-js/debug-utils.js:72-75 | A panel of at most 50 entries stays within 50 after any number of updates. |

## Left out

- The I/O around the core is not modelled: `console` output, the timestamp of log lines,
  `JSON.stringify`, scrolling the panel, and `DOMPurify`. Log calls inside the calculations are
  not modelled either, because they do not affect the results. The debug panel entries keep the
  data value itself instead of its JSON text.
- MainNewHelpers.UpdateElement: the `isHTML` branch (`innerHTML` through `DOMPurify`) is not
  modelled. The two price branches are modelled for numbers and NaN only, because
  `Math.round` on other values depends on JavaScript's type conversion. The plain branch takes
  any value.
- MainNewHelpers.SafeGetFallsBack: when the default is itself an object, the reduce may
  continue into it. That case is not stated.
- `safeGet` on strings and arrays is not modelled: property reads on them (`"abc"[0]`) give
  `undefined` here.
- MainNewCalc.CalculateMonthlyCalc requires a whole-number term or NaN (`WholeTerm`).
  MainOld's interactive calculation has the same requirement (`WholeYears`). `Math.pow` with a
  fractional exponent is not modelled.
- The interactive calculators also copy card texts and JSON data into the summary elements:
  main-new.js:1158-1188 and main-old.js:552-597 and 612-630. These copies are not modelled.
  The copy of the selected product's data is modelled only as the index lookup
  (`MainOld.ProductIndex`, `MainOld.SelectedProductData`).
- The main-new interactive calculator reads a subsidy (main-new.js:1067-1071) that no result
  uses. It is not modelled.
- `updatePrices` (main-new.js:644-672) and the other page builders are not part of this model.
  Neither are the event listeners, the map, the address search, the API calls and
  `displayCalculationResults`.
- `formatCurrency` (`Intl.NumberFormat`) is not modelled.
- `parseFloat` is modelled for white space, an optional sign and `digits[.digits]`. Exponents
  and the text `Infinity` are not modelled: `"1e1"` reads as 1 here and as 10 in JavaScript.
  The strip of `[^0-9.-]` removes both forms from the texts read with `getNumberFromElement`.
  The raw rate texts of the two interactive calculators and of the older catalog, and the
  numeric check of the validators (validation.js:25), are parsed without that strip, so they
  are modelled exactly only for texts without an exponent and without `Infinity`.
- A JavaScript number in `JsValues.JsValue` is finite. `formatNumber(Infinity)` is not modelled.
- SwissFormat.NumberToString writes every number in plain decimal, cut after 20 decimal places.
  JavaScript writes the shortest text that identifies the double, and uses exponent notation
  from 1e21 up and below 1e-6 (`String(1e21)` is `"1e+21"`). The read-back lemmas hold for
  numbers of at most 20 decimal places.
- SwissFormat.NumberText and MainNewHelpers.FormatNumber write every whole number as plain
  digits. JavaScript's `String(k)` and `Math.round(value).toString()` use exponent notation
  from 1e21 up and from −1e21 down (`formatNumber(1e21)` is `"1e+21"`). So the `monthlyPayment`
  input of main-new.js:1156 and the `moPrice` texts of main-old.js:841-843 are modelled exactly
  only for magnitudes below 1e21.
- Negative zero is not modelled. `Math.round(-0.3)` is −0, which the Swiss display shows as
  `"-0"` and the model as `"0"`. `String(-0)` is `"0"` in both.
- Validation.ValidateAddressInput takes the address as text. A truthy address that is not text
  throws at `trim` in the source, and that case is not modelled.
- `parseFloat` on an array (`[5]` reads as 5) is not modelled. Objects are plain objects here.
- DebugUtils.DebugUtils.UpdateDebugUI: the panel is a list of entries. A panel already on the
  page whose first child is a text node would lose that node before its oldest entry; that is
  not modelled.
- DebugUtils.DebugUtils: the level is an integer. Non-numeric levels and JavaScript's
  comparison of mixed types are not modelled.
- Exceptions are not modelled. The `try`/`catch` blocks that return 0 or the default value
  cannot be reached with the modelled inputs.
- PaymentCalculator.PaymentCalculator.CalculateAllMonthlyPayments and
  MainNewCatalog.CalculateMonthlyPayment return the results map, which the source only logs.
- The set of cards (`productManager.cards`) is a parameter.
- The checked product radio (`input[name="productSelection"]:checked`) is a parameter.
- `input[name="monthlyPayment"]` is addressed as the element with id `monthlyPayment`.
- The tests in `modular-js/__tests__/validation.test.js` expect exceptions and field names
  that the validators do not have. The model follows the code.

## Findings

| source | as written | input that shows it | evidently intended | confidence | as-written member | corrected member |
|---|---|---|---|---|---|---|
| main-new.js:1217-1223 | `PMT` returns `-pv / nper` when the rate is 0. | `PMT(0, 12, 1200)` gives −100. Paying −100 a month for 12 months leaves 2400 owed. | `pv / nper`, with the same sign as the annuity branch, which is positive for every positive rate. | medium, not executed | MainNewPmt.ZeroRateSignFlaw | MainNewPmt.PmtRepays |
| main-old.js:729-757 | The catalog divides service fee, insurance, interest and tax by 100 when reading them (721-734). It divides them again in the formula (743, 753, 755, 757). | A total price of 0, maintenance 100 and an insurance text of `"10"` show 100 instead of 110. | One division by 100, as in the modular calculator and the single-file page. | high, not executed | MainOld.DoubleDivisionCounterexample | MainOld.CatalogIsEngine |
