/**
 * The stand-alone `PMT(rate, nper, pv)` helper: `rate * pv * pvif / (pvif - 1)` with
 * `pvif = (1 + rate)^nper`. It has no guard, so a `pvif` of exactly 1 (a zero rate, or no
 * payments) divides by zero: the result is NaN at a zero rate and an infinity otherwise (NaN
 * again when nothing is borrowed).
 */
module Utils {
  import opened JsValues
  import opened Annuity

  /** `PMT(rate, nper, pv)` for a whole number of payments `nper`. */
  function Pmt(rate: real, nper: int, pv: real): (r: Num)
    ensures nper == 0 ==> !r.Finite?
  {
    // Math.pow(0, negative) is Infinity, and Infinity / Infinity is NaN
    if 1.0 + rate == 0.0 && nper < 0 then NotANumber
    else
      var pvif := PowInt(1.0 + rate, nper);
      if pvif == 1.0 then PmtOverZero(rate, pv)
      else Finite(PmtFormula(rate, pv, pvif))
  }

  /** `PMT` when `pvif` is exactly 1: `rate * pv * 1` over `pvif - 1`, which is `+0`. */
  function PmtOverZero(rate: real, pv: real): Num
  {
    Over(Finite(rate * pv), 0.0)
  }

  /** `(rate * pv * pvif) / (pvif - 1)`, the expression both `PMT` helpers share. */
  function PmtFormula(rate: real, pv: real, pvif: real): real
    requires pvif != 1.0
  {
    rate * pv * pvif / (pvif - 1.0)
  }

  /** The payment is linear in the amount borrowed. */
  lemma {:induction false} PmtLinear(rate: real, nper: int, pv: real, k: real)
    ensures Pmt(rate, nper, k * pv).Finite? <==> Pmt(rate, nper, pv).Finite?
    ensures Pmt(rate, nper, pv).Finite? ==> Pmt(rate, nper, k * pv).v == k * Pmt(rate, nper, pv).v
  {
    if !(1.0 + rate == 0.0 && nper < 0) {
      var pvif := PowInt(1.0 + rate, nper);
      if pvif != 1.0 {
        FormulaLinear(rate, pv, pvif, k);
      }
    }
  }

  lemma FormulaLinear(rate: real, pv: real, pvif: real, k: real)
    requires pvif != 1.0
    ensures PmtFormula(rate, k * pv, pvif) == k * PmtFormula(rate, pv, pvif)
  {
    assert rate * (k * pv) * pvif == k * (rate * pv * pvif);
    ScaleQuotient(rate * pv * pvif, pvif - 1.0, k);
  }

  /** `PMT` where it is defined, with `pvif` as a plain value. */
  lemma PmtDef(rate: real, nper: int, pv: real, pvif: real)
    requires !(1.0 + rate == 0.0 && nper < 0) && PowInt(1.0 + rate, nper) == pvif && pvif != 1.0
    ensures Pmt(rate, nper, pv) == Finite(rate * pv * pvif / (pvif - 1.0))
  {
  }

  lemma ScaleQuotient(a: real, b: real, k: real)
    requires b != 0.0
    ensures (k * a) / b == k * (a / b)
  {
  }

  /** With a single payment, the whole amount plus one month's interest is due. */
  lemma {:induction false} PmtOnePayment(rate: real, pv: real)
    requires rate != 0.0
    ensures Pmt(rate, 1, pv) == Finite(pv * (1.0 + rate))
  {
    assert Pow(1.0 + rate, 1) == 1.0 + rate;
    QuotientOf(rate * pv * (1.0 + rate), rate, pv * (1.0 + rate));
  }

  /**
   * For one or more payments at a rate above -100%, the result is undefined exactly when the
   * rate is 0, and then it is NaN.
   */
  lemma {:induction false} PmtUndefinedIffZeroRate(rate: real, nper: int, pv: real)
    requires nper >= 1 && rate > -1.0
    ensures !Pmt(rate, nper, pv).Finite? <==> rate == 0.0
    ensures rate == 0.0 ==> Pmt(rate, nper, pv) == NotANumber
  {
    PowSign(1.0 + rate, nper);
    if rate == 0.0 {
      PowOfOne(nper);
    }
  }

  lemma {:induction false} PowOfOne(n: nat)
    ensures Pow(1.0, n) == 1.0
    decreases n
  {
    if n > 0 {
      PowOfOne(n - 1);
    }
  }

  /**
   * Whenever `PMT` is defined for one or more payments, paying it every month repays the amount
   * borrowed with interest `rate`: nothing is owed after the last payment.
   */
  lemma {:induction false} PmtRepays(rate: real, nper: nat, pv: real)
    requires nper >= 1 && Pmt(rate, nper, pv).Finite?
    ensures Balance(pv, 1.0 + rate, Pmt(rate, nper, pv).v, nper) == 0.0
  {
    var x := 1.0 + rate;
    var p, g := Pow(x, nper), Geo(x, nper);
    var v := Pmt(rate, nper, pv).v;
    assert PowInt(x, nper) == p;
    PmtDef(rate, nper, pv, p);
    GeoIdentity(x, nper);
    assert rate * g == p - 1.0;
    BalanceClosedForm(pv, x, v, nper);
    PmtRepayArith(rate, pv, p, g, v);
  }

  lemma PmtRepayArith(rate: real, pv: real, p: real, g: real, v: real)
    requires p != 1.0 && rate * g == p - 1.0 && v == rate * pv * p / (p - 1.0)
    ensures pv * p - v * g == 0.0
  {
    DivMul(rate * pv * p, p - 1.0);
    assert v * (rate * g) == rate * (pv * p);
    assert rate * (pv * p - v * g) == 0.0;
    ZeroProduct(rate, pv * p - v * g);
  }

  lemma ZeroProduct(a: real, b: real)
    requires a * b == 0.0 && a != 0.0
    ensures b == 0.0
  {
  }

  /** For a positive rate, `PMT` is the amount times the engine's annuity factor. */
  lemma {:induction false} PmtIsAnnuity(rate: real, nper: int, pv: real)
    requires rate > 0.0 && nper != 0
    ensures Pmt(rate, nper, pv) == Finite(pv * Factor(rate, nper))
  {
    var p := PowInt(1.0 + rate, nper);
    FactorDef(rate, nper, p);
    ScaleQuotient(rate * p, p - 1.0, pv);
    assert rate * pv * p == pv * (rate * p);
  }
}
