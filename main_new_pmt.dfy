/**
 * The `PMT(rate, nper, pv)` helper of the single-file page. Unlike the stand-alone helper it
 * special-cases a zero rate, but as `-pv / nper`: the opposite sign of what the annuity formula
 * gives for every other rate, so the "payment" grows the debt instead of repaying it. The page
 * never calls this helper.
 */
module MainNewPmt {
  import opened JsValues
  import opened Annuity
  import Utils

  /** `PMT` as written: `-pv / nper` for a zero rate, the annuity formula otherwise. */
  function PmtAsWritten(rate: real, nper: int, pv: real): (r: Num)
    ensures nper == 0 ==> !r.Finite?
  {
    if rate == 0.0 then Over(Finite(-pv), nper as real) else Utils.Pmt(rate, nper, pv)
  }

  /** `PMT` with the zero-rate branch giving `pv / nper`, the sign of every other branch. */
  function Pmt(rate: real, nper: int, pv: real): (r: Num)
    ensures nper == 0 ==> !r.Finite?
  {
    if rate == 0.0 then Over(Finite(pv), nper as real) else Utils.Pmt(rate, nper, pv)
  }

  /**
   * As written, a loan of 1200 over 12 months at rate 0 gives a payment of -100; paying that
   * every month leaves 2400 owed instead of nothing, while any positive rate gives a positive
   * payment.
   */
  lemma ZeroRateSignFlaw()
    ensures PmtAsWritten(0.0, 12, 1200.0) == Finite(-100.0)
    ensures Balance(1200.0, 1.0, -100.0, 12) == 2400.0
    ensures forall rate: real | rate > 0.0 :: Pmt(rate, 12, 1200.0).Finite? && Pmt(rate, 12, 1200.0).v > 0.0
  {
    BalanceNoInterest(1200.0, -100.0, 12);
    forall rate: real | rate > 0.0
      ensures Pmt(rate, 12, 1200.0).Finite? && Pmt(rate, 12, 1200.0).v > 0.0
    {
      Utils.PmtIsAnnuity(rate, 12, 1200.0);
      FactorBounds(rate, 12);
    }
  }

  /**
   * The two helpers differ only in the sign of the zero-rate branch, which flips even when the
   * term is 0 and the result is infinite.
   */
  lemma AsWrittenIsNegated(rate: real, nper: int, pv: real)
    ensures rate != 0.0 ==> PmtAsWritten(rate, nper, pv) == Pmt(rate, nper, pv)
    ensures rate == 0.0 && nper != 0 ==> PmtAsWritten(rate, nper, pv) == Finite(-Pmt(rate, nper, pv).v)
    ensures rate == 0.0 && nper == 0 && pv != 0.0 ==>
      PmtAsWritten(rate, nper, pv) == Infinite(pv > 0.0) && Pmt(rate, nper, pv) == Infinite(pv < 0.0)
  {
  }

  /**
   * For one or more payments at a rate above -100%, the corrected helper always gives a payment,
   * and paying it every month repays the amount borrowed: nothing is owed after the last payment.
   */
  lemma {:induction false} PmtRepays(rate: real, nper: nat, pv: real)
    requires nper >= 1 && rate > -1.0
    ensures Pmt(rate, nper, pv).Finite?
    ensures Balance(pv, 1.0 + rate, Pmt(rate, nper, pv).v, nper) == 0.0
  {
    if rate == 0.0 {
      StraightLineRepays(pv, nper);
    } else {
      Utils.PmtUndefinedIffZeroRate(rate, nper, pv);
      Utils.PmtRepays(rate, nper, pv);
    }
  }
}
