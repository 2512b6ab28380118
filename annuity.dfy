/**
 * The arithmetic every copy of the monthly-payment engine shares: the monthly rate with its
 * `1e-9` stand-in, `Math.pow` for whole exponents, the annuity factor
 * `r(1+r)^n / ((1+r)^n - 1)` and the fixed layering of service fee, maintenance, energy
 * management, insurance and tax on top of the base payment.
 *
 * The annuity factor is tied to an independent definition of what it is for: paying
 * `principal * Factor(r, n)` at the end of each of `n` months, with interest `r` added to the
 * outstanding balance every month, leaves nothing owed (`FactorRepaysLoan`).
 */
module Annuity {

  /** `1e-9`: the monthly rate every copy uses when the interest rate is not positive. */
  const RateStandIn: real := 0.000000001

  /** `Math.pow(x, n)` for a whole exponent `n >= 0`. */
  function Pow(x: real, n: nat): real
    decreases n
  {
    if n == 0 then 1.0 else x * Pow(x, n - 1)
  }

  /** `Math.pow(x, n)` for any whole exponent; a negative one divides. */
  function PowInt(x: real, n: int): real
    requires x != 0.0 || n >= 0
  {
    if n >= 0 then Pow(x, n)
    else
      PowSign(x, -n);
      1.0 / Pow(x, -n)
  }

  /** The sign of a power, and on which side of 1 it lies. */
  lemma {:induction false} PowSign(x: real, n: nat)
    ensures x > 0.0 ==> Pow(x, n) > 0.0
    ensures x != 0.0 ==> Pow(x, n) != 0.0
    ensures x >= 1.0 ==> Pow(x, n) >= 1.0
    ensures x > 1.0 && n > 0 ==> Pow(x, n) > 1.0
    ensures 0.0 < x < 1.0 && n > 0 ==> Pow(x, n) < 1.0
    decreases n
  {
    if n > 0 {
      PowSign(x, n - 1);
      var q := Pow(x, n - 1);
      assert Pow(x, n) == x * q;
      assert x >= 1.0 ==> x * q >= q;
      assert 0.0 < x < 1.0 && q > 0.0 ==> x * q < q;
    }
  }

  /** A power of a base above 1 is above 1 exactly for a positive exponent, below 1 exactly for a negative one. */
  lemma {:induction false} PowIntSign(x: real, n: int)
    requires x > 1.0
    ensures PowInt(x, n) > 0.0
    ensures PowInt(x, n) > 1.0 <==> n > 0
    ensures PowInt(x, n) < 1.0 <==> n < 0
  {
    if n >= 0 {
      PowSign(x, n);
    } else {
      PowSign(x, -n);
      var q := Pow(x, -n);
      assert PowInt(x, n) == 1.0 / q;
      assert 1.0 / q < 1.0;
    }
  }

  /** `1 + x + x^2 + ... + x^(n-1)`. */
  function Geo(x: real, n: nat): real
    decreases n
  {
    if n == 0 then 0.0 else Geo(x, n - 1) + Pow(x, n - 1)
  }

  /**
   * The monthly interest rate: `annualPercent / 100 / 12` for a positive annual percentage,
   * otherwise the stand-in `1e-9` (also for a negative percentage). It is always positive.
   */
  function MonthlyRate(annualPercent: real): (r: real)
    ensures r > 0.0
    ensures annualPercent > 0.0 ==> r * 1200.0 == annualPercent
    ensures annualPercent <= 0.0 ==> r == RateStandIn
  {
    if annualPercent > 0.0 then annualPercent / 100.0 / 12.0 else RateStandIn
  }

  /** The annuity factor `r(1+r)^n / ((1+r)^n - 1)` for a positive rate and `n != 0` payments. */
  function Factor(r: real, n: int): real
    requires r > 0.0 && n != 0
  {
    PowIntSign(1.0 + r, n);
    var p := PowInt(1.0 + r, n);
    r * p / (p - 1.0)
  }

  /**
   * The balance still owed after `k` months when every month the balance grows by the factor
   * `growth` (`1 + r` for interest `r`) and then `payment` is paid.
   */
  function Balance(principal: real, growth: real, payment: real, k: nat): real
    decreases k
  {
    if k == 0 then principal else Balance(principal, growth, payment, k - 1) * growth - payment
  }

  // ---------------------------------------------------------------------------------------------
  // The geometric series behind the factor

  /** `(x - 1) * Geo(x, n) == x^n - 1`. */
  lemma {:induction false} GeoIdentity(x: real, n: nat)
    ensures (x - 1.0) * Geo(x, n) == Pow(x, n) - 1.0
    decreases n
  {
    if n > 0 {
      GeoIdentity(x, n - 1);
      var g, q := Geo(x, n - 1), Pow(x, n - 1);
      calc {
        (x - 1.0) * Geo(x, n);
        (x - 1.0) * (g + q);
        (x - 1.0) * g + (x - 1.0) * q;
        q - 1.0 + (x * q - q);
        Pow(x, n) - 1.0;
      }
    }
  }

  /** `r * Geo(1 + r, n) == (1 + r)^n - 1`. */
  lemma GeoIdentityRate(r: real, n: nat)
    ensures r * Geo(1.0 + r, n) == Pow(1.0 + r, n) - 1.0
  {
    GeoIdentity(1.0 + r, n);
    var x, g := 1.0 + r, Geo(1.0 + r, n);
    assert (x - 1.0) * g == r * g;
  }

  /** `Geo(x, n) == 1 + x * Geo(x, n - 1)`. */
  lemma {:induction false} GeoShift(x: real, n: nat)
    requires n >= 1
    ensures Geo(x, n) == 1.0 + x * Geo(x, n - 1)
    decreases n
  {
    if n > 1 {
      GeoShift(x, n - 1);
      var g0, q0 := Geo(x, n - 2), Pow(x, n - 2);
      assert Geo(x, n - 1) == g0 + q0;
      assert Pow(x, n - 1) == x * q0;
      assert Geo(x, n) == 1.0 + x * g0 + x * q0;
    }
  }

  /** For `x >= 1` every term is at least 1, so the sum of `n` terms is at least `n`. */
  lemma {:induction false} GeoAtLeastTerms(x: real, n: nat)
    requires x >= 1.0
    ensures n as real <= Geo(x, n)
    decreases n
  {
    if n > 0 {
      GeoAtLeastTerms(x, n - 1);
      PowSign(x, n - 1);
    }
  }

  /** For `x >= 1` every term is at most the last one, `x^(n-1)`. */
  lemma {:induction false} GeoAtMostLastTerm(x: real, n: nat)
    requires x >= 1.0 && n >= 1
    ensures Geo(x, n) <= n as real * Pow(x, n - 1)
    decreases n
  {
    if n > 1 {
      GeoAtMostLastTerm(x, n - 1);
      var q, q0 := Pow(x, n - 1), Pow(x, n - 2);
      PowSign(x, n - 2);
      assert q == x * q0;
      assert q0 <= q by {
        assert x * q0 >= 1.0 * q0;
      }
      assert (n - 1) as real * q0 <= (n - 1) as real * q;
    }
  }

  /** Balance after `k` months in closed form. */
  lemma {:induction false} BalanceClosedForm(principal: real, x: real, payment: real, k: nat)
    ensures Balance(principal, x, payment, k) == principal * Pow(x, k) - payment * Geo(x, k)
    decreases k
  {
    if k > 0 {
      BalanceClosedForm(principal, x, payment, k - 1);
      BalanceOneMonth(principal, x, payment, k);
    }
  }

  /** Without interest the balance falls by the payment every month. */
  lemma {:induction false} BalanceNoInterest(principal: real, payment: real, k: nat)
    ensures Balance(principal, 1.0, payment, k) == principal - k as real * payment
    decreases k
  {
    if k > 0 {
      BalanceNoInterest(principal, payment, k - 1);
      assert (k - 1) as real * payment + payment == k as real * payment;
    }
  }

  /** Without interest, paying `principal / n` for `n` months repays the principal exactly. */
  lemma {:induction false} StraightLineRepays(principal: real, n: nat)
    requires n >= 1
    ensures Balance(principal, 1.0, principal / n as real, n) == 0.0
  {
    BalanceNoInterest(principal, principal / n as real, n);
    DivMul(principal, n as real);
  }

  lemma BalanceOneMonth(principal: real, x: real, payment: real, k: nat)
    requires k >= 1
    requires Balance(principal, x, payment, k - 1) == principal * Pow(x, k - 1) - payment * Geo(x, k - 1)
    ensures Balance(principal, x, payment, k) == principal * Pow(x, k) - payment * Geo(x, k)
  {
    GeoShift(x, k);
    PowStep(x, k);
    BalanceStep(principal, payment, Pow(x, k - 1), Geo(x, k - 1), x, Pow(x, k), Geo(x, k), Balance(principal, x, payment, k - 1));
  }

  lemma PowStep(x: real, k: nat)
    requires k >= 1
    ensures Pow(x, k) == x * Pow(x, k - 1)
  {
  }

  lemma BalanceStep(principal: real, payment: real, p: real, g: real, x: real, p2: real, g2: real, b: real)
    requires p2 == x * p && g2 == 1.0 + x * g && b == principal * p - payment * g
    ensures b * x - payment == principal * p2 - payment * g2
  {
  }

  // ---------------------------------------------------------------------------------------------
  // What the annuity factor is

  /** For `n >= 1` payments the factor is the rate plus the reciprocal of the geometric sum. */
  lemma {:induction false} FactorAsGeo(r: real, n: nat)
    requires r > 0.0 && n >= 1
    ensures Geo(1.0 + r, n) >= n as real
    ensures Factor(r, n) == Pow(1.0 + r, n) / Geo(1.0 + r, n)
    ensures Factor(r, n) == r + 1.0 / Geo(1.0 + r, n)
  {
    GeoIdentityRate(r, n);
    GeoAtLeastTerms(1.0 + r, n);
    var p, g := Pow(1.0 + r, n), Geo(1.0 + r, n);
    assert PowInt(1.0 + r, n) == p;
    FactorDef(r, n, p);
    FactorFromGeo(r, p, g);
  }

  lemma FactorDef(r: real, n: int, p: real)
    requires r > 0.0 && n != 0 && PowInt(1.0 + r, n) == p
    ensures p != 1.0 && Factor(r, n) == r * p / (p - 1.0)
  {
    PowIntSign(1.0 + r, n);
  }

  lemma FactorFromGeo(r: real, p: real, g: real)
    requires r > 0.0 && g > 0.0 && r * g == p - 1.0
    ensures r * p / (p - 1.0) == p / g
    ensures p / g == r + 1.0 / g
  {
    assert p - 1.0 == r * g;
    DivMul(p, g);
    assert (p / g) * (p - 1.0) == r * p;
    QuotientOf(r * p, p - 1.0, p / g);
    DivMul(1.0, g);
    assert (r + 1.0 / g) * g == p;
    QuotientOf(p, g, r + 1.0 / g);
  }

  lemma DivMul(a: real, b: real)
    requires b != 0.0
    ensures (a / b) * b == a
  {
  }

  /** A quotient is determined by multiplication. */
  lemma QuotientOf(a: real, b: real, q: real)
    requires b != 0.0 && q * b == a
    ensures a / b == q
  {
  }

  /**
   * Paying `principal * Factor(r, n)` every month for `n >= 1` months repays the principal with
   * interest `r` exactly.
   */
  lemma {:induction false} FactorRepaysLoan(principal: real, r: real, n: nat)
    requires r > 0.0 && n >= 1
    ensures Balance(principal, 1.0 + r, principal * Factor(r, n), n) == 0.0
  {
    FactorAsGeo(r, n);
    BalanceClosedForm(principal, 1.0 + r, principal * Factor(r, n), n);
    RepayArith(principal, Factor(r, n), Pow(1.0 + r, n), Geo(1.0 + r, n));
  }

  lemma RepayArith(principal: real, f: real, p: real, g: real)
    requires g > 0.0 && f == p / g
    ensures principal * p - (principal * f) * g == 0.0
  {
    DivMul(p, g);
    assert (principal * f) * g == principal * (f * g);
  }

  /**
   * With interest the payment lies above straight-line repayment `1/n`, above the interest `r`
   * alone, and at most `r + 1/n`.
   */
  lemma {:induction false} FactorBounds(r: real, n: nat)
    requires r > 0.0 && n >= 1
    ensures 1.0 / n as real < Factor(r, n)
    ensures r < Factor(r, n) <= r + 1.0 / n as real
  {
    FactorAsGeo(r, n);
    GeoBelowTermsTimesPower(r, n);
    BoundsArith(r, Pow(1.0 + r, n), Geo(1.0 + r, n), n as real, Factor(r, n));
  }

  /** With interest, the `n` terms of the geometric sum all lie below `(1 + r)^n`. */
  lemma GeoBelowTermsTimesPower(r: real, n: nat)
    requires r > 0.0 && n >= 1
    ensures Geo(1.0 + r, n) < n as real * Pow(1.0 + r, n)
  {
    GeoAtMostLastTerm(1.0 + r, n);
    PowSign(1.0 + r, n - 1);
    PowStep(1.0 + r, n);
    LastTermBelow(r, Pow(1.0 + r, n - 1), Pow(1.0 + r, n), Geo(1.0 + r, n), n as real);
  }

  lemma LastTermBelow(r: real, q: real, p: real, g: real, m: real)
    requires r > 0.0 && q >= 1.0 && p == (1.0 + r) * q && m >= 1.0 && g <= m * q
    ensures g < m * p
  {
    assert q < p by {
      assert p == q + r * q;
    }
    assert m * q < m * p;
  }

  lemma BoundsArith(r: real, p: real, g: real, m: real, f: real)
    requires r > 0.0 && m >= 1.0 && g >= m && g < m * p
    requires f == p / g && f == r + 1.0 / g
    ensures 1.0 / m < f
    ensures r < f <= r + 1.0 / m
  {
    assert 1.0 / g <= 1.0 / m;
    assert p / g > 1.0 / m by {
      assert p * m > g;
    }
  }

  /** A single payment repays the principal with one month's interest. */
  lemma {:induction false} FactorOnePayment(r: real)
    requires r > 0.0
    ensures Factor(r, 1) == 1.0 + r
  {
    var p := PowInt(1.0 + r, 1);
    assert Pow(1.0 + r, 0) == 1.0;
    assert p == 1.0 + r;
    assert Factor(r, 1) == r * p / (p - 1.0);
    QuotientOf(r * p, p - 1.0, p);
  }

  /**
   * The stand-in rate `1e-9` gives almost straight-line repayment: the factor lies above `1/n`
   * by at most `1e-9`.
   */
  lemma {:induction false} StandInNearStraightLine(n: nat)
    requires n >= 1
    ensures 1.0 / n as real < Factor(RateStandIn, n) <= 1.0 / n as real + RateStandIn
  {
    FactorBounds(RateStandIn, n);
  }

  /** Over a negative number of payments the factor is negative. */
  lemma {:induction false} FactorNegativeTerm(r: real, n: int)
    requires r > 0.0 && n < 0
    ensures Factor(r, n) < 0.0
  {
    var p := PowInt(1.0 + r, n);
    PowIntSign(1.0 + r, n);
    assert 0.0 < p < 1.0;
    assert r * p > 0.0;
  }

  // ---------------------------------------------------------------------------------------------
  // The extras layered on the base payment

  /** The per-product extras; service fee, insurance and tax are fractions, the others amounts. */
  datatype Extras = Extras(serviceFee: real, maintenance: real, energyManagement: real, insurance: real, tax: real)

  /**
   * The fixed layering: the service fee applies to the base payment only, insurance applies
   * to base, maintenance, energy management and service fee together, and tax multiplies last.
   */
  function WithExtras(base: real, e: Extras): real
  {
    var additional := e.maintenance + e.energyManagement + base * e.serviceFee;
    var subtotal := base + additional;
    var totalNet := subtotal + subtotal * e.insurance;
    totalNet * (1.0 + e.tax)
  }

  /** Extras whose every part is non-negative. */
  predicate NonNegative(e: Extras)
  {
    e.serviceFee >= 0.0 && e.maintenance >= 0.0 && e.energyManagement >= 0.0
    && e.insurance >= 0.0 && e.tax >= 0.0
  }

  /** The layering in one line: each layer multiplies what is below it. */
  lemma ExtrasClosedForm(base: real, e: Extras)
    ensures WithExtras(base, e)
      == (base * (1.0 + e.serviceFee) + e.maintenance + e.energyManagement) * (1.0 + e.insurance) * (1.0 + e.tax)
  {
  }

  /** Without extras the total is the base payment. */
  lemma NoExtras(base: real)
    ensures WithExtras(base, Extras(0.0, 0.0, 0.0, 0.0, 0.0)) == base
  {
  }

  /** Non-negative extras never lower a non-negative base payment. */
  lemma {:induction false} ExtrasNeverLower(base: real, e: Extras)
    requires base >= 0.0 && NonNegative(e)
    ensures WithExtras(base, e) >= base >= 0.0
  {
    var s := base + (e.maintenance + e.energyManagement + base * e.serviceFee);
    assert s >= base by {
      assert base * e.serviceFee >= 0.0;
    }
    var t := s + s * e.insurance;
    assert t >= s by {
      assert s * e.insurance >= 0.0;
    }
    assert t * (1.0 + e.tax) >= t by {
      assert t * e.tax >= 0.0;
    }
  }

  /** With non-negative fee rates a larger base payment never gives a smaller total. */
  lemma {:induction false} ExtrasMonotoneInBase(b1: real, b2: real, e: Extras)
    requires b1 <= b2 && NonNegative(e)
    ensures WithExtras(b1, e) <= WithExtras(b2, e)
  {
    ExtrasClosedForm(b1, e);
    ExtrasClosedForm(b2, e);
    var k := (1.0 + e.insurance) * (1.0 + e.tax);
    assert b1 * (1.0 + e.serviceFee) <= b2 * (1.0 + e.serviceFee);
    var c1 := b1 * (1.0 + e.serviceFee) + e.maintenance + e.energyManagement;
    var c2 := b2 * (1.0 + e.serviceFee) + e.maintenance + e.energyManagement;
    assert c1 * (1.0 + e.insurance) <= c2 * (1.0 + e.insurance);
    assert c1 * (1.0 + e.insurance) * (1.0 + e.tax) <= c2 * (1.0 + e.insurance) * (1.0 + e.tax);
  }

  /** Adding maintenance or energy-management cost never lowers the total. */
  lemma {:induction false} ExtrasMonotoneInCosts(base: real, e: Extras, maintenance: real, energyManagement: real)
    requires e.maintenance <= maintenance && e.energyManagement <= energyManagement
    requires e.insurance >= -1.0 && e.tax >= -1.0
    ensures WithExtras(base, e) <= WithExtras(base, e.(maintenance := maintenance, energyManagement := energyManagement))
  {
    var e2 := e.(maintenance := maintenance, energyManagement := energyManagement);
    ExtrasClosedForm(base, e);
    ExtrasClosedForm(base, e2);
    var c1 := base * (1.0 + e.serviceFee) + e.maintenance + e.energyManagement;
    var c2 := base * (1.0 + e.serviceFee) + maintenance + energyManagement;
    assert c1 <= c2;
    assert c1 * (1.0 + e.insurance) <= c2 * (1.0 + e.insurance);
    assert c1 * (1.0 + e.insurance) * (1.0 + e.tax) <= c2 * (1.0 + e.insurance) * (1.0 + e.tax);
  }

  /**
   * The service fee is charged on the base payment only: its share of the total does not
   * depend on maintenance or energy management.
   */
  lemma ServiceFeeOnBaseOnly(base: real, e: Extras)
    ensures WithExtras(base, e) - WithExtras(base, e.(serviceFee := 0.0))
      == base * e.serviceFee * (1.0 + e.insurance) * (1.0 + e.tax)
  {
    ExtrasClosedForm(base, e);
    ExtrasClosedForm(base, e.(serviceFee := 0.0));
  }

  /** The unrounded monthly total: the annuity payment on `principal`, plus the extras. */
  function MonthlyTotal(principal: real, r: real, n: int, e: Extras): real
    requires r > 0.0 && n != 0
  {
    WithExtras(principal * Factor(r, n), e)
  }

  /** With non-negative principal and extras the total is at least the base annuity payment, which is non-negative. */
  lemma {:induction false} MonthlyTotalAtLeastBase(principal: real, r: real, n: nat, e: Extras)
    requires r > 0.0 && n >= 1 && principal >= 0.0 && NonNegative(e)
    ensures MonthlyTotal(principal, r, n, e) >= principal * Factor(r, n) >= 0.0
  {
    FactorBounds(r, n);
    assert principal * Factor(r, n) >= 0.0;
    ExtrasNeverLower(principal * Factor(r, n), e);
  }
}
