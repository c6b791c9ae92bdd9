/**
 * The result record every product calculator returns and the monthly
 * compounding kernel they all share (calculators/base_calculator.py).
 */
module Kernel {
  import opened RealMath

  /**
   * The year-by-year trajectory of a projection. The kernel produces
   * (year, balance) pairs; the contribution-dynamics routine produces a plain
   * list of balances that starts with the lump sum, and the ETF and
   * Basisrente calculators store that list in the same field. Both shapes are
   * kept apart here instead of being forced into one.
   */
  datatype YearlyValues = Pairs(entries: seq<(int, real)>) | Plain(values: seq<real>)

  /** One product's projection; `name` is the product label. */
  datatype InvestmentResult = InvestmentResult(
    name: string,
    totalPaid: real,
    totalValue: real,
    netReturn: real,
    taxBenefit: real,
    yearlyValues: YearlyValues,
    grossPaid: real,
    stateAllowances: real,
    taxSavings: real,
    totalCosts: real,
    grossReturn: real,
    grossValue: real)
  {
    /** What the saver ends up with beyond what came out of their pocket. */
    function Profit(): (p: real)
      ensures totalPaid + p == totalValue
      ensures p > 0.0 <==> totalValue > totalPaid
    {
      totalValue - totalPaid
    }

    /** Profit as a percentage of the net outlay; 0 when nothing was paid. */
    function ReturnPercentage(): (pct: real)
      ensures totalPaid == 0.0 ==> pct == 0.0
      ensures totalPaid != 0.0 ==> pct * totalPaid == Profit() * 100.0
    {
      if totalPaid == 0.0 then 0.0 else (Profit() / totalPaid) * 100.0
    }

    /** Gross contributions less everything the state paid in or refunded. */
    function NetInvestment(): (n: real)
      ensures n + stateAllowances + taxSavings == grossPaid
    {
      grossPaid - stateAllowances - taxSavings
    }
  }

  /**
   * The length of every month loop in the calculators. The specification
   * functions take the month count as a parameter, so their lemmas hold for
   * any count; the methods, which have the source's loops, fix it to this
   * constant.
   */
  const MonthsPerYear: nat := 12

  /**
   * Balance after `months` months that start from `start`: each month the
   * balance earns a twelfth of the annual rate and then receives `payment`.
   */
  function Grow(start: real, payment: real, annualRate: real, months: nat): real
    decreases months
  {
    if months == 0 then start
    else Grow(start, payment, annualRate, months - 1) * (1.0 + annualRate / 12.0) + payment
  }

  /** The (year, balance) snapshots taken at the end of each of the first `years` years. */
  function YearEndBalances(payment: real, annualRate: real, years: nat): seq<(int, real)>
    decreases years
  {
    if years == 0 then []
    else YearEndBalances(payment, annualRate, years - 1) + [(years, Grow(0.0, payment, annualRate, 12 * years))]
  }

  /** What `_compound_interest` returns, as a value that functions can use. */
  function Compound(payment: real, annualRate: real, years: nat): (real, seq<(int, real)>)
  {
    (Grow(0.0, payment, annualRate, 12 * years), YearEndBalances(payment, annualRate, years))
  }

  /**
   * The kernel plus a lump sum: the calculators grow a positive lump sum
   * yearly, (1 + rate)^years, beside the monthly-compounded payments; a lump
   * sum that is not positive is ignored.
   */
  function WithLumpSum(monthlyPayment: real, annualRate: real, years: nat, lumpSum: real): (v: real)
    ensures lumpSum <= 0.0 ==> v == Grow(0.0, monthlyPayment, annualRate, 12 * years)
  {
    Compound(monthlyPayment, annualRate, years).0
    + (if lumpSum > 0.0 then lumpSum * Pow(1.0 + annualRate, years) else 0.0)
  }

  /**
   * Deferred taxation: the income tax on the whole capital at payout, at the
   * retirement tax rate.
   */
  function PayoutTax(capital: real, taxRateRetirement: real): (tax: real)
    ensures capital >= 0.0 && taxRateRetirement >= 0.0 ==> tax >= 0.0
    ensures 0.0 <= taxRateRetirement <= 1.0 && capital >= 0.0 ==> tax <= capital
  {
    capital * taxRateRetirement
  }

  /**
   * The month loop of `_compound_interest`: start at 0, compound and pay in
   * every month, and record the balance after every twelfth month.
   */
  method CompoundInterest(monthlyPayment: real, annualRate: real, years: nat)
    returns (balance: real, yearlyValues: seq<(int, real)>)
    ensures (balance, yearlyValues) == Compound(monthlyPayment, annualRate, years)
    ensures |yearlyValues| == years
    ensures forall i :: 0 <= i < years ==> yearlyValues[i].0 == i + 1
    ensures years >= 1 ==> yearlyValues[years - 1] == (years, balance)
  {
    var monthlyRate := annualRate / 12.0;
    var months := years * 12;
    balance := 0.0;
    yearlyValues := [];
    var month := 1;
    ghost var done, inYear := 0, 0;
    while month <= months
      invariant 1 <= month <= months + 1
      invariant month - 1 == 12 * done + inYear && 0 <= done && 0 <= inYear < 12
      invariant balance == Grow(0.0, monthlyPayment, annualRate, month - 1)
      invariant yearlyValues == YearEndBalances(monthlyPayment, annualRate, done)
    {
      MonthUpdate(0.0, monthlyPayment, annualRate, monthlyRate, month - 1, balance);
      balance := balance * (1.0 + monthlyRate) + monthlyPayment;
      assert balance == Grow(0.0, monthlyPayment, annualRate, month);
      YearBoundary(month, done, inYear);
      if month % 12 == 0 {
        assert month == 12 * (done + 1);
        yearlyValues := yearlyValues + [(month / 12, balance)];
        done, inYear := done + 1, 0;
      } else {
        inYear := inYear + 1;
      }
      month := month + 1;
    }
    YearEndBalancesShape(monthlyPayment, annualRate, years);
  }

  /** The update `balance * (1 + monthly_rate) + payment` advances the recurrence by one month. */
  lemma MonthUpdate(start: real, payment: real, annualRate: real, monthlyRate: real, months: nat, balance: real)
    requires monthlyRate == annualRate / 12.0
    requires balance == Grow(start, payment, annualRate, months)
    ensures balance * (1.0 + monthlyRate) + payment == Grow(start, payment, annualRate, months + 1)
  {
  }

  /** The month counter of `CompoundInterest` hits a multiple of 12 exactly at a year end. */
  lemma YearBoundary(month: int, done: int, inYear: int)
    requires month == 12 * done + inYear + 1 && 0 <= inYear < 12
    ensures (month % 12 == 0) == (inYear == 11)
    ensures month % 12 == 0 ==> month / 12 == done + 1
  {
  }

  /** The snapshots are numbered 1..years in order and hold the balance after 12*year months. */
  lemma {:induction false} YearEndBalancesShape(payment: real, annualRate: real, years: nat)
    ensures |YearEndBalances(payment, annualRate, years)| == years
    ensures forall i :: 0 <= i < years ==>
      YearEndBalances(payment, annualRate, years)[i] == (i + 1, Grow(0.0, payment, annualRate, 12 * (i + 1)))
  {
    if years > 0 {
      YearEndBalancesShape(payment, annualRate, years - 1);
    }
  }

  /** With no payment the balance never leaves 0, whatever the rate. */
  lemma {:induction false} ZeroPaymentStaysZero(annualRate: real, months: nat)
    ensures Grow(0.0, 0.0, annualRate, months) == 0.0
  {
    if months > 0 {
      ZeroPaymentStaysZero(annualRate, months - 1);
    }
  }

  /** With a zero rate the balance is the plain sum of the payments. */
  lemma {:induction false} ZeroRateIsSumOfPayments(payment: real, months: nat)
    ensures Grow(0.0, payment, 0.0, months) == payment * (months as real)
  {
    if months > 0 {
      ZeroRateIsSumOfPayments(payment, months - 1);
    }
  }

  /** Compounding m months and then k more is compounding m + k months. */
  lemma {:induction false} GrowSplit(start: real, payment: real, annualRate: real, m: nat, k: nat)
    ensures Grow(start, payment, annualRate, m + k) == Grow(Grow(start, payment, annualRate, m), payment, annualRate, k)
    decreases k
  {
    if k > 0 {
      GrowSplit(start, payment, annualRate, m, k - 1);
    }
  }

  /**
   * Closed form of the level-payment recurrence: with q = rate/12 != 0 the
   * balance after n months from 0 satisfies balance * q == payment * ((1+q)^n - 1).
   */
  lemma {:induction false} GrowClosedForm(payment: real, annualRate: real, months: nat)
    requires annualRate != 0.0
    ensures Grow(0.0, payment, annualRate, months) * (annualRate / 12.0)
         == payment * (Pow(1.0 + annualRate / 12.0, months) - 1.0)
  {
    if months > 0 {
      GrowClosedForm(payment, annualRate, months - 1);
      var q := annualRate / 12.0;
      var g := Grow(0.0, payment, annualRate, months - 1);
      var p := Pow(1.0 + q, months - 1);
      assert Grow(0.0, payment, annualRate, months) == g * (1.0 + q) + payment;
      assert Pow(1.0 + q, months) == (1.0 + q) * p;
      ClosedFormStep(g, p, q, payment);
    }
  }

  /** The algebra of one step of GrowClosedForm, on plain numbers. */
  lemma ClosedFormStep(g: real, p: real, q: real, payment: real)
    requires g * q == payment * (p - 1.0)
    ensures (g * (1.0 + q) + payment) * q == payment * ((1.0 + q) * p - 1.0)
  {
    calc {
      (g * (1.0 + q) + payment) * q;
      (g * q) * (1.0 + q) + payment * q;
      payment * (p - 1.0) * (1.0 + q) + payment * q;
      payment * ((1.0 + q) * p - 1.0);
    }
  }

  /** A start balance grows by the compound factor alone, independently of the payments. */
  lemma {:induction false} GrowFromStart(start: real, payment: real, annualRate: real, months: nat)
    ensures Grow(start, payment, annualRate, months)
         == start * Pow(1.0 + annualRate / 12.0, months) + Grow(0.0, payment, annualRate, months)
  {
    if months > 0 {
      GrowFromStart(start, payment, annualRate, months - 1);
      var f := 1.0 + annualRate / 12.0;
      assert Pow(f, months) == f * Pow(f, months - 1);
      assert (start * Pow(f, months - 1)) * f == start * Pow(f, months);
    }
  }
}
