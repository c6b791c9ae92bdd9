/**
 * The Riester pension (calculators/riester_calculator.py): the state adds a
 * basic and a per-child allowance that are invested with the contributions;
 * the tax office grants the better of the allowance and the tax saving of
 * the special-expense deduction, and pays any excess out as a refund; the
 * whole capital is taxed at the retirement rate.
 */
module Riester {
  import opened RealMath
  import opened Kernel

  const ProductName: string := "Riester-Rente"

  /** The calculator's fields after construction. */
  datatype RiesterParams = RiesterParams(
    monthlyContribution: real,
    years: nat,
    annualReturn: real,
    taxRate: real,
    taxRateRetirement: real,
    basicAllowance: real,
    childrenAllowance: real,
    effectiveCosts: real,
    maxDeductible: real,
    lumpSumShare: real)

  /** The stored lump-sum share: the percentage capped at 30, as a fraction. */
  function LumpSumShare(lumpSumPercentage: real): (share: real)
    ensures share <= 0.30
    ensures lumpSumPercentage <= 30.0 ==> share * 100.0 == lumpSumPercentage
    ensures lumpSumPercentage >= 30.0 ==> share == 0.30
  {
    Min(lumpSumPercentage, 30.0) / 100.0
  }

  /** `RiesterCalculator.__init__`: stores the arguments and caps the lump-sum percentage. */
  function New(monthlyContribution: real, years: nat, annualReturn: real, taxRate: real,
               taxRateRetirement: real, basicAllowance: real, childrenAllowance: real,
               effectiveCosts: real, maxDeductible: real, lumpSumPercentage: real): (p: RiesterParams)
    ensures p.lumpSumShare <= 0.30
    ensures p.lumpSumShare == LumpSumShare(lumpSumPercentage)
    ensures p.monthlyContribution == monthlyContribution && p.years == years
    ensures p.childrenAllowance == childrenAllowance && p.basicAllowance == basicAllowance
    ensures p.annualReturn == annualReturn && p.taxRate == taxRate && p.taxRateRetirement == taxRateRetirement
    ensures p.effectiveCosts == effectiveCosts && p.maxDeductible == maxDeductible
  {
    RiesterParams(monthlyContribution, years, annualReturn, taxRate, taxRateRetirement,
                  basicAllowance, childrenAllowance, effectiveCosts, maxDeductible,
                  LumpSumShare(lumpSumPercentage))
  }

  /** The constructor with the keyword arguments after the tax rate at their defaults except the children allowance. */
  function WithDefaults(monthlyContribution: real, years: nat, annualReturn: real, taxRate: real,
                        childrenAllowance: real): (p: RiesterParams)
    ensures p.taxRateRetirement == 0.30 && p.basicAllowance == 175.0 && p.effectiveCosts == 0.02
    ensures p.maxDeductible == 2100.0 && p.lumpSumShare == 0.0 && p.childrenAllowance == childrenAllowance
  {
    New(monthlyContribution, years, annualReturn, taxRate, 0.30, 175.0, childrenAllowance, 0.02, 2100.0, 0.0)
  }

  /** The return after the effective costs, replaced by 0.001 when it is negative; exactly 0 stays 0. */
  function NetReturn(p: RiesterParams): (r: real)
    ensures p.annualReturn - p.effectiveCosts >= 0.0 ==> r == p.annualReturn - p.effectiveCosts
    ensures p.annualReturn - p.effectiveCosts < 0.0 ==> r == 0.001
    ensures r >= 0.0
  {
    var net := p.annualReturn - p.effectiveCosts;
    if net < 0.0 then 0.001 else net
  }

  function YearlyContribution(p: RiesterParams): real
  {
    p.monthlyContribution * 12.0
  }

  /** Basic plus children allowance, paid every year. */
  function YearlyAllowance(p: RiesterParams): real
  {
    p.basicAllowance + p.childrenAllowance
  }

  /** The tax saving of deducting the contributions up to the deductible maximum. */
  function DeductionSaving(p: RiesterParams): (saving: real)
    ensures p.taxRate >= 0.0 ==> saving <= p.maxDeductible * p.taxRate
    ensures YearlyContribution(p) <= p.maxDeductible ==> saving == YearlyContribution(p) * p.taxRate
  {
    Min(YearlyContribution(p), p.maxDeductible) * p.taxRate
  }

  /**
   * The refund beyond the allowance under the more-favourable test: what the
   * deduction saves in excess of the allowance, never negative, so that the
   * allowance plus the refund is the better of the two.
   */
  function AdditionalTaxBenefit(p: RiesterParams): (extra: real)
    ensures extra >= 0.0
    ensures YearlyAllowance(p) + extra == Max(YearlyAllowance(p), DeductionSaving(p))
    ensures DeductionSaving(p) <= YearlyAllowance(p) ==> extra == 0.0
  {
    Max(0.0, DeductionSaving(p) - YearlyAllowance(p))
  }

  /** What is invested each month: the contribution plus a twelfth of the yearly allowance. */
  function MonthlyWithAllowance(p: RiesterParams): (monthly: real)
    ensures monthly * 12.0 == YearlyContribution(p) + YearlyAllowance(p)
  {
    (YearlyContribution(p) + YearlyAllowance(p)) / 12.0
  }

  /** A yearly amount over the whole term. */
  function OverTerm(yearly: real, years: nat): (total: real)
    ensures yearly >= 0.0 ==> total >= 0.0
    ensures years == 0 ==> total == 0.0
  {
    yearly * (years as real)
  }

  /** `RiesterCalculator.calculate`. */
  function Calculate(p: RiesterParams): (r: InvestmentResult)
    ensures r.name == ProductName
    ensures r.netReturn == NetReturn(p) && r.grossReturn == p.annualReturn
    ensures r.grossValue == Grow(0.0, MonthlyWithAllowance(p), NetReturn(p), 12 * p.years)
    ensures r.yearlyValues == Pairs(YearEndBalances(MonthlyWithAllowance(p), NetReturn(p), p.years))
    ensures r.grossPaid == OverTerm(YearlyContribution(p), p.years)
    ensures r.stateAllowances == OverTerm(YearlyAllowance(p), p.years)
    ensures r.taxSavings == OverTerm(AdditionalTaxBenefit(p), p.years)
    ensures r.taxBenefit == r.stateAllowances + r.taxSavings
    ensures r.totalPaid == r.grossPaid - r.taxSavings
    ensures r.totalValue == r.grossValue - PayoutTax(r.grossValue, p.taxRateRetirement) + r.taxSavings
    ensures r.totalCosts == Grow(0.0, MonthlyWithAllowance(p), p.annualReturn, 12 * p.years) - r.grossValue
  {
    var net := NetReturn(p);
    var monthly := MonthlyWithAllowance(p);
    var projection := Compound(monthly, net, p.years);
    var finalValueGross := projection.0;
    var grossPaid := OverTerm(YearlyContribution(p), p.years);
    var totalAllowances := OverTerm(YearlyAllowance(p), p.years);
    var totalAdditionalTax := OverTerm(AdditionalTaxBenefit(p), p.years);
    var finalWithoutCosts := Compound(monthly, p.annualReturn, p.years).0;
    InvestmentResult(
      name := ProductName,
      totalPaid := grossPaid - totalAdditionalTax,
      totalValue := finalValueGross - PayoutTax(finalValueGross, p.taxRateRetirement) + totalAdditionalTax,
      netReturn := net,
      taxBenefit := totalAllowances + totalAdditionalTax,
      yearlyValues := Pairs(projection.1),
      grossPaid := grossPaid,
      stateAllowances := totalAllowances,
      taxSavings := totalAdditionalTax,
      totalCosts := finalWithoutCosts - finalValueGross,
      grossReturn := p.annualReturn,
      grossValue := finalValueGross)
  }

  /** The lump-sum share is stored but never read: the result does not depend on it. */
  lemma LumpSumShareUnused(p: RiesterParams, share: real)
    ensures Calculate(p.(lumpSumShare := share)) == Calculate(p)
  {
    var q := p.(lumpSumShare := share);
    assert NetReturn(q) == NetReturn(p);
    assert MonthlyWithAllowance(q) == MonthlyWithAllowance(p);
    assert AdditionalTaxBenefit(q) == AdditionalTaxBenefit(p);
  }

  /** (a + b) * n == a * n + b * n for the totals over the term. */
  lemma OverTermAdds(a: real, b: real, years: nat)
    ensures OverTerm(a + b, years) == OverTerm(a, years) + OverTerm(b, years)
  {
    assert (a + b) * (years as real) == a * (years as real) + b * (years as real);
  }

  /** A larger yearly amount gives a larger total, strictly over a term of at least a year. */
  lemma OverTermMonotone(a: real, b: real, years: nat)
    requires a <= b
    ensures OverTerm(a, years) <= OverTerm(b, years)
    ensures a < b && years >= 1 ==> OverTerm(a, years) < OverTerm(b, years)
  {
    assert OverTerm(b, years) - OverTerm(a, years) == (b - a) * (years as real);
  }

  /**
   * The whole state support is, every year, the better of the allowance and
   * the deduction's tax saving.
   */
  lemma BenefitIsBetterOfTwo(p: RiesterParams)
    ensures Calculate(p).taxBenefit == OverTerm(Max(YearlyAllowance(p), DeductionSaving(p)), p.years)
  {
    OverTermAdds(YearlyAllowance(p), AdditionalTaxBenefit(p), p.years);
  }

  /** With a non-negative children allowance the support is at least the basic allowance every year. */
  lemma BenefitAtLeastBasicAllowance(p: RiesterParams)
    requires p.childrenAllowance >= 0.0
    ensures Calculate(p).taxBenefit >= OverTerm(p.basicAllowance, p.years)
  {
    BenefitIsBetterOfTwo(p);
    OverTermMonotone(p.basicAllowance, Max(YearlyAllowance(p), DeductionSaving(p)), p.years);
  }

  /**
   * A larger children allowance never lowers the support, and raises it
   * strictly when the larger allowance beats the deduction's tax saving.
   */
  lemma ChildrenRaiseBenefit(p: RiesterParams, children: real)
    requires children >= p.childrenAllowance
    ensures Calculate(p).taxBenefit <= Calculate(p.(childrenAllowance := children)).taxBenefit
    ensures p.years >= 1 && children > p.childrenAllowance
            && p.basicAllowance + children > DeductionSaving(p)
         ==> Calculate(p).taxBenefit < Calculate(p.(childrenAllowance := children)).taxBenefit
  {
    var q := p.(childrenAllowance := children);
    assert YearlyContribution(q) == YearlyContribution(p);
    assert DeductionSaving(q) == DeductionSaving(p);
    BenefitIsBetterOfTwo(p);
    BenefitIsBetterOfTwo(q);
    var before := Max(YearlyAllowance(p), DeductionSaving(p));
    var after := Max(YearlyAllowance(q), DeductionSaving(p));
    assert YearlyAllowance(q) == YearlyAllowance(p) + (children - p.childrenAllowance);
    assert before <= after;
    if p.basicAllowance + children > DeductionSaving(p) && children > p.childrenAllowance {
      assert after == YearlyAllowance(q);
      assert before < after;
    }
    OverTermMonotone(before, after, p.years);
  }

  /**
   * The net outlay keeps the allowances in: total paid exceeds the result's
   * own net investment (gross less allowances less refunds) by exactly the
   * allowances.
   */
  lemma TotalPaidIncludesAllowances(p: RiesterParams)
    ensures Calculate(p).totalPaid - Calculate(p).NetInvestment() == Calculate(p).stateAllowances
  {
  }

  /**
   * The unit test case with two children, in general: 100 a month at the default
   * 42 % tax rate saves 504 a year by deduction, below the 775 of basic plus
   * children allowance, so the children raise the support strictly.
   */
  lemma TwoChildrenBeatNone(years: nat, annualReturn: real)
    requires years >= 1
    ensures Calculate(WithDefaults(100.0, years, annualReturn, 0.42, 600.0)).taxBenefit
          > Calculate(WithDefaults(100.0, years, annualReturn, 0.42, 0.0)).taxBenefit
  {
    var p := WithDefaults(100.0, years, annualReturn, 0.42, 0.0);
    assert DeductionSaving(p) == 504.0;
    assert WithDefaults(100.0, years, annualReturn, 0.42, 600.0) == p.(childrenAllowance := 600.0);
    ChildrenRaiseBenefit(p, 600.0);
  }
}
