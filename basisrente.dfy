/**
 * The Basisrente (Rürup pension, calculators/basisrente_calculator.py):
 * contributions are deductible, the tax refund is paid out to the saver
 * rather than invested, and the whole capital is taxed at the retirement rate.
 */
module Basisrente {
  import opened RealMath
  import opened Kernel
  import opened Dynamics

  const ProductName: string := "Basisrente (Rürup)"

  /** The calculator's constructor arguments. */
  datatype BasisParams = BasisParams(
    monthlyContribution: real,
    years: nat,
    annualReturn: real,
    taxRate: real,
    deductiblePercentage: real,
    taxRateRetirement: real,
    effectiveCosts: real,
    honorarFee: real,
    initialInvestment: real,
    contributionDynamics: real,
    inflationRate: real)

  /** The constructor with the remaining keyword arguments at their defaults. */
  function WithDefaults(monthlyContribution: real, years: nat, annualReturn: real, taxRate: real): (p: BasisParams)
    ensures p.deductiblePercentage == 1.0 && p.taxRateRetirement == 0.30 && p.effectiveCosts == 0.015
    ensures p.honorarFee == 0.0 && p.initialInvestment == 0.0 && p.contributionDynamics == 0.0
  {
    BasisParams(monthlyContribution, years, annualReturn, taxRate, 1.0, 0.30, 0.015, 0.0, 0.0, 0.0, 0.02)
  }

  /** What is paid into the contract: the dynamics total, or twelve payments a year plus the lump sum. */
  function ContractContributions(p: BasisParams): real
  {
    if p.contributionDynamics > 0.0 then
      p.initialInvestment + DynContributionSum(p.monthlyContribution, p.contributionDynamics, MonthsPerYear, p.years)
    else
      p.monthlyContribution * 12.0 * (p.years as real) + p.initialInvestment
  }

  /** The capital before tax at the return net of costs, with its trajectory. */
  function GrossProjection(p: BasisParams): (real, YearlyValues)
  {
    var net := p.annualReturn - p.effectiveCosts;
    if p.contributionDynamics > 0.0 then
      var dyn := WithContributionDynamics(p.monthlyContribution, p.contributionDynamics, p.years, net, p.initialInvestment, MonthsPerYear);
      (dyn.0, Plain(dyn.1))
    else
      (WithLumpSum(p.monthlyContribution, net, p.years, p.initialInvestment),
       Pairs(Compound(p.monthlyContribution, net, p.years).1))
  }

  /** The income-tax refund on the deductible share of the contributions. */
  function Refund(contributions: real, deductiblePercentage: real, taxRate: real): (refund: real)
    ensures contributions >= 0.0 && deductiblePercentage >= 0.0 && taxRate >= 0.0 ==> refund >= 0.0
    ensures deductiblePercentage == 0.0 || taxRate == 0.0 ==> refund == 0.0
  {
    contributions * deductiblePercentage * taxRate
  }

  /** `BasisrenteCalculator.calculate`. */
  function Calculate(p: BasisParams): (r: InvestmentResult)
    ensures r.netReturn == p.annualReturn - p.effectiveCosts
    ensures r.grossPaid == ContractContributions(p)
    ensures r.taxSavings == Refund(r.grossPaid, p.deductiblePercentage, p.taxRate)
    ensures r.taxBenefit == r.taxSavings && r.stateAllowances == 0.0
    ensures r.totalPaid == r.grossPaid - r.taxSavings && r.totalPaid == r.NetInvestment()
    ensures r.totalValue == r.grossValue - PayoutTax(r.grossValue, p.taxRateRetirement) + r.taxSavings
    ensures r.grossReturn == p.annualReturn
    ensures r.grossValue == GrossProjection(p).0 && r.yearlyValues == GrossProjection(p).1
    ensures p.contributionDynamics > 0.0 ==>
      r.grossValue == WithContributionDynamics(p.monthlyContribution, p.contributionDynamics, p.years,
                                               p.annualReturn - p.effectiveCosts, p.initialInvestment, MonthsPerYear).0
    ensures p.contributionDynamics <= 0.0 ==>
      r.grossValue == WithLumpSum(p.monthlyContribution, p.annualReturn - p.effectiveCosts, p.years, p.initialInvestment)
    ensures r.totalCosts == WithLumpSum(p.monthlyContribution, p.annualReturn, p.years, p.initialInvestment) - r.grossValue + p.honorarFee
  {
    var projection := GrossProjection(p);
    var finalValueGross := projection.0;
    var contributions := ContractContributions(p);
    var taxSavings := Refund(contributions, p.deductiblePercentage, p.taxRate);
    var finalWithoutCosts := WithLumpSum(p.monthlyContribution, p.annualReturn, p.years, p.initialInvestment);
    var taxOnPayout := PayoutTax(finalValueGross, p.taxRateRetirement);
    InvestmentResult(
      name := ProductName,
      totalPaid := contributions - taxSavings,
      totalValue := finalValueGross - taxOnPayout + taxSavings,
      netReturn := p.annualReturn - p.effectiveCosts,
      taxBenefit := taxSavings,
      yearlyValues := projection.1,
      grossPaid := contributions,
      stateAllowances := 0.0,
      taxSavings := taxSavings,
      totalCosts := finalWithoutCosts - finalValueGross + p.honorarFee,
      grossReturn := p.annualReturn,
      grossValue := finalValueGross)
  }

  /**
   * The honorar fee is a cost only: it raises the reported costs one for one
   * and changes nothing else, in particular not the value before tax.
   */
  lemma HonorarFeeOnlyInCosts(p: BasisParams, fee: real)
    ensures Calculate(p.(honorarFee := fee)).totalCosts - Calculate(p).totalCosts == fee - p.honorarFee
    ensures Calculate(p.(honorarFee := fee)).grossValue == Calculate(p).grossValue
    ensures Calculate(p.(honorarFee := fee)).totalValue == Calculate(p).totalValue
    ensures Calculate(p.(honorarFee := fee)).totalPaid == Calculate(p).totalPaid
  {
    var q := p.(honorarFee := fee);
    assert GrossProjection(q) == GrossProjection(p);
    assert ContractContributions(q) == ContractContributions(p);
  }

  /**
   * The no-cost comparison ignores contribution dynamics and the effective
   * costs: the reported costs plus the value before tax are the static plan
   * at the gross return (plus the honorar fee), whatever the dynamics rate.
   */
  lemma NoCostProjectionIsStatic(p: BasisParams)
    ensures Calculate(p).totalCosts + Calculate(p).grossValue
         == WithLumpSum(p.monthlyContribution, p.annualReturn, p.years, p.initialInvestment) + p.honorarFee
  {
  }

  /**
   * Without dynamics and without a lump sum the value before tax is the
   * kernel at the net return, and the yearly values are its snapshots.
   */
  lemma StaticPlanIsKernel(p: BasisParams)
    requires p.contributionDynamics <= 0.0 && p.initialInvestment <= 0.0
    ensures Calculate(p).grossValue == Grow(0.0, p.monthlyContribution, p.annualReturn - p.effectiveCosts, 12 * p.years)
    ensures Calculate(p).yearlyValues == Pairs(YearEndBalances(p.monthlyContribution, p.annualReturn - p.effectiveCosts, p.years))
  {
  }

  /**
   * The situation of the unit test for this calculator, in general: a
   * positive monthly contribution over at least a year, fully deductible at
   * a positive tax rate, gives a positive tax benefit and a net outlay below
   * the contributions.
   */
  lemma RefundLowersOutlay(monthlyContribution: real, years: nat, annualReturn: real, taxRate: real)
    requires monthlyContribution > 0.0 && years >= 1 && 0.0 < taxRate
    ensures Calculate(WithDefaults(monthlyContribution, years, annualReturn, taxRate)).taxBenefit > 0.0
    ensures Calculate(WithDefaults(monthlyContribution, years, annualReturn, taxRate)).totalPaid
          < monthlyContribution * 12.0 * (years as real)
  {
    var p := WithDefaults(monthlyContribution, years, annualReturn, taxRate);
    var c := ContractContributions(p);
    assert c == monthlyContribution * 12.0 * (years as real);
    assert monthlyContribution * 12.0 > 0.0;
    assert c > 0.0;
    assert c * 1.0 * taxRate > 0.0;
  }
}
