/**
 * The private pension insurance without state support
 * (calculators/privatrente_calculator.py): contributions come from taxed
 * income, costs lower the return, and at payout either half of the gain is
 * taxed (lump sum) or only the age-dependent yield share of the capital
 * (annuity).
 */
module Privatrente {
  import opened RealMath
  import opened Kernel

  /** The option value that selects the lump-sum payout; every other value means an annuity. */
  const LumpSumOption: string := "lump_sum"

  /**
   * The yield share (Ertragsanteil, in percent) of a life annuity by age at
   * its start, after section 22 of the German income tax act.
   */
  const ErtragsanteilTable: map<int, int> := map[
    50 := 30, 51 := 29, 52 := 28, 53 := 27, 54 := 27,
    55 := 26, 56 := 25, 57 := 25, 58 := 24, 59 := 23,
    60 := 22, 61 := 22, 62 := 21, 63 := 20, 64 := 19,
    65 := 18, 66 := 18, 67 := 17, 68 := 16, 69 := 16,
    70 := 15]

  /** The calculator's constructor arguments. */
  datatype PrivatParams = PrivatParams(
    monthlyContribution: real,
    years: nat,
    annualReturn: real,
    taxRate: real,
    taxRateRetirement: real,
    effectiveCosts: real,
    honorarFee: real,
    initialInvestment: real,
    payoutOption: string,
    retirementAge: int)

  /** The constructor with every keyword argument left at its default. */
  function WithDefaults(monthlyContribution: real, years: nat): (p: PrivatParams)
    ensures p.annualReturn == 0.05 && p.taxRate == 0.42 && p.taxRateRetirement == 0.30
    ensures p.effectiveCosts == 0.018 && p.honorarFee == 0.0 && p.initialInvestment == 0.0
    ensures p.payoutOption == "annuity" && p.retirementAge == 67
  {
    PrivatParams(monthlyContribution, years, 0.05, 0.42, 0.30, 0.018, 0.0, 0.0, "annuity", 67)
  }

  /**
   * `_get_ertragsanteil`: 30 below age 50, 15 above 70, the table in between.
   * Every age from 50 to 70 is in the table, so the fallback of 18 is never
   * taken.
   */
  function GetErtragsanteil(age: int): (pct: int)
    ensures 15 <= pct <= 30
    ensures age < 50 ==> pct == 30
    ensures age > 70 ==> pct == 15
    ensures 50 <= age <= 70 ==> age in ErtragsanteilTable && pct == ErtragsanteilTable[age]
  {
    if age < 50 then 30
    else if age > 70 then 15
    else if age in ErtragsanteilTable then ErtragsanteilTable[age]
    else 18
  }

  /** One year older never raises the yield share. */
  lemma ErtragsanteilStep(age: int)
    ensures GetErtragsanteil(age + 1) <= GetErtragsanteil(age)
  {
    if 49 <= age <= 70 {
      assert age in {49, 50, 51, 52, 53, 54, 55, 56, 57, 58, 59, 60, 61, 62, 63, 64, 65, 66, 67, 68, 69, 70};
    }
  }

  /** The yield share is non-increasing in the age at the start of the annuity. */
  lemma {:induction false} ErtragsanteilNonIncreasing(younger: int, older: int)
    requires younger <= older
    ensures GetErtragsanteil(older) <= GetErtragsanteil(younger)
    decreases older - younger
  {
    if younger < older {
      ErtragsanteilNonIncreasing(younger, older - 1);
      ErtragsanteilStep(older - 1);
    }
  }

  /** `_get_payout_name`. */
  function PayoutName(payoutOption: string): (name: string)
    ensures name == "Einmalauszahlung" <==> payoutOption == LumpSumOption
    ensures name == "Einmalauszahlung" || name == "Verrentung"
  {
    if payoutOption == LumpSumOption then "Einmalauszahlung" else "Verrentung"
  }

  /** The product label names the payout option. */
  function ProductName(payoutOption: string): (name: string)
    ensures |name| > |"Privatrente ()"|
    ensures name[..13] == "Privatrente ("
    ensures name == "Privatrente (Einmalauszahlung)" <==> payoutOption == LumpSumOption
    ensures payoutOption != LumpSumOption ==> name == "Privatrente (Verrentung)"
  {
    "Privatrente (" + PayoutName(payoutOption) + ")"
  }

  /** What is paid into the contract: twelve payments a year plus the lump sum. */
  function Contributions(p: PrivatParams): real
  {
    p.monthlyContribution * 12.0 * (p.years as real) + p.initialInvestment
  }

  /**
   * Lump-sum payout: half of the gain is taxed at the retirement rate. There
   * is no floor, so a loss gives a negative tax.
   */
  function LumpSumTax(gain: real, taxRateRetirement: real): (tax: real)
    ensures gain >= 0.0 && taxRateRetirement >= 0.0 ==> tax >= 0.0
    ensures gain < 0.0 && taxRateRetirement > 0.0 ==> tax < 0.0
    ensures tax * 2.0 == gain * taxRateRetirement
  {
    gain * 0.5 * taxRateRetirement
  }

  /** Annuity payout: the yield share of the whole capital is taxed at the retirement rate. */
  function AnnuityTax(capital: real, ertragsanteil: int, taxRateRetirement: real): (tax: real)
    ensures tax * 100.0 == capital * (ertragsanteil as real) * taxRateRetirement
  {
    capital * ((ertragsanteil as real) / 100.0) * taxRateRetirement
  }

  /** The tax at payout for the chosen option. */
  function TaxOnPayout(p: PrivatParams, grossValue: real): real
  {
    if p.payoutOption == LumpSumOption then LumpSumTax(grossValue - Contributions(p), p.taxRateRetirement)
    else AnnuityTax(grossValue, GetErtragsanteil(p.retirementAge), p.taxRateRetirement)
  }

  /** `PrivatrenteCalculator.calculate`. */
  function Calculate(p: PrivatParams): (r: InvestmentResult)
    ensures r.name == ProductName(p.payoutOption)
    ensures r.grossValue == WithLumpSum(p.monthlyContribution, p.annualReturn - p.effectiveCosts, p.years, p.initialInvestment)
    ensures r.yearlyValues == Pairs(YearEndBalances(p.monthlyContribution, p.annualReturn - p.effectiveCosts, p.years))
    ensures r.totalPaid == Contributions(p) && r.grossPaid == r.totalPaid && r.NetInvestment() == r.totalPaid
    ensures r.taxBenefit == 0.0 && r.stateAllowances == 0.0 && r.taxSavings == 0.0
    ensures r.totalValue == r.grossValue - TaxOnPayout(p, r.grossValue)
    ensures r.totalCosts
         == WithLumpSum(p.monthlyContribution, p.annualReturn, p.years, p.initialInvestment) - r.grossValue + p.honorarFee
    ensures r.netReturn == p.annualReturn - p.effectiveCosts && r.grossReturn == p.annualReturn
  {
    var net := p.annualReturn - p.effectiveCosts;
    var finalValueGross := WithLumpSum(p.monthlyContribution, net, p.years, p.initialInvestment);
    var contributions := Contributions(p);
    var finalWithoutCosts := WithLumpSum(p.monthlyContribution, p.annualReturn, p.years, p.initialInvestment);
    InvestmentResult(
      name := ProductName(p.payoutOption),
      totalPaid := contributions,
      totalValue := finalValueGross - TaxOnPayout(p, finalValueGross),
      netReturn := net,
      taxBenefit := 0.0,
      yearlyValues := Pairs(Compound(p.monthlyContribution, net, p.years).1),
      grossPaid := contributions,
      stateAllowances := 0.0,
      taxSavings := 0.0,
      totalCosts := finalWithoutCosts - finalValueGross + p.honorarFee,
      grossReturn := p.annualReturn,
      grossValue := finalValueGross)
  }

  /** Every option other than "lump_sum" is treated exactly like "annuity". */
  lemma AnyOtherOptionIsAnnuity(p: PrivatParams)
    requires p.payoutOption != LumpSumOption
    ensures Calculate(p) == Calculate(p.(payoutOption := "annuity"))
  {
    var q := p.(payoutOption := "annuity");
    assert "annuity" != LumpSumOption;
    assert Contributions(q) == Contributions(p);
    assert TaxOnPayout(q, Calculate(p).grossValue) == TaxOnPayout(p, Calculate(p).grossValue);
  }

  /** A lump-sum payout after a loss gets a tax credit: the value after tax exceeds the value before. */
  lemma LumpSumLossIsCredited(p: PrivatParams)
    requires p.payoutOption == LumpSumOption && p.taxRateRetirement > 0.0
    requires Calculate(p).grossValue < Contributions(p)
    ensures Calculate(p).totalValue > Calculate(p).grossValue
  {
  }

  /**
   * The annuity tax on a non-negative capital lies between the yield shares
   * at the two ends of the table: 15 % and 30 % of the capital are taxed.
   */
  lemma AnnuityTaxBounds(capital: real, age: int, taxRateRetirement: real)
    requires capital >= 0.0 && taxRateRetirement >= 0.0
    ensures capital * 0.15 * taxRateRetirement <= AnnuityTax(capital, GetErtragsanteil(age), taxRateRetirement)
    ensures AnnuityTax(capital, GetErtragsanteil(age), taxRateRetirement) <= capital * 0.30 * taxRateRetirement
  {
    var share := (GetErtragsanteil(age) as real) / 100.0;
    var ct := capital * taxRateRetirement;
    assert 0.15 <= share <= 0.30;
    assert ct >= 0.0;
    assert AnnuityTax(capital, GetErtragsanteil(age), taxRateRetirement) == ct * share;
    assert ct * 0.15 <= ct * share <= ct * 0.30;
  }

  /** A smaller yield share never raises the annuity tax on a non-negative capital. */
  lemma AnnuityTaxMonotone(capital: real, smaller: int, larger: int, taxRateRetirement: real)
    requires capital >= 0.0 && taxRateRetirement >= 0.0 && smaller <= larger
    ensures AnnuityTax(capital, smaller, taxRateRetirement) <= AnnuityTax(capital, larger, taxRateRetirement)
  {
    var ct := capital * taxRateRetirement;
    assert ct >= 0.0;
    assert AnnuityTax(capital, larger, taxRateRetirement) - AnnuityTax(capital, smaller, taxRateRetirement)
        == ct * (((larger - smaller) as real) / 100.0);
  }

  /** A later start of the annuity never raises the annuity tax on the same non-negative capital. */
  lemma AnnuityTaxFallsWithAge(capital: real, younger: int, older: int, taxRateRetirement: real)
    requires capital >= 0.0 && taxRateRetirement >= 0.0 && younger <= older
    ensures AnnuityTax(capital, GetErtragsanteil(older), taxRateRetirement)
         <= AnnuityTax(capital, GetErtragsanteil(younger), taxRateRetirement)
  {
    ErtragsanteilNonIncreasing(younger, older);
    AnnuityTaxMonotone(capital, GetErtragsanteil(older), GetErtragsanteil(younger), taxRateRetirement);
  }

  /**
   * Starting the annuity later never raises the tax: with a non-negative
   * capital and retirement tax rate the older starter keeps at least as much.
   */
  lemma LaterAnnuityKeepsMore(p: PrivatParams, olderAge: int)
    requires p.payoutOption != LumpSumOption && p.retirementAge <= olderAge
    requires p.taxRateRetirement >= 0.0 && Calculate(p).grossValue >= 0.0
    ensures Calculate(p).totalValue <= Calculate(p.(retirementAge := olderAge)).totalValue
  {
    var q := p.(retirementAge := olderAge);
    var g := Calculate(p).grossValue;
    assert Calculate(q).grossValue == g;
    AnnuityTaxFallsWithAge(g, p.retirementAge, olderAge, p.taxRateRetirement);
  }
}
