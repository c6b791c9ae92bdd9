/**
 * The approximate German income-tax rate by yearly income
 * (utils/tax_calculator.py): nothing up to the basic allowance, the entry
 * rate, a linear first progression zone, the top rate and the rate for the
 * highest incomes. The retirement rate is computed by a second copy of the
 * same rule.
 */
module TaxRate {
  /** The basic tax-free allowance (Grundfreibetrag). */
  const BasicAllowance: real := 11604.0
  /** The end of the band taxed at the entry rate. */
  const EntryBandEnd: real := 17005.0
  /** The end of the first progression zone, where the top rate starts. */
  const ProgressionEnd: real := 66760.0
  /** The end of the top-rate band, where the rate for the highest incomes starts. */
  const TopBandEnd: real := 277825.0

  const EntryRate: real := 0.14
  const TopRate: real := 0.42
  const HighestRate: real := 0.45

  /** The rate inside the first progression zone, rising linearly from the entry rate to the top rate. */
  function ZoneRate(income: real): (rate: real)
    ensures EntryBandEnd <= income <= ProgressionEnd ==> EntryRate <= rate <= TopRate
    ensures income == EntryBandEnd ==> rate == EntryRate
    ensures income == ProgressionEnd ==> rate == TopRate
  {
    EntryRate + (income - EntryBandEnd) / (ProgressionEnd - EntryBandEnd) * (TopRate - EntryRate)
  }

  /** `calculate_tax_rate`: the rate for a yearly income. */
  function IncomeTaxRate(yearlyIncome: real): (rate: real)
    ensures 0.0 <= rate <= HighestRate
    ensures yearlyIncome <= BasicAllowance <==> rate == 0.0
    ensures BasicAllowance < yearlyIncome <= EntryBandEnd ==> rate == EntryRate
    ensures EntryBandEnd < yearlyIncome <= ProgressionEnd ==> rate == ZoneRate(yearlyIncome)
    ensures ProgressionEnd < yearlyIncome <= TopBandEnd ==> rate == TopRate
    ensures yearlyIncome > TopBandEnd <==> rate == HighestRate
  {
    if yearlyIncome <= BasicAllowance then 0.0
    else if yearlyIncome <= EntryBandEnd then EntryRate
    else if yearlyIncome <= ProgressionEnd then ZoneRate(yearlyIncome)
    else if yearlyIncome <= TopBandEnd then TopRate
    else HighestRate
  }

  /** `calculate_retirement_tax_rate`: written out separately, with the same bands. */
  function RetirementTaxRate(yearlyIncome: real): (rate: real)
    ensures 0.0 <= rate <= HighestRate
  {
    if yearlyIncome <= 11604.0 then 0.0
    else if yearlyIncome <= 17005.0 then 0.14
    else if yearlyIncome <= 66760.0 then 0.14 + (yearlyIncome - 17005.0) / (66760.0 - 17005.0) * (0.42 - 0.14)
    else if yearlyIncome <= 277825.0 then 0.42
    else 0.45
  }

  /** The two copies agree on every income. */
  lemma RetirementRateIsIncomeRate(yearlyIncome: real)
    ensures RetirementTaxRate(yearlyIncome) == IncomeTaxRate(yearlyIncome)
  {
  }

  /**
   * The first progression zone joins its neighbours: on the closed zone,
   * both ends included, the rate is the linear one, so it is continuous at
   * 17 005 and at 66 760.
   */
  lemma ZoneIsContinuous(yearlyIncome: real)
    requires EntryBandEnd <= yearlyIncome <= ProgressionEnd
    ensures IncomeTaxRate(yearlyIncome) == ZoneRate(yearlyIncome)
  {
  }

  /** The linear zone rises with income. */
  lemma ZoneRateMonotone(lower: real, higher: real)
    requires lower <= higher
    ensures ZoneRate(lower) <= ZoneRate(higher)
  {
    assert ZoneRate(higher) - ZoneRate(lower) == (higher - lower) / (ProgressionEnd - EntryBandEnd) * (TopRate - EntryRate);
  }

  /** A higher income is never taxed at a lower rate. */
  lemma IncomeTaxRateMonotone(lower: real, higher: real)
    requires lower <= higher
    ensures IncomeTaxRate(lower) <= IncomeTaxRate(higher)
  {
    if EntryBandEnd <= lower && higher <= ProgressionEnd {
      ZoneRateMonotone(lower, higher);
    } else if EntryBandEnd < lower <= ProgressionEnd {
      ZoneRateMonotone(lower, ProgressionEnd);
    } else if EntryBandEnd < higher <= ProgressionEnd {
      ZoneRateMonotone(EntryBandEnd, higher);
    }
  }

  /**
   * The two bands that do not join their neighbours: the rate jumps from 0 to
   * the entry rate just above the basic allowance, and from the top rate to
   * the highest rate just above 277 825.
   */
  lemma RateJumps(justAboveAllowance: real, justAboveTop: real)
    requires BasicAllowance < justAboveAllowance <= EntryBandEnd
    requires TopBandEnd < justAboveTop
    ensures IncomeTaxRate(justAboveAllowance) - IncomeTaxRate(BasicAllowance) == EntryRate
    ensures IncomeTaxRate(justAboveTop) - IncomeTaxRate(TopBandEnd) == HighestRate - TopRate
  {
  }
}
