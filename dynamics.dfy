/**
 * Contribution and pension growth, inflation adjustment and the present value
 * of a growing pension (calculators/dynamics.py).
 */
module Dynamics {
  import opened RealMath
  import opened Kernel

  /** The monthly contribution paid during year `year` (1-based) when it grows by `rate` a year. */
  function MonthlyInYear(initialMonthly: real, rate: real, year: nat): real
    requires year >= 1
  {
    initialMonthly * Pow(1.0 + rate, year - 1)
  }

  /**
   * `calculate_contributions_with_dynamics`: the (year, monthly amount) schedule,
   * the amount growing geometrically from the first year on.
   */
  method ContributionsWithDynamics(initialMonthly: real, rate: real, years: nat)
    returns (contributions: seq<(int, real)>)
    ensures |contributions| == years
    ensures forall i :: 0 <= i < years ==>
      contributions[i] == (i + 1, MonthlyInYear(initialMonthly, rate, i + 1))
  {
    contributions := [];
    for year := 0 to years
      invariant |contributions| == year
      invariant forall i :: 0 <= i < year ==>
        contributions[i] == (i + 1, MonthlyInYear(initialMonthly, rate, i + 1))
    {
      var yearly := initialMonthly * Pow(1.0 + rate, year);
      assert yearly == MonthlyInYear(initialMonthly, rate, year + 1);
      contributions := contributions + [(year + 1, yearly)];
    }
  }

  /** Capital at the end of year `year` of `months` months each; year 0 is the lump sum alone. */
  function DynYearEnd(initialMonthly: real, rate: real, annualReturn: real, initialInvestment: real, months: nat, year: nat): real
    decreases year
  {
    if year == 0 then initialInvestment
    else Grow(DynYearEnd(initialMonthly, rate, annualReturn, initialInvestment, months, year - 1),
              MonthlyInYear(initialMonthly, rate, year), annualReturn, months)
  }

  /** The list of year-end capitals, anchored by the lump sum at index 0. */
  function DynValues(initialMonthly: real, rate: real, annualReturn: real, initialInvestment: real, months: nat, years: nat): seq<real>
    decreases years
  {
    if years == 0 then [initialInvestment]
    else DynValues(initialMonthly, rate, annualReturn, initialInvestment, months, years - 1)
         + [DynYearEnd(initialMonthly, rate, annualReturn, initialInvestment, months, years)]
  }

  /** Sum of all monthly contributions paid over `years` years of `months` months (lump sum excluded). */
  function DynContributionSum(initialMonthly: real, rate: real, months: nat, years: nat): real
    decreases years
  {
    if years == 0 then 0.0
    else DynContributionSum(initialMonthly, rate, months, years - 1) + (months as real) * MonthlyInYear(initialMonthly, rate, years)
  }

  /** What `calculate_with_contribution_dynamics` returns, as a value functions can use. */
  function WithContributionDynamics(initialMonthly: real, rate: real, years: nat, annualReturn: real, initialInvestment: real,
                                    months: nat): (real, seq<real>, real)
  {
    (DynYearEnd(initialMonthly, rate, annualReturn, initialInvestment, months, years),
     DynValues(initialMonthly, rate, annualReturn, initialInvestment, months, years),
     initialInvestment + DynContributionSum(initialMonthly, rate, months, years))
  }

  /**
   * `calculate_with_contribution_dynamics`: compound month by month, pay the
   * current contribution, record the capital after each year and only then
   * raise the contribution for the following year.
   */
  method CalculateWithContributionDynamics(
    initialMonthly: real, rate: real, years: nat, annualReturn: real, initialInvestment: real)
    returns (totalCapital: real, yearlyValues: seq<real>, totalContributions: real)
    ensures (totalCapital, yearlyValues, totalContributions)
         == WithContributionDynamics(initialMonthly, rate, years, annualReturn, initialInvestment, MonthsPerYear)
    ensures |yearlyValues| == years + 1
    ensures yearlyValues[0] == initialInvestment && yearlyValues[years] == totalCapital
  {
    totalCapital, yearlyValues, totalContributions :=
      DynamicsLoop(initialMonthly, rate, years, annualReturn, initialInvestment, MonthsPerYear);
  }

  /** The year loop of `calculate_with_contribution_dynamics`, for years of `months` months. */
  method DynamicsLoop(
    initialMonthly: real, rate: real, years: nat, annualReturn: real, initialInvestment: real, months: nat)
    returns (totalCapital: real, yearlyValues: seq<real>, totalContributions: real)
    ensures (totalCapital, yearlyValues, totalContributions)
         == WithContributionDynamics(initialMonthly, rate, years, annualReturn, initialInvestment, months)
    ensures |yearlyValues| == years + 1
    ensures yearlyValues[0] == initialInvestment && yearlyValues[years] == totalCapital
  {
    var monthlyRate := annualReturn / 12.0;
    totalCapital := initialInvestment;
    yearlyValues := [initialInvestment];
    totalContributions := initialInvestment;
    var current := initialMonthly;
    var year := 1;
    while year <= years
      invariant 1 <= year <= years + 1
      invariant totalCapital == DynYearEnd(initialMonthly, rate, annualReturn, initialInvestment, months, year - 1)
      invariant yearlyValues == DynValues(initialMonthly, rate, annualReturn, initialInvestment, months, year - 1)
      invariant totalContributions == initialInvestment + DynContributionSum(initialMonthly, rate, months, year - 1)
      invariant current == MonthlyInYear(initialMonthly, rate, year)
    {
      totalCapital, totalContributions := PayYear(totalCapital, totalContributions, current, annualReturn, monthlyRate, months);
      yearlyValues := yearlyValues + [totalCapital];
      NextYearContribution(initialMonthly, rate, year);
      current := current * (1.0 + rate);
      year := year + 1;
    }
    DynValuesShape(initialMonthly, rate, annualReturn, initialInvestment, months, years);
  }

  /** The inner month loop of `calculate_with_contribution_dynamics`: a year of months at one contribution. */
  method PayYear(capital: real, contributions: real, current: real, annualReturn: real, monthlyRate: real, months: nat)
    returns (newCapital: real, newContributions: real)
    requires monthlyRate == annualReturn / 12.0
    ensures newCapital == Grow(capital, current, annualReturn, months)
    ensures newContributions == contributions + (months as real) * current
  {
    newCapital, newContributions := capital, contributions;
    for month := 0 to months
      invariant newCapital == Grow(capital, current, annualReturn, month)
      invariant newContributions == contributions + (month as real) * current
    {
      MonthUpdate(capital, current, annualReturn, monthlyRate, month, newCapital);
      newCapital := newCapital * (1.0 + monthlyRate) + current;
      newContributions := newContributions + current;
    }
  }

  /** Raising this year's contribution by the growth rate gives next year's. */
  lemma NextYearContribution(initialMonthly: real, rate: real, year: nat)
    requires year >= 1
    ensures MonthlyInYear(initialMonthly, rate, year) * (1.0 + rate) == MonthlyInYear(initialMonthly, rate, year + 1)
  {
    PowSucc(1.0 + rate, year - 1);
  }

  /** The value list has years + 1 entries: the lump sum, then every year-end capital. */
  lemma {:induction false} DynValuesShape(initialMonthly: real, rate: real, annualReturn: real, initialInvestment: real, months: nat, years: nat)
    ensures |DynValues(initialMonthly, rate, annualReturn, initialInvestment, months, years)| == years + 1
    ensures forall k :: 0 <= k <= years ==>
      DynValues(initialMonthly, rate, annualReturn, initialInvestment, months, years)[k]
        == DynYearEnd(initialMonthly, rate, annualReturn, initialInvestment, months, k)
  {
    if years > 0 {
      DynValuesShape(initialMonthly, rate, annualReturn, initialInvestment, months, years - 1);
      var prev := DynValues(initialMonthly, rate, annualReturn, initialInvestment, months, years - 1);
      var all := DynValues(initialMonthly, rate, annualReturn, initialInvestment, months, years);
      assert all == prev + [DynYearEnd(initialMonthly, rate, annualReturn, initialInvestment, months, years)];
      forall k | 0 <= k <= years
        ensures all[k] == DynYearEnd(initialMonthly, rate, annualReturn, initialInvestment, months, k)
      {
        if k < years {
          assert all[k] == prev[k];
        }
      }
    }
  }

  /** Without growth every year pays the initial contribution. */
  lemma NoGrowthContribution(monthly: real, year: nat)
    requires year >= 1
    ensures MonthlyInYear(monthly, 0.0, year) == monthly
  {
    PowOne(year - 1);
  }

  /** Without growth and without a lump sum the dynamics routine is the kernel's recurrence. */
  lemma {:induction false} NoDynamicsIsKernel(monthly: real, annualReturn: real, months: nat, years: nat)
    ensures DynYearEnd(monthly, 0.0, annualReturn, 0.0, months, years) == Grow(0.0, monthly, annualReturn, months * years)
  {
    if years > 0 {
      NoDynamicsIsKernel(monthly, annualReturn, months, years - 1);
      NoGrowthContribution(monthly, years);
      GrowSplit(0.0, monthly, annualReturn, months * (years - 1), months);
      assert months * (years - 1) + months == months * years;
    }
  }

  /** ...and pays in the monthly contribution every month. */
  lemma {:induction false} NoDynamicsContributions(monthly: real, months: nat, years: nat)
    ensures DynContributionSum(monthly, 0.0, months, years) == (months as real) * monthly * (years as real)
  {
    if years > 0 {
      NoDynamicsContributions(monthly, months, years - 1);
      NoGrowthContribution(monthly, years);
      var m := (months as real) * monthly;
      assert m * ((years - 1) as real) + m == m * (years as real);
    }
  }

  /** ...and its year-end list is the kernel's snapshots behind a leading 0. */
  lemma NoDynamicsValuesMatchKernel(monthly: real, annualReturn: real, years: nat)
    ensures |DynValues(monthly, 0.0, annualReturn, 0.0, MonthsPerYear, years)| == years + 1
    ensures |YearEndBalances(monthly, annualReturn, years)| == years
    ensures forall k :: 1 <= k <= years ==>
      DynValues(monthly, 0.0, annualReturn, 0.0, MonthsPerYear, years)[k]
        == YearEndBalances(monthly, annualReturn, years)[k - 1].1
    ensures DynValues(monthly, 0.0, annualReturn, 0.0, MonthsPerYear, years)[0] == 0.0
  {
    DynValuesShape(monthly, 0.0, annualReturn, 0.0, MonthsPerYear, years);
    YearEndBalancesShape(monthly, annualReturn, years);
    forall k | 1 <= k <= years
      ensures DynValues(monthly, 0.0, annualReturn, 0.0, MonthsPerYear, years)[k]
        == YearEndBalances(monthly, annualReturn, years)[k - 1].1
    {
      NoDynamicsIsKernel(monthly, annualReturn, MonthsPerYear, k);
    }
  }

  /** A positive growth rate pays strictly more than the static plan from the second year on. */
  lemma {:induction false} DynamicsRaisesContributions(initialMonthly: real, rate: real, months: nat, years: nat)
    requires initialMonthly > 0.0 && rate > 0.0 && months >= 1 && years >= 2
    ensures DynContributionSum(initialMonthly, rate, months, years) > (months as real) * initialMonthly * (years as real)
  {
    var m := months as real;
    PowAboveOne(1.0 + rate, years - 1);
    assert MonthlyInYear(initialMonthly, rate, years) > initialMonthly;
    assert m * MonthlyInYear(initialMonthly, rate, years) > m * initialMonthly;
    if years == 2 {
      assert DynContributionSum(initialMonthly, rate, months, 1) == m * initialMonthly;
    } else {
      DynamicsRaisesContributions(initialMonthly, rate, months, years - 1);
    }
    assert m * initialMonthly * ((years - 1) as real) + m * initialMonthly == m * initialMonthly * (years as real);
  }

  /**
   * `adjust_for_inflation`: divide the value at index i by (1 + inflation)^i.
   * Index 0 is left as it is, and a zero rate changes nothing.
   */
  method AdjustForInflation(nominalValues: seq<real>, inflationRate: real) returns (realValues: seq<real>)
    requires 1.0 + inflationRate != 0.0 || |nominalValues| <= 1
    ensures |realValues| == |nominalValues|
    ensures forall i :: 0 <= i < |nominalValues| ==>
      Pow(1.0 + inflationRate, i) != 0.0 && realValues[i] == nominalValues[i] / Pow(1.0 + inflationRate, i)
    ensures |nominalValues| > 0 ==> realValues[0] == nominalValues[0]
    ensures inflationRate == 0.0 ==> realValues == nominalValues
  {
    realValues := [];
    for year := 0 to |nominalValues|
      invariant |realValues| == year
      invariant forall i :: 0 <= i < year ==>
        Pow(1.0 + inflationRate, i) != 0.0 && realValues[i] == nominalValues[i] / Pow(1.0 + inflationRate, i)
      invariant inflationRate == 0.0 ==> realValues == nominalValues[..year]
    {
      if year > 0 {
        PowNonZero(1.0 + inflationRate, year);
      }
      PowOne(year);
      var realValue := nominalValues[year] / Pow(1.0 + inflationRate, year);
      realValues := realValues + [realValue];
    }
  }

  /**
   * `calculate_real_return`: the Fisher equation. Re-inflating the real
   * return recovers the nominal one exactly.
   */
  function RealReturn(nominalReturn: real, inflationRate: real): (r: real)
    requires 1.0 + inflationRate != 0.0
    ensures (1.0 + r) * (1.0 + inflationRate) == 1.0 + nominalReturn
    ensures inflationRate == 0.0 ==> r == nominalReturn
  {
    ((1.0 + nominalReturn) / (1.0 + inflationRate)) - 1.0
  }

  /** 7 % nominal at 2 % inflation is a real return of about 4.9 %. */
  lemma RealReturnExample()
    ensures 0.048 < RealReturn(0.07, 0.02) < 0.05
  {
  }

  /** Year `year` of the pension series: (year, nominal monthly pension, its value in today's money). */
  function PensionEntry(initialMonthlyPension: real, rate: real, inflationRate: real, year: nat): (int, real, real)
    requires year >= 1
    requires 1.0 + inflationRate != 0.0
  {
    PowNonZero(1.0 + inflationRate, year);
    (year, initialMonthlyPension * Pow(1.0 + rate, year - 1),
     initialMonthlyPension * Pow(1.0 + rate, year - 1) / Pow(1.0 + inflationRate, year))
  }

  /** Sum of the real (third) components of a pension series. */
  function RealPensionSum(values: seq<(int, real, real)>): real
    decreases |values|
  {
    if values == [] then 0.0 else RealPensionSum(values[..|values| - 1]) + values[|values| - 1].2
  }

  /**
   * `calculate_pension_with_dynamics`: year y pays the nominal pension
   * initial*(1+d)^(y-1), worth nominal/(1+inflation)^y in today's money, and
   * the average real pension is the mean of the real values.
   */
  method PensionWithDynamics(initialMonthlyPension: real, rate: real, years: nat, inflationRate: real)
    returns (pensionValues: seq<(int, real, real)>, avgRealPension: real)
    requires years >= 1
    requires 1.0 + inflationRate != 0.0
    ensures |pensionValues| == years
    ensures forall i :: 0 <= i < years ==>
      pensionValues[i] == PensionEntry(initialMonthlyPension, rate, inflationRate, i + 1)
    ensures avgRealPension * (years as real) == RealPensionSum(pensionValues)
  {
    pensionValues := [];
    var current := initialMonthlyPension;
    var totalRealPension := 0.0;
    var year := 1;
    while year <= years
      invariant 1 <= year <= years + 1
      invariant |pensionValues| == year - 1
      invariant forall i :: 0 <= i < year - 1 ==>
        pensionValues[i] == PensionEntry(initialMonthlyPension, rate, inflationRate, i + 1)
      invariant current == MonthlyInYear(initialMonthlyPension, rate, year)
      invariant totalRealPension == 12.0 * RealPensionSum(pensionValues)
    {
      var nominalPension := current;
      PowNonZero(1.0 + inflationRate, year);
      var realPension := nominalPension / Pow(1.0 + inflationRate, year);
      assert (year, nominalPension, realPension) == PensionEntry(initialMonthlyPension, rate, inflationRate, year);
      ghost var before := pensionValues;
      pensionValues := pensionValues + [(year, nominalPension, realPension)];
      assert pensionValues[..|pensionValues| - 1] == before;
      totalRealPension := totalRealPension + realPension * 12.0;
      NextYearContribution(initialMonthlyPension, rate, year);
      current := current * (1.0 + rate);
      year := year + 1;
    }
    avgRealPension := totalRealPension / ((years * 12) as real);
  }

  /** Present value of `years` yearly pension totals, growing by `growth`, discounted by `annualReturn`. */
  function GrowingAnnuityValue(initialMonthlyPension: real, growth: real, annualReturn: real, years: nat): real
    requires 1.0 + annualReturn != 0.0 || years == 0
    decreases years
  {
    if years == 0 then 0.0
    else
      PowNonZero(1.0 + annualReturn, years);
      GrowingAnnuityValue(initialMonthlyPension, growth, annualReturn, years - 1)
      + MonthlyInYear(initialMonthlyPension, growth, years) * 12.0 / Pow(1.0 + annualReturn, years)
  }

  /**
   * `calculate_required_capital_with_dynamics`: add up the present value of
   * every year's pension total. The inflation rate is accepted and never used,
   * so the result is the growing-annuity value, which does not mention it.
   */
  method RequiredCapitalWithDynamics(
    initialMonthlyPension: real, pensionGrowth: real, withdrawalYears: nat, annualReturn: real, inflationRate: real)
    returns (presentValue: real)
    requires 1.0 + annualReturn != 0.0 || withdrawalYears == 0
    ensures presentValue == GrowingAnnuityValue(initialMonthlyPension, pensionGrowth, annualReturn, withdrawalYears)
  {
    presentValue := 0.0;
    var current := initialMonthlyPension;
    var monthlyReturn := annualReturn / 12.0;
    var year := 1;
    while year <= withdrawalYears
      invariant 1 <= year <= withdrawalYears + 1
      invariant presentValue == GrowingAnnuityValue(initialMonthlyPension, pensionGrowth, annualReturn, year - 1)
      invariant current == MonthlyInYear(initialMonthlyPension, pensionGrowth, year)
    {
      var yearlyPension := current * 12.0;
      PowNonZero(1.0 + annualReturn, year);
      var discountFactor := Pow(1.0 + annualReturn, year);
      presentValue := presentValue + yearlyPension / discountFactor;
      NextYearContribution(initialMonthlyPension, pensionGrowth, year);
      current := current * (1.0 + pensionGrowth);
      year := year + 1;
    }
  }

  /**
   * When the pension grows exactly as fast as the capital earns, every year is
   * worth 12P/(1+r) today, so the capital times (1+r) is 12 * P * years.
   */
  lemma {:induction false} GrowthEqualsReturn(initialMonthlyPension: real, annualReturn: real, years: nat)
    requires 1.0 + annualReturn != 0.0
    ensures GrowingAnnuityValue(initialMonthlyPension, annualReturn, annualReturn, years) * (1.0 + annualReturn)
         == 12.0 * initialMonthlyPension * (years as real)
  {
    if years > 0 {
      GrowthEqualsReturn(initialMonthlyPension, annualReturn, years - 1);
      var f := 1.0 + annualReturn;
      var prev := GrowingAnnuityValue(initialMonthlyPension, annualReturn, annualReturn, years - 1);
      var term := MatchedYearTerm(initialMonthlyPension, annualReturn, years);
      assert GrowingAnnuityValue(initialMonthlyPension, annualReturn, annualReturn, years) == prev + term;
      assert (prev + term) * f == prev * f + term * f;
    }
  }

  /** One year's discounted total when growth and return coincide: times (1+r) it is 12P. */
  lemma MatchedYearTerm(initialMonthlyPension: real, annualReturn: real, year: nat) returns (term: real)
    requires 1.0 + annualReturn != 0.0 && year >= 1
    ensures Pow(1.0 + annualReturn, year) != 0.0
    ensures term == MonthlyInYear(initialMonthlyPension, annualReturn, year) * 12.0 / Pow(1.0 + annualReturn, year)
    ensures term * (1.0 + annualReturn) == 12.0 * initialMonthlyPension
  {
    var f := 1.0 + annualReturn;
    PowNonZero(f, year - 1);
    var p := Pow(f, year - 1);
    assert Pow(f, year) == f * p;
    term := MonthlyInYear(initialMonthlyPension, annualReturn, year) * 12.0 / Pow(f, year);
    assert term * (f * p) == (initialMonthlyPension * p) * 12.0;
    assert (term * f) * p == (12.0 * initialMonthlyPension) * p;
  }

  /** With neither growth nor return the required capital is the plain sum 12 * P * years. */
  lemma {:induction false} NoGrowthNoReturn(initialMonthlyPension: real, years: nat)
    ensures GrowingAnnuityValue(initialMonthlyPension, 0.0, 0.0, years)
         == 12.0 * initialMonthlyPension * (years as real)
  {
    if years > 0 {
      NoGrowthNoReturn(initialMonthlyPension, years - 1);
      PowOne(years - 1);
      PowOne(years);
    }
  }
}
