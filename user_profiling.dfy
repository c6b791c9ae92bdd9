/**
 * The two rules of thumb of the saver profile (ui/user_profiling.py): the
 * pension gap between a target pension and the expected state pension,
 * with the capital and the monthly saving that close it, and the monthly
 * Riester contribution that uses the deductible limit.
 */
module UserProfiling {
  import opened RealMath
  import opened Kernel
  import Riester

  /** The saver's answers the gap depends on. */
  datatype Profile = Profile(
    grossSalary: real,
    partnerSalary: real,
    married: bool,
    yearsUntilRetirement: int)

  /** The figures `calculate_pension_gap` returns; the salary is the household's. */
  datatype PensionGap = PensionGap(
    grossSalary: real,
    netSalary: real,
    targetPension: real,
    targetPensionMonthly: real,
    expectedStatePension: real,
    expectedStatePensionMonthly: real,
    pensionGap: real,
    pensionGapMonthly: real,
    requiredCapital: real,
    requiredMonthlySavings: real)

  /** The return after costs assumed for the saving plan. */
  const SavingsReturn: real := 0.05

  /** The state pension of one earner: 48 % of the salary after a full career of 45 years, pro rata otherwise. */
  function StatePension(salary: real, years: int): (pension: real)
    ensures pension * 45.0 == salary * 0.48 * (years as real)
    ensures years == 45 ==> pension == salary * 0.48
    ensures salary >= 0.0 && years >= 0 ==> pension >= 0.0
  {
    assert salary >= 0.0 && years >= 0 ==> salary * 0.48 * (years as real) >= 0.0 by {
      if salary >= 0.0 && years >= 0 {
        assert salary * 0.48 >= 0.0;
      }
    }
    salary * 0.48 * ((years as real) / 45.0)
  }

  /**
   * The level monthly saving whose balance after `years` years at 5 % a year
   * (credited monthly) is `capital`; nothing when there are no months left.
   */
  function RequiredMonthlySavings(capital: real, years: int): (savings: real)
    ensures years <= 0 ==> savings == 0.0
    ensures years > 0 && capital > 0.0 ==> savings > 0.0
  {
    if years * 12 > 0 && SavingsReturn > 0.0 then
      var monthlyRate := SavingsReturn / 12.0;
      var growth := Pow(1.0 + monthlyRate, years * 12);
      assert growth > 1.0 by { PowAboveOne(1.0 + monthlyRate, years * 12); }
      assert capital > 0.0 ==> capital * monthlyRate > 0.0;
      capital * monthlyRate / (growth - 1.0)
    else 0.0
  }

  /** `calculate_pension_gap`. */
  function CalculatePensionGap(p: Profile): (g: PensionGap)
    ensures g.grossSalary == if p.married then p.grossSalary + p.partnerSalary else p.grossSalary
    ensures g.expectedStatePension
         == StatePension(p.grossSalary, p.yearsUntilRetirement)
            + (if p.married then StatePension(p.partnerSalary, p.yearsUntilRetirement) else 0.0)
    ensures g.netSalary == g.grossSalary * 0.6
    ensures g.targetPension == g.grossSalary * 0.42
    ensures g.pensionGap + g.expectedStatePension == g.targetPension
    ensures g.requiredCapital * 0.04 == g.pensionGap
    ensures g.targetPensionMonthly * 12.0 == g.targetPension
    ensures g.expectedStatePensionMonthly * 12.0 == g.expectedStatePension
    ensures g.pensionGapMonthly * 12.0 == g.pensionGap
    ensures g.requiredMonthlySavings == RequiredMonthlySavings(g.requiredCapital, p.yearsUntilRetirement)
  {
    var totalSalary := if p.married then p.grossSalary + p.partnerSalary else p.grossSalary;
    var expected :=
      if p.married then
        StatePension(p.grossSalary, p.yearsUntilRetirement) + StatePension(p.partnerSalary, p.yearsUntilRetirement)
      else StatePension(p.grossSalary, p.yearsUntilRetirement);
    var netSalary := totalSalary * 0.6;
    var target := netSalary * 0.7;
    var gap := target - expected;
    var capital := gap * 25.0;
    PensionGap(
      grossSalary := totalSalary,
      netSalary := netSalary,
      targetPension := target,
      targetPensionMonthly := target / 12.0,
      expectedStatePension := expected,
      expectedStatePensionMonthly := expected / 12.0,
      pensionGap := gap,
      pensionGapMonthly := gap / 12.0,
      requiredCapital := capital,
      requiredMonthlySavings := RequiredMonthlySavings(capital, p.yearsUntilRetirement))
  }

  /**
   * The saving rate closes the gap: paid every month until retirement into
   * the calculators' monthly compounding at 5 % a year, it grows to exactly
   * the required capital.
   */
  lemma SavingsReachCapital(capital: real, years: int)
    requires years > 0
    ensures Grow(0.0, RequiredMonthlySavings(capital, years), SavingsReturn, 12 * years) == capital
  {
    var q := SavingsReturn / 12.0;
    var n: nat := 12 * years;
    var growth := Pow(1.0 + q, n);
    var savings := RequiredMonthlySavings(capital, years);
    PowAboveOne(1.0 + q, n);
    assert savings * (growth - 1.0) == capital * q;
    GrowClosedForm(savings, SavingsReturn, n);
    assert Grow(0.0, savings, SavingsReturn, n) * q == capital * q;
  }

  /** Being married to a partner without income changes nothing but the label. */
  lemma PartnerWithoutIncomeChangesNothing(p: Profile)
    requires p.partnerSalary == 0.0
    ensures CalculatePensionGap(p.(married := true)) == CalculatePensionGap(p.(married := false))
  {
    assert StatePension(0.0, p.yearsUntilRetirement) == 0.0;
  }

  /**
   * A longer career never widens the gap: with non-negative salaries, more
   * years until retirement mean a larger expected state pension and the
   * same target.
   */
  lemma LongerCareerNarrowsGap(p: Profile, moreYears: int)
    requires p.grossSalary >= 0.0 && p.partnerSalary >= 0.0 && p.yearsUntilRetirement <= moreYears
    ensures CalculatePensionGap(p.(yearsUntilRetirement := moreYears)).targetPension == CalculatePensionGap(p).targetPension
    ensures CalculatePensionGap(p.(yearsUntilRetirement := moreYears)).pensionGap <= CalculatePensionGap(p).pensionGap
  {
    var y := p.yearsUntilRetirement;
    StatePensionGrows(p.grossSalary, y, moreYears);
    StatePensionGrows(p.partnerSalary, y, moreYears);
  }

  lemma StatePensionGrows(salary: real, years: int, moreYears: int)
    requires salary >= 0.0 && years <= moreYears
    ensures StatePension(salary, years) <= StatePension(salary, moreYears)
  {
    assert (StatePension(salary, moreYears) - StatePension(salary, years)) * 45.0
        == salary * 0.48 * ((moreYears - years) as real);
    assert salary * 0.48 >= 0.0;
  }

  /** The deductible limit of the Riester pension per year. */
  const MaxDeductible: real := 2100.0

  /** The yearly allowances: 175 basic and 300 per child. */
  function Allowances(children: int): (allowances: real)
    ensures allowances == 175.0 + 300.0 * (children as real)
  {
    175.0 + (children * 300) as real
  }

  /**
   * `calculate_riester_optimal`: the monthly own contribution that, with the
   * allowances, fills the smaller of the deductible limit and 4 % of the
   * salary; above a salary of 50 000 the limit alone. Never negative.
   */
  function RiesterOptimal(grossSalary: real, children: int): (monthly: real)
    ensures monthly >= 0.0
    ensures grossSalary > 50000.0 ==> monthly * 12.0 == Max(0.0, MaxDeductible - Allowances(children))
    ensures grossSalary <= 50000.0
        ==> monthly * 12.0 == Max(0.0, Min(MaxDeductible, grossSalary * 0.04) - Allowances(children))
    ensures monthly * 12.0 <= Max(0.0, MaxDeductible - Allowances(children))
  {
    var totalAllowances := Allowances(children);
    var fourPercent := grossSalary * 0.04;
    var optimalYearly :=
      if grossSalary > 50000.0 then MaxDeductible - totalAllowances
      else Min(MaxDeductible - totalAllowances, fourPercent - totalAllowances);
    Max(0.0, optimalYearly / 12.0)
  }

  /** A higher salary never lowers the optimum. */
  lemma RiesterOptimalGrowsWithSalary(lower: real, higher: real, children: int)
    requires lower <= higher
    ensures RiesterOptimal(lower, children) <= RiesterOptimal(higher, children)
  {
    var a := RiesterOptimal(lower, children);
    var b := RiesterOptimal(higher, children);
    assert a * 12.0 <= b * 12.0;
  }

  /** More children mean more allowance, so the own contribution never rises. */
  lemma RiesterOptimalFallsWithChildren(grossSalary: real, fewer: int, more: int)
    requires fewer <= more
    ensures RiesterOptimal(grossSalary, more) <= RiesterOptimal(grossSalary, fewer)
  {
    var a := RiesterOptimal(grossSalary, fewer);
    var b := RiesterOptimal(grossSalary, more);
    assert b * 12.0 <= a * 12.0;
  }

  /**
   * Fed into the Riester calculator, a positive optimum makes the yearly
   * contribution plus allowances exactly the amount it aims at: the
   * deductible limit above a salary of 50 000, the smaller of the limit and
   * 4 % of the salary otherwise.
   */
  lemma OptimumFillsRiesterTarget(grossSalary: real, children: int, years: nat, annualReturn: real, taxRate: real)
    requires RiesterOptimal(grossSalary, children) > 0.0
    ensures var p := Riester.WithDefaults(RiesterOptimal(grossSalary, children), years, annualReturn, taxRate,
                                          300.0 * (children as real));
      Riester.YearlyContribution(p) + Riester.YearlyAllowance(p)
      == (if grossSalary > 50000.0 then p.maxDeductible else Min(p.maxDeductible, grossSalary * 0.04))
  {
  }
}
