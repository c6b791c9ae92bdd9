/**
 * The ETF savings plan (calculators/etf_calculator.py): a net return after
 * TER and spread, order and depot fees, a flat capital-gains tax with a
 * one-year allowance at the final sale, and an optional year-by-year
 * simulation of rebalancing events that each sell, pay tax and buy back.
 */
module Etf {
  import opened RealMath
  import opened Kernel
  import opened Dynamics

  const ProductName: string := "ETF-Sparplan (privat)"
  const TooManyRebalancings: string := "Anzahl Umschichtungen darf nicht >= Laufzeit in Jahren sein"

  /** The calculator's constructor arguments. */
  datatype EtfParams = EtfParams(
    monthlyContribution: real,
    years: nat,
    annualReturn: real,
    taxRate: real,
    ter: real,
    capitalGainsTax: real,
    taxAllowance: real,
    orderFee: real,
    depotFeeYearly: real,
    spread: real,
    initialInvestment: real,
    rebalancingCount: int,
    contributionDynamics: real,
    inflationRate: real)

  /** `calculate` either returns a result or raises the ValueError of the rebalancing check. */
  datatype EtfOutcome = Ok(result: InvestmentResult) | Err(message: string)

  /** The constructor with every keyword argument left at its default. */
  function WithDefaults(monthlyContribution: real, years: nat, annualReturn: real, taxRate: real): (p: EtfParams)
    ensures p.ter == 0.002 && p.capitalGainsTax == 0.26375 && p.taxAllowance == 1000.0
    ensures p.orderFee == 1.0 && p.depotFeeYearly == 0.0 && p.spread == 0.002
    ensures p.initialInvestment == 0.0 && p.rebalancingCount == 0 && p.contributionDynamics == 0.0
  {
    EtfParams(monthlyContribution, years, annualReturn, taxRate,
              0.002, 0.26375, 1000.0, 1.0, 0.0, 0.002, 0.0, 0, 0.0, 0.02)
  }

  /** The annual return after the fund's TER and the spread. */
  function NetReturn(p: EtfParams): real
  {
    p.annualReturn - p.ter - p.spread
  }

  /** One order fee per monthly execution, plus one for the lump sum if there is one. */
  function OrderFees(p: EtfParams): real
  {
    p.orderFee * 12.0 * (p.years as real) + (if p.initialInvestment > 0.0 then p.orderFee else 0.0)
  }

  function DepotFees(p: EtfParams): real
  {
    p.depotFeeYearly * (p.years as real)
  }

  /** The same plan at the gross return, without TER, spread or fees. */
  function NoCostValue(p: EtfParams): real
  {
    WithLumpSum(p.monthlyContribution, p.annualReturn, p.years, p.initialInvestment)
  }

  /**
   * Flat tax on the part of a gain above the allowance; a gain within the
   * allowance, or a loss, is not taxed.
   */
  function SaleTax(gain: real, allowance: real, capitalGainsTax: real): (tax: real)
    ensures capitalGainsTax >= 0.0 ==> tax >= 0.0
    ensures gain <= allowance ==> tax == 0.0
    ensures gain > allowance ==> tax == (gain - allowance) * capitalGainsTax
  {
    Max(0.0, gain - allowance) * capitalGainsTax
  }

  /**
   * The tail of `calculate` shared by the dynamics and the static path:
   * subtract the fees, tax the gain over the allowance once, and report the
   * costs against the no-cost projection.
   */
  function Finish(p: EtfParams, valueBeforeFees: real, yearlyValues: YearlyValues, totalPaid: real): (r: InvestmentResult)
    ensures r.grossValue == valueBeforeFees - OrderFees(p) - DepotFees(p)
    ensures r.totalValue == r.grossValue - SaleTax(r.grossValue - totalPaid, p.taxAllowance, p.capitalGainsTax)
    ensures r.totalPaid == totalPaid && r.grossPaid == totalPaid
    ensures r.netReturn == NetReturn(p) && r.grossReturn == p.annualReturn
    ensures r.taxBenefit == 0.0 && r.stateAllowances == 0.0 && r.taxSavings == 0.0
    ensures r.yearlyValues == yearlyValues
  {
    var finalValue := valueBeforeFees - OrderFees(p) - DepotFees(p);
    var tax := SaleTax(finalValue - totalPaid, p.taxAllowance, p.capitalGainsTax);
    InvestmentResult(
      name := ProductName,
      totalPaid := totalPaid,
      totalValue := finalValue - tax,
      netReturn := NetReturn(p),
      taxBenefit := 0.0,
      yearlyValues := yearlyValues,
      grossPaid := totalPaid,
      stateAllowances := 0.0,
      taxSavings := 0.0,
      totalCosts := NoCostValue(p) - finalValue,
      grossReturn := p.annualReturn,
      grossValue := finalValue)
  }

  /** Contributions paid without dynamics: twelve a year plus the lump sum. */
  function StaticPaid(p: EtfParams): real
  {
    p.monthlyContribution * 12.0 * (p.years as real) + p.initialInvestment
  }

  /** Final value of the static plan: the kernel plus the lump sum bought at the spread and compounded yearly. */
  function StaticValue(p: EtfParams): real
  {
    var net := NetReturn(p);
    Compound(p.monthlyContribution, net, p.years).0
    + (if p.initialInvestment > 0.0 then p.initialInvestment * (1.0 - p.spread) * Pow(1.0 + net, p.years) else 0.0)
  }

  /**
   * `ETFCalculator.calculate`: contribution dynamics take precedence, then
   * rebalancing (which may reject the configuration), then the static plan.
   */
  function Calculate(p: EtfParams): (outcome: EtfOutcome)
    ensures outcome.Err? <==>
      p.contributionDynamics <= 0.0 && p.rebalancingCount > 0 && p.rebalancingCount >= p.years
    ensures outcome.Ok? ==>
      && outcome.result.netReturn == NetReturn(p)
      && outcome.result.grossPaid == outcome.result.totalPaid
      && outcome.result.NetInvestment() == outcome.result.totalPaid
      && outcome.result.taxBenefit == 0.0
    ensures outcome.Ok? && p.capitalGainsTax >= 0.0 ==> outcome.result.totalValue <= outcome.result.grossValue
    ensures outcome.Ok? && p.contributionDynamics <= 0.0 ==> outcome.result.totalPaid == StaticPaid(p)
    ensures outcome.Ok? && p.contributionDynamics > 0.0 ==>
      outcome.result.totalPaid == p.initialInvestment + DynContributionSum(p.monthlyContribution, p.contributionDynamics, MonthsPerYear, p.years)
  {
    var net := NetReturn(p);
    if p.contributionDynamics > 0.0 then
      var (finalValue, yearlyValues, totalPaid) :=
        WithContributionDynamics(p.monthlyContribution, p.contributionDynamics, p.years, net, p.initialInvestment, MonthsPerYear);
      Ok(Finish(p, finalValue, Plain(yearlyValues), totalPaid))
    else if p.rebalancingCount > 0 then
      RebalancingOutcome(p, net, StaticPaid(p))
    else
      Ok(Finish(p, StaticValue(p), Pairs(Compound(p.monthlyContribution, net, p.years).1), StaticPaid(p)))
  }

  // ---------------------------------------------------------------------
  // Rebalancing
  // ---------------------------------------------------------------------

  /** Event i of `count`, spread evenly: the integer part of years / (count + 1) * i. */
  function EventYear(years: nat, count: nat, i: int): int
  {
    (((years as real) / ((count + 1) as real)) * (i as real)).Floor
  }

  /** The first k event years, in order. */
  function EventYears(years: nat, count: nat, k: nat): seq<int>
    decreases k
  {
    if k == 0 then [] else EventYears(years, count, k - 1) + [EventYear(years, count, k)]
  }

  /** The event years of a configuration; none for a count that is not positive. */
  function RebalancingYears(years: nat, count: int): seq<int>
  {
    if count > 0 then EventYears(years, count, count) else []
  }

  /** Everything the simulation carries from one year to the next. */
  datatype SimState = SimState(
    balance: real,
    investedCapital: real,
    orderFees: real,
    depotFees: real,
    rebalancingTaxes: real,
    rebalancingCosts: real,
    allowanceLeft: real,
    yearlyValues: seq<(int, real)>)

  /** The lump sum counted as invested; a lump sum that is not positive is ignored. */
  function LumpSumPaid(p: EtfParams): (paid: real)
    ensures paid >= 0.0
  {
    if p.initialInvestment > 0.0 then p.initialInvestment else 0.0
  }

  /** Before year 1: the lump sum, if any, bought at the spread. */
  function InitialState(p: EtfParams): SimState
  {
    if p.initialInvestment > 0.0 then
      SimState(p.initialInvestment * (1.0 - p.spread), p.initialInvestment, 0.0, 0.0, 0.0, 0.0, 0.0, [])
    else
      SimState(0.0, 0.0, 0.0, 0.0, 0.0, 0.0, 0.0, [])
  }

  /** What `months` equal monthly amounts add up to. */
  function YearOfPayments(amount: real, months: nat): (total: real)
    ensures months == 0 ==> total == 0.0
    ensures amount >= 0.0 ==> total >= 0.0
  {
    (months as real) * amount
  }

  /** A year of saving: fresh allowance, `months` compounded payments each with an order fee, one depot fee. */
  function SaveYear(p: EtfParams, net: real, months: nat, s: SimState): SimState
  {
    s.(balance := Grow(s.balance, p.monthlyContribution, net, months),
       investedCapital := s.investedCapital + YearOfPayments(p.monthlyContribution, months),
       orderFees := s.orderFees + YearOfPayments(p.orderFee, months),
       depotFees := s.depotFees + p.depotFeeYearly,
       allowanceLeft := p.taxAllowance)
  }

  /**
   * One rebalancing event: tax the gain over what is left of this year's
   * allowance, use up the allowance, pay the sell spread on the pre-tax
   * balance, then the buy spread on what is reinvested, and one order fee.
   */
  function Rebalance(p: EtfParams, s: SimState): SimState
  {
    var gain := s.balance - s.investedCapital;
    var taxes := SaleTax(gain, s.allowanceLeft, p.capitalGainsTax);
    var sellSpreadCost := SpreadCost(s.balance, p.spread);
    var afterSale := s.balance - taxes - sellSpreadCost;
    var buySpreadCost := SpreadCost(afterSale, p.spread);
    s.(balance := afterSale - buySpreadCost,
       orderFees := s.orderFees + p.orderFee,
       rebalancingTaxes := s.rebalancingTaxes + taxes,
       rebalancingCosts := s.rebalancingCosts + sellSpreadCost + buySpreadCost + p.orderFee,
       allowanceLeft := s.allowanceLeft - Min(gain, s.allowanceLeft))
  }

  /** The spread paid on a trade of `amount`; a non-negative spread never costs a negative amount on a non-negative trade. */
  function SpreadCost(amount: real, spread: real): (cost: real)
    ensures amount >= 0.0 && spread >= 0.0 ==> cost >= 0.0
    ensures spread <= 1.0 && amount >= 0.0 ==> cost <= amount
  {
    amount * spread
  }

  /** Year `year` of the simulation, ending with the (year, balance) snapshot. */
  function SimYear(p: EtfParams, net: real, months: nat, events: seq<int>, s: SimState, year: int): SimState
  {
    var saved := SaveYear(p, net, months, s);
    var t := if year in events then Rebalance(p, saved) else saved;
    t.(yearlyValues := t.yearlyValues + [(year, t.balance)])
  }

  /** The state after the first `years` years of `months` months. */
  function Simulate(p: EtfParams, net: real, months: nat, events: seq<int>, years: nat): (s: SimState)
    ensures s.investedCapital == LumpSumPaid(p) + YearOfPayments(p.monthlyContribution, months) * (years as real)
    ensures s.depotFees == p.depotFeeYearly * (years as real)
    decreases years
  {
    if years == 0 then InitialState(p)
    else
      var prev := Simulate(p, net, months, events, years - 1);
      SimYearEffect(p, net, months, events, prev, years);
      OneMoreTerm(prev.investedCapital, prev.investedCapital + YearOfPayments(p.monthlyContribution, months),
                  LumpSumPaid(p), YearOfPayments(p.monthlyContribution, months), years);
      OneMoreTerm(prev.depotFees, prev.depotFees + p.depotFeeYearly, 0.0, p.depotFeeYearly, years);
      SimYear(p, net, months, events, prev, years)
  }

  /** What `_calculate_with_rebalancing` returns or raises. */
  function RebalancingOutcome(p: EtfParams, net: real, totalPaid: real): (outcome: EtfOutcome)
    ensures outcome.Err? <==> p.rebalancingCount >= p.years
    ensures outcome.Ok? ==>
      && outcome.result.netReturn == net
      && outcome.result.totalPaid == totalPaid
      && outcome.result.grossPaid == totalPaid
      && outcome.result.stateAllowances == 0.0 && outcome.result.taxSavings == 0.0
      && outcome.result.taxBenefit == 0.0
    ensures outcome.Ok? && p.capitalGainsTax >= 0.0 ==> outcome.result.totalValue <= outcome.result.grossValue
  {
    if p.rebalancingCount >= p.years then Err(TooManyRebalancings)
    else
      var events := RebalancingYears(p.years, p.rebalancingCount);
      var s := Simulate(p, net, MonthsPerYear, events, p.years);
      var finalValue := s.balance - s.depotFees - s.orderFees;
      var allowance := if p.years !in events then p.taxAllowance else s.allowanceLeft;
      var finalTax := SaleTax(finalValue - s.investedCapital, allowance, p.capitalGainsTax);
      var afterTax := finalValue - finalTax;
      Ok(InvestmentResult(
        name := ProductName,
        totalPaid := totalPaid,
        totalValue := afterTax,
        netReturn := net,
        taxBenefit := 0.0,
        yearlyValues := Pairs(s.yearlyValues),
        grossPaid := totalPaid,
        stateAllowances := 0.0,
        taxSavings := 0.0,
        totalCosts := (NoCostValue(p) - afterTax) - finalTax,
        grossReturn := p.annualReturn,
        grossValue := finalValue))
  }

  /** The month loop of a simulated year: compound, pay in, count the payment and its order fee. */
  method SaveMonths(balance: real, investedCapital: real, orderFees: real, monthlyContribution: real, orderFee: real,
                    net: real, months: nat)
    returns (newBalance: real, newInvested: real, newOrderFees: real)
    ensures newBalance == Grow(balance, monthlyContribution, net, months)
    ensures newInvested == investedCapital + (months as real) * monthlyContribution
    ensures newOrderFees == orderFees + (months as real) * orderFee
  {
    newBalance, newInvested, newOrderFees := balance, investedCapital, orderFees;
    for month := 0 to months
      invariant newBalance == Grow(balance, monthlyContribution, net, month)
      invariant newInvested == investedCapital + (month as real) * monthlyContribution
      invariant newOrderFees == orderFees + (month as real) * orderFee
    {
      var monthlyRate := net / 12.0;
      MonthUpdate(balance, monthlyContribution, net, monthlyRate, month, newBalance);
      newBalance := newBalance * (1.0 + monthlyRate);
      newBalance := newBalance + monthlyContribution;
      newInvested := newInvested + monthlyContribution;
      newOrderFees := newOrderFees + orderFee;
    }
  }

  /** The event years, computed as the source does: interval = years / (count + 1), then int(interval * i). */
  method SpreadEvents(years: nat, count: int) returns (rebalancingYears: seq<int>)
    ensures rebalancingYears == RebalancingYears(years, count)
  {
    rebalancingYears := [];
    if count > 0 {
      var interval := (years as real) / ((count + 1) as real);
      for i := 1 to count + 1
        invariant rebalancingYears == EventYears(years, count, i - 1)
      {
        assert (interval * (i as real)).Floor == EventYear(years, count, i);
        rebalancingYears := rebalancingYears + [(interval * (i as real)).Floor];
      }
    }
  }

  /** The no-cost comparison both ETF paths compute: the kernel at the gross return plus the lump sum compounded yearly. */
  method NoCostProjection(p: EtfParams) returns (finalWithoutCosts: real)
    ensures finalWithoutCosts == NoCostValue(p)
  {
    var ignored;
    finalWithoutCosts, ignored := CompoundInterest(p.monthlyContribution, p.annualReturn, p.years);
    if p.initialInvestment > 0.0 {
      finalWithoutCosts := finalWithoutCosts + p.initialInvestment * Pow(1.0 + p.annualReturn, p.years);
    }
  }

  /**
   * The year loop of `_calculate_with_rebalancing`: buy the lump sum, then
   * every year save `months` months, charge the depot fee and, in an event
   * year, sell, pay tax and buy back; record the balance at each year end.
   */
  method SimulateYears(p: EtfParams, net: real, months: nat, rebalancingYears: seq<int>)
    returns (balance: real, investedCapital: real, totalOrderFees: real, totalDepotFees: real,
             totalRebalancingTaxes: real, totalRebalancingCosts: real, remainingTaxAllowance: real,
             yearlyValues: seq<(int, real)>)
    ensures SimState(balance, investedCapital, totalOrderFees, totalDepotFees, totalRebalancingTaxes,
                     totalRebalancingCosts, remainingTaxAllowance, yearlyValues)
         == Simulate(p, net, months, rebalancingYears, p.years)
  {
    balance, investedCapital := 0.0, 0.0;
    if p.initialInvestment > 0.0 {
      investedCapital := investedCapital + p.initialInvestment;
      balance := p.initialInvestment * (1.0 - p.spread);
    }
    totalOrderFees, totalDepotFees := 0.0, 0.0;
    totalRebalancingTaxes, totalRebalancingCosts := 0.0, 0.0;
    remainingTaxAllowance := 0.0;
    yearlyValues := [];
    for year := 1 to p.years + 1
      invariant SimState(balance, investedCapital, totalOrderFees, totalDepotFees, totalRebalancingTaxes,
                         totalRebalancingCosts, remainingTaxAllowance, yearlyValues)
             == Simulate(p, net, months, rebalancingYears, year - 1)
    {
      var t := SimulateYear(p, net, months, rebalancingYears, year,
                            SimState(balance, investedCapital, totalOrderFees, totalDepotFees, totalRebalancingTaxes,
                                     totalRebalancingCosts, remainingTaxAllowance, yearlyValues));
      balance, investedCapital, totalOrderFees, totalDepotFees := t.balance, t.investedCapital, t.orderFees, t.depotFees;
      totalRebalancingTaxes, totalRebalancingCosts := t.rebalancingTaxes, t.rebalancingCosts;
      remainingTaxAllowance, yearlyValues := t.allowanceLeft, t.yearlyValues;
    }
  }

  /**
   * One pass of the year loop of `_calculate_with_rebalancing`: a fresh
   * allowance, the month loop, the depot fee, the event if this is an event
   * year, and the year-end snapshot.
   */
  method SimulateYear(p: EtfParams, net: real, months: nat, rebalancingYears: seq<int>, year: int, s: SimState)
    returns (t: SimState)
    ensures t == SimYear(p, net, months, rebalancingYears, s, year)
  {
    t := s.(allowanceLeft := p.taxAllowance);
    var balance, investedCapital, totalOrderFees :=
      SaveMonths(t.balance, t.investedCapital, t.orderFees, p.monthlyContribution, p.orderFee, net, months);
    t := t.(balance := balance, investedCapital := investedCapital, orderFees := totalOrderFees,
            depotFees := t.depotFees + p.depotFeeYearly);
    assert t == SaveYear(p, net, months, s);
    if year in rebalancingYears {
      t := RebalanceEvent(p, t);
    }
    t := t.(yearlyValues := t.yearlyValues + [(year, t.balance)]);
  }

  /**
   * The body of an event year in `_calculate_with_rebalancing`: sell, pay
   * tax on the gain above the remaining allowance and the sell spread, buy
   * back paying the buy spread, and pay one order fee.
   */
  method RebalanceEvent(p: EtfParams, s: SimState) returns (t: SimState)
    ensures t == Rebalance(p, s)
  {
    t := s;
    var currentGain := t.balance - t.investedCapital;
    var taxes := SaleTax(currentGain, t.allowanceLeft, p.capitalGainsTax);
    t := t.(rebalancingTaxes := t.rebalancingTaxes + taxes);
    var usedAllowance := Min(currentGain, t.allowanceLeft);
    t := t.(allowanceLeft := t.allowanceLeft - usedAllowance);
    var sellSpreadCost := SpreadCost(t.balance, p.spread);
    t := t.(rebalancingCosts := t.rebalancingCosts + sellSpreadCost);
    t := t.(balance := t.balance - taxes - sellSpreadCost);
    var buySpreadCost := SpreadCost(t.balance, p.spread);
    t := t.(rebalancingCosts := t.rebalancingCosts + buySpreadCost);
    t := t.(balance := t.balance - buySpreadCost);
    t := t.(orderFees := t.orderFees + p.orderFee);
    t := t.(rebalancingCosts := t.rebalancingCosts + p.orderFee);
  }

  /**
   * `_calculate_with_rebalancing`: reject too many events, spread the event
   * years, simulate year by year, then charge the fees and the final tax.
   */
  method CalculateWithRebalancing(p: EtfParams, net: real, totalPaid: real) returns (outcome: EtfOutcome)
    ensures outcome == RebalancingOutcome(p, net, totalPaid)
  {
    if p.rebalancingCount >= p.years {
      return Err(TooManyRebalancings);
    }
    var rebalancingYears := SpreadEvents(p.years, p.rebalancingCount);
    var balance, investedCapital, totalOrderFees, totalDepotFees,
        totalRebalancingTaxes, totalRebalancingCosts, remainingTaxAllowance, yearlyValues :=
      SimulateYears(p, net, MonthsPerYear, rebalancingYears);
    var finalValue := balance - totalDepotFees - totalOrderFees;
    var finalCapitalGain := finalValue - investedCapital;
    if p.years !in rebalancingYears {
      remainingTaxAllowance := p.taxAllowance;
    }
    var finalTax := SaleTax(finalCapitalGain, remainingTaxAllowance, p.capitalGainsTax);
    var finalValueAfterTax := finalValue - finalTax;
    var finalWithoutCosts := NoCostProjection(p);
    var totalCosts := (finalWithoutCosts - finalValueAfterTax) - finalTax;
    outcome := Ok(InvestmentResult(
      name := ProductName,
      totalPaid := totalPaid,
      totalValue := finalValueAfterTax,
      netReturn := net,
      taxBenefit := 0.0,
      yearlyValues := Pairs(yearlyValues),
      grossPaid := totalPaid,
      stateAllowances := 0.0,
      taxSavings := 0.0,
      totalCosts := totalCosts,
      grossReturn := p.annualReturn,
      grossValue := finalValue));
  }

  // ---------------------------------------------------------------------
  // Properties
  // ---------------------------------------------------------------------

  /** Every event lands strictly inside the horizon: after year 0 and before the final year. */
  lemma EventYearBounds(years: nat, count: nat, i: int)
    requires 0 < count < years && 1 <= i <= count
    ensures 1 <= EventYear(years, count, i) <= years - 1
  {
    var x := (years as real) / ((count + 1) as real) * (i as real);
    EventPosition(years, count, i);
    assert 1.0 <= x <= (years - 1) as real;
    FloorBetween(x, years - 1);
  }

  /** The i-th event lies between one interval and the horizon less one interval, which is at least one year. */
  lemma EventPosition(years: nat, count: nat, i: int)
    requires 0 < count < years && 1 <= i <= count
    ensures 1.0 <= (years as real) / ((count + 1) as real) * (i as real) <= (years - 1) as real
  {
    var n := (count + 1) as real;
    var a := (years as real) / n;
    assert a * n == years as real;
    assert (a - 1.0) * n == (years as real) - n;
    FactorNonNegative(a - 1.0, n);
    MulNonNegative(a, (i - 1) as real);
    MulNonNegative(a, (count - i) as real);
    assert a * (i as real) == a + a * ((i - 1) as real);
    assert a * (count as real) == a * (i as real) + a * ((count - i) as real);
    assert a * (count as real) == years as real - a;
  }

  /** A real between 1 and a whole number m is floored into 1..m. */
  lemma FloorBetween(x: real, m: int)
    requires 1.0 <= x <= m as real
    ensures 1 <= x.Floor <= m
  {
  }

  /**
   * With 0 < count < years there are exactly `count` event years, each in
   * 1..years-1; in particular the final year is never one of them, so the
   * final sale always has the full allowance.
   */
  lemma {:induction false} EventYearsInRange(years: nat, count: nat, k: nat)
    requires 0 < count < years && k <= count
    ensures |EventYears(years, count, k)| == k
    ensures forall j :: 0 <= j < k ==> 1 <= EventYears(years, count, k)[j] <= years - 1
    ensures years !in EventYears(years, count, k)
  {
    if k > 0 {
      EventYearsInRange(years, count, k - 1);
      EventYearBounds(years, count, k);
      var prev := EventYears(years, count, k - 1);
      assert EventYears(years, count, k) == prev + [EventYear(years, count, k)];
    }
  }

  /** The configuration-level form: `years not in rebalancing_years` always holds. */
  lemma FinalYearIsNeverAnEvent(years: nat, count: int)
    requires count < years
    ensures |RebalancingYears(years, count)| == if count > 0 then count else 0
    ensures forall e :: e in RebalancingYears(years, count) ==> 1 <= e <= years - 1
    ensures years !in RebalancingYears(years, count)
  {
    if count > 0 {
      EventYearsInRange(years, count, count);
    }
  }

  /**
   * One event leaves the invested capital alone, taxes the gain above the
   * remaining allowance, reduces the allowance by what the gain used (never
   * below 0 when it started non-negative) and reinvests the balance after
   * tax and both spreads.
   */
  lemma RebalanceEffect(p: EtfParams, s: SimState)
    ensures Rebalance(p, s).investedCapital == s.investedCapital
    ensures Rebalance(p, s).yearlyValues == s.yearlyValues
    ensures Rebalance(p, s).depotFees == s.depotFees
    ensures Rebalance(p, s).orderFees == s.orderFees + p.orderFee
    ensures s.allowanceLeft >= 0.0 ==>
      Rebalance(p, s).allowanceLeft == Max(0.0, s.allowanceLeft - (s.balance - s.investedCapital))
    ensures p.capitalGainsTax >= 0.0 ==> Rebalance(p, s).rebalancingTaxes >= s.rebalancingTaxes
    ensures Rebalance(p, s).balance
         == (s.balance - SaleTax(s.balance - s.investedCapital, s.allowanceLeft, p.capitalGainsTax) - s.balance * p.spread)
            * (1.0 - p.spread)
  {
    var gain := s.balance - s.investedCapital;
    var afterSale := s.balance - SaleTax(gain, s.allowanceLeft, p.capitalGainsTax) - s.balance * p.spread;
    assert afterSale - afterSale * p.spread == afterSale * (1.0 - p.spread);
  }

  /** One simulated year appends its snapshot, adds a year of payments to the invested capital and one depot fee. */
  lemma SimYearEffect(p: EtfParams, net: real, months: nat, events: seq<int>, s: SimState, year: int)
    ensures SimYear(p, net, months, events, s, year).yearlyValues
         == s.yearlyValues + [(year, SimYear(p, net, months, events, s, year).balance)]
    ensures SimYear(p, net, months, events, s, year).investedCapital == s.investedCapital + YearOfPayments(p.monthlyContribution, months)
    ensures SimYear(p, net, months, events, s, year).depotFees == s.depotFees + p.depotFeeYearly
  {
    RebalanceEffect(p, SaveYear(p, net, months, s));
  }

  /** After k simulated years there are k snapshots, numbered 1..k. */
  lemma {:induction false} SimulateSnapshots(p: EtfParams, net: real, months: nat, events: seq<int>, k: nat)
    ensures |Simulate(p, net, months, events, k).yearlyValues| == k
    ensures forall j :: 0 <= j < k ==> Simulate(p, net, months, events, k).yearlyValues[j].0 == j + 1
  {
    if k > 0 {
      SimulateSnapshots(p, net, months, events, k - 1);
      var prev := Simulate(p, net, months, events, k - 1);
      assert Simulate(p, net, months, events, k) == SimYear(p, net, months, events, prev, k);
      SimYearEffect(p, net, months, events, prev, k);
      var all := Simulate(p, net, months, events, k).yearlyValues;
      forall j | 0 <= j < k
        ensures all[j].0 == j + 1
      {
        if j < k - 1 {
          assert all[j] == prev.yearlyValues[j];
        }
      }
    }
  }

  /** One more term of m: a running sum of base + m * (n - 1) that grows by m is base + m * n. */
  lemma OneMoreTerm(before: real, after: real, base: real, m: real, n: nat)
    requires n >= 1 && before == base + m * ((n - 1) as real) && after == before + m
    ensures after == base + m * (n as real)
  {
  }

  /** A result always carries one snapshot per year, or years + 1 plain values on the dynamics path. */
  lemma YearlyValuesLength(p: EtfParams)
    requires Calculate(p).Ok?
    ensures p.contributionDynamics > 0.0 ==>
      Calculate(p).result.yearlyValues.Plain? && |Calculate(p).result.yearlyValues.values| == p.years + 1
    ensures p.contributionDynamics <= 0.0 ==>
      Calculate(p).result.yearlyValues.Pairs? && |Calculate(p).result.yearlyValues.entries| == p.years
  {
    if p.contributionDynamics > 0.0 {
      DynValuesShape(p.monthlyContribution, p.contributionDynamics, NetReturn(p), p.initialInvestment, MonthsPerYear, p.years);
    } else if p.rebalancingCount > 0 {
      SimulateSnapshots(p, NetReturn(p), MonthsPerYear, RebalancingYears(p.years, p.rebalancingCount), p.years);
    } else {
      YearEndBalancesShape(p.monthlyContribution, NetReturn(p), p.years);
    }
  }

  /** On every path the reported costs are the no-cost projection minus the value before tax. */
  lemma CostsAgainstNoCostPlan(p: EtfParams)
    requires Calculate(p).Ok?
    ensures Calculate(p).result.totalCosts == NoCostValue(p) - Calculate(p).result.grossValue
  {
  }

  /** The dynamics path of `calculate`, unfolded. */
  lemma DynamicsPath(p: EtfParams)
    requires p.contributionDynamics > 0.0
    ensures Calculate(p) == Ok(Finish(p,
      WithContributionDynamics(p.monthlyContribution, p.contributionDynamics, p.years, NetReturn(p), p.initialInvestment, MonthsPerYear).0,
      Plain(WithContributionDynamics(p.monthlyContribution, p.contributionDynamics, p.years, NetReturn(p), p.initialInvestment, MonthsPerYear).1),
      WithContributionDynamics(p.monthlyContribution, p.contributionDynamics, p.years, NetReturn(p), p.initialInvestment, MonthsPerYear).2))
  {
  }

  /** The static path of `calculate`, unfolded. */
  lemma StaticPath(p: EtfParams)
    requires p.contributionDynamics <= 0.0 && p.rebalancingCount <= 0
    ensures Calculate(p) == Ok(Finish(p, StaticValue(p), Pairs(Compound(p.monthlyContribution, NetReturn(p), p.years).1), StaticPaid(p)))
  {
  }

  /**
   * Order and depot fees come off the value before tax one for one: the same
   * plan without fees is worth exactly the fees more (outside rebalancing,
   * where every event adds an order fee of its own).
   */
  lemma FeesDeductedOneForOne(p: EtfParams)
    requires p.contributionDynamics > 0.0 || p.rebalancingCount <= 0
    ensures Calculate(p).Ok? && Calculate(p.(orderFee := 0.0, depotFeeYearly := 0.0)).Ok?
    ensures Calculate(p.(orderFee := 0.0, depotFeeYearly := 0.0)).result.grossValue - Calculate(p).result.grossValue
         == OrderFees(p) + DepotFees(p)
  {
    var q := p.(orderFee := 0.0, depotFeeYearly := 0.0);
    assert NetReturn(q) == NetReturn(p);
    assert OrderFees(q) == 0.0 && DepotFees(q) == 0.0;
    if p.contributionDynamics > 0.0 {
      DynamicsPath(p);
      DynamicsPath(q);
    } else {
      StaticPath(p);
      StaticPath(q);
      assert StaticValue(q) == StaticValue(p);
    }
  }

  /**
   * The allowance is used once, at the sale: with a positive tax rate the
   * value after tax equals the value before tax exactly when the gain stays
   * within the allowance (outside rebalancing).
   */
  lemma TaxOnlyAboveAllowance(p: EtfParams)
    requires p.contributionDynamics > 0.0 || p.rebalancingCount <= 0
    requires p.capitalGainsTax > 0.0
    ensures Calculate(p).Ok?
    ensures Calculate(p).result.totalValue == Calculate(p).result.grossValue
        <==> Calculate(p).result.grossValue - Calculate(p).result.totalPaid <= p.taxAllowance
  {
    var r := Calculate(p).result;
    var gain := r.grossValue - r.totalPaid;
    if gain > p.taxAllowance {
      assert (gain - p.taxAllowance) * p.capitalGainsTax > 0.0;
    }
  }

  /** 100 a month for 10 years pays in 12000 (the test's expectation). */
  lemma BasicPlanPaysTwelveThousand()
    ensures Calculate(WithDefaults(100.0, 10, 0.07, 0.42)).Ok?
    ensures Calculate(WithDefaults(100.0, 10, 0.07, 0.42)).result.totalPaid == 12000.0
  {
  }

  /**
   * With nothing paid in, the default order fee is still charged every
   * month: the value before and after tax is -12 per year (-120 over the
   * test's 10 years), not 0.
   */
  lemma ZeroContributionLosesOrderFees(years: nat, annualReturn: real, taxRate: real)
    ensures Calculate(WithDefaults(0.0, years, annualReturn, taxRate)).Ok?
    ensures Calculate(WithDefaults(0.0, years, annualReturn, taxRate)).result.totalPaid == 0.0
    ensures Calculate(WithDefaults(0.0, years, annualReturn, taxRate)).result.grossValue == -12.0 * (years as real)
    ensures Calculate(WithDefaults(0.0, years, annualReturn, taxRate)).result.totalValue == -12.0 * (years as real)
  {
    var p := WithDefaults(0.0, years, annualReturn, taxRate);
    StaticPath(p);
    ZeroPaymentStaysZero(NetReturn(p), 12 * years);
    assert StaticValue(p) == 0.0;
    assert OrderFees(p) == 12.0 * (years as real);
  }
}
