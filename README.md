# Pocket calculators for German retirement products, in Dafny

This project models the calculation core of a set of pocket calculators for
German retirement saving. It covers the following parts.

- A shared compounding kernel. Money is paid in monthly and compounded at a
  twelfth of the annual rate. A (year, balance) snapshot is taken at every
  year end. The result record has profit, return percentage and net
  investment.
- Contribution dynamics:
  - contributions that rise every year;
  - inflation adjustment and the Fisher real return;
  - a growing pension and the capital it needs.
- Four products and their comparison:
  - ETF savings plan, with fees, the flat capital-gains tax over the saver's
    allowance, and optional rebalancing events that are simulated year by
    year;
  - Basisrente (Rürup), with deductible contributions and deferred taxation;
  - Riester pension, with allowances and the more-favourable test between
    allowance and tax deduction;
  - private pension, taxed either on half of the gain or on the yield share
    (Ertragsanteil) of section 22 of the German income tax act;
  - and the comparison, which ranks the products' results by value after tax.
- Withdrawal strategies for retirement:
  - the 4 % rule;
  - a dynamic percentage of the remaining capital;
  - a fixed monthly pension;
  - a hybrid of pension and reserve, which as written raises a TypeError on every call (see "## Findings"), and its intended result;
  - the safe-withdrawal-rate report.
- The approximate income-tax rate by income band.
- The risk class of the suitability questionnaire.
- The pension gap with the saving that closes it.
- The optimal Riester contribution.

## How the model is built

Money is exact `real` arithmetic. Pure calculations are functions. Every
loop of the source is a method. That method is proved equal to a recursive
specification function, for example:

- `Kernel.CompoundInterest` is proved equal to `Kernel.Compound`;
- `Etf.SimulateYears` is proved equal to `Etf.Simulate`;
- `Withdrawal.PensionYears` is proved equal to `Withdrawal.FixedRun`.

The properties are then proved about those functions.

The specification functions take the number of months per year as a
parameter, so their lemmas hold for any count. The methods pass the source's
12, which is `Kernel.MonthsPerYear`.

Where the source's calculators are objects, their constructor arguments
become a parameter datatype. `calculate` becomes a function of that
datatype. None of these objects is changed after construction.

Some tests and design comments say one thing and the code does another. The
model follows the code in each case.

- **ETF plan with nothing paid in.** The test expects a value of 0. The code
  still charges the default order fee every month, so the value is -12 a
  year. `Etf.ZeroContributionLosesOrderFees` states the code's behaviour.
- **Fixed pension that runs out in the last month of a year.** The emptiness
  check runs only at the start of a month, so no depletion is recorded.
  `Withdrawal.LastMonthDepletionNotRecorded` states this.
- **Dynamic withdrawal.** The strategy always reports itself as never
  depleted. `Withdrawal.NeverDepleted` proves this only for a share below
  100 % and a return above -100 %.

## Model

| member | source | states |
|---|---|---|
| Kernel.InvestmentResult.Profit | calculators/base_calculator.py:27-30 | paid plus profit is the value after tax; the profit is positive exactly when the value exceeds what was paid |
| Kernel.InvestmentResult.ReturnPercentage | calculators/base_calculator.py:32-37 | 0 when nothing was paid, otherwise the percentage that, applied to the outlay, gives the profit |
| Kernel.InvestmentResult.NetInvestment | calculators/base_calculator.py:39-42 | net investment plus allowances plus tax savings is the gross amount paid |
| Kernel.CompoundInterest | calculators/base_calculator.py:72-98 | the month loop yields the monthly recurrence's final balance and one (year, balance) snapshot per year, numbered 1..years, the last one being the final balance |
| Kernel.MonthUpdate | calculators/base_calculator.py:91 | the source's update `balance * (1 + rate/12) + payment` advances the recurrence by exactly one month |
| Kernel.YearBoundary | calculators/base_calculator.py:94-95 | the month counter is a multiple of 12 exactly at the last month of a year, and then `month // 12` is the year just finished |
| Kernel.YearEndBalancesShape | calculators/base_calculator.py:90-96 | the snapshots are numbered 1..years and snapshot k holds the balance after 12k months |
| Kernel.ZeroPaymentStaysZero | calculators/base_calculator.py:87-91 | with no payment the balance stays 0 at every rate |
| Kernel.ZeroRateIsSumOfPayments | calculators/base_calculator.py:84-91 | at a zero rate the balance is the plain sum of the payments |
| Kernel.GrowSplit | calculators/base_calculator.py:90-91 | compounding m months and then k more is compounding m + k months |
| Kernel.GrowClosedForm | calculators/base_calculator.py:84-91 | the annuity closed form: balance * q == payment * ((1+q)^n - 1) with q the monthly rate |
| Kernel.ClosedFormStep | calculators/base_calculator.py:91 | one month's update preserves the closed-form relation |
| Kernel.GrowFromStart | calculators/etf_calculator.py:203-206 | a starting balance grows by the compound factor alone, independently of the payments |
| Kernel.WithLumpSum | calculators/privatrente_calculator.py:69-79 | a lump sum that is not positive leaves the kernel's value unchanged |
| Kernel.PayoutTax | calculators/riester_calculator.py:119 | the deferred tax on a non-negative capital is non-negative and, at a rate of at most 100 %, at most the capital |
| Dynamics.ContributionsWithDynamics | calculators/dynamics.py:13-36 | one entry per year, numbered from 1, holding the first contribution raised by the growth rate once per earlier year |
| Dynamics.CalculateWithContributionDynamics | calculators/dynamics.py:39-77 | the final capital, the year-end list and the contributions are the dynamics specification; the list has years + 1 entries, starts with the lump sum and ends with the final capital |
| Dynamics.DynamicsLoop | calculators/dynamics.py:59-77 | the year loop, for any number of months per year, yields the same specification values and list shape |
| Dynamics.PayYear | calculators/dynamics.py:68-70 | a year of months at one contribution advances the kernel recurrence and adds one payment per month to the contributions |
| Dynamics.NextYearContribution | calculators/dynamics.py:75 | raising this year's contribution by the growth rate gives next year's |
| Dynamics.DynValuesShape | calculators/dynamics.py:64-72 | the list has years + 1 entries: the lump sum and then every year-end capital |
| Dynamics.NoGrowthContribution | calculators/dynamics.py:31-34 | without growth every year pays the initial contribution |
| Dynamics.NoDynamicsIsKernel | calculators/dynamics.py:66-75 | without growth and lump sum the final capital is the kernel's balance after all months |
| Dynamics.NoDynamicsContributions | calculators/dynamics.py:66-75 | without growth the contributions are months * monthly * years |
| Dynamics.NoDynamicsValuesMatchKernel | calculators/dynamics.py:64-72 | without growth and lump sum the year-end list is the kernel's snapshots behind a leading 0 |
| Dynamics.DynamicsRaisesContributions | calculators/dynamics.py:66-75 | a positive growth rate pays strictly more than the static plan from the second year on |
| Dynamics.AdjustForInflation | calculators/dynamics.py:80-101 | same length; value i is divided by (1 + inflation)^i; index 0 and a zero rate leave values unchanged |
| Dynamics.RealReturn | calculators/dynamics.py:104-122 | the Fisher relation (1 + real)(1 + inflation) == 1 + nominal; zero inflation keeps the nominal return |
| Dynamics.RealReturnExample | calculators/dynamics.py:104-122 | 7 % nominal at 2 % inflation is a real return between 4.8 % and 5 % |
| Dynamics.PensionWithDynamics | calculators/dynamics.py:125-163 | one entry per year: the nominal pension grown by the rate and its value deflated to today's money; the average times the years is the sum of the real values |
| Dynamics.RequiredCapitalWithDynamics | calculators/dynamics.py:166-207 | the loop computes the growing-annuity present value, which does not depend on the unused inflation rate |
| Dynamics.GrowthEqualsReturn | calculators/dynamics.py:196-205 | when the pension grows as fast as the capital earns, the capital times (1 + r) is 12 * pension * years |
| Dynamics.MatchedYearTerm | calculators/dynamics.py:198-203 | with growth equal to return each year's discounted total times (1 + r) is 12 * pension |
| Dynamics.NoGrowthNoReturn | calculators/dynamics.py:196-205 | with neither growth nor return the required capital is 12 * pension * years |
| TaxRate.ZoneRate | utils/tax_calculator.py:21-23 | the first progression zone rises from the entry rate at 17 005 to the top rate at 66 760 |
| TaxRate.IncomeTaxRate | utils/tax_calculator.py:6-27 | between 0 and 45 %; 0 exactly up to the allowance; the entry, linear, top and highest rate in their bands, the highest exactly above 277 825 |
| TaxRate.RetirementTaxRate | utils/tax_calculator.py:30-50 | a rate between 0 and 45 % |
| TaxRate.RetirementRateIsIncomeRate | utils/tax_calculator.py:30-50 | the retirement copy agrees with the income-tax rate on every income |
| TaxRate.ZoneIsContinuous | utils/tax_calculator.py:19-25 | on the closed zone, both ends included, the rate is the linear one, so it joins its neighbours |
| TaxRate.ZoneRateMonotone | utils/tax_calculator.py:23 | the linear zone rises with income |
| TaxRate.IncomeTaxRateMonotone | utils/tax_calculator.py:6-27 | a higher income is never taxed at a lower rate |
| TaxRate.RateJumps | utils/tax_calculator.py:17-27 | the rate jumps by the entry rate just above the allowance and by 3 points just above 277 825 |
| Etf.WithDefaults | calculators/etf_calculator.py:19-34 | the constructor's default TER, flat tax, allowance, order fee, depot fee, spread, lump sum, rebalancing count and dynamics |
| Etf.SaleTax | calculators/etf_calculator.py:123-125 | no tax on a gain within the allowance or a loss; otherwise the flat tax on the excess; never negative at a non-negative rate |
| Etf.Finish | calculators/etf_calculator.py:105-161 | fees come off the value before tax; the value after tax subtracts the sale tax on the gain over the allowance; no state support |
| Etf.Calculate | calculators/etf_calculator.py:65-161 | an error exactly for a static plan with too many rebalancings; the value after tax never exceeds the value before; the amount paid is the static or the dynamics contribution total |
| Etf.LumpSumPaid | calculators/etf_calculator.py:188-190 | the lump sum counted as invested is never negative |
| Etf.YearOfPayments | calculators/etf_calculator.py:203-208 | a year of no months pays nothing; non-negative amounts add up to a non-negative total |
| Etf.SpreadCost | calculators/etf_calculator.py:228-237 | a non-negative spread on a non-negative trade costs at least 0, and a spread of at most 1 costs at most the trade |
| Etf.Simulate | calculators/etf_calculator.py:198-245 | after k years the invested capital is the lump sum plus k years of payments and the depot fees are k yearly fees |
| Etf.RebalancingOutcome | calculators/etf_calculator.py:163-288 | an error exactly when the count reaches the horizon; otherwise the amount paid as given, no state support, and a value after tax never above the value before |
| Etf.SaveMonths | calculators/etf_calculator.py:203-208 | the month loop advances the kernel recurrence and adds one payment and one order fee per month |
| Etf.SpreadEvents | calculators/etf_calculator.py:176-180 | the loop computes the event years int(years / (count + 1) * i) |
| Etf.NoCostProjection | calculators/etf_calculator.py:133-143 | the no-cost comparison is the kernel at the gross return plus the lump sum compounded yearly |
| Etf.SimulateYears | calculators/etf_calculator.py:183-245 | the year loop's variables end equal to the year-by-year specification |
| Etf.SimulateYear | calculators/etf_calculator.py:199-245 | one pass of the year loop is one specification year |
| Etf.RebalanceEvent | calculators/etf_calculator.py:214-243 | the event's statements perform exactly one specification rebalancing |
| Etf.CalculateWithRebalancing | calculators/etf_calculator.py:163-288 | the method returns or raises exactly what the rebalancing specification does |
| Etf.EventYearBounds | calculators/etf_calculator.py:173-180 | with 0 < count < years every event year lies in 1..years-1 |
| Etf.EventPosition | calculators/etf_calculator.py:178-180 | years / (count + 1) * i lies between 1 and years - 1 before truncation |
| Etf.FloorBetween | calculators/etf_calculator.py:180 | truncating a real between 1 and a whole m gives a year in 1..m |
| Etf.EventYearsInRange | calculators/etf_calculator.py:176-180 | exactly count event years, each in 1..years-1, so the final year is never one |
| Etf.FinalYearIsNeverAnEvent | calculators/etf_calculator.py:254-255 | the final sale's `years not in rebalancing_years` always holds, so it always gets the full allowance |
| Etf.RebalanceEffect | calculators/etf_calculator.py:214-243 | an event leaves the invested capital alone; adds one order fee and non-negative taxes; leaves Max(0, left - gain) of a non-negative allowance, so a gain uses it up and a loss raises it above what was left; reinvests the balance after tax and both spreads |
| Etf.SimYearEffect | calculators/etf_calculator.py:198-245 | a year appends its snapshot and adds a year of payments and one depot fee |
| Etf.SimulateSnapshots | calculators/etf_calculator.py:198-245 | after k years there are k snapshots numbered 1..k |
| Etf.OneMoreTerm | calculators/etf_calculator.py:207 | a running sum that grows by the same amount each year is the base plus that amount times the years |
| Etf.YearlyValuesLength | calculators/etf_calculator.py:65-161 | one snapshot per year, or years + 1 plain values on the dynamics path |
| Etf.CostsAgainstNoCostPlan | calculators/etf_calculator.py:146 | on every path the costs are the no-cost projection minus the value before tax |
| Etf.DynamicsPath | calculators/etf_calculator.py:72-80 | with dynamics, the result is the common tail applied to the dynamics projection |
| Etf.StaticPath | calculators/etf_calculator.py:89-103 | without dynamics and rebalancing, the result is the common tail applied to the kernel plus the lump sum |
| Etf.FeesDeductedOneForOne | calculators/etf_calculator.py:105-114 | outside rebalancing the same plan without fees is worth exactly the order and depot fees more |
| Etf.TaxOnlyAboveAllowance | calculators/etf_calculator.py:119-128 | outside rebalancing, at a positive rate, the value after tax equals the value before exactly when the gain stays within the allowance |
| Etf.BasicPlanPaysTwelveThousand | tests/test_calculators.py:19-30 | 100 a month for 10 years pays in 12 000 |
| Etf.ZeroContributionLosesOrderFees | tests/test_calculators.py:34-45 | nothing paid in, yet the value before and after tax is -12 per year, because of the monthly order fee |
| Basisrente.WithDefaults | calculators/basisrente_calculator.py:19-31 | the default deductible share, retirement rate, costs, fee, lump sum and dynamics |
| Basisrente.Refund | calculators/basisrente_calculator.py:91 | the refund is non-negative for non-negative inputs and 0 when nothing is deductible or the rate is 0 |
| Basisrente.Calculate | calculators/basisrente_calculator.py:56-139 | the value before tax and the yearly values are the dynamics projection with dynamics and the kernel plus the lump sum without, at the return net of costs; the costs are the no-cost static plan less that value plus the honorar fee; contributions and refund; net outlay is contributions minus refund; value after tax is the value before tax minus the payout tax plus the refund; no allowances |
| Basisrente.HonorarFeeOnlyInCosts | calculators/basisrente_calculator.py:111 | the fee raises the reported costs one for one and changes no value |
| Basisrente.NoCostProjectionIsStatic | calculators/basisrente_calculator.py:99-111 | costs plus value before tax are the static plan at the gross return plus the fee, whatever the dynamics |
| Basisrente.StaticPlanIsKernel | calculators/basisrente_calculator.py:72-85 | without dynamics or lump sum the value and snapshots are the kernel's at the net return |
| Basisrente.RefundLowersOutlay | tests/test_calculators.py:51-66 | a positive plan at a positive tax rate has a positive tax benefit and an outlay below the contributions |
| Riester.LumpSumShare | calculators/riester_calculator.py:51 | the share is the percentage capped at 30, as a fraction |
| Riester.New | calculators/riester_calculator.py:19-51 | the constructor keeps all nine other arguments unchanged and caps the lump-sum share at 30 % |
| Riester.WithDefaults | calculators/riester_calculator.py:19-31 | the default retirement rate, allowance, costs, deductible maximum and lump-sum share |
| Riester.NetReturn | calculators/riester_calculator.py:56-61 | the return net of costs, replaced by 0.001 when negative; never negative |
| Riester.DeductionSaving | calculators/riester_calculator.py:70-71 | the saving is capped by the deductible maximum and equals contribution times rate below it |
| Riester.AdditionalTaxBenefit | calculators/riester_calculator.py:73-78 | non-negative; allowance plus refund is the better of allowance and deduction saving |
| Riester.MonthlyWithAllowance | calculators/riester_calculator.py:85 | twelve such payments are the yearly contribution plus the allowance |
| Riester.OverTerm | calculators/riester_calculator.py:95-101 | a non-negative yearly amount totals non-negative; nothing over no years |
| Riester.Calculate | calculators/riester_calculator.py:53-146 | growth of contributions plus allowances at the net return; paid, allowances and refunds over the term; value after tax; costs against the gross-return plan |
| Riester.LumpSumShareUnused | calculators/riester_calculator.py:51 | the stored lump-sum share never affects the result |
| Riester.OverTermAdds | calculators/riester_calculator.py:127 | totals over the term add up |
| Riester.OverTermMonotone | calculators/riester_calculator.py:95-101 | a larger yearly amount gives a larger total, strictly over at least a year |
| Riester.BenefitIsBetterOfTwo | calculators/riester_calculator.py:73-78 | the support per year is the better of allowance and deduction saving |
| Riester.BenefitAtLeastBasicAllowance | tests/test_calculators.py:72-85 | with a non-negative children allowance the support is at least the basic allowance every year |
| Riester.ChildrenRaiseBenefit | calculators/riester_calculator.py:67-78 | a larger children allowance never lowers the support, strictly raising it when it beats the deduction |
| Riester.TotalPaidIncludesAllowances | calculators/riester_calculator.py:131 | the net outlay exceeds the result's own net investment by exactly the allowances |
| Riester.TwoChildrenBeatNone | tests/test_calculators.py:87-107 | 100 a month at 42 %: two children's allowance raises the support strictly |
| Privatrente.WithDefaults | calculators/privatrente_calculator.py:28-40 | the default return, rates, costs, fee, lump sum, payout option and retirement age |
| Privatrente.GetErtragsanteil | calculators/privatrente_calculator.py:149-165 | 30 below 50, 15 above 70, the table in between; always 15..30 |
| Privatrente.ErtragsanteilStep | calculators/privatrente_calculator.py:20-26 | one year older never raises the yield share |
| Privatrente.ErtragsanteilNonIncreasing | calculators/privatrente_calculator.py:149-165 | the yield share never rises with the starting age |
| Privatrente.PayoutName | calculators/privatrente_calculator.py:167-172 | "Einmalauszahlung" exactly for the lump-sum option, "Verrentung" otherwise |
| Privatrente.ProductName | calculators/privatrente_calculator.py:135 | the label is "Privatrente (Einmalauszahlung)" exactly for the lump-sum option and "Privatrente (Verrentung)" for every other option |
| Privatrente.LumpSumTax | calculators/privatrente_calculator.py:109-114 | half the gain taxed; non-negative for a gain, negative for a loss at a positive rate |
| Privatrente.AnnuityTax | calculators/privatrente_calculator.py:116-124 | the yield share, in percent, of the whole capital taxed at the retirement rate |
| Privatrente.Calculate | calculators/privatrente_calculator.py:62-147 | kernel plus lump sum at the net return; paid equals gross paid, no support; value after tax minus the option's tax; costs against the gross-return plan plus the fee |
| Privatrente.AnyOtherOptionIsAnnuity | calculators/privatrente_calculator.py:109-124 | any option other than "lump_sum" gives the annuity's result |
| Privatrente.LumpSumLossIsCredited | calculators/privatrente_calculator.py:107-114 | after a loss the lump-sum payout's value after tax exceeds the value before |
| Privatrente.AnnuityTaxBounds | calculators/privatrente_calculator.py:118-124 | between 15 % and 30 % of the capital is taxed |
| Privatrente.AnnuityTaxMonotone | calculators/privatrente_calculator.py:124 | a smaller yield share never raises the tax |
| Privatrente.AnnuityTaxFallsWithAge | calculators/privatrente_calculator.py:118-124 | a later start never raises the annuity tax |
| Privatrente.LaterAnnuityKeepsMore | calculators/privatrente_calculator.py:116-128 | a later start keeps at least as much after tax |
| Comparison.WithValue | calculators/comparison.py:16 | the results of one value are a subsequence, never longer than the input |
| Comparison.WithValueAppend | calculators/comparison.py:16 | the results of one value in a concatenation are those of each part, in order |
| Comparison.WithValueNone | calculators/comparison.py:16 | no result has a value all results stay below |
| Comparison.SortedCons | calculators/comparison.py:16 | a head bounding a sorted tail gives a sorted list |
| Comparison.InsertAtMost | calculators/comparison.py:16 | inserting keeps a common upper bound |
| Comparison.InsertKeepsOrder | calculators/comparison.py:16 | inserting into a list sorted highest first keeps it sorted |
| Comparison.InsertAddsOne | calculators/comparison.py:16 | inserting adds exactly the new result |
| Comparison.SortedTail | calculators/comparison.py:16 | the tail of a sorted list is sorted and bounded by the head |
| Comparison.InsertInFront | calculators/comparison.py:16 | a result above the head goes in front without disturbing the order of equal values |
| Comparison.InsertBehindHead | calculators/comparison.py:16 | passing the head keeps the order among equal values |
| Comparison.InsertIsStable | calculators/comparison.py:16 | a new result goes behind every earlier result of its value |
| Comparison.SortIsSorted | calculators/comparison.py:16 | the ranking is highest value first |
| Comparison.SortIsPermutation | calculators/comparison.py:16 | the ranking is a permutation of the input |
| Comparison.SortIsStable | calculators/comparison.py:16 | results of equal value keep their input order, as Python's stable sort does |
| Comparison.NewComparison | calculators/comparison.py:11-16 | the stored results are sorted, a permutation of the input, and stable |
| Comparison.Recommended | calculators/comparison.py:78-87 | the recommendation is an input of the highest value, the first such input |
| Comparison.Shortfalls | calculators/comparison.py:40-47 | each later result's shortfall plus its value is the best value; never negative when ranked |
| Comparison.ShortfallsGrow | calculators/comparison.py:44-46 | the shortfalls of a built comparison grow down the ranking |
| Withdrawal.AfterYear | calculators/withdrawal_strategy.py:75 | a zero rate changes nothing; a non-negative amount stays non-negative above -100 % |
| Withdrawal.AfterMonth | calculators/withdrawal_strategy.py:187 | a zero return changes nothing; non-negative stays non-negative |
| Withdrawal.Compounded | calculators/withdrawal_strategy.py:249 | zero years leave the amount; non-negative stays non-negative |
| Withdrawal.SuccessRate | calculators/withdrawal_strategy.py:79-83 | 1 when never depleted, otherwise the depletion year as a share of the horizon |
| Withdrawal.SuccessRateRange | calculators/withdrawal_strategy.py:195-199 | a depletion within the term gives a rate in (0, 1], full exactly when never depleted or depleted in the last year |
| Withdrawal.AverageMonthly | calculators/withdrawal_strategy.py:91 | the average times 12 times the years is the total |
| Withdrawal.TotalOfAppend | calculators/withdrawal_strategy.py:72 | appending a row adds its withdrawal to the total |
| Withdrawal.FourPercentRule | calculators/withdrawal_strategy.py:28-94 | the loop returns the 4 % rule's specification result |
| Withdrawal.FourPercentGuarantees | calculators/withdrawal_strategy.py:28-94 | one row per year, numbered from 1; total is the sum of the rows; remaining capital non-negative; success 1 exactly when never depleted |
| Withdrawal.FourRunShape | calculators/withdrawal_strategy.py:57-77 | one row per year, and the depletion year is a year that has passed |
| Withdrawal.FourRunTotal | calculators/withdrawal_strategy.py:72 | the running total is the sum of the withdrawal column |
| Withdrawal.FourTargetStep | calculators/withdrawal_strategy.py:59-60 | the target is raised by inflation from the second year on |
| Withdrawal.FourTargetClosedForm | calculators/withdrawal_strategy.py:53-60 | the target is 4 % of the capital times (1 + inflation)^(year-1) when adjusted, 4 % otherwise |
| Withdrawal.CompoundedGrows | calculators/withdrawal_strategy.py:249 | a non-negative amount at a non-negative rate never shrinks |
| Withdrawal.CompoundedStep | calculators/withdrawal_strategy.py:259 | one more year compounds once more |
| Withdrawal.FourNeverOverdraws | calculators/withdrawal_strategy.py:63-75 | the capital never turns negative, and each year withdraws the target or what is left, nothing once empty |
| Withdrawal.ZeroRows | calculators/withdrawal_strategy.py:66 | n rows (year, 0, 0) numbered from the given year |
| Withdrawal.FourEmptyYear | calculators/withdrawal_strategy.py:63-67 | a year without capital only appends a zero row and may set the depletion year |
| Withdrawal.FourDepletionIsFinal | calculators/withdrawal_strategy.py:63-67 | once empty, capital and total stay, later rows are zero, the depletion year is set once |
| Withdrawal.ShareOf | calculators/withdrawal_strategy.py:125 | a share between 0 and 1 withdraws between 0 and the capital |
| Withdrawal.DynamicPercentageWithdrawal | calculators/withdrawal_strategy.py:97-143 | the loop returns the dynamic strategy's specification result |
| Withdrawal.DynamicRemainingStep | calculators/withdrawal_strategy.py:125-130 | one year of the strategy advances the closed form by one power |
| Withdrawal.DynamicClosedForm | calculators/withdrawal_strategy.py:123-132 | the capital after k years is initial * ((1 - p)(1 + r))^k |
| Withdrawal.DynamicRemainingPositive | calculators/withdrawal_strategy.py:141 | the closed form stays positive for a positive capital, a share below 1 and a return above -100 % |
| Withdrawal.NeverDepleted | calculators/withdrawal_strategy.py:106-107 | under those conditions the capital is positive after any number of years |
| Withdrawal.DynamicRunShape | calculators/withdrawal_strategy.py:123-132 | one row per year, numbered from 1 |
| Withdrawal.DynamicRunTotal | calculators/withdrawal_strategy.py:127 | the total is the sum of the rows |
| Withdrawal.DynamicWithdrawalIsShare | calculators/withdrawal_strategy.py:125-127 | each year withdraws the share of the capital at its start |
| Withdrawal.DynamicGuarantees | calculators/withdrawal_strategy.py:134-143 | one row per year summing to the total; remainder is the closed form; never depleted, success 1; the average is the monthly mean |
| Withdrawal.RanOutStays | calculators/withdrawal_strategy.py:176-179 | once a month finds the capital empty, the rest of the year changes nothing |
| Withdrawal.PayPensionYear | calculators/withdrawal_strategy.py:174-187 | the month loop yields the months' capital and withdrawal and sets the depletion year once |
| Withdrawal.StoppedStays | calculators/withdrawal_strategy.py:192-193 | after the loop's break, later years change nothing |
| Withdrawal.PensionYears | calculators/withdrawal_strategy.py:166-193 | the year loop ends in the fixed-pension specification state |
| Withdrawal.FixedMonthlyPension | calculators/withdrawal_strategy.py:146-210 | the method returns the fixed-pension specification result |
| Withdrawal.Pensions | calculators/withdrawal_strategy.py:168 | n non-negative pensions total non-negative; none total 0 |
| Withdrawal.PensionsStep | calculators/withdrawal_strategy.py:184 | one more pension adds the pension |
| Withdrawal.PensionMonthsCapped | calculators/withdrawal_strategy.py:182 | no month pays more than the pension |
| Withdrawal.PensionMonthsNonNegative | calculators/withdrawal_strategy.py:182-187 | a non-negative pension pays non-negatively; a non-negative capital stays non-negative |
| Withdrawal.PensionMonthsEmpty | calculators/withdrawal_strategy.py:176-179 | a year that starts empty pays nothing and runs out |
| Withdrawal.PensionMonthsConserve | calculators/withdrawal_strategy.py:182-187 | without a return, remainder plus paid is the starting capital |
| Withdrawal.FixedRunShape | calculators/withdrawal_strategy.py:172-193 | at most one row per year, a full table unless stopped, rows numbered from 1 |
| Withdrawal.FixedRunTotal | calculators/withdrawal_strategy.py:189-190 | the total is the sum of the rows |
| Withdrawal.FixedNonNegative | calculators/withdrawal_strategy.py:182-187 | capital and total stay non-negative |
| Withdrawal.FixedNeverOverdraws | calculators/withdrawal_strategy.py:182 | no year pays more than a year of pensions |
| Withdrawal.FixedGuarantees | calculators/withdrawal_strategy.py:195-210 | rows numbered, summing to the total; non-negative remainder; the pension as average; depletion within the term; success 1 exactly when undepleted or depleted in the last year |
| Withdrawal.FixedDepletionInTerm | calculators/withdrawal_strategy.py:176-178 | the recorded depletion year lies within the term |
| Withdrawal.ExactYearMonths | calculators/withdrawal_strategy.py:175-187 | a capital of exactly n pensions without return pays the pension in each of its n months |
| Withdrawal.LastMonthDepletionNotRecorded | calculators/withdrawal_strategy.py:175-199 | running out in the last month of year 1 records no depletion and reports full success with one row |
| Withdrawal.Resolve | calculators/withdrawal_strategy.py:213-219 | a name the function binds itself is looked up in its own scope, before the module's |
| Withdrawal.CallAsFixedPension | calculators/withdrawal_strategy.py:240-245 | the call returns exactly when it reaches the fixed-pension strategy, and then returns that strategy's result; calling a number raises a TypeError |
| Withdrawal.HybridWithdrawal | calculators/withdrawal_strategy.py:213-245 | as written, the parameter `fixed_monthly_pension` hides the module function, so the call raises a TypeError on every input |
| Withdrawal.ShadowedCallRaises | calculators/withdrawal_strategy.py:215-245 | with the parameters in scope the call raises; resolved in the module alone it returns the fixed pension's result |
| Withdrawal.HybridWithdrawalIntended | calculators/withdrawal_strategy.py:236-265 | corrected so that the call reaches the module function: the method returns the intended hybrid result |
| Withdrawal.AddReserve | calculators/withdrawal_strategy.py:257-263 | the row loop adds the reserve compounded to each row's year |
| Withdrawal.WithReserveRows | calculators/withdrawal_strategy.py:258-261 | only the capital column changes, by the reserve compounded to that year |
| Withdrawal.WithReserveTotal | calculators/withdrawal_strategy.py:258-261 | the withdrawal column is untouched, so the rows sum to the same total |
| Withdrawal.ZeroReserveRows | calculators/withdrawal_strategy.py:258-261 | a zero reserve leaves the rows as they are |
| Withdrawal.HybridGuarantees | calculators/withdrawal_strategy.py:236-265 | of the intended hybrid result: total, depletion, success and average are the fixed pension's on the capital less the reserve; the remainder adds the compounded reserve |
| Withdrawal.ZeroReserveIsFixedPension | calculators/withdrawal_strategy.py:236-265 | without a reserve the intended hybrid is the fixed pension under another name |
| Withdrawal.ReserveIsKept | calculators/withdrawal_strategy.py:248-254 | at a non-negative return the intended hybrid's remainder is at least the reserve set aside |
| Withdrawal.WithdrawalRate | calculators/withdrawal_strategy.py:317 | the rate times the capital is 1200 times the monthly pension |
| Withdrawal.CalculateSafeWithdrawalRate | calculators/withdrawal_strategy.py:268-323 | the method returns the report built from the three strategies |
| Withdrawal.SafeRateGuarantees | calculators/withdrawal_strategy.py:315-323 | the desired rate; depletion years within the term, the 4 % rule's before the last year; the dynamic remainder's closed form, positive for a positive capital |
| RiskProfiling.HorizonModifier | ui/risk_profiling.py:99-106 | between -1 and 1; -1 exactly below 5 years, 1 exactly from 20 |
| RiskProfiling.AgeModifier | ui/risk_profiling.py:109-118 | between -0.5 and 0.5; 0.5 exactly below 30, -0.5 exactly from 60 |
| RiskProfiling.HorizonModifierMonotone | ui/risk_profiling.py:99-106 | a longer horizon never lowers the modifier |
| RiskProfiling.AgeModifierAntitone | ui/risk_profiling.py:109-118 | being older never raises the modifier |
| RiskProfiling.Capacity | ui/risk_profiling.py:124 | clamped to 1..5, and the raw sum when that lies within |
| RiskProfiling.TotalScore | ui/risk_profiling.py:121-125 | the weighted score with loss tolerance 60 %, knowledge and experience 30 %, capacity 10 % |
| RiskProfiling.ClassForScore | ui/risk_profiling.py:128-137 | a class 1..5 whose half-open band (c - 0.5, c + 0.5] holds the score, clamped at the ends |
| RiskProfiling.ClassForScoreMonotone | ui/risk_profiling.py:128-137 | a higher score never gives a lower class |
| RiskProfiling.RiskClass | ui/risk_profiling.py:71-158 | a class 1..5 |
| RiskProfiling.ScoreOnAnswers | ui/risk_profiling.py:81-84 | on the questionnaire's answers the score lies in 1..4.7, and class 5 needs the top loss tolerance |
| RiskProfiling.RiskClassMonotone | ui/risk_profiling.py:92-137 | more knowledge, experience, tolerance or horizon never lowers the class; being older never raises it |
| UserProfiling.StatePension | ui/user_profiling.py:183-188 | 48 % of the salary after 45 years, pro rata; non-negative for non-negative inputs |
| UserProfiling.RequiredMonthlySavings | ui/user_profiling.py:208-218 | nothing with no months left; positive for a positive capital |
| UserProfiling.CalculatePensionGap | ui/user_profiling.py:161-231 | household salary, state pensions, 60 % net, 70 % target, gap plus state pension is the target, capital at 4 %, monthly figures, the saving rate |
| UserProfiling.SavingsReachCapital | ui/user_profiling.py:210-216 | the saving rate, paid monthly at 5 % a year, grows to exactly the required capital |
| UserProfiling.PartnerWithoutIncomeChangesNothing | ui/user_profiling.py:180-188 | being married to a partner without income changes no figure |
| UserProfiling.LongerCareerNarrowsGap | ui/user_profiling.py:183-202 | more years until retirement keep the target and never widen the gap |
| UserProfiling.StatePensionGrows | ui/user_profiling.py:183 | more years never lower the state pension of a non-negative salary |
| UserProfiling.Allowances | ui/user_profiling.py:351-354 | 175 plus 300 per child |
| UserProfiling.RiesterOptimal | ui/user_profiling.py:334-375 | non-negative; twelve times it fills the smaller of 2 100 and 4 % of the salary (2 100 above 50 000) less the allowances |
| UserProfiling.RiesterOptimalGrowsWithSalary | ui/user_profiling.py:357-370 | a higher salary never lowers the optimum |
| UserProfiling.RiesterOptimalFallsWithChildren | ui/user_profiling.py:351-370 | more children never raise the optimum |
| UserProfiling.OptimumFillsRiesterTarget | ui/user_profiling.py:360-375 | fed into the Riester calculator, a positive optimum plus allowances fills exactly the targeted contribution |

## Left out

- Printing and formatting are left out: `print_summary`'s output and its percentage column, `print_yearly_comparison`, the recommendation's wording, and the f-string strategy names with their formatted numbers. The shortfalls, the recommended result and the labels without numbers are modelled.
- The risk class's explanation text is not modelled. It is built from a display table and changes no figure.
- `min_contribution` in `calculate_riester_optimal` is left out. It is computed and never used.
- `annual_withdrawal` and `desired_annual` in `fixed_monthly_pension` are computed but read nowhere, so they are left out. `desired_annual` is used only inside the desired rate.
- Withdrawal.HybridWithdrawalIntended: the source updates the returned record's fields in place. The model builds the updated record as a new value, so aliasing of the inner result is not modelled.
- Division by zero, where the source would raise, is excluded by a requirement:
  - the 4 % rule, the dynamic strategy and the safe-rate report need at least one withdrawal year;
  - the safe-rate report needs a capital different from 0;
  - `Dynamics.AdjustForInflation` needs 1 + inflation different from 0 when there are at least two values;
  - `Dynamics.RealReturn` and `Dynamics.PensionWithDynamics` need 1 + inflation different from 0;
  - `Dynamics.PensionWithDynamics` also needs at least one year, because the average divides by the number of months;
  - `Dynamics.RequiredCapitalWithDynamics` needs 1 + return different from 0 when there is at least one year; a horizon of no years is admitted and gives 0;
  - `Comparison.Recommended` and `Comparison.Shortfalls` need at least one result.
- Python floats are modelled as exact reals. Rounding and overflow of IEEE arithmetic are not modelled.
- Year counts are natural numbers, so negative terms are not modelled. The saver profile's years until retirement is an integer and may be negative.
- Withdrawal.PensionMonthsCapped and Withdrawal.FixedNeverOverdraws require a non-negative pension. A negative pension is a deposit, which the source does not bound.
- Withdrawal.SafeRateGuarantees and Withdrawal.DynamicGuarantees state the rate and the average through `WithdrawalRate` and `AverageMonthly`. Those functions state their own product relations.
- The Streamlit user interface, the other questionnaire and profile functions, the learning and quick-check modes and the `__main__` demonstrations are not part of this model.
- The ETF and Basisrente `inflation_rate` arguments are stored but not used by `calculate`. They are kept as fields only.

## Findings

| source | as written | input that shows it | evidently intended | confidence | as-written member | corrected member |
|---|---|---|---|---|---|---|
| calculators/withdrawal_strategy.py:215-241 | the parameter `fixed_monthly_pension` shadows the module function of that name, so `fixed_monthly_pension(...)` calls a float and raises TypeError | any call, for example capital 500000, pension 1800, reserve 0.2, 30 years | call the module's fixed-pension strategy on the capital less the reserve, then add the compounded reserve | high, not executed | Withdrawal.HybridWithdrawal | Withdrawal.HybridWithdrawalIntended |
