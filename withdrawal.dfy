/**
 * Withdrawal strategies for the retirement phase
 * (calculators/withdrawal_strategy.py): the 4 % rule, a fixed share of the
 * remaining capital, a fixed monthly pension, a pension plus an untouched
 * reserve, and a report that runs three of them side by side.
 *
 * Each strategy is a method with the source's loops, proved equal to a
 * recursive specification of its year-by-year state; the properties the
 * strategies promise are lemmas about those specifications.
 */
module Withdrawal {
  import opened RealMath
  import Kernel

  const FourPercentName: string := "4%-Regel (Trinity Study)"
  const DynamicName: string := "Dynamische Entnahme"
  const FixedName: string := "Feste Rente"
  const HybridName: string := "Hybrid"

  /** One row of the withdrawal table: (year, withdrawal in that year, capital at its end). */
  type Row = (nat, real, real)

  /** What every strategy returns. */
  datatype WithdrawalResult = WithdrawalResult(
    strategyName: string,
    initialCapital: real,
    totalWithdrawals: real,
    remainingCapital: real,
    yearlyWithdrawals: seq<Row>,
    avgMonthlyWithdrawal: real,
    capitalDepletedYear: int,
    successRate: real)

  /** An amount after one year at the given rate. */
  function AfterYear(amount: real, rate: real): (r: real)
    ensures rate == 0.0 ==> r == amount
    ensures amount >= 0.0 && rate >= -1.0 ==> r >= 0.0
  {
    amount * (1.0 + rate)
  }

  /** An amount after one month at a twelfth of the annual rate. */
  function AfterMonth(amount: real, annualReturn: real): (r: real)
    ensures annualReturn == 0.0 ==> r == amount
    ensures amount >= 0.0 && annualReturn >= -12.0 ==> r >= 0.0
  {
    var factor := 1.0 + annualReturn / 12.0;
    assert annualReturn >= -12.0 ==> factor >= 0.0;
    amount * factor
  }

  /** An amount after `years` years at the given rate, compounded yearly. */
  function Compounded(amount: real, rate: real, years: nat): (r: real)
    ensures years == 0 ==> r == amount
    ensures amount >= 0.0 && rate >= -1.0 ==> r >= 0.0
  {
    assert rate >= -1.0 ==> Pow(1.0 + rate, years) >= 0.0 by {
      if rate >= -1.0 {
        PowNonNegative(1.0 + rate, years);
      }
    }
    amount * Pow(1.0 + rate, years)
  }

  /** 1.0 when the capital was never depleted, else the depletion year as a share of the horizon. */
  function SuccessRate(depletedYear: int, years: nat): (rate: real)
    requires depletedYear == 0 || years >= 1
    ensures depletedYear == 0 ==> rate == 1.0
    ensures depletedYear != 0 ==> rate * (years as real) == depletedYear as real
    ensures 0 < depletedYear < years ==> 0.0 < rate < 1.0
  {
    if depletedYear == 0 then 1.0 else (depletedYear as real) / (years as real)
  }

  /**
   * A depletion year within the term gives a rate in (0, 1], and the rate is
   * full exactly when nothing was depleted or the depletion fell in the last year.
   */
  lemma SuccessRateRange(depletedYear: int, years: nat)
    requires 0 <= depletedYear <= years
    ensures 0.0 < SuccessRate(depletedYear, years) <= 1.0
    ensures SuccessRate(depletedYear, years) == 1.0 <==> depletedYear == 0 || depletedYear == years
  {
    if depletedYear != 0 {
      var rate := SuccessRate(depletedYear, years);
      assert rate * (years as real) == depletedYear as real;
      assert rate == 1.0 ==> depletedYear == years;
      assert depletedYear < years ==> rate < 1.0;
    }
  }

  /** The average monthly withdrawal: the total spread over the horizon's months. */
  function AverageMonthly(total: real, years: nat): (avg: real)
    requires years >= 1
    ensures avg * 12.0 * (years as real) == total
  {
    (total / (years as real)) / 12.0
  }

  /** The sum of the withdrawal column. */
  function TotalOf(rows: seq<Row>): real
    decreases |rows|
  {
    if |rows| == 0 then 0.0 else TotalOf(rows[..|rows| - 1]) + rows[|rows| - 1].1
  }

  lemma TotalOfAppend(rows: seq<Row>, row: Row)
    ensures TotalOf(rows + [row]) == TotalOf(rows) + row.1
  {
    assert (rows + [row])[..|rows|] == rows;
  }

  /** Rows numbered `first`, `first + 1`, ... in order. */
  ghost predicate Numbered(rows: seq<Row>, first: nat)
  {
    forall i :: 0 <= i < |rows| ==> rows[i].0 == first + i
  }

  // ---------------------------------------------------------------------
  // The 4 % rule
  // ---------------------------------------------------------------------

  /** The loop variables of `four_percent_rule` after some years. */
  datatype FourState = FourState(capital: real, target: real, total: real, depletedYear: int, rows: seq<Row>)

  /**
   * One year of the 4 % rule: adjust the target for inflation from the second
   * year on; with no capital left record the depletion (once) and a zero row;
   * otherwise withdraw the target or what is left, and grow the rest.
   */
  function FourYear(s: FourState, year: nat, annualReturn: real, annualInflation: real, adjust: bool): FourState
  {
    var target := if adjust && year > 1 then AfterYear(s.target, annualInflation) else s.target;
    if s.capital <= 0.0 then
      FourState(s.capital, target, s.total,
                if s.depletedYear == 0 then year - 1 else s.depletedYear,
                s.rows + [(year, 0.0, 0.0)])
    else
      var withdrawal := Min(target, s.capital);
      var capital := AfterYear(s.capital - withdrawal, annualReturn);
      FourState(capital, target, s.total + withdrawal, s.depletedYear, s.rows + [(year, withdrawal, capital)])
  }

  /** The state after the first `k` years. */
  function FourRun(initialCapital: real, annualReturn: real, annualInflation: real, adjust: bool, k: nat): FourState
    decreases k
  {
    if k == 0 then FourState(initialCapital, initialCapital * 0.04, 0.0, 0, [])
    else FourYear(FourRun(initialCapital, annualReturn, annualInflation, adjust, k - 1), k, annualReturn, annualInflation, adjust)
  }

  /** What `four_percent_rule` returns. */
  function FourPercentResult(initialCapital: real, withdrawalYears: nat, annualReturn: real,
                             annualInflation: real, adjust: bool): WithdrawalResult
    requires withdrawalYears >= 1
  {
    var s := FourRun(initialCapital, annualReturn, annualInflation, adjust, withdrawalYears);
    WithdrawalResult(FourPercentName, initialCapital, s.total, Max(0.0, s.capital), s.rows,
                     AverageMonthly(s.total, withdrawalYears), s.depletedYear, SuccessRate(s.depletedYear, withdrawalYears))
  }

  /** `four_percent_rule`. */
  method FourPercentRule(initialCapital: real, withdrawalYears: nat, annualReturn: real,
                         annualInflation: real, withInflationAdjustment: bool)
    returns (result: WithdrawalResult)
    requires withdrawalYears >= 1
    ensures result == FourPercentResult(initialCapital, withdrawalYears, annualReturn, annualInflation, withInflationAdjustment)
  {
    var yearlyWithdrawals: seq<Row> := [];
    var currentCapital := initialCapital;
    var annualWithdrawal := initialCapital * 0.04;
    var totalWithdrawals := 0.0;
    var capitalDepletedYear := 0;
    for year := 1 to withdrawalYears + 1
      invariant FourState(currentCapital, annualWithdrawal, totalWithdrawals, capitalDepletedYear, yearlyWithdrawals)
             == FourRun(initialCapital, annualReturn, annualInflation, withInflationAdjustment, year - 1)
    {
      if withInflationAdjustment && year > 1 {
        annualWithdrawal := AfterYear(annualWithdrawal, annualInflation);
      }
      if currentCapital <= 0.0 {
        if capitalDepletedYear == 0 {
          capitalDepletedYear := year - 1;
        }
        yearlyWithdrawals := yearlyWithdrawals + [(year, 0.0, 0.0)];
        continue;
      }
      var actualWithdrawal := Min(annualWithdrawal, currentCapital);
      currentCapital := currentCapital - actualWithdrawal;
      totalWithdrawals := totalWithdrawals + actualWithdrawal;
      currentCapital := AfterYear(currentCapital, annualReturn);
      yearlyWithdrawals := yearlyWithdrawals + [(year, actualWithdrawal, currentCapital)];
    }
    var successRate := if capitalDepletedYear == 0 then 1.0 else (capitalDepletedYear as real) / (withdrawalYears as real);
    result := WithdrawalResult(FourPercentName, initialCapital, totalWithdrawals, Max(0.0, currentCapital),
                               yearlyWithdrawals, (totalWithdrawals / (withdrawalYears as real)) / 12.0,
                               capitalDepletedYear, successRate);
  }

  /**
   * What the 4 % rule guarantees: one row per year, a total that is the sum
   * of the rows, a remaining capital that is never negative, and a success
   * rate of 1 exactly when the capital was never depleted, otherwise the
   * share of the horizon it lasted.
   */
  lemma FourPercentGuarantees(initialCapital: real, withdrawalYears: nat, annualReturn: real,
                              annualInflation: real, adjust: bool)
    requires withdrawalYears >= 1
    ensures var r := FourPercentResult(initialCapital, withdrawalYears, annualReturn, annualInflation, adjust);
      && |r.yearlyWithdrawals| == withdrawalYears
      && Numbered(r.yearlyWithdrawals, 1)
      && r.totalWithdrawals == TotalOf(r.yearlyWithdrawals)
      && r.remainingCapital >= 0.0
      && (r.successRate == 1.0 <==> r.capitalDepletedYear == 0)
      && 0.0 < r.successRate <= 1.0
  {
    FourRunShape(initialCapital, annualReturn, annualInflation, adjust, withdrawalYears);
    FourRunTotal(initialCapital, annualReturn, annualInflation, adjust, withdrawalYears);
  }

  /**
   * The table has one row per year, numbered from 1, and the depletion year
   * is a year that has passed: 0 <= depletedYear < k.
   */
  lemma {:induction false} FourRunShape(initialCapital: real, annualReturn: real, annualInflation: real, adjust: bool, k: nat)
    ensures |FourRun(initialCapital, annualReturn, annualInflation, adjust, k).rows| == k
    ensures Numbered(FourRun(initialCapital, annualReturn, annualInflation, adjust, k).rows, 1)
    ensures 0 <= FourRun(initialCapital, annualReturn, annualInflation, adjust, k).depletedYear
    ensures k >= 1 ==> FourRun(initialCapital, annualReturn, annualInflation, adjust, k).depletedYear < k
  {
    if k > 0 {
      FourRunShape(initialCapital, annualReturn, annualInflation, adjust, k - 1);
    }
  }

  /** The running total is the sum of the withdrawal column. */
  lemma {:induction false} FourRunTotal(initialCapital: real, annualReturn: real, annualInflation: real, adjust: bool, k: nat)
    ensures FourRun(initialCapital, annualReturn, annualInflation, adjust, k).total
         == TotalOf(FourRun(initialCapital, annualReturn, annualInflation, adjust, k).rows)
  {
    if k > 0 {
      var s := FourRun(initialCapital, annualReturn, annualInflation, adjust, k - 1);
      FourRunTotal(initialCapital, annualReturn, annualInflation, adjust, k - 1);
      var t := FourYear(s, k, annualReturn, annualInflation, adjust);
      TotalOfAppend(s.rows, t.rows[|s.rows|]);
      assert t.rows == s.rows + [t.rows[|s.rows|]];
    }
  }

  /** The target of year k + 1: adjusted for inflation from the second year on. */
  lemma FourTargetStep(initialCapital: real, annualReturn: real, annualInflation: real, adjust: bool, k: nat)
    ensures FourRun(initialCapital, annualReturn, annualInflation, adjust, k + 1).target
         == if adjust && k >= 1 then AfterYear(FourRun(initialCapital, annualReturn, annualInflation, adjust, k).target, annualInflation)
            else FourRun(initialCapital, annualReturn, annualInflation, adjust, k).target
  {
  }

  /**
   * The target starts at 4 % of the initial capital and, with the inflation
   * adjustment, grows by (1 + inflation) at the start of every year after the
   * first, whether or not any capital is left.
   */
  lemma {:induction false} FourTargetClosedForm(initialCapital: real, annualReturn: real, annualInflation: real, adjust: bool, k: nat)
    requires k >= 1
    ensures adjust ==> (FourRun(initialCapital, annualReturn, annualInflation, adjust, k).target
                        == Compounded(initialCapital * 0.04, annualInflation, k - 1))
    ensures !adjust ==> FourRun(initialCapital, annualReturn, annualInflation, adjust, k).target == initialCapital * 0.04
  {
    if k > 1 {
      FourTargetClosedForm(initialCapital, annualReturn, annualInflation, adjust, k - 1);
      FourTargetStep(initialCapital, annualReturn, annualInflation, adjust, k - 1);
      if adjust {
        CompoundedStep(initialCapital * 0.04, annualInflation, k - 2);
      }
    }
  }

  /** A non-negative amount at a non-negative rate never shrinks. */
  lemma CompoundedGrows(amount: real, rate: real, years: nat)
    requires amount >= 0.0 && rate >= 0.0
    ensures Compounded(amount, rate, years) >= amount
  {
    PowAtLeastOne(1.0 + rate, years);
    var p := Pow(1.0 + rate, years);
    assert amount * p >= amount * 1.0;
  }

  /** One more year at `rate` on a compounded amount compounds it once more. */
  lemma CompoundedStep(amount: real, rate: real, n: nat)
    ensures AfterYear(Compounded(amount, rate, n), rate) == Compounded(amount, rate, n + 1)
  {
    var p := Pow(1.0 + rate, n);
    assert Pow(1.0 + rate, n + 1) == (1.0 + rate) * p;
    assert (amount * p) * (1.0 + rate) == amount * ((1.0 + rate) * p);
  }

  /**
   * Each year withdraws the target, or what is left when that is less, and
   * nothing once the capital is gone; so with a non-negative start and a
   * return of at least -100 % the capital never becomes negative.
   */
  lemma {:induction false} FourNeverOverdraws(initialCapital: real, annualReturn: real, annualInflation: real, adjust: bool, k: nat)
    requires initialCapital >= 0.0 && annualReturn >= -1.0
    ensures FourRun(initialCapital, annualReturn, annualInflation, adjust, k).capital >= 0.0
    ensures k >= 1 ==>
      var before := FourRun(initialCapital, annualReturn, annualInflation, adjust, k - 1);
      var after := FourRun(initialCapital, annualReturn, annualInflation, adjust, k);
      after.total - before.total == (if before.capital <= 0.0 then 0.0 else Min(after.target, before.capital))
  {
    if k > 0 {
      FourNeverOverdraws(initialCapital, annualReturn, annualInflation, adjust, k - 1);
    }
  }

  /** `n` zero rows numbered from `first`. */
  function ZeroRows(first: nat, n: nat): (rows: seq<Row>)
    ensures |rows| == n
    ensures forall i :: 0 <= i < n ==> rows[i] == (first + i, 0.0, 0.0)
  {
    if n == 0 then [] else ZeroRows(first, n - 1) + [(first + n - 1, 0.0, 0.0)]
  }

  /** A year that starts without capital only appends a zero row and may set the depletion year. */
  lemma FourEmptyYear(initialCapital: real, annualReturn: real, annualInflation: real, adjust: bool, k: nat)
    requires FourRun(initialCapital, annualReturn, annualInflation, adjust, k).capital <= 0.0
    ensures var s := FourRun(initialCapital, annualReturn, annualInflation, adjust, k);
            var t := FourRun(initialCapital, annualReturn, annualInflation, adjust, k + 1);
      && t.capital == s.capital && t.total == s.total
      && t.rows == s.rows + [(k + 1, 0.0, 0.0)]
      && t.depletedYear == if s.depletedYear == 0 then k else s.depletedYear
  {
  }

  /**
   * Depletion is final: once a year starts without capital, the capital and
   * the total stay as they are, every later row is (year, 0, 0), and the
   * depletion year, if not already set, becomes the last year that had capital.
   */
  lemma {:induction false} FourDepletionIsFinal(initialCapital: real, annualReturn: real, annualInflation: real,
                                                adjust: bool, k: nat, j: nat)
    requires FourRun(initialCapital, annualReturn, annualInflation, adjust, k).capital <= 0.0
    ensures var s := FourRun(initialCapital, annualReturn, annualInflation, adjust, k);
            var t := FourRun(initialCapital, annualReturn, annualInflation, adjust, k + j);
      && t.capital == s.capital && t.total == s.total
      && t.rows == s.rows + ZeroRows(k + 1, j)
      && (k >= 1 && j >= 1 ==> t.depletedYear == if s.depletedYear == 0 then k else s.depletedYear)
    decreases j
  {
    if j > 0 {
      FourDepletionIsFinal(initialCapital, annualReturn, annualInflation, adjust, k, j - 1);
      var s := FourRun(initialCapital, annualReturn, annualInflation, adjust, k);
      var u := FourRun(initialCapital, annualReturn, annualInflation, adjust, k + j - 1);
      FourEmptyYear(initialCapital, annualReturn, annualInflation, adjust, k + j - 1);
      assert s.rows + ZeroRows(k + 1, j) == (s.rows + ZeroRows(k + 1, j - 1)) + [(k + j, 0.0, 0.0)];
    }
  }

  // ---------------------------------------------------------------------
  // A fixed share of the current capital
  // ---------------------------------------------------------------------

  /** The loop variables of `dynamic_percentage_withdrawal` after some years. */
  datatype DynamicState = DynamicState(capital: real, total: real, rows: seq<Row>)

  /** The year's withdrawal: the given share of the current capital. */
  function ShareOf(capital: real, percentage: real): (w: real)
    ensures capital >= 0.0 && 0.0 <= percentage <= 1.0 ==> 0.0 <= w <= capital
  {
    capital * percentage
  }

  /** One year: withdraw the share of the current capital, then grow the rest. */
  function DynamicYear(s: DynamicState, year: nat, percentage: real, annualReturn: real): DynamicState
  {
    var withdrawal := ShareOf(s.capital, percentage);
    var capital := AfterYear(s.capital - withdrawal, annualReturn);
    DynamicState(capital, s.total + withdrawal, s.rows + [(year, withdrawal, capital)])
  }

  function DynamicRun(initialCapital: real, percentage: real, annualReturn: real, k: nat): DynamicState
    decreases k
  {
    if k == 0 then DynamicState(initialCapital, 0.0, [])
    else DynamicYear(DynamicRun(initialCapital, percentage, annualReturn, k - 1), k, percentage, annualReturn)
  }

  /** What `dynamic_percentage_withdrawal` returns: never reported as depleted. */
  function DynamicResult(initialCapital: real, percentage: real, withdrawalYears: nat, annualReturn: real): WithdrawalResult
    requires withdrawalYears >= 1
  {
    var s := DynamicRun(initialCapital, percentage, annualReturn, withdrawalYears);
    WithdrawalResult(DynamicName, initialCapital, s.total, s.capital, s.rows,
                     AverageMonthly(s.total, withdrawalYears), 0, 1.0)
  }

  /** `dynamic_percentage_withdrawal`. */
  method DynamicPercentageWithdrawal(initialCapital: real, withdrawalPercentage: real, withdrawalYears: nat, annualReturn: real)
    returns (result: WithdrawalResult)
    requires withdrawalYears >= 1
    ensures result == DynamicResult(initialCapital, withdrawalPercentage, withdrawalYears, annualReturn)
  {
    var yearlyWithdrawals: seq<Row> := [];
    var currentCapital := initialCapital;
    var totalWithdrawals := 0.0;
    for year := 1 to withdrawalYears + 1
      invariant DynamicState(currentCapital, totalWithdrawals, yearlyWithdrawals)
             == DynamicRun(initialCapital, withdrawalPercentage, annualReturn, year - 1)
    {
      var annualWithdrawal := ShareOf(currentCapital, withdrawalPercentage);
      currentCapital := currentCapital - annualWithdrawal;
      totalWithdrawals := totalWithdrawals + annualWithdrawal;
      currentCapital := AfterYear(currentCapital, annualReturn);
      yearlyWithdrawals := yearlyWithdrawals + [(year, annualWithdrawal, currentCapital)];
    }
    result := WithdrawalResult(DynamicName, initialCapital, totalWithdrawals, currentCapital, yearlyWithdrawals,
                               (totalWithdrawals / (withdrawalYears as real)) / 12.0, 0, 1.0);
  }

  /** The closed form of the remaining capital: initial * ((1 - p)(1 + r))^k. */
  function DynamicRemaining(initialCapital: real, percentage: real, annualReturn: real, k: nat): real
  {
    initialCapital * Pow((1.0 - percentage) * (1.0 + annualReturn), k)
  }

  lemma DynamicRemainingStep(initialCapital: real, percentage: real, annualReturn: real, k: nat)
    ensures var c := DynamicRemaining(initialCapital, percentage, annualReturn, k);
      AfterYear(c - ShareOf(c, percentage), annualReturn) == DynamicRemaining(initialCapital, percentage, annualReturn, k + 1)
  {
    var f := (1.0 - percentage) * (1.0 + annualReturn);
    var p := Pow(f, k);
    var c := initialCapital * p;
    assert DynamicRemaining(initialCapital, percentage, annualReturn, k) == c;
    assert AfterYear(c - ShareOf(c, percentage), annualReturn) == (c - c * percentage) * (1.0 + annualReturn);
    assert (c - c * percentage) * (1.0 + annualReturn) == initialCapital * (f * p);
    assert Pow(f, k + 1) == f * p;
  }

  /** Each year keeps the share (1 - p) and grows it by (1 + r): the capital follows the closed form. */
  lemma {:induction false} DynamicClosedForm(initialCapital: real, percentage: real, annualReturn: real, k: nat)
    ensures DynamicRun(initialCapital, percentage, annualReturn, k).capital
         == DynamicRemaining(initialCapital, percentage, annualReturn, k)
  {
    if k > 0 {
      DynamicClosedForm(initialCapital, percentage, annualReturn, k - 1);
      DynamicRemainingStep(initialCapital, percentage, annualReturn, k - 1);
    }
  }

  /** The closed form stays positive for a positive capital, a share below 100 % and a return above -100 %. */
  lemma DynamicRemainingPositive(initialCapital: real, percentage: real, annualReturn: real, k: nat)
    requires initialCapital > 0.0 && percentage < 1.0 && annualReturn > -1.0
    ensures DynamicRemaining(initialCapital, percentage, annualReturn, k) > 0.0
  {
    var f := (1.0 - percentage) * (1.0 + annualReturn);
    MulPositive(1.0 - percentage, 1.0 + annualReturn);
    PowPositive(f, k);
    MulPositive(initialCapital, Pow(f, k));
  }

  /**
   * The strategy never runs dry: a positive capital, a share below 100 % and
   * a return above -100 % leave a positive capital after any number of years.
   */
  lemma NeverDepleted(initialCapital: real, percentage: real, annualReturn: real, k: nat)
    requires initialCapital > 0.0 && percentage < 1.0 && annualReturn > -1.0
    ensures DynamicRun(initialCapital, percentage, annualReturn, k).capital > 0.0
  {
    DynamicClosedForm(initialCapital, percentage, annualReturn, k);
    DynamicRemainingPositive(initialCapital, percentage, annualReturn, k);
  }

  /** One row per year, numbered from 1. */
  lemma {:induction false} DynamicRunShape(initialCapital: real, percentage: real, annualReturn: real, k: nat)
    ensures |DynamicRun(initialCapital, percentage, annualReturn, k).rows| == k
    ensures Numbered(DynamicRun(initialCapital, percentage, annualReturn, k).rows, 1)
  {
    if k > 0 {
      DynamicRunShape(initialCapital, percentage, annualReturn, k - 1);
    }
  }

  /** The total is the sum of the rows. */
  lemma {:induction false} DynamicRunTotal(initialCapital: real, percentage: real, annualReturn: real, k: nat)
    ensures DynamicRun(initialCapital, percentage, annualReturn, k).total
         == TotalOf(DynamicRun(initialCapital, percentage, annualReturn, k).rows)
  {
    if k > 0 {
      DynamicRunTotal(initialCapital, percentage, annualReturn, k - 1);
      DynamicRunShape(initialCapital, percentage, annualReturn, k - 1);
      var s := DynamicRun(initialCapital, percentage, annualReturn, k - 1);
      var t := DynamicRun(initialCapital, percentage, annualReturn, k);
      TotalOfAppend(s.rows, t.rows[k - 1]);
      assert t.rows == s.rows + [t.rows[k - 1]];
    }
  }

  /** Each year's withdrawal is the share of the capital at the start of that year. */
  lemma DynamicWithdrawalIsShare(initialCapital: real, percentage: real, annualReturn: real, k: nat)
    requires k >= 1
    ensures DynamicRun(initialCapital, percentage, annualReturn, k).total
          - DynamicRun(initialCapital, percentage, annualReturn, k - 1).total
         == ShareOf(DynamicRun(initialCapital, percentage, annualReturn, k - 1).capital, percentage)
  {
  }

  /** What the dynamic strategy reports: the closed-form remainder, never depleted, success 1. */
  lemma DynamicGuarantees(initialCapital: real, percentage: real, withdrawalYears: nat, annualReturn: real)
    requires withdrawalYears >= 1
    ensures var r := DynamicResult(initialCapital, percentage, withdrawalYears, annualReturn);
      && |r.yearlyWithdrawals| == withdrawalYears
      && r.totalWithdrawals == TotalOf(r.yearlyWithdrawals)
      && r.remainingCapital == DynamicRemaining(initialCapital, percentage, annualReturn, withdrawalYears)
      && r.capitalDepletedYear == 0 && r.successRate == 1.0
      && r.avgMonthlyWithdrawal == AverageMonthly(r.totalWithdrawals, withdrawalYears)
  {
    var s := DynamicRun(initialCapital, percentage, annualReturn, withdrawalYears);
    DynamicRunShape(initialCapital, percentage, annualReturn, withdrawalYears);
    DynamicRunTotal(initialCapital, percentage, annualReturn, withdrawalYears);
    DynamicClosedForm(initialCapital, percentage, annualReturn, withdrawalYears);
    assert DynamicResult(initialCapital, percentage, withdrawalYears, annualReturn)
        == WithdrawalResult(DynamicName, initialCapital, s.total, s.capital, s.rows,
                            AverageMonthly(s.total, withdrawalYears), 0, 1.0);
  }

  // ---------------------------------------------------------------------
  // A fixed monthly pension
  // ---------------------------------------------------------------------

  /** The month loop's variables: capital, what was withdrawn this year, and whether a month found it empty. */
  datatype MonthState = MonthState(capital: real, withdrawn: real, ranOut: bool)

  /**
   * The first `m` months of a pension year that starts with `capital`: a month
   * that starts without capital ends the year's withdrawals; otherwise it pays
   * the pension, or what is left when that is less, and grows the rest by a
   * twelfth of the annual return.
   */
  function PensionMonths(capital: real, pension: real, annualReturn: real, m: nat): MonthState
    decreases m
  {
    if m == 0 then MonthState(capital, 0.0, false)
    else
      var s := PensionMonths(capital, pension, annualReturn, m - 1);
      if s.ranOut || s.capital <= 0.0 then MonthState(s.capital, s.withdrawn, true)
      else
        var payment := Min(pension, s.capital);
        MonthState(AfterMonth(s.capital - payment, annualReturn), s.withdrawn + payment, false)
  }

  /** Once a month has found the capital empty, the rest of the year changes nothing. */
  lemma {:induction false} RanOutStays(capital: real, pension: real, annualReturn: real, m: nat, n: nat)
    requires m <= n && PensionMonths(capital, pension, annualReturn, m).ranOut
    ensures PensionMonths(capital, pension, annualReturn, n) == PensionMonths(capital, pension, annualReturn, m)
    decreases n - m
  {
    if m < n {
      RanOutStays(capital, pension, annualReturn, m, n - 1);
    }
  }

  /** The loop variables of `fixed_monthly_pension`; `stopped` is the loop's final `break`. */
  datatype FixedState = FixedState(capital: real, total: real, depletedYear: int, rows: seq<Row>, stopped: bool)

  /**
   * One pension year: run the months, record the depletion year if a month
   * found the capital empty and none was recorded yet, append the row, and
   * stop after a year that ends without capital.
   */
  function FixedYear(s: FixedState, year: nat, pension: real, annualReturn: real, months: nat): FixedState
  {
    if s.stopped then s
    else
      var m := PensionMonths(s.capital, pension, annualReturn, months);
      FixedState(m.capital, s.total + m.withdrawn,
                 if m.ranOut && s.depletedYear == 0 then year else s.depletedYear,
                 s.rows + [(year, m.withdrawn, m.capital)],
                 m.capital <= 0.0)
  }

  function FixedRun(initialCapital: real, pension: real, annualReturn: real, months: nat, k: nat): FixedState
    decreases k
  {
    if k == 0 then FixedState(initialCapital, 0.0, 0, [], false)
    else FixedYear(FixedRun(initialCapital, pension, annualReturn, months, k - 1), k, pension, annualReturn, months)
  }

  /** What `fixed_monthly_pension` returns; the average is the pension itself. */
  function FixedPensionResult(initialCapital: real, pension: real, withdrawalYears: nat, annualReturn: real,
                              months: nat): WithdrawalResult
  {
    var s := FixedRun(initialCapital, pension, annualReturn, months, withdrawalYears);
    assert s.depletedYear == 0 || withdrawalYears >= 1 by {
      FixedRunShape(initialCapital, pension, annualReturn, months, withdrawalYears);
    }
    WithdrawalResult(FixedName, initialCapital, s.total, Max(0.0, s.capital), s.rows,
                     pension, s.depletedYear, SuccessRate(s.depletedYear, withdrawalYears))
  }

  /**
   * The month loop of `fixed_monthly_pension` for one year: it records the
   * depletion year itself when a month finds the capital empty.
   */
  method PayPensionYear(capital: real, monthlyPension: real, annualReturn: real, year: nat, depletedYear: int, months: nat)
    returns (newCapital: real, yearWithdrawal: real, newDepletedYear: int)
    ensures var m := PensionMonths(capital, monthlyPension, annualReturn, months);
      && newCapital == m.capital && yearWithdrawal == m.withdrawn
      && newDepletedYear == if m.ranOut && depletedYear == 0 then year else depletedYear
  {
    newCapital, yearWithdrawal, newDepletedYear := capital, 0.0, depletedYear;
    for month := 0 to months
      invariant MonthState(newCapital, yearWithdrawal, false) == PensionMonths(capital, monthlyPension, annualReturn, month)
      invariant newDepletedYear == depletedYear
    {
      if newCapital <= 0.0 {
        if newDepletedYear == 0 {
          newDepletedYear := year;
        }
        RanOutStays(capital, monthlyPension, annualReturn, month + 1, months);
        break;
      }
      var actualMonthlyWithdrawal := Min(monthlyPension, newCapital);
      newCapital := newCapital - actualMonthlyWithdrawal;
      yearWithdrawal := yearWithdrawal + actualMonthlyWithdrawal;
      newCapital := AfterMonth(newCapital, annualReturn);
    }
  }

  /** After the loop has stopped, later years change nothing. */
  lemma {:induction false} StoppedStays(initialCapital: real, pension: real, annualReturn: real, months: nat, k: nat, n: nat)
    requires k <= n && FixedRun(initialCapital, pension, annualReturn, months, k).stopped
    ensures FixedRun(initialCapital, pension, annualReturn, months, n) == FixedRun(initialCapital, pension, annualReturn, months, k)
    decreases n - k
  {
    if k < n {
      StoppedStays(initialCapital, pension, annualReturn, months, k, n - 1);
      var s := FixedRun(initialCapital, pension, annualReturn, months, n - 1);
      assert s.stopped;
      assert FixedRun(initialCapital, pension, annualReturn, months, n) == FixedYear(s, n, pension, annualReturn, months);
      assert FixedYear(s, n, pension, annualReturn, months) == s;
    }
  }

  /** The year loop of `fixed_monthly_pension`, which stops after a year that ends without capital. */
  method PensionYears(initialCapital: real, monthlyPension: real, withdrawalYears: nat, annualReturn: real,
                      months: nat)
    returns (currentCapital: real, totalWithdrawals: real, capitalDepletedYear: int, yearlyWithdrawals: seq<Row>)
    ensures var s := FixedRun(initialCapital, monthlyPension, annualReturn, months, withdrawalYears);
      && currentCapital == s.capital && totalWithdrawals == s.total
      && capitalDepletedYear == s.depletedYear && yearlyWithdrawals == s.rows
  {
    yearlyWithdrawals := [];
    currentCapital := initialCapital;
    totalWithdrawals := 0.0;
    capitalDepletedYear := 0;
    for year := 1 to withdrawalYears + 1
      invariant FixedState(currentCapital, totalWithdrawals, capitalDepletedYear, yearlyWithdrawals, false)
             == FixedRun(initialCapital, monthlyPension, annualReturn, months, year - 1)
    {
      ghost var after := FixedYear(FixedState(currentCapital, totalWithdrawals, capitalDepletedYear, yearlyWithdrawals, false),
                                   year, monthlyPension, annualReturn, months);
      assert after == FixedRun(initialCapital, monthlyPension, annualReturn, months, year);
      var yearWithdrawal;
      currentCapital, yearWithdrawal, capitalDepletedYear :=
        PayPensionYear(currentCapital, monthlyPension, annualReturn, year, capitalDepletedYear, months);
      totalWithdrawals := totalWithdrawals + yearWithdrawal;
      var row: Row := (year, yearWithdrawal, currentCapital);
      yearlyWithdrawals := yearlyWithdrawals + [row];
      assert currentCapital == after.capital && totalWithdrawals == after.total;
      assert capitalDepletedYear == after.depletedYear && yearlyWithdrawals == after.rows;
      if currentCapital <= 0.0 {
        StoppedStays(initialCapital, monthlyPension, annualReturn, months, year, withdrawalYears);
        break;
      }
    }
  }

  /** `fixed_monthly_pension`. */
  method FixedMonthlyPension(initialCapital: real, monthlyPension: real, withdrawalYears: nat, annualReturn: real)
    returns (result: WithdrawalResult)
    ensures result == FixedPensionResult(initialCapital, monthlyPension, withdrawalYears, annualReturn, Kernel.MonthsPerYear)
  {
    var currentCapital, totalWithdrawals, capitalDepletedYear, yearlyWithdrawals :=
      PensionYears(initialCapital, monthlyPension, withdrawalYears, annualReturn, Kernel.MonthsPerYear);
    var successRate := if capitalDepletedYear == 0 then 1.0 else (capitalDepletedYear as real) / (withdrawalYears as real);
    result := WithdrawalResult(FixedName, initialCapital, totalWithdrawals, Max(0.0, currentCapital),
                               yearlyWithdrawals, monthlyPension, capitalDepletedYear, successRate);
  }

  /** `n` monthly pensions. */
  function Pensions(n: int, pension: real): (total: real)
    ensures n >= 0 && pension >= 0.0 ==> total >= 0.0
    ensures n == 0 ==> total == 0.0
  {
    (n as real) * pension
  }

  lemma PensionsStep(n: int, pension: real)
    ensures Pensions(n, pension) + pension == Pensions(n + 1, pension)
  {
  }

  /** No month pays more than the pension. */
  lemma {:induction false} PensionMonthsCapped(capital: real, pension: real, annualReturn: real, m: nat)
    requires pension >= 0.0
    ensures PensionMonths(capital, pension, annualReturn, m).withdrawn <= Pensions(m, pension)
  {
    if m > 0 {
      PensionMonthsCapped(capital, pension, annualReturn, m - 1);
      PensionsStep(m - 1, pension);
      var s := PensionMonths(capital, pension, annualReturn, m - 1);
      var t := PensionMonths(capital, pension, annualReturn, m);
      assert t.withdrawn <= s.withdrawn + pension by {
        if !(s.ranOut || s.capital <= 0.0) {
          assert t.withdrawn == s.withdrawn + Min(pension, s.capital);
        }
      }
    }
  }

  /** A non-negative pension pays a non-negative amount, and a non-negative capital stays non-negative. */
  lemma {:induction false} PensionMonthsNonNegative(capital: real, pension: real, annualReturn: real, m: nat)
    ensures pension >= 0.0 ==> PensionMonths(capital, pension, annualReturn, m).withdrawn >= 0.0
    ensures capital >= 0.0 && annualReturn >= -12.0 ==> PensionMonths(capital, pension, annualReturn, m).capital >= 0.0
  {
    if m > 0 {
      PensionMonthsNonNegative(capital, pension, annualReturn, m - 1);
    }
  }

  /** A year that starts without capital pays nothing, leaves the capital as it is, and runs out. */
  lemma {:induction false} PensionMonthsEmpty(capital: real, pension: real, annualReturn: real, m: nat)
    requires capital <= 0.0
    ensures PensionMonths(capital, pension, annualReturn, m).withdrawn == 0.0
    ensures PensionMonths(capital, pension, annualReturn, m).capital == capital
    ensures m >= 1 ==> PensionMonths(capital, pension, annualReturn, m).ranOut
  {
    if m > 0 {
      PensionMonthsEmpty(capital, pension, annualReturn, m - 1);
    }
  }

  /** Without a return nothing is created or lost: what is left plus what was paid is the starting capital. */
  lemma {:induction false} PensionMonthsConserve(capital: real, pension: real, m: nat)
    ensures PensionMonths(capital, pension, 0.0, m).capital + PensionMonths(capital, pension, 0.0, m).withdrawn == capital
  {
    if m > 0 {
      PensionMonthsConserve(capital, pension, m - 1);
    }
  }

  lemma {:induction false} FixedRunShape(initialCapital: real, pension: real, annualReturn: real, months: nat, k: nat)
    ensures |FixedRun(initialCapital, pension, annualReturn, months, k).rows| <= k
    ensures !FixedRun(initialCapital, pension, annualReturn, months, k).stopped
            ==> |FixedRun(initialCapital, pension, annualReturn, months, k).rows| == k
    ensures FixedRun(initialCapital, pension, annualReturn, months, k).stopped
            ==> FixedRun(initialCapital, pension, annualReturn, months, k).capital <= 0.0
    ensures Numbered(FixedRun(initialCapital, pension, annualReturn, months, k).rows, 1)
    ensures 0 <= FixedRun(initialCapital, pension, annualReturn, months, k).depletedYear
              <= |FixedRun(initialCapital, pension, annualReturn, months, k).rows|
  {
    if k > 0 {
      FixedRunShape(initialCapital, pension, annualReturn, months, k - 1);
    }
  }

  lemma {:induction false} FixedRunTotal(initialCapital: real, pension: real, annualReturn: real, months: nat, k: nat)
    ensures FixedRun(initialCapital, pension, annualReturn, months, k).total == TotalOf(FixedRun(initialCapital, pension, annualReturn, months, k).rows)
  {
    if k > 0 {
      FixedRunTotal(initialCapital, pension, annualReturn, months, k - 1);
      var s := FixedRun(initialCapital, pension, annualReturn, months, k - 1);
      if !s.stopped {
        var m := PensionMonths(s.capital, pension, annualReturn, months);
        var row := (k, m.withdrawn, m.capital);
        assert FixedRun(initialCapital, pension, annualReturn, months, k).rows == s.rows + [row];
        assert FixedRun(initialCapital, pension, annualReturn, months, k).total == s.total + row.1;
        TotalOfAppend(s.rows, row);
      }
    }
  }

  /** A non-negative capital stays non-negative, and a non-negative pension gives a non-negative total. */
  lemma {:induction false} FixedNonNegative(initialCapital: real, pension: real, annualReturn: real, months: nat, k: nat)
    requires initialCapital >= 0.0 && annualReturn >= -12.0
    ensures FixedRun(initialCapital, pension, annualReturn, months, k).capital >= 0.0
    ensures pension >= 0.0 ==> FixedRun(initialCapital, pension, annualReturn, months, k).total >= 0.0
  {
    if k > 0 {
      FixedNonNegative(initialCapital, pension, annualReturn, months, k - 1);
      var s := FixedRun(initialCapital, pension, annualReturn, months, k - 1);
      if !s.stopped {
        PensionMonthsNonNegative(s.capital, pension, annualReturn, months);
      }
    }
  }

  /** No row's withdrawal exceeds `cap`. */
  ghost predicate PaysAtMost(rows: seq<Row>, cap: real)
  {
    forall i :: 0 <= i < |rows| ==> rows[i].1 <= cap
  }

  /** The pension is never exceeded: no year's row pays more than a full year of pensions. */
  lemma {:induction false} FixedNeverOverdraws(initialCapital: real, pension: real, annualReturn: real, months: nat, k: nat)
    requires pension >= 0.0
    ensures PaysAtMost(FixedRun(initialCapital, pension, annualReturn, months, k).rows, Pensions(months, pension))
  {
    if k > 0 {
      FixedNeverOverdraws(initialCapital, pension, annualReturn, months, k - 1);
      var s := FixedRun(initialCapital, pension, annualReturn, months, k - 1);
      if !s.stopped {
        PensionMonthsCapped(s.capital, pension, annualReturn, months);
        var t := FixedRun(initialCapital, pension, annualReturn, months, k);
        var m := PensionMonths(s.capital, pension, annualReturn, months);
        assert t.rows == s.rows + [(k, m.withdrawn, m.capital)];
        forall i | 0 <= i < |t.rows|
          ensures t.rows[i].1 <= Pensions(months, pension)
        {
          if i < |s.rows| {
            assert t.rows[i] == s.rows[i];
          }
        }
      } else {
        assert FixedRun(initialCapital, pension, annualReturn, months, k) == s;
      }
    }
  }

  /**
   * What `fixed_monthly_pension` promises: rows numbered from 1, at most one
   * per year, summing to the total; a non-negative remainder; the pension as
   * the average; and a success rate of 1 exactly when no depletion was
   * recorded or it was recorded in the last year.
   */
  lemma FixedGuarantees(initialCapital: real, pension: real, withdrawalYears: nat, annualReturn: real, months: nat)
    ensures var r := FixedPensionResult(initialCapital, pension, withdrawalYears, annualReturn, months);
      && |r.yearlyWithdrawals| <= withdrawalYears
      && Numbered(r.yearlyWithdrawals, 1)
      && r.totalWithdrawals == TotalOf(r.yearlyWithdrawals)
      && r.remainingCapital >= 0.0
      && r.avgMonthlyWithdrawal == pension
      && 0 <= r.capitalDepletedYear <= withdrawalYears
      && (r.successRate == 1.0 <==> r.capitalDepletedYear == 0 || r.capitalDepletedYear == withdrawalYears)
      && 0.0 < r.successRate <= 1.0
  {
    FixedRunShape(initialCapital, pension, annualReturn, months, withdrawalYears);
    FixedRunTotal(initialCapital, pension, annualReturn, months, withdrawalYears);
    SuccessRateRange(FixedRun(initialCapital, pension, annualReturn, months, withdrawalYears).depletedYear,
                     withdrawalYears);
  }

  /** The recorded depletion year lies within the term. */
  lemma FixedDepletionInTerm(initialCapital: real, pension: real, annualReturn: real, months: nat, k: nat)
    ensures 0 <= FixedRun(initialCapital, pension, annualReturn, months, k).depletedYear <= k
  {
    FixedRunShape(initialCapital, pension, annualReturn, months, k);
  }

  /** A capital of exactly `n` pensions that earns nothing pays the pension in each of the first `n` months without running out. */
  lemma {:induction false} ExactYearMonths(pension: real, n: nat, m: nat)
    requires pension > 0.0 && m <= n
    ensures PensionMonths(Pensions(n, pension), pension, 0.0, m) == MonthState(Pensions(n - m, pension), Pensions(m, pension), false)
  {
    if m > 0 {
      ExactYearMonths(pension, n, m - 1);
      var c := Pensions(n - m + 1, pension);
      assert c > 0.0 by {
        MulPositive((n - m + 1) as real, pension);
      }
      PensionsStep(n - m, pension);
      PensionsStep(m - 1, pension);
      assert Min(pension, c) == pension;
      assert AfterMonth(c - pension, 0.0) == c - pension;
    }
  }

  /**
   * The capital runs out in the last month of the first year, yet no
   * depletion is recorded: the check for an empty capital only runs at the
   * start of a month, and the year loop then stops. A plan over two or more
   * years reports full success with one row and nothing left.
   */
  lemma LastMonthDepletionNotRecorded(pension: real, withdrawalYears: nat, months: nat)
    requires pension > 0.0 && withdrawalYears >= 2
    ensures var r := FixedPensionResult(Pensions(months, pension), pension, withdrawalYears, 0.0, months);
      && r.capitalDepletedYear == 0 && r.successRate == 1.0
      && |r.yearlyWithdrawals| == 1 && r.remainingCapital == 0.0
      && r.totalWithdrawals == Pensions(months, pension)
  {
    var start := Pensions(months, pension);
    ExactYearMonths(pension, months, months);
    var one := FixedRun(start, pension, 0.0, months, 1);
    assert one == FixedState(0.0, start, 0, [(1, start, 0.0)], true);
    StoppedStays(start, pension, 0.0, months, 1, withdrawalYears);
  }

  // ---------------------------------------------------------------------
  // Hybrid: a fixed pension from part of the capital, the rest kept as a reserve
  // ---------------------------------------------------------------------

  /** The rows with the compounded reserve added to each year's capital. */
  function WithReserve(rows: seq<Row>, reserve: real, annualReturn: real): seq<Row>
    decreases |rows|
  {
    if |rows| == 0 then []
    else
      var last := rows[|rows| - 1];
      WithReserve(rows[..|rows| - 1], reserve, annualReturn)
        + [(last.0, last.1, last.2 + Compounded(reserve, annualReturn, last.0))]
  }

  /**
   * What `hybrid_withdrawal` is meant to return: the fixed pension paid from the capital
   * less the reserve share, relabelled, with the full initial capital and the
   * compounded reserve added to the remainder and to every year's capital.
   */
  function HybridResult(initialCapital: real, pension: real, reservePercentage: real,
                        withdrawalYears: nat, annualReturn: real, months: nat): WithdrawalResult
  {
    var reserve := ShareOf(initialCapital, reservePercentage);
    var inner := FixedPensionResult(initialCapital - reserve, pension, withdrawalYears, annualReturn, months);
    inner.(strategyName := HybridName, initialCapital := initialCapital,
           remainingCapital := inner.remainingCapital + Compounded(reserve, annualReturn, withdrawalYears),
           yearlyWithdrawals := WithReserve(inner.yearlyWithdrawals, reserve, annualReturn))
  }

  /** What a name used in the body of `hybrid_withdrawal` is bound to. */
  datatype Binding = Number(value: real) | FixedPensionStrategy | Unbound

  /** The outcome of a call: the result it returns, or the name of the exception it raises. */
  datatype HybridOutcome = Returned(result: WithdrawalResult) | Raised(error: string)

  const TypeError: string := "TypeError"
  const NameError: string := "NameError"

  /** The name under which the module defines the fixed-pension strategy. */
  const FixedPensionFunction: string := "fixed_monthly_pension"

  /** The module-level names the hybrid strategy can see. */
  function ModuleScope(): map<string, Binding>
  {
    map[FixedPensionFunction := FixedPensionStrategy]
  }

  /** The parameters of `hybrid_withdrawal`, bound to the arguments of one call. */
  function HybridParameters(initialCapital: real, fixedMonthlyPension: real, capitalReservePercentage: real,
                            withdrawalYears: nat, annualReturn: real): (locals: map<string, Binding>)
    ensures FixedPensionFunction in locals && locals[FixedPensionFunction] == Number(fixedMonthlyPension)
  {
    map["initial_capital" := Number(initialCapital),
        "fixed_monthly_pension" := Number(fixedMonthlyPension),
        "capital_reserve_percentage" := Number(capitalReservePercentage),
        "withdrawal_years" := Number(withdrawalYears as real),
        "annual_return" := Number(annualReturn)]
  }

  /** Name lookup in a function body: its own scope first, the module only for names the function does not bind. */
  function Resolve(name: string, locals: map<string, Binding>, globals: map<string, Binding>): (b: Binding)
    ensures name in locals ==> b == locals[name]
    ensures b == Unbound ==> name !in locals || locals[name] == Unbound
  {
    if name in locals then locals[name]
    else if name in globals then globals[name]
    else Unbound
  }

  /**
   * Calling a binding with the fixed pension's keyword arguments: only the
   * strategy function returns, and it returns the fixed pension's result; a
   * number is not callable and an unbound name is unknown.
   */
  function CallAsFixedPension(callee: Binding, capital: real, pension: real, withdrawalYears: nat,
                              annualReturn: real, months: nat): (o: HybridOutcome)
    ensures o.Returned? <==> callee == FixedPensionStrategy
    ensures o.Returned? ==> o.result == FixedPensionResult(capital, pension, withdrawalYears, annualReturn, months)
    ensures callee.Number? ==> o == Raised(TypeError)
  {
    match callee
    case FixedPensionStrategy => Returned(FixedPensionResult(capital, pension, withdrawalYears, annualReturn, months))
    case Number(_) => Raised(TypeError)
    case Unbound => Raised(NameError)
  }

  /**
   * `hybrid_withdrawal` as written. Its second parameter has the name of the
   * module's fixed-pension function, so the call meant for that function
   * resolves to the pension amount, a number, and raises a TypeError on
   * every input; the reserve is never added.
   */
  method HybridWithdrawal(initialCapital: real, fixedMonthlyPension: real, capitalReservePercentage: real,
                          withdrawalYears: nat, annualReturn: real)
    returns (outcome: HybridOutcome)
    ensures outcome == Raised(TypeError)
  {
    var reserveCapital := ShareOf(initialCapital, capitalReservePercentage);
    var withdrawalCapital := initialCapital - reserveCapital;
    var locals := HybridParameters(initialCapital, fixedMonthlyPension, capitalReservePercentage, withdrawalYears, annualReturn);
    var callee := Resolve(FixedPensionFunction, locals, ModuleScope());
    outcome := CallAsFixedPension(callee, withdrawalCapital, fixedMonthlyPension, withdrawalYears, annualReturn,
                                  Kernel.MonthsPerYear);
  }

  /**
   * The call the hybrid strategy means: resolved in the module scope alone,
   * the fixed-pension name reaches the strategy and returns its result,
   * while the strategy's own parameters shadow it with the pension amount.
   */
  lemma ShadowedCallRaises(initialCapital: real, fixedMonthlyPension: real, capitalReservePercentage: real,
                           withdrawalYears: nat, annualReturn: real, months: nat)
    ensures var locals := HybridParameters(initialCapital, fixedMonthlyPension, capitalReservePercentage, withdrawalYears, annualReturn);
      CallAsFixedPension(Resolve(FixedPensionFunction, locals, ModuleScope()), initialCapital, fixedMonthlyPension,
                         withdrawalYears, annualReturn, months) == Raised(TypeError)
    ensures CallAsFixedPension(Resolve(FixedPensionFunction, map[], ModuleScope()), initialCapital, fixedMonthlyPension,
                               withdrawalYears, annualReturn, months)
         == Returned(FixedPensionResult(initialCapital, fixedMonthlyPension, withdrawalYears, annualReturn, months))
  {
  }

  /**
   * `hybrid_withdrawal` as evidently intended: the pension call reaches the
   * module's fixed-pension strategy, whose result is then updated field by
   * field and its rows rebuilt with the reserve.
   */
  method HybridWithdrawalIntended(initialCapital: real, fixedMonthlyPension: real, capitalReservePercentage: real,
                                  withdrawalYears: nat, annualReturn: real)
    returns (result: WithdrawalResult)
    ensures result == HybridResult(initialCapital, fixedMonthlyPension, capitalReservePercentage, withdrawalYears, annualReturn,
                                   Kernel.MonthsPerYear)
  {
    var reserveCapital := ShareOf(initialCapital, capitalReservePercentage);
    var withdrawalCapital := initialCapital - reserveCapital;
    result := FixedMonthlyPension(withdrawalCapital, fixedMonthlyPension, withdrawalYears, annualReturn);
    var finalReserve := Compounded(reserveCapital, annualReturn, withdrawalYears);
    result := result.(strategyName := HybridName);
    result := result.(initialCapital := initialCapital);
    result := result.(remainingCapital := result.remainingCapital + finalReserve);
    var updatedWithdrawals := AddReserve(result.yearlyWithdrawals, reserveCapital, annualReturn);
    result := result.(yearlyWithdrawals := updatedWithdrawals);
  }

  /** The row loop of `hybrid_withdrawal`: each year's capital gains the reserve compounded to that year. */
  method AddReserve(rows: seq<Row>, reserveCapital: real, annualReturn: real) returns (updatedWithdrawals: seq<Row>)
    ensures updatedWithdrawals == WithReserve(rows, reserveCapital, annualReturn)
  {
    updatedWithdrawals := [];
    for i := 0 to |rows|
      invariant updatedWithdrawals == WithReserve(rows[..i], reserveCapital, annualReturn)
    {
      var (year, withdrawal, capital) := rows[i];
      var reserveAtYear := Compounded(reserveCapital, annualReturn, year);
      var totalCapital := capital + reserveAtYear;
      updatedWithdrawals := updatedWithdrawals + [(year, withdrawal, totalCapital)];
      assert rows[..i + 1][..i] == rows[..i];
    }
    assert rows[..|rows|] == rows;
  }

  /** Row by row, the reserve changes only the capital column, by the reserve compounded to that year. */
  lemma {:induction false} WithReserveRows(rows: seq<Row>, reserve: real, annualReturn: real)
    ensures |WithReserve(rows, reserve, annualReturn)| == |rows|
    ensures forall i :: 0 <= i < |rows| ==>
      && WithReserve(rows, reserve, annualReturn)[i].0 == rows[i].0
      && WithReserve(rows, reserve, annualReturn)[i].1 == rows[i].1
      && WithReserve(rows, reserve, annualReturn)[i].2 == rows[i].2 + Compounded(reserve, annualReturn, rows[i].0)
    decreases |rows|
  {
    if |rows| > 0 {
      var front := rows[..|rows| - 1];
      WithReserveRows(front, reserve, annualReturn);
      forall i | 0 <= i < |front|
        ensures rows[i] == front[i]
      {
      }
    }
  }

  /** The withdrawal column is untouched, so the rows still sum to the same total. */
  lemma {:induction false} WithReserveTotal(rows: seq<Row>, reserve: real, annualReturn: real)
    ensures TotalOf(WithReserve(rows, reserve, annualReturn)) == TotalOf(rows)
    decreases |rows|
  {
    if |rows| > 0 {
      var front := rows[..|rows| - 1];
      WithReserveTotal(front, reserve, annualReturn);
      var w := WithReserve(rows, reserve, annualReturn);
      WithReserveRows(rows, reserve, annualReturn);
      assert w[..|w| - 1] == WithReserve(front, reserve, annualReturn);
    }
  }

  /** A zero reserve leaves the rows as they are. */
  lemma {:induction false} ZeroReserveRows(rows: seq<Row>, annualReturn: real)
    ensures WithReserve(rows, 0.0, annualReturn) == rows
    decreases |rows|
  {
    if |rows| > 0 {
      ZeroReserveRows(rows[..|rows| - 1], annualReturn);
      assert rows == rows[..|rows| - 1] + [rows[|rows| - 1]];
    }
  }

  /**
   * What `hybrid_withdrawal` is meant to promise: the pension part is the fixed pension
   * on the capital less the reserve, so the total, the depletion year and
   * the success rate are its own; the rows still sum to the total; and the
   * reserve, compounded over the whole term, is added to what remains.
   */
  lemma HybridGuarantees(initialCapital: real, pension: real, reservePercentage: real,
                         withdrawalYears: nat, annualReturn: real, months: nat)
    ensures var r := HybridResult(initialCapital, pension, reservePercentage, withdrawalYears, annualReturn, months);
      var reserve := ShareOf(initialCapital, reservePercentage);
      var inner := FixedPensionResult(initialCapital - reserve, pension, withdrawalYears, annualReturn, months);
      && r.strategyName == HybridName && r.initialCapital == initialCapital
      && r.totalWithdrawals == inner.totalWithdrawals
      && r.totalWithdrawals == TotalOf(r.yearlyWithdrawals)
      && r.remainingCapital == inner.remainingCapital + Compounded(reserve, annualReturn, withdrawalYears)
      && r.capitalDepletedYear == inner.capitalDepletedYear && r.successRate == inner.successRate
      && r.avgMonthlyWithdrawal == pension
      && |r.yearlyWithdrawals| == |inner.yearlyWithdrawals|
  {
    var reserve := ShareOf(initialCapital, reservePercentage);
    var inner := FixedPensionResult(initialCapital - reserve, pension, withdrawalYears, annualReturn, months);
    FixedGuarantees(initialCapital - reserve, pension, withdrawalYears, annualReturn, months);
    WithReserveTotal(inner.yearlyWithdrawals, reserve, annualReturn);
    WithReserveRows(inner.yearlyWithdrawals, reserve, annualReturn);
  }

  /** Without a reserve the hybrid strategy is the fixed pension under another name. */
  lemma ZeroReserveIsFixedPension(initialCapital: real, pension: real, withdrawalYears: nat, annualReturn: real, months: nat)
    ensures HybridResult(initialCapital, pension, 0.0, withdrawalYears, annualReturn, months)
         == FixedPensionResult(initialCapital, pension, withdrawalYears, annualReturn, months).(strategyName := HybridName)
  {
    var inner := FixedPensionResult(initialCapital, pension, withdrawalYears, annualReturn, months);
    assert ShareOf(initialCapital, 0.0) == 0.0;
    assert Compounded(0.0, annualReturn, withdrawalYears) == 0.0;
    ZeroReserveRows(inner.yearlyWithdrawals, annualReturn);
  }

  /**
   * The reserve is never spent: with a non-negative capital, a reserve share
   * between 0 and 1 and a non-negative return, what remains is at least the
   * reserve set aside at the start.
   */
  lemma ReserveIsKept(initialCapital: real, pension: real, reservePercentage: real,
                      withdrawalYears: nat, annualReturn: real, months: nat)
    requires initialCapital >= 0.0 && 0.0 <= reservePercentage <= 1.0 && annualReturn >= 0.0
    ensures HybridResult(initialCapital, pension, reservePercentage, withdrawalYears, annualReturn, months).remainingCapital
         >= ShareOf(initialCapital, reservePercentage)
  {
    var reserve := ShareOf(initialCapital, reservePercentage);
    CompoundedGrows(reserve, annualReturn, withdrawalYears);
    HybridGuarantees(initialCapital, pension, reservePercentage, withdrawalYears, annualReturn, months);
    FixedGuarantees(initialCapital - reserve, pension, withdrawalYears, annualReturn, months);
  }

  // ---------------------------------------------------------------------
  // The safe withdrawal rate for a desired pension
  // ---------------------------------------------------------------------

  /** The dictionary returned by `calculate_safe_withdrawal_rate`. */
  datatype SafeRateReport = SafeRateReport(
    desiredMonthlyPension: real,
    desiredWithdrawalRate: real,
    safeFourPercentMonthly: real,
    dynamicFourPercentMonthly: real,
    noInflationDepletedYear: int,
    inflationAdjustedDepletedYear: int,
    dynamicRemainingCapital: real)

  /** The desired pension as a yearly percentage of the capital. */
  function WithdrawalRate(monthlyPension: real, capital: real): (rate: real)
    requires capital != 0.0
    ensures rate * capital == monthlyPension * 1200.0
  {
    (monthlyPension * 12.0 / capital) * 100.0
  }

  /**
   * What `calculate_safe_withdrawal_rate` returns: the desired pension paid
   * as a fixed pension, the inflation-adjusted 4 % rule and a dynamic 4 %
   * withdrawal, all from the same capital.
   */
  function SafeRate(initialCapital: real, desiredMonthlyPension: real, withdrawalYears: nat,
                    annualReturn: real, annualInflation: real, months: nat): SafeRateReport
    requires withdrawalYears >= 1 && initialCapital != 0.0
  {
    var noInflation := FixedPensionResult(initialCapital, desiredMonthlyPension, withdrawalYears, annualReturn, months);
    var fourPercent := FourPercentResult(initialCapital, withdrawalYears, annualReturn, annualInflation, true);
    var dynamic := DynamicResult(initialCapital, 0.04, withdrawalYears, annualReturn);
    SafeRateReport(desiredMonthlyPension, WithdrawalRate(desiredMonthlyPension, initialCapital),
                   fourPercent.avgMonthlyWithdrawal, dynamic.avgMonthlyWithdrawal,
                   noInflation.capitalDepletedYear, fourPercent.capitalDepletedYear, dynamic.remainingCapital)
  }

  /** `calculate_safe_withdrawal_rate`. */
  method CalculateSafeWithdrawalRate(initialCapital: real, desiredMonthlyPension: real, withdrawalYears: nat,
                                     annualReturn: real, annualInflation: real)
    returns (report: SafeRateReport)
    requires withdrawalYears >= 1 && initialCapital != 0.0
    ensures report == SafeRate(initialCapital, desiredMonthlyPension, withdrawalYears, annualReturn, annualInflation,
                               Kernel.MonthsPerYear)
  {
    var resultNoInflation := FixedMonthlyPension(initialCapital, desiredMonthlyPension, withdrawalYears, annualReturn);
    var result4Percent := FourPercentRule(initialCapital, withdrawalYears, annualReturn, annualInflation, true);
    var resultDynamic := DynamicPercentageWithdrawal(initialCapital, 0.04, withdrawalYears, annualReturn);
    report := SafeRateReport(
      desiredMonthlyPension,
      WithdrawalRate(desiredMonthlyPension, initialCapital),
      result4Percent.avgMonthlyWithdrawal,
      resultDynamic.avgMonthlyWithdrawal,
      resultNoInflation.capitalDepletedYear,
      result4Percent.capitalDepletedYear,
      resultDynamic.remainingCapital);
  }

  /**
   * What the report says: the desired rate is `WithdrawalRate`, the yearly
   * pension per 100 of capital; the depletion years lie within the term, and the 4 % rule never
   * reports one in its last year; the dynamic strategy's remainder is the
   * closed form, positive for a positive capital and a return above -100 %.
   */
  lemma SafeRateGuarantees(initialCapital: real, desiredMonthlyPension: real, withdrawalYears: nat,
                           annualReturn: real, annualInflation: real, months: nat)
    requires withdrawalYears >= 1 && initialCapital != 0.0
    ensures var r := SafeRate(initialCapital, desiredMonthlyPension, withdrawalYears, annualReturn, annualInflation, months);
      && r.desiredWithdrawalRate == WithdrawalRate(desiredMonthlyPension, initialCapital)
      && 0 <= r.noInflationDepletedYear <= withdrawalYears
      && 0 <= r.inflationAdjustedDepletedYear < withdrawalYears
      && r.dynamicRemainingCapital == DynamicRemaining(initialCapital, 0.04, annualReturn, withdrawalYears)
      && (initialCapital > 0.0 && annualReturn > -1.0 ==> r.dynamicRemainingCapital > 0.0)
  {
    var fixedRun := FixedRun(initialCapital, desiredMonthlyPension, annualReturn, months, withdrawalYears);
    var fourRun := FourRun(initialCapital, annualReturn, annualInflation, true, withdrawalYears);
    var dynamicRun := DynamicRun(initialCapital, 0.04, annualReturn, withdrawalYears);
    assert SafeRate(initialCapital, desiredMonthlyPension, withdrawalYears, annualReturn, annualInflation, months)
        == SafeRateReport(desiredMonthlyPension, WithdrawalRate(desiredMonthlyPension, initialCapital),
                          AverageMonthly(fourRun.total, withdrawalYears),
                          AverageMonthly(dynamicRun.total, withdrawalYears),
                          fixedRun.depletedYear, fourRun.depletedYear, dynamicRun.capital);
    FixedDepletionInTerm(initialCapital, desiredMonthlyPension, annualReturn, months, withdrawalYears);
    FourRunShape(initialCapital, annualReturn, annualInflation, true, withdrawalYears);
    DynamicClosedForm(initialCapital, 0.04, annualReturn, withdrawalYears);
    if initialCapital > 0.0 && annualReturn > -1.0 {
      DynamicRemainingPositive(initialCapital, 0.04, annualReturn, withdrawalYears);
    }
  }
}
