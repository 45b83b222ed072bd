// The rule-based advisors next to the debt planner: investment allocation,
// the savings plan, the emergency fund range and the moving-average budget
// forecast. Statistical library calls (the normal quantile and
// distribution function, the Monte Carlo simulation, the square root) are
// replaced by values the caller supplies, constrained where the arithmetic
// pins them down.

module Advisors {
  import opened Wrappers
  import opened Text
  import opened Numbers
  import Patterns

  // ---------------------------------------------------------------------
  // InvestmentAdvisor.get_strategy

  /** Percent allocations and the advice lines of one risk profile. */
  datatype Allocation = Allocation(stocks: int, bonds: int, gold: int, cash: int, rules: seq<string>)

  const HorizonMessage := "Investment horizon must be positive"
  const ProfileMessage := "Risk profile must be 'conservative', 'moderate', or 'aggressive'"

  const Strategies: seq<(string, Allocation)> := [
    ("conservative", Allocation(30, 50, 15, 5, ["Focus on capital preservation", "Recommend: Index funds + government bonds"])),
    ("moderate", Allocation(50, 35, 10, 5, ["Balance growth and stability", "Recommend: Balanced mutual funds"])),
    ("aggressive", Allocation(70, 20, 5, 5, ["Long-term growth focus", "Recommend: Growth stocks + sector ETFs"]))
  ]

  function IntMin(a: int, b: int): int { if a <= b then a else b }
  function IntMax(a: int, b: int): int { if a >= b then a else b }

  predicate KnownProfile(profile: string) {
    Lower(profile) in {"conservative", "moderate", "aggressive"}
  }

  /** Long horizons shift 10 points from bonds to stocks, short ones 20
      points from stocks to cash, each clamped to [0, 100]. */
  function AdjustForHorizon(base: Allocation, horizon: int): Allocation {
    if horizon > 10 then base.(stocks := IntMin(base.stocks + 10, 100), bonds := IntMax(base.bonds - 10, 0))
    else if horizon < 3 then base.(stocks := IntMax(base.stocks - 20, 0), cash := IntMin(base.cash + 20, 100))
    else base
  }

  function GetStrategy(profile: string, horizon: int): Result<Allocation> {
    if horizon <= 0 then Err(HorizonMessage)
    else if !KnownProfile(profile) then Err(ProfileMessage)
    else
      match Patterns.Lookup(Strategies, Lower(profile))
      case Some(base) => Ok(AdjustForHorizon(base, horizon))
      case None => Ok(AdjustForHorizon(Strategies[1].1, horizon))
  }

  predicate Whole(a: Allocation) {
    0 <= a.stocks <= 100 && 0 <= a.bonds <= 100 && 0 <= a.gold <= 100 && 0 <= a.cash <= 100 &&
    a.stocks + a.bonds + a.gold + a.cash == 100
  }

  lemma BaseAllocations(profile: string)
    requires KnownProfile(profile)
    ensures Patterns.Lookup(Strategies, Lower(profile)).Some?
    ensures var b := Patterns.Lookup(Strategies, Lower(profile)).value;
      Whole(b) && 30 <= b.stocks <= 70 && 20 <= b.bonds && b.cash == 5
  {
  }

  /** The error cases, in the order the source checks them, and a
      strategy whose shares are percentages summing to 100. */
  lemma StrategyOutcome(profile: string, horizon: int)
    ensures horizon <= 0 ==> GetStrategy(profile, horizon) == Err(HorizonMessage)
    ensures horizon > 0 && !KnownProfile(profile) ==> GetStrategy(profile, horizon) == Err(ProfileMessage)
    ensures GetStrategy(profile, horizon).Ok? <==> horizon > 0 && KnownProfile(profile)
    ensures GetStrategy(profile, horizon).Ok? ==> Whole(GetStrategy(profile, horizon).value)
  {
    if horizon > 0 && KnownProfile(profile) {
      BaseAllocations(profile);
    }
  }

  /** The clamps never bind on the three tables: the horizon moves exactly
      10 or 20 points, and a long horizon holds 30 points more stocks than
      a short one. */
  lemma HorizonShift(profile: string, short: int, middle: int, long: int)
    requires KnownProfile(profile) && 0 < short < 3 && 3 <= middle <= 10 && long > 10
    ensures var b := Patterns.Lookup(Strategies, Lower(profile)).value;
      var s := GetStrategy(profile, short).value;
      var m := GetStrategy(profile, middle).value;
      var l := GetStrategy(profile, long).value;
      m == b &&
      l == b.(stocks := b.stocks + 10, bonds := b.bonds - 10) &&
      s == b.(stocks := b.stocks - 20, cash := b.cash + 20) &&
      l.stocks == s.stocks + 30
  {
    BaseAllocations(profile);
  }

  // ---------------------------------------------------------------------
  // SavingsOptimizer.calculate_plan

  datatype SavingsPlan = SavingsPlan(
    requiredMonthly: real, recommendedMonthly: real, successProbability: real, investingAdvice: bool)

  const SavingsInputMessage := "Savings, goal, and income must be non-negative"
  const TimeframeMessage := "Timeframe must be positive"
  const AffordableShare: real := 0.3
  const AdviceThreshold: real := 0.7

  /** `successRate` is the share of simulated outcomes reaching the goal,
      which the model takes as given. */
  function CalculatePlan(current: real, goal: real, timeframe: int, income: real, successRate: real): Result<SavingsPlan> {
    if current < 0.0 || goal < 0.0 || income < 0.0 then Err(SavingsInputMessage)
    else if timeframe <= 0 then Err(TimeframeMessage)
    else
      var months := IntMax(timeframe, 1);
      var required := (goal - current) / (months as real);
      var affordable := Min(required, income * AffordableShare);
      Ok(SavingsPlan(required, affordable, successRate, successRate < AdviceThreshold))
  }

  /** Errors, the required amount that closes the gap over the timeframe,
      the recommendation capped at 30% of income, and the advice flag. */
  lemma PlanMeaning(current: real, goal: real, timeframe: int, income: real, successRate: real)
    ensures var r := CalculatePlan(current, goal, timeframe, income, successRate);
      (r.Err? <==> current < 0.0 || goal < 0.0 || income < 0.0 || timeframe <= 0) &&
      (r.Err? && (current < 0.0 || goal < 0.0 || income < 0.0) ==> r.message == SavingsInputMessage) &&
      (r.Ok? ==>
        r.value.requiredMonthly * (timeframe as real) == goal - current &&
        r.value.recommendedMonthly <= r.value.requiredMonthly &&
        r.value.recommendedMonthly <= income * AffordableShare &&
        (r.value.recommendedMonthly == r.value.requiredMonthly || r.value.recommendedMonthly == income * AffordableShare) &&
        (r.value.investingAdvice <==> successRate < AdviceThreshold))
  {
  }

  /** As written, a goal already met yields a negative recommendation. */
  lemma GoalMetRecommendsNegative(successRate: real)
    ensures CalculatePlan(40000.0, 30000.0, 12, 5000.0, successRate).value.recommendedMonthly < 0.0
  {
    assert (30000.0 - 40000.0) / 12.0 < 0.0;
  }

  /** The recommendation clamped at zero, so that a met goal asks for no
      saving. */
  function CalculatePlanIntended(current: real, goal: real, timeframe: int, income: real, successRate: real): Result<SavingsPlan> {
    match CalculatePlan(current, goal, timeframe, income, successRate)
    case Err(m) => Err(m)
    case Ok(p) => Ok(p.(recommendedMonthly := Max0(p.recommendedMonthly)))
  }

  lemma IntendedPlanMeaning(current: real, goal: real, timeframe: int, income: real, successRate: real)
    ensures var r := CalculatePlanIntended(current, goal, timeframe, income, successRate);
      (r.Err? <==> CalculatePlan(current, goal, timeframe, income, successRate).Err?) &&
      (r.Ok? ==> 0.0 <= r.value.recommendedMonthly <= income * AffordableShare) &&
      (r.Ok? && goal <= current ==> r.value.recommendedMonthly == 0.0) &&
      (r.Ok? && goal > current ==>
        r.value.recommendedMonthly == Min(r.value.requiredMonthly, income * AffordableShare))
  {
    var p := CalculatePlan(current, goal, timeframe, income, successRate);
    if p.Ok? && goal <= current {
      var m := timeframe as real;
      assert p.value.requiredMonthly * m == goal - current;
      assert p.value.requiredMonthly <= 0.0;
    }
    if p.Ok? && goal > current {
      var m := timeframe as real;
      assert p.value.requiredMonthly * m == goal - current;
      assert p.value.requiredMonthly > 0.0;
    }
  }

  // ---------------------------------------------------------------------
  // Monthly statistics

  /** Sum of squared deviations from `m`. */
  function SquaredDeviations(s: seq<real>, m: real): real {
    if |s| == 0 then 0.0 else SquaredDeviations(s[..|s| - 1], m) + (s[|s| - 1] - m) * (s[|s| - 1] - m)
  }

  /** pandas' default sample variance (one degree of freedom). */
  function SampleVariance(s: seq<real>): real
    requires |s| >= 2
  {
    SquaredDeviations(s, Mean(s)) / ((|s| - 1) as real)
  }

  /** `std` is what pandas reports for `s`: undefined below two values,
      otherwise the non-negative square root of the sample variance, which
      is zero exactly when the variance is. */
  predicate IsSampleStd(std: Option<real>, s: seq<real>) {
    if |s| < 2 then std.None?
    else
      std.Some? && std.value >= 0.0 && std.value * std.value == SampleVariance(s) &&
      (std.value == 0.0 <==> SampleVariance(s) == 0.0)
  }

  lemma {:induction false} EqualValuesNoDeviation(s: seq<real>, c: real)
    requires forall i :: 0 <= i < |s| ==> s[i] == c
    ensures SquaredDeviations(s, c) == 0.0
  {
    if |s| > 0 {
      EqualValuesNoDeviation(s[..|s| - 1], c);
    }
  }

  /** Equal values have standard deviation zero. */
  lemma EqualValuesZeroStd(std: Option<real>, s: seq<real>, c: real)
    requires IsSampleStd(std, s) && |s| >= 2
    requires forall i :: 0 <= i < |s| ==> s[i] == c
    ensures std == Some(0.0)
  {
    MeanOfEqual(s, c);
    EqualValuesNoDeviation(s, c);
    assert SquaredDeviations(s, Mean(s)) == 0.0;
  }

  // ---------------------------------------------------------------------
  // EmergencyFundAdvisor.recommend

  datatype FundConfig = FundConfig(minMonths: int, maxMonths: int)

  const DefaultFund := FundConfig(3, 6)
  const NoExpenseMessage := "No valid expense data available"

  datatype FundAdvice = FundAdvice(
    low: real, high: real, avgMonthlyExpense: real, spread: real, incomeStability: string, dependents: int)

  /** +20% for variable income, +10% per dependent. */
  function AdjustmentFactor(incomeStability: string, dependents: int): real {
    (if incomeStability == "variable" then 1.2 else 1.0) + 0.1 * (dependents as real)
  }

  /** A zero or undefined spread falls back to a tenth of the mean. */
  function Spread(avg: real, std: Option<real>): real {
    if std.None? || std.value == 0.0 then avg * 0.1 else std.value
  }

  /** `monthly` holds the monthly expense totals and `std` their sample
      standard deviation. */
  function Recommend(cfg: FundConfig, monthly: seq<real>, std: Option<real>, incomeStability: string, dependents: int): Result<FundAdvice>
    requires IsSampleStd(std, monthly)
  {
    if |monthly| == 0 then Err(NoExpenseMessage)
    else
      var avg := Mean(monthly);
      var factor := AdjustmentFactor(incomeStability, dependents);
      Ok(FundAdvice(avg * (cfg.minMonths as real) * factor, avg * (cfg.maxMonths as real) * factor,
                    avg, Spread(avg, std), incomeStability, dependents))
  }

  lemma Scale(x: real, y: real, f: real, g: real)
    requires x > 0.0 && y > 0.0 && f < g
    ensures x * y * f < x * y * g
  {
    assert x * y > 0.0;
  }

  /** More dependents raise both ends of the range strictly. */
  lemma DependentsRaiseRange(cfg: FundConfig, monthly: seq<real>, std: Option<real>, incomeStability: string, fewer: int, more: int)
    requires IsSampleStd(std, monthly) && |monthly| > 0 && Mean(monthly) > 0.0
    requires cfg.minMonths > 0 && cfg.maxMonths > 0 && fewer < more
    ensures var a := Recommend(cfg, monthly, std, incomeStability, fewer).value;
      var b := Recommend(cfg, monthly, std, incomeStability, more).value;
      a.low < b.low && a.high < b.high
  {
    var avg := Mean(monthly);
    var f := AdjustmentFactor(incomeStability, fewer);
    var g := AdjustmentFactor(incomeStability, more);
    assert f < g;
    RecommendRange(cfg, monthly, std, incomeStability, fewer);
    RecommendRange(cfg, monthly, std, incomeStability, more);
    var a := Recommend(cfg, monthly, std, incomeStability, fewer).value;
    var b := Recommend(cfg, monthly, std, incomeStability, more).value;
    assert a.low < b.low by {
      Scale(avg, cfg.minMonths as real, f, g);
    }
    assert a.high < b.high by {
      Scale(avg, cfg.maxMonths as real, f, g);
    }
  }

  /** A recommendation spans the mean times the adjusted bounds in months. */
  lemma RecommendRange(cfg: FundConfig, monthly: seq<real>, std: Option<real>, incomeStability: string, dependents: int)
    requires IsSampleStd(std, monthly) && |monthly| > 0
    ensures var r := Recommend(cfg, monthly, std, incomeStability, dependents);
      var f := AdjustmentFactor(incomeStability, dependents);
      r.Ok? && r.value.avgMonthlyExpense == Mean(monthly) &&
      r.value.low == Mean(monthly) * (cfg.minMonths as real) * f &&
      r.value.high == Mean(monthly) * (cfg.maxMonths as real) * f
  {
  }

  lemma OrderedRange(avg: real, f: real, fewer: real, more: real)
    requires avg >= 0.0 && f >= 0.0 && 0.0 <= fewer <= more
    ensures 0.0 <= avg * fewer * f <= avg * more * f
  {
    assert avg * f >= 0.0;
    assert avg * fewer * f == (avg * f) * fewer;
    assert avg * more * f == (avg * f) * more;
    assert (avg * f) * fewer <= (avg * f) * more;
  }

  /** Variable income raises both ends of the range strictly. */
  lemma VariableIncomeRaisesRange(cfg: FundConfig, monthly: seq<real>, std: Option<real>, dependents: int)
    requires IsSampleStd(std, monthly) && |monthly| > 0 && Mean(monthly) > 0.0
    requires cfg.minMonths > 0 && cfg.maxMonths > 0
    ensures var a := Recommend(cfg, monthly, std, "stable", dependents).value;
      var b := Recommend(cfg, monthly, std, "variable", dependents).value;
      a.low < b.low && a.high < b.high
  {
    var avg := Mean(monthly);
    var f := AdjustmentFactor("stable", dependents);
    var g := AdjustmentFactor("variable", dependents);
    RecommendRange(cfg, monthly, std, "stable", dependents);
    RecommendRange(cfg, monthly, std, "variable", dependents);
    var a := Recommend(cfg, monthly, std, "stable", dependents).value;
    var b := Recommend(cfg, monthly, std, "variable", dependents).value;
    assert a.low < b.low by {
      Scale(avg, cfg.minMonths as real, f, g);
    }
    assert a.high < b.high by {
      Scale(avg, cfg.maxMonths as real, f, g);
    }
  }

  /** The range is ordered and the average lies between the smallest and
      largest month; a single month or equal months use the fallback
      spread. */
  lemma FundAdviceMeaning(cfg: FundConfig, monthly: seq<real>, std: Option<real>, incomeStability: string, dependents: int, lo: real, hi: real)
    requires IsSampleStd(std, monthly)
    requires forall i :: 0 <= i < |monthly| ==> lo <= monthly[i] <= hi
    ensures var r := Recommend(cfg, monthly, std, incomeStability, dependents);
      (r.Err? <==> |monthly| == 0) &&
      (r.Ok? ==> lo <= r.value.avgMonthlyExpense <= hi) &&
      (r.Ok? && 0.0 <= lo && dependents >= 0 && 0 <= cfg.minMonths <= cfg.maxMonths ==> 0.0 <= r.value.low <= r.value.high) &&
      (r.Ok? && (|monthly| == 1 || lo == hi) ==> r.value.spread == r.value.avgMonthlyExpense * 0.1)
  {
    if |monthly| > 0 {
      MeanBounds(monthly, lo, hi);
      var avg := Mean(monthly);
      var f := AdjustmentFactor(incomeStability, dependents);
      RecommendRange(cfg, monthly, std, incomeStability, dependents);
      if 0.0 <= lo && dependents >= 0 && 0 <= cfg.minMonths <= cfg.maxMonths {
        OrderedRange(avg, f, cfg.minMonths as real, cfg.maxMonths as real);
      }
      if |monthly| >= 2 && lo == hi {
        EqualValuesZeroStd(std, monthly, lo);
      }
    }
  }

  // ---------------------------------------------------------------------
  // BudgetForecaster.forecast

  /** The window size, the confidence level and its two-sided normal
      quantile `z`, computed by the constructor. */
  datatype ForecastConfig = ForecastConfig(window: nat, confidenceLevel: real, z: real)

  const NoHistoryMessage := "No valid historical data available"

  /** The confidence interval: absent for too little data, NaN when the
      window's standard deviation is undefined, or a pair of bounds. */
  datatype Interval = Absent | Undefined | Bounds(low: real, high: real)

  datatype Forecast = Forecast(prediction: real, interval: Interval, methodName: string, confidenceLevel: real)

  function LastWindow(monthly: seq<real>, window: nat): seq<real>
    requires window <= |monthly|
  {
    monthly[|monthly| - window..]
  }

  /** `monthly` holds the monthly totals; `std` is the sample standard
      deviation of the last window when there are enough months. */
  function ForecastSpec(cfg: ForecastConfig, monthly: seq<real>, std: Option<real>): Result<Forecast>
    requires cfg.window >= 1
    requires |monthly| >= cfg.window ==> IsSampleStd(std, LastWindow(monthly, cfg.window))
  {
    var title := Patterns.DecimalString(cfg.window) + "-month moving average";
    if |monthly| == 0 then Err(NoHistoryMessage)
    else if |monthly| < cfg.window then
      Ok(Forecast(Mean(monthly), Absent, title + " (insufficient data)", cfg.confidenceLevel))
    else
      var mean := Mean(LastWindow(monthly, cfg.window));
      var interval := if std.None? then Undefined else Bounds(mean - cfg.z * std.value, mean + cfg.z * std.value);
      Ok(Forecast(mean, interval, title, cfg.confidenceLevel))
  }

  /** Fewer months than the window degrade to the plain mean with no
      interval; otherwise the interval is symmetric about the mean of the
      last window and contains it. Either way the prediction lies within
      the range of the totals it averages. */
  lemma ForecastMeaning(cfg: ForecastConfig, monthly: seq<real>, std: Option<real>, lo: real, hi: real)
    requires cfg.window >= 1
    requires |monthly| >= cfg.window ==> IsSampleStd(std, LastWindow(monthly, cfg.window))
    requires forall i :: 0 <= i < |monthly| ==> lo <= monthly[i] <= hi
    ensures var r := ForecastSpec(cfg, monthly, std);
      (r.Err? <==> |monthly| == 0) &&
      (r.Ok? ==> lo <= r.value.prediction <= hi) &&
      (r.Ok? ==> (r.value.interval == Absent <==> |monthly| < cfg.window)) &&
      (r.Ok? && |monthly| < cfg.window ==> r.value.prediction == Mean(monthly)) &&
      (r.Ok? && r.value.interval.Bounds? ==>
        r.value.interval.high - r.value.prediction == r.value.prediction - r.value.interval.low &&
        (cfg.z >= 0.0 ==> r.value.interval.low <= r.value.prediction <= r.value.interval.high))
  {
    if |monthly| > 0 {
      if |monthly| < cfg.window {
        MeanBounds(monthly, lo, hi);
      } else {
        var w := LastWindow(monthly, cfg.window);
        forall i | 0 <= i < |w| ensures lo <= w[i] <= hi {
          assert w[i] == monthly[|monthly| - cfg.window + i];
        }
        MeanBounds(w, lo, hi);
        if std.Some? && cfg.z >= 0.0 {
          assert cfg.z * std.value >= 0.0;
        }
      }
    }
  }

  /** A window of equal totals predicts that total with a zero-width
      interval. */
  lemma FlatHistory(cfg: ForecastConfig, monthly: seq<real>, std: Option<real>, c: real)
    requires cfg.window >= 2 && |monthly| >= cfg.window
    requires IsSampleStd(std, LastWindow(monthly, cfg.window))
    requires forall i :: |monthly| - cfg.window <= i < |monthly| ==> monthly[i] == c
    ensures ForecastSpec(cfg, monthly, std) == Ok(Forecast(c, Bounds(c, c), Patterns.DecimalString(cfg.window) + "-month moving average", cfg.confidenceLevel))
  {
    var w := LastWindow(monthly, cfg.window);
    forall i | 0 <= i < |w| ensures w[i] == c {
      assert w[i] == monthly[|monthly| - cfg.window + i];
    }
    MeanOfEqual(w, c);
    EqualValuesZeroStd(std, w, c);
  }
}
