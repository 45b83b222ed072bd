// The debt payoff planner: validation of the debt list, the avalanche or
// snowball ordering, and the month-by-month payoff simulation with its
// 1000-month safety cap.

module DebtPayoff {
  import opened Wrappers
  import opened Text
  import opened Numbers
  import Sorting

  /** A debt as supplied by the caller: any of the three keys may be absent. */
  datatype DebtInput = DebtInput(balance: Option<real>, rate: Option<real>, minPayment: Option<real>)

  /** A validated debt; `rate` is the yearly interest rate as a fraction. */
  datatype Debt = Debt(balance: real, rate: real, minPayment: real)

  datatype Plan = Plan(totalMonths: nat, totalInterest: real, methodName: string)

  datatype Strategy = Snowball | Avalanche

  const MonthCap: nat := 1000
  const MissingKeyMessage := "Each debt must have 'balance', 'rate', and 'min_payment'"
  const NegativeMessage := "Debt values must be non-negative"
  const CapMessage := "Debt payoff exceeds 1000 months"
  const NoDebtsMethod := "No debts provided"

  // ---------------------------------------------------------------------
  // Validation

  predicate Complete(d: DebtInput) {
    d.balance.Some? && d.rate.Some? && d.minPayment.Some?
  }

  predicate Good(d: DebtInput) {
    Complete(d) && d.balance.value >= 0.0 && d.rate.value >= 0.0 && d.minPayment.value >= 0.0
  }

  /** The message raised for the first debt that fails validation. */
  function BadMessage(d: DebtInput): string {
    if !Complete(d) then MissingKeyMessage else NegativeMessage
  }

  function ToDebt(d: DebtInput): Debt
    requires Complete(d)
  {
    Debt(d.balance.value, d.rate.value, d.minPayment.value)
  }

  predicate NonNegative(d: Debt) {
    d.balance >= 0.0 && d.rate >= 0.0 && d.minPayment >= 0.0
  }

  /** Checks the debts in order; the first bad one decides the error. */
  function Validate(debts: seq<DebtInput>): Result<seq<Debt>>
  {
    if |debts| == 0 then Ok([])
    else if !Good(debts[0]) then Err(BadMessage(debts[0]))
    else
      match Validate(debts[1..])
      case Err(m) => Err(m)
      case Ok(rest) => Ok([ToDebt(debts[0])] + rest)
  }

  lemma {:induction false} ValidateAccepts(debts: seq<DebtInput>)
    ensures Validate(debts).Ok? <==> forall i :: 0 <= i < |debts| ==> Good(debts[i])
    ensures Validate(debts).Ok? ==>
      |Validate(debts).value| == |debts| &&
      forall i :: 0 <= i < |debts| ==> Validate(debts).value[i] == ToDebt(debts[i])
  {
    if |debts| > 0 {
      ValidateAccepts(debts[1..]);
      if Good(debts[0]) && Validate(debts[1..]).Ok? {
        var v := Validate(debts).value;
        forall i | 0 < i < |debts| ensures v[i] == ToDebt(debts[i]) {
          assert debts[1..][i - 1] == debts[i];
        }
      }
      if !Validate(debts).Ok? && Good(debts[0]) {
        var i :| 0 <= i < |debts[1..]| && !Good(debts[1..][i]);
        assert debts[i + 1] == debts[1..][i];
      }
    }
  }

  /** The error names the first debt that is not good. */
  lemma {:induction false} ValidateRejectsFirstBad(debts: seq<DebtInput>, i: nat)
    requires i < |debts| && !Good(debts[i])
    requires forall j :: 0 <= j < i ==> Good(debts[j])
    ensures Validate(debts) == Err(BadMessage(debts[i]))
  {
    if i > 0 {
      assert debts[1..][i - 1] == debts[i];
      ValidateRejectsFirstBad(debts[1..], i - 1);
    }
  }

  // ---------------------------------------------------------------------
  // Ordering

  function StrategyOf(requested: string): Strategy {
    if Lower(requested) == "snowball" then Snowball else Avalanche
  }

  function MethodName(st: Strategy): string {
    match st
    case Snowball => "Snowball (Lowest Balance First)"
    case Avalanche => "Avalanche (Highest Interest First)"
  }

  /** The ascending sort keys: the balance for snowball, the negated rate
      for avalanche (a stable descending sort by rate is a stable ascending
      sort by its negation). */
  const BySnowball: Debt -> real := (d: Debt) => d.balance
  const ByAvalanche: Debt -> real := (d: Debt) => -d.rate

  function KeyFor(st: Strategy): Debt -> real {
    if st == Snowball then BySnowball else ByAvalanche
  }

  function SortDebts(st: Strategy, ds: seq<Debt>): seq<Debt> {
    Sorting.Sort(KeyFor(st), ds)
  }

  /** Snowball orders by ascending balance, avalanche by descending rate;
      both permute the debts and keep debts with equal keys in their given
      order. */
  lemma OrderingMeaning(st: Strategy, ds: seq<Debt>)
    ensures var s := SortDebts(st, ds);
      multiset(s) == multiset(ds) &&
      (st == Snowball ==> forall i, j :: 0 <= i < j < |s| ==> s[i].balance <= s[j].balance) &&
      (st == Avalanche ==> forall i, j :: 0 <= i < j < |s| ==> s[i].rate >= s[j].rate) &&
      forall k :: Sorting.WithKey(KeyFor(st), k, s) == Sorting.WithKey(KeyFor(st), k, ds)
  {
    Sorting.SortCorrect(KeyFor(st), ds);
    var s := SortDebts(st, ds);
    if st == Avalanche {
      forall i, j | 0 <= i < j < |s| ensures s[i].rate >= s[j].rate {
        assert KeyFor(st)(s[i]) <= KeyFor(st)(s[j]);
      }
    }
  }

  // ---------------------------------------------------------------------
  // One month of the simulation

  function Balances(ds: seq<Debt>): (r: seq<real>)
    ensures |r| == |ds|
  {
    seq(|ds|, i requires 0 <= i < |ds| => ds[i].balance)
  }

  /** The monthly pool: the sum of the minimum payments. */
  function Pool(ds: seq<Debt>): real {
    if |ds| == 0 then 0.0 else Pool(ds[..|ds| - 1]) + ds[|ds| - 1].minPayment
  }

  predicate AllNonNegative(s: seq<real>) {
    forall i :: 0 <= i < |s| ==> s[i] >= 0.0
  }

  predicate HasPositive(s: seq<real>) {
    exists i :: 0 <= i < |s| && s[i] > 0.0
  }

  /** Interest accrues only on a positive balance. */
  function InterestOn(b: real, rate: real): real {
    if b > 0.0 then b * rate / 12.0 else 0.0
  }

  function Accrued(bals: seq<real>, ds: seq<Debt>): (r: seq<real>)
    requires |bals| == |ds|
    ensures |r| == |bals|
  {
    seq(|bals|, i requires 0 <= i < |bals| => bals[i] + InterestOn(bals[i], ds[i].rate))
  }

  function MonthInterest(bals: seq<real>, ds: seq<Debt>): real
    requires |bals| == |ds|
  {
    if |bals| == 0 then 0.0
    else MonthInterest(bals[..|bals| - 1], ds[..|ds| - 1]) + InterestOn(bals[|bals| - 1], ds[|ds| - 1].rate)
  }

  /** Balances after a payment step, and what is left of the pool. */
  datatype Paid = Paid(balances: seq<real>, available: real)

  /** One positive debt pays min(minimum, pool, balance). */
  function PayMinimum(b: real, minPayment: real, available: real): Paid {
    if b > 0.0 then
      var p := Min(Min(minPayment, available), b);
      Paid([Max0(b - p)], available - p)
    else Paid([b], available)
  }

  function PayMinimums(bals: seq<real>, ds: seq<Debt>, pool: real): (r: Paid)
    requires |bals| == |ds|
    ensures |r.balances| == |bals|
  {
    if |bals| == 0 then Paid([], pool)
    else
      var before := PayMinimums(bals[..|bals| - 1], ds[..|ds| - 1], pool);
      var last := PayMinimum(bals[|bals| - 1], ds[|ds| - 1].minPayment, before.available);
      Paid(before.balances + last.balances, last.available)
  }

  /** The leftover pool goes to the first debt, from index `i` on, that is
      still positive while some pool is left; no other debt gets it. */
  function Surplus(bals: seq<real>, available: real, i: nat): (r: Paid)
    requires i <= |bals|
    ensures |r.balances| == |bals|
    decreases |bals| - i
  {
    if i == |bals| then Paid(bals, available)
    else if bals[i] > 0.0 && available > 0.0 then
      var p := Min(bals[i], available);
      Paid(bals[i := Max0(bals[i] - p)], available - p)
    else Surplus(bals, available, i + 1)
  }

  datatype MonthEnd = MonthEnd(balances: seq<real>, interest: real)

  function Month(bals: seq<real>, ds: seq<Debt>, pool: real): (r: MonthEnd)
    requires |bals| == |ds|
    ensures |r.balances| == |bals|
  {
    var accrued := Accrued(bals, ds);
    var paid := PayMinimums(accrued, ds, pool);
    MonthEnd(Surplus(paid.balances, paid.available, 0).balances, MonthInterest(bals, ds))
  }

  /** The optimizer's month as a step on balances; balances of another
      length than the debts are never simulated and are left as they are. */
  function MonthOf(ds: seq<Debt>, pool: real): seq<real> -> MonthEnd {
    bals => if |bals| == |ds| then Month(bals, ds, pool) else MonthEnd(bals, 0.0)
  }

  /** Months run by `step` from `months` on until nothing is owed; the run
      fails when month 1000 ends with a positive balance. */
  function Run(step: seq<real> -> MonthEnd, bals: seq<real>, months: nat, interest: real): Result<(nat, real)>
    requires months <= MonthCap
    decreases MonthCap - months
  {
    if !HasPositive(bals) then Ok((months, interest))
    else if months == MonthCap then Err(CapMessage)
    else
      var m := step(bals);
      Run(step, m.balances, months + 1, interest + m.interest)
  }

  /** The balances after `k` months run by `step`. */
  function Advance(step: seq<real> -> MonthEnd, bals: seq<real>, k: nat): seq<real>
    decreases k
  {
    if k == 0 then bals else Advance(step, step(bals).balances, k - 1)
  }

  /** The optimizer's run over the debts in their chosen order. */
  function Payoff(bals: seq<real>, ds: seq<Debt>, pool: real, months: nat, interest: real): Result<(nat, real)>
    requires months <= MonthCap
  {
    Run(MonthOf(ds, pool), bals, months, interest)
  }

  /** The balances after `k` simulated months. */
  function After(bals: seq<real>, ds: seq<Debt>, pool: real, k: nat): seq<real> {
    Advance(MonthOf(ds, pool), bals, k)
  }

  function OptimizeSpec(debts: seq<DebtInput>, requested: string): Result<Plan> {
    if |debts| == 0 then Ok(Plan(0, 0.0, NoDebtsMethod))
    else
      match Validate(debts)
      case Err(m) => Err(m)
      case Ok(ds) =>
        var st := StrategyOf(requested);
        var sorted := SortDebts(st, ds);
        match Payoff(Balances(sorted), sorted, Pool(sorted), 0, 0.0)
        case Err(m) => Err(m)
        case Ok(done) => Ok(Plan(done.0, done.1, MethodName(st)))
  }

  // ---------------------------------------------------------------------
  // Properties of the simulation

  predicate AllNonNegativeDebts(ds: seq<Debt>) {
    forall i :: 0 <= i < |ds| ==> NonNegative(ds[i])
  }

  lemma InterestNonNegative(b: real, rate: real)
    requires rate >= 0.0
    ensures InterestOn(b, rate) >= 0.0
  {
    if b > 0.0 {
      assert b * rate >= 0.0;
    }
  }

  lemma {:induction false} MonthInterestNonNegative(bals: seq<real>, ds: seq<Debt>)
    requires |bals| == |ds| && AllNonNegativeDebts(ds)
    ensures MonthInterest(bals, ds) >= 0.0
  {
    if |bals| > 0 {
      MonthInterestNonNegative(bals[..|bals| - 1], ds[..|ds| - 1]);
      InterestNonNegative(bals[|bals| - 1], ds[|ds| - 1].rate);
    }
  }

  /** A minimum payment takes from the balance exactly what it takes from
      the pool, and keeps both non-negative. */
  lemma PayMinimumFacts(b: real, minPayment: real, available: real)
    requires b >= 0.0 && minPayment >= 0.0 && available >= 0.0
    ensures var r := PayMinimum(b, minPayment, available);
      |r.balances| == 1 && r.balances[0] >= 0.0 &&
      0.0 <= r.available <= available &&
      b - r.balances[0] == available - r.available
  {
  }

  /** The minimum payments reduce the balances by exactly what leaves the
      pool, and keep balances and pool non-negative. */
  lemma {:induction false} PayMinimumsConserve(bals: seq<real>, ds: seq<Debt>, pool: real)
    requires |bals| == |ds| && AllNonNegative(bals) && AllNonNegativeDebts(ds) && pool >= 0.0
    ensures var r := PayMinimums(bals, ds, pool);
      AllNonNegative(r.balances) && 0.0 <= r.available <= pool &&
      Sum(bals) - Sum(r.balances) == pool - r.available
  {
    if |bals| > 0 {
      var n := |bals| - 1;
      var before := PayMinimums(bals[..n], ds[..n], pool);
      PayMinimumsConserve(bals[..n], ds[..n], pool);
      PayMinimumFacts(bals[n], ds[n].minPayment, before.available);
      var last := PayMinimum(bals[n], ds[n].minPayment, before.available);
      SumAppend(before.balances, last.balances[0]);
      assert Sum(bals) == Sum(bals[..n]) + bals[n];
      var r := PayMinimums(bals, ds, pool);
      assert r.balances == before.balances + [last.balances[0]];
      forall j | 0 <= j < |r.balances| ensures r.balances[j] >= 0.0 {
        if j < n {
          assert r.balances[j] == before.balances[j];
        }
      }
    }
  }

  /** The first index at or after `i` whose balance is positive. */
  function FirstPositive(bals: seq<real>, i: nat): (r: nat)
    requires i <= |bals|
    ensures i <= r <= |bals|
    decreases |bals| - i
  {
    if i == |bals| || bals[i] > 0.0 then i else FirstPositive(bals, i + 1)
  }

  /** The surplus goes only to the first positive debt, and only while some
      pool is left; it reduces that balance by exactly what leaves the pool. */
  lemma {:induction false} SurplusFacts(bals: seq<real>, available: real, i: nat)
    requires i <= |bals| && AllNonNegative(bals) && available >= 0.0
    ensures var r := Surplus(bals, available, i);
      var f := FirstPositive(bals, i);
      AllNonNegative(r.balances) && 0.0 <= r.available <= available &&
      Sum(bals) - Sum(r.balances) == available - r.available &&
      (forall j :: 0 <= j < |bals| && j != f ==> r.balances[j] == bals[j]) &&
      (f < |bals| && available > 0.0 ==> r.available < available)
    decreases |bals| - i
  {
    if i < |bals| {
      if bals[i] > 0.0 && available > 0.0 {
        var p := Min(bals[i], available);
        assert Max0(bals[i] - p) == bals[i] - p;
        SumUpdate(bals, i, bals[i] - p);
      } else if available == 0.0 {
        SurplusFromEmptyPool(bals, i);
      } else {
        SurplusFacts(bals, available, i + 1);
      }
    }
  }

  /** Under a sorted order the surplus lands on the positive debt that comes
      first by the strategy: the lowest balance for snowball, the highest
      rate for avalanche. */
  lemma SurplusTargetsPriority(st: Strategy, ds: seq<Debt>, bals: seq<real>, available: real, j: nat)
    requires |bals| == |ds| && Sorting.Sorted(KeyFor(st), ds) && AllNonNegative(bals) && available >= 0.0
    requires j < |bals| && Surplus(bals, available, 0).balances[j] != bals[j]
    ensures bals[j] > 0.0
    ensures forall l :: 0 <= l < |bals| && bals[l] > 0.0 ==> KeyFor(st)(ds[j]) <= KeyFor(st)(ds[l])
  {
    SurplusFacts(bals, available, 0);
    FirstPositiveIsFirst(bals, 0);
  }

  lemma {:induction false} FirstPositiveIsFirst(bals: seq<real>, i: nat)
    requires i <= |bals|
    ensures var f := FirstPositive(bals, i);
      (f < |bals| ==> bals[f] > 0.0) && forall l :: i <= l < f ==> bals[l] <= 0.0
    decreases |bals| - i
  {
    if i < |bals| && bals[i] <= 0.0 {
      FirstPositiveIsFirst(bals, i + 1);
    }
  }

  lemma AccruedNonNegative(bals: seq<real>, ds: seq<Debt>)
    requires |bals| == |ds| && AllNonNegative(bals) && AllNonNegativeDebts(ds)
    ensures AllNonNegative(Accrued(bals, ds))
    ensures forall i :: 0 <= i < |bals| ==> Accrued(bals, ds)[i] >= bals[i]
  {
    forall i | 0 <= i < |bals| ensures Accrued(bals, ds)[i] >= bals[i] {
      InterestNonNegative(bals[i], ds[i].rate);
    }
  }

  /** A month keeps every balance non-negative and charges non-negative
      interest. */
  lemma MonthNonNegative(bals: seq<real>, ds: seq<Debt>, pool: real)
    requires |bals| == |ds| && AllNonNegative(bals) && AllNonNegativeDebts(ds) && pool >= 0.0
    ensures AllNonNegative(Month(bals, ds, pool).balances)
    ensures Month(bals, ds, pool).interest >= 0.0
  {
    var accrued := Accrued(bals, ds);
    AccruedNonNegative(bals, ds);
    PayMinimumsConserve(accrued, ds, pool);
    var paid := PayMinimums(accrued, ds, pool);
    SurplusFacts(paid.balances, paid.available, 0);
    MonthInterestNonNegative(bals, ds);
  }

  lemma {:induction false} PoolNonNegative(ds: seq<Debt>)
    requires AllNonNegativeDebts(ds)
    ensures Pool(ds) >= 0.0
  {
    if |ds| > 0 {
      PoolNonNegative(ds[..|ds| - 1]);
    }
  }

  /** The run stops at the first month after which nothing is owed, and
      fails exactly when something is still owed after month 1000. */
  lemma PayoffMeaning(bals: seq<real>, ds: seq<Debt>, pool: real, months: nat, interest: real)
    requires months <= MonthCap
    ensures var r := Payoff(bals, ds, pool, months, interest);
      (r.Ok? ==>
        months <= r.value.0 <= MonthCap &&
        !HasPositive(After(bals, ds, pool, r.value.0 - months)) &&
        forall k :: 0 <= k < r.value.0 - months ==> HasPositive(After(bals, ds, pool, k))) &&
      (r.Err? ==>
        r.message == CapMessage &&
        forall k :: 0 <= k <= MonthCap - months ==> HasPositive(After(bals, ds, pool, k)))
  {
    RunSucceeds(MonthOf(ds, pool), bals, months, interest);
    RunFails(MonthOf(ds, pool), bals, months, interest);
  }

  lemma {:induction false} RunSucceeds(step: seq<real> -> MonthEnd, bals: seq<real>, months: nat, interest: real)
    requires months <= MonthCap
    ensures var r := Run(step, bals, months, interest);
      r.Ok? ==>
        months <= r.value.0 <= MonthCap &&
        !HasPositive(Advance(step, bals, r.value.0 - months)) &&
        forall k :: 0 <= k < r.value.0 - months ==> HasPositive(Advance(step, bals, k))
    decreases MonthCap - months
  {
    if HasPositive(bals) && months < MonthCap {
      var m := step(bals);
      RunSucceeds(step, m.balances, months + 1, interest + m.interest);
      assert forall k :: 0 < k ==> Advance(step, bals, k) == Advance(step, m.balances, k - 1);
    }
  }

  lemma {:induction false} RunFails(step: seq<real> -> MonthEnd, bals: seq<real>, months: nat, interest: real)
    requires months <= MonthCap
    ensures var r := Run(step, bals, months, interest);
      r.Err? ==>
        r.message == CapMessage &&
        forall k :: 0 <= k <= MonthCap - months ==> HasPositive(Advance(step, bals, k))
    decreases MonthCap - months
  {
    if HasPositive(bals) && months < MonthCap {
      var m := step(bals);
      RunFails(step, m.balances, months + 1, interest + m.interest);
      assert forall k :: 0 < k ==> Advance(step, bals, k) == Advance(step, m.balances, k - 1);
    }
  }

  /** Total interest never decreases. */
  lemma PayoffInterest(bals: seq<real>, ds: seq<Debt>, pool: real, months: nat, interest: real)
    requires months <= MonthCap && AllNonNegativeDebts(ds)
    ensures var r := Payoff(bals, ds, pool, months, interest);
      r.Ok? ==> r.value.1 >= interest
  {
    forall b ensures MonthOf(ds, pool)(b).interest >= 0.0 {
      if |b| == |ds| {
        MonthInterestNonNegative(b, ds);
      }
    }
    RunInterest(MonthOf(ds, pool), bals, months, interest);
  }

  lemma {:induction false} RunInterest(step: seq<real> -> MonthEnd, bals: seq<real>, months: nat, interest: real)
    requires months <= MonthCap
    requires forall b :: step(b).interest >= 0.0
    ensures var r := Run(step, bals, months, interest);
      r.Ok? ==> r.value.1 >= interest
    decreases MonthCap - months
  {
    if HasPositive(bals) && months < MonthCap {
      var m := step(bals);
      RunInterest(step, m.balances, months + 1, interest + m.interest);
    }
  }

  /** With no pool to pay from, interest only adds to a positive balance, so
      a debt that is owed stays owed. */
  lemma {:induction false} ZeroPoolKeepsDebt(bals: seq<real>, ds: seq<Debt>, i: nat)
    requires |bals| == |ds| && AllNonNegativeDebts(ds) && i < |bals| && bals[i] > 0.0
    ensures Month(bals, ds, 0.0).balances[i] >= bals[i]
  {
    var accrued := Accrued(bals, ds);
    InterestNonNegative(bals[i], ds[i].rate);
    ZeroPoolPaysNothing(accrued, ds);
    SurplusFromEmptyPool(accrued, 0);
  }

  lemma {:induction false} ZeroPoolPaysNothing(bals: seq<real>, ds: seq<Debt>)
    requires |bals| == |ds| && AllNonNegativeDebts(ds)
    ensures PayMinimums(bals, ds, 0.0) == Paid(bals, 0.0)
  {
    if |bals| > 0 {
      var n := |bals| - 1;
      ZeroPoolPaysNothing(bals[..n], ds[..n]);
      assert bals[..n] + [bals[n]] == bals;
    }
  }

  lemma {:induction false} SurplusFromEmptyPool(bals: seq<real>, i: nat)
    requires i <= |bals|
    ensures Surplus(bals, 0.0, i) == Paid(bals, 0.0)
    decreases |bals| - i
  {
    if i < |bals| {
      SurplusFromEmptyPool(bals, i + 1);
    }
  }

  lemma ZeroPoolNeverPaysOff(bals: seq<real>, ds: seq<Debt>, months: nat, interest: real)
    requires months <= MonthCap && AllNonNegativeDebts(ds) && HasPositive(bals)
    ensures Payoff(bals, ds, 0.0, months, interest) == Err(CapMessage)
  {
    forall b | HasPositive(b) ensures HasPositive(MonthOf(ds, 0.0)(b).balances) {
      if |b| == |ds| {
        ZeroPoolStaysOwed(b, ds);
      }
    }
    RunNeverPaysOff(MonthOf(ds, 0.0), bals, months, interest);
  }

  /** A step that never clears a positive balance runs into the cap. */
  lemma {:induction false} RunNeverPaysOff(step: seq<real> -> MonthEnd, bals: seq<real>, months: nat, interest: real)
    requires months <= MonthCap && HasPositive(bals)
    requires forall b :: HasPositive(b) ==> HasPositive(step(b).balances)
    ensures Run(step, bals, months, interest) == Err(CapMessage)
    decreases MonthCap - months
  {
    if months < MonthCap {
      var m := step(bals);
      RunNeverPaysOff(step, m.balances, months + 1, interest + m.interest);
    }
  }

  lemma ZeroPoolStaysOwed(bals: seq<real>, ds: seq<Debt>)
    requires |bals| == |ds| && AllNonNegativeDebts(ds) && HasPositive(bals)
    ensures HasPositive(Month(bals, ds, 0.0).balances)
  {
    var i :| 0 <= i < |bals| && bals[i] > 0.0;
    ZeroPoolKeepsDebt(bals, ds, i);
  }

  lemma {:induction false} PoolOfZeroMinimums(ds: seq<Debt>)
    requires forall i :: 0 <= i < |ds| ==> ds[i].minPayment == 0.0
    ensures Pool(ds) == 0.0
  {
    if |ds| > 0 {
      PoolOfZeroMinimums(ds[..|ds| - 1]);
    }
  }

  // ---------------------------------------------------------------------
  // Properties of the whole optimizer

  /** The outcome of optimize: the empty list, the validation errors, the
      1000-month cap, and the bounds of a successful plan. */
  lemma OptimizeOutcome(debts: seq<DebtInput>, requested: string)
    ensures var r := OptimizeSpec(debts, requested);
      (|debts| == 0 ==> r == Ok(Plan(0, 0.0, NoDebtsMethod))) &&
      (r.Err? ==> r.message == MissingKeyMessage || r.message == NegativeMessage || r.message == CapMessage) &&
      (r.Ok? && |debts| > 0 ==>
        (forall i :: 0 <= i < |debts| ==> Good(debts[i])) &&
        r.value.totalMonths <= MonthCap && r.value.totalInterest >= 0.0 &&
        r.value.methodName == MethodName(StrategyOf(requested)))
  {
    if |debts| > 0 {
      ValidateAccepts(debts);
      ValidateMessage(debts);
      var v := Validate(debts);
      if v.Ok? {
        var sorted := SortDebts(StrategyOf(requested), v.value);
        Sorting.SortCorrect(KeyFor(StrategyOf(requested)), v.value);
        SortedDebtsNonNegative(debts, v.value, sorted);
        PayoffMeaning(Balances(sorted), sorted, Pool(sorted), 0, 0.0);
        PayoffInterest(Balances(sorted), sorted, Pool(sorted), 0, 0.0);
      }
    }
  }

  lemma {:induction false} ValidateMessage(debts: seq<DebtInput>)
    ensures Validate(debts).Err? ==>
      Validate(debts).message == MissingKeyMessage || Validate(debts).message == NegativeMessage
  {
    if |debts| > 0 {
      ValidateMessage(debts[1..]);
    }
  }

  lemma SortedDebtsNonNegative(debts: seq<DebtInput>, valid: seq<Debt>, sorted: seq<Debt>)
    requires Validate(debts) == Ok(valid) && multiset(sorted) == multiset(valid)
    ensures AllNonNegativeDebts(sorted)
  {
    ValidateAccepts(debts);
    forall i | 0 <= i < |sorted| ensures NonNegative(sorted[i]) {
      assert sorted[i] in multiset(valid);
      var j :| 0 <= j < |valid| && valid[j] == sorted[i];
      assert Good(debts[j]);
    }
  }

  /** The first debt that fails validation decides the error. */
  lemma OptimizeRejects(debts: seq<DebtInput>, requested: string, i: nat)
    requires i < |debts| && !Good(debts[i])
    requires forall j :: 0 <= j < i ==> Good(debts[j])
    ensures OptimizeSpec(debts, requested) == Err(BadMessage(debts[i]))
  {
    ValidateRejectsFirstBad(debts, i);
  }

  /** Debts that are all already paid off take no months and no interest. */
  lemma OptimizeDebtFree(debts: seq<DebtInput>, requested: string)
    requires |debts| > 0
    requires forall i :: 0 <= i < |debts| ==> Good(debts[i]) && debts[i].balance.value == 0.0
    ensures OptimizeSpec(debts, requested) == Ok(Plan(0, 0.0, MethodName(StrategyOf(requested))))
  {
    ValidateAccepts(debts);
    var v := Validate(debts).value;
    var sorted := SortDebts(StrategyOf(requested), v);
    Sorting.SortCorrect(KeyFor(StrategyOf(requested)), v);
    forall i | 0 <= i < |sorted| ensures Balances(sorted)[i] == 0.0 {
      assert sorted[i] in multiset(v);
      var j :| 0 <= j < |v| && v[j] == sorted[i];
      assert v[j].balance == debts[j].balance.value;
    }
    assert !HasPositive(Balances(sorted));
  }

  /** Without minimum payments a positive balance is never paid off: the run
      ends in the 1000-month error. */
  lemma OptimizeNoMinimums(debts: seq<DebtInput>, requested: string, owed: nat)
    requires forall i :: 0 <= i < |debts| ==> Good(debts[i]) && debts[i].minPayment.value == 0.0
    requires owed < |debts| && Good(debts[owed]) && debts[owed].balance.value > 0.0
    ensures OptimizeSpec(debts, requested) == Err(CapMessage)
  {
    ValidateAccepts(debts);
    var v := Validate(debts).value;
    var st := StrategyOf(requested);
    var sorted := SortDebts(st, v);
    Sorting.SortCorrect(KeyFor(st), v);
    SortedDebtsNonNegative(debts, v, sorted);
    forall i | 0 <= i < |sorted| ensures sorted[i].minPayment == 0.0 {
      assert sorted[i] in multiset(v);
      var j :| 0 <= j < |v| && v[j] == sorted[i];
      assert v[j] == ToDebt(debts[j]);
    }
    PoolOfZeroMinimums(sorted);
    assert v[owed] in multiset(sorted);
    var k :| 0 <= k < |sorted| && sorted[k] == v[owed];
    assert Balances(sorted)[k] > 0.0;
    ZeroPoolNeverPaysOff(Balances(sorted), sorted, 0, 0.0);
  }

  /** Two interest-free debts of 100 and 10, each with a minimum of 50: in
      month one the second is cleared and its freed 40 goes to the first,
      which the second month clears. */
  lemma RollOverExample()
    ensures Payoff([100.0, 10.0], [Debt(100.0, 0.0, 50.0), Debt(10.0, 0.0, 50.0)], 100.0, 0, 0.0)
         == Ok((2, 0.0))
  {
    var ds := [Debt(100.0, 0.0, 50.0), Debt(10.0, 0.0, 50.0)];
    assert Accrued([100.0, 10.0], ds) == [100.0, 10.0];
    assert MonthInterest([100.0, 10.0], ds) == 0.0 by {
      assert MonthInterest([100.0, 10.0][..1], ds[..1]) == 0.0;
    }
    assert PayMinimums([100.0, 10.0], ds, 100.0) == Paid([50.0, 0.0], 40.0) by {
      assert PayMinimums([100.0, 10.0][..1], ds[..1], 100.0) == Paid([50.0], 50.0);
    }
    assert Surplus([50.0, 0.0], 40.0, 0) == Paid([10.0, 0.0], 0.0);
    assert Month([100.0, 10.0], ds, 100.0) == MonthEnd([10.0, 0.0], 0.0);
    assert Accrued([10.0, 0.0], ds) == [10.0, 0.0];
    assert MonthInterest([10.0, 0.0], ds) == 0.0 by {
      assert MonthInterest([10.0, 0.0][..1], ds[..1]) == 0.0;
    }
    assert PayMinimums([10.0, 0.0], ds, 100.0) == Paid([0.0, 0.0], 90.0) by {
      assert PayMinimums([10.0, 0.0][..1], ds[..1], 100.0) == Paid([0.0], 90.0);
    }
    assert Surplus([0.0, 0.0], 90.0, 0) == Paid([0.0, 0.0], 90.0);
    assert Month([10.0, 0.0], ds, 100.0) == MonthEnd([0.0, 0.0], 0.0);
    assert HasPositive([100.0, 10.0]) && HasPositive([10.0, 0.0]);
    assert !HasPositive([0.0, 0.0]);
  }

  // ---------------------------------------------------------------------
  // The optimizer, step by step over a copied array of balances

  method AccrueInterest(a: array<real>, ds: seq<Debt>) returns (monthInterest: real)
    requires a.Length == |ds|
    modifies a
    ensures a[..] == Accrued(old(a[..]), ds)
    ensures monthInterest == MonthInterest(old(a[..]), ds)
  {
    ghost var b := a[..];
    monthInterest := 0.0;
    var i := 0;
    while i < a.Length
      invariant 0 <= i <= a.Length
      invariant forall j :: 0 <= j < i ==> a[j] == b[j] + InterestOn(b[j], ds[j].rate)
      invariant forall j :: i <= j < a.Length ==> a[j] == b[j]
      invariant monthInterest == MonthInterest(b[..i], ds[..i])
    {
      if a[i] > 0.0 {
        var interest := InterestOn(a[i], ds[i].rate);
        a[i] := a[i] + interest;
        monthInterest := monthInterest + interest;
      }
      assert b[..i + 1][..i] == b[..i] && ds[..i + 1][..i] == ds[..i];
      i := i + 1;
    }
    assert b[..i] == b && ds[..i] == ds;
  }

  method PayMinimumsInPlace(a: array<real>, ds: seq<Debt>, pool: real) returns (available: real)
    requires a.Length == |ds|
    modifies a
    ensures a[..] == PayMinimums(old(a[..]), ds, pool).balances
    ensures available == PayMinimums(old(a[..]), ds, pool).available
  {
    ghost var b := a[..];
    available := pool;
    var i := 0;
    while i < a.Length
      invariant 0 <= i <= a.Length
      invariant a[..i] == PayMinimums(b[..i], ds[..i], pool).balances
      invariant available == PayMinimums(b[..i], ds[..i], pool).available
      invariant a[i..] == b[i..]
    {
      PayMinimumsSnoc(b, ds, pool, i);
      ghost var before := a[..i];
      ghost var last := PayMinimum(b[i], ds[i].minPayment, available);
      assert a[i] == b[i];
      if a[i] > 0.0 {
        var payment := Min(Min(ds[i].minPayment, available), a[i]);
        a[i] := Max0(a[i] - payment);
        available := available - payment;
      }
      assert last.balances == [a[i]] && last.available == available;
      assert a[..i + 1] == before + [a[i]];
      assert a[i + 1..] == b[i + 1..];
      i := i + 1;
    }
    assert b[..i] == b && ds[..i] == ds && a[..i] == a[..];
  }

  lemma PayMinimumsSnoc(b: seq<real>, ds: seq<Debt>, pool: real, i: nat)
    requires |b| == |ds| && i < |b|
    ensures var before := PayMinimums(b[..i], ds[..i], pool);
      var last := PayMinimum(b[i], ds[i].minPayment, before.available);
      PayMinimums(b[..i + 1], ds[..i + 1], pool) == Paid(before.balances + last.balances, last.available)
  {
    assert b[..i + 1][..i] == b[..i] && ds[..i + 1][..i] == ds[..i];
  }

  method PaySurplus(a: array<real>, available: real) returns (rest: real)
    modifies a
    ensures a[..] == Surplus(old(a[..]), available, 0).balances
    ensures rest == Surplus(old(a[..]), available, 0).available
  {
    rest := available;
    var i := 0;
    while i < a.Length
      invariant 0 <= i <= a.Length
      invariant a[..] == old(a[..])
      invariant Surplus(a[..], available, 0) == Surplus(a[..], available, i)
    {
      if a[i] > 0.0 && rest > 0.0 {
        var payment := Min(a[i], rest);
        a[i] := Max0(a[i] - payment);
        rest := rest - payment;
        return;
      }
      i := i + 1;
    }
  }

  /** The validation loop: each debt needs all three keys, then
      non-negative values. */
  method ValidateDebts(debts: seq<DebtInput>) returns (r: Result<seq<Debt>>)
    ensures r == Validate(debts)
  {
    var valid: seq<Debt> := [];
    var i := 0;
    while i < |debts|
      invariant 0 <= i <= |debts|
      invariant forall j :: 0 <= j < i ==> Good(debts[j])
      invariant |valid| == i && forall j :: 0 <= j < i ==> valid[j] == ToDebt(debts[j])
    {
      var d := debts[i];
      if d.balance.None? || d.rate.None? || d.minPayment.None? {
        ValidateRejectsFirstBad(debts, i);
        return Err(MissingKeyMessage);
      }
      if d.balance.value < 0.0 || d.rate.value < 0.0 || d.minPayment.value < 0.0 {
        ValidateRejectsFirstBad(debts, i);
        return Err(NegativeMessage);
      }
      valid := valid + [Debt(d.balance.value, d.rate.value, d.minPayment.value)];
      i := i + 1;
    }
    ValidateAccepts(debts);
    assert Validate(debts).value == valid;
    return Ok(valid);
  }

  /** One month: interest, minimum payments from the shared pool, then
      the surplus to one debt. */
  method RunMonth(a: array<real>, ds: seq<Debt>, pool: real) returns (monthInterest: real)
    requires a.Length == |ds|
    modifies a
    ensures a[..] == Month(old(a[..]), ds, pool).balances
    ensures monthInterest == Month(old(a[..]), ds, pool).interest
  {
    monthInterest := AccrueInterest(a, ds);
    var available := PayMinimumsInPlace(a, ds, pool);
    available := PaySurplus(a, available);
  }

  /** The monthly loop over a copy of the balances, until nothing is owed
      or the month cap is passed. */
  method Simulate(sorted: seq<Debt>) returns (r: Result<(nat, real)>)
    ensures r == Payoff(Balances(sorted), sorted, Pool(sorted), 0, 0.0)
  {
    var remaining := new real[|sorted|](j requires 0 <= j < |sorted| => sorted[j].balance);
    var pool := Pool(sorted);
    var totalInterest := 0.0;
    var months: nat := 0;
    assert remaining[..] == Balances(sorted);

    while HasPositive(remaining[..])
      invariant remaining.Length == |sorted| && months <= MonthCap
      invariant Payoff(Balances(sorted), sorted, pool, 0, 0.0)
             == Payoff(remaining[..], sorted, pool, months, totalInterest)
      decreases MonthCap - months
    {
      ghost var before, interestBefore := remaining[..], totalInterest;
      months := months + 1;
      var monthInterest := RunMonth(remaining, sorted, pool);
      totalInterest := totalInterest + monthInterest;
      if months > MonthCap {
        return Err(CapMessage);
      }
      PayoffStep(before, sorted, pool, months - 1, interestBefore);
    }
    return Ok((months, totalInterest));
  }

  /** One simulated month moves the run one month on. */
  lemma PayoffStep(bals: seq<real>, ds: seq<Debt>, pool: real, months: nat, interest: real)
    requires |bals| == |ds| && months < MonthCap && HasPositive(bals)
    ensures var m := Month(bals, ds, pool);
      Payoff(bals, ds, pool, months, interest) == Payoff(m.balances, ds, pool, months + 1, interest + m.interest)
  {
  }

  /** DebtOptimizer.optimize. */
  method Optimize(debts: seq<DebtInput>, requested: string) returns (r: Result<Plan>)
    ensures r == OptimizeSpec(debts, requested)
  {
    if |debts| == 0 {
      return Ok(Plan(0, 0.0, NoDebtsMethod));
    }
    var valid := ValidateDebts(debts);
    if valid.Err? {
      return Err(valid.message);
    }
    var st := StrategyOf(requested);
    var sorted := SortDebts(st, valid.value);
    var run := Simulate(sorted);
    if run.Err? {
      return Err(run.message);
    }
    return Ok(Plan(run.value.0, run.value.1, MethodName(st)));
  }
}
