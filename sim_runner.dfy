/** The projection engine of src/components/simRunner.ts: the parameter
    record, the snapshot record, and the month-by-month simulation.

    The engine is a class whose fields are updated in place, as in the
    source. Its behaviour is specified by `Step`, a function from one
    engine state to the next, and `Iterate`, which applies `Step` once per
    month; the lemmas at the end of the module are about these functions. */
module SimRunner {

  /** The parameter record `Constants`. Years are whole numbers, every other
      field is a real number (rates are fractions per year). */
  datatype Constants = Constants(
    startYear: int,
    endYear: int,
    initialOwedOnHouse: real,
    inflationRateBase: real,
    inflationRateVariation: real,
    loanInterestRateBase: real,
    loanRepaymentYears: real,
    loanBasePayments: real,
    loanExtraPayment: real,
    incomeMonthlyBase: real,
    savingsInterestRateBase: real,
    incomeYearlyGrowthRate: real,
    monthlyExpenses: real)

  /** The field initialisers of `new Constants()`. */
  function DefaultConstants(): Constants {
    Constants(
      2023, 2050, 500000.0, 0.03, 0.005, 0.035, 30.0,
      2500.0, 0.0, 8000.0, 0.01, 0.03, 3000.0)
  }

  /** One snapshot row, `DataPacket`. */
  datatype DataPacket = DataPacket(
    year: int,
    month: int,
    loanPrincipal: real,
    savings: real,
    houseValue: real,
    equity: real,
    inflationMultiplier: real)

  function Min(a: real, b: real): real { if a <= b then a else b }

  function Max(a: real, b: real): real { if a >= b then a else b }

  /** `b ** n` for a whole exponent. */
  function Pow(b: real, n: nat): (r: real)
    ensures b > 0.0 ==> r > 0.0
    ensures b >= 1.0 ==> r >= 1.0
  {
    if n == 0 then 1.0
    else
      var p := Pow(b, n - 1);
      assert b >= 1.0 ==> p * b >= p * 1.0;
      p * b
  }

  /** The running part of a `FinancialSim`: every field that `simulateMonth`
      updates, and the snapshot rows appended so far. */
  datatype EngineState = EngineState(
    loanPrincipal: real,
    savings: real,
    year: int,
    month: int,
    houseValue: real,
    equity: real,
    inflation: real,
    isFinished: bool,
    rows: seq<DataPacket>)

  /** The row that records state `s`. */
  function Snapshot(s: EngineState): DataPacket {
    DataPacket(s.year, s.month, s.loanPrincipal, s.savings, s.houseValue, s.equity, s.inflation)
  }

  /** The facts that hold of each row of a run under constants `c`. */
  ghost predicate RowInv(c: Constants, p: DataPacket) {
    && 0 <= p.month < 12
    && p.year >= c.startYear
    && p.houseValue == c.initialOwedOnHouse * p.inflationMultiplier
    && (p.loanPrincipal >= 0.0 || p.loanPrincipal == c.initialOwedOnHouse)
    && (p.loanPrincipal > 0.0 ==> p.equity == p.houseValue - p.loanPrincipal)
  }

  /** The calendar part of the invariant of every state a run under
      constants `c` reaches: the month is in 0..11, each row recorded is one
      month of calendar since the start, and the run is finished exactly
      when a row has been recorded and the year is past the end year. */
  ghost predicate CalendarInv(c: Constants, s: EngineState) {
    && 0 <= s.month < 12
    && s.year >= c.startYear
    && |s.rows| == 12 * (s.year - c.startYear) + s.month
    && s.isFinished == (|s.rows| > 0 && s.year > c.endYear)
  }

  /** The money part: the house value is the initial loan scaled by the
      multiplier; the principal is never negative unless the loan started
      negative (and then it never changes); while a loan is outstanding,
      equity is house value minus principal; with zero variation the
      multiplier is the monthly base rate compounded once per row. */
  ghost predicate ValueInv(c: Constants, s: EngineState) {
    && s.houseValue == c.initialOwedOnHouse * s.inflation
    && (s.loanPrincipal >= 0.0 || s.loanPrincipal == c.initialOwedOnHouse)
    && (s.loanPrincipal > 0.0 ==> s.equity == s.houseValue - s.loanPrincipal)
    && (c.inflationRateVariation == 0.0 ==>
          s.inflation == Pow(1.0 + c.inflationRateBase / 12.0, |s.rows|))
  }

  /** The history part: the last row records the current state and every
      row satisfies `RowInv`. */
  ghost predicate HistoryInv(c: Constants, s: EngineState) {
    && (|s.rows| > 0 ==> s.rows[|s.rows| - 1] == Snapshot(s))
    && (forall i :: 0 <= i < |s.rows| ==> RowInv(c, s.rows[i]))
  }

  /** The invariant of every state a run under constants `c` reaches. */
  ghost predicate Inv(c: Constants, s: EngineState) {
    CalendarInv(c, s) && ValueInv(c, s) && HistoryInv(c, s)
  }

  /** The state the constructor sets up. */
  function Init(c: Constants): EngineState {
    EngineState(c.initialOwedOnHouse, 0.0, c.startYear, 0, c.initialOwedOnHouse, 0.0, 1.0, false, [])
  }

  /** The constructed state satisfies the invariant. */
  lemma InitInv(c: Constants)
    ensures Inv(c, Init(c))
  {
  }

  /** This month's inflation rate, with the random draw `deviation` in [-1, 1). */
  function MonthlyInflationRate(c: Constants, deviation: real): real {
    c.inflationRateBase + deviation * c.inflationRateVariation
  }

  /** Monthly income in `year`, grown once per whole year since the start. */
  function MonthlyIncome(c: Constants, year: int): real
    requires year >= c.startYear
  {
    c.incomeMonthlyBase * Pow(1.0 + c.incomeYearlyGrowthRate, year - c.startYear)
  }

  /** The first part of `simulateMonth`: compound the inflation multiplier by
      this month's rate and rescale the house value. */
  function InflationStep(c: Constants, s: EngineState, deviation: real): EngineState {
    var inflation := s.inflation * (1.0 + MonthlyInflationRate(c, deviation) / 12.0);
    s.(inflation := inflation, houseValue := c.initialOwedOnHouse * inflation)
  }

  /** Savings at the end of a month with net income `net`: expenses scaled by
      the inflation multiplier are taken out, then a month of interest is added. */
  function MonthSavings(c: Constants, s: EngineState, net: real): real {
    (s.savings + net - c.monthlyExpenses * s.inflation) * (1.0 + c.savingsInterestRateBase / 12.0)
  }

  /** The second part: the month's cash flow, on one of two branches. */
  function PaymentStep(c: Constants, s: EngineState): EngineState
    requires s.year >= c.startYear
  {
    var income := MonthlyIncome(c, s.year);
    if s.loanPrincipal <= 0.0 then
      // loan paid off: income and expenses only; principal and equity untouched
      s.(savings := MonthSavings(c, s, income))
    else
      // loan outstanding: interest, a payment clamped to the principal, equity, loan cash flow
      var payments := c.loanBasePayments + c.loanExtraPayment;
      var interest := s.loanPrincipal * (c.loanInterestRateBase / 12.0);
      var loanPrincipal := s.loanPrincipal - Min(payments - interest, s.loanPrincipal);
      s.(loanPrincipal := loanPrincipal,
         equity := s.houseValue - loanPrincipal,
         savings := MonthSavings(c, s, income - payments))
  }

  /** The third part: move the calendar on by a month and set the finished flag. */
  function CalendarStep(c: Constants, s: EngineState): EngineState {
    var wraps := s.month + 1 >= 12;
    var year := if wraps then s.year + 1 else s.year;
    s.(month := if wraps then 0 else s.month + 1,
       year := year,
       isFinished := s.isFinished || year > c.endYear)
  }

  /** The last part: append the snapshot of the state. */
  function RecordStep(s: EngineState): EngineState {
    s.(rows := s.rows + [Snapshot(s)])
  }

  /** One call of `simulateMonth` on state `s`, with random draw `deviation`. */
  function Step(c: Constants, s: EngineState, deviation: real): EngineState
    requires s.year >= c.startYear
  {
    RecordStep(CalendarStep(c, PaymentStep(c, InflationStep(c, s, deviation))))
  }

  /** The multiplier compounds by this month's rate and the house value is
      the initial loan scaled by it (simulateMonth, first part). */
  lemma StepInflation(c: Constants, s: EngineState, deviation: real)
    requires s.year >= c.startYear
    ensures Step(c, s, deviation).inflation == s.inflation * (1.0 + MonthlyInflationRate(c, deviation) / 12.0)
    ensures Step(c, s, deviation).houseValue == c.initialOwedOnHouse * Step(c, s, deviation).inflation
  {
  }

  /** Loan outstanding: the new principal is the old one plus a month of
      interest minus the payment, floored at zero, so it is never negative;
      when the payment equals the interest it does not move; equity is house
      value minus principal; savings receive income minus payment minus
      inflated expenses, then a month of interest. */
  lemma StepLoanOutstanding(c: Constants, s: EngineState, deviation: real)
    requires s.year >= c.startYear
    requires s.loanPrincipal > 0.0
    ensures var r := Step(c, s, deviation);
      && r.loanPrincipal == Max(0.0, s.loanPrincipal + s.loanPrincipal * (c.loanInterestRateBase / 12.0)
                                     - (c.loanBasePayments + c.loanExtraPayment))
      && r.loanPrincipal >= 0.0
      && (c.loanBasePayments + c.loanExtraPayment == s.loanPrincipal * (c.loanInterestRateBase / 12.0) ==>
            r.loanPrincipal == s.loanPrincipal)
      && r.equity == r.houseValue - r.loanPrincipal
      && r.savings == (s.savings + MonthlyIncome(c, s.year) - (c.loanBasePayments + c.loanExtraPayment)
                       - c.monthlyExpenses * r.inflation) * (1.0 + c.savingsInterestRateBase / 12.0)
  {
  }

  /** Loan paid off: principal and equity are left as they were, and savings
      receive income minus inflated expenses, then a month of interest. The
      income is that of the year before the calendar moves. */
  lemma StepPaidOff(c: Constants, s: EngineState, deviation: real)
    requires s.year >= c.startYear
    requires s.loanPrincipal <= 0.0
    ensures var r := Step(c, s, deviation);
      && r.loanPrincipal == s.loanPrincipal
      && r.equity == s.equity
      && r.savings == (s.savings + MonthlyIncome(c, s.year) - c.monthlyExpenses * r.inflation)
                      * (1.0 + c.savingsInterestRateBase / 12.0)
  {
  }

  /** The calendar moves on by exactly one month, the year going up by one
      precisely when the month wraps from 11 to 0; the finished flag is set
      once the year passes the end year and is never cleared; exactly one
      row is appended, recording the new state. */
  lemma StepCalendar(c: Constants, s: EngineState, deviation: real)
    requires s.year >= c.startYear
    requires 0 <= s.month < 12
    ensures var r := Step(c, s, deviation);
      && r.month == (s.month + 1) % 12
      && r.year == s.year + (s.month + 1) / 12
      && (r.year == s.year + 1 <==> s.month == 11)
      && (r.isFinished <==> s.isFinished || r.year > c.endYear)
      && r.rows == s.rows + [Snapshot(r)]
  {
  }

  /** Exactly one row is appended, and it records the new state. */
  lemma StepRows(c: Constants, s: EngineState, deviation: real)
    requires s.year >= c.startYear
    ensures Step(c, s, deviation).rows == s.rows + [Snapshot(Step(c, s, deviation))]
  {
  }

  lemma StepCalendarInv(c: Constants, s: EngineState, deviation: real)
    requires CalendarInv(c, s)
    ensures CalendarInv(c, Step(c, s, deviation))
  {
    StepCalendar(c, s, deviation);
  }

  lemma StepValueInv(c: Constants, s: EngineState, deviation: real)
    requires CalendarInv(c, s) && ValueInv(c, s)
    ensures ValueInv(c, Step(c, s, deviation))
  {
    StepMultiplierInv(c, s, deviation);
    StepLoanInv(c, s, deviation);
  }

  lemma StepMultiplierInv(c: Constants, s: EngineState, deviation: real)
    requires CalendarInv(c, s) && ValueInv(c, s)
    ensures var r := Step(c, s, deviation);
      && r.houseValue == c.initialOwedOnHouse * r.inflation
      && (c.inflationRateVariation == 0.0 ==>
            r.inflation == Pow(1.0 + c.inflationRateBase / 12.0, |r.rows|))
  {
    StepInflation(c, s, deviation);
    StepCalendar(c, s, deviation);
    if c.inflationRateVariation == 0.0 {
      assert MonthlyInflationRate(c, deviation) == c.inflationRateBase;
    }
  }

  lemma StepLoanInv(c: Constants, s: EngineState, deviation: real)
    requires CalendarInv(c, s) && ValueInv(c, s)
    ensures var r := Step(c, s, deviation);
      && (r.loanPrincipal >= 0.0 || r.loanPrincipal == c.initialOwedOnHouse)
      && (r.loanPrincipal > 0.0 ==> r.equity == r.houseValue - r.loanPrincipal)
  {
    if s.loanPrincipal > 0.0 {
      StepLoanOutstanding(c, s, deviation);
    } else {
      StepPaidOff(c, s, deviation);
    }
  }

  lemma StepHistoryInv(c: Constants, s: EngineState, deviation: real)
    requires s.year >= c.startYear && HistoryInv(c, s)
    requires CalendarInv(c, Step(c, s, deviation)) && ValueInv(c, Step(c, s, deviation))
    ensures HistoryInv(c, Step(c, s, deviation))
  {
    var r := Step(c, s, deviation);
    assert r.rows == s.rows + [Snapshot(r)];
    assert RowInv(c, Snapshot(r));
  }

  /** One step keeps the invariant. */
  lemma StepInv(c: Constants, s: EngineState, deviation: real)
    requires Inv(c, s)
    ensures Inv(c, Step(c, s, deviation))
  {
    StepCalendarInv(c, s, deviation);
    StepValueInv(c, s, deviation);
    StepHistoryInv(c, s, deviation);
  }

  /** The state after one `simulateMonth` call per draw in `us`, in order. */
  function Iterate(c: Constants, s: EngineState, us: seq<real>): (r: EngineState)
    requires s.year >= c.startYear
    ensures r.year >= s.year
    ensures |r.rows| == |s.rows| + |us|
    decreases |us|
  {
    if us == [] then s
    else Step(c, Iterate(c, s, us[..|us| - 1]), us[|us| - 1])
  }

  /** How many `simulateMonth` calls the driver loop makes before
      `isFinished` is set: twelve per year from start to end inclusive, or
      one when the end year is before the start year. */
  function CallsToFinish(c: Constants): (n: nat)
    ensures n >= 1
  {
    if c.startYear <= c.endYear then (c.endYear - c.startYear + 1) * 12 else 1
  }

  /** The default record runs for 28 years, one call per month. */
  lemma DefaultCalls()
    ensures CallsToFinish(DefaultConstants()) == 336
  {
  }

  /** Every state reached from one satisfying the invariant satisfies it too. */
  lemma {:induction false} IterateInv(c: Constants, s: EngineState, us: seq<real>)
    requires Inv(c, s)
    ensures Inv(c, Iterate(c, s, us))
    decreases |us|
  {
    if us != [] {
      IterateInv(c, s, us[..|us| - 1]);
      StepInv(c, Iterate(c, s, us[..|us| - 1]), us[|us| - 1]);
    }
  }

  /** Running on `a` and then on `b` is running on `a + b`. */
  lemma {:induction false} IterateAppend(c: Constants, s: EngineState, a: seq<real>, b: seq<real>)
    requires s.year >= c.startYear
    ensures Iterate(c, s, a + b) == Iterate(c, Iterate(c, s, a), b)
    decreases |b|
  {
    if b == [] {
      assert a + b == a;
    } else {
      var ab := a + b;
      assert ab[..|ab| - 1] == a + b[..|b| - 1];
      assert ab[|ab| - 1] == b[|b| - 1];
      IterateAppend(c, s, a, b[..|b| - 1]);
    }
  }

  /** After `n` calls from the constructed state the calendar reads month
      `n % 12` of year `startYear + n / 12`, and there are `n` rows. */
  lemma RunCalendar(c: Constants, us: seq<real>)
    ensures var r := Iterate(c, Init(c), us);
      && r.year == c.startYear + |us| / 12
      && r.month == |us| % 12
      && |r.rows| == |us|
  {
    InitInv(c);
    IterateInv(c, Init(c), us);
  }

  /** A run from the constructed state is finished exactly when it has made
      at least `CallsToFinish(c)` calls: with `startYear <= endYear` after
      twelve calls per year, otherwise after the first call. */
  lemma FinishedExactly(c: Constants, us: seq<real>)
    ensures Iterate(c, Init(c), us).isFinished <==> |us| >= CallsToFinish(c)
  {
    InitInv(c);
    IterateInv(c, Init(c), us);
    RunCalendar(c, us);
  }

  /** The finished flag is never cleared. */
  lemma {:induction false} FinishedStays(c: Constants, s: EngineState, us: seq<real>)
    requires s.year >= c.startYear
    requires s.isFinished
    ensures Iterate(c, s, us).isFinished
    decreases |us|
  {
    if us != [] {
      FinishedStays(c, s, us[..|us| - 1]);
    }
  }

  /** The rows of a shorter run are a prefix of the rows of a longer one:
      rows are only ever appended. */
  lemma {:induction false} RowsPrefix(c: Constants, s: EngineState, us: seq<real>, n: nat)
    requires s.year >= c.startYear
    requires n <= |us|
    ensures Iterate(c, s, us[..n]).rows == Iterate(c, s, us).rows[..|s.rows| + n]
    decreases |us|
  {
    if n < |us| {
      var init := us[..|us| - 1];
      assert init[..n] == us[..n];
      RowsPrefix(c, s, init, n);
      StepRows(c, Iterate(c, s, init), us[|us| - 1]);
      var a := Iterate(c, s, init).rows;
      assert (a + [Snapshot(Iterate(c, s, us))])[..|s.rows| + n] == a[..|s.rows| + n];
    } else {
      assert us[..n] == us;
    }
  }

  /** Row `i` appended by a run is the snapshot of the state after its
      first `i + 1` calls. */
  lemma RowIsSnapshot(c: Constants, s: EngineState, us: seq<real>, i: nat)
    requires s.year >= c.startYear
    requires i < |us|
    ensures Iterate(c, s, us).rows[|s.rows| + i] == Snapshot(Iterate(c, s, us[..i + 1]))
  {
    RowsPrefix(c, s, us, i + 1);
    var pre := us[..i + 1];
    var r := Iterate(c, s, pre);
    var q := Iterate(c, s, pre[..|pre| - 1]);
    assert r == Step(c, q, pre[|pre| - 1]);
    StepRows(c, q, pre[|pre| - 1]);
    assert r.rows[|s.rows| + i] == Snapshot(r);
  }

  /** Once the loan is paid off, principal and equity never change again. */
  lemma {:induction false} PaidOffStays(c: Constants, s: EngineState, us: seq<real>)
    requires s.year >= c.startYear
    requires s.loanPrincipal <= 0.0
    ensures Iterate(c, s, us).loanPrincipal == s.loanPrincipal
    ensures Iterate(c, s, us).equity == s.equity
    decreases |us|
  {
    if us != [] {
      var init := us[..|us| - 1];
      PaidOffStays(c, s, init);
      StepPaidOff(c, Iterate(c, s, init), us[|us| - 1]);
    }
  }

  /** Once a row shows the loan paid off, every later row shows the same
      principal and the same equity. */
  ghost predicate FrozenAfterPayoff(rows: seq<DataPacket>) {
    forall i, j :: 0 <= i <= j < |rows| && rows[i].loanPrincipal <= 0.0 ==>
      rows[j].loanPrincipal == rows[i].loanPrincipal && rows[j].equity == rows[i].equity
  }

  lemma StepFrozen(c: Constants, s: EngineState, deviation: real)
    requires s.year >= c.startYear
    requires |s.rows| > 0 ==> s.rows[|s.rows| - 1] == Snapshot(s)
    requires FrozenAfterPayoff(s.rows)
    ensures FrozenAfterPayoff(Step(c, s, deviation).rows)
  {
    var r := Step(c, s, deviation);
    StepRows(c, s, deviation);
    if s.loanPrincipal <= 0.0 {
      StepPaidOff(c, s, deviation);
    }
    forall i, j | 0 <= i <= j < |r.rows| && r.rows[i].loanPrincipal <= 0.0
      ensures r.rows[j].loanPrincipal == r.rows[i].loanPrincipal && r.rows[j].equity == r.rows[i].equity
    {
      if i < j == |s.rows| {
        assert s.rows[i] == r.rows[i];
        assert s.rows[|s.rows| - 1].loanPrincipal == s.rows[i].loanPrincipal;
      }
    }
  }

  /** In the rows of a run, once a row shows the loan paid off, every later
      row shows the same principal and the same equity. */
  lemma {:induction false} RunFrozen(c: Constants, us: seq<real>)
    ensures FrozenAfterPayoff(Iterate(c, Init(c), us).rows)
    decreases |us|
  {
    if us != [] {
      var init := us[..|us| - 1];
      RunFrozen(c, init);
      InitInv(c);
      IterateInv(c, Init(c), init);
      StepFrozen(c, Iterate(c, Init(c), init), us[|us| - 1]);
    }
  }

  /** One step of a loan whose payment equals the interest on the initial
      principal leaves the principal at that value. */
  lemma StepInterestOnly(c: Constants, s: EngineState, deviation: real)
    requires s.year >= c.startYear
    requires c.initialOwedOnHouse > 0.0
    requires c.loanBasePayments + c.loanExtraPayment == c.initialOwedOnHouse * (c.loanInterestRateBase / 12.0)
    requires s.loanPrincipal == c.initialOwedOnHouse
    ensures Step(c, s, deviation).loanPrincipal == c.initialOwedOnHouse
  {
    assert c.loanBasePayments + c.loanExtraPayment == s.loanPrincipal * (c.loanInterestRateBase / 12.0);
    StepLoanOutstanding(c, s, deviation);
  }

  /** Zero amortization: when the payment equals the interest on the initial
      loan, the principal stays at its initial value in every state and
      every row. */
  lemma {:induction false} InterestOnly(c: Constants, s: EngineState, us: seq<real>)
    requires s.year >= c.startYear
    requires c.initialOwedOnHouse > 0.0
    requires c.loanBasePayments + c.loanExtraPayment == c.initialOwedOnHouse * (c.loanInterestRateBase / 12.0)
    requires s.loanPrincipal == c.initialOwedOnHouse
    ensures var r := Iterate(c, s, us);
      && r.loanPrincipal == c.initialOwedOnHouse
      && forall i :: |s.rows| <= i < |r.rows| ==> r.rows[i].loanPrincipal == c.initialOwedOnHouse
    decreases |us|
  {
    if us != [] {
      var init := us[..|us| - 1];
      InterestOnly(c, s, init);
      var p := Iterate(c, s, init);
      StepInterestOnly(c, p, us[|us| - 1]);
      StepRows(c, p, us[|us| - 1]);
    }
  }

  /** The product of the monthly growth factors `1 + rate / 12` for the draws `us`. */
  function Growth(c: Constants, us: seq<real>): real
    decreases |us|
  {
    if us == [] then 1.0
    else Growth(c, us[..|us| - 1]) * (1.0 + MonthlyInflationRate(c, us[|us| - 1]) / 12.0)
  }

  /** The multiplier of a run from the constructed state is the product of
      the growth factors of its draws. */
  lemma {:induction false} RunInflation(c: Constants, us: seq<real>)
    ensures Iterate(c, Init(c), us).inflation == Growth(c, us)
    decreases |us|
  {
    if us != [] {
      var init := us[..|us| - 1];
      var d := us[|us| - 1];
      var before := Iterate(c, Init(c), init);
      RunInflation(c, init);
      StepInflation(c, before, d);
      assert Iterate(c, Init(c), us) == Step(c, before, d);
    }
  }

  /** With every draw zero, the growth is the base monthly rate compounded
      once per month. */
  lemma {:induction false} GrowthZeroDeviation(c: Constants, us: seq<real>)
    requires forall i :: 0 <= i < |us| ==> us[i] == 0.0
    ensures Growth(c, us) == Pow(1.0 + c.inflationRateBase / 12.0, |us|)
    decreases |us|
  {
    if us != [] {
      GrowthZeroDeviation(c, us[..|us| - 1]);
      assert MonthlyInflationRate(c, us[|us| - 1]) == c.inflationRateBase;
    }
  }

  /** A run from the constructed state with every draw zero: the multiplier
      after `n` months is `(1 + inflationRateBase / 12) ^ n`. */
  lemma ZeroDeviationRun(c: Constants, us: seq<real>)
    requires forall i :: 0 <= i < |us| ==> us[i] == 0.0
    ensures Iterate(c, Init(c), us).inflation == Pow(1.0 + c.inflationRateBase / 12.0, |us|)
  {
    GrowthZeroDeviation(c, us);
    RunInflation(c, us);
  }

  /** A one-year run whose payment exactly covers the interest on the
      initial loan: it finishes after twelve calls and every one of its
      twelve rows shows the full principal. (A 100000 loan at 12% with a
      1000 payment is such a run.) */
  lemma OneYearInterestOnly(c: Constants, us: seq<real>)
    requires c.startYear == c.endYear
    requires c.initialOwedOnHouse > 0.0
    requires c.loanBasePayments + c.loanExtraPayment == c.initialOwedOnHouse * (c.loanInterestRateBase / 12.0)
    requires |us| == 12
    ensures var r := Iterate(c, Init(c), us);
      && CallsToFinish(c) == 12
      && r.isFinished
      && |r.rows| == 12
      && forall i :: 0 <= i < 12 ==> r.rows[i].loanPrincipal == c.initialOwedOnHouse
  {
    FinishedExactly(c, us);
    InterestOnly(c, Init(c), us);
  }

  /** The engine object `FinancialSim`. */
  class FinancialSim {
    const constants: Constants
    var runningLoanPrincipal: real
    var runningSavings: real
    var runningYear: int
    var runningMonth: int
    var runningHouseValue: real
    var runningEquity: real
    var runningInflation: real
    var isFinished: bool
    var rows: seq<DataPacket>

    /** The fields as an `EngineState` value. */
    ghost function State(): EngineState
      reads this
    {
      EngineState(runningLoanPrincipal, runningSavings, runningYear, runningMonth,
                  runningHouseValue, runningEquity, runningInflation, isFinished, rows)
    }

    constructor (consts: Constants)
      ensures constants == consts
      ensures runningLoanPrincipal == consts.initialOwedOnHouse && runningSavings == 0.0
      ensures runningYear == consts.startYear && runningMonth == 0
      ensures runningHouseValue == consts.initialOwedOnHouse && runningEquity == 0.0
      ensures runningInflation == 1.0 && !isFinished && rows == []
      ensures State() == Init(consts)
    {
      constants := consts;
      runningLoanPrincipal := consts.initialOwedOnHouse;
      runningSavings := 0.0;
      runningYear := consts.startYear;
      runningMonth := 0;
      runningHouseValue := consts.initialOwedOnHouse;
      runningEquity := 0.0;
      runningInflation := 1.0;
      isFinished := false;
      rows := [];
    }

    /** `simulateMonth()`, with `deviation` standing for `Math.random() * 2 - 1`.
        The body runs the four parts of the source method in order. */
    method SimulateMonth(deviation: real)
      requires runningYear >= constants.startYear
      requires -1.0 <= deviation < 1.0
      modifies this
      ensures State() == Step(constants, old(State()), deviation)
    {
      UpdateInflation(deviation);
      UpdateLoanAndSavings();
      AdvanceCalendar();
      StoreDataPacket();
    }

    /** Compound the inflation multiplier by this month's rate and rescale
        the house value. */
    method UpdateInflation(deviation: real)
      modifies this
      ensures State() == InflationStep(constants, old(State()), deviation)
    {
      var runningInflationRateThisMonth := constants.inflationRateBase + deviation * constants.inflationRateVariation;
      runningInflation := runningInflation * (1.0 + runningInflationRateThisMonth / 12.0);
      runningHouseValue := constants.initialOwedOnHouse * runningInflation;
    }

    /** The month's cash flow: savings only once the loan is paid off,
        otherwise interest, principal payment, equity and savings. */
    method UpdateLoanAndSavings()
      requires runningYear >= constants.startYear
      modifies this
      ensures State() == PaymentStep(constants, old(State()))
    {
      if runningLoanPrincipal <= 0.0 {
        var monthlyIncome := MonthlyIncome(constants, runningYear);
        UpdateSavings(monthlyIncome);
      } else {
        var monthlyInterest := runningLoanPrincipal * (constants.loanInterestRateBase / 12.0);
        var monthlyPrincipalPayment := Min(
          constants.loanBasePayments + constants.loanExtraPayment - monthlyInterest,
          runningLoanPrincipal);
        runningLoanPrincipal := runningLoanPrincipal - monthlyPrincipalPayment;
        runningEquity := runningHouseValue - runningLoanPrincipal;
        var monthlyIncome := MonthlyIncome(constants, runningYear);
        UpdateSavings(monthlyIncome - (constants.loanBasePayments + constants.loanExtraPayment));
      }
    }

    /** The savings update both branches of the cash flow share: add the net
        income, take out the inflated expenses, add a month of interest. */
    method UpdateSavings(net: real)
      modifies this
      ensures State() == old(State()).(savings := MonthSavings(constants, old(State()), net))
    {
      runningSavings := runningSavings + net;
      runningSavings := runningSavings - constants.monthlyExpenses * runningInflation;
      runningSavings := runningSavings * (1.0 + constants.savingsInterestRateBase / 12.0);
    }

    /** Move to the next month, wrapping into the next year, and set the
        finished flag once the year is past the end year. */
    method AdvanceCalendar()
      modifies this
      ensures State() == CalendarStep(constants, old(State()))
    {
      runningMonth := runningMonth + 1;
      if runningMonth >= 12 {
        runningMonth := 0;
        runningYear := runningYear + 1;
      }
      if runningYear > constants.endYear {
        isFinished := true;
      }
    }

    /** Append the data packet for this month. */
    method StoreDataPacket()
      modifies this
      ensures State() == RecordStep(old(State()))
    {
      rows := rows + [DataPacket(runningYear, runningMonth, runningLoanPrincipal, runningSavings,
                                 runningHouseValue, runningEquity, runningInflation)];
    }
  }
}
