/** The logic of the two page components of src/components/financialSim.tsx
    that is not rendering: deriving a scenario's constants from a base record
    and its overrides, running an engine to completion, the payoff label, net
    worth, the summary lines, and the comparison chart that lines several runs
    up month by month.

    The random draws of a run are a stream `noise`: `noise(m)` stands for
    `Math.random() * 2 - 1` at the engine's m-th `simulateMonth` call. */
module FinancialSimPage {
  import opened Wrappers
  import opened SimRunner
  import opened StringUtil

  // ---------------------------------------------------------------------
  // Scenario constants: a base record with overrides

  /** `Partial<Constants>`: each field is present with a value, or absent. */
  datatype Modifiers = Modifiers(
    startYear: Option<int>,
    endYear: Option<int>,
    initialOwedOnHouse: Option<real>,
    inflationRateBase: Option<real>,
    inflationRateVariation: Option<real>,
    loanInterestRateBase: Option<real>,
    loanRepaymentYears: Option<real>,
    loanBasePayments: Option<real>,
    loanExtraPayment: Option<real>,
    incomeMonthlyBase: Option<real>,
    savingsInterestRateBase: Option<real>,
    incomeYearlyGrowthRate: Option<real>,
    monthlyExpenses: Option<real>)

  /** The empty override set `{}` a new sample set starts with. */
  function NoModifiers(): Modifiers {
    Modifiers(None, None, None, None, None, None, None, None, None, None, None, None, None)
  }

  /** One field after `Object.assign`: the override when present, else the
      base value. */
  predicate Takes<T(==)>(o: Option<T>, base: T, v: T) {
    && (o.Some? ==> v == o.value)
    && (o.None? ==> v == base)
  }

  /** `r` is `base` with every field present in `m` replaced by its value. */
  predicate Overrides(base: Constants, m: Modifiers, r: Constants) {
    && Takes(m.startYear, base.startYear, r.startYear)
    && Takes(m.endYear, base.endYear, r.endYear)
    && Takes(m.initialOwedOnHouse, base.initialOwedOnHouse, r.initialOwedOnHouse)
    && Takes(m.inflationRateBase, base.inflationRateBase, r.inflationRateBase)
    && Takes(m.inflationRateVariation, base.inflationRateVariation, r.inflationRateVariation)
    && Takes(m.loanInterestRateBase, base.loanInterestRateBase, r.loanInterestRateBase)
    && Takes(m.loanRepaymentYears, base.loanRepaymentYears, r.loanRepaymentYears)
    && Takes(m.loanBasePayments, base.loanBasePayments, r.loanBasePayments)
    && Takes(m.loanExtraPayment, base.loanExtraPayment, r.loanExtraPayment)
    && Takes(m.incomeMonthlyBase, base.incomeMonthlyBase, r.incomeMonthlyBase)
    && Takes(m.savingsInterestRateBase, base.savingsInterestRateBase, r.savingsInterestRateBase)
    && Takes(m.incomeYearlyGrowthRate, base.incomeYearlyGrowthRate, r.incomeYearlyGrowthRate)
    && Takes(m.monthlyExpenses, base.monthlyExpenses, r.monthlyExpenses)
  }

  /** `const consts = {...baseConsts}; Object.assign(consts, modifiers)`.
      Constants are values here, so the copy is a new record and the base
      record cannot be changed by it. */
  function Derive(base: Constants, m: Modifiers): (r: Constants)
    ensures Overrides(base, m, r)
  {
    Constants(
      m.startYear.GetOr(base.startYear),
      m.endYear.GetOr(base.endYear),
      m.initialOwedOnHouse.GetOr(base.initialOwedOnHouse),
      m.inflationRateBase.GetOr(base.inflationRateBase),
      m.inflationRateVariation.GetOr(base.inflationRateVariation),
      m.loanInterestRateBase.GetOr(base.loanInterestRateBase),
      m.loanRepaymentYears.GetOr(base.loanRepaymentYears),
      m.loanBasePayments.GetOr(base.loanBasePayments),
      m.loanExtraPayment.GetOr(base.loanExtraPayment),
      m.incomeMonthlyBase.GetOr(base.incomeMonthlyBase),
      m.savingsInterestRateBase.GetOr(base.savingsInterestRateBase),
      m.incomeYearlyGrowthRate.GetOr(base.incomeYearlyGrowthRate),
      m.monthlyExpenses.GetOr(base.monthlyExpenses))
  }

  /** `Overrides` pins the derived record down: there is only one. */
  lemma OverridesUnique(base: Constants, m: Modifiers, r1: Constants, r2: Constants)
    requires Overrides(base, m, r1) && Overrides(base, m, r2)
    ensures r1 == r2
  {
  }

  /** A sample set without overrides runs on the base constants. */
  lemma DeriveNoModifiers(base: Constants)
    ensures Derive(base, NoModifiers()) == base
  {
  }

  /** Applying the same overrides twice is the same as applying them once. */
  lemma DeriveIdempotent(base: Constants, m: Modifiers)
    ensures Derive(Derive(base, m), m) == Derive(base, m)
  {
  }

  // ---------------------------------------------------------------------
  // Running an engine to completion

  /** The first `n` draws of the stream, in call order. */
  function Draws(noise: nat -> real, n: nat): (us: seq<real>)
    ensures |us| == n
    ensures forall m :: 0 <= m < n ==> us[m] == noise(m)
  {
    if n == 0 then [] else Draws(noise, n - 1) + [noise(n - 1)]
  }

  /** The engine state the driver loop leaves: one `simulateMonth` call per
      month until `isFinished`. */
  function Run(c: Constants, noise: nat -> real): EngineState {
    Iterate(c, Init(c), Draws(noise, CallsToFinish(c)))
  }

  /** A completed run is finished, has one row per call, and has at least
      one row. */
  lemma RunFinished(c: Constants, noise: nat -> real)
    ensures Run(c, noise).isFinished
    ensures |Run(c, noise).rows| == CallsToFinish(c) >= 1
  {
    FinishedExactly(c, Draws(noise, CallsToFinish(c)));
  }

  /** `const runner = new FinancialSim(consts); while (!runner.isFinished)
      runner.simulateMonth();` The loop is proved to stop after
      `CallsToFinish(consts)` calls, leaving the state of `Run`. */
  method RunToFinish(consts: Constants, noise: nat -> real) returns (runner: FinancialSim)
    requires forall m :: -1.0 <= noise(m) < 1.0
    ensures fresh(runner)
    ensures runner.constants == consts
    ensures runner.isFinished
    ensures runner.State() == Run(consts, noise)
  {
    runner := new FinancialSim(consts);
    while !runner.isFinished
      invariant runner.constants == consts
      invariant |runner.rows| <= CallsToFinish(consts)
      invariant runner.State() == Iterate(consts, Init(consts), Draws(noise, |runner.rows|))
      decreases CallsToFinish(consts) - |runner.rows|
    {
      var n := |runner.rows|;
      FinishedExactly(consts, Draws(noise, n));
      DrawsNext(consts, noise, n);
      ghost var next := Iterate(consts, Init(consts), Draws(noise, n + 1));
      assert |next.rows| == n + 1;
      runner.SimulateMonth(noise(n));
      assert runner.State() == next;
    }
    ghost var n := |runner.rows|;
    FinishedExactly(consts, Draws(noise, n));
    assert n == CallsToFinish(consts);
  }

  /** One more call consumes the next draw of the stream. */
  lemma DrawsNext(c: Constants, noise: nat -> real, n: nat)
    ensures Iterate(c, Init(c), Draws(noise, n + 1)) ==
            Step(c, Iterate(c, Init(c), Draws(noise, n)), noise(n))
  {
    assert Draws(noise, n + 1)[..n] == Draws(noise, n);
  }

  /** A named scenario of the comparison page, `FinancialSimPluralSS`. */
  datatype SampleSet = SampleSet(name: string, modifiers: Modifiers)

  /** A finished scenario: its name and its runner's rows. */
  datatype NamedRun = NamedRun(name: string, rows: seq<DataPacket>)

  /** The runs of the comparison page, each on its own derived constants
      and its own stream `noise(i)`. */
  function Runs(base: Constants, sets: seq<SampleSet>, noise: nat -> nat -> real): (runs: seq<NamedRun>)
    ensures |runs| == |sets|
  {
    seq(|sets|, i requires 0 <= i < |sets| =>
      NamedRun(sets[i].name, Run(Derive(base, sets[i].modifiers), noise(i)).rows))
  }

  /** `sampleSets.map(...)`: derive each scenario's constants, run an engine
      to completion, and keep its rows under the scenario's name. */
  method RunSampleSets(base: Constants, sets: seq<SampleSet>, noise: nat -> nat -> real)
    returns (runs: seq<NamedRun>)
    requires forall i, m :: -1.0 <= noise(i)(m) < 1.0
    ensures runs == Runs(base, sets, noise)
  {
    ghost var expected := Runs(base, sets, noise);
    runs := [];
    var i := 0;
    while i < |sets|
      invariant 0 <= i <= |sets|
      invariant runs == expected[..i]
    {
      var consts := Derive(base, sets[i].modifiers);
      var runner := RunToFinish(consts, noise(i));
      ghost var run := NamedRun(sets[i].name, runner.rows);
      assert run.rows == runner.State().rows == Run(consts, noise(i)).rows;
      assert run == expected[i];
      TakeSnoc(expected, i);
      runs := runs + [NamedRun(sets[i].name, runner.rows)];
      i := i + 1;
    }
    assert expected[..i] == expected;
  }

  /** A prefix one longer is the prefix followed by the next element. */
  lemma TakeSnoc<T>(xs: seq<T>, i: nat)
    requires i < |xs|
    ensures xs[..i + 1] == xs[..i] + [xs[i]]
  {
  }

  // ---------------------------------------------------------------------
  // Decimal text of whole numbers, for the month labels

  function DigitChar(d: nat): (ch: char)
    requires d < 10
    ensures IsDigit(ch)
  {
    "0123456789"[d]
  }

  function DigitValue(ch: char): nat
    requires IsDigit(ch)
  {
    (ch as int - '0' as int) as nat
  }

  /** `String(n)` for a whole number `n >= 0`. */
  function NatToDecimal(n: nat): (s: string)
    ensures |s| >= 1 && AllDigits(s)
    ensures |s| > 1 ==> s[0] != '0'
  {
    if n < 10 then [DigitChar(n)] else NatToDecimal(n / 10) + [DigitChar(n % 10)]
  }

  /** The number a string of digits denotes. */
  function DecimalValue(s: string): nat
    requires AllDigits(s)
  {
    if s == [] then 0 else DecimalValue(s[..|s| - 1]) * 10 + DigitValue(s[|s| - 1])
  }

  /** Reading the decimal text back gives the number. */
  lemma {:induction false} DecimalRoundTrip(n: nat)
    ensures DecimalValue(NatToDecimal(n)) == n
  {
    var s := NatToDecimal(n);
    if n >= 10 {
      DecimalRoundTrip(n / 10);
      assert s[..|s| - 1] == NatToDecimal(n / 10);
    }
  }

  /** `String(i)` for a whole number: a minus sign before negative ones. */
  function IntToDecimal(i: int): string {
    if i < 0 then "-" + NatToDecimal(-i) else NatToDecimal(i)
  }

  /** `${year}-${month + 1}`: the label of a row in the charts and in the
      payoff line. */
  function RowLabel(p: DataPacket): string {
    IntToDecimal(p.year) + "-" + IntToDecimal(p.month + 1)
  }

  /** For years from 0 on, the label splits at "-" into the decimal year and
      the decimal month number, so different months have different labels. */
  lemma RowLabelParts(p: DataPacket)
    requires p.year >= 0 && p.month >= 0
    ensures Split(RowLabel(p), '-') == [NatToDecimal(p.year), NatToDecimal(p.month + 1)]
  {
    var a, b := NatToDecimal(p.year), NatToDecimal(p.month + 1);
    DigitsHaveNoDash(a);
    DigitsHaveNoDash(b);
    assert Join([a, b], '-') == a + "-" + b;
    SplitJoin([a, b], '-');
  }

  lemma DigitsHaveNoDash(d: string)
    requires AllDigits(d)
    ensures '-' !in d
  {
    assert forall i :: 0 <= i < |d| ==> d[i] != '-';
  }

  /** Rows of non-negative years and months with the same label are the same
      calendar month. */
  lemma RowLabelInjective(p: DataPacket, q: DataPacket)
    requires p.year >= 0 && p.month >= 0 && q.year >= 0 && q.month >= 0
    requires RowLabel(p) == RowLabel(q)
    ensures p.year == q.year && p.month == q.month
  {
    var a, b := RowLabelPieces(p);
    var c, d := RowLabelPieces(q);
    DashJoinInjective(a, b, c, d);
    NatToDecimalInjective(p.year, q.year);
    NatToDecimalInjective(p.month + 1, q.month + 1);
  }

  /** The two pieces of the label of a row of a non-negative year and
      month. */
  lemma RowLabelPieces(p: DataPacket) returns (y: string, m: string)
    requires p.year >= 0 && p.month >= 0
    ensures y == NatToDecimal(p.year) && m == NatToDecimal(p.month + 1)
    ensures RowLabel(p) == y + "-" + m
    ensures '-' !in y
  {
    y, m := NatToDecimal(p.year), NatToDecimal(p.month + 1);
    DigitsHaveNoDash(y);
  }

  /** The position of the first "-" in `s`, or `|s|`. */
  function DashAt(s: string): (k: nat)
    ensures k <= |s|
  {
    if |s| == 0 || s[0] == '-' then 0 else 1 + DashAt(s[1..])
  }

  lemma {:induction false} DashAtJoin(a: string, b: string)
    requires '-' !in a
    ensures DashAt(a + "-" + b) == |a|
    decreases |a|
  {
    if |a| > 0 {
      assert (a + "-" + b)[0] == a[0];
      assert (a + "-" + b)[1..] == a[1..] + "-" + b;
      DashAtJoin(a[1..], b);
    }
  }

  /** Two texts joined by "-" around a first part without "-" come apart
      again. */
  lemma DashJoinInjective(a: string, b: string, c: string, d: string)
    requires '-' !in a && '-' !in c
    requires a + "-" + b == c + "-" + d
    ensures a == c && b == d
  {
    DashAtJoin(a, b);
    DashAtJoin(c, d);
    var s := a + "-" + b;
    assert a == s[..|a|];
    assert c == s[..|c|];
    assert b == s[|a| + 1..];
    assert d == (c + "-" + d)[|c| + 1..];
  }

  /** Different numbers have different decimal texts. */
  lemma NatToDecimalInjective(a: nat, b: nat)
    requires NatToDecimal(a) == NatToDecimal(b)
    ensures a == b
  {
    DecimalRoundTrip(a);
    DecimalRoundTrip(b);
  }

  // ---------------------------------------------------------------------
  // findLast and the payoff label

  /** The index `xs.findLast(p)` stops at, if any. */
  function FindLastIndex<T>(xs: seq<T>, p: T -> bool): (r: Option<nat>)
    ensures r.Some? ==> r.value < |xs| && p(xs[r.value])
    ensures r.Some? ==> forall j :: r.value < j < |xs| ==> !p(xs[j])
    ensures r.None? ==> forall j :: 0 <= j < |xs| ==> !p(xs[j])
    decreases |xs|
  {
    if |xs| == 0 then None
    else if p(xs[|xs| - 1]) then Some(|xs| - 1)
    else FindLastIndex(xs[..|xs| - 1], p)
  }

  /** `xs.findLast(p)`: the last element satisfying `p`, or `undefined`. */
  function FindLast<T>(xs: seq<T>, p: T -> bool): (r: Option<T>)
    ensures r.Some? <==> exists j :: 0 <= j < |xs| && p(xs[j])
    ensures r.Some? ==> p(r.value)
  {
    match FindLastIndex(xs, p)
    case Some(i) => Some(xs[i])
    case None => None
  }

  /** The element test of both payoff searches: at least one unit of
      principal is still owed. */
  predicate StillOwing(p: DataPacket) {
    p.loanPrincipal >= 1.0
  }

  const NotPaidOff: string := "Not paid off"

  /** The payoff line of the comparison page: the label of the last row still
      owing, or "Not paid off" when no row owes. */
  function PayoffLabel(rows: seq<DataPacket>): string {
    match FindLastIndex(rows, StillOwing)
    case Some(i) => RowLabel(rows[i])
    case None => NotPaidOff
  }

  /** The line says "Not paid off" exactly when no row owes one unit. */
  lemma PayoffLabelNotPaidOff(rows: seq<DataPacket>)
    ensures PayoffLabel(rows) == NotPaidOff <==> forall j :: 0 <= j < |rows| ==> !StillOwing(rows[j])
  {
    var r := FindLastIndex(rows, StillOwing);
    if r.Some? {
      LabelIsNotNotPaidOff(rows[r.value]);
      assert StillOwing(rows[r.value]);
    }
  }

  /** Otherwise it names the last row still owing. */
  lemma PayoffLabelLastOwing(rows: seq<DataPacket>, i: nat)
    requires i < |rows| && StillOwing(rows[i])
    requires forall j :: i < j < |rows| ==> !StillOwing(rows[j])
    ensures PayoffLabel(rows) == RowLabel(rows[i])
  {
    var r := FindLastIndex(rows, StillOwing);
    assert r.Some?;
    assert StillOwing(rows[r.value]);
    assert !(r.value > i);
    assert r.value == i;
  }

  /** A label always holds a "-", so it is never "Not paid off". */
  lemma LabelIsNotNotPaidOff(p: DataPacket)
    ensures RowLabel(p) != NotPaidOff
  {
    var y := IntToDecimal(p.year);
    assert RowLabel(p)[|y|] == '-';
    assert forall i :: 0 <= i < |NotPaidOff| ==> NotPaidOff[i] != '-';
  }

  /** As written, a loan that is still owed in the last row is reported as
      paid off in that row's month. */
  lemma NeverPaidOffShowsLastMonth(rows: seq<DataPacket>)
    requires |rows| > 0
    requires forall j :: 0 <= j < |rows| ==> StillOwing(rows[j])
    ensures PayoffLabel(rows) == RowLabel(rows[|rows| - 1])
    ensures PayoffLabel(rows) != NotPaidOff
  {
    var i := |rows| - 1;
    PayoffLabelLastOwing(rows, i);
    LabelIsNotNotPaidOff(rows[i]);
  }

  /** As written, a loan below one unit already in the first row (repaid by
      the first call, or never taken out) is reported as not paid off. */
  lemma PaidAtOnceShowsNotPaidOff(rows: seq<DataPacket>)
    requires |rows| > 0
    requires forall j :: 0 <= j < |rows| ==> !StillOwing(rows[j])
    ensures PayoffLabel(rows) == NotPaidOff
  {
    PayoffLabelNotPaidOff(rows);
  }

  /** The calendar month in which the call that recorded `p` ran. A row holds
      the calendar after its call has advanced it, so this is the month
      before the row's own. */
  function CallMonth(p: DataPacket): (r: DataPacket)
    ensures 12 * r.year + r.month == 12 * p.year + p.month - 1
    ensures 0 <= p.month < 12 ==> 0 <= r.month < 12
  {
    if p.month == 0 then p.(year := p.year - 1, month := 11)
    else p.(month := p.month - 1)
  }

  /** The payoff line as evidently intended. The source's label of the last
      row still owing is already the month of the call that repays the loan
      (see `CallMonth`), so it is kept. "Not paid off" is shown when the
      final row still owes, and the month of the first call when no row
      ever owes. */
  function PayoffMonthLabel(rows: seq<DataPacket>): string {
    if |rows| == 0 || StillOwing(rows[|rows| - 1]) then NotPaidOff
    else
      match FindLastIndex(rows, StillOwing)
      case Some(i) => RowLabel(rows[i])
      case None => RowLabel(CallMonth(rows[0]))
  }

  /** The corrected line says "Not paid off" exactly when there are no rows
      or the final row still owes one unit. */
  lemma PayoffMonthNotPaidOff(rows: seq<DataPacket>)
    ensures PayoffMonthLabel(rows) == NotPaidOff <==> |rows| == 0 || StillOwing(rows[|rows| - 1])
  {
    if |rows| > 0 && !StillOwing(rows[|rows| - 1]) {
      var r := FindLastIndex(rows, StillOwing);
      if r.Some? {
        LabelIsNotNotPaidOff(rows[r.value]);
      } else {
        LabelIsNotNotPaidOff(CallMonth(rows[0]));
      }
    }
  }

  /** For a loan repaid during the run, the corrected line is the source's:
      the label of the last row still owing. */
  lemma PayoffMonthRepaid(rows: seq<DataPacket>, i: nat)
    requires i < |rows| && StillOwing(rows[i])
    requires forall j :: i < j < |rows| ==> !StillOwing(rows[j])
    requires !StillOwing(rows[|rows| - 1])
    ensures PayoffMonthLabel(rows) == RowLabel(rows[i])
    ensures PayoffMonthLabel(rows) == PayoffLabel(rows)
  {
    PayoffLabelLastOwing(rows, i);
  }

  /** When no row ever owes one unit, the corrected line names the month of
      the first call. */
  lemma PayoffMonthFirstCall(rows: seq<DataPacket>)
    requires |rows| > 0
    requires forall j :: 0 <= j < |rows| ==> !StillOwing(rows[j])
    ensures PayoffMonthLabel(rows) == RowLabel(CallMonth(rows[0]))
  {
  }

  /** In a completed run the first call ran in January of the start year, so
      the corrected line then reads `${startYear}-1`. */
  lemma RunFirstCallMonth(c: Constants, noise: nat -> real)
    ensures |Run(c, noise).rows| > 0
    ensures CallMonth(Run(c, noise).rows[0]).year == c.startYear
    ensures CallMonth(Run(c, noise).rows[0]).month == 0
  {
    var us := Draws(noise, CallsToFinish(c));
    RunFinished(c, noise);
    RowIsSnapshot(c, Init(c), us, 0);
    RunCalendar(c, us[..1]);
  }

  // ---------------------------------------------------------------------
  // The single-scenario page

  /** One point of the single-scenario chart; `netWorth` is left out
      (`undefined`) while net worth is hidden. */
  datatype ChartRow = ChartRow(
    name: string,
    houseValue: real,
    loanPrincipal: real,
    equity: real,
    savings: real,
    netWorth: Option<real>)

  /** The net worth the pages report for a row. */
  function NetWorth(p: DataPacket): real {
    p.equity + p.savings
  }

  /** `runner.rows.map(row => ({...}))`. */
  function ChartRows(rows: seq<DataPacket>, showNetWorth: bool): (points: seq<ChartRow>)
    ensures |points| == |rows|
    ensures forall i :: 0 <= i < |rows| ==>
              && points[i].name == RowLabel(rows[i])
              && points[i].loanPrincipal == rows[i].loanPrincipal
              && points[i].savings == rows[i].savings
              && points[i].houseValue == rows[i].houseValue
              && points[i].equity == rows[i].equity
              && (points[i].netWorth.Some? <==> showNetWorth)
              && (showNetWorth ==> points[i].netWorth.value == NetWorth(rows[i]))
  {
    seq(|rows|, i requires 0 <= i < |rows| =>
      ChartRow(RowLabel(rows[i]), rows[i].houseValue, rows[i].loanPrincipal,
               rows[i].equity, rows[i].savings,
               if showNetWorth then Some(NetWorth(rows[i])) else None))
  }

  predicate ChartStillOwing(el: ChartRow) {
    el.loanPrincipal >= 1.0
  }

  /** The payoff line of the single-scenario page, searched in the chart
      points rather than the rows. */
  function ChartPayoffLabel(points: seq<ChartRow>): string {
    match FindLast(points, ChartStillOwing)
    case Some(el) => el.name
    case None => NotPaidOff
  }

  /** `findLast` finds the same index in two sequences of the same length
      whose elements pass the two tests alike. */
  lemma {:induction false} FindLastIndexAlike<S, T>(xs: seq<S>, p: S -> bool, ys: seq<T>, q: T -> bool)
    requires |xs| == |ys|
    requires forall i :: 0 <= i < |xs| ==> p(xs[i]) == q(ys[i])
    ensures FindLastIndex(xs, p) == FindLastIndex(ys, q)
    decreases |xs|
  {
    if |xs| > 0 && !p(xs[|xs| - 1]) {
      FindLastIndexAlike(xs[..|xs| - 1], p, ys[..|ys| - 1], q);
    }
  }

  /** Both pages show the same payoff line for the same rows. */
  lemma PayoffLabelsAgree(rows: seq<DataPacket>, showNetWorth: bool)
    ensures ChartPayoffLabel(ChartRows(rows, showNetWorth)) == PayoffLabel(rows)
  {
    var points := ChartRows(rows, showNetWorth);
    FindLastIndexAlike(points, ChartStillOwing, rows, StillOwing);
  }

  /** The text below a chart: "No data", or the payoff line and the three
      final figures as written by `addCommas(x.toFixed(2))`. */
  datatype Summary =
    | NoData
    | Figures(payoff: string, netWorth: string, savings: string, houseValue: string)

  /** `rows.at(-1)`. */
  function FinalRow(rows: seq<DataPacket>): (r: Option<DataPacket>)
    ensures r.Some? <==> |rows| > 0
    ensures r.Some? ==> r.value == rows[|rows| - 1]
  {
    if |rows| == 0 then None else Some(rows[|rows| - 1])
  }

  /** The summary, given the payoff line; `toFixed2` stands for
      `Number.prototype.toFixed(2)`. */
  function SummaryWith(rows: seq<DataPacket>, payoff: string, toFixed2: real -> string): Summary {
    match FinalRow(rows)
    case None => NoData
    case Some(f) =>
      Figures(payoff,
              AddCommas(toFixed2(NetWorth(f))),
              AddCommas(toFixed2(f.savings)),
              AddCommas(toFixed2(f.houseValue)))
  }

  /** The summary of the single-scenario page. */
  function SingleSummary(rows: seq<DataPacket>, showNetWorth: bool, toFixed2: real -> string): Summary {
    SummaryWith(rows, ChartPayoffLabel(ChartRows(rows, showNetWorth)), toFixed2)
  }

  /** The summary of one scenario on the comparison page. */
  function ScenarioSummary(run: NamedRun, toFixed2: real -> string): Summary {
    SummaryWith(run.rows, PayoffLabel(run.rows), toFixed2)
  }

  /** Both pages summarise the same rows alike, whether or not net worth is
      shown in the chart. */
  lemma SummariesAgree(rows: seq<DataPacket>, name: string, showNetWorth: bool, toFixed2: real -> string)
    ensures SingleSummary(rows, showNetWorth, toFixed2) == ScenarioSummary(NamedRun(name, rows), toFixed2)
  {
    PayoffLabelsAgree(rows, showNetWorth);
  }

  /** A completed run always has a final row, so "No data" is never shown
      for one; its figures are those of the last row. */
  lemma RunHasSummary(c: Constants, noise: nat -> real, toFixed2: real -> string)
    ensures var rows := Run(c, noise).rows;
      && |rows| > 0
      && SummaryWith(rows, PayoffLabel(rows), toFixed2) ==
           Figures(PayoffLabel(rows),
                   AddCommas(toFixed2(NetWorth(rows[|rows| - 1]))),
                   AddCommas(toFixed2(rows[|rows| - 1].savings)),
                   AddCommas(toFixed2(rows[|rows| - 1].houseValue)))
  {
    RunFinished(c, noise);
  }

  /** While a loan is outstanding in a row of a run, its net worth is house
      value minus principal plus savings. */
  lemma RunNetWorth(c: Constants, noise: nat -> real, i: nat)
    requires i < |Run(c, noise).rows|
    requires Run(c, noise).rows[i].loanPrincipal > 0.0
    ensures var p := Run(c, noise).rows[i];
      NetWorth(p) == p.houseValue - p.loanPrincipal + p.savings
  {
    InitInv(c);
    IterateInv(c, Init(c), Draws(noise, CallsToFinish(c)));
    assert RowInv(c, Run(c, noise).rows[i]);
  }

  // ---------------------------------------------------------------------
  // The comparison chart

  /** `${name}-Savings`, the data key of one scenario's line. */
  function SavingsKey(name: string): string {
    name + "-Savings"
  }

  /** Different scenario names give different keys. */
  lemma SavingsKeyInjective(a: string, b: string)
    requires SavingsKey(a) == SavingsKey(b)
    ensures a == b
  {
    assert |a| == |b|;
    assert a == SavingsKey(a)[..|a|];
    assert b == SavingsKey(b)[..|b|];
  }

  /** The savings entries of point `index`, written scenario by scenario in
      order so that a later scenario with the same key overwrites an earlier
      one; a scenario without a row `index` writes nothing. */
  function Columns(runs: seq<NamedRun>, index: nat): map<string, real>
    decreases |runs|
  {
    if |runs| == 0 then map[]
    else
      var prev := Columns(runs[..|runs| - 1], index);
      var last := runs[|runs| - 1];
      if index < |last.rows| then prev[SavingsKey(last.name) := last.rows[index].savings]
      else prev
  }

  /** A key is written exactly when some scenario with that key has a row
      `index`. */
  lemma {:induction false} ColumnsKeys(runs: seq<NamedRun>, index: nat, k: string)
    ensures k in Columns(runs, index) <==>
              exists j :: 0 <= j < |runs| && index < |runs[j].rows| && SavingsKey(runs[j].name) == k
    decreases |runs|
  {
    if |runs| > 0 {
      var pre := runs[..|runs| - 1];
      ColumnsKeys(pre, index, k);
      if exists j :: 0 <= j < |pre| && index < |pre[j].rows| && SavingsKey(pre[j].name) == k {
        var j :| 0 <= j < |pre| && index < |pre[j].rows| && SavingsKey(pre[j].name) == k;
        assert runs[j] == pre[j];
      }
      if exists j :: 0 <= j < |runs| && index < |runs[j].rows| && SavingsKey(runs[j].name) == k {
        var j :| 0 <= j < |runs| && index < |runs[j].rows| && SavingsKey(runs[j].name) == k;
        if j < |pre| {
          assert pre[j] == runs[j];
        }
      }
    }
  }

  /** The value under a key is the row-`index` savings of the last scenario
      that has that key and that row. */
  lemma {:induction false} ColumnsLastWriter(runs: seq<NamedRun>, index: nat, j: nat)
    requires j < |runs| && index < |runs[j].rows|
    requires forall l :: j < l < |runs| && index < |runs[l].rows| ==>
               SavingsKey(runs[l].name) != SavingsKey(runs[j].name)
    ensures SavingsKey(runs[j].name) in Columns(runs, index)
    ensures Columns(runs, index)[SavingsKey(runs[j].name)] == runs[j].rows[index].savings
    decreases |runs|
  {
    var pre := runs[..|runs| - 1];
    if j < |pre| {
      assert pre[j] == runs[j];
      ColumnsLastWriter(pre, index, j);
    }
  }

  /** One point of the comparison chart: the month label and the savings
      entries. */
  datatype ChartPoint = ChartPoint(name: string, savings: map<string, real>)

  /** What `runner.rows[index].savings` throws when a scenario has no row
      `index`. */
  const MissingRowError: string := "TypeError: Cannot read properties of undefined (reading 'savings')"

  /** Some scenario has fewer rows than the first. */
  predicate SomeRunShorter(runs: seq<NamedRun>)
    requires |runs| > 0
  {
    exists j :: 0 <= j < |runs| && |runs[j].rows| < |runs[0].rows|
  }

  /** The points of the chart, one per row of the first scenario. */
  function Points(runs: seq<NamedRun>): (points: seq<ChartPoint>)
    requires |runs| > 0
    ensures |points| == |runs[0].rows|
  {
    seq(|runs[0].rows|, i requires 0 <= i < |runs[0].rows| =>
      ChartPoint(RowLabel(runs[0].rows[i]), Columns(runs, i)))
  }

  /** `runners[0]?.runner.rows.map(...) || []`: no points without scenarios;
      the error when a later scenario runs out of rows before the first. */
  function ComparisonChart(runs: seq<NamedRun>): Result<seq<ChartPoint>, string> {
    if |runs| == 0 then Ok([])
    else if SomeRunShorter(runs) then Err(MissingRowError)
    else Ok(Points(runs))
  }

  /** The comparison chart computed as the source does, index by index and,
      inside, scenario by scenario. */
  method BuildComparisonChart(runs: seq<NamedRun>) returns (r: Result<seq<ChartPoint>, string>)
    ensures r == ComparisonChart(runs)
  {
    if |runs| == 0 {
      return Ok([]);
    }
    var first := runs[0].rows;
    ghost var expected := Points(runs);
    var points: seq<ChartPoint> := [];
    var index := 0;
    while index < |first|
      invariant 0 <= index <= |first|
      invariant forall l :: 0 <= l < |runs| ==> index <= |runs[l].rows|
      invariant points == expected[..index]
    {
      var dataPoint, ok := DataPointAt(runs, index);
      if !ok {
        var l :| 0 <= l < |runs| && index >= |runs[l].rows|;
        assert |runs[l].rows| < |runs[0].rows|;
        return Err(MissingRowError);
      }
      var point := ChartPoint(RowLabel(first[index]), dataPoint);
      assert point == expected[index];
      TakeSnoc(expected, index);
      points := points + [point];
      index := index + 1;
    }
    assert !SomeRunShorter(runs);
    assert expected[..index] == expected;
    return Ok(points);
  }

  /** `runners.forEach(...)` for point `index`: each scenario writes its
      row-`index` savings under its key; `ok` is false where the source
      throws, at the first scenario without a row `index`. */
  method DataPointAt(runs: seq<NamedRun>, index: nat) returns (dataPoint: map<string, real>, ok: bool)
    ensures ok <==> forall l :: 0 <= l < |runs| ==> index < |runs[l].rows|
    ensures ok ==> dataPoint == Columns(runs, index)
  {
    dataPoint := map[];
    var j := 0;
    while j < |runs|
      invariant 0 <= j <= |runs|
      invariant forall l :: 0 <= l < j ==> index < |runs[l].rows|
      invariant dataPoint == Columns(runs[..j], index)
    {
      if index >= |runs[j].rows| {
        return dataPoint, false;
      }
      assert runs[..j + 1][..j] == runs[..j];
      dataPoint := dataPoint[SavingsKey(runs[j].name) := runs[j].rows[index].savings];
      j := j + 1;
    }
    assert runs[..j] == runs;
    return dataPoint, true;
  }

  /** The chart has one point per row of the first scenario, labelled with
      that row's month; point `i` holds, under each scenario's key, that
      scenario's row-`i` savings, the last scenario winning when names
      repeat. */
  lemma ComparisonChartPoints(runs: seq<NamedRun>, i: nat, j: nat)
    requires ComparisonChart(runs).Ok?
    requires j < |runs| && i < |runs[0].rows|
    requires forall l :: j < l < |runs| ==> runs[l].name != runs[j].name
    ensures var points := ComparisonChart(runs).value;
      && |points| == |runs[0].rows|
      && points[i].name == RowLabel(runs[0].rows[i])
      && SavingsKey(runs[j].name) in points[i].savings
      && points[i].savings[SavingsKey(runs[j].name)] == runs[j].rows[i].savings
  {
    assert !SomeRunShorter(runs);
    assert |runs[j].rows| >= |runs[0].rows|;
    forall l | j < l < |runs| && i < |runs[l].rows|
      ensures SavingsKey(runs[l].name) != SavingsKey(runs[j].name)
    {
      if SavingsKey(runs[l].name) == SavingsKey(runs[j].name) {
        SavingsKeyInjective(runs[l].name, runs[j].name);
      }
    }
    ColumnsLastWriter(runs, i, j);
  }

  /** Every key of a point belongs to a scenario. */
  lemma ComparisonChartKeys(runs: seq<NamedRun>, i: nat, k: string)
    requires ComparisonChart(runs).Ok?
    requires i < |ComparisonChart(runs).value|
    requires k in ComparisonChart(runs).value[i].savings
    ensures exists j :: 0 <= j < |runs| && SavingsKey(runs[j].name) == k
  {
    ColumnsKeys(runs, i, k);
  }

  /** As written, the chart fails when a later scenario has fewer rows than
      the first, which happens whenever its overrides give it a shorter span
      of years. */
  lemma ShorterScenarioFails(base: Constants, sets: seq<SampleSet>, noise: nat -> nat -> real, k: nat)
    requires k < |sets|
    requires CallsToFinish(Derive(base, sets[k].modifiers)) < CallsToFinish(Derive(base, sets[0].modifiers))
    ensures ComparisonChart(Runs(base, sets, noise)) == Err(MissingRowError)
  {
    var runs := Runs(base, sets, noise);
    RunFinished(Derive(base, sets[k].modifiers), noise(k));
    RunFinished(Derive(base, sets[0].modifiers), noise(0));
    assert |runs[k].rows| < |runs[0].rows|;
  }

  /** The comparison chart as evidently intended: a scenario without a row
      at some index leaves its key out of that point instead of failing. */
  function TolerantComparisonChart(runs: seq<NamedRun>): (points: seq<ChartPoint>)
    ensures |runs| == 0 ==> points == []
    ensures |runs| > 0 ==> |points| == |runs[0].rows|
  {
    if |runs| == 0 then [] else Points(runs)
  }

  /** The tolerant chart agrees with the source's wherever the source does
      not fail, and it never leaves a scenario's existing row out. */
  lemma TolerantChartAgrees(runs: seq<NamedRun>, i: nat, j: nat)
    requires i < |TolerantComparisonChart(runs)|
    requires j < |runs| && i < |runs[j].rows|
    requires forall l :: j < l < |runs| ==> runs[l].name != runs[j].name
    ensures ComparisonChart(runs).Ok? ==> ComparisonChart(runs).value == TolerantComparisonChart(runs)
    ensures var p := TolerantComparisonChart(runs)[i];
      && SavingsKey(runs[j].name) in p.savings
      && p.savings[SavingsKey(runs[j].name)] == runs[j].rows[i].savings
  {
    forall l | j < l < |runs| && i < |runs[l].rows|
      ensures SavingsKey(runs[l].name) != SavingsKey(runs[j].name)
    {
      if SavingsKey(runs[l].name) == SavingsKey(runs[j].name) {
        SavingsKeyInjective(runs[l].name, runs[j].name);
      }
    }
    ColumnsLastWriter(runs, i, j);
  }
}
