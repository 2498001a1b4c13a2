# inflation-rate: a verified model of the financial projection engine

The inflation-rate application projects a household's finances month by month.
It tracks a house loan being paid down, savings growing from income less
inflating expenses, the house value following an inflation multiplier that
drifts randomly around a base rate, and equity. Two page components then use
the results:

- the single-scenario page runs one engine and shows its rows and a summary;
- the comparison page runs several scenarios, each a base parameter record
  with overrides, and lines up their savings month by month.

This project models that core in Dafny and proves properties of the model.
It has four modules:

- `SimRunner` (`sim_runner.dfy`) models `src/components/simRunner.ts`:
  - the `Constants` record with its defaults, and the `DataPacket` row;
  - the `FinancialSim` class. Its fields are updated in place by
    `SimulateMonth`, which works in four phases, as the source does.
  - Each method is proved against a state function: `Init`, `InflationStep`,
    `PaymentStep`, `CalendarStep`, `RecordStep`. Together they make up
    `Step`, one call of `simulateMonth`.
  - `Iterate` applies `Step` once per random draw. The lemmas about `Step` and
    `Iterate` cover the calendar, termination, rows, principal, equity and
    inflation.
- `StringUtil` (`string_util.dfy`) models `addCommas` of `src/utils/string.ts`:
  - `split(".")` and `join(".")`;
  - the global replace with `/\B(?=(\d{3})+(?!\d))/g`, defined position by
    position;
  - lemmas that tie these to the regular expression's meaning and to a
    recursive thousands grouping of digit strings.
- `FinancialSimPage` (`financial_sim_page.dfy`) models the logic of
  `src/components/financialSim.tsx` that does not render anything:
  - deriving a scenario's constants from a base record and its overrides;
  - the driver loop that runs an engine until `isFinished`;
  - the month labels, the payoff line, net worth and the summary figures;
  - the comparison chart.
- `Wrappers` (`wrappers.dfy`) holds `Option` and `Result`.

Modelling choices:

- **Numbers.** Years and months are integers. Money, rates and multipliers
  are exact reals.
- **Randomness.** `Math.random() * 2 - 1` becomes an explicit draw:
  - in the engine, the `deviation` argument of `SimulateMonth`, with
    `-1 <= deviation < 1`;
  - in the driver loop, a stream `noise`, where `noise(m)` is the draw at the
    m-th call.
- **Number formatting.** `Number.prototype.toFixed(2)` is a function parameter
  of the summary.
- **Quirks kept as the code has them.**
  - Equity is not recomputed once the loan is paid off.
  - Income uses the year before the calendar advances.
  - The month wraps at `>= 12`.
  - With `endYear < startYear` the driver loop still makes one call and gets
    one row; the model follows the code.

## Model

| member | source | states |
|---|---|---|
| SimRunner.Pow | src/components/simRunner.ts:60 | `b ** n` for a whole exponent is positive for a positive base and at least 1 for a base of at least 1 |
| SimRunner.InitInv | src/components/simRunner.ts:36-48 | the constructed state (principal and house value = initial loan, savings 0, year = startYear, month 0, equity 0, multiplier 1, no rows, not finished) satisfies the run invariant |
| SimRunner.DefaultConstants | src/components/simRunner.ts:1-15 | the default parameter record: years 2023 to 2050, a 500000 loan at 3.5% repaid 2500 a month, 8000 monthly income growing 3% a year, 3000 monthly expenses, 3% inflation varying by 0.5%, 1% savings interest |
| SimRunner.Init | src/components/simRunner.ts:39-48 | the state the constructor sets up; `InitInv` proves it satisfies the run invariant and `RunCalendar` starts from it |
| SimRunner.InflationStep | src/components/simRunner.ts:52-56 | the inflation part of a call; its effect on a call is stated by `StepInflation` |
| SimRunner.PaymentStep | src/components/simRunner.ts:58-87 | the cash-flow part of a call on its two branches; its effect is stated by `StepLoanOutstanding` and `StepPaidOff` |
| SimRunner.CalendarStep | src/components/simRunner.ts:89-98 | the calendar part of a call; its effect is stated by `StepCalendar` |
| SimRunner.RecordStep | src/components/simRunner.ts:100-109 | the push of the snapshot; its effect is stated by `StepRows` |
| SimRunner.Step | src/components/simRunner.ts:50-110 | one call of `simulateMonth`, the four parts in order; it preserves the run invariant by `StepInv` |
| SimRunner.FinancialSim.constructor | src/components/simRunner.ts:39-48 | sets every field as the constructor does; the new object's state is `Init`, which satisfies the run invariant (`InitInv`) |
| SimRunner.FinancialSim.SimulateMonth | src/components/simRunner.ts:50-110 | one call changes the object's state exactly as `Step` says, running the four phases in order |
| SimRunner.FinancialSim.UpdateInflation | src/components/simRunner.ts:52-56 | compounds the multiplier by `1 + (base + deviation * variation) / 12` and sets house value to initial loan times multiplier; nothing else changes |
| SimRunner.FinancialSim.UpdateLoanAndSavings | src/components/simRunner.ts:59-87 | the cash-flow phase on its two branches, paid off (principal <= 0) and outstanding, equals `PaymentStep` |
| SimRunner.FinancialSim.UpdateSavings | src/components/simRunner.ts:84-86 | savings become (savings + net - expenses * multiplier) * (1 + savingsRate / 12); no other field changes |
| SimRunner.FinancialSim.AdvanceCalendar | src/components/simRunner.ts:89-98 | month + 1, wrapping to 0 with year + 1 at 12; finished is set when the year passes endYear and never cleared |
| SimRunner.FinancialSim.StoreDataPacket | src/components/simRunner.ts:100-109 | appends exactly one row recording year, month, principal, savings, house value, equity and multiplier |
| SimRunner.StepInflation | src/components/simRunner.ts:52-56 | after a step the multiplier is the old one times this month's factor, and house value = initial loan * multiplier |
| SimRunner.StepLoanOutstanding | src/components/simRunner.ts:64-87 | with principal > 0: new principal = max(0, principal + interest - payment), hence never negative; unchanged when payment equals interest; equity = house value - principal; savings take income - payment - inflated expenses, then interest |
| SimRunner.StepPaidOff | src/components/simRunner.ts:59-64 | with principal <= 0: principal and equity unchanged; savings = (savings + income - expenses * multiplier) * (1 + savingsRate / 12), income from the pre-advance year |
| SimRunner.StepCalendar | src/components/simRunner.ts:89-109 | month becomes (month + 1) % 12; year goes up by one exactly when the month was 11; finished iff it was finished or the new year > endYear; exactly the new state's snapshot is appended |
| SimRunner.StepRows | src/components/simRunner.ts:100-109 | a step appends exactly one row, the snapshot of the new state |
| SimRunner.StepCalendarInv | src/components/simRunner.ts:89-98 | a step keeps: month in 0..11, one row per month since the start, finished iff a row exists and year > endYear |
| SimRunner.StepMultiplierInv | src/components/simRunner.ts:52-56 | a step keeps house value = initial loan * multiplier, and with zero variation multiplier = (1 + base / 12) ^ rows |
| SimRunner.StepLoanInv | src/components/simRunner.ts:59-87 | a step keeps principal >= 0 (unless the loan started negative and is frozen), and equity = house value - principal while principal > 0 |
| SimRunner.StepValueInv | src/components/simRunner.ts:52-87 | a step keeps the money part of the invariant |
| SimRunner.StepHistoryInv | src/components/simRunner.ts:100-109 | a step keeps: last row = current state, every row within the calendar and value bounds |
| SimRunner.StepInv | src/components/simRunner.ts:50-110 | `simulateMonth` preserves the whole run invariant |
| SimRunner.Iterate | src/components/simRunner.ts:89-109 | over a sequence of calls the year never decreases and exactly one row is added per call |
| SimRunner.CallsToFinish | src/components/simRunner.ts:36 | the driver loop makes at least one call, since `isFinished` starts false |
| SimRunner.DefaultCalls | src/components/simRunner.ts:2-3 | with the default years 2023 to 2050, a run makes 336 monthly calls |
| SimRunner.IterateInv | src/components/simRunner.ts:50-110 | every state reached by calls from an invariant state satisfies the invariant |
| SimRunner.IterateAppend | src/components/simRunner.ts:50-110 | running the calls of `a + b` equals running `a` and then `b` |
| SimRunner.RunCalendar | src/components/simRunner.ts:89-94 | after n calls from construction: year = startYear + n / 12, month = n % 12, n rows |
| SimRunner.FinishedExactly | src/components/simRunner.ts:96-98 | a run is finished iff it made at least (endYear - startYear + 1) * 12 calls, or one call when endYear < startYear |
| SimRunner.FinishedStays | src/components/simRunner.ts:96-98 | once finished, later calls never clear the flag |
| SimRunner.RowsPrefix | src/components/simRunner.ts:101 | rows are only ever appended: a shorter run's rows are a prefix of a longer run's |
| SimRunner.RowIsSnapshot | src/components/simRunner.ts:100-109 | the i-th row appended is the snapshot after the first i + 1 calls |
| SimRunner.PaidOffStays | src/components/simRunner.ts:59-64 | once principal <= 0, principal and equity never change again |
| SimRunner.StepFrozen | src/components/simRunner.ts:59-64 | a step keeps the property that rows after a paid-off row repeat its principal and equity |
| SimRunner.RunFrozen | src/components/simRunner.ts:59-64 | in every run, each row after a row with principal <= 0 has that row's principal and equity |
| SimRunner.StepInterestOnly | src/components/simRunner.ts:66-75 | a payment equal to the interest on the initial loan leaves the principal at the initial loan |
| SimRunner.InterestOnly | src/components/simRunner.ts:66-75 | under such a payment the principal stays at the initial loan in every state and every row of the run |
| SimRunner.RunInflation | src/components/simRunner.ts:52-55 | the multiplier of a run is the product of the monthly factors of its draws |
| SimRunner.GrowthZeroDeviation | src/components/simRunner.ts:52-55 | with every draw zero, that product is (1 + inflationRateBase / 12) ^ n |
| SimRunner.ZeroDeviationRun | src/components/simRunner.ts:52-55 | with deviation 0 every month, the multiplier after n months is (1 + inflationRateBase / 12) ^ n |
| SimRunner.OneYearInterestOnly | src/components/simRunner.ts:66-98 | a one-year run whose payment covers exactly the interest finishes after 12 calls with 12 rows, each showing the full principal |
| StringUtil.Split | src/utils/string.ts:2 | `split(sep)` gives at least one part and no part contains the separator |
| StringUtil.JoinSplit | src/utils/string.ts:2-4 | joining the parts of a split gives back the string |
| StringUtil.SplitJoin | src/utils/string.ts:2-4 | splitting the join of separator-free parts gives back the parts |
| StringUtil.CommaAt | src/utils/string.ts:3 | where the replace inserts a comma; equal to the regular expression's reading by `CommaAtIsPattern` |
| StringUtil.InsertFrom | src/utils/string.ts:3 | the replace scanned from position p on: a comma before each position where `CommaAt` holds, the characters kept in order (`InsertFromRemove`) |
| StringUtil.ReplaceCommas | src/utils/string.ts:3 | `replace(/\B(?=(\d{3})+(?!\d))/g, ",")` over a whole string; on digits it is the thousands grouping (`ReplaceDigits`) |
| StringUtil.AddCommas | src/utils/string.ts:1-5 | `addCommas`; its meaning is stated by `AddCommasShape`, `AddCommasParts`, `AddCommasRemove`, `AddCommasShort` and `AddCommasFixed` |
| StringUtil.DigitRun | src/utils/string.ts:3 | the digit run from p stays inside the string |
| StringUtil.DigitRunMaximal | src/utils/string.ts:3 | the run is all digits and is stopped by a non-digit or the end |
| StringUtil.DigitRunExact | src/utils/string.ts:3 | any digit run stopped by a non-digit or the end is the digit run |
| StringUtil.CommaAtIsPattern | src/utils/string.ts:3 | a comma is inserted at p iff `\B` holds there and `(\d{3})+(?!\d)` matches from p |
| StringUtil.NoCommaAfterNonWord | src/utils/string.ts:3 | no comma at position 0, at the end, or right after a non-word character such as a leading "-" |
| StringUtil.RemoveCommas | src/utils/string.ts:3 | deleting commas never lengthens a string |
| StringUtil.RemoveCommasLeavesNone | src/utils/string.ts:3 | deleting commas leaves no comma |
| StringUtil.CountCommas | src/utils/string.ts:3 | the comma count is zero iff the string has no comma |
| StringUtil.InsertFromRemove | src/utils/string.ts:3 | the replace only inserts commas: deleting commas from its output equals deleting them from its input |
| StringUtil.ReplaceKeepsOthers | src/utils/string.ts:3 | a character other than "," that is not in the input is not in the output, so no "." is introduced |
| StringUtil.InsertFromNone | src/utils/string.ts:3 | where the pattern matches nowhere, the output equals the input |
| StringUtil.ReplaceShort | src/utils/string.ts:3 | a string of at most three characters is unchanged |
| StringUtil.DigitsCommaAt | src/utils/string.ts:3 | in a digit string, commas go exactly at inner positions with a multiple of three digits to their right |
| StringUtil.Groups | src/utils/string.ts:3 | digits split into (n - 1) / 3 + 1 groups from the right: the first of 1 to 3 digits, the rest of exactly 3 |
| StringUtil.GroupDigitsRemove | src/utils/string.ts:3 | deleting the commas of the grouping gives back the digits |
| StringUtil.GroupDigitsCount | src/utils/string.ts:3 | the grouping of n >= 1 digits has (n - 1) / 3 commas |
| StringUtil.GroupDigitsJoin | src/utils/string.ts:3 | the grouping is the groups joined by commas |
| StringUtil.GroupDigitsParts | src/utils/string.ts:3 | the comma-separated parts of the grouping are the groups, so a multiple of three digits follows each comma |
| StringUtil.ReplaceDigits | src/utils/string.ts:3 | on a digit string the regex replace is the thousands grouping |
| StringUtil.InsertSplitLast | src/utils/string.ts:3 | over more than three digits the output is the output over all but the last three digits, a comma, and those three |
| StringUtil.InsertLastThree | src/utils/string.ts:3 | the last three of more than three digits are preceded by a comma |
| StringUtil.ReplaceSignedDigits | src/utils/string.ts:3 | after a leading "-" the digits are grouped and no comma follows the sign |
| StringUtil.IntegerPartLength | src/utils/string.ts:2 | the integer part is the text before the first ".", which has no "." |
| StringUtil.AddCommasShape | src/utils/string.ts:1-5 | `addCommas` rewrites the integer part and copies everything from the first "." on unchanged |
| StringUtil.AddCommasParts | src/utils/string.ts:2-4 | the result has as many "."-separated parts as the input and only the first differs |
| StringUtil.AddCommasRemove | src/utils/string.ts:1-5 | deleting the commas of the result gives the input with its commas deleted, and the input itself when it has none |
| StringUtil.AddCommasShort | src/utils/string.ts:3 | an integer part of at most three characters leaves the string unchanged |
| StringUtil.AddCommasFixed | src/utils/string.ts:1-5 | on `[-]digits[.digits]` the integer digits are grouped by thousands and the sign and fraction are kept |
| StringUtil.AddCommasSplitAt | src/utils/string.ts:2-4 | for a part without "." followed by nothing or by ".", only the part is rewritten |
| StringUtil.IntegerPartOf | src/utils/string.ts:2 | the integer part of such a string is that part |
| FinancialSimPage.Derive | src/components/financialSim.tsx:86-87 | the derived record takes each field present in the overrides from them and every absent field from the base |
| FinancialSimPage.OverridesUnique | src/components/financialSim.tsx:86-87 | the field-wise description fixes the derived record uniquely |
| FinancialSimPage.DeriveNoModifiers | src/components/financialSim.tsx:151 | a new sample set's empty overrides `{}` run on the base constants |
| FinancialSimPage.DeriveIdempotent | src/components/financialSim.tsx:86-87 | applying the same overrides twice equals applying them once |
| FinancialSimPage.Draws | src/components/financialSim.tsx:89-91 | the draws of the first n calls, one per call in call order |
| FinancialSimPage.Run | src/components/financialSim.tsx:14-17 | the state after driving a new engine until finished with a stream of draws; `RunToFinish` computes it and `RunFinished` bounds it |
| FinancialSimPage.RunFinished | src/components/financialSim.tsx:14-17 | a run driven to completion is finished and has exactly `CallsToFinish` >= 1 rows |
| FinancialSimPage.RunToFinish | src/components/financialSim.tsx:14-17 | the loop `while (!isFinished) simulateMonth()` terminates, leaves the runner finished, and its state, rows included, is that of `CallsToFinish` calls on the stream |
| FinancialSimPage.DrawsNext | src/components/financialSim.tsx:89-91 | one more loop iteration is one more `Step` on the next draw |
| FinancialSimPage.Runs | src/components/financialSim.tsx:85-93 | one run per sample set |
| FinancialSimPage.RunSampleSets | src/components/financialSim.tsx:85-93 | each scenario's rows are those of a completed run on base + its overrides, under the scenario's name, in order |
| FinancialSimPage.RowLabel | src/components/financialSim.tsx:20 | the label `${year}-${month + 1}` of a row; injective by `RowLabelInjective` |
| FinancialSimPage.NatToDecimal | src/components/financialSim.tsx:20 | the decimal text of a whole number is non-empty, all digits, without a leading zero |
| FinancialSimPage.DecimalRoundTrip | src/components/financialSim.tsx:20 | reading the decimal text back gives the number |
| FinancialSimPage.NatToDecimalInjective | src/components/financialSim.tsx:20 | different numbers have different texts |
| FinancialSimPage.RowLabelParts | src/components/financialSim.tsx:99 | for non-negative years and months, the label `year-(month+1)` splits at "-" into the decimal year and month number |
| FinancialSimPage.RowLabelInjective | src/components/financialSim.tsx:20 | for non-negative years and months, rows with the same label are the same calendar month |
| FinancialSimPage.FindLastIndex | src/components/financialSim.tsx:170-172 | `findLast` stops at an element passing the test with none passing after it, or finds none when none passes |
| FinancialSimPage.FindLast | src/components/financialSim.tsx:33-35 | `findLast` finds something iff some element passes, and what it finds passes |
| FinancialSimPage.PayoffLabel | src/components/financialSim.tsx:170-173 | the comparison page's payoff line; characterised by `PayoffLabelNotPaidOff` and `PayoffLabelLastOwing` |
| FinancialSimPage.PayoffLabelNotPaidOff | src/components/financialSim.tsx:170-173 | the payoff line is "Not paid off" iff no row owes at least 1 |
| FinancialSimPage.PayoffLabelLastOwing | src/components/financialSim.tsx:170-173 | otherwise it is the `year-(month+1)` label of the last row owing at least 1 |
| FinancialSimPage.LabelIsNotNotPaidOff | src/components/financialSim.tsx:173 | a month label always differs from "Not paid off" |
| FinancialSimPage.NeverPaidOffShowsLastMonth | src/components/financialSim.tsx:170-173 | as written, a loan still owed in every row is reported as paid off in the final row's month |
| FinancialSimPage.PaidAtOnceShowsNotPaidOff | src/components/financialSim.tsx:170-173 | as written, when no row owes at least 1 (the loan repaid by the first call, or none), the line reads "Not paid off" |
| FinancialSimPage.CallMonth | src/components/simRunner.ts:89-109 | the calendar month in which a row's call ran: one month before the row's own, since the month is advanced before the push |
| FinancialSimPage.PayoffMonthLabel | src/components/financialSim.tsx:170-173 | the corrected payoff line; characterised by `PayoffMonthNotPaidOff`, `PayoffMonthRepaid` and `PayoffMonthFirstCall` |
| FinancialSimPage.PayoffMonthNotPaidOff | src/components/financialSim.tsx:170-173 | the corrected line is "Not paid off" iff there are no rows or the final row still owes at least 1 |
| FinancialSimPage.PayoffMonthRepaid | src/components/financialSim.tsx:170-173 | for a loan repaid during the run the corrected line equals the source's: the label of the last row owing at least 1, which is the month of the repaying call |
| FinancialSimPage.PayoffMonthFirstCall | src/components/financialSim.tsx:170-173 | when no row owes at least 1, the corrected line names the month of the first call |
| FinancialSimPage.RunFirstCallMonth | src/components/financialSim.tsx:14-17 | in a completed run the first call ran in month 0 of the start year, so that line reads `${startYear}-1` |
| FinancialSimPage.ChartRows | src/components/financialSim.tsx:19-26 | one chart row per data row, with its label and values; net worth = equity + savings exactly when shown |
| FinancialSimPage.NetWorth | src/components/financialSim.tsx:178 | net worth, equity plus savings; house value - principal + savings while a loan is owed (`RunNetWorth`) |
| FinancialSimPage.ChartPayoffLabel | src/components/financialSim.tsx:33-36 | the single page's payoff line, searched in the chart points; equal to `PayoffLabel` of the rows by `PayoffLabelsAgree` |
| FinancialSimPage.FindLastIndexAlike | src/components/financialSim.tsx:33-35 | `findLast` over two aligned sequences whose elements pass alike stops at the same index |
| FinancialSimPage.PayoffLabelsAgree | src/components/financialSim.tsx:33-36 | the single page's payoff search over chart points gives the same line as the comparison page's search over rows |
| FinancialSimPage.FinalRow | src/components/financialSim.tsx:28 | `rows.at(-1)` is present iff there are rows, and is then the last row |
| FinancialSimPage.SummaryWith | src/components/financialSim.tsx:166-180 | "No data" without rows, else the payoff line and the final row's net worth, savings and house value through `toFixed(2)` and `addCommas` (`RunHasSummary`) |
| FinancialSimPage.SingleSummary | src/components/financialSim.tsx:28-68 | the single page's summary; equal to a scenario's by `SummariesAgree` |
| FinancialSimPage.ScenarioSummary | src/components/financialSim.tsx:165-180 | one scenario's summary on the comparison page |
| FinancialSimPage.SummariesAgree | src/components/financialSim.tsx:28-68 | both pages print the same payoff line and final figures for the same rows |
| FinancialSimPage.RunHasSummary | src/components/financialSim.tsx:166-180 | a completed run always has a final row, so "No data" is never shown, and the figures are formatted from its last row |
| FinancialSimPage.RunNetWorth | src/components/financialSim.tsx:178 | in a run's row with a loan outstanding, net worth = house value - principal + savings |
| FinancialSimPage.SavingsKeyInjective | src/components/financialSim.tsx:101 | different scenario names give different `<name>-Savings` keys |
| FinancialSimPage.Columns | src/components/financialSim.tsx:100-102 | the savings keys a point receives from the scenarios having row `index`; characterised by `ColumnsKeys` and `ColumnsLastWriter` |
| FinancialSimPage.ColumnsKeys | src/components/financialSim.tsx:100-102 | a point holds a key iff some scenario with that key has a row at that index |
| FinancialSimPage.ColumnsLastWriter | src/components/financialSim.tsx:100-102 | the value under a key is the savings of the last scenario writing it |
| FinancialSimPage.Points | src/components/financialSim.tsx:95-104 | one point per row of the first scenario |
| FinancialSimPage.ComparisonChart | src/components/financialSim.tsx:95-104 | the chart data: empty without scenarios, the `TypeError` when some scenario lacks a row of the first, else one point per row (`ComparisonChartPoints`, `ComparisonChartKeys`) |
| FinancialSimPage.BuildComparisonChart | src/components/financialSim.tsx:95-104 | the index-by-index, scenario-by-scenario construction returns exactly `ComparisonChart`, including the error |
| FinancialSimPage.DataPointAt | src/components/financialSim.tsx:100-102 | the forEach over scenarios succeeds iff every scenario has the row, and then builds the point's savings map |
| FinancialSimPage.ComparisonChartPoints | src/components/financialSim.tsx:95-104 | when the chart exists, it has one point per row of the first scenario, labelled by that row, and point i holds, under `<name>-Savings`, the row-i savings of each scenario whose name no later scenario repeats |
| FinancialSimPage.ComparisonChartKeys | src/components/financialSim.tsx:95-104 | every key of a point belongs to some scenario |
| FinancialSimPage.ShorterScenarioFails | src/components/financialSim.tsx:100-101 | as written, when a later scenario's overrides give it fewer months than the first, building the chart throws |
| FinancialSimPage.TolerantComparisonChart | src/components/financialSim.tsx:95-104 | the corrected chart always exists, with one point per row of the first scenario |
| FinancialSimPage.TolerantChartAgrees | src/components/financialSim.tsx:95-104 | the corrected chart equals the source's wherever that exists, and holds the row-i savings of every scenario that has row i and whose name no later scenario repeats |

## Left out

- Rendering is not modelled: React state and re-rendering, buttons, the
  recharts `LineChart`, and the random stroke colour (financialSim.tsx:156).
- The editing of sample sets is not modelled (financialSim.tsx:117-151). Its
  re-application of modifiers (lines 120-129) builds a record that it then
  discards.
- src/components/constsEditor.tsx is not part of this model. It is the
  parameter editor, a user-interface component.
- `ConstantDeltaEditor` is not modelled. financialSim.tsx:7 imports it from
  `./constsEditor`, but constsEditor.tsx exports only `ConstantsEditor`.
- src/app/page.tsx only mounts the comparison page.
- The distribution of `Math.random()` is not modelled. The engine takes each
  draw as a parameter in [-1, 1), and the driver loop takes a stream of draws.
- Floating point is not modelled: no rounding, NaN or Infinity. Money is exact
  real arithmetic. `toFixed(2)` is a parameter. `AddCommasFixed` states what
  `addCommas` does to strings of the shape `toFixed` produces.
- Fractional years, which the editor's `parseFloat` could produce, are not
  modelled. Years and months are integers.
- An override key present with the value `undefined` is not modelled.
  `Object.assign` would copy it; here a field is either present with a value
  or absent.
- `loanRepaymentYears` is carried in `Constants` but not used by the engine,
  as in the source.
- Unicode is not modelled. Strings are sequences of characters, and `\d` and
  `\w` are their ASCII classes, as in a JavaScript pattern without the `u`
  flag.
- The copy `{...baseConsts}` of financialSim.tsx:86 needs no separate
  statement. Constants are values in the model, so `Derive` builds a new
  record and cannot change its base.

## Findings

| source | as written | input that shows it | evidently intended | confidence | as-written member | corrected member |
|---|---|---|---|---|---|---|
| src/components/financialSim.tsx:170-173 | the payoff line names the last row still owing at least 1 (the month of the repaying call, as rows carry the calendar after their call), and says "Not paid off" only when no row owes | (a) a loan whose payment never exceeds its interest, so every row owes: the final month is reported as the payoff month; (b) no row owes at least 1 (the loan repaid by the first call, or none): "Not paid off" is reported | "Not paid off" when the final row still owes; the month of the first call when no row ever owes; otherwise the source's label, unchanged | medium, not executed | FinancialSimPage.NeverPaidOffShowsLastMonth and FinancialSimPage.PaidAtOnceShowsNotPaidOff | FinancialSimPage.PayoffMonthLabel (proved by FinancialSimPage.PayoffMonthNotPaidOff, FinancialSimPage.PayoffMonthRepaid and FinancialSimPage.PayoffMonthFirstCall) |
| src/components/financialSim.tsx:100-101 | every scenario's `rows[index].savings` is read for every row index of the first scenario | a second sample set whose `endYear` override is earlier than the first's: its run has fewer rows, `rows[index]` is `undefined`, and the read throws | a scenario that has run out of months leaves its key out of the later points | medium, not executed | FinancialSimPage.ShorterScenarioFails | FinancialSimPage.TolerantComparisonChart (proved by FinancialSimPage.TolerantChartAgrees) |
