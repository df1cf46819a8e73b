# LBO model: the accounting pipeline, verified

A Dafny model of the deterministic core of the leveraged-buyout model in
`lbo-model.js`. `calculateModel` runs these stages in order, each reading
what the earlier ones wrote:

1. Sources & Uses. The purchase price is set at the entry multiple. Fees
   are charged on the price and on the debt. Each tranche is sized at a
   multiple of LTM EBITDA. Equity closes the gap and is split between
   management and the sponsor.
2. Debt assumptions. There is one per tranche, with default rates of 5%
   amortization, 6% interest and 50% sweep. Rates entered on the page then
   override the defaults.
3. The income statement. Revenue grows year on year and the margin lines
   are taken as percentages of revenue. Interest is reset to 0 and tax is
   floored at 0.
4. The scheduled debt pass. For each tranche and year it gives the
   balances, the scheduled amortization (clamped so no balance goes below
   0) and the interest. That interest is accrued into the income
   statement.
5. The cash-flow build. It gives the free cash flow before debt service,
   the cash available for the sweep, and the cash to equity.
6. The cash-sweep waterfall. Each year's surplus cash repays the tranches
   in seniority order. Each tranche takes its sweep share of what is left,
   capped by its remaining principal. The totals, the income-statement
   interest and the cash to equity are then rebuilt from the swept
   schedules.
7. The post-sweep re-derivation of EBT, taxes and net income, then the
   credit ratios and the equity returns. The returns cover the cash-flow
   vector, MOIC, the cumulative series, the attribution, and the
   management / sponsor split.

The horizon resize (`updateProjectionYears`) is modelled too.

JavaScript numbers are exact `real`s. Percentages are whole numbers and
are divided by 100 where they are used. A JavaScript division whose
divisor is 0 (Infinity or NaN) is `None` of an `Option`.

Every stage is a pure function over immutable datatypes, one module per
stage:

- `Numbers`
- `SourcesUses`
- `IncomeStatement`
- `ProjectionYears`
- `DebtSchedule`
- `CashFlow`
- `Sweep`
- `CreditRatios`
- `Returns`
- `Pipeline`

Two places where the code does something other than what it evidently
means are modelled both ways, selected by `Sweep.Rule` (`AsWritten` or
`Corrected`). `Pipeline.CalculateModel` takes the rule as a parameter. The
model-level lemmas hold for both rules, except
`Pipeline.CorrectedModelRepaysDebt`, which holds for the corrected sweep
only (see Findings).

A third such place is in what `calculateModel` hands back. The
sensitivity analysis it runs last leaves the model on the default debt
rates. `Pipeline.CalculateModel` is the run on the entered rates, and
`Pipeline.ReturnedModel` is the state the program actually returns.

The IRR root finder is a parameter `irrSolver`. Inputs the program reads
from the page are fields of `Pipeline.Inputs`.

## Model

| member | source | states |
|---|---|---|
| Numbers.Ratio | lbo-model.js:750 | a JS quotient: `None` exactly when the divisor is 0; otherwise the value times the divisor gives back the dividend |
| SourcesUses.SizeTranches | lbo-model.js:198-203 | every tranche's amount is LTM EBITDA times its multiple; names, multiples and order are kept |
| SourcesUses.TotalDebtIsEbitdaTimesMultiples | lbo-model.js:198-204 | the total debt raised is LTM EBITDA times the sum of the tranche multiples |
| SourcesUses.EquityGap | lbo-model.js:216-223 | equity is never negative and equals max(0, uses − debt); debt plus equity is max(uses, debt) |
| SourcesUses.Share | lbo-model.js:236-243 | for a positive whole, the share times the whole is the part times 100; otherwise the share is 0 |
| SourcesUses.SharesOfWhole | lbo-model.js:236-243 | two parts, taken as percentages of their positive sum, add up to 100 |
| SourcesUses.CalculateSourcesUses | lbo-model.js:183-246 | each output field in terms of the inputs: price at the entry multiple, fees as percentages of the price and of the debt, total uses, the equity gap, the management share and the sponsor remainder, total sources, and the debt and equity shares |
| SourcesUses.SourcesEqualUses | lbo-model.js:183-246 | money in equals money out. Debt is EBITDA times the summed multiples. Equity = max(0, uses − debt). Management plus sponsor equity is the equity. Total sources = max(uses, debt), so they equal total uses whenever uses ≥ debt |
| SourcesUses.SharesOfSources | lbo-model.js:236-243 | with positive total sources, the debt and equity percentages add up to 100 and the debt percentage is debt over sources; otherwise both are 0 |
| SourcesUses.DefaultSourcesUses | lbo-model.js:183-246 | with the built-in terms and tranches (lines 4-17): EV 1000, fees 20, debt 300, debt fees 9, uses 1029, equity 729, management 72.9, sponsor 656.1, sources 1029 |
| IncomeStatement.CalculateHistorical | lbo-model.js:339-347 | the historical year: COGS, SG&A and D&A are their percentages of revenue; EBITDA = revenue − COGS − SG&A; EBIT = EBITDA − D&A; EBT = EBIT − interest; taxes = max(0, EBT × tax rate), so they are ≥ 0; net income = EBT − taxes ≤ EBT; revenue, drivers and interest kept |
| IncomeStatement.ProjectFrom | lbo-model.js:350-382 | the growth chain: the first year grows from the prior revenue and each later year from the year before. Every year keeps its drivers, derives its margin lines from its revenue, has interest 0 and tax ≥ 0 |
| IncomeStatement.CalculateIncomeStatement | lbo-model.js:337-385 | year 1 grows from the historical revenue and year n from year n−1; every year has EBITDA = rev − COGS − SG&A, EBIT = EBITDA − D&A, interest 0, tax = max(0, EBT × t) ≥ 0 and net income ≤ EBT |
| IncomeStatement.RevenueIsCompoundGrowth | lbo-model.js:350-355 | closed form of the chain: the revenue of year k is the historical revenue times the compound growth of years 1..k |
| IncomeStatement.ZeroInterest | lbo-model.js:1064-1066 | every projection year keeps everything but its interest, which becomes 0 |
| IncomeStatement.RecomputeTail | lbo-model.js:1074-1078 | only EBT, taxes and net income change, and they satisfy the tax identities against the year's EBIT and interest |
| IncomeStatement.RecomputeTails | lbo-model.js:1074-1078 | the re-derivation applied to every projection year, in order |
| IncomeStatement.RecomputeTailAgreesWithFirstPass | lbo-model.js:1074-1078 | the re-derivation is idempotent, and leaves the income statement's own output unchanged while interest is still 0 |
| ProjectionYears.ClampYears | lbo-model.js:85 | the horizon lies in 5..10; an in-range request is kept and an out-of-range one goes to the nearer bound |
| ProjectionYears.Fit | lbo-model.js:89-98 | cut to length n; the existing prefix is kept and the new positions hold the pad value |
| ProjectionYears.FitProjections | lbo-model.js:101-128 | cut to n years, or padded with default years numbered position + 1; the existing prefix is kept |
| ProjectionYears.UpdateProjectionYears | lbo-model.js:83-132 | the returned horizon is the clamped one. All three arrays have exactly that length and keep their prefixes. New entries are NWC 0, capex 3, and default years (5/60/20/3/25, derived fields 0) |
| ProjectionYears.UpdateProjectionYearsIdempotent | lbo-model.js:83-132 | setting the same horizon twice is the same as setting it once |
| ProjectionYears.GrowThenShrinkRestores | lbo-model.js:83-132 | lengthening the horizon and shortening it back restores the inputs exactly |
| DebtSchedule.PopulateDebtAssumptions | lbo-model.js:136-148 | one assumption per tranche, in order, with the tranche's name and amount and rates 5 / 6 / 50 |
| DebtSchedule.ApplyRateOverrides | lbo-model.js:322-334 | a tranche with entered rates takes all three of them; any other tranche is unchanged; names and amounts never change |
| DebtSchedule.ScheduledEntry | lbo-model.js:435-454 | interest and amortization are taken on the opening balance. The ledger identities hold and nothing is swept. If amortization would overdraw the balance, the balance is paid off exactly and closes at 0. Scheduled amortization is ≥ 0 for a non-negative balance and rate |
| DebtSchedule.ScheduledTail | lbo-model.js:434-456 | years y..n chained: each opens at the previous close and is a scheduled year; from a non-negative balance the balance never grows and never goes below 0 |
| DebtSchedule.ScheduleFor | lbo-model.js:422-456 | one tranche's years 0..n: year 0 is the draw, and every later year is a chained scheduled year |
| DebtSchedule.TrancheSchedules | lbo-model.js:419-475 | one schedule per assumption, in order, with its name |
| DebtSchedule.PhaseTotals | lbo-model.js:461-479 | the totals: year 0 is the total debt with no amortization or interest; every later year is the field-wise sum over the tranches |
| DebtSchedule.AccrueInterest | lbo-model.js:458-459 | each projection year's interest gains that year's total interest on top of what it held; nothing else changes |
| DebtSchedule.CalculateDebtSchedule | lbo-model.js:397-482 | one schedule per tranche over years 0..n. Year 0 totals open and close at the total debt with no amortization or interest; later totals sum the tranches. The income statement's interest is accrued by the summed tranche interest |
| DebtSchedule.ScheduledPassTranches | lbo-model.js:422-456 | per tranche: year 0 is the draw, the years are chained, and every projection year is a scheduled year (ledger kept, interest on the opening balance). With a non-negative draw and rate, amortization is ≥ 0 and the balance never grows |
| DebtSchedule.RepaidTelescopes | lbo-model.js:434-456 | in a chained schedule that keeps its ledger, the principal repaid over years 1..k is the fall in the balance since year 0 |
| DebtSchedule.ScheduledRepaymentTelescopes | lbo-model.js:434-456 | the scheduled pass repays over years 1..y exactly the draw less the balance left at year y |
| DebtSchedule.OpeningColumnIsTotalDebt | lbo-model.js:478-479 | year 0 summed over the tranches is the sum of the tranche amounts, which justifies setting it from the total debt |
| CashFlow.FlowFor | lbo-model.js:524-564 | NWC = revenue change × nwc%; capex = revenue × capex%; free cash flow before debt = NI + D&A − NWC − capex; available for the sweep = that less interest and scheduled amortization; NI + D&A is accounted for exactly once as NWC, capex, interest, scheduled and additional amortization, or cash to equity; available = additional + cash to equity |
| CashFlow.CalculateCashFlows | lbo-model.js:519-568 | one record per year, taking the prior revenue (historical for year 1) and the drivers, a missing or 0 driver falling back to its default (NWC 0, capex 3); each record satisfies the accounting identity |
| CashFlow.NwcTelescopes | lbo-model.js:529-536 | with one NWC % for every year, the NWC outflows of years 1..k add up to that % of the revenue growth from the historical year to year k |
| Sweep.Allocation | lbo-model.js:596-605 | the extra repayment is at most the sweep share of the remaining cash and at most the principal left after scheduled amortization, and equals one of the two |
| Sweep.AllocationBounds | lbo-model.js:596-605 | with cash on hand, a sweep % in [0, 100] and scheduled amortization within the balance, the allocation lies between 0 and the cash on hand, under its cap |
| Sweep.Swept | lbo-model.js:607-612 | only additional, total and ending change: total = scheduled + additional and ending = beginning − total, and within the cap the ledger holds with ending ≥ 0 |
| Sweep.Reopened | lbo-model.js:614-622 | the next year gets the new opening balance, with scheduled amortization and interest recomputed from it; every other field, the close included, is left as it was |
| Sweep.SweepTranche | lbo-model.js:607-622 | a swept tranche: years before y untouched and year y swept |
| Sweep.SweepTrancheAsWritten | lbo-model.js:614-622 | as written, only year y + 1 is reopened at the new close, and every later year is left as it was |
| Sweep.AsWrittenBreaksNextLedger | lbo-model.js:614-622 | as written, a non-zero extra repayment in a balanced year that had none opens the next year lower by exactly that amount, but keeps that year's total and close, so its ledger no longer holds |
| Sweep.SweepTrancheCorrected | lbo-model.js:614-622 | corrected, every later year is the scheduled pass from the new close, chained to it |
| Sweep.CorrectedSweepKeepsBalance | lbo-model.js:607-622 | under the corrected rule a sweep within the cap leaves a balanced schedule balanced |
| Sweep.Allocate | lbo-model.js:590-638 | one year's waterfall changes nothing before year y and keeps the names and lengths of the tranches |
| Sweep.AllocateStopsWhenCashRunsOut | lbo-model.js:633-637 | the waterfall visits tranches in list order, at least the first; if it stops early the cash left is ≤ 0, and every tranche after the last one visited is unchanged |
| Sweep.AllocateSweepsCash | lbo-model.js:590-638 | with rates in range and nothing swept yet, the cash left stays between 0 and the cash on hand, and the year's extra repayments summed over tranches are exactly the cash handed out |
| Sweep.AllocateKeepsSound | lbo-model.js:590-638 | one year's waterfall leaves no balance below 0 and every later year unswept |
| Sweep.CorrectedAllocateKeepsBalance | lbo-model.js:590-638 | under the corrected rule one year's waterfall keeps every schedule balanced |
| Sweep.SweepYear | lbo-model.js:580-585 | a year without positive cash is skipped untouched; no year before it ever changes |
| Sweep.SweepYearWithinCash | lbo-model.js:580-638 | one swept year: no extra repayment when there is no positive cash; otherwise the summed extra repayments lie between 0 and the cash; soundness carries on to the next year |
| Sweep.SweepFrom | lbo-model.js:580-643 | the fold over years keeps the tranche names, lengths and year 0 |
| Sweep.SweptTrancheEndings | lbo-model.js:607-622 | at any rates, sweeping one tranche-year by no more than its cap closes no year below 0 if none closed below 0 before |
| Sweep.AllocateKeepsEndings | lbo-model.js:590-638 | at any rates and with any cash, one year's waterfall closes no balance below 0 if none closed below 0 before |
| Sweep.SweepKeepsEndingsNonnegative | lbo-model.js:580-643 | under either rule and at any rates, if no balance closed below 0 before the sweep, none does after it: each allocation is capped at the principal left after the scheduled amount, and the scheduled pass clamps |
| Sweep.SweepStaysWithinCash | lbo-model.js:580-643 | under either rule, in every year the summed extra repayments are 0 without positive cash, and otherwise between 0 and the cash available |
| Sweep.CorrectedSweepKeepsAllBalanced | lbo-model.js:580-643 | under the corrected rule the whole sweep keeps every tranche's schedule chained and in ledger |
| Sweep.ColumnsBalanced | lbo-model.js:658-666 | summed over balanced tranches, each year keeps the ledger identities and opens at the previous close |
| Sweep.RebuildTotals | lbo-model.js:645-668 | every year 0..n, year 0 included, is the field-wise sum over the tranches |
| Sweep.RebuiltTotalsBalanced | lbo-model.js:645-668 | totals rebuilt from balanced tranches are balanced, and the total principal repaid is the fall in the summed balance |
| Sweep.OverwriteInterest | lbo-model.js:670-672 | each projection year's interest is replaced by (not added to) that year's total; nothing else changes |
| Sweep.SettleFlows | lbo-model.js:676-680 | each record's additional amortization is the year's total and its cash to equity is what the sweep did not take of the cash available; nothing else changes |
| Sweep.CalculateCashFlowSweep | lbo-model.js:571-683 | the tranches are the year fold; the totals, the interest and the cash flows are rebuilt from them; year 0 of every tranche is untouched |
| Sweep.CashFlowSweepWithinCash | lbo-model.js:571-683 | the cash available stays as it was; a year without positive cash repays nothing extra, and any other year repays between none and all of its cash |
| Sweep.ExampleFirstYearSweep | lbo-model.js:596-612 | one tranche of 300 at 5% / 6% / 50% with 20 of cash: scheduled 15, additional 10, total 25, ending 275 |
| Sweep.ExampleSweepIsYearOne | lbo-model.js:580-638 | the two-year example sweeps year 1 alike under both rules and skips year 2, which has no cash |
| Sweep.AsWrittenLeavesStaleClose | lbo-model.js:614-622 | as written, year 2 of the example opens at 275 but keeps the close 270.75, so it breaks the ledger (Findings) |
| Sweep.CorrectedReopensWholeTail | lbo-model.js:614-622 | corrected, year 2 of the example is 13.75 scheduled, 16.5 interest, closing at 261.25, in ledger |
| CreditRatios.RatiosFor | lbo-model.js:495-504 | each ratio is `None` exactly when its denominator is 0; otherwise ratio × denominator = numerator (opening debt / EBITDA, EBIT / interest, EBITDA / debt service) |
| CreditRatios.CalculateCreditRatios | lbo-model.js:486-510 | one record per projection year y, from projection y − 1 and the totals of year y |
| Returns.EquityCashFlows | lbo-model.js:716-742 | element 0 is −equity; years before the exit follow in order; the last element is exit equity plus the exit year's cash. As written the length is N + 1 and the years after the exit sit before the exit proceeds; corrected the length is exitYear + 1 |
| Returns.AsWrittenReturnsEveryYear | lbo-model.js:720-750 | as written, the cash returned is every year's distribution plus the exit equity, whatever the exit year |
| Returns.CorrectedReturnsHoldingPeriod | lbo-model.js:720-750 | corrected, the cash returned is the distributions of years 1..exitYear plus the exit equity |
| Returns.VectorsAgreeAtHorizonExit | lbo-model.js:720-742 | with the exit in the last year the two vectors coincide |
| Returns.EarlyExitCountsLaterYears | lbo-model.js:720-750 | five years of 1, 10 invested, exit equity 10, exit after year 3: as written [−10,1,1,1,1,11] with MOIC 1.5; corrected [−10,1,1,11] with MOIC 1.3 (Findings) |
| Returns.CumulativeCashFlows | lbo-model.js:755-765 | element 0 is 0 and element i is the sum of elements 1..i |
| Returns.CumulativeEndsAtReturned | lbo-model.js:755-765 | the last cumulative figure is the whole cash returned |
| Returns.Attribute | lbo-model.js:767-774 | both shares exist exactly when MOIC is finite and the total return is not 0, and then they add up to 100 with the exit share = exit equity over total return |
| Returns.SplitReturns | lbo-model.js:776-788 | management takes its percentage of initial and exit equity and the sponsor the rest, which adds up exactly; both share the MOIC and the IRR |
| Returns.Irr | lbo-model.js:796-798 | 0 for fewer than two flows or for two flows with nothing invested; otherwise the root finder's answer |
| Returns.IrrReachesSolver | lbo-model.js:796-798 | a returns vector reaches the root finder unless it is a one-year corrected vector with nothing invested; an as-written vector of a horizon ≥ 2 always does |
| Returns.CalculateReturns | lbo-model.js:711-791 | exit equity is exit-year EBITDA × exit multiple less that year's closing debt; MOIC is the cash returned over the investment; the IRR, cumulative series, attribution and split are taken from that vector |
| Returns.ReturnsAddUp | lbo-model.js:711-791 | MOIC is finite exactly when equity was invested, and then MOIC × equity = cash returned. The cumulative series ends at that cash. The attribution exists exactly when equity and cash returned are non-zero, and then its shares add up to 100. The holder classes share the investment and the exit equity exactly |
| Pipeline.DebtAssumptionsFor | lbo-model.js:1059-1061 | one assumption per sized tranche carrying its amount |
| Pipeline.SchedulePass | lbo-model.js:1063-1069 | after the reset, the projection and the scheduled pass, every tranche opens at its amount and is balanced, and each projection year's interest is that year's total interest (counted once) |
| Pipeline.SweepPass | lbo-model.js:1071 | the sweep keeps year 0 of every tranche, and under the corrected rule keeps every schedule balanced; totals, interest and cash to equity are rebuilt from the swept tranches |
| Pipeline.FlowPass | lbo-model.js:1070 | one cash-flow record per projection year, built on the first pass's projections and totals |
| Pipeline.RunStages | lbo-model.js:1059-1071 | the stages run in program order, each on the results of the one before |
| Pipeline.Assemble | lbo-model.js:1073-1082 | EBT, taxes and net income re-derived on the swept projections; the ratios and returns from the swept figures; the returns open with the equity contribution paid in |
| Pipeline.CalculateModel | lbo-model.js:1051-1082 | one projection, cash flow and ratio per year, one total per year 0..n, one schedule per tranche |
| Pipeline.ModelLedgersAgree | lbo-model.js:1051-1082 | after the whole run the totals are the sums over the swept tranches. Each year's interest is that year's total (overwritten, not accrued twice), with EBT, taxes and net income re-derived from it. Cash to equity is the cash available less the year's extra repayment |
| Pipeline.ModelOpensAtTotalDebt | lbo-model.js:1059-1071 | year 0 of the final totals is the total debt raised in Sources & Uses |
| Pipeline.CorrectedModelRepaysDebt | lbo-model.js:1059-1071 | with the corrected sweep the final totals are a balanced ledger, so the principal repaid over the horizon is the total debt less the debt left at the end |
| Pipeline.AssembledReturns | lbo-model.js:1073-1082 | management holds its percentage of the equity and the sponsor the rest; exit equity is read off the final projections and totals; MOIC is finite exactly when equity was invested |
| Pipeline.ModelReturnsAgree | lbo-model.js:1051-1082 | the equity flows open with the equity contribution paid in; the holders' stakes are the ones Sources & Uses shows; the exit equity and MOIC follow from the final figures |
| Pipeline.DebtAssumptionsInRange | lbo-model.js:1060-1061 | with non-negative draws and entered rates in [0, 100], every assumption has a non-negative amount and its rates in range |
| Pipeline.SchedulePassUnswept | lbo-model.js:1063-1069 | with non-negative draws and amortization rates, the first pass leaves nothing swept and no balance below 0 |
| Pipeline.SweepPassWithinCash | lbo-model.js:1071 | on an unswept first pass, the sweep keeps each year's cash available, takes nothing without positive cash, and otherwise takes between none and all of it |
| Pipeline.ModelSweepWithinCash | lbo-model.js:1051-1082 | with non-negative EBITDA and multiples and entered rates in range, under either rule, in every year: without positive cash nothing extra is repaid and equity gets all of it (a shortfall included); otherwise the extra repayment and the cash to equity each lie between 0 and the cash available |
| Pipeline.ModelKeepsEnteredRates | lbo-model.js:1057-1081 | the run starts from Sources & Uses on the inputs; each tranche takes all three rates entered for it, and one with none entered keeps 5 / 6 / 50; the credit ratios are those of the run's own final projections and totals |
| Pipeline.RerunOnDefaults | lbo-model.js:1033-1045 | a run with no entered rates starts from the same Sources & Uses and schedules the debt on exactly the freshly populated default assumptions |
| Pipeline.ReturnedModel | lbo-model.js:1083-1094 | what `calculateModel` hands back once `calculateSensitivity` has run: Sources & Uses on the inputs, debt assumptions at the defaults whatever was entered, and the credit ratios of the earlier run on the entered rates |
| Pipeline.ReturnedModelDropsEnteredRate | lbo-model.js:966 | an entered interest rate other than 6% is used for the credit ratios but is 6% in the debt assumptions handed back, so the two runs differ |
| Pipeline.ReturnedModelIgnoresEnteredRates | lbo-model.js:1033-1045 | whatever rates were entered, the model handed back is the same apart from its credit ratios |

## Left out

- The page readers (`initialize`, `getProjectionYears`, `loadFromUI`, `loadIncomeStatementFromUI`, `loadDebtAssumptionsFromUI`, `loadCashFlowFromUI`, `loadReturnsFromUI`): they read the DOM. What they produce is a field of `Pipeline.Inputs`. The entered rates arrive as `Option<RateOverride>` values, after the `parseFloat(…) || default` fallback has been applied.
- `app.js`: tab navigation, event handlers, rendering and number formatting, with no model logic.
- `calculateIRR` beyond its guard (lbo-model.js:794-887): a floating-point Newton solver. It is the parameter `irrSolver`; only the degenerate cases at lines 796-798 are modelled.
- `calculateSensitivity` (lbo-model.js:930-1048): the MOIC and IRR tables it fills for a grid of multiples and growth rates are not modelled. What it leaves behind in the model handed back is modelled by `Pipeline.ReturnedModel`.
- `console.log` calls, and the rounding of IEEE doubles: numbers are exact reals.
- JavaScript's Infinity and NaN are not told apart; both are `None`.
- The guard at lbo-model.js:573-575 is not modelled. In `calculateModel` the cash flows have always just been built, so it never fires.
- The running totals the sweep keeps while it allocates (lbo-model.js:588, 624-631) and the cash-flow update at lines 640-642 are not modelled. The rebuild at lines 645-680 overwrites both before anything reads them.
- Pipeline.CalculateModel: the exit year must be one of the projection years (`1 <= exitYear <= N`). The program reads that year's EBITDA and debt and fails for any other value, and the page reader does not bound it below.
- Pipeline.CalculateModel: it is the state at line 1082, before `calculateSensitivity` runs, which is the behaviour the third finding calls intended. The state handed back at lines 1083-1094 is `Pipeline.ReturnedModel`.
- Pipeline.CalculateModel: its own ensures state only the shape of the result. What the run promises is stated by the `Pipeline.Model…` lemmas.
- Pipeline.FlowPass: its ensures state only the length. The content of each record is stated by `CashFlow.CalculateCashFlows`.
- Sweep.SweepFrom: its ensures state only the shape and that earlier years are untouched. The amounts are stated by `Sweep.SweepStaysWithinCash`, `Sweep.SweepKeepsEndingsNonnegative` and `Sweep.CorrectedSweepKeepsAllBalanced`.
- Sweep.SweepStaysWithinCash and Pipeline.ModelSweepWithinCash: these assume sweep and amortization rates in [0, 100] and non-negative draws. The program accepts any rate, and with a sweep share over 100% a tranche can take more than the cash there is.
- Returns.Irr: away from the degenerate cases it states only that the root finder's answer is used, because the solver is not modelled.

## Findings

| source | as written | input that shows it | evidently intended | confidence | as-written member | corrected member |
|---|---|---|---|---|---|---|
| lbo-model.js:614-622 | After sweeping year y, only year y + 1's opening balance, scheduled amortization and interest are re-derived. Its total amortization and closing balance stay as the scheduled pass left them, and years after y + 1 are never re-derived. Unless year y + 1 is itself swept, it closes at a balance that ignores the sweep | One tranche of 300 at 5% amortization, 6% interest, 50% sweep; two years; cash for the sweep 20 in year 1 and 0 in year 2. Year 2 becomes opening 275, scheduled 13.75, total 14.25, closing 270.75, interest 16.5, and 275 − 14.25 ≠ 270.75 | The new balance flows through every later year: year 2 opens at 275, amortizes 13.75 and closes at 261.25, and every year closes at its opening less its repayments | not executed; high | Sweep.AsWrittenLeavesStaleClose | Sweep.CorrectedSweepKeepsAllBalanced |
| lbo-model.js:720-742 | The vector takes the cash to equity of every projection year except the exit year, including years after the exit, and puts the exit proceeds last. An exit before the final year therefore counts distributions received after the exit, and dates them before it | Five years of 1 to equity, 10 invested, exit equity 10, exit after year 3. As written the vector is [−10, 1, 1, 1, 1, 11] with MOIC 1.5 | The vector stops at the exit year: [−10, 1, 1, 11], MOIC 1.3 | not executed; high | Returns.EarlyExitCountsLaterYears | Returns.CorrectedReturnsHoldingPeriod |
| lbo-model.js:1033-1045 | `calculateModel` calls `calculateSensitivity` (line 1083) after the credit ratios and the returns. Every cell of its grid re-populates the debt assumptions at 5% / 6% / 50% (line 966). Its closing re-run rebuilds the schedule, the cash flows, the sweep and the returns on those defaults and never reads the entered rates again. The model handed back pairs debt assumptions, schedule, cash flows and returns at the default rates with credit ratios from the run on the entered rates | One tranche with an entered interest rate of 10%. The credit ratios handed back are computed on 10% interest, but the debt assumptions, the debt schedule and the returns handed back use 6% | The model handed back is the run on the entered rates: every tranche keeps its entered rates, and the credit ratios belong to the projections and totals handed back with them | not executed; high | Pipeline.ReturnedModelDropsEnteredRate | Pipeline.ModelKeepsEnteredRates |

More on the findings:

- The sweep finding reaches the whole model. The debt closing the exit year, and with it the exit equity, comes from the rebuilt totals.
  - `Pipeline.CorrectedModelRepaysDebt` proves the intended ledger for the corrected rule: the principal repaid over the horizon is the total debt less the debt left at the end.
  - `Sweep.AsWrittenBreaksNextLedger` shows that, as written, a non-zero sweep of a balanced year breaks the ledger of the year after, until that year is itself swept.
  - `Sweep.CorrectedReopensWholeTail` gives the corrected figures for the example.
- The intended returns vector ends at the exit year. The page lays out `returns.cashFlows[1..exitYear]` as years 1 to exitYear of the holding period (app.js:807-821), and the code calls the last element the full value received in the exit year (lbo-model.js:737-738). The loop at lines 720-726 does not stop there, and `Sweep.Rule.AsWritten` follows it.
  - `Returns.AsWrittenReturnsEveryYear` states the as-written sum for every input.
  - `Returns.VectorsAgreeAtHorizonExit` shows the two agree for the built-in exit year 5 of a five-year horizon.
