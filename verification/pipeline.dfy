/** `calculateModel` (lbo-model.js:1051-1082): the stages run in order on
    inputs already read from the page, each stage's results feeding the
    next. */
module Pipeline {
  import opened Numbers
  import opened SourcesUses
  import opened IncomeStatement
  import opened DebtSchedule
  import opened CashFlow
  import opened Sweep
  import opened CreditRatios
  import opened Returns

  /** Everything the page supplies: transaction terms and tranches, the
      historical year and the projection drivers, the NWC and capex
      percentages, rates entered per tranche, and the exit. */
  datatype Inputs = Inputs(
    transaction: Transaction,
    tranches: seq<Tranche>,
    historical: Historical,
    projections: seq<ProjectionYear>,
    nwcPercentages: seq<real>,
    capexPercentages: seq<real>,
    rateOverrides: seq<Option<RateOverride>>,
    exitYear: int,
    exitMultiple: real)

  datatype Model = Model(
    sourcesUses: SourcesUses,
    debtAssumptions: seq<DebtAssumption>,
    incomeStatement: IncomeStatement,
    debtSchedule: DebtSchedule,
    creditRatios: seq<CreditRatio>,
    cashFlows: seq<CashFlowYear>,
    equityReturns: Returns)

  /** The debt assumptions the schedule runs on: one per sized tranche at
      the default rates, then the rates entered on the page. */
  function DebtAssumptionsFor(su: SourcesUses, ovs: seq<Option<RateOverride>>): (r: seq<DebtAssumption>)
    ensures |r| == |su.debtTranches|
    ensures forall i :: 0 <= i < |r| ==> r[i].amount == su.debtTranches[i].amount
    ensures DebtAmounts(r) == Amounts(su.debtTranches)
  {
    ApplyRateOverrides(PopulateDebtAssumptions(su.debtTranches), ovs)
  }

  /** The first pass (lbo-model.js:1063-1069): interest reset, the income
      statement, then the scheduled debt pass accruing interest onto it.
      Every tranche opens at its amount and keeps its ledger. */
  function SchedulePass(inp: Inputs, totalDebt: real, das: seq<DebtAssumption>): (r: ScheduleResult)
    ensures |r.projections| == |inp.projections|
    ensures |r.schedule.tranches| == |das| && Shaped(r.schedule.tranches, |inp.projections|)
    ensures |r.schedule.totalsByYear| == |inp.projections| + 1
    ensures forall i :: 0 <= i < |das| ==> r.schedule.tranches[i].schedule[0] == Opening(das[i].amount)
    ensures AllBalanced(r.schedule.tranches)
    ensures forall i :: 0 <= i < |inp.projections| ==>
      r.projections[i].interestExpense == r.schedule.totalsByYear[i + 1].interestExpense
  {
    var stmt := CalculateIncomeStatement(IncomeStatement(inp.historical, ZeroInterest(inp.projections)));
    var sched := CalculateDebtSchedule(das, totalDebt, stmt.projections);
    ScheduledPassTranches(das, totalDebt, stmt.projections);
    sched
  }

  /** The sweep on the cash flows of the first pass (lbo-model.js:1071),
      keeping every tranche's year 0 and, under the corrected rule, every
      ledger. */
  function SweepPass(rule: Rule, sched: ScheduleResult, das: seq<DebtAssumption>,
                     flows: seq<CashFlowYear>): (r: SweepResult)
    requires |sched.schedule.tranches| == |das| && Shaped(sched.schedule.tranches, |flows|)
    requires |sched.projections| == |flows|
    ensures |r.tranches| == |das| && Shaped(r.tranches, |flows|)
    ensures forall i :: 0 <= i < |das| ==> r.tranches[i].schedule[0] == sched.schedule.tranches[i].schedule[0]
    ensures rule.Corrected? && AllBalanced(sched.schedule.tranches) ==> AllBalanced(r.tranches)
    ensures |r.totalsByYear| == |flows| + 1
    ensures forall y :: 0 <= y <= |flows| ==> r.totalsByYear[y] == ColumnSum(r.tranches, y)
    ensures |r.projections| == |flows|
    ensures forall i :: 0 <= i < |flows| ==>
      r.projections[i] == sched.projections[i].(interestExpense := r.totalsByYear[i + 1].interestExpense)
    ensures |r.flows| == |flows|
    ensures forall i :: 0 <= i < |flows| ==>
      r.flows[i].additionalAmortization == r.totalsByYear[i + 1].additionalAmortization &&
      r.flows[i].fcfToEquity == r.flows[i].availableForSweep - r.flows[i].additionalAmortization
  {
    var sw := CalculateCashFlowSweep(rule, sched.schedule.tranches, das, flows, sched.projections);
    assert rule.Corrected? && AllBalanced(sched.schedule.tranches) ==> AllBalanced(sw.tranches) by {
      if rule.Corrected? && AllBalanced(sched.schedule.tranches) {
        CorrectedSweepKeepsAllBalanced(sched.schedule.tranches, das, Availables(flows), 1);
      }
    }
    sw
  }

  /** The cash-flow build on the first pass (lbo-model.js:1070). */
  function FlowPass(inp: Inputs, sched: ScheduleResult): (r: seq<CashFlowYear>)
    requires |sched.projections| == |inp.projections|
    requires |sched.schedule.totalsByYear| == |inp.projections| + 1
    ensures |r| == |inp.projections|
  {
    CalculateCashFlows(IncomeStatement(inp.historical, sched.projections), inp.nwcPercentages,
                       inp.capexPercentages, sched.schedule.totalsByYear)
  }

  /** What the stages before the credit ratios and the returns leave. */
  datatype Stages = Stages(
    sourcesUses: SourcesUses,
    debtAssumptions: seq<DebtAssumption>,
    scheduled: ScheduleResult,
    flows: seq<CashFlowYear>,
    swept: SweepResult)

  /** Sources & Uses, the debt assumptions, the first pass, the cash flows
      and the sweep (lbo-model.js:1059-1071), each stage reading what the
      ones before it wrote. */
  function RunStages(inp: Inputs, rule: Rule): (r: Stages)
    ensures r.sourcesUses == CalculateSourcesUses(inp.transaction, inp.tranches)
    ensures r.debtAssumptions == DebtAssumptionsFor(r.sourcesUses, inp.rateOverrides)
    ensures |r.debtAssumptions| == |inp.tranches|
    ensures r.scheduled == SchedulePass(inp, r.sourcesUses.totalDebt, r.debtAssumptions)
    ensures r.flows == FlowPass(inp, r.scheduled)
    ensures |r.flows| == |inp.projections|
    ensures r.swept == SweepPass(rule, r.scheduled, r.debtAssumptions, r.flows)
  {
    hide *;
    var su := CalculateSourcesUses(inp.transaction, inp.tranches);
    var das := DebtAssumptionsFor(su, inp.rateOverrides);
    var sched := SchedulePass(inp, su.totalDebt, das);
    var flows := FlowPass(inp, sched);
    Stages(su, das, sched, flows, SweepPass(rule, sched, das, flows))
  }

  /** The stages after the sweep (lbo-model.js:1073-1081): EBT, taxes and
      net income re-derived from the final interest, then the credit
      ratios and the returns on the swept figures. */
  function Assemble(inp: Inputs, rule: Rule, irrSolver: seq<real> -> real, st: Stages): (r: Model)
    requires 1 <= inp.exitYear <= |st.swept.projections|
    requires |st.swept.flows| == |st.swept.projections| && |st.swept.totalsByYear| == |st.swept.projections| + 1
    ensures r.sourcesUses == st.sourcesUses && r.debtAssumptions == st.debtAssumptions
    ensures r.debtSchedule == DebtSchedule(st.swept.tranches, st.swept.totalsByYear)
    ensures r.cashFlows == st.swept.flows
    ensures |r.incomeStatement.projections| == |st.swept.projections|
    ensures forall i :: 0 <= i < |st.swept.projections| ==>
      r.incomeStatement.projections[i] == RecomputeTail(st.swept.projections[i])
    ensures |r.creditRatios| == |st.swept.projections|
    ensures r.equityReturns.initialEquity == st.sourcesUses.equityContribution
    ensures |r.equityReturns.cashFlows| > 0 && r.equityReturns.cashFlows[0] == -st.sourcesUses.equityContribution
  {
    var ps := RecomputeTails(st.swept.projections);
    Model(st.sourcesUses, st.debtAssumptions, IncomeStatement(CalculateHistorical(inp.historical), ps),
          DebtSchedule(st.swept.tranches, st.swept.totalsByYear),
          CalculateCreditRatios(ps, st.swept.totalsByYear), st.swept.flows,
          CalculateReturns(rule, st.sourcesUses.equityContribution, inp.transaction.managementEquityPct,
                           st.swept.flows, ps, st.swept.totalsByYear, inp.exitYear, inp.exitMultiple, irrSolver))
  }

  /** `calculateModel`: every stage in order on the inputs, the IRR root
      finder a parameter. The exit year must be one of the projection
      years: the program reads that year's EBITDA and debt and fails
      otherwise. One result per projection year, one total per year
      0..n and one schedule per tranche. */
  function CalculateModel(inp: Inputs, rule: Rule, irrSolver: seq<real> -> real): (r: Model)
    requires 1 <= inp.exitYear <= |inp.projections|
    ensures var n := |inp.projections|;
      && |r.incomeStatement.projections| == n
      && |r.debtSchedule.tranches| == |inp.tranches| && Shaped(r.debtSchedule.tranches, n)
      && |r.debtSchedule.totalsByYear| == n + 1
      && |r.cashFlows| == n
      && |r.creditRatios| == n
  {
    hide *;
    Assemble(inp, rule, irrSolver, RunStages(inp, rule))
  }

  /** One unfolding of `CalculateModel`, for proofs that hide its body. */
  lemma CalculateModelUnfolds(inp: Inputs, rule: Rule, irrSolver: seq<real> -> real)
    requires 1 <= inp.exitYear <= |inp.projections|
    ensures CalculateModel(inp, rule, irrSolver) == Assemble(inp, rule, irrSolver, RunStages(inp, rule))
  {
    hide Assemble, RunStages, SweepPass, SchedulePass, FlowPass, DebtAssumptionsFor, CalculateSourcesUses;
  }

  /** Tranche `i` runs on the rates entered for it, all three of them, and
      a tranche with none entered on the defaults 5% / 6% / 50%. */
  predicate KeepsEnteredRates(das: seq<DebtAssumption>, ovs: seq<Option<RateOverride>>) {
    && (forall i :: 0 <= i < |das| && i < |ovs| && ovs[i].Some? ==>
          das[i].amortizationPct == ovs[i].value.amortizationPct &&
          das[i].interestRate == ovs[i].value.interestRate &&
          das[i].cashFlowSweepPct == ovs[i].value.cashFlowSweepPct)
    && (forall i :: 0 <= i < |das| && !(i < |ovs| && ovs[i].Some?) ==>
          das[i].amortizationPct == 5.0 && das[i].interestRate == 6.0 && das[i].cashFlowSweepPct == 50.0)
  }

  lemma AssumptionsKeepEnteredRates(su: SourcesUses, ovs: seq<Option<RateOverride>>)
    ensures KeepsEnteredRates(DebtAssumptionsFor(su, ovs), ovs)
  {
  }

  /** The run starts from Sources & Uses on the inputs and schedules the
      debt on the default rates overridden by the entered ones, and the
      credit ratios it returns are those of its own final projections and
      totals. */
  lemma ModelKeepsEnteredRates(inp: Inputs, rule: Rule, irrSolver: seq<real> -> real)
    requires 1 <= inp.exitYear <= |inp.projections|
    ensures var r := CalculateModel(inp, rule, irrSolver);
      && r.sourcesUses == CalculateSourcesUses(inp.transaction, inp.tranches)
      && |r.debtAssumptions| == |inp.tranches|
      && KeepsEnteredRates(r.debtAssumptions, inp.rateOverrides)
      && r.creditRatios == CalculateCreditRatios(r.incomeStatement.projections, r.debtSchedule.totalsByYear)
  {
    hide *;
    CalculateModelUnfolds(inp, rule, irrSolver);
    var st := RunStages(inp, rule);
    AssembleUnfolds(inp, rule, irrSolver, st);
    AssumptionsKeepEnteredRates(st.sourcesUses, inp.rateOverrides);
  }

  /** What `calculateModel` hands back (lbo-model.js:1083-1094), as
      written. `calculateSensitivity` runs after the credit ratios and the
      returns. Every cell of its multiples grid re-populates the debt
      assumptions at the default rates (line 966), and its closing re-run
      (lines 1033-1045) rebuilds Sources & Uses, the income statement, the
      schedule, the cash flows, the sweep and the returns on them without
      reading the entered rates again. The amounts it re-populates are LTM
      EBITDA times the tranche multiples, which the entry multiple does not
      change. The credit ratios are not recomputed, so they stay those of
      the run on the entered rates. The sensitivity tables themselves are
      not modelled. */
  function ReturnedModel(inp: Inputs, rule: Rule, irrSolver: seq<real> -> real): (r: Model)
    requires 1 <= inp.exitYear <= |inp.projections|
    ensures r.sourcesUses == CalculateSourcesUses(inp.transaction, inp.tranches)
    ensures r.debtAssumptions == PopulateDebtAssumptions(r.sourcesUses.debtTranches)
    ensures r.creditRatios == CalculateModel(inp, rule, irrSolver).creditRatios
  {
    var rerun := CalculateModel(inp.(rateOverrides := []), rule, irrSolver);
    RerunOnDefaults(inp, rule, irrSolver);
    rerun.(creditRatios := CalculateModel(inp, rule, irrSolver).creditRatios)
  }

  /** The closing re-run of the sensitivity analysis, with nothing entered,
      runs on the freshly populated assumptions. */
  lemma RerunOnDefaults(inp: Inputs, rule: Rule, irrSolver: seq<real> -> real)
    requires 1 <= inp.exitYear <= |inp.projections|
    ensures var r := CalculateModel(inp.(rateOverrides := []), rule, irrSolver);
      && r.sourcesUses == CalculateSourcesUses(inp.transaction, inp.tranches)
      && r.debtAssumptions == PopulateDebtAssumptions(r.sourcesUses.debtTranches)
  {
    hide *;
    var inp' := inp.(rateOverrides := []);
    CalculateModelUnfolds(inp', rule, irrSolver);
    NothingEnteredIsDefaults(RunStages(inp', rule).sourcesUses);
  }

  lemma NothingEnteredIsDefaults(su: SourcesUses)
    ensures DebtAssumptionsFor(su, []) == PopulateDebtAssumptions(su.debtTranches)
  {
  }

  /** As written, an entered interest rate other than the default 6% is
      lost: the run that computes the credit ratios uses it, but the debt
      assumptions handed back carry 6%. */
  lemma ReturnedModelDropsEnteredRate(inp: Inputs, rule: Rule, irrSolver: seq<real> -> real, i: nat)
    requires 1 <= inp.exitYear <= |inp.projections|
    requires i < |inp.tranches| && i < |inp.rateOverrides| && inp.rateOverrides[i].Some?
    requires inp.rateOverrides[i].value.interestRate != 6.0
    ensures var returned := ReturnedModel(inp, rule, irrSolver);
      var ran := CalculateModel(inp, rule, irrSolver);
      && returned.debtAssumptions[i].interestRate == 6.0
      && ran.debtAssumptions[i].interestRate == inp.rateOverrides[i].value.interestRate
      && returned.debtAssumptions != ran.debtAssumptions
      && returned.creditRatios == ran.creditRatios
  {
    hide CalculateModel, ReturnedModel, CalculateSourcesUses;
    ModelKeepsEnteredRates(inp, rule, irrSolver);
  }

  /** As written, the model handed back is the same whatever rates were
      entered, except for its credit ratios. */
  lemma ReturnedModelIgnoresEnteredRates(inp: Inputs, ovs: seq<Option<RateOverride>>, rule: Rule,
                                         irrSolver: seq<real> -> real)
    requires 1 <= inp.exitYear <= |inp.projections|
    ensures var a := ReturnedModel(inp, rule, irrSolver);
      var b := ReturnedModel(inp.(rateOverrides := ovs), rule, irrSolver);
      a.(creditRatios := []) == b.(creditRatios := [])
  {
    assert inp.(rateOverrides := ovs).(rateOverrides := []) == inp.(rateOverrides := []);
  }

  /** Afterwards every year's totals, year 0 included, are the sums over
      the swept tranches; each projection year carries that year's total
      interest, overwritten rather than accrued a second time, with EBT,
      taxes and net income re-derived from it; and the cash to equity is
      what the sweep left of the cash available to it. */
  lemma ModelLedgersAgree(inp: Inputs, rule: Rule, irrSolver: seq<real> -> real)
    requires 1 <= inp.exitYear <= |inp.projections|
    ensures var r := CalculateModel(inp, rule, irrSolver);
      && (forall y :: 0 <= y <= |inp.projections| ==>
            r.debtSchedule.totalsByYear[y] == ColumnSum(r.debtSchedule.tranches, y))
      && (forall i :: 0 <= i < |inp.projections| ==>
            r.incomeStatement.projections[i].interestExpense ==
              r.debtSchedule.totalsByYear[i + 1].interestExpense &&
            TaxLines(r.incomeStatement.projections[i]))
      && (forall i :: 0 <= i < |inp.projections| ==>
            r.cashFlows[i].additionalAmortization == r.debtSchedule.totalsByYear[i + 1].additionalAmortization &&
            r.cashFlows[i].fcfToEquity == r.cashFlows[i].availableForSweep - r.cashFlows[i].additionalAmortization)
  {
    hide *;
    CalculateModelUnfolds(inp, rule, irrSolver);
  }

  /** Year 0 of the rebuilt totals is the total debt raised in Sources &
      Uses: the sweep never touches year 0, and the draws add up to it. */
  lemma ModelOpensAtTotalDebt(inp: Inputs, rule: Rule, irrSolver: seq<real> -> real)
    requires 1 <= inp.exitYear <= |inp.projections|
    ensures var r := CalculateModel(inp, rule, irrSolver);
      && r.debtSchedule.totalsByYear[0].beginningBalance == r.sourcesUses.totalDebt
      && r.debtSchedule.totalsByYear[0].endingBalance == r.sourcesUses.totalDebt
  {
    hide CalculateModel, Assemble, RunStages, SweepPass, SchedulePass, FlowPass,
         DebtAssumptionsFor, CalculateSourcesUses, ColumnSum, Sum;
    CalculateModelUnfolds(inp, rule, irrSolver);
    var st := RunStages(inp, rule);
    var xs := DebtAmounts(st.debtAssumptions);
    forall i | 0 <= i < |st.swept.tranches|
      ensures |st.swept.tranches[i].schedule| > 0 && st.swept.tranches[i].schedule[0] == Opening(xs[i])
    {
      assert st.scheduled.schedule.tranches[i].schedule[0] == Opening(st.debtAssumptions[i].amount);
    }
    OpeningColumnSums(st.swept.tranches, xs);
  }

  /** Under the corrected sweep the totals are a balanced ledger from the
      total debt raised, so the principal repaid over the projection
      years is exactly the total debt less what is left at the end. */
  lemma CorrectedModelRepaysDebt(inp: Inputs, irrSolver: seq<real> -> real)
    requires 1 <= inp.exitYear <= |inp.projections|
    ensures var r := CalculateModel(inp, Corrected, irrSolver); var n := |inp.projections|;
      && Balanced(r.debtSchedule.totalsByYear)
      && Repaid(r.debtSchedule.totalsByYear, n) ==
         r.sourcesUses.totalDebt - r.debtSchedule.totalsByYear[n].endingBalance
  {
    hide *;
    CalculateModelUnfolds(inp, Corrected, irrSolver);
    ModelOpensAtTotalDebt(inp, Corrected, irrSolver);
    var st := RunStages(inp, Corrected);
    var n := |inp.projections|;
    RebuiltTotalsBalanced(st.swept.tranches, n);
    assert st.swept.totalsByYear == RebuildTotals(st.swept.tranches, n);
  }

  /** The returns and the final projections `Assemble` builds, for proofs
      that hide its body. */
  lemma AssembleUnfolds(inp: Inputs, rule: Rule, irrSolver: seq<real> -> real, st: Stages)
    requires 1 <= inp.exitYear <= |st.swept.projections|
    requires |st.swept.flows| == |st.swept.projections| && |st.swept.totalsByYear| == |st.swept.projections| + 1
    ensures var r := Assemble(inp, rule, irrSolver, st); var ps := RecomputeTails(st.swept.projections);
      && r.incomeStatement.projections == ps
      && r.creditRatios == CalculateCreditRatios(ps, st.swept.totalsByYear)
      && r.equityReturns == CalculateReturns(rule, st.sourcesUses.equityContribution,
           inp.transaction.managementEquityPct, st.swept.flows, ps, st.swept.totalsByYear,
           inp.exitYear, inp.exitMultiple, irrSolver)
  {
    hide CalculateReturns, RecomputeTails, CalculateCreditRatios, CalculateHistorical;
  }

  /** The returns as assembled: management holds its percentage of the
      equity invested and the sponsor the rest, the exit equity is the exit
      year's EBITDA at the exit multiple less that year's closing debt, and
      MOIC is finite exactly when equity was invested. */
  lemma AssembledReturns(inp: Inputs, rule: Rule, irrSolver: seq<real> -> real, st: Stages)
    requires 1 <= inp.exitYear <= |st.swept.projections|
    requires |st.swept.flows| == |st.swept.projections| && |st.swept.totalsByYear| == |st.swept.projections| + 1
    ensures var r := Assemble(inp, rule, irrSolver, st);
      var er := r.equityReturns; var e := st.sourcesUses.equityContribution;
      && er.management.initialEquity == Pct(e, inp.transaction.managementEquityPct)
      && er.sponsor.initialEquity == e - er.management.initialEquity
      && er.exitEquity == r.incomeStatement.projections[inp.exitYear - 1].ebitda * inp.exitMultiple -
                          r.debtSchedule.totalsByYear[inp.exitYear].endingBalance
      && (er.moic.Some? <==> e != 0.0)
      && (er.moic.Some? ==> er.moic.value * e == Returned(er.cashFlows))
  {
    hide *;
    var ps := RecomputeTails(st.swept.projections);
    AssembleUnfolds(inp, rule, irrSolver, st);
    ReturnsAddUp(rule, st.sourcesUses.equityContribution, inp.transaction.managementEquityPct,
                 st.swept.flows, ps, st.swept.totalsByYear, inp.exitYear, inp.exitMultiple, irrSolver);
  }

  /** The returns agree with Sources & Uses: the equity flows open with the
      equity contribution paid in, management's and the sponsor's stakes
      are the ones Sources & Uses shows, the exit equity is read off the
      final income statement and debt totals, and MOIC multiplies the
      contribution back to the cash returned. */
  lemma ModelReturnsAgree(inp: Inputs, rule: Rule, irrSolver: seq<real> -> real)
    requires 1 <= inp.exitYear <= |inp.projections|
    ensures var r := CalculateModel(inp, rule, irrSolver);
      var er := r.equityReturns; var e := r.sourcesUses.equityContribution;
      && |er.cashFlows| > 0 && er.cashFlows[0] == -e
      && er.management.initialEquity == r.sourcesUses.managementEquity
      && er.sponsor.initialEquity == r.sourcesUses.sponsorEquity
      && er.exitEquity == r.incomeStatement.projections[inp.exitYear - 1].ebitda * inp.exitMultiple -
                          r.debtSchedule.totalsByYear[inp.exitYear].endingBalance
      && (er.moic.Some? <==> e != 0.0)
      && (er.moic.Some? ==> er.moic.value * e == Returned(er.cashFlows))
  {
    hide *;
    CalculateModelUnfolds(inp, rule, irrSolver);
    AssembledReturns(inp, rule, irrSolver, RunStages(inp, rule));
  }

  /** Rates entered on the page that are percentages in [0, 100]. */
  predicate OverridesInRange(ovs: seq<Option<RateOverride>>) {
    forall i :: 0 <= i < |ovs| && ovs[i].Some? ==>
      0.0 <= ovs[i].value.amortizationPct <= 100.0 && 0.0 <= ovs[i].value.cashFlowSweepPct <= 100.0
  }

  /** With non-negative draws and the entered rates in range, every debt
      assumption has a non-negative amount and its rates in range (the
      defaults, 5% and 50%, are). */
  lemma DebtAssumptionsInRange(su: SourcesUses, ovs: seq<Option<RateOverride>>)
    requires forall i :: 0 <= i < |su.debtTranches| ==> su.debtTranches[i].amount >= 0.0
    requires OverridesInRange(ovs)
    ensures var das := DebtAssumptionsFor(su, ovs);
      && RatesInRange(das)
      && forall i :: 0 <= i < |das| ==> das[i].amount >= 0.0
  {
  }

  /** The first pass leaves nothing swept and no balance below zero when
      every draw and amortization rate is non-negative. */
  lemma SchedulePassUnswept(inp: Inputs, totalDebt: real, das: seq<DebtAssumption>)
    requires forall i :: 0 <= i < |das| ==> das[i].amount >= 0.0 && das[i].amortizationPct >= 0.0
    ensures var ts := SchedulePass(inp, totalDebt, das).schedule.tranches;
      UnsweptFrom(ts, 1) && EndingsNonnegative(ts)
  {
    var stmt := CalculateIncomeStatement(IncomeStatement(inp.historical, ZeroInterest(inp.projections)));
    ScheduledPassTranches(das, totalDebt, stmt.projections);
    var ts := SchedulePass(inp, totalDebt, das).schedule.tranches;
    assert ts == CalculateDebtSchedule(das, totalDebt, stmt.projections).schedule.tranches;
    forall i, k | 0 <= i < |ts| && 1 <= k < |ts[i].schedule| ensures Unswept(ts[i].schedule[k]) {
      assert ScheduledOnly(ts[i].schedule[k], das[i]);
    }
    forall i, k | 0 <= i < |ts| && 0 <= k < |ts[i].schedule| ensures ts[i].schedule[k].endingBalance >= 0.0 {
      if k == 0 {
        assert ts[i].schedule[0] == Opening(das[i].amount);
      } else {
        assert ScheduledOnly(ts[i].schedule[k], das[i]);
      }
    }
  }

  /** On a first pass with nothing swept, the sweep keeps every year's cash
      available and takes none of it when there is none, and otherwise
      between none and all of it. */
  lemma SweepPassWithinCash(rule: Rule, sched: ScheduleResult, das: seq<DebtAssumption>,
                            flows: seq<CashFlowYear>)
    requires |sched.schedule.tranches| == |das| && Shaped(sched.schedule.tranches, |flows|)
    requires |sched.projections| == |flows|
    requires RatesInRange(das) && UnsweptFrom(sched.schedule.tranches, 1)
    requires EndingsNonnegative(sched.schedule.tranches)
    ensures var r := SweepPass(rule, sched, das, flows);
      forall k :: 0 <= k < |flows| ==>
        && r.flows[k].availableForSweep == flows[k].availableForSweep
        && (flows[k].availableForSweep <= 0.0 ==> r.flows[k].additionalAmortization == 0.0)
        && (flows[k].availableForSweep > 0.0 ==>
              0.0 <= r.flows[k].additionalAmortization <= flows[k].availableForSweep)
  {
    hide CalculateCashFlowSweep;
    CashFlowSweepWithinCash(rule, sched.schedule.tranches, das, flows, sched.projections);
  }

  /** With the tranche multiples and LTM EBITDA non-negative and the
      entered rates in range, in every projection year, whichever rule
      carries the sweep forward: a year without positive cash repays
      nothing extra and passes all of it (a shortfall included) to
      equity; any other year repays between none and all of its cash
      early, and equity keeps the rest, never a negative amount. */
  lemma ModelSweepWithinCash(inp: Inputs, rule: Rule, irrSolver: seq<real> -> real)
    requires 1 <= inp.exitYear <= |inp.projections|
    requires inp.transaction.ltmEbitda >= 0.0
    requires forall i :: 0 <= i < |inp.tranches| ==> inp.tranches[i].multiple >= 0.0
    requires OverridesInRange(inp.rateOverrides)
    ensures var r := CalculateModel(inp, rule, irrSolver);
      forall k :: 0 <= k < |inp.projections| ==>
        && (r.cashFlows[k].availableForSweep <= 0.0 ==>
              r.cashFlows[k].additionalAmortization == 0.0 &&
              r.cashFlows[k].fcfToEquity == r.cashFlows[k].availableForSweep)
        && (r.cashFlows[k].availableForSweep > 0.0 ==>
              0.0 <= r.cashFlows[k].additionalAmortization <= r.cashFlows[k].availableForSweep &&
              0.0 <= r.cashFlows[k].fcfToEquity <= r.cashFlows[k].availableForSweep)
  {
    hide *;
    CalculateModelUnfolds(inp, rule, irrSolver);
    var st := RunStages(inp, rule);
    var su := st.sourcesUses;
    forall i | 0 <= i < |su.debtTranches| ensures su.debtTranches[i].amount >= 0.0 {
      NonnegProduct(inp.transaction.ltmEbitda, inp.tranches[i].multiple);
    }
    DebtAssumptionsInRange(su, inp.rateOverrides);
    SchedulePassUnswept(inp, su.totalDebt, st.debtAssumptions);
    SweepPassWithinCash(rule, st.scheduled, st.debtAssumptions, st.flows);
  }
}
