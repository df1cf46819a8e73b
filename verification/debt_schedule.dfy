/** Debt assumptions per tranche and the scheduled pass of the debt schedule
    (lbo-model.js:136-148, 397-482): balances, scheduled amortization and
    interest per tranche and year, before any cash sweep. */
module DebtSchedule {
  import opened Numbers
  import opened SourcesUses
  import opened IncomeStatement

  /** Rates of one tranche, as whole-number percentages of the beginning
      balance; `cashFlowSweepPct` is its share of the cash left to sweep. */
  datatype DebtAssumption = DebtAssumption(
    name: string,
    amount: real,
    amortizationPct: real,
    interestRate: real,
    cashFlowSweepPct: real)

  /** Rates entered for one tranche at the boundary. */
  datatype RateOverride = RateOverride(amortizationPct: real, interestRate: real, cashFlowSweepPct: real)

  /** One tranche (or the total of all tranches) in one year. */
  datatype Entry = Entry(
    year: int,
    beginningBalance: real,
    scheduledAmortization: real,
    additionalAmortization: real,
    totalAmortization: real,
    endingBalance: real,
    interestExpense: real)

  datatype TrancheSchedule = TrancheSchedule(name: string, schedule: seq<Entry>)

  datatype DebtSchedule = DebtSchedule(tranches: seq<TrancheSchedule>, totalsByYear: seq<Entry>)

  datatype ScheduleResult = ScheduleResult(schedule: DebtSchedule, projections: seq<ProjectionYear>)

  /** `populateDebtAssumptions`: one assumption per tranche, in tranche order,
      with the tranche's name and amount and the default rates 5% / 6% / 50%,
      whatever rates were set before. */
  function PopulateDebtAssumptions(ts: seq<Tranche>): (r: seq<DebtAssumption>)
    ensures |r| == |ts|
    ensures forall i :: 0 <= i < |ts| ==>
      r[i] == DebtAssumption(ts[i].name, ts[i].amount, 5.0, 6.0, 50.0)
  {
    seq(|ts|, i requires 0 <= i < |ts| => DebtAssumption(ts[i].name, ts[i].amount, 5.0, 6.0, 50.0))
  }

  /** Rates read back from the boundary after population (lbo-model.js:322-334):
      tranche `i` takes override `i` when there is one and keeps its rates
      otherwise; names and amounts never change. */
  function ApplyRateOverrides(das: seq<DebtAssumption>, ovs: seq<Option<RateOverride>>): (r: seq<DebtAssumption>)
    ensures |r| == |das|
    ensures forall i :: 0 <= i < |das| ==> r[i].name == das[i].name && r[i].amount == das[i].amount
    ensures forall i :: 0 <= i < |das| && !(i < |ovs| && ovs[i].Some?) ==> r[i] == das[i]
    ensures forall i :: 0 <= i < |das| && i < |ovs| && ovs[i].Some? ==>
      r[i].amortizationPct == ovs[i].value.amortizationPct &&
      r[i].interestRate == ovs[i].value.interestRate &&
      r[i].cashFlowSweepPct == ovs[i].value.cashFlowSweepPct
  {
    seq(|das|, i requires 0 <= i < |das| =>
      if i < |ovs| && ovs[i].Some? then
        das[i].(amortizationPct := ovs[i].value.amortizationPct,
                interestRate := ovs[i].value.interestRate,
                cashFlowSweepPct := ovs[i].value.cashFlowSweepPct)
      else das[i])
  }

  function DebtAmounts(das: seq<DebtAssumption>): (r: seq<real>)
    ensures |r| == |das|
    ensures forall i :: 0 <= i < |das| ==> r[i] == das[i].amount
  {
    seq(|das|, i requires 0 <= i < |das| => das[i].amount)
  }

  /** Year 0: the initial draw, no amortization or interest. */
  function Opening(amount: real): Entry {
    Entry(0, amount, 0.0, 0.0, 0.0, amount, 0.0)
  }

  /** The balance identities of a tranche-year: total amortization is
      scheduled plus additional, the ending balance is what the total leaves
      of the beginning balance, and it is never negative. */
  predicate Ledger(e: Entry) {
    && e.totalAmortization == e.scheduledAmortization + e.additionalAmortization
    && e.endingBalance == e.beginningBalance - e.totalAmortization
    && e.endingBalance >= 0.0
  }

  /** A tranche-year as the scheduled pass leaves it: ledger identities, no
      sweep yet, and interest on the beginning balance. */
  predicate ScheduledOnly(e: Entry, da: DebtAssumption) {
    && Ledger(e)
    && e.additionalAmortization == 0.0
    && e.scheduledAmortization == Min(Pct(e.beginningBalance, da.amortizationPct), e.beginningBalance)
    && e.interestExpense == Pct(e.beginningBalance, da.interestRate)
  }

  /** Each year opens with the balance the year before closed with. */
  ghost predicate Chained(s: seq<Entry>) {
    forall i, j {:trigger s[i], s[j]} :: 0 <= i < j < |s| && j == i + 1 ==>
      s[j].beginningBalance == s[i].endingBalance
  }

  /** One projection year of the scheduled pass (lbo-model.js:435-454): if the
      scheduled amortization would overdraw the balance, the balance is paid
      off exactly and the scheduled amount is cut to match. */
  function ScheduledEntry(year: int, beginning: real, da: DebtAssumption): (r: Entry)
    ensures ScheduledOnly(r, da)
    ensures r.year == year && r.beginningBalance == beginning
    ensures Pct(beginning, da.amortizationPct) <= beginning ==>
      r.scheduledAmortization == Pct(beginning, da.amortizationPct)
    ensures Pct(beginning, da.amortizationPct) > beginning ==>
      r.scheduledAmortization == beginning && r.endingBalance == 0.0
    ensures beginning >= 0.0 && da.amortizationPct >= 0.0 ==> r.scheduledAmortization >= 0.0
  {
    PctNonnegative(beginning, da.amortizationPct);
    var scheduled := Pct(beginning, da.amortizationPct);
    var interest := Pct(beginning, da.interestRate);
    var total := scheduled + 0.0;
    var ending := beginning - total;
    if ending < 0.0 then Entry(year, beginning, beginning, 0.0, beginning, 0.0, interest)
    else Entry(year, beginning, scheduled, 0.0, total, ending, interest)
  }

  /** The scheduled pass for years `y..n` of one tranche, starting from the
      balance `beginning`. */
  function ScheduledTail(da: DebtAssumption, beginning: real, y: nat, n: nat): (r: seq<Entry>)
    requires y <= n + 1
    ensures |r| == n + 1 - y
    ensures |r| > 0 ==> r[0].beginningBalance == beginning
    ensures forall k :: 0 <= k < |r| ==> r[k].year == y + k && ScheduledOnly(r[k], da)
    ensures Chained(r)
    ensures beginning >= 0.0 && da.amortizationPct >= 0.0 ==>
      forall k :: 0 <= k < |r| ==>
        0.0 <= r[k].endingBalance <= r[k].beginningBalance && 0.0 <= r[k].scheduledAmortization
    decreases n + 1 - y
  {
    if y > n then []
    else
      var e := ScheduledEntry(y, beginning, da);
      [e] + ScheduledTail(da, e.endingBalance, y + 1, n)
  }

  /** One tranche's whole scheduled pass: the opening draw, then years 1..n. */
  function ScheduleFor(da: DebtAssumption, n: nat): (r: seq<Entry>)
    ensures |r| == n + 1
    ensures r[0] == Opening(da.amount)
    ensures Chained(r)
    ensures forall y :: 1 <= y <= n ==> r[y].year == y && ScheduledOnly(r[y], da)
    ensures da.amount >= 0.0 && da.amortizationPct >= 0.0 ==>
      forall y :: 1 <= y <= n ==>
        0.0 <= r[y].endingBalance <= r[y].beginningBalance && 0.0 <= r[y].scheduledAmortization
  {
    var tail := ScheduledTail(da, da.amount, 1, n);
    var r := [Opening(da.amount)] + tail;
    assert forall y :: 1 <= y <= n ==> r[y] == tail[y - 1];
    r
  }

  /** Every tranche carries years 0..n. */
  predicate Shaped(ts: seq<TrancheSchedule>, n: nat) {
    forall i :: 0 <= i < |ts| ==> |ts[i].schedule| == n + 1
  }

  function ZeroEntry(year: int): Entry {
    Entry(year, 0.0, 0.0, 0.0, 0.0, 0.0, 0.0)
  }

  function AddEntries(a: Entry, b: Entry): Entry {
    Entry(a.year,
          a.beginningBalance + b.beginningBalance,
          a.scheduledAmortization + b.scheduledAmortization,
          a.additionalAmortization + b.additionalAmortization,
          a.totalAmortization + b.totalAmortization,
          a.endingBalance + b.endingBalance,
          a.interestExpense + b.interestExpense)
  }

  /** Field-wise sum of year `y` over the tranches (exact reals, so the
      order of addition does not matter). */
  function ColumnSum(ts: seq<TrancheSchedule>, y: nat): Entry
    requires forall i :: 0 <= i < |ts| ==> y < |ts[i].schedule|
  {
    if |ts| == 0 then ZeroEntry(y)
    else AddEntries(ts[0].schedule[y], ColumnSum(ts[1..], y)).(year := y)
  }

  function TrancheSchedules(das: seq<DebtAssumption>, n: nat): (r: seq<TrancheSchedule>)
    ensures |r| == |das| && Shaped(r, n)
    ensures forall i :: 0 <= i < |das| ==>
      r[i].name == das[i].name && r[i].schedule == ScheduleFor(das[i], n)
  {
    seq(|das|, i requires 0 <= i < |das| => TrancheSchedule(das[i].name, ScheduleFor(das[i], n)))
  }

  /** The totals the scheduled pass leaves: year 0 is set to the total debt,
      later years are summed over the tranches. */
  function PhaseTotals(ts: seq<TrancheSchedule>, totalDebt: real, n: nat): (r: seq<Entry>)
    requires Shaped(ts, n)
    ensures |r| == n + 1
    ensures r[0] == Entry(0, totalDebt, 0.0, 0.0, 0.0, totalDebt, 0.0)
    ensures forall y :: 1 <= y <= n ==> r[y] == ColumnSum(ts, y)
  {
    seq(n + 1, y requires 0 <= y <= n =>
      if y == 0 then Entry(0, totalDebt, 0.0, 0.0, 0.0, totalDebt, 0.0) else ColumnSum(ts, y))
  }

  /** `this.incomeStatement.projections[year - 1].interestExpense += ...`:
      the scheduled pass adds its interest onto whatever is already there. */
  function AccrueInterest(ps: seq<ProjectionYear>, totals: seq<Entry>): (r: seq<ProjectionYear>)
    requires |totals| == |ps| + 1
    ensures |r| == |ps|
    ensures forall i :: 0 <= i < |ps| ==>
      r[i] == ps[i].(interestExpense := ps[i].interestExpense + totals[i + 1].interestExpense)
  {
    seq(|ps|, i requires 0 <= i < |ps| =>
      ps[i].(interestExpense := ps[i].interestExpense + totals[i + 1].interestExpense))
  }

  /** `calculateDebtSchedule`: one schedule per tranche; the totals of
      year 0 are the total debt and later years sum the tranches; each
      projection year's interest is added onto what the income statement
      already holds. */
  function CalculateDebtSchedule(das: seq<DebtAssumption>, totalDebt: real, ps: seq<ProjectionYear>)
    : (r: ScheduleResult)
    ensures |r.schedule.tranches| == |das| && Shaped(r.schedule.tranches, |ps|)
    ensures |r.schedule.totalsByYear| == |ps| + 1
    ensures r.schedule.totalsByYear[0] == Entry(0, totalDebt, 0.0, 0.0, 0.0, totalDebt, 0.0)
    ensures forall y :: 1 <= y <= |ps| ==>
      r.schedule.totalsByYear[y] == ColumnSum(r.schedule.tranches, y)
    ensures |r.projections| == |ps|
    ensures forall i :: 0 <= i < |ps| ==>
      r.projections[i] == ps[i].(interestExpense := ps[i].interestExpense +
                                 ColumnSum(r.schedule.tranches, i + 1).interestExpense)
  {
    var n := |ps|;
    var ts := TrancheSchedules(das, n);
    var totals := PhaseTotals(ts, totalDebt, n);
    ScheduleResult(DebtSchedule(ts, totals), AccrueInterest(ps, totals))
  }

  /** The tranches of the scheduled pass: per tranche, year 0 is the draw;
      each later year opens at the prior closing balance, accrues interest
      on it and amortizes on schedule, never below 0, and with a
      non-negative draw and rate the balance never grows. */
  lemma ScheduledPassTranches(das: seq<DebtAssumption>, totalDebt: real, ps: seq<ProjectionYear>)
    ensures var ts := CalculateDebtSchedule(das, totalDebt, ps).schedule.tranches; var n := |ps|;
      && (forall i :: 0 <= i < |das| ==> ts[i].name == das[i].name)
      && (forall i :: 0 <= i < |das| ==> ts[i].schedule[0] == Opening(das[i].amount))
      && (forall i :: 0 <= i < |das| ==> Chained(ts[i].schedule))
      && (forall i, y :: 0 <= i < |das| && 1 <= y <= n ==>
            ts[i].schedule[y].year == y && ScheduledOnly(ts[i].schedule[y], das[i]))
      && (forall i, y ::
            (0 <= i < |das| && 1 <= y <= n && das[i].amount >= 0.0 && das[i].amortizationPct >= 0.0) ==>
            0.0 <= ts[i].schedule[y].scheduledAmortization &&
            ts[i].schedule[y].endingBalance <= ts[i].schedule[y].beginningBalance)
  {
  }

  /** Principal repaid over years 1..k. */
  function Repaid(s: seq<Entry>, k: nat): real
    requires k < |s|
  {
    if k == 0 then 0.0 else Repaid(s, k - 1) + s[k].totalAmortization
  }

  /** Every projection year of a schedule keeps the ledger identities. */
  predicate LedgerFrom(s: seq<Entry>, lo: nat) {
    forall y :: lo <= y < |s| ==> Ledger(s[y])
  }

  /** In a chained schedule that keeps its ledger, the principal repaid
      over years 1..k is exactly the fall in the balance since year 0:
      no repayment is lost and none is counted twice. */
  lemma {:induction false} RepaidTelescopes(s: seq<Entry>, k: nat)
    requires Chained(s) && LedgerFrom(s, 1) && k < |s|
    ensures Repaid(s, k) == s[0].endingBalance - s[k].endingBalance
  {
    if k > 0 {
      RepaidTelescopes(s, k - 1);
      assert s[k].beginningBalance == s[k - 1].endingBalance;
      assert Ledger(s[k]);
    }
  }

  /** The scheduled pass repays, over years 1..y, exactly the drawn amount
      less the balance left at the end of year y. */
  lemma ScheduledRepaymentTelescopes(da: DebtAssumption, n: nat, y: nat)
    requires y <= n
    ensures Repaid(ScheduleFor(da, n), y) == da.amount - ScheduleFor(da, n)[y].endingBalance
  {
    var r := ScheduleFor(da, n);
    assert LedgerFrom(r, 1) by {
      forall k | 1 <= k < |r| ensures Ledger(r[k]) {
        assert ScheduledOnly(r[k], da);
      }
    }
    RepaidTelescopes(r, y);
  }

  lemma PctAtMostWhole(b: real, pct: real)
    requires b >= 0.0 && 0.0 <= pct <= 100.0
    ensures 0.0 <= Pct(b, pct) <= b
  {
    var q := pct / 100.0;
    assert 0.0 <= q <= 1.0;
    NonnegProduct(b, q);
    NonnegProduct(b, 1.0 - q);
    assert b * q + b * (1.0 - q) == b;
  }

  lemma NonnegProduct(a: real, b: real)
    requires a >= 0.0 && b >= 0.0
    ensures a * b >= 0.0
  {
  }

  /** Tranches that open at the given amounts sum, in year 0, to the total
      of those amounts. */
  lemma {:induction false} OpeningColumnSums(ts: seq<TrancheSchedule>, xs: seq<real>)
    requires |ts| == |xs|
    requires forall i :: 0 <= i < |ts| ==> |ts[i].schedule| > 0 && ts[i].schedule[0] == Opening(xs[i])
    ensures ColumnSum(ts, 0).beginningBalance == Sum(xs)
    ensures ColumnSum(ts, 0).endingBalance == Sum(xs)
    decreases |ts|
  {
    if |ts| > 0 {
      OpeningColumnSums(ts[1..], xs[1..]);
      assert xs == [xs[0]] + xs[1..];
      SumCons(xs[0], xs[1..]);
    }
  }

  /** Year 0 of the summed tranches is the sum of the tranche amounts, which
      is why the scheduled pass may set it from the total debt. */
  lemma OpeningColumnIsTotalDebt(das: seq<DebtAssumption>, n: nat)
    ensures ColumnSum(TrancheSchedules(das, n), 0).beginningBalance == Sum(DebtAmounts(das))
    ensures ColumnSum(TrancheSchedules(das, n), 0).endingBalance == Sum(DebtAmounts(das))
  {
    hide ScheduleFor, TrancheSchedules, DebtAmounts, ColumnSum, Sum, Opening;
    OpeningColumnSums(TrancheSchedules(das, n), DebtAmounts(das));
  }
}
