/** The cash-flow build (lbo-model.js:519-568): for each projection year,
    free cash flow before debt service, the cash left for the sweep after
    interest and scheduled amortization, and the cash left to equity. */
module CashFlow {
  import opened Numbers
  import opened IncomeStatement
  import opened DebtSchedule

  datatype CashFlowYear = CashFlowYear(
    year: int,
    netIncome: real,
    da: real,
    nwcChange: real,
    capex: real,
    fcfBeforeDebt: real,
    interestExpense: real,
    scheduledAmortization: real,
    availableForSweep: real,
    additionalAmortization: real,
    fcfToEquity: real)

  const NwcDefaultPct: real := 0.0
  const CapexDefaultPct: real := 3.0

  /** `s[i] || d`: a driver that is missing or 0 falls back to `d`. */
  function DriverAt(s: seq<real>, i: nat, d: real): real {
    if i < |s| && s[i] != 0.0 then s[i] else d
  }

  /** The revenue year `k` (1-based) grows from: the historical revenue for
      year 1, otherwise the projection before it. */
  function PriorRevenue(stmt: IncomeStatement, k: nat): real
    requires k <= |stmt.projections|
  {
    if k == 0 then stmt.historical.revenue else stmt.projections[k - 1].revenue
  }

  /** One year of the cash-flow build from its projection, its prior
      revenue, its two drivers and the debt totals of that year. */
  function FlowFor(year: int, p: ProjectionYear, priorRevenue: real, nwcPct: real, capexPct: real,
                   debt: Entry): (r: CashFlowYear)
    ensures r.year == year && r.netIncome == p.netIncome && r.da == p.da
    ensures r.nwcChange == Pct(p.revenue - priorRevenue, nwcPct)
    ensures r.capex == Pct(p.revenue, capexPct)
    ensures r.fcfBeforeDebt == r.netIncome + r.da - r.nwcChange - r.capex
    ensures r.availableForSweep == r.fcfBeforeDebt - r.interestExpense - r.scheduledAmortization
    ensures r.interestExpense == debt.interestExpense
    ensures r.scheduledAmortization == debt.scheduledAmortization
    ensures r.additionalAmortization == debt.additionalAmortization
    ensures r.netIncome + r.da ==
      r.nwcChange + r.capex + r.interestExpense + r.scheduledAmortization +
      r.additionalAmortization + r.fcfToEquity
    ensures r.availableForSweep == r.additionalAmortization + r.fcfToEquity
  {
    var nwcChange := Pct(p.revenue - priorRevenue, nwcPct);
    var capex := Pct(p.revenue, capexPct);
    var fcfBeforeDebt := p.netIncome + p.da - nwcChange - capex;
    var available := fcfBeforeDebt - debt.interestExpense - debt.scheduledAmortization;
    CashFlowYear(year, p.netIncome, p.da, nwcChange, capex, fcfBeforeDebt,
                 debt.interestExpense, debt.scheduledAmortization, available,
                 debt.additionalAmortization, available - debt.additionalAmortization)
  }

  /** `calculateCashFlows`: one record per projection year. Every dollar of
      net income plus D&A is accounted for exactly once, as working capital,
      capex, interest, scheduled or additional amortization, or cash to
      equity. NWC moves with the change in revenue (0% when unset), capex
      with revenue (3% when unset or 0). */
  function CalculateCashFlows(stmt: IncomeStatement, nwc: seq<real>, capex: seq<real>,
                              totals: seq<Entry>): (r: seq<CashFlowYear>)
    requires |totals| > |stmt.projections|
    ensures |r| == |stmt.projections|
    ensures forall i {:trigger r[i]} :: 0 <= i < |r| ==>
      r[i] == FlowFor(i + 1, stmt.projections[i], PriorRevenue(stmt, i),
                      DriverAt(nwc, i, NwcDefaultPct), DriverAt(capex, i, CapexDefaultPct),
                      totals[i + 1])
    ensures forall i :: 0 <= i < |r| ==>
      r[i].netIncome + r[i].da ==
      r[i].nwcChange + r[i].capex + r[i].interestExpense + r[i].scheduledAmortization +
      r[i].additionalAmortization + r[i].fcfToEquity
    ensures forall i :: 0 <= i < |r| ==>
      r[i].availableForSweep == r[i].additionalAmortization + r[i].fcfToEquity
  {
    seq(|stmt.projections|, i requires 0 <= i < |stmt.projections| =>
      FlowFor(i + 1, stmt.projections[i], PriorRevenue(stmt, i),
              DriverAt(nwc, i, NwcDefaultPct), DriverAt(capex, i, CapexDefaultPct), totals[i + 1]))
  }

  function NwcChanges(fs: seq<CashFlowYear>): (r: seq<real>)
    ensures |r| == |fs|
    ensures forall i :: 0 <= i < |fs| ==> r[i] == fs[i].nwcChange
  {
    seq(|fs|, i requires 0 <= i < |fs| => fs[i].nwcChange)
  }

  lemma PctAdds(a: real, b: real, total: real, c: real)
    requires a + b == total
    ensures Pct(a, c) + Pct(b, c) == Pct(total, c)
  {
  }

  /** Shares of successive steps along a path add up to the share of the
      whole distance travelled. */
  lemma {:induction false} StepSharesTelescope(xs: seq<real>, path: seq<real>, c: real, k: nat)
    requires |path| == |xs| + 1 && k <= |xs|
    requires forall i :: 0 <= i < |xs| ==> xs[i] == Pct(path[i + 1] - path[i], c)
    ensures Sum(xs[..k]) == Pct(path[k] - path[0], c)
  {
    if k > 0 {
      StepSharesTelescope(xs, path, c, k - 1);
      assert xs[..k][..k - 1] == xs[..k - 1];
      PctAdds(path[k - 1] - path[0], path[k] - path[k - 1], path[k] - path[0], c);
    }
  }

  /** The revenue each projection year grows from, with the final year's
      revenue appended. */
  function RevenuePath(stmt: IncomeStatement): (r: seq<real>)
    ensures |r| == |stmt.projections| + 1
    ensures forall k :: 0 <= k <= |stmt.projections| ==> r[k] == PriorRevenue(stmt, k)
  {
    seq(|stmt.projections| + 1, k requires 0 <= k <= |stmt.projections| => PriorRevenue(stmt, k))
  }

  /** With one NWC percentage for every year, the working-capital outflows
      of years 1..k add up to that percentage of the revenue growth from
      the historical year to year k. */
  lemma NwcTelescopes(stmt: IncomeStatement, nwc: seq<real>, capex: seq<real>,
                      totals: seq<Entry>, c: real, k: nat)
    requires |totals| > |stmt.projections| && k <= |stmt.projections|
    requires forall i :: 0 <= i < |stmt.projections| ==> DriverAt(nwc, i, NwcDefaultPct) == c
    ensures Sum(NwcChanges(CalculateCashFlows(stmt, nwc, capex, totals))[..k]) ==
            Pct(PriorRevenue(stmt, k) - stmt.historical.revenue, c)
  {
    hide CalculateCashFlows, FlowFor, NwcChanges, RevenuePath, Pct, DriverAt, Sum;
    var fs := CalculateCashFlows(stmt, nwc, capex, totals);
    var xs := NwcChanges(fs);
    var path := RevenuePath(stmt);
    forall i | 0 <= i < |xs| ensures xs[i] == Pct(path[i + 1] - path[i], c) {
      assert fs[i].nwcChange == Pct(stmt.projections[i].revenue - PriorRevenue(stmt, i), c);
      assert path[i + 1] == stmt.projections[i].revenue;
    }
    StepSharesTelescope(xs, path, c, k);
  }
}
