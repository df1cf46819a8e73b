/** The income statement: a historical year and the projection years, each
    driven by percentages of revenue (lbo-model.js:252-274, 337-385). */
module IncomeStatement {
  import opened Numbers

  datatype Historical = Historical(
    revenue: real,
    cogsPct: real,
    sgaPct: real,
    daPct: real,
    taxRate: real,
    cogs: real,
    sga: real,
    ebitda: real,
    da: real,
    ebit: real,
    interestExpense: real,
    ebt: real,
    taxes: real,
    netIncome: real)

  /** One projection year: the five drivers, then the derived figures.
      `interestExpense` is supplied by the debt schedule. */
  datatype ProjectionYear = ProjectionYear(
    year: int,
    revenueGrowthPct: real,
    cogsPct: real,
    sgaPct: real,
    daPct: real,
    taxRate: real,
    revenue: real,
    cogs: real,
    sga: real,
    ebitda: real,
    da: real,
    ebit: real,
    interestExpense: real,
    ebt: real,
    taxes: real,
    netIncome: real)

  datatype IncomeStatement = IncomeStatement(historical: Historical, projections: seq<ProjectionYear>)

  /** Revenue one year on at growth rate `growthPct`. */
  function Grow(revenue: real, growthPct: real): real {
    revenue * (1.0 + growthPct / 100.0)
  }

  /** Tax is never negative: a loss gives no tax benefit. */
  function Taxes(ebt: real, taxRate: real): real {
    Max(0.0, Pct(ebt, taxRate))
  }

  /** Two projection years carry the same drivers (year number and the five
      percentages), whatever their derived figures. */
  predicate SameDrivers(a: ProjectionYear, b: ProjectionYear) {
    && a.year == b.year
    && a.revenueGrowthPct == b.revenueGrowthPct
    && a.cogsPct == b.cogsPct
    && a.sgaPct == b.sgaPct
    && a.daPct == b.daPct
    && a.taxRate == b.taxRate
  }

  /** The margin lines of a year follow from its revenue and drivers. */
  predicate OperatingLines(p: ProjectionYear) {
    && p.cogs == Pct(p.revenue, p.cogsPct)
    && p.sga == Pct(p.revenue, p.sgaPct)
    && p.ebitda == p.revenue - p.cogs - p.sga
    && p.da == Pct(p.revenue, p.daPct)
    && p.ebit == p.ebitda - p.da
  }

  /** The interest-dependent tail of a year follows from its EBIT and interest. */
  predicate TaxLines(p: ProjectionYear) {
    && p.ebt == p.ebit - p.interestExpense
    && p.taxes == Taxes(p.ebt, p.taxRate)
    && p.taxes >= 0.0
    && p.netIncome == p.ebt - p.taxes
    && p.netIncome <= p.ebt
  }

  /** The historical year's derived figures (lbo-model.js:339-347); its
      interest expense is kept as it is. */
  function CalculateHistorical(h: Historical): (r: Historical)
    ensures r.revenue == h.revenue && r.interestExpense == h.interestExpense
    ensures r.cogsPct == h.cogsPct && r.sgaPct == h.sgaPct && r.daPct == h.daPct
    ensures r.taxRate == h.taxRate
    ensures r.cogs == Pct(r.revenue, r.cogsPct) && r.sga == Pct(r.revenue, r.sgaPct)
    ensures r.ebitda == r.revenue - r.cogs - r.sga
    ensures r.da == Pct(r.revenue, r.daPct) && r.ebit == r.ebitda - r.da
    ensures r.ebt == r.ebit - r.interestExpense
    ensures r.taxes == Taxes(r.ebt, r.taxRate) && r.netIncome == r.ebt - r.taxes
    ensures r.taxes >= 0.0 && r.netIncome <= r.ebt
  {
    var cogs := Pct(h.revenue, h.cogsPct);
    var sga := Pct(h.revenue, h.sgaPct);
    var ebitda := h.revenue - cogs - sga;
    var da := Pct(h.revenue, h.daPct);
    var ebit := ebitda - da;
    var ebt := ebit - h.interestExpense;
    var taxes := Taxes(ebt, h.taxRate);
    h.(cogs := cogs, sga := sga, ebitda := ebitda, da := da, ebit := ebit, ebt := ebt,
       taxes := taxes, netIncome := ebt - taxes)
  }

  /** One pass of the projection loop body (lbo-model.js:353-381): revenue
      grows from the prior year's and interest is reset to 0. */
  function ProjectYear(prevRevenue: real, p: ProjectionYear): ProjectionYear {
    var revenue := Grow(prevRevenue, p.revenueGrowthPct);
    var cogs := Pct(revenue, p.cogsPct);
    var sga := Pct(revenue, p.sgaPct);
    var ebitda := revenue - cogs - sga;
    var da := Pct(revenue, p.daPct);
    var ebit := ebitda - da;
    var ebt := ebit - 0.0;
    var taxes := Taxes(ebt, p.taxRate);
    p.(revenue := revenue, cogs := cogs, sga := sga, ebitda := ebitda, da := da, ebit := ebit,
       interestExpense := 0.0, ebt := ebt, taxes := taxes, netIncome := ebt - taxes)
  }

  /** The projection loop from a given prior-year revenue: a growth chain in
      which each year starts from the revenue of the year before. */
  function ProjectFrom(prevRevenue: real, ps: seq<ProjectionYear>): (r: seq<ProjectionYear>)
    ensures |r| == |ps|
    ensures |r| > 0 ==> r[0].revenue == Grow(prevRevenue, ps[0].revenueGrowthPct)
    ensures forall i :: 0 < i < |r| ==>
      r[i].revenue == Grow(r[i - 1].revenue, ps[i].revenueGrowthPct)
    ensures forall i :: 0 <= i < |r| ==>
      SameDrivers(r[i], ps[i]) && OperatingLines(r[i]) && r[i].interestExpense == 0.0 &&
      TaxLines(r[i])
    decreases |ps|
  {
    if |ps| == 0 then []
    else
      var first := ProjectYear(prevRevenue, ps[0]);
      [first] + ProjectFrom(first.revenue, ps[1..])
  }

  /** `calculateIncomeStatement`: year 1 grows from the historical revenue,
      every later year from the year before; margins follow the drivers,
      interest is reset to 0 and tax is floored at 0. */
  function CalculateIncomeStatement(stmt: IncomeStatement): (r: IncomeStatement)
    ensures r.historical == CalculateHistorical(stmt.historical)
    ensures |r.projections| == |stmt.projections|
    ensures |r.projections| > 0 ==>
      r.projections[0].revenue ==
        Grow(stmt.historical.revenue, stmt.projections[0].revenueGrowthPct)
    ensures forall i :: 0 < i < |r.projections| ==>
      r.projections[i].revenue ==
        Grow(r.projections[i - 1].revenue, stmt.projections[i].revenueGrowthPct)
    ensures forall i :: 0 <= i < |r.projections| ==>
      SameDrivers(r.projections[i], stmt.projections[i]) && OperatingLines(r.projections[i]) &&
      r.projections[i].interestExpense == 0.0 && TaxLines(r.projections[i])
  {
    IncomeStatement(CalculateHistorical(stmt.historical),
                    ProjectFrom(stmt.historical.revenue, stmt.projections))
  }

  /** Compound growth factor of the first `k` years. */
  function GrowthFactor(ps: seq<ProjectionYear>, k: nat): real
    requires k <= |ps|
  {
    if k == 0 then 1.0 else Grow(GrowthFactor(ps, k - 1), ps[k - 1].revenueGrowthPct)
  }

  /** Closed form of the revenue chain: year `k` (0-based) earns the
      historical revenue compounded by the growth of years 1..k+1. */
  lemma {:induction false} RevenueIsCompoundGrowth(stmt: IncomeStatement, k: nat)
    requires k < |stmt.projections|
    ensures CalculateIncomeStatement(stmt).projections[k].revenue ==
            stmt.historical.revenue * GrowthFactor(stmt.projections, k + 1)
  {
    hide CalculateIncomeStatement, CalculateHistorical, ProjectFrom, ProjectYear,
      OperatingLines, TaxLines, SameDrivers, Taxes, Pct, Max;
    var r := CalculateIncomeStatement(stmt).projections;
    var ps := stmt.projections;
    if k > 0 {
      RevenueIsCompoundGrowth(stmt, k - 1);
      var h := stmt.historical.revenue;
      var g := GrowthFactor(ps, k);
      var rate := ps[k].revenueGrowthPct;
      assert r[k].revenue == Grow(r[k - 1].revenue, rate);
      assert GrowthFactor(ps, k + 1) == Grow(g, rate);
      GrowScales(h, g, rate);
    }
  }

  /** Growth commutes with scaling. */
  lemma GrowScales(h: real, g: real, rate: real)
    ensures Grow(h * g, rate) == h * Grow(g, rate)
  {
  }

  /** The interest reset of `calculateModel` (lbo-model.js:1064-1066). */
  function ZeroInterest(ps: seq<ProjectionYear>): (r: seq<ProjectionYear>)
    ensures |r| == |ps|
    ensures forall i :: 0 <= i < |ps| ==> r[i] == ps[i].(interestExpense := 0.0)
  {
    seq(|ps|, i requires 0 <= i < |ps| => ps[i].(interestExpense := 0.0))
  }

  /** Re-derivation of EBT, taxes and net income from the final interest
      (lbo-model.js:1074-1078): only those three fields change. */
  function RecomputeTail(p: ProjectionYear): (r: ProjectionYear)
    ensures TaxLines(r)
    ensures r.(ebt := p.ebt, taxes := p.taxes, netIncome := p.netIncome) == p
  {
    var ebt := p.ebit - p.interestExpense;
    var taxes := Taxes(ebt, p.taxRate);
    p.(ebt := ebt, taxes := taxes, netIncome := ebt - taxes)
  }

  function RecomputeTails(ps: seq<ProjectionYear>): (r: seq<ProjectionYear>)
    ensures |r| == |ps|
    ensures forall i :: 0 <= i < |ps| ==> r[i] == RecomputeTail(ps[i])
  {
    seq(|ps|, i requires 0 <= i < |ps| => RecomputeTail(ps[i]))
  }

  /** The second pass is a fixed point of itself, and it agrees with the
      first pass while interest is still 0: re-deriving the tail only
      matters once the debt schedule has written interest. */
  lemma RecomputeTailAgreesWithFirstPass(stmt: IncomeStatement, p: ProjectionYear)
    ensures RecomputeTail(RecomputeTail(p)) == RecomputeTail(p)
    ensures RecomputeTails(CalculateIncomeStatement(stmt).projections) ==
            CalculateIncomeStatement(stmt).projections
  {
    var r := CalculateIncomeStatement(stmt).projections;
    assert forall i :: 0 <= i < |r| ==> RecomputeTail(r[i]) == r[i];
  }
}
