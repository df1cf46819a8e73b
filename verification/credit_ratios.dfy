/** Credit ratios per projection year (lbo-model.js:486-510): leverage on
    the opening debt, interest cover and debt-service cover. */
module CreditRatios {
  import opened Numbers
  import opened IncomeStatement
  import opened DebtSchedule

  /** A ratio is `None` where the program divides by zero. */
  datatype CreditRatio = CreditRatio(
    year: int,
    debtToEbitda: Option<real>,
    interestCoverage: Option<real>,
    debtServiceCoverage: Option<real>)

  /** The ratios of one year from its projection and its debt totals. */
  function RatiosFor(year: int, p: ProjectionYear, t: Entry): (r: CreditRatio)
    ensures r.year == year
    ensures r.debtToEbitda.None? <==> p.ebitda == 0.0
    ensures r.debtToEbitda.Some? ==> r.debtToEbitda.value * p.ebitda == t.beginningBalance
    ensures r.interestCoverage.None? <==> t.interestExpense == 0.0
    ensures r.interestCoverage.Some? ==> r.interestCoverage.value * t.interestExpense == p.ebit
    ensures r.debtServiceCoverage.None? <==> t.interestExpense + t.totalAmortization == 0.0
    ensures r.debtServiceCoverage.Some? ==>
      r.debtServiceCoverage.value * (t.interestExpense + t.totalAmortization) == p.ebitda
  {
    CreditRatio(year,
                Ratio(t.beginningBalance, p.ebitda),
                Ratio(p.ebit, t.interestExpense),
                Ratio(p.ebitda, t.interestExpense + t.totalAmortization))
  }

  /** `calculateCreditRatios`: one record per projection year `y`, from
      projection `y - 1` and the totals of year `y`. */
  function CalculateCreditRatios(ps: seq<ProjectionYear>, totals: seq<Entry>): (r: seq<CreditRatio>)
    requires |totals| > |ps|
    ensures |r| == |ps|
    ensures forall i :: 0 <= i < |ps| ==> r[i] == RatiosFor(i + 1, ps[i], totals[i + 1])
  {
    seq(|ps|, i requires 0 <= i < |ps| => RatiosFor(i + 1, ps[i], totals[i + 1]))
  }
}
