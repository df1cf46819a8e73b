/** Changing the projection horizon (lbo-model.js:83-132): the horizon is
    clamped to 5..10 years and the per-year arrays are cut or padded. */
module ProjectionYears {
  import opened IncomeStatement

  const MinYears: int := 5
  const MaxYears: int := 10

  /** The per-year inputs whose length is the horizon: the income statement
      projections and the cash-flow NWC and capex percentages. */
  datatype Horizon = Horizon(
    projections: seq<ProjectionYear>,
    nwcPercentages: seq<real>,
    capexPercentages: seq<real>)

  datatype Resized = Resized(years: int, horizon: Horizon)

  /** A new projection year numbered `year`: growth 5%, COGS 60%, SG&A 20%,
      D&A 3%, tax 25% and every derived figure 0. */
  function DefaultProjection(year: int): ProjectionYear {
    ProjectionYear(year, 5.0, 60.0, 20.0, 3.0, 25.0,
                   0.0, 0.0, 0.0, 0.0, 0.0, 0.0, 0.0, 0.0, 0.0, 0.0)
  }

  /** `Math.max(5, Math.min(10, years))`. */
  function ClampYears(years: int): (r: int)
    ensures MinYears <= r <= MaxYears
    ensures MinYears <= years <= MaxYears ==> r == years
    ensures years < MinYears ==> r == MinYears
    ensures years > MaxYears ==> r == MaxYears
  {
    if years > MaxYears then MaxYears else if years < MinYears then MinYears else years
  }

  /** `slice(0, n)` followed by pushing `pad` until the length is `n`. */
  function Fit(s: seq<real>, n: nat, pad: real): (r: seq<real>)
    ensures |r| == n
    ensures forall i :: 0 <= i < n && i < |s| ==> r[i] == s[i]
    ensures forall i :: |s| <= i < n ==> r[i] == pad
  {
    if |s| >= n then s[..n] else s + seq(n - |s|, _ => pad)
  }

  /** Truncate the projections to `n` years, or append default years
      numbered on from the current length. */
  function FitProjections(ps: seq<ProjectionYear>, n: nat): (r: seq<ProjectionYear>)
    ensures |r| == n
    ensures forall i :: 0 <= i < n && i < |ps| ==> r[i] == ps[i]
    ensures forall i :: |ps| <= i < n ==> r[i] == DefaultProjection(i + 1)
  {
    if |ps| > n then ps[..n]
    else ps + seq(n - |ps|, k requires 0 <= k < n - |ps| => DefaultProjection(|ps| + k + 1))
  }

  /** `updateProjectionYears`: afterwards all three arrays have exactly the
      clamped number of years, keep their existing prefix and are padded
      with the defaults (NWC 0%, capex 3%, a default projection year). */
  function UpdateProjectionYears(h: Horizon, years: int): (r: Resized)
    ensures r.years == ClampYears(years)
    ensures |r.horizon.projections| == r.years
    ensures |r.horizon.nwcPercentages| == r.years
    ensures |r.horizon.capexPercentages| == r.years
    ensures forall i :: 0 <= i < r.years && i < |h.projections| ==>
      r.horizon.projections[i] == h.projections[i]
    ensures forall i :: |h.projections| <= i < r.years ==>
      r.horizon.projections[i] == DefaultProjection(i + 1)
    ensures forall i :: 0 <= i < r.years && i < |h.nwcPercentages| ==>
      r.horizon.nwcPercentages[i] == h.nwcPercentages[i]
    ensures forall i :: |h.nwcPercentages| <= i < r.years ==> r.horizon.nwcPercentages[i] == 0.0
    ensures forall i :: 0 <= i < r.years && i < |h.capexPercentages| ==>
      r.horizon.capexPercentages[i] == h.capexPercentages[i]
    ensures forall i :: |h.capexPercentages| <= i < r.years ==>
      r.horizon.capexPercentages[i] == 3.0
  {
    var n := ClampYears(years);
    Resized(n, Horizon(FitProjections(h.projections, n),
                       Fit(h.nwcPercentages, n, 0.0),
                       Fit(h.capexPercentages, n, 3.0)))
  }

  /** Setting the same horizon twice is the same as setting it once. */
  lemma UpdateProjectionYearsIdempotent(h: Horizon, years: int)
    ensures var once := UpdateProjectionYears(h, years);
      UpdateProjectionYears(once.horizon, years) == once
  {
    var once := UpdateProjectionYears(h, years);
    var twice := UpdateProjectionYears(once.horizon, years);
    assert twice.horizon.projections == once.horizon.projections;
    assert twice.horizon.nwcPercentages == once.horizon.nwcPercentages;
    assert twice.horizon.capexPercentages == once.horizon.capexPercentages;
  }

  /** Lengthening the horizon and shortening it back again restores the
      original inputs: padding never overwrites an existing year. */
  lemma GrowThenShrinkRestores(h: Horizon, longer: int)
    requires MinYears <= |h.projections| <= MaxYears
    requires |h.nwcPercentages| == |h.projections| == |h.capexPercentages|
    requires longer >= |h.projections|
    ensures UpdateProjectionYears(UpdateProjectionYears(h, longer).horizon, |h.projections|).horizon == h
  {
    var grown := UpdateProjectionYears(h, longer).horizon;
    var back := UpdateProjectionYears(grown, |h.projections|).horizon;
    assert back.projections == h.projections;
    assert back.nwcPercentages == h.nwcPercentages;
    assert back.capexPercentages == h.capexPercentages;
  }
}
