/** Equity returns at exit (lbo-model.js:711-791): the equity cash-flow
    vector, MOIC, cumulative cash, the split of the return between
    distributions and exit value, and the management / sponsor split. */
module Returns {
  import opened Numbers
  import opened IncomeStatement
  import opened DebtSchedule
  import opened CashFlow
  import opened Sweep

  /** One class of equity holder. */
  datatype EquityReturns = EquityReturns(initialEquity: real, exitEquity: real, moic: Option<real>, irr: real)

  datatype Holders = Holders(management: EquityReturns, sponsor: EquityReturns)

  /** Shares of the total return, as percentages. */
  datatype Attribution = Attribution(cashFlows: Option<real>, exitValue: Option<real>)

  datatype Returns = Returns(
    exitYear: int,
    exitMultiple: real,
    initialEquity: real,
    exitEquity: real,
    moic: Option<real>,
    irr: real,
    cashFlows: seq<real>,
    cumulativeCashFlows: seq<real>,
    cashFlowAttribution: Option<real>,
    exitValueAttribution: Option<real>,
    management: EquityReturns,
    sponsor: EquityReturns)

  function FcfsToEquity(flows: seq<CashFlowYear>): (r: seq<real>)
    ensures |r| == |flows|
    ensures forall i :: 0 <= i < |flows| ==> r[i] == flows[i].fcfToEquity
  {
    seq(|flows|, i requires 0 <= i < |flows| => flows[i].fcfToEquity)
  }

  /** The equity cash-flow vector for an exit after year `exitYear`, where
      `fcfs[k - 1]` is the cash to equity of year `k`: the investment paid
      out first, then the yearly distributions, and last the exit equity
      together with the exit year's distribution. As written
      (lbo-model.js:720-742) the distributions are those of every year but
      the exit year, later years included; corrected, only the years
      before the exit. */
  function EquityCashFlows(rule: Rule, equity: real, fcfs: seq<real>, exitEquity: real, exitYear: int)
    : (r: seq<real>)
    requires 1 <= exitYear <= |fcfs|
    ensures |r| == (if rule.AsWritten? then |fcfs| + 1 else exitYear + 1)
    ensures r[0] == -equity
    ensures forall k :: 1 <= k < exitYear ==> r[k] == fcfs[k - 1]
    ensures r[|r| - 1] == exitEquity + fcfs[exitYear - 1]
    ensures rule.AsWritten? ==> forall k {:trigger r[k]} :: exitYear <= k < |fcfs| ==> r[k] == fcfs[k]
  {
    var interim := if rule.AsWritten? then fcfs[..exitYear - 1] + fcfs[exitYear..] else fcfs[..exitYear - 1];
    [-equity] + interim + [exitEquity + fcfs[exitYear - 1]]
  }

  /** The cash returned to equity: every element after the investment, as
      the `reduce` that skips index 0 adds them. */
  function Returned(cfs: seq<real>): real {
    if |cfs| == 0 then 0.0 else Sum(cfs[1..])
  }

  /** The vector laid out as three pieces: investment, distributions, exit. */
  lemma EquityCashFlowsPieces(rule: Rule, equity: real, fcfs: seq<real>, exitEquity: real, exitYear: int)
    requires 1 <= exitYear <= |fcfs|
    ensures EquityCashFlows(rule, equity, fcfs, exitEquity, exitYear)[1..] ==
      (if rule.AsWritten? then fcfs[..exitYear - 1] + fcfs[exitYear..] else fcfs[..exitYear - 1]) +
      [exitEquity + fcfs[exitYear - 1]]
  {
  }

  /** A sequence cut around position `x - 1`. */
  lemma CutAround(s: seq<real>, x: int)
    requires 1 <= x <= |s|
    ensures s[..x] == s[..x - 1] + [s[x - 1]]
    ensures s == s[..x] + s[x..]
  {
  }

  /** As written, the cash returned is every year's distribution plus the
      exit equity, whichever year the exit is in. */
  lemma AsWrittenReturnsEveryYear(equity: real, fcfs: seq<real>, exitEquity: real, exitYear: int)
    requires 1 <= exitYear <= |fcfs|
    ensures Returned(EquityCashFlows(AsWritten, equity, fcfs, exitEquity, exitYear)) ==
            Sum(fcfs) + exitEquity
  {
    hide EquityCashFlows, Sum, Returned;
    ReturnedAsWritten(equity, fcfs, exitEquity, exitYear);
    SumWithout(fcfs, exitYear);
  }

  /** As written, the cash returned is the distributions of every year but
      the exit year, plus the exit year's distribution and exit equity. */
  lemma ReturnedAsWritten(equity: real, fcfs: seq<real>, exitEquity: real, exitYear: int)
    requires 1 <= exitYear <= |fcfs|
    ensures Returned(EquityCashFlows(AsWritten, equity, fcfs, exitEquity, exitYear)) ==
            Sum(fcfs[..exitYear - 1] + fcfs[exitYear..]) + (exitEquity + fcfs[exitYear - 1])
  {
    hide EquityCashFlows, Sum;
    EquityCashFlowsPieces(AsWritten, equity, fcfs, exitEquity, exitYear);
    SumAppend(fcfs[..exitYear - 1] + fcfs[exitYear..], exitEquity + fcfs[exitYear - 1]);
  }

  /** Leaving one element out of a running total takes exactly that
      element off it. */
  lemma SumWithout(s: seq<real>, x: int)
    requires 1 <= x <= |s|
    ensures Sum(s[..x - 1] + s[x..]) + s[x - 1] == Sum(s)
  {
    hide Sum;
    var head, tail := s[..x - 1], s[x..];
    SumConcat(head, tail);
    CutAround(s, x);
    SumConcat(s[..x], tail);
    SumAppend(head, s[x - 1]);
  }

  /** Corrected, the cash returned is the distributions of the holding
      period, years 1..exitYear, plus the exit equity. */
  lemma CorrectedReturnsHoldingPeriod(equity: real, fcfs: seq<real>, exitEquity: real, exitYear: int)
    requires 1 <= exitYear <= |fcfs|
    ensures Returned(EquityCashFlows(Corrected, equity, fcfs, exitEquity, exitYear)) ==
            Sum(fcfs[..exitYear]) + exitEquity
  {
    var v := EquityCashFlows(Corrected, equity, fcfs, exitEquity, exitYear);
    var x := exitYear;
    var head := fcfs[..x - 1];
    assert v[1..] == head + [exitEquity + fcfs[x - 1]];
    SumAppend(head, exitEquity + fcfs[x - 1]);
    assert fcfs[..x][..x - 1] == head;
  }

  /** The two vectors coincide when the exit is in the last projection
      year, the built-in exit year 5 of a 5-year horizon included. */
  lemma VectorsAgreeAtHorizonExit(equity: real, fcfs: seq<real>, exitEquity: real)
    requires |fcfs| >= 1
    ensures EquityCashFlows(AsWritten, equity, fcfs, exitEquity, |fcfs|) ==
            EquityCashFlows(Corrected, equity, fcfs, exitEquity, |fcfs|)
  {
    assert fcfs[|fcfs|..] == [];
  }

  /** Five years of 1 to equity, 10 invested and 10 of exit equity, exit
      after year 3: as written the vector carries years 4 and 5 ahead of
      the exit proceeds and returns 15, a MOIC of 1.5; corrected it stops
      at the exit and returns 13, a MOIC of 1.3. */
  lemma EarlyExitCountsLaterYears()
    ensures EquityCashFlows(AsWritten, 10.0, [1.0, 1.0, 1.0, 1.0, 1.0], 10.0, 3) ==
            [-10.0, 1.0, 1.0, 1.0, 1.0, 11.0]
    ensures EquityCashFlows(Corrected, 10.0, [1.0, 1.0, 1.0, 1.0, 1.0], 10.0, 3) ==
            [-10.0, 1.0, 1.0, 11.0]
    ensures Ratio(Returned([-10.0, 1.0, 1.0, 1.0, 1.0, 11.0]), 10.0) == Some(1.5)
    ensures Ratio(Returned([-10.0, 1.0, 1.0, 11.0]), 10.0) == Some(1.3)
  {
    var fcfs := [1.0, 1.0, 1.0, 1.0, 1.0];
    AsWrittenReturnsEveryYear(10.0, fcfs, 10.0, 3);
    CorrectedReturnsHoldingPeriod(10.0, fcfs, 10.0, 3);
    assert Sum([1.0]) == 1.0 by {
      assert [1.0][..0] == [];
    }
    assert Sum([1.0, 1.0]) == 2.0 by {
      assert [1.0, 1.0][..1] == [1.0];
    }
    assert Sum([1.0, 1.0, 1.0]) == 3.0 by {
      assert [1.0, 1.0, 1.0][..2] == [1.0, 1.0];
    }
    assert Sum([1.0, 1.0, 1.0, 1.0]) == 4.0 by {
      assert [1.0, 1.0, 1.0, 1.0][..3] == [1.0, 1.0, 1.0];
    }
    assert Sum(fcfs) == 5.0 by {
      assert fcfs[..4] == [1.0, 1.0, 1.0, 1.0];
    }
    assert fcfs[..3] == [1.0, 1.0, 1.0];
  }

  /** Running totals: element `i` is the sum of the first `i + 1` elements. */
  function Running(xs: seq<real>): (r: seq<real>)
    ensures |r| == |xs|
    ensures forall i :: 0 <= i < |xs| ==> r[i] == Sum(xs[..i + 1])
    decreases |xs|
  {
    if |xs| == 0 then []
    else
      var n := |xs| - 1;
      var p := Running(xs[..n]);
      var before := if n == 0 then 0.0 else p[n - 1];
      assert before == Sum(xs[..n]) by {
        if n > 0 {
          assert xs[..n][..n] == xs[..n];
        }
      }
      assert forall i :: 0 <= i < n ==> p[i] == Sum(xs[..i + 1]) by {
        forall i | 0 <= i < n ensures p[i] == Sum(xs[..i + 1]) {
          assert xs[..n][..i + 1] == xs[..i + 1];
        }
      }
      assert xs[..n + 1] == xs;
      p + [before + xs[n]]
  }

  /** `cumulativeCashFlows`: 0 against the investment, then the cash
      returned so far. */
  function CumulativeCashFlows(cfs: seq<real>): (r: seq<real>)
    ensures |r| == |cfs|
    ensures |cfs| > 0 ==> r[0] == 0.0
    ensures forall i :: 1 <= i < |cfs| ==> r[i] == Sum(cfs[1..i + 1])
  {
    if |cfs| == 0 then []
    else
      var r := [0.0] + Running(cfs[1..]);
      assert forall i :: 1 <= i < |cfs| ==> r[i] == Sum(cfs[1..i + 1]) by {
        forall i | 1 <= i < |cfs| ensures r[i] == Sum(cfs[1..i + 1]) {
          assert cfs[1..][..i] == cfs[1..i + 1];
        }
      }
      r
  }

  /** The last cumulative figure is the whole cash returned. */
  lemma CumulativeEndsAtReturned(cfs: seq<real>)
    requires |cfs| > 0
    ensures CumulativeCashFlows(cfs)[|cfs| - 1] == Returned(cfs)
  {
    if |cfs| > 1 {
      assert cfs[1..|cfs|] == cfs[1..];
    }
  }

  /** `part` as a percentage of `whole`; `None` where the program divides
      by zero. */
  function PercentOf(part: real, whole: real): (r: Option<real>)
    ensures r.None? <==> whole == 0.0
    ensures r.Some? ==> r.value * whole == part * 100.0
  {
    if whole == 0.0 then None else Some((part / whole) * 100.0)
  }

  /** The return attribution (lbo-model.js:767-774): the total return is
      MOIC times the investment, the exit value's share is the exit equity
      over it and the distributions' share the rest. Both shares exist
      together, exactly when MOIC is finite and the total return is not 0,
      and then they add up to 100%. */
  function Attribute(moic: Option<real>, initialEquity: real, exitEquity: real): (r: Attribution)
    ensures r.cashFlows.Some? <==> r.exitValue.Some?
    ensures r.cashFlows.Some? <==> moic.Some? && moic.value * initialEquity != 0.0
    ensures r.cashFlows.Some? ==>
      r.cashFlows.value + r.exitValue.value == 100.0 &&
      r.exitValue.value * (moic.value * initialEquity) == exitEquity * 100.0
  {
    match moic
    case None => Attribution(None, None)
    case Some(m) =>
      var total := m * initialEquity;
      var a := Attribution(PercentOf(total - exitEquity, total), PercentOf(exitEquity, total));
      assert a.cashFlows.Some? ==> a.cashFlows.value + a.exitValue.value == 100.0 by {
        if total != 0.0 {
          SharesAddUp(a.cashFlows.value, a.exitValue.value, total, exitEquity);
        }
      }
      a
  }

  /** The shares of a part and of the rest of a non-zero whole add up to
      100%. */
  lemma SharesAddUp(rest: real, part: real, whole: real, p: real)
    requires whole != 0.0
    requires rest * whole == (whole - p) * 100.0 && part * whole == p * 100.0
    ensures rest + part == 100.0
  {
    assert (rest + part - 100.0) * whole == 0.0;
  }

  /** The management / sponsor split (lbo-model.js:776-788): initial and
      exit equity in proportion to the management percentage and its
      complement, with the same MOIC and IRR for both. */
  function SplitReturns(initialEquity: real, exitEquity: real, moic: Option<real>, irr: real,
                        managementEquityPct: real): (r: Holders)
    ensures r.management.initialEquity == Pct(initialEquity, managementEquityPct)
    ensures r.management.exitEquity == Pct(exitEquity, managementEquityPct)
    ensures r.management.initialEquity + r.sponsor.initialEquity == initialEquity
    ensures r.management.exitEquity + r.sponsor.exitEquity == exitEquity
    ensures r.management.moic == moic && r.sponsor.moic == moic
    ensures r.management.irr == irr && r.sponsor.irr == irr
  {
    var m := managementEquityPct / 100.0;
    var s := 1.0 - m;
    Holders(EquityReturns(initialEquity * m, exitEquity * m, moic, irr),
            EquityReturns(initialEquity * s, exitEquity * s, moic, irr))
  }

  /** The cases `calculateIRR` answers 0 without searching
      (lbo-model.js:796-798): no cash flow after the first, or a single
      one after an investment of 0. */
  predicate IrrDegenerate(cfs: seq<real>) {
    |cfs| <= 1 || (|cfs| == 2 && cfs[0] == 0.0)
  }

  /** IRR: 0 in the degenerate cases, otherwise whatever the root finder
      `solver` returns. */
  function Irr(cfs: seq<real>, solver: seq<real> -> real): (r: real)
    ensures IrrDegenerate(cfs) ==> r == 0.0
    ensures !IrrDegenerate(cfs) ==> r == solver(cfs)
  {
    if IrrDegenerate(cfs) then 0.0 else solver(cfs)
  }

  /** Any vector the returns build produces goes to the root finder unless
      the exit is after year 1 of the corrected vector with nothing
      invested; the as-written vector of a horizon of two years or more
      always does. */
  lemma IrrReachesSolver(rule: Rule, equity: real, fcfs: seq<real>, exitEquity: real, exitYear: int,
                         solver: seq<real> -> real)
    requires 1 <= exitYear <= |fcfs|
    ensures var v := EquityCashFlows(rule, equity, fcfs, exitEquity, exitYear);
      Irr(v, solver) == (if |v| == 2 && equity == 0.0 then 0.0 else solver(v))
    ensures rule.AsWritten? && |fcfs| >= 2 ==>
      Irr(EquityCashFlows(rule, equity, fcfs, exitEquity, exitYear), solver) ==
      solver(EquityCashFlows(rule, equity, fcfs, exitEquity, exitYear))
  {
  }

  /** `calculateReturns`. Exit equity is exit-year EBITDA at the exit
      multiple less the debt outstanding at the end of that year; MOIC is
      the cash returned over the investment. */
  function CalculateReturns(rule: Rule, equity: real, managementEquityPct: real,
                            flows: seq<CashFlowYear>, ps: seq<ProjectionYear>, totals: seq<Entry>,
                            exitYear: int, exitMultiple: real, irrSolver: seq<real> -> real): (r: Returns)
    requires 1 <= exitYear <= |ps| && |flows| == |ps| && |totals| > |ps|
    ensures r.exitYear == exitYear && r.exitMultiple == exitMultiple && r.initialEquity == equity
    ensures r.exitEquity == ps[exitYear - 1].ebitda * exitMultiple - totals[exitYear].endingBalance
    ensures r.cashFlows == EquityCashFlows(rule, equity, FcfsToEquity(flows), r.exitEquity, exitYear)
    ensures r.moic == Ratio(Returned(r.cashFlows), equity)
    ensures r.irr == Irr(r.cashFlows, irrSolver)
    ensures r.cumulativeCashFlows == CumulativeCashFlows(r.cashFlows)
    ensures Attribution(r.cashFlowAttribution, r.exitValueAttribution) == Attribute(r.moic, equity, r.exitEquity)
    ensures Holders(r.management, r.sponsor) ==
            SplitReturns(equity, r.exitEquity, r.moic, r.irr, managementEquityPct)
  {
    var exitEquity := ps[exitYear - 1].ebitda * exitMultiple - totals[exitYear].endingBalance;
    var cfs := EquityCashFlows(rule, equity, FcfsToEquity(flows), exitEquity, exitYear);
    var moic := Ratio(Returned(cfs), equity);
    var irr := Irr(cfs, irrSolver);
    var a := Attribute(moic, equity, exitEquity);
    var h := SplitReturns(equity, exitEquity, moic, irr, managementEquityPct);
    Returns(exitYear, exitMultiple, equity, exitEquity, moic, irr, cfs, CumulativeCashFlows(cfs),
            a.cashFlows, a.exitValue, h.management, h.sponsor)
  }

  /** What the returns promise: MOIC is finite exactly when equity was
      invested, and then multiplies the investment back to the cash
      returned; the cumulative series ends at that cash; the total return
      in the attribution is that cash; and the two holder classes share
      the investment and the exit equity exactly. */
  lemma ReturnsAddUp(rule: Rule, equity: real, managementEquityPct: real,
                     flows: seq<CashFlowYear>, ps: seq<ProjectionYear>, totals: seq<Entry>,
                     exitYear: int, exitMultiple: real, irrSolver: seq<real> -> real)
    requires 1 <= exitYear <= |ps| && |flows| == |ps| && |totals| > |ps|
    ensures var r := CalculateReturns(rule, equity, managementEquityPct, flows, ps, totals,
                                      exitYear, exitMultiple, irrSolver);
      && (r.moic.Some? <==> equity != 0.0)
      && (r.moic.Some? ==> r.moic.value * equity == Returned(r.cashFlows))
      && r.cumulativeCashFlows[|r.cashFlows| - 1] == Returned(r.cashFlows)
      && (r.cashFlowAttribution.Some? <==> equity != 0.0 && Returned(r.cashFlows) != 0.0)
      && (r.cashFlowAttribution.Some? ==>
            r.cashFlowAttribution.value + r.exitValueAttribution.value == 100.0 &&
            r.exitValueAttribution.value * Returned(r.cashFlows) == r.exitEquity * 100.0)
      && r.management.initialEquity + r.sponsor.initialEquity == equity
      && r.management.exitEquity + r.sponsor.exitEquity == r.exitEquity
  {
    var r := CalculateReturns(rule, equity, managementEquityPct, flows, ps, totals,
                              exitYear, exitMultiple, irrSolver);
    CumulativeEndsAtReturned(r.cashFlows);
  }
}
