/** The cash-sweep waterfall (lbo-model.js:571-683): year by year, surplus
    cash repays the tranches in seniority order, each tranche taking its
    sweep share of what is left, capped by its outstanding principal; the
    totals, the income-statement interest and the cash to equity are then
    rebuilt from the tranche schedules. */
module Sweep {
  import opened Numbers
  import opened IncomeStatement
  import opened DebtSchedule
  import opened CashFlow

  /** How a sweep is carried into the following years. `AsWritten` is the
      program's propagation (lbo-model.js:614-622): only the next year's
      opening balance, scheduled amortization and interest are re-derived.
      `Corrected` re-derives every later year from the new closing balance,
      so that each year still closes at its opening balance less its
      repayments. */
  datatype Rule = AsWritten | Corrected

  /** The extra repayment one tranche takes (lbo-model.js:596-605): its
      sweep share of the cash still unallocated, but no more than the
      principal left after the scheduled amortization. */
  function Allocation(remaining: real, da: DebtAssumption, e: Entry): (r: real)
    ensures r <= Pct(remaining, da.cashFlowSweepPct)
    ensures r <= e.beginningBalance - e.scheduledAmortization
    ensures r == Pct(remaining, da.cashFlowSweepPct) || r == e.beginningBalance - e.scheduledAmortization
  {
    Min(Pct(remaining, da.cashFlowSweepPct), e.beginningBalance - e.scheduledAmortization)
  }

  /** With cash on hand, a sweep share in [0, 100] and a scheduled amount
      within the balance, the allocation is neither negative nor more than
      the cash on hand, and never more than its cap. */
  lemma AllocationBounds(remaining: real, da: DebtAssumption, e: Entry)
    requires remaining >= 0.0 && 0.0 <= da.cashFlowSweepPct <= 100.0
    requires 0.0 <= e.scheduledAmortization <= e.beginningBalance
    ensures 0.0 <= Allocation(remaining, da, e) <= remaining
    ensures Allocation(remaining, da, e) <= Pct(remaining, da.cashFlowSweepPct)
    ensures Allocation(remaining, da, e) <= e.beginningBalance - e.scheduledAmortization
  {
    PctAtMostWhole(remaining, da.cashFlowSweepPct);
  }

  /** A tranche-year after an extra repayment `a` (lbo-model.js:607-612):
      only the additional and total amortization and the closing balance
      change, and they keep the ledger identities. */
  function Swept(e: Entry, a: real): (r: Entry)
    ensures r.(additionalAmortization := e.additionalAmortization,
               totalAmortization := e.totalAmortization,
               endingBalance := e.endingBalance) == e
    ensures r.additionalAmortization == a
    ensures r.totalAmortization == r.scheduledAmortization + a
    ensures r.beginningBalance - r.totalAmortization == r.endingBalance
    ensures a <= e.beginningBalance - e.scheduledAmortization ==> Ledger(r)
  {
    var total := e.scheduledAmortization + a;
    e.(additionalAmortization := a, totalAmortization := total,
       endingBalance := e.beginningBalance - total)
  }

  /** The next year after a sweep, as the program re-derives it
      (lbo-model.js:614-622): a new opening balance, with scheduled
      amortization and interest recomputed from it and every other field,
      the closing balance included, left as it was. */
  function Reopened(e: Entry, opening: real, da: DebtAssumption): (r: Entry)
    ensures r.(beginningBalance := e.beginningBalance,
               scheduledAmortization := e.scheduledAmortization,
               interestExpense := e.interestExpense) == e
    ensures r.beginningBalance == opening
    ensures r.scheduledAmortization == Pct(opening, da.amortizationPct)
    ensures r.interestExpense == Pct(opening, da.interestRate)
  {
    e.(beginningBalance := opening,
       scheduledAmortization := Pct(opening, da.amortizationPct),
       interestExpense := Pct(opening, da.interestRate))
  }

  /** Two chained runs joined where the second opens at the first's close
      make one chained run. */
  lemma ChainedJoin(p: seq<Entry>, q: seq<Entry>)
    requires Chained(p) && Chained(q)
    requires |p| > 0 && |q| > 0 ==> q[0].beginningBalance == p[|p| - 1].endingBalance
    ensures Chained(p + q)
  {
    var s := p + q;
    forall i, j | 0 <= i < j < |s| && j == i + 1
      ensures s[j].beginningBalance == s[i].endingBalance
    {
      if j < |p| {
        assert s[i] == p[i] && s[j] == p[j];
      } else if i >= |p| {
        assert s[i] == q[i - |p|] && s[j] == q[j - |p|];
      } else {
        assert s[i] == p[|p| - 1] && s[j] == q[0];
      }
    }
  }

  /** One tranche's schedule after an extra repayment `a` in year `y`:
      earlier years are untouched and year `y` is swept. What happens to
      the later years depends on the rule (`SweepTrancheAsWritten`,
      `SweepTrancheCorrected`). */
  function SweepTranche(rule: Rule, s: seq<Entry>, da: DebtAssumption, y: nat, a: real): (r: seq<Entry>)
    requires 1 <= y < |s|
    ensures |r| == |s| && r[..y] == s[..y]
    ensures r[y] == Swept(s[y], a)
  {
    var e := Swept(s[y], a);
    match rule
    case AsWritten =>
      if y + 1 < |s| then s[y := e][y + 1 := Reopened(s[y + 1], e.endingBalance, da)]
      else s[y := e]
    case Corrected =>
      s[..y] + [e] + ScheduledTail(da, e.endingBalance, y + 1, |s| - 1)
  }

  /** As written, the sweep reopens only the next year at the new close
      and leaves every year after that as it was. */
  lemma SweepTrancheAsWritten(s: seq<Entry>, da: DebtAssumption, y: nat, a: real)
    requires 1 <= y < |s|
    ensures var r := SweepTranche(AsWritten, s, da, y, a);
      && (forall k :: y + 1 < k < |s| ==> r[k] == s[k])
      && (y + 1 < |s| ==> r[y + 1] == Reopened(s[y + 1], r[y].endingBalance, da))
  {
  }

  /** As written, any extra repayment in a balanced year that had none
      before breaks the ledger of the year after: that year opens lower by
      exactly the repayment but still closes where it did. */
  lemma AsWrittenBreaksNextLedger(s: seq<Entry>, da: DebtAssumption, y: nat, a: real)
    requires 1 <= y && y + 1 < |s| && Balanced(s)
    requires s[y].additionalAmortization == 0.0 && a != 0.0
    ensures var r := SweepTranche(AsWritten, s, da, y, a);
      && r[y + 1].beginningBalance == s[y + 1].beginningBalance - a
      && r[y + 1].endingBalance == s[y + 1].endingBalance
      && r[y + 1].totalAmortization == s[y + 1].totalAmortization
      && !Ledger(r[y + 1])
  {
  }

  /** Corrected, the sweep replaces every later year by the scheduled pass
      from the new close. */
  lemma SweepTrancheCorrected(s: seq<Entry>, da: DebtAssumption, y: nat, a: real)
    requires 1 <= y < |s|
    ensures var r := SweepTranche(Corrected, s, da, y, a);
      && r[y + 1..] == ScheduledTail(da, r[y].endingBalance, y + 1, |s| - 1)
      && (forall k :: y < k < |s| ==> r[k].year == k && ScheduledOnly(r[k], da))
      && (y + 1 < |s| ==> r[y + 1].beginningBalance == r[y].endingBalance)
  {
    var r := SweepTranche(Corrected, s, da, y, a);
    var tail := ScheduledTail(da, r[y].endingBalance, y + 1, |s| - 1);
    assert r == s[..y] + [r[y]] + tail;
    assert forall k :: y < k < |s| ==> r[k] == tail[k - y - 1];
  }

  /** A schedule that opens each year at the previous close and keeps the
      ledger in every projection year. */
  ghost predicate Balanced(s: seq<Entry>) {
    Chained(s) && LedgerFrom(s, 1)
  }

  /** Under the corrected rule a sweep, whatever its size within the cap,
      leaves a balanced schedule balanced. */
  lemma CorrectedSweepKeepsBalance(s: seq<Entry>, da: DebtAssumption, y: nat, a: real)
    requires 1 <= y < |s| && Balanced(s)
    requires a <= s[y].beginningBalance - s[y].scheduledAmortization
    ensures Balanced(SweepTranche(Corrected, s, da, y, a))
  {
    var r := SweepTranche(Corrected, s, da, y, a);
    var e := Swept(s[y], a);
    var tail := ScheduledTail(da, e.endingBalance, y + 1, |s| - 1);
    SweepTrancheCorrected(s, da, y, a);
    assert r == s[..y] + [e] + tail;
    assert Chained(s[..y]) by {
      forall i, j | 0 <= i < j < y && j == i + 1
        ensures s[..y][j].beginningBalance == s[..y][i].endingBalance
      {
        assert s[..y][i] == s[i] && s[..y][j] == s[j];
      }
    }
    assert s[y].beginningBalance == s[y - 1].endingBalance;
    ChainedJoin(s[..y], [e]);
    ChainedJoin(s[..y] + [e], tail);
    forall k | 1 <= k < |r| ensures Ledger(r[k]) {
      if k < y {
        assert r[k] == s[k];
      } else if k > y {
        assert ScheduledOnly(r[k], da);
      }
    }
  }

  /** Two lists of tranche schedules with the same names and lengths. */
  predicate SameShape(a: seq<TrancheSchedule>, b: seq<TrancheSchedule>) {
    |a| == |b| &&
    forall i :: 0 <= i < |a| ==> a[i].name == b[i].name && |a[i].schedule| == |b[i].schedule|
  }

  /** Every tranche carries year `y`. */
  predicate HasYear(ts: seq<TrancheSchedule>, y: nat) {
    forall i :: 0 <= i < |ts| ==> y < |ts[i].schedule|
  }

  /** The two lists agree on every tranche-year before year `y`. */
  predicate AgreeBefore(a: seq<TrancheSchedule>, b: seq<TrancheSchedule>, y: nat)
    requires SameShape(a, b)
  {
    forall i, j :: 0 <= i < |a| && 0 <= j < y && j < |a[i].schedule| ==>
      a[i].schedule[j] == b[i].schedule[j]
  }

  /** The state of one year's waterfall: the schedules, the cash not yet
      allocated, and how many tranches were visited before it stopped. */
  datatype Waterfall = Waterfall(tranches: seq<TrancheSchedule>, remaining: real, visited: nat)

  /** One year of the waterfall (lbo-model.js:590-638): the tranches are
      visited in list order, each takes its allocation, and the visit stops
      once the cash left is no longer positive. */
  function Allocate(rule: Rule, ts: seq<TrancheSchedule>, das: seq<DebtAssumption>, y: nat,
                    remaining: real): (r: Waterfall)
    requires |ts| == |das| && 1 <= y && HasYear(ts, y)
    ensures SameShape(r.tranches, ts) && AgreeBefore(r.tranches, ts, y)
    decreases |ts|
  {
    if |ts| == 0 then Waterfall([], remaining, 0)
    else
      var a := Allocation(remaining, das[0], ts[0].schedule[y]);
      var t := ts[0].(schedule := SweepTranche(rule, ts[0].schedule, das[0], y, a));
      var left := remaining - a;
      if left <= 0.0 then Waterfall([t] + ts[1..], left, 1)
      else
        var rest := Allocate(rule, ts[1..], das[1..], y, left);
        Waterfall([t] + rest.tranches, rest.remaining, rest.visited + 1)
  }

  /** One step of the waterfall, as a fact about `Allocate` that the
      proofs below use with its body hidden. */
  lemma AllocateStep(rule: Rule, ts: seq<TrancheSchedule>, das: seq<DebtAssumption>, y: nat,
                     remaining: real)
    requires |ts| == |das| && 1 <= y && HasYear(ts, y)
    ensures |ts| == 0 ==> Allocate(rule, ts, das, y, remaining) == Waterfall([], remaining, 0)
    ensures |ts| > 0 ==>
      var a := Allocation(remaining, das[0], ts[0].schedule[y]);
      var t := ts[0].(schedule := SweepTranche(rule, ts[0].schedule, das[0], y, a));
      var r := Allocate(rule, ts, das, y, remaining);
      if remaining - a <= 0.0 then r == Waterfall([t] + ts[1..], remaining - a, 1)
      else
        var rest := Allocate(rule, ts[1..], das[1..], y, remaining - a);
        r == Waterfall([t] + rest.tranches, rest.remaining, rest.visited + 1)
  {
    hide SweepTranche, Swept, Reopened, ScheduledTail, ScheduledEntry, Allocation, Pct, Min,
      Ledger, ScheduledOnly, ColumnSum, AddEntries, SameShape, AgreeBefore;
  }

  /** The waterfall visits at least the first tranche; it stops early only
      once the cash is used up, and leaves every tranche after the last one
      it visited as it was. */
  lemma {:induction false} AllocateStopsWhenCashRunsOut(rule: Rule, ts: seq<TrancheSchedule>,
                                                       das: seq<DebtAssumption>, y: nat, remaining: real)
    requires |ts| == |das| && 1 <= y && HasYear(ts, y)
    ensures var r := Allocate(rule, ts, das, y, remaining);
      && r.visited <= |ts| && (|ts| > 0 ==> r.visited >= 1)
      && (forall i :: r.visited <= i < |ts| ==> r.tranches[i] == ts[i])
      && (r.visited < |ts| ==> r.remaining <= 0.0)
    decreases |ts|
  {
    hide SweepTranche, Swept, Reopened, ScheduledTail, ScheduledEntry, Allocation, Pct, Min,
      Ledger, ScheduledOnly, ColumnSum, AddEntries, Allocate, AgreeBefore;
    AllocateStep(rule, ts, das, y, remaining);
    var r := Allocate(rule, ts, das, y, remaining);
    if |ts| > 0 {
      var a := Allocation(remaining, das[0], ts[0].schedule[y]);
      if remaining - a > 0.0 {
        var rest := Allocate(rule, ts[1..], das[1..], y, remaining - a);
        AllocateStopsWhenCashRunsOut(rule, ts[1..], das[1..], y, remaining - a);
        forall i | r.visited <= i < |ts| ensures r.tranches[i] == ts[i] {
          assert r.tranches[i] == rest.tranches[i - 1];
        }
      } else {
        forall i | r.visited <= i < |ts| ensures r.tranches[i] == ts[i] {
          assert r.tranches[i] == ts[1..][i - 1];
        }
      }
    }
  }

  /** A tranche-year the waterfall has not yet reached: no extra repayment,
      and a scheduled amount within the opening balance. */
  predicate Unswept(e: Entry) {
    e.additionalAmortization == 0.0 && 0.0 <= e.scheduledAmortization <= e.beginningBalance
  }

  /** Every tranche-year from year `y` on is still unswept. */
  predicate UnsweptFrom(ts: seq<TrancheSchedule>, y: nat) {
    forall i, k :: 0 <= i < |ts| && y <= k < |ts[i].schedule| ==> Unswept(ts[i].schedule[k])
  }

  /** No tranche ever closes a year below zero. */
  predicate EndingsNonnegative(ts: seq<TrancheSchedule>) {
    forall i, k :: 0 <= i < |ts| && 0 <= k < |ts[i].schedule| ==> ts[i].schedule[k].endingBalance >= 0.0
  }

  /** Sweep shares and amortization rates are percentages in [0, 100]. */
  predicate RatesInRange(das: seq<DebtAssumption>) {
    forall i :: 0 <= i < |das| ==>
      0.0 <= das[i].cashFlowSweepPct <= 100.0 && 0.0 <= das[i].amortizationPct <= 100.0
  }

  /** Year `y` summed over tranches none of which has an extra repayment
      there has no extra repayment in total. */
  lemma {:induction false} NoAdditionalInColumn(ts: seq<TrancheSchedule>, y: nat)
    requires HasYear(ts, y)
    requires forall i :: 0 <= i < |ts| ==> ts[i].schedule[y].additionalAmortization == 0.0
    ensures ColumnSum(ts, y).additionalAmortization == 0.0
    decreases |ts|
  {
    if |ts| > 0 {
      NoAdditionalInColumn(ts[1..], y);
    }
  }

  /** The scheduled pass from a non-negative balance at rates in [0, 100]
      leaves every year unswept and closing at or above zero. */
  lemma TailUnswept(da: DebtAssumption, beginning: real, y: nat, n: nat)
    requires y <= n + 1 && beginning >= 0.0 && 0.0 <= da.amortizationPct <= 100.0
    ensures forall k :: 0 <= k < n + 1 - y ==>
      Unswept(ScheduledTail(da, beginning, y, n)[k]) &&
      ScheduledTail(da, beginning, y, n)[k].endingBalance >= 0.0
  {
    var r := ScheduledTail(da, beginning, y, n);
    forall k | 0 <= k < n + 1 - y ensures Unswept(r[k]) && r[k].endingBalance >= 0.0 {
      assert ScheduledOnly(r[k], da);
    }
  }

  /** One tranche swept in year `y` by an allocation within its cap stays
      sound: years before `y` are untouched, no year closes below zero, and
      every later year is still unswept. */
  lemma SweptTrancheSound(rule: Rule, s: seq<Entry>, da: DebtAssumption, y: nat, a: real)
    requires 1 <= y < |s| && 0.0 <= da.amortizationPct <= 100.0
    requires a <= s[y].beginningBalance - s[y].scheduledAmortization
    requires forall k :: y <= k < |s| ==> Unswept(s[k])
    requires forall k :: 0 <= k < |s| ==> s[k].endingBalance >= 0.0
    ensures var r := SweepTranche(rule, s, da, y, a);
      && (forall k :: y < k < |r| ==> Unswept(r[k]))
      && (forall k :: 0 <= k < |r| ==> r[k].endingBalance >= 0.0)
  {
    hide SweepTranche, Reopened, ScheduledTail, ScheduledEntry, Allocation, Min;
    var r := SweepTranche(rule, s, da, y, a);
    assert Ledger(r[y]);
    var opening := r[y].endingBalance;
    match rule
    case AsWritten =>
      SweepTrancheAsWritten(s, da, y, a);
      if y + 1 < |s| {
        PctAtMostWhole(opening, da.amortizationPct);
        assert Unswept(r[y + 1]);
      }
      forall k | 0 <= k < |r| ensures r[k].endingBalance >= 0.0 {
        if k < y {
          assert r[k] == r[..y][k] == s[..y][k];
        }
      }
    case Corrected =>
      SweepTrancheCorrected(s, da, y, a);
      var tail := ScheduledTail(da, opening, y + 1, |s| - 1);
      TailUnswept(da, opening, y + 1, |s| - 1);
      forall k | 0 <= k < |r| ensures r[k].endingBalance >= 0.0 && (k > y ==> Unswept(r[k])) {
        if k < y {
          assert r[k] == r[..y][k] == s[..y][k];
        } else if k > y {
          assert r[k] == r[y + 1..][k - y - 1] == tail[k - y - 1];
        }
      }
  }

  /** One year of the waterfall with `remaining` cash on hand, sweep
      shares in [0, 100] and every tranche unswept in that year: the cash
      left over is between 0 and what there was, and the year's extra
      repayments add up to exactly the cash handed out, so never more than
      was on hand. */
  lemma {:induction false} AllocateSweepsCash(rule: Rule, ts: seq<TrancheSchedule>,
                                              das: seq<DebtAssumption>, y: nat, remaining: real)
    requires |ts| == |das| && 1 <= y && HasYear(ts, y)
    requires remaining >= 0.0 && RatesInRange(das) && UnsweptFrom(ts, y)
    ensures var r := Allocate(rule, ts, das, y, remaining);
      && 0.0 <= r.remaining <= remaining
      && ColumnSum(r.tranches, y).additionalAmortization == remaining - r.remaining
    decreases |ts|
  {
    hide SweepTranche, Swept, Reopened, ScheduledTail, ScheduledEntry, Allocation, Pct, Min,
      Ledger, ScheduledOnly, ColumnSum, AddEntries, EndingsNonnegative, Allocate;
    var r := Allocate(rule, ts, das, y, remaining);
    if |ts| > 0 {
      AllocateStep(rule, ts, das, y, remaining);
      var e := ts[0].schedule[y];
      assert Unswept(e);
      var a := Allocation(remaining, das[0], e);
      AllocationBounds(remaining, das[0], e);
      var t := ts[0].(schedule := SweepTranche(rule, ts[0].schedule, das[0], y, a));
      assert t.schedule[y].additionalAmortization == a;
      var left := remaining - a;
      if left <= 0.0 {
        assert r == Waterfall([t] + ts[1..], left, 1);
        assert r.tranches[1..] == ts[1..];
        NoAdditionalInColumn(ts[1..], y);
        assert ColumnSum(r.tranches[1..], y).additionalAmortization == 0.0;
      } else {
        var rest := Allocate(rule, ts[1..], das[1..], y, left);
        AllocateSweepsCash(rule, ts[1..], das[1..], y, left);
        assert r == Waterfall([t] + rest.tranches, rest.remaining, rest.visited + 1);
        assert r.tranches[1..] == rest.tranches;
      }
      ColumnAdditionalSplits(r.tranches, y);
    } else {
      AllocateStep(rule, ts, das, y, remaining);
      ColumnAdditionalSplits(r.tranches, y);
    }
  }

  /** The first tranche's part of `UnsweptFrom` and `EndingsNonnegative`,
      and the rest's. */
  lemma SoundHead(ts: seq<TrancheSchedule>, y: nat)
    requires |ts| > 0 && UnsweptFrom(ts, y) && EndingsNonnegative(ts)
    ensures forall k :: y <= k < |ts[0].schedule| ==> Unswept(ts[0].schedule[k])
    ensures forall k :: 0 <= k < |ts[0].schedule| ==> ts[0].schedule[k].endingBalance >= 0.0
    ensures UnsweptFrom(ts[1..], y) && EndingsNonnegative(ts[1..])
  {
    forall i, k | 0 <= i < |ts[1..]| && y <= k < |ts[1..][i].schedule|
      ensures Unswept(ts[1..][i].schedule[k])
    {
      assert ts[1..][i] == ts[i + 1];
    }
    forall i, k | 0 <= i < |ts[1..]| && 0 <= k < |ts[1..][i].schedule|
      ensures ts[1..][i].schedule[k].endingBalance >= 0.0
    {
      assert ts[1..][i] == ts[i + 1];
    }
  }

  /** `UnsweptFrom` and `EndingsNonnegative` of a tranche put in front. */
  lemma SoundCons(t: TrancheSchedule, rest: seq<TrancheSchedule>, y: nat)
    requires forall k :: y <= k < |t.schedule| ==> Unswept(t.schedule[k])
    requires forall k :: 0 <= k < |t.schedule| ==> t.schedule[k].endingBalance >= 0.0
    requires UnsweptFrom(rest, y) && EndingsNonnegative(rest)
    ensures UnsweptFrom([t] + rest, y) && EndingsNonnegative([t] + rest)
  {
    var r := [t] + rest;
    forall i, k | 0 <= i < |r| && y <= k < |r[i].schedule| ensures Unswept(r[i].schedule[k]) {
      if i > 0 {
        assert r[i] == rest[i - 1];
      }
    }
    forall i, k | 0 <= i < |r| && 0 <= k < |r[i].schedule| ensures r[i].schedule[k].endingBalance >= 0.0 {
      if i > 0 {
        assert r[i] == rest[i - 1];
      }
    }
  }

  /** One year of the waterfall, whatever the cash, on tranches unswept
      from that year on and closing at or above zero, at amortization rates
      in [0, 100]: no balance closes below zero afterwards and every later
      year is still unswept. */
  lemma {:induction false} AllocateKeepsSound(rule: Rule, ts: seq<TrancheSchedule>,
                                              das: seq<DebtAssumption>, y: nat, remaining: real)
    requires |ts| == |das| && 1 <= y && HasYear(ts, y)
    requires RatesInRange(das) && UnsweptFrom(ts, y) && EndingsNonnegative(ts)
    ensures var r := Allocate(rule, ts, das, y, remaining);
      && HasYear(r.tranches, y) && UnsweptFrom(r.tranches, y + 1) && EndingsNonnegative(r.tranches)
    decreases |ts|
  {
    hide SweepTranche, Swept, Reopened, ScheduledTail, ScheduledEntry, Allocation, Pct, Min,
      Ledger, ScheduledOnly, ColumnSum, AddEntries, Allocate, AgreeBefore;
    var r := Allocate(rule, ts, das, y, remaining);
    if |ts| > 0 {
      hide UnsweptFrom, EndingsNonnegative, Unswept;
      AllocateStep(rule, ts, das, y, remaining);
      SoundHead(ts, y);
      var e := ts[0].schedule[y];
      var a := Allocation(remaining, das[0], e);
      var t := ts[0].(schedule := SweepTranche(rule, ts[0].schedule, das[0], y, a));
      assert 0.0 <= das[0].amortizationPct <= 100.0;
      SweptTrancheSound(rule, ts[0].schedule, das[0], y, a);
      var left := remaining - a;
      var rest := if left <= 0.0 then ts[1..] else Allocate(rule, ts[1..], das[1..], y, left).tranches;
      if left > 0.0 {
        assert RatesInRange(das[1..]);
        AllocateKeepsSound(rule, ts[1..], das[1..], y, left);
      } else {
        UnsweptLater(ts[1..], y);
      }
      assert r.tranches == [t] + rest;
      SoundCons(t, rest, y + 1);
    } else {
      AllocateStep(rule, ts, das, y, remaining);
    }
  }

  /** Unswept from year `y` means unswept from year `y + 1`. */
  lemma UnsweptLater(ts: seq<TrancheSchedule>, y: nat)
    requires UnsweptFrom(ts, y)
    ensures UnsweptFrom(ts, y + 1)
  {
  }

  /** The extra repayment of a year, summed over the tranches, is 0 for no
      tranches and otherwise the first tranche's plus the rest's. */
  lemma ColumnAdditionalSplits(ts: seq<TrancheSchedule>, y: nat)
    requires HasYear(ts, y)
    ensures |ts| == 0 ==> ColumnSum(ts, y).additionalAmortization == 0.0
    ensures |ts| > 0 ==>
      ColumnSum(ts, y).additionalAmortization ==
      ts[0].schedule[y].additionalAmortization + ColumnSum(ts[1..], y).additionalAmortization
  {
  }

  /** Every tranche's schedule is balanced. */
  ghost predicate AllBalanced(ts: seq<TrancheSchedule>) {
    forall i :: 0 <= i < |ts| ==> Balanced(ts[i].schedule)
  }

  /** Under the corrected rule one year of the waterfall keeps every
      schedule balanced, whatever the cash on hand. */
  lemma {:induction false} CorrectedAllocateKeepsBalance(ts: seq<TrancheSchedule>,
                                                         das: seq<DebtAssumption>, y: nat, remaining: real)
    requires |ts| == |das| && 1 <= y && HasYear(ts, y) && AllBalanced(ts)
    ensures AllBalanced(Allocate(Corrected, ts, das, y, remaining).tranches)
    decreases |ts|
  {
    hide SweepTranche, Swept, Reopened, ScheduledTail, ScheduledEntry, Allocation, Pct, Min,
      Ledger, ScheduledOnly;
    var r := Allocate(Corrected, ts, das, y, remaining);
    if |ts| > 0 {
      var e := ts[0].schedule[y];
      var a := Allocation(remaining, das[0], e);
      assert Balanced(ts[0].schedule);
      CorrectedSweepKeepsBalance(ts[0].schedule, das[0], y, a);
      var left := remaining - a;
      if left > 0.0 {
        CorrectedAllocateKeepsBalance(ts[1..], das[1..], y, left);
        assert r.tranches[1..] == Allocate(Corrected, ts[1..], das[1..], y, left).tranches;
      } else {
        assert r.tranches[1..] == ts[1..];
      }
      forall i | 0 <= i < |ts| ensures Balanced(r.tranches[i].schedule) {
        if i > 0 {
          assert r.tranches[i] == r.tranches[1..][i - 1];
        }
      }
    }
  }

  /** A year is summed the same over two lists that agree on it. */
  lemma {:induction false} ColumnSumAgrees(a: seq<TrancheSchedule>, b: seq<TrancheSchedule>, y: nat)
    requires SameShape(a, b) && HasYear(a, y)
    requires forall i :: 0 <= i < |a| ==> a[i].schedule[y] == b[i].schedule[y]
    ensures HasYear(b, y) && ColumnSum(a, y) == ColumnSum(b, y)
    decreases |a|
  {
    if |a| > 0 {
      ColumnSumAgrees(a[1..], b[1..], y);
    }
  }

  /** One year of the sweep (lbo-model.js:580-585): a year without positive
      cash for the sweep is skipped untouched. */
  function SweepYear(rule: Rule, ts: seq<TrancheSchedule>, das: seq<DebtAssumption>, y: nat,
                     available: real): (r: seq<TrancheSchedule>)
    requires |ts| == |das| && 1 <= y && HasYear(ts, y)
    ensures SameShape(r, ts) && AgreeBefore(r, ts, y)
    ensures available <= 0.0 ==> r == ts
  {
    if available <= 0.0 then ts else Allocate(rule, ts, das, y, available).tranches
  }

  /** The sweep over years `y..n`, in ascending order, where `available[k - 1]`
      is the cash available for the sweep in year `k`. */
  function SweepFrom(rule: Rule, ts: seq<TrancheSchedule>, das: seq<DebtAssumption>,
                     available: seq<real>, y: nat): (r: seq<TrancheSchedule>)
    requires |ts| == |das| && 1 <= y && Shaped(ts, |available|)
    ensures SameShape(r, ts) && Shaped(r, |available|) && AgreeBefore(r, ts, y)
    ensures forall i :: 0 <= i < |r| ==> r[i].schedule[0] == ts[i].schedule[0]
    decreases |available| + 1 - y
  {
    if y > |available| then ts
    else
      var next := SweepYear(rule, ts, das, y, available[y - 1]);
      var r := SweepFrom(rule, next, das, available, y + 1);
      assert forall i :: 0 <= i < |r| ==> r[i].schedule[0] == next[i].schedule[0];
      r
  }

  /** One step of the year fold, as a fact about `SweepFrom` that the
      proofs below use with its body hidden. */
  lemma SweepFromStep(rule: Rule, ts: seq<TrancheSchedule>, das: seq<DebtAssumption>,
                      available: seq<real>, y: nat)
    requires |ts| == |das| && 1 <= y && Shaped(ts, |available|)
    ensures y > |available| ==> SweepFrom(rule, ts, das, available, y) == ts
    ensures y <= |available| ==>
      SweepFrom(rule, ts, das, available, y) ==
      SweepFrom(rule, SweepYear(rule, ts, das, y, available[y - 1]), das, available, y + 1)
  {
    hide SweepYear, Allocate, SweepTranche, ColumnSum, AgreeBefore;
  }

  /** One year of the sweep on schedules not yet swept from that year on:
      the year's extra repayments total 0 when there is no positive cash,
      and otherwise lie between 0 and the cash available. */
  lemma SweepYearWithinCash(rule: Rule, ts: seq<TrancheSchedule>, das: seq<DebtAssumption>, y: nat,
                            available: real)
    requires |ts| == |das| && 1 <= y && HasYear(ts, y)
    requires RatesInRange(das) && UnsweptFrom(ts, y) && EndingsNonnegative(ts)
    ensures var r := SweepYear(rule, ts, das, y, available);
      && HasYear(r, y)
      && UnsweptFrom(r, y + 1) && EndingsNonnegative(r)
      && (available <= 0.0 ==> ColumnSum(r, y).additionalAmortization == 0.0)
      && (available > 0.0 ==> 0.0 <= ColumnSum(r, y).additionalAmortization <= available)
  {
    if available <= 0.0 {
      NoAdditionalInColumn(ts, y);
    } else {
      AllocateSweepsCash(rule, ts, das, y, available);
      AllocateKeepsSound(rule, ts, das, y, available);
    }
  }

  /** One tranche swept in year `y` by an allocation within its cap closes
      no year below zero if it closed none below zero before, at any rates:
      year `y` is left with at least its scheduled amount still owed, and
      every year the scheduled pass re-derives clamps its amortization to
      the balance. */
  lemma SweptTrancheEndings(rule: Rule, s: seq<Entry>, da: DebtAssumption, y: nat, a: real)
    requires 1 <= y < |s| && a <= s[y].beginningBalance - s[y].scheduledAmortization
    requires forall k :: 0 <= k < |s| ==> s[k].endingBalance >= 0.0
    ensures var r := SweepTranche(rule, s, da, y, a);
      forall k :: 0 <= k < |r| ==> r[k].endingBalance >= 0.0
  {
    hide SweepTranche, Reopened, ScheduledTail, ScheduledEntry, Allocation, Min;
    var r := SweepTranche(rule, s, da, y, a);
    assert Ledger(r[y]);
    match rule
    case AsWritten =>
      SweepTrancheAsWritten(s, da, y, a);
      forall k | 0 <= k < |r| ensures r[k].endingBalance >= 0.0 {
        if k < y {
          assert r[k] == r[..y][k] == s[..y][k];
        }
      }
    case Corrected =>
      SweepTrancheCorrected(s, da, y, a);
      var tail := ScheduledTail(da, r[y].endingBalance, y + 1, |s| - 1);
      forall k | 0 <= k < |r| ensures r[k].endingBalance >= 0.0 {
        if k < y {
          assert r[k] == r[..y][k] == s[..y][k];
        } else if k > y {
          assert r[k] == r[y + 1..][k - y - 1] == tail[k - y - 1];
          assert ScheduledOnly(tail[k - y - 1], da);
        }
      }
  }

  /** One year of the waterfall, whatever the cash and the rates, closes no
      balance below zero if none closed below zero before. */
  lemma {:induction false} AllocateKeepsEndings(rule: Rule, ts: seq<TrancheSchedule>,
                                                das: seq<DebtAssumption>, y: nat, remaining: real)
    requires |ts| == |das| && 1 <= y && HasYear(ts, y) && EndingsNonnegative(ts)
    ensures EndingsNonnegative(Allocate(rule, ts, das, y, remaining).tranches)
    decreases |ts|
  {
    hide SweepTranche, Swept, Reopened, ScheduledTail, ScheduledEntry, Allocation, Pct, Min,
      Ledger, ScheduledOnly, ColumnSum, AddEntries, Allocate, AgreeBefore;
    var r := Allocate(rule, ts, das, y, remaining);
    AllocateStep(rule, ts, das, y, remaining);
    if |ts| > 0 {
      var e := ts[0].schedule[y];
      var a := Allocation(remaining, das[0], e);
      var t := ts[0].(schedule := SweepTranche(rule, ts[0].schedule, das[0], y, a));
      SweptTrancheEndings(rule, ts[0].schedule, das[0], y, a);
      assert EndingsNonnegative(ts[1..]) by {
        forall i, k | 0 <= i < |ts[1..]| && 0 <= k < |ts[1..][i].schedule|
          ensures ts[1..][i].schedule[k].endingBalance >= 0.0
        {
          assert ts[1..][i] == ts[i + 1];
        }
      }
      var left := remaining - a;
      var rest := if left <= 0.0 then ts[1..] else Allocate(rule, ts[1..], das[1..], y, left).tranches;
      if left > 0.0 {
        AllocateKeepsEndings(rule, ts[1..], das[1..], y, left);
      }
      assert r.tranches == [t] + rest;
      forall i, k | 0 <= i < |r.tranches| && 0 <= k < |r.tranches[i].schedule|
        ensures r.tranches[i].schedule[k].endingBalance >= 0.0
      {
        if i > 0 {
          assert r.tranches[i] == rest[i - 1];
        }
      }
    }
  }

  /** Whichever rule carries the sweep forward, and at any rates, no
      balance ever closes below zero if none did before the sweep. */
  lemma {:induction false} SweepKeepsEndingsNonnegative(rule: Rule, ts: seq<TrancheSchedule>,
                                                        das: seq<DebtAssumption>, available: seq<real>, y: nat)
    requires |ts| == |das| && 1 <= y && Shaped(ts, |available|)
    requires EndingsNonnegative(ts)
    ensures EndingsNonnegative(SweepFrom(rule, ts, das, available, y))
    decreases |available| + 1 - y
  {
    hide Allocate, ColumnSum;
    SweepFromStep(rule, ts, das, available, y);
    if y <= |available| {
      var next := SweepYear(rule, ts, das, y, available[y - 1]);
      if available[y - 1] > 0.0 {
        AllocateKeepsEndings(rule, ts, das, y, available[y - 1]);
      }
      SweepKeepsEndingsNonnegative(rule, next, das, available, y + 1);
    }
  }

  /** Whichever rule carries the sweep forward, with rates in [0, 100] and
      nothing swept yet: a year without positive cash gets no extra
      repayment, and in every other year the extra repayments summed over
      the tranches lie between 0 and the cash available for the sweep. */
  lemma {:induction false} SweepStaysWithinCash(rule: Rule, ts: seq<TrancheSchedule>,
                                                das: seq<DebtAssumption>, available: seq<real>, y: nat)
    requires |ts| == |das| && 1 <= y && Shaped(ts, |available|)
    requires RatesInRange(das) && UnsweptFrom(ts, y) && EndingsNonnegative(ts)
    ensures var r := SweepFrom(rule, ts, das, available, y);
      && (forall k :: y <= k <= |available| && available[k - 1] <= 0.0 ==>
            ColumnSum(r, k).additionalAmortization == 0.0)
      && (forall k :: y <= k <= |available| && available[k - 1] > 0.0 ==>
            0.0 <= ColumnSum(r, k).additionalAmortization <= available[k - 1])
    decreases |available| + 1 - y
  {
    hide Allocate, SweepYear, ColumnSum;
    var r := SweepFrom(rule, ts, das, available, y);
    if y <= |available| {
      var next := SweepYear(rule, ts, das, y, available[y - 1]);
      SweepYearWithinCash(rule, ts, das, y, available[y - 1]);
      SweepStaysWithinCash(rule, next, das, available, y + 1);
      assert r == SweepFrom(rule, next, das, available, y + 1);
      ColumnSumAgrees(r, next, y);
    }
  }

  /** Under the corrected rule the whole sweep keeps every schedule
      balanced: each year still closes at its opening balance less its
      scheduled and extra repayments, and opens at the previous close. */
  lemma {:induction false} CorrectedSweepKeepsAllBalanced(ts: seq<TrancheSchedule>,
                                                          das: seq<DebtAssumption>, available: seq<real>, y: nat)
    requires |ts| == |das| && 1 <= y && Shaped(ts, |available|) && AllBalanced(ts)
    ensures AllBalanced(SweepFrom(Corrected, ts, das, available, y))
    decreases |available| + 1 - y
  {
    if y <= |available| {
      var next := SweepYear(Corrected, ts, das, y, available[y - 1]);
      if available[y - 1] > 0.0 {
        CorrectedAllocateKeepsBalance(ts, das, y, available[y - 1]);
      }
      CorrectedSweepKeepsAllBalanced(next, das, available, y + 1);
    }
  }

  /** Adding two tranche-years keeps the ledger identities. */
  lemma LedgerAdds(a: Entry, b: Entry)
    requires Ledger(a) && Ledger(b)
    ensures Ledger(AddEntries(a, b))
  {
  }

  /** Summed over balanced tranches, each year keeps the ledger identities
      and opens at the previous year's close. */
  lemma {:induction false} ColumnsBalanced(ts: seq<TrancheSchedule>, n: nat, y: nat)
    requires Shaped(ts, n) && AllBalanced(ts) && 1 <= y <= n
    ensures Ledger(ColumnSum(ts, y))
    ensures ColumnSum(ts, y).beginningBalance == ColumnSum(ts, y - 1).endingBalance
    decreases |ts|
  {
    if |ts| > 0 {
      var s := ts[0].schedule;
      assert Balanced(s);
      assert Ledger(s[y]);
      assert s[y].beginningBalance == s[y - 1].endingBalance;
      assert AllBalanced(ts[1..]) by {
        forall i | 0 <= i < |ts| - 1 ensures Balanced(ts[1..][i].schedule) {
          assert ts[1..][i] == ts[i + 1];
        }
      }
      ColumnsBalanced(ts[1..], n, y);
      LedgerAdds(s[y], ColumnSum(ts[1..], y));
    }
  }

  /** `totalsByYear` rebuilt after the sweep (lbo-model.js:645-668): every
      year from 0 to n, year 0 included, is the field-wise sum over the
      tranches. */
  function RebuildTotals(ts: seq<TrancheSchedule>, n: nat): (r: seq<Entry>)
    requires Shaped(ts, n)
    ensures |r| == n + 1
    ensures forall y :: 0 <= y <= n ==> r[y] == ColumnSum(ts, y)
  {
    seq(n + 1, y requires 0 <= y <= n => ColumnSum(ts, y))
  }

  /** Rebuilt from balanced tranches, the totals are balanced too, so the
      principal repaid in total over years 1..n is the fall in the summed
      balance. */
  lemma RebuiltTotalsBalanced(ts: seq<TrancheSchedule>, n: nat)
    requires Shaped(ts, n) && AllBalanced(ts)
    ensures Balanced(RebuildTotals(ts, n))
    ensures Repaid(RebuildTotals(ts, n), n) ==
            RebuildTotals(ts, n)[0].endingBalance - RebuildTotals(ts, n)[n].endingBalance
  {
    var r := RebuildTotals(ts, n);
    forall y | 1 <= y <= n ensures Ledger(r[y]) && r[y].beginningBalance == r[y - 1].endingBalance {
      ColumnsBalanced(ts, n, y);
    }
    forall i, j | 0 <= i < j < |r| && j == i + 1 ensures r[j].beginningBalance == r[i].endingBalance {
      assert r[j].beginningBalance == r[j - 1].endingBalance;
    }
    RepaidTelescopes(r, n);
  }

  /** The interest of every projection year is overwritten with the
      rebuilt total (lbo-model.js:670-672); nothing else in the year changes. */
  function OverwriteInterest(ps: seq<ProjectionYear>, totals: seq<Entry>): (r: seq<ProjectionYear>)
    requires |totals| == |ps| + 1
    ensures |r| == |ps|
    ensures forall i :: 0 <= i < |ps| ==> r[i] == ps[i].(interestExpense := totals[i + 1].interestExpense)
  {
    seq(|ps|, i requires 0 <= i < |ps| => ps[i].(interestExpense := totals[i + 1].interestExpense))
  }

  /** The cash flows settled against the rebuilt totals (lbo-model.js:676-680):
      each year's extra repayment is the total's, and the cash to equity is
      what the sweep did not take. */
  function SettleFlows(flows: seq<CashFlowYear>, totals: seq<Entry>): (r: seq<CashFlowYear>)
    requires |totals| == |flows| + 1
    ensures |r| == |flows|
    ensures forall i :: 0 <= i < |flows| ==>
      r[i].(additionalAmortization := flows[i].additionalAmortization,
            fcfToEquity := flows[i].fcfToEquity) == flows[i]
    ensures forall i :: 0 <= i < |flows| ==>
      r[i].additionalAmortization == totals[i + 1].additionalAmortization &&
      r[i].availableForSweep == r[i].additionalAmortization + r[i].fcfToEquity
  {
    seq(|flows|, i requires 0 <= i < |flows| =>
      flows[i].(additionalAmortization := totals[i + 1].additionalAmortization,
                fcfToEquity := flows[i].availableForSweep - totals[i + 1].additionalAmortization))
  }

  /** The cash each year offers the sweep. */
  function Availables(flows: seq<CashFlowYear>): (r: seq<real>)
    ensures |r| == |flows|
    ensures forall i :: 0 <= i < |flows| ==> r[i] == flows[i].availableForSweep
  {
    seq(|flows|, i requires 0 <= i < |flows| => flows[i].availableForSweep)
  }

  datatype SweepResult = SweepResult(
    tranches: seq<TrancheSchedule>,
    totalsByYear: seq<Entry>,
    projections: seq<ProjectionYear>,
    flows: seq<CashFlowYear>)

  /** `calculateCashFlowSweep`: the waterfall over years 1..n with the cash
      the cash-flow build left for it, then the totals, the interest and
      the cash to equity rebuilt from the swept schedules. */
  function CalculateCashFlowSweep(rule: Rule, ts: seq<TrancheSchedule>, das: seq<DebtAssumption>,
                                  flows: seq<CashFlowYear>, ps: seq<ProjectionYear>): (r: SweepResult)
    requires |ts| == |das| && Shaped(ts, |flows|) && |ps| == |flows|
    ensures SameShape(r.tranches, ts) && Shaped(r.tranches, |flows|)
    ensures forall i :: 0 <= i < |ts| ==> r.tranches[i].schedule[0] == ts[i].schedule[0]
    ensures r.tranches == SweepFrom(rule, ts, das, Availables(flows), 1)
    ensures |r.totalsByYear| == |flows| + 1
    ensures forall y :: 0 <= y <= |flows| ==> r.totalsByYear[y] == ColumnSum(r.tranches, y)
    ensures |r.projections| == |ps|
    ensures forall i :: 0 <= i < |ps| ==>
      r.projections[i] == ps[i].(interestExpense := r.totalsByYear[i + 1].interestExpense)
    ensures |r.flows| == |flows|
    ensures forall i :: 0 <= i < |flows| ==>
      r.flows[i].additionalAmortization == r.totalsByYear[i + 1].additionalAmortization &&
      r.flows[i].fcfToEquity == flows[i].availableForSweep - r.flows[i].additionalAmortization &&
      r.flows[i].(additionalAmortization := flows[i].additionalAmortization,
                  fcfToEquity := flows[i].fcfToEquity) == flows[i]
  {
    var swept := SweepFrom(rule, ts, das, Availables(flows), 1);
    var totals := RebuildTotals(swept, |flows|);
    SweepResult(swept, totals, OverwriteInterest(ps, totals), SettleFlows(flows, totals))
  }

  /** The sweep keeps each year's cash available; with rates in range and
      nothing swept yet, a year without positive cash repays nothing extra
      and any other year repays between none and all of its cash early. */
  lemma CashFlowSweepWithinCash(rule: Rule, ts: seq<TrancheSchedule>, das: seq<DebtAssumption>,
                                flows: seq<CashFlowYear>, ps: seq<ProjectionYear>)
    requires |ts| == |das| && Shaped(ts, |flows|) && |ps| == |flows|
    requires RatesInRange(das) && UnsweptFrom(ts, 1) && EndingsNonnegative(ts)
    ensures var r := CalculateCashFlowSweep(rule, ts, das, flows, ps);
      forall k :: 0 <= k < |flows| ==>
        && r.flows[k].availableForSweep == flows[k].availableForSweep
        && (flows[k].availableForSweep <= 0.0 ==> r.flows[k].additionalAmortization == 0.0)
        && (flows[k].availableForSweep > 0.0 ==>
              0.0 <= r.flows[k].additionalAmortization <= flows[k].availableForSweep)
  {
    hide CalculateCashFlowSweep;
    var r := CalculateCashFlowSweep(rule, ts, das, flows, ps);
    var available := Availables(flows);
    SweepStaysWithinCash(rule, ts, das, available, 1);
    forall k | 0 <= k < |flows|
      ensures r.flows[k].availableForSweep == flows[k].availableForSweep
      ensures flows[k].availableForSweep <= 0.0 ==> r.flows[k].additionalAmortization == 0.0
      ensures flows[k].availableForSweep > 0.0 ==>
                0.0 <= r.flows[k].additionalAmortization <= flows[k].availableForSweep
    {
      assert r.flows[k].(additionalAmortization := flows[k].additionalAmortization,
                         fcfToEquity := flows[k].fcfToEquity) == flows[k];
      var y := k + 1;
      assert r.flows[k].additionalAmortization ==
             ColumnSum(SweepFrom(rule, ts, das, available, 1), y).additionalAmortization;
      assert available[y - 1] == flows[k].availableForSweep;
    }
  }

  /** A single 300 tranche at the default rates: 5% amortization, 6%
      interest, 50% sweep. */
  const ExampleTranche: DebtAssumption := DebtAssumption("Senior Debt", 300.0, 5.0, 6.0, 50.0)

  /** Year 1 of the example on schedule: 15 amortized (5% of 300), 18 of
      interest (6%), closing at 285. */
  lemma ExampleYearOneScheduled()
    ensures ScheduledEntry(1, 300.0, ExampleTranche) == Entry(1, 300.0, 15.0, 0.0, 15.0, 285.0, 18.0)
  {
  }

  /** Year 2 of the example on schedule: 14.25 amortized, 17.1 of interest,
      closing at 270.75. */
  lemma ExampleYearTwoScheduled()
    ensures ScheduledEntry(2, 285.0, ExampleTranche) == Entry(2, 285.0, 14.25, 0.0, 14.25, 270.75, 17.1)
  {
  }

  /** The example tranche's schedule before the sweep. */
  const ExampleScheduled: seq<Entry> :=
    [Opening(300.0), Entry(1, 300.0, 15.0, 0.0, 15.0, 285.0, 18.0),
     Entry(2, 285.0, 14.25, 0.0, 14.25, 270.75, 17.1)]

  /** With 20 of cash the year-1 entry takes half of it, 10, well under its
      cap of 285. */
  lemma ExampleAllocation(e: Entry)
    requires e == Entry(1, 300.0, 15.0, 0.0, 15.0, 285.0, 18.0)
    ensures Allocation(20.0, ExampleTranche, e) == 10.0
  {
  }

  /** Swept by 10, year 1 repays 25 in all and closes at 275. */
  lemma ExampleSwept(e: Entry)
    requires e == Entry(1, 300.0, 15.0, 0.0, 15.0, 285.0, 18.0)
    ensures Swept(e, 10.0) == Entry(1, 300.0, 15.0, 10.0, 25.0, 275.0, 18.0)
  {
  }

  /** The worked year of the sweep: with 20 of cash, year 1 amortizes 15 on
      schedule, takes 10 from the sweep, repays 25 in all and closes at 275. */
  lemma ExampleFirstYearSweep()
    ensures ScheduledEntry(1, 300.0, ExampleTranche) == Entry(1, 300.0, 15.0, 0.0, 15.0, 285.0, 18.0)
    ensures Allocation(20.0, ExampleTranche, ScheduledEntry(1, 300.0, ExampleTranche)) == 10.0
    ensures Swept(ScheduledEntry(1, 300.0, ExampleTranche), 10.0) ==
            Entry(1, 300.0, 15.0, 10.0, 25.0, 275.0, 18.0)
  {
    ExampleYearOneScheduled();
    var e := ScheduledEntry(1, 300.0, ExampleTranche);
    ExampleAllocation(e);
    ExampleSwept(e);
  }

  /** The example as a one-tranche list before the sweep. */
  function ExampleTranches(): (r: seq<TrancheSchedule>)
    ensures |r| == 1 && Shaped(r, 2)
  {
    [TrancheSchedule(ExampleTranche.name, ExampleScheduled)]
  }

  /** The two-year sweep of the example tranche with 20 of cash in year 1
      and none in year 2, under `rule`. */
  function ExampleSweep(rule: Rule): (r: seq<Entry>)
    ensures |r| == 3
  {
    SweepFrom(rule, ExampleTranches(), [ExampleTranche], [20.0, 0.0], 1)[0].schedule
  }

  /** Both rules sweep year 1 alike; year 2 has no cash and is skipped, so
      the outcome is the year-1 waterfall. */
  lemma ExampleSweepIsYearOne(rule: Rule)
    ensures ExampleSweep(rule) == SweepTranche(rule, ExampleScheduled, ExampleTranche, 1, 10.0)
  {
    hide SweepFrom, Allocate, SweepTranche, Allocation, Swept, Reopened, ScheduledTail,
      ScheduledEntry, Pct, Min, Ledger, ScheduledOnly, ColumnSum, AddEntries, AgreeBefore;
    var da := ExampleTranche;
    var ts := ExampleTranches();
    var s := ExampleScheduled;
    assert ts[0].schedule == s;
    ExampleAllocation(s[1]);
    var t := ts[0].(schedule := SweepTranche(rule, s, da, 1, 10.0));
    AllocateStep(rule, ts, [da], 1, 20.0);
    assert ts[1..] == [] && [da][1..] == [];
    AllocateStep(rule, ts[1..], [da][1..], 1, 10.0);
    var after1 := [t];
    assert SweepYear(rule, ts, [da], 1, 20.0) == after1;
    assert SweepYear(rule, after1, [da], 2, 0.0) == after1;
    SweepFromStep(rule, ts, [da], [20.0, 0.0], 1);
    SweepFromStep(rule, after1, [da], [20.0, 0.0], 2);
    SweepFromStep(rule, after1, [da], [20.0, 0.0], 3);
  }

  /** As written, year 2 of the example opens at 275 with 13.75 scheduled
      and 16.5 interest, but keeps the total of 14.25 and the close of
      270.75 from before the sweep: it no longer closes at its opening
      balance less its repayment (275 - 14.25 = 260.75). */
  lemma AsWrittenLeavesStaleClose()
    ensures ExampleSweep(AsWritten)[2] == Entry(2, 275.0, 13.75, 0.0, 14.25, 270.75, 16.5)
    ensures !Ledger(ExampleSweep(AsWritten)[2])
  {
    hide SweepFrom, Allocate, SweepTranche, Allocation, Reopened, ScheduledTail,
      ScheduledEntry, Pct, Min, ColumnSum, AddEntries, AgreeBefore;
    ExampleSweepIsYearOne(AsWritten);
    var s := ExampleScheduled;
    ExampleSwept(s[1]);
    SweepTrancheAsWritten(s, ExampleTranche, 1, 10.0);
    ExampleReopened(s[2]);
    assert ExampleSweep(AsWritten)[2] == Reopened(s[2], 275.0, ExampleTranche);
  }

  /** Reopened at 275, the example's year 2 is charged 13.75 of scheduled
      amortization and 16.5 of interest. */
  lemma ExampleReopened(e: Entry)
    requires e == Entry(2, 285.0, 14.25, 0.0, 14.25, 270.75, 17.1)
    ensures Reopened(e, 275.0, ExampleTranche) == Entry(2, 275.0, 13.75, 0.0, 14.25, 270.75, 16.5)
  {
  }

  /** From a close of 275, year 2 on schedule amortizes 13.75 (5%), pays
      16.5 of interest (6%) and closes at 261.25. */
  lemma ExampleYearTwoReopened()
    ensures ScheduledEntry(2, 275.0, ExampleTranche) == Entry(2, 275.0, 13.75, 0.0, 13.75, 261.25, 16.5)
  {
  }

  lemma ExampleReopenedTail()
    ensures ScheduledTail(ExampleTranche, 275.0, 2, 2) == [Entry(2, 275.0, 13.75, 0.0, 13.75, 261.25, 16.5)]
  {
    hide ScheduledEntry;
    ExampleYearTwoReopened();
  }

  /** Under the corrected rule year 2 of the example is re-derived from the
      close of 275: 13.75 scheduled, 16.5 interest, closing at 261.25. */
  lemma CorrectedReopensWholeTail()
    ensures ExampleSweep(Corrected)[2] == Entry(2, 275.0, 13.75, 0.0, 13.75, 261.25, 16.5)
    ensures Ledger(ExampleSweep(Corrected)[2])
  {
    hide SweepFrom, Allocate, SweepTranche, Allocation, Reopened, ScheduledTail,
      ScheduledEntry, Pct, Min, ColumnSum, AddEntries, AgreeBefore;
    ExampleSweepIsYearOne(Corrected);
    ExampleSwept(ExampleScheduled[1]);
    ExampleReopenedTail();
    var swept := SweepTranche(Corrected, ExampleScheduled, ExampleTranche, 1, 10.0);
    SweepTrancheCorrected(ExampleScheduled, ExampleTranche, 1, 10.0);
    assert swept[1].endingBalance == 275.0;
    assert swept[2..] == ScheduledTail(ExampleTranche, 275.0, 2, 2);
    assert swept[2] == swept[2..][0];
  }
}
