/** Sources & Uses of funds at entry: purchase price, fees, the debt raised
    tranche by tranche, and the equity that closes the gap (lbo-model.js:183-246). */
module SourcesUses {
  import opened Numbers

  /** The transaction terms: LTM EBITDA, entry EV/EBITDA multiple and the
      three percentages (whole numbers). */
  datatype Transaction = Transaction(
    ltmEbitda: real,
    evMultiple: real,
    transactionFeesPct: real,
    debtFeesPct: real,
    managementEquityPct: real)

  /** A debt tranche sized as a multiple of LTM EBITDA. `amount` is written by
      `CalculateSourcesUses`; list order is seniority (first = most senior). */
  datatype Tranche = Tranche(name: string, multiple: real, amount: real)

  datatype SourcesUses = SourcesUses(
    debtTranches: seq<Tranche>,
    totalDebt: real,
    equityContribution: real,
    managementEquity: real,
    sponsorEquity: real,
    totalSources: real,
    purchaseEV: real,
    transactionFees: real,
    debtIssuanceFees: real,
    totalUses: real,
    debtPct: real,
    equityPct: real)

  /** The built-in transaction terms (lbo-model.js:4-10). */
  function DefaultTransaction(): Transaction {
    Transaction(100.0, 10.0, 2.0, 3.0, 10.0)
  }

  /** The built-in tranche list (lbo-model.js:14-17), not yet sized. */
  function DefaultTranches(): seq<Tranche> {
    [Tranche("Senior Debt", 2.0, 0.0), Tranche("Subordinated Debt", 1.0, 0.0)]
  }

  function Amounts(ts: seq<Tranche>): (r: seq<real>)
    ensures |r| == |ts|
    ensures forall i :: 0 <= i < |ts| ==> r[i] == ts[i].amount
  {
    if |ts| == 0 then [] else Amounts(ts[..|ts| - 1]) + [ts[|ts| - 1].amount]
  }

  function Multiples(ts: seq<Tranche>): (r: seq<real>)
    ensures |r| == |ts|
    ensures forall i :: 0 <= i < |ts| ==> r[i] == ts[i].multiple
  {
    if |ts| == 0 then [] else Multiples(ts[..|ts| - 1]) + [ts[|ts| - 1].multiple]
  }

  /** Sizes every tranche at `ltmEbitda` times its multiple, keeping name,
      multiple and order. */
  function SizeTranches(ltmEbitda: real, ts: seq<Tranche>): (r: seq<Tranche>)
    ensures |r| == |ts|
    ensures forall i :: 0 <= i < |ts| ==>
      r[i].name == ts[i].name && r[i].multiple == ts[i].multiple &&
      r[i].amount == ltmEbitda * ts[i].multiple
  {
    seq(|ts|, i requires 0 <= i < |ts| => ts[i].(amount := ltmEbitda * ts[i].multiple))
  }

  /** Total debt is LTM EBITDA times the sum of the tranche multiples, so
      the debt raised is linear in EBITDA whatever the tranche split. */
  lemma TotalDebtIsEbitdaTimesMultiples(ltmEbitda: real, ts: seq<Tranche>)
    ensures Sum(Amounts(SizeTranches(ltmEbitda, ts))) == ltmEbitda * Sum(Multiples(ts))
  {
    SumScaled(ltmEbitda, Amounts(SizeTranches(ltmEbitda, ts)), Multiples(ts));
  }

  /** `part` as a percentage of a positive `whole`, and 0 otherwise. */
  function Share(part: real, whole: real): (r: real)
    ensures whole > 0.0 ==> r * whole == part * 100.0
    ensures whole <= 0.0 ==> r == 0.0
  {
    if whole > 0.0 then (part / whole) * 100.0 else 0.0
  }

  /** Two parts expressed as percentages of their positive sum add up to 100. */
  lemma SharesOfWhole(a: real, b: real, s: real)
    requires s == a + b
    ensures s > 0.0 ==> Share(a, s) + Share(b, s) == 100.0
  {
    if s > 0.0 {
      assert a / s + b / s == (a + b) / s;
    }
  }

  /** The equity needed to close the gap between uses and debt, never
      negative: debt plus equity covers the uses, or all the debt when the
      debt alone exceeds them. */
  function EquityGap(uses: real, debt: real): (r: real)
    ensures r >= 0.0 && r == Max(0.0, uses - debt)
    ensures debt + r == Max(uses, debt)
  {
    if uses - debt < 0.0 then 0.0 else uses - debt
  }

  /** `calculateSourcesUses`: the price at the entry multiple, fees on the
      price and on the debt, each tranche sized off LTM EBITDA, equity for
      the gap and the management share of it. */
  function CalculateSourcesUses(t: Transaction, tranches: seq<Tranche>): (r: SourcesUses)
    ensures r.debtTranches == SizeTranches(t.ltmEbitda, tranches)
    ensures r.totalDebt == Sum(Amounts(r.debtTranches))
    ensures r.purchaseEV == t.ltmEbitda * t.evMultiple
    ensures r.transactionFees == Pct(r.purchaseEV, t.transactionFeesPct)
    ensures r.debtIssuanceFees == Pct(r.totalDebt, t.debtFeesPct)
    ensures r.totalUses == r.purchaseEV + r.transactionFees + r.debtIssuanceFees
    ensures r.equityContribution == EquityGap(r.totalUses, r.totalDebt)
    ensures r.managementEquity == Pct(r.equityContribution, t.managementEquityPct)
    ensures r.sponsorEquity == r.equityContribution - r.managementEquity
    ensures r.totalSources == r.totalDebt + r.equityContribution
    ensures r.debtPct == Share(r.totalDebt, r.totalSources)
    ensures r.equityPct == Share(r.equityContribution, r.totalSources)
  {
    var ev := t.ltmEbitda * t.evMultiple;
    var fees := Pct(ev, t.transactionFeesPct);
    var sized := SizeTranches(t.ltmEbitda, tranches);
    var debt := Sum(Amounts(sized));
    var debtFees := Pct(debt, t.debtFeesPct);
    var uses := ev + fees + debtFees;
    var equity := EquityGap(uses, debt);
    var mgmt := Pct(equity, t.managementEquityPct);
    var sources := debt + equity;
    SourcesUses(sized, debt, equity, mgmt, equity - mgmt, sources, ev, fees, debtFees, uses,
                Share(debt, sources), Share(equity, sources))
  }

  /** Money in equals money out. Debt is LTM EBITDA times the summed
      multiples; equity, never negative, covers what debt does not, and
      splits exactly into management and sponsor equity; total sources
      equal total uses unless the debt alone exceeds them; and the debt and
      equity shares of a positive total add up to 100%. */
  lemma SourcesEqualUses(t: Transaction, tranches: seq<Tranche>)
    ensures var r := CalculateSourcesUses(t, tranches);
      && |r.debtTranches| == |tranches|
      && (forall i :: 0 <= i < |tranches| ==>
            r.debtTranches[i].name == tranches[i].name &&
            r.debtTranches[i].multiple == tranches[i].multiple &&
            r.debtTranches[i].amount == t.ltmEbitda * tranches[i].multiple)
      && r.totalDebt == t.ltmEbitda * Sum(Multiples(tranches))
      && r.equityContribution >= 0.0
      && r.equityContribution == Max(0.0, r.totalUses - r.totalDebt)
      && r.managementEquity + r.sponsorEquity == r.equityContribution
      && r.totalSources == Max(r.totalUses, r.totalDebt)
      && (r.totalUses >= r.totalDebt ==> r.totalSources == r.totalUses)
  {
    hide *;
    var r := CalculateSourcesUses(t, tranches);
    TotalDebtIsEbitdaTimesMultiples(t.ltmEbitda, tranches);
    assert r.totalDebt == t.ltmEbitda * Sum(Multiples(tranches));
    assert r.equityContribution == Max(0.0, r.totalUses - r.totalDebt);
    assert r.totalSources == Max(r.totalUses, r.totalDebt);
  }

  /** The debt and equity shares of positive total sources add up to 100%,
      and the debt share is the debt as a percentage of the sources; with
      no sources both shares are 0. */
  lemma SharesOfSources(t: Transaction, tranches: seq<Tranche>)
    ensures var r := CalculateSourcesUses(t, tranches);
      && (r.totalSources > 0.0 ==> r.debtPct + r.equityPct == 100.0)
      && (r.totalSources > 0.0 ==> r.debtPct * r.totalSources == r.totalDebt * 100.0)
      && (r.totalSources <= 0.0 ==> r.debtPct == 0.0 && r.equityPct == 0.0)
  {
    hide *;
    var r := CalculateSourcesUses(t, tranches);
    SharesOfWhole(r.totalDebt, r.equityContribution, r.totalSources);
  }

  /** The worked example of the defaults: EV 1000, fees 20, debt 300, debt
      fees 9, uses 1029, equity 729 split 72.9 / 656.1. */
  lemma DefaultSourcesUses()
    ensures var r := CalculateSourcesUses(DefaultTransaction(), DefaultTranches());
      && r.purchaseEV == 1000.0
      && r.transactionFees == 20.0
      && r.totalDebt == 300.0
      && r.debtIssuanceFees == 9.0
      && r.totalUses == 1029.0
      && r.equityContribution == 729.0
      && r.managementEquity == 72.9
      && r.sponsorEquity == 656.1
      && r.totalSources == 1029.0
  {
    hide CalculateSourcesUses, SizeTranches;
    var r := CalculateSourcesUses(DefaultTransaction(), DefaultTranches());
    var a := Amounts(r.debtTranches);
    assert a == [200.0, 100.0];
    assert a[..1] == [200.0];
    assert Sum(a[..1]) == 200.0 by {
      assert a[..1][..0] == [];
    }
  }
}
