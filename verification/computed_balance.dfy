/**
  The balance-sheet roll-forward (`useComputedBalance`): fixed assets and equity
  roll from year to year, working capital is entered in year 0 and derived from
  ratios afterwards, cash is the plug that balances the sheet, and interest is
  charged on the average of last year's and this year's debt.
 */
module ComputedBalance {
  import opened JsMath
  import opened Lookup
  import opened BalanceTypes
  import opened Kpis
  import opened PnlView

  /** One computed year: the input row it was built from and everything derived from it. */
  datatype ComputedRow = ComputedRow(
    input: BalanceRow,
    fixedAssets: real,
    depreciation: real,
    netResult: real,
    equity: real,
    cash: real,
    interest: real,
    items: WcItems,
    workingCapital: real,
    capitalEmployed: real,
    equityDebt: real,
    kpis: Ratios)

  /** What one year hands to the next: its fixed assets and equity (`prevFA`, `prevEquity`). */
  datatype Carry = Carry(fixedAssets: real, equity: real)

  /** Why the roll-forward raises: no row for a year, or no row at the previous position. */
  datatype BalanceError = MissingBalanceRow(year: int) | MissingPreviousRow(index: int)

  /** Straight-line depreciation on last year's fixed assets: `prevFA * (pct / 100)`. */
  function Depreciation(prevFixedAssets: real, depreciationPct: real): (d: real)
    ensures d * 100.0 == prevFixedAssets * depreciationPct
    ensures 0.0 <= prevFixedAssets && 0.0 <= depreciationPct <= 100.0 ==> 0.0 <= d <= prevFixedAssets
  {
    prevFixedAssets * (depreciationPct / 100.0)
  }

  /** `Math.round(((prevDebt + currDebt) / 2) * (rate / 100))`. */
  function AverageDebtInterest(prevDebt: real, currDebt: real, ratePct: real): (i: real)
    ensures IsIntegral(i)
    ensures (prevDebt + currDebt) * ratePct / 200.0 - 0.5 < i <= (prevDebt + currDebt) * ratePct / 200.0 + 0.5
  {
    RoundBounds(((prevDebt + currDebt) / 2.0) * (ratePct / 100.0));
    Round(((prevDebt + currDebt) / 2.0) * (ratePct / 100.0))
  }

  /** The unrounded ratio a line implies, 0 unless the flow is positive. */
  function EchoRatio(amount: real, flow: real, unit: real): real {
    if flow > 0.0 then (amount / flow) * unit else 0.0
  }

  /** The year's depreciation: the P&L figure in year 0, last year's fixed assets at the row's rate afterwards. */
  function DepreciationOf(row: BalanceRow, p: Option<PnlFacts>, idx: nat, prev: Carry): real {
    if idx == 0 then DepOr0(p) else Depreciation(prev.fixedAssets, row.depreciationPct)
  }

  /** The year's closing fixed assets: the opening carry in year 0, rolled forward afterwards. */
  function FixedAssetsOf(row: BalanceRow, p: Option<PnlFacts>, idx: nat, prev: Carry): real {
    if idx == 0 then prev.fixedAssets else prev.fixedAssets + row.investments - DepreciationOf(row, p, idx, prev)
  }

  /** The year's closing equity: the row's own input in year 0, rolled forward afterwards. */
  function EquityOf(row: BalanceRow, p: Option<PnlFacts>, idx: nat, prev: Carry): real {
    if idx == 0 then row.equityInput
    else prev.equity + NetResultOr0(p) + row.equityContribution.GetOr(0.0) - row.dividend.GetOr(0.0)
  }

  /** What the year hands on to the next. */
  function NextCarry(row: BalanceRow, p: Option<PnlFacts>, idx: nat, prev: Carry): (c: Carry)
    ensures idx == 0 ==> c.fixedAssets == prev.fixedAssets && c.equity == row.equityInput
    ensures idx > 0 ==> c.fixedAssets == prev.fixedAssets + row.investments - Depreciation(prev.fixedAssets, row.depreciationPct)
    ensures idx > 0 ==>
      c.equity == prev.equity + NetResultOr0(p) + row.equityContribution.GetOr(0.0) - row.dividend.GetOr(0.0)
  {
    Carry(FixedAssetsOf(row, p, idx, prev), EquityOf(row, p, idx, prev))
  }

  /** The year at position `idx`, given its row, P&L facts, ratio row, opening carry and the previous row's debt. */
  function ComputeYear(row: BalanceRow, p: Option<PnlFacts>, ratio: Option<RatioRow>, idx: nat, prev: Carry, prevDebt: real): (c: ComputedRow)
    ensures c.input == row
    ensures c.workingCapital == c.items.Net()
    ensures c.fixedAssets + c.workingCapital + c.cash == c.equity + row.longDebt + row.shortDebt
    ensures c.capitalEmployed + c.cash == c.equityDebt
    ensures Carry(c.fixedAssets, c.equity) == NextCarry(row, p, idx, prev)
  {
    var revenue := RevenueOr0(p);
    var cogs := CogsOr0(p);
    var fixedAssets := FixedAssetsOf(row, p, idx, prev);
    var equity := EquityOf(row, p, idx, prev);
    var k := RatiosOrZero(ratio);
    var items := if idx == 0 then row.wc else ItemsFromKpis(k, revenue, cogs);
    var workingCapital := items.Net();
    var totalDebt := row.TotalDebt();
    var cash := equity + totalDebt - (fixedAssets + workingCapital);
    var interest :=
      if idx == 0 then InterestOr0(p)
      else AverageDebtInterest(prevDebt, totalDebt, row.interestRatePct);
    var kpis := Ratios(
      if idx == 0 then EchoRatio(items.inventory, cogs, 365.0) else k.dio,
      if idx == 0 then EchoRatio(items.receivables, revenue, 365.0) else k.dso,
      if idx == 0 then EchoRatio(items.payables, cogs, 365.0) else k.dpo,
      EchoRatio(items.otherCurrentAssets, revenue, 100.0),
      EchoRatio(items.otherCurrentLiabilities, revenue, 100.0));
    ComputedRow(row, fixedAssets, DepreciationOf(row, p, idx, prev), NetResultOr0(p), equity, cash, interest,
                items, workingCapital, fixedAssets + workingCapital, equity + totalDebt, kpis)
  }

  predicate HasBalanceRow(rows: seq<BalanceRow>, year: int) {
    BalanceRowFor(rows, year).Some?
  }

  /**
    Every year from position `idx` on has a row, and every such position but the
    first has a row before it: there are at least `|years| - 1` rows.
   */
  predicate Computable(rows: seq<BalanceRow>, years: seq<int>, idx: nat) {
    && (forall k | idx <= k < |years| :: HasBalanceRow(rows, years[k]))
    && (idx >= |years| || |years| <= |rows| + 1)
  }

  /** The row of the year at position `i`. */
  function RowAt(rows: seq<BalanceRow>, years: seq<int>, i: nat): BalanceRow
    requires i < |years| && HasBalanceRow(rows, years[i])
  {
    BalanceRowFor(rows, years[i]).value
  }

  /** The debt of the row at the previous position, read only after year 0. */
  function PrevDebt(rows: seq<BalanceRow>, idx: nat): real
    requires idx <= |rows|
  {
    if idx == 0 then 0.0 else rows[idx - 1].TotalDebt()
  }

  /** The error the first year from position `idx` that cannot be computed raises. */
  function FirstError(rows: seq<BalanceRow>, years: seq<int>, idx: nat): (e: BalanceError)
    requires idx <= |years| && !Computable(rows, years, idx)
    ensures e.MissingBalanceRow? ==> e.year in years[idx..] && !HasBalanceRow(rows, e.year)
    ensures e.MissingPreviousRow? ==> idx <= e.index + 1 < |years| && e.index >= |rows|
    decreases |years| - idx
  {
    if !HasBalanceRow(rows, years[idx]) then MissingBalanceRow(years[idx])
    else if idx > |rows| then MissingPreviousRow(idx - 1)
    else FirstError(rows, years, idx + 1)
  }

  /** The opening carry of every year from position `idx` on, the first being `prev`. */
  function Carries(rows: seq<BalanceRow>, pnl: seq<PnlFacts>, years: seq<int>, idx: nat, prev: Carry): (cs: seq<Carry>)
    requires idx <= |years| && Computable(rows, years, idx)
    ensures |cs| == |years| - idx
    decreases |years| - idx
  {
    if idx == |years| then []
    else [prev] + Carries(rows, pnl, years, idx + 1, NextCarry(RowAt(rows, years, idx), FactsFor(pnl, years[idx]), idx, prev))
  }

  /** The opening carry: the first row's fixed assets and equity. */
  function Opening(rows: seq<BalanceRow>): Carry
    requires |rows| > 0
  {
    Carry(rows[0].fixedAssetsInput, rows[0].equityInput)
  }

  /**
    `useComputedBalance(rows, pnl, years, ratios)`: no rows gives no output;
    otherwise one row per year, in order, or the error the first year that
    cannot be computed raises.
   */
  function ComputeBalance(rows: seq<BalanceRow>, pnl: seq<PnlFacts>, years: seq<int>, ratios: seq<RatioRow>)
    : (res: Result<seq<ComputedRow>, BalanceError>)
    ensures |rows| == 0 ==> res == Ok([])
    ensures |rows| > 0 ==> (res.Ok? <==> Computable(rows, years, 0))
    ensures res.Ok? && |rows| > 0 ==> |res.value| == |years|
    ensures res.Ok? ==> forall i | 0 <= i < |res.value| :: res.value[i].input.year == years[i]
    ensures res.Err? && res.error.MissingBalanceRow? ==> res.error.year in years && !HasBalanceRow(rows, res.error.year)
    ensures res.Err? && res.error.MissingPreviousRow? ==> res.error.index >= |rows|
  {
    if |rows| == 0 then Ok([])
    else if !Computable(rows, years, 0) then Err(FirstError(rows, years, 0))
    else
      var cs := Carries(rows, pnl, years, 0, Opening(rows));
      Ok(seq(|years|, i requires 0 <= i < |years| =>
        ComputeYear(RowAt(rows, years, i), FactsFor(pnl, years[i]), RatioRowFor(ratios, years[i]), i, cs[i], PrevDebt(rows, i))))
  }

  /** The year of a computed row: the year of the input row it spreads. */
  function ComputedYearOf(c: ComputedRow): int { c.input.year }

  /** The carry a computed year hands on. */
  function CarryOf(c: ComputedRow): Carry {
    Carry(c.fixedAssets, c.equity)
  }

  /** Each carry after the first is what the year `h` before it hands on. */
  lemma {:induction false} CarriesStep(rows: seq<BalanceRow>, pnl: seq<PnlFacts>, years: seq<int>, idx: nat, prev: Carry, h: nat, j: nat)
    requires idx <= |years| && Computable(rows, years, idx)
    requires idx <= h && h + 1 == j < |years|
    ensures Carries(rows, pnl, years, idx, prev)[j - idx] ==
      NextCarry(RowAt(rows, years, h), FactsFor(pnl, years[h]), h, Carries(rows, pnl, years, idx, prev)[h - idx])
    decreases j - idx
  {
    var next := NextCarry(RowAt(rows, years, idx), FactsFor(pnl, years[idx]), idx, prev);
    var rest := Carries(rows, pnl, years, idx + 1, next);
    var cs := Carries(rows, pnl, years, idx, prev);
    assert cs == [prev] + rest;
    if h == idx {
      assert cs[1] == rest[0] == next && cs[0] == prev;
    } else {
      CarriesStep(rows, pnl, years, idx + 1, next, h, j);
      assert cs[j - idx] == rest[j - (idx + 1)] && cs[h - idx] == rest[h - (idx + 1)];
    }
  }

  /** Row `i` of the output is the year computed from its inputs and the carry of row `i - 1`. */
  lemma BalanceStep(rows: seq<BalanceRow>, pnl: seq<PnlFacts>, years: seq<int>, ratios: seq<RatioRow>, out: seq<ComputedRow>, i: nat)
    requires ComputeBalance(rows, pnl, years, ratios) == Ok(out)
    requires i < |out|
    ensures |rows| > 0 && HasBalanceRow(rows, years[i]) && i <= |rows|
    ensures out[i] == ComputeYear(RowAt(rows, years, i), FactsFor(pnl, years[i]),
                                  RatioRowFor(ratios, years[i]), i,
                                  if i == 0 then Opening(rows) else CarryOf(out[i - 1]), PrevDebt(rows, i))
  {
    var cs := Carries(rows, pnl, years, 0, Opening(rows));
    assert out[i] == ComputeYear(RowAt(rows, years, i), FactsFor(pnl, years[i]), RatioRowFor(ratios, years[i]), i, cs[i], PrevDebt(rows, i));
    if i > 0 {
      CarriesStep(rows, pnl, years, 0, Opening(rows), i - 1, i);
      var prev := out[i - 1];
      assert prev == ComputeYear(RowAt(rows, years, i - 1), FactsFor(pnl, years[i - 1]), RatioRowFor(ratios, years[i - 1]), i - 1, cs[i - 1], PrevDebt(rows, i - 1));
      assert cs[i] == CarryOf(prev);
    }
  }

  /** Every computed row carries its input row, the row of its year, unchanged. */
  lemma CarriesInput(rows: seq<BalanceRow>, pnl: seq<PnlFacts>, years: seq<int>, ratios: seq<RatioRow>, out: seq<ComputedRow>, i: nat)
    requires ComputeBalance(rows, pnl, years, ratios) == Ok(out)
    requires i < |out|
    ensures HasBalanceRow(rows, years[i]) && out[i].input == BalanceRowFor(rows, years[i]).value
  {
    BalanceStep(rows, pnl, years, ratios, out, i);
  }

  /**
    Fixed assets open at the first row's input with the P&L depreciation; later
    years depreciate last year's fixed assets at the row's rate, unrounded, and
    add the year's investments.
   */
  lemma FixedAssetRoll(rows: seq<BalanceRow>, pnl: seq<PnlFacts>, years: seq<int>, ratios: seq<RatioRow>, out: seq<ComputedRow>, i: nat)
    requires ComputeBalance(rows, pnl, years, ratios) == Ok(out)
    requires i < |out|
    ensures i == 0 ==> out[0].fixedAssets == rows[0].fixedAssetsInput && out[0].depreciation == DepOr0(FactsFor(pnl, years[0]))
    ensures i > 0 ==>
      && out[i].depreciation == Depreciation(out[i - 1].fixedAssets, out[i].input.depreciationPct)
      && out[i].fixedAssets == out[i - 1].fixedAssets + out[i].input.investments - out[i].depreciation
  {
    BalanceStep(rows, pnl, years, ratios, out, i);
  }

  /**
    Equity opens at the year's own input; later years add the net result and
    the contribution and subtract the dividend, a missing one counting as 0.
   */
  lemma EquityRoll(rows: seq<BalanceRow>, pnl: seq<PnlFacts>, years: seq<int>, ratios: seq<RatioRow>, out: seq<ComputedRow>, i: nat)
    requires ComputeBalance(rows, pnl, years, ratios) == Ok(out)
    requires i < |out|
    ensures out[i].netResult == NetResultOr0(FactsFor(pnl, years[i]))
    ensures i == 0 ==> out[0].equity == out[0].input.equityInput
    ensures i > 0 ==> out[i].equity == out[i - 1].equity + out[i].netResult
                                       + out[i].input.equityContribution.GetOr(0.0) - out[i].input.dividend.GetOr(0.0)
  {
    BalanceStep(rows, pnl, years, ratios, out, i);
  }

  /**
    Year 0 working capital is the entered lines; a later line is the rounded
    share of the year's flow its ratio names (a missing ratio row counting as
    zeros); the working capital is always the net of the five lines.
   */
  lemma WorkingCapitalLines(rows: seq<BalanceRow>, pnl: seq<PnlFacts>, years: seq<int>, ratios: seq<RatioRow>, out: seq<ComputedRow>, i: nat)
    requires ComputeBalance(rows, pnl, years, ratios) == Ok(out)
    requires i < |out|
    ensures i == 0 ==> out[0].items == out[0].input.wc
    ensures var k := RatiosOrZero(RatioRowFor(ratios, years[i]));
      var p := FactsFor(pnl, years[i]);
      i > 0 ==> (forall f :: out[i].items.Get(f) == FromKpis(f, k, RevenueOr0(p), CogsOr0(p)))
    ensures out[i].workingCapital == out[i].items.Net()
  {
    BalanceStep(rows, pnl, years, ratios, out, i);
  }

  /** Assets equal equity plus debt: cash is the plug. */
  predicate Balanced(c: ComputedRow) {
    && c.fixedAssets + c.workingCapital + c.cash == c.equity + c.input.longDebt + c.input.shortDebt
    && c.capitalEmployed + c.cash == c.equityDebt
  }

  /** Every computed year balances. */
  lemma CashIsPlug(rows: seq<BalanceRow>, pnl: seq<PnlFacts>, years: seq<int>, ratios: seq<RatioRow>, out: seq<ComputedRow>, i: nat)
    requires ComputeBalance(rows, pnl, years, ratios) == Ok(out)
    requires i < |out|
    ensures Balanced(out[i])
  {
    BalanceStep(rows, pnl, years, ratios, out, i);
  }

  /** Cash as the balancing item: how it moves when fixed assets and equity roll forward. */
  lemma CashRoll(cash: real, cashP: real, eq: real, eqP: real, debt: real, debtP: real, fa: real, faP: real,
                 wc: real, wcP: real, inv: real, dep: real, nr: real, contrib: real, div: real)
    requires fa + wc + cash == eq + debt && faP + wcP + cashP == eqP + debtP
    requires fa == faP + inv - dep && eq == eqP + nr + contrib - div
    ensures cash - cashP == nr + contrib - div + (debt - debtP) - inv + dep - (wc - wcP)
  {
  }

  /**
    From one year to the next, cash moves by the net result, the contribution
    less the dividend, and the change of debt, less the investments and the
    increase of working capital, with the depreciation added back.
   */
  lemma CashRollForward(rows: seq<BalanceRow>, pnl: seq<PnlFacts>, years: seq<int>, ratios: seq<RatioRow>, out: seq<ComputedRow>, h: nat, i: nat)
    requires ComputeBalance(rows, pnl, years, ratios) == Ok(out)
    requires h + 1 == i < |out|
    ensures out[i].cash - out[h].cash
            == out[i].netResult + out[i].input.equityContribution.GetOr(0.0) - out[i].input.dividend.GetOr(0.0)
               + (out[i].input.TotalDebt() - out[h].input.TotalDebt())
               - out[i].input.investments + out[i].depreciation
               - (out[i].items.Net() - out[h].items.Net())
  {
    var c, cp := out[i], out[h];
    CashIsPlug(rows, pnl, years, ratios, out, i);
    CashIsPlug(rows, pnl, years, ratios, out, h);
    WorkingCapitalLines(rows, pnl, years, ratios, out, i);
    WorkingCapitalLines(rows, pnl, years, ratios, out, h);
    FixedAssetRoll(rows, pnl, years, ratios, out, i);
    EquityRoll(rows, pnl, years, ratios, out, i);
    CashRoll(c.cash, cp.cash, c.equity, cp.equity, c.input.TotalDebt(), cp.input.TotalDebt(),
             c.fixedAssets, cp.fixedAssets, c.items.Net(), cp.items.Net(), c.input.investments, c.depreciation,
             c.netResult, c.input.equityContribution.GetOr(0.0), c.input.dividend.GetOr(0.0));
  }

  /**
    Interest is the P&L interest in year 0; afterwards it is the rate applied to
    the average of the previous row's and this row's total debt, rounded.
   */
  lemma InterestOnAverageDebt(rows: seq<BalanceRow>, pnl: seq<PnlFacts>, years: seq<int>, ratios: seq<RatioRow>, out: seq<ComputedRow>, i: nat)
    requires ComputeBalance(rows, pnl, years, ratios) == Ok(out)
    requires i < |out|
    ensures i <= |rows|
    ensures i == 0 ==> out[0].interest == InterestOr0(FactsFor(pnl, years[0]))
    ensures i > 0 ==> out[i].interest == AverageDebtInterest(rows[i - 1].TotalDebt(), out[i].input.TotalDebt(), out[i].input.interestRatePct)
  {
    BalanceStep(rows, pnl, years, ratios, out, i);
  }

  /**
    The KPI echoes: year 0 shows the unrounded days implied by its lines (0 when
    the flow is not positive), later years echo the ratio inputs; the two
    percentage echoes are implied from the lines in every year.
   */
  lemma KpiEchoes(rows: seq<BalanceRow>, pnl: seq<PnlFacts>, years: seq<int>, ratios: seq<RatioRow>, out: seq<ComputedRow>, i: nat)
    requires ComputeBalance(rows, pnl, years, ratios) == Ok(out)
    requires i < |out|
    ensures var p := FactsFor(pnl, years[i]);
      && out[i].kpis.otherCurrentAssetsPct == EchoRatio(out[i].items.otherCurrentAssets, RevenueOr0(p), 100.0)
      && out[i].kpis.otherCurrentLiabilitiesPct == EchoRatio(out[i].items.otherCurrentLiabilities, RevenueOr0(p), 100.0)
    ensures var p := FactsFor(pnl, years[i]);
      i == 0 ==>
        && out[0].kpis.dio == EchoRatio(out[0].items.inventory, CogsOr0(p), 365.0)
        && out[0].kpis.dso == EchoRatio(out[0].items.receivables, RevenueOr0(p), 365.0)
        && out[0].kpis.dpo == EchoRatio(out[0].items.payables, CogsOr0(p), 365.0)
    ensures var k := RatiosOrZero(RatioRowFor(ratios, years[i]));
      i > 0 ==> out[i].kpis.dio == k.dio && out[i].kpis.dso == k.dso && out[i].kpis.dpo == k.dpo
  {
    BalanceStep(rows, pnl, years, ratios, out, i);
  }

  /** An echo is 0 exactly when the flow is not positive or the line is 0. */
  lemma EchoZero(amount: real, flow: real, unit: real)
    requires unit > 0.0
    ensures EchoRatio(amount, flow, unit) == 0.0 <==> flow <= 0.0 || amount == 0.0
  {
    if flow > 0.0 && amount != 0.0 {
      assert amount / flow != 0.0;
    }
  }

  /** Rows whose years are the requested years, in order and without repeats. */
  predicate Aligned(rows: seq<BalanceRow>, years: seq<int>) {
    && |rows| == |years|
    && (forall i | 0 <= i < |rows| :: rows[i].year == years[i])
    && DistinctKeys(rows, BalanceYearOf)
  }

  /** Aligned rows can always be rolled forward, and each output row carries the row at its own position. */
  lemma AlignedComputes(rows: seq<BalanceRow>, pnl: seq<PnlFacts>, years: seq<int>, ratios: seq<RatioRow>)
    requires Aligned(rows, years)
    ensures ComputeBalance(rows, pnl, years, ratios).Ok?
    ensures forall i | 0 <= i < |years| :: ComputeBalance(rows, pnl, years, ratios).value[i].input == rows[i]
  {
    forall k | 0 <= k < |years|
      ensures BalanceRowFor(rows, years[k]) == Some(rows[k])
    {
      FindDistinct(rows, BalanceYearOf, k);
    }
    if |rows| > 0 {
      assert Computable(rows, years, 0);
      var out := ComputeBalance(rows, pnl, years, ratios).value;
      forall i | 0 <= i < |years|
        ensures out[i].input == rows[i]
      {
        CarriesInput(rows, pnl, years, ratios, out, i);
      }
    }
  }
}
