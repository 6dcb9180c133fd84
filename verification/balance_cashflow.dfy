/**
  The balance page's own cash-flow hook: year 0 is all zeros; a later year
  takes the computed P&L row at the same position and the computed balance rows
  at this and the previous position, and compares its total against the change
  of a cash figure rebuilt from equity, debt, fixed assets and the lines.
  The lines it reads are the ones carried over from the input row.
 */
module BalanceCashflow {
  import opened Lookup
  import opened BalanceTypes
  import opened ComputedPnl
  import opened ComputedBalance

  /** One year of this statement. */
  datatype BalanceCashflowRow = BalanceCashflowRow(
    year: int,
    ebit: real, tax: real, noplat: real, depreciation: real, changeWc: real, operatingCf: real,
    investmentsCf: real,
    interest: real, changeDebt: real, financingCf: real,
    totalChangeCash: real, bsCashChangeCheck: real)

  /** `curr` is read past the end of the computed rows: the hook raises. */
  datatype BalanceCashflowError = MissingComputedRow(index: nat)

  /** The all-zero row of the first year. */
  function ZeroRow(year: int): BalanceCashflowRow {
    BalanceCashflowRow(year, 0.0, 0.0, 0.0, 0.0, 0.0, 0.0, 0.0, 0.0, 0.0, 0.0, 0.0, 0.0)
  }

  /** `pnl[idx]`, absent past the end. */
  function PnlAt(pnl: seq<PnlComputedRow>, idx: nat): Option<PnlComputedRow> {
    if idx < |pnl| then Some(pnl[idx]) else None
  }

  /** The rebuilt cash of a computed row: equity plus debt, less fixed assets and the carried-over lines. */
  function RebuiltCash(c: ComputedRow): real {
    c.equity + (c.input.longDebt + c.input.shortDebt) - (c.fixedAssets + c.input.wc.Net())
  }

  /** A later year from the previous and current computed rows and the P&L row. */
  function LaterYear(year: int, p: Option<PnlComputedRow>, prev: ComputedRow, curr: ComputedRow): (r: BalanceCashflowRow)
    ensures r.year == year
    ensures r.changeWc == curr.input.wc.Net() - prev.input.wc.Net()
    ensures r.totalChangeCash == r.operatingCf - r.investmentsCf + r.financingCf
    ensures r.bsCashChangeCheck == RebuiltCash(curr) - RebuiltCash(prev)
    ensures r.changeDebt == curr.input.TotalDebt() - prev.input.TotalDebt()
    ensures p.None? ==> r.ebit == 0.0 && r.tax == 0.0 && r.depreciation == 0.0 && r.interest == 0.0
    ensures p.Some? ==> r.ebit == p.value.ebit && r.tax == p.value.taxes
                        && r.depreciation == p.value.depreciation && r.interest == p.value.interest
    ensures r.noplat == r.ebit - r.tax && r.operatingCf == r.noplat + r.depreciation - r.changeWc
    ensures r.investmentsCf == curr.fixedAssets - prev.fixedAssets && r.financingCf == r.changeDebt - r.interest
  {
    var ebit := match p case Some(q) => q.ebit case None => 0.0;
    var tax := match p case Some(q) => q.taxes case None => 0.0;
    var depreciation := match p case Some(q) => q.depreciation case None => 0.0;
    var noplat := ebit - tax;
    var wcPrev := prev.input.wc.inventory + prev.input.wc.receivables + prev.input.wc.otherCurrentAssets
                  - prev.input.wc.payables - prev.input.wc.otherCurrentLiabilities;
    var wcCurr := curr.input.wc.inventory + curr.input.wc.receivables + curr.input.wc.otherCurrentAssets
                  - curr.input.wc.payables - curr.input.wc.otherCurrentLiabilities;
    var changeWc := wcCurr - wcPrev;
    var operatingCf := noplat + depreciation - changeWc;
    var investmentsCf := curr.fixedAssets - prev.fixedAssets;
    var debtPrev := prev.input.longDebt + prev.input.shortDebt;
    var debtCurr := curr.input.longDebt + curr.input.shortDebt;
    var changeDebt := debtCurr - debtPrev;
    var interest := match p case Some(q) => q.interest case None => 0.0;
    var financingCf := -interest + changeDebt;
    var totalChangeCash := operatingCf - investmentsCf + financingCf;
    var cashPrev := prev.equity + debtPrev - (prev.fixedAssets + wcPrev);
    var cashCurr := curr.equity + debtCurr - (curr.fixedAssets + wcCurr);
    BalanceCashflowRow(year, ebit, tax, noplat, depreciation, changeWc, operatingCf, investmentsCf,
                       interest, changeDebt, financingCf, totalChangeCash, cashCurr - cashPrev)
  }

  /** The row at position `i` of a run that does not raise: zeros first, then each position against the one before. */
  function RowAt(pnl: seq<PnlComputedRow>, cs: seq<ComputedRow>, years: seq<int>, i: nat): (r: BalanceCashflowRow)
    requires i < |years| && (i == 0 || i < |cs|)
    ensures r.year == years[i]
  {
    if i == 0 then ZeroRow(years[0]) else LaterYear(years[i], PnlAt(pnl, i), cs[i - 1], cs[i])
  }

  /** The rows of a run that does not raise. */
  function Rows(pnl: seq<PnlComputedRow>, cs: seq<ComputedRow>, years: seq<int>): (rs: seq<BalanceCashflowRow>)
    requires |years| <= 1 || |years| <= |cs|
    ensures |rs| == |years|
    ensures forall i | 0 <= i < |years| :: rs[i].year == years[i]
    ensures forall i | 0 <= i < |rs| :: rs[i] == RowAt(pnl, cs, years, i)
  {
    seq(|years|, i requires 0 <= i < |years| => RowAt(pnl, cs, years, i))
  }

  /**
    The hook. A missing input (`null`) gives no rows; an empty list does not.
    From position 1 on, a position with no computed row raises.
   */
  function ComputeBalanceCashflow(pnl: Option<seq<PnlComputedRow>>, computed: Option<seq<ComputedRow>>,
                                  raw: Option<seq<BalanceRow>>, years: seq<int>)
    : (res: Result<seq<BalanceCashflowRow>, BalanceCashflowError>)
    ensures pnl.None? || computed.None? || raw.None? ==> res == Ok([])
    ensures pnl.Some? && computed.Some? && raw.Some? ==>
      (res.Ok? <==> |years| <= 1 || |years| <= |computed.value|)
    ensures res.Err? ==> res.error.index == (if |computed.value| == 0 then 1 else |computed.value|)
    ensures res.Ok? && pnl.Some? && computed.Some? && raw.Some? ==> res.value == Rows(pnl.value, computed.value, years)
  {
    if pnl.None? || computed.None? || raw.None? then Ok([])
    else
      var cs := computed.value;
      if |years| > 1 && |years| > |cs| then Err(MissingComputedRow(if |cs| == 0 then 1 else |cs|))
      else Ok(Rows(pnl.value, cs, years))
  }

  /**
    When the rebuilt cash uses the lines the roll-forward computed, the check is
    exactly the change of balance-sheet cash; otherwise it is off by the change
    of the gap between the computed and the carried-over lines.
   */
  lemma CheckAgainstBalanceCash(rows: seq<BalanceRow>, pnl: seq<PnlView.PnlFacts>, years: seq<int>, ratios: seq<RatioRow>,
                                out: seq<ComputedRow>, p: Option<PnlComputedRow>, i: nat)
    requires ComputeBalance(rows, pnl, years, ratios) == Ok(out)
    requires 0 < i < |out|
    ensures LaterYear(years[i], p, out[i - 1], out[i]).bsCashChangeCheck
            == (out[i].cash - out[i - 1].cash)
               + ((out[i].items.Net() - out[i].input.wc.Net()) - (out[i - 1].items.Net() - out[i - 1].input.wc.Net()))
  {
    CashIsPlug(rows, pnl, years, ratios, out, i);
    CashIsPlug(rows, pnl, years, ratios, out, i - 1);
    WorkingCapitalLines(rows, pnl, years, ratios, out, i);
    WorkingCapitalLines(rows, pnl, years, ratios, out, i - 1);
  }

  /**
    The statement counts depreciation twice: its investing flow is the change
    of NET fixed assets, and it adds depreciation back as well. With equity
    rolling by the year's net result and no lines changing, the total exceeds
    the check by exactly the depreciation.
   */
  lemma DepreciationCountedTwice(year: int, q: PnlComputedRow, prev: ComputedRow, curr: ComputedRow)
    requires q.netResult == q.ebit - q.interest - q.taxes
    requires curr.equity == prev.equity + q.netResult
    ensures var r := LaterYear(year, Some(q), prev, curr);
      r.totalChangeCash - r.bsCashChangeCheck == q.depreciation
  {
  }
}
