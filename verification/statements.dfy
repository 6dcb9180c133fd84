/**
  How the stages are wired together on the pages, and what the wiring does to
  the figures: the cash-flow statement read off the computed balance sheet, and
  the balance page's plain P&L rows fed to the balance roll-forward.
 */
module Statements {
  import opened Lookup
  import opened BalanceTypes
  import opened Kpis
  import opened PnlModel
  import opened ComputedPnl
  import opened PnlView
  import opened ComputedBalance
  import opened Cashflow
  import opened Page
  import BalanceData

  /** One year read through the computed lines: the gap left once cash rolls by the P&L's result. */
  lemma ReconciledYearGap(year: int, m: PnlModelRow, c: ComputedRow, cp: ComputedRow, contrib: real, div: real)
    requires c.netResult == m.EBIT - m.interest - m.tax
    requires c.cash - cp.cash
             == c.netResult + contrib - div + (c.input.TotalDebt() - cp.input.TotalDebt())
                - c.input.investments + c.depreciation - (c.items.Net() - cp.items.Net())
    ensures var r := CashflowYear(year, Some(m), Some(ReconciledView(c)), Some(ReconciledView(cp)));
      r.netChange - r.cashCheck == (m.dep - c.depreciation) - contrib + div
  {
  }

  /** One year read both ways: the two readings differ only through their working-capital change. */
  lemma WiredYearGap(year: int, m: PnlModelRow, c: ComputedRow, cp: ComputedRow)
    ensures var w := CashflowYear(year, Some(m), Some(WiredView(c)), Some(WiredView(cp)));
      var f := CashflowYear(year, Some(m), Some(ReconciledView(c)), Some(ReconciledView(cp)));
      (w.netChange - w.cashCheck) - (f.netChange - f.cashCheck)
      == (c.items.Net() - cp.items.Net()) - (NetLines(Some(WiredView(c))) - NetLines(Some(WiredView(cp))))
  {
  }

  /** The statement's row of a later year, read through the computed lines, from that year's lookups and cash roll. */
  lemma ReconciledGapAt(pout: seq<PnlModelRow>, bout: seq<ComputedRow>, years: seq<int>, h: nat, i: nat, contrib: real, div: real)
    requires |pout| == |years| == |bout| && h + 1 == i < |years|
    requires ModelRowFor(pout, years[i]) == Some(pout[i])
    requires CfRowFor(ReconciledViews(bout), years[i]) == Some(ReconciledView(bout[i]))
    requires CfRowFor(ReconciledViews(bout), years[h]) == Some(ReconciledView(bout[h]))
    requires bout[i].netResult == pout[i].EBIT - pout[i].interest - pout[i].tax
    requires bout[i].cash - bout[h].cash
             == bout[i].netResult + contrib - div + (bout[i].input.TotalDebt() - bout[h].input.TotalDebt())
                - bout[i].input.investments + bout[i].depreciation - (bout[i].items.Net() - bout[h].items.Net())
    ensures var cf := ReconciledCashflow(pout, bout, years);
      && |cf| == |years|
      && cf[i].netChange - cf[i].cashCheck == (pout[i].dep - bout[i].depreciation) - contrib + div
  {
    CashflowAt(pout, ReconciledViews(bout), years, h, i, Some(pout[i]), Some(ReconciledView(bout[i])), Some(ReconciledView(bout[h])));
    ReconciledYearGap(years[i], pout[i], bout[i], bout[h], contrib, div);
  }

  /**
    Read through the computed lines, the statement explains the change of
    balance-sheet cash up to two things only: the P&L's depreciation against
    the roll-forward's, and the equity contribution and dividend.
   */
  lemma ReconciledCashGap(pnlRows: seq<PnlRow>, pout: seq<PnlModelRow>, rows: seq<BalanceRow>, years: seq<int>,
                          ratios: seq<RatioRow>, bout: seq<ComputedRow>, i: nat)
    requires PageState(pnlRows, pout, rows, years, ratios, bout)
    requires 0 < i < |years|
    ensures var cf := ReconciledCashflow(pout, bout, years);
      && |cf| == |years|
      && cf[i].netChange - cf[i].cashCheck
         == (pout[i].dep - bout[i].depreciation) - rows[i].equityContribution.GetOr(0.0) + rows[i].dividend.GetOr(0.0)
  {
    var h := i - 1;
    PageYear(pnlRows, pout, rows, years, ratios, bout, h, i);
    PageCashRoll(pnlRows, pout, rows, years, ratios, bout, h, i);
    ReconciledGapAt(pout, bout, years, h, i, rows[i].equityContribution.GetOr(0.0), rows[i].dividend.GetOr(0.0));
  }

  /** With matching depreciation and no equity movements, the reconciled statement balances exactly. */
  lemma ReconciledCashBalances(pnlRows: seq<PnlRow>, pout: seq<PnlModelRow>, rows: seq<BalanceRow>, years: seq<int>,
                               ratios: seq<RatioRow>, bout: seq<ComputedRow>, i: nat)
    requires PageState(pnlRows, pout, rows, years, ratios, bout)
    requires 0 < i < |years|
    requires pout[i].dep == bout[i].depreciation
    requires rows[i].equityContribution.None? && rows[i].dividend.None?
    ensures var cf := ReconciledCashflow(pout, bout, years);
      |cf| == |years| && cf[i].netChange == cf[i].cashCheck
  {
    ReconciledCashGap(pnlRows, pout, rows, years, ratios, bout, i);
  }

  /**
    As written, the statement's gap is the reconciled gap plus the part of the
    working-capital change it cannot see: the computed lines against the
    carried-over inventory, receivables and payables.
   */
  lemma WiredCashGap(pnlRows: seq<PnlRow>, pout: seq<PnlModelRow>, rows: seq<BalanceRow>, years: seq<int>,
                     ratios: seq<RatioRow>, bout: seq<ComputedRow>, h: nat, i: nat)
    requires PageState(pnlRows, pout, rows, years, ratios, bout)
    requires h + 1 == i < |years|
    ensures var wired := WiredCashflow(pout, bout, years);
      var fixed := ReconciledCashflow(pout, bout, years);
      && |wired| == |fixed| == |years| == |bout|
      && (wired[i].netChange - wired[i].cashCheck) - (fixed[i].netChange - fixed[i].cashCheck)
         == (bout[i].items.Net() - bout[h].items.Net())
            - (NetLines(Some(WiredView(bout[i]))) - NetLines(Some(WiredView(bout[h]))))
  {
    PageYear(pnlRows, pout, rows, years, ratios, bout, h, i);
    CashflowAt(pout, WiredViews(bout), years, h, i, Some(pout[i]), Some(WiredView(bout[i])), Some(WiredView(bout[h])));
    CashflowAt(pout, ReconciledViews(bout), years, h, i, Some(pout[i]), Some(ReconciledView(bout[i])), Some(ReconciledView(bout[h])));
    WiredYearGap(years[i], pout[i], bout[i], bout[h]);
  }

  /**
    Balance rows in which only the other current assets move: 100 of them in
    the first year, no lines in the second, no fixed assets to depreciate and no
    equity movement in the second year.
   */
  predicate OtherAssetsOnly(rows: seq<BalanceRow>) {
    && |rows| >= 2
    && rows[0].wc == ZeroItems.(otherCurrentAssets := 100.0) && rows[1].wc == ZeroItems
    && rows[0].fixedAssetsInput == 0.0
    && rows[1].equityContribution.None? && rows[1].dividend.None?
  }

  /** Two such rows for any two distinct years, everything else 0. */
  function OtherAssetsRows(y0: int, y1: int): (rows: seq<BalanceRow>)
    requires y0 != y1
    ensures Aligned(rows, [y0, y1]) && OtherAssetsOnly(rows)
  {
    var blank := BalanceRow(y0, 0.0, 0.0, 0.0, 0.0, ZeroItems, 0.0, 0.0, 0.0, None, None, None, None, None);
    [blank.(wc := ZeroItems.(otherCurrentAssets := 100.0)), blank.(year := y1)]
  }

  /** Such rows without ratio rows compute 100 of lines in year 0 and none in year 1. */
  lemma OtherAssetsLines(pnlRows: seq<PnlRow>, pout: seq<PnlModelRow>, rows: seq<BalanceRow>, years: seq<int>, bout: seq<ComputedRow>)
    requires PageState(pnlRows, pout, rows, years, [], bout)
    requires OtherAssetsOnly(rows)
    ensures |pout| == |rows| == |bout| == |years| >= 2
    ensures bout[0].items.Net() == 100.0 && bout[1].items.Net() == 0.0
  {
    var facts := ModelFacts(pout);
    PageLookups(pnlRows, pout, rows, years, [], bout, 0);
    WorkingCapitalLines(rows, facts, years, [], bout, 0);
    WorkingCapitalLines(rows, facts, years, [], bout, 1);
    var p := FactsFor(facts, years[1]);
    ZeroRatiosGiveZeroItems(RevenueOr0(p), CogsOr0(p));
    assert RatiosOrZero(RatioRowFor([], years[1])) == ZeroRatios;
    assert bout[1].items == ZeroItems by {
      forall f ensures bout[1].items.Get(f) == ZeroItems.Get(f) {
      }
    }
  }

  /** Such rows have no fixed assets to depreciate in year 1. */
  lemma OtherAssetsNoDepreciation(pnlRows: seq<PnlRow>, pout: seq<PnlModelRow>, rows: seq<BalanceRow>, years: seq<int>, bout: seq<ComputedRow>)
    requires PageState(pnlRows, pout, rows, years, [], bout)
    requires OtherAssetsOnly(rows)
    ensures |pout| == |rows| == |bout| == |years| >= 2
    ensures bout[1].depreciation == 0.0
  {
    var facts := ModelFacts(pout);
    PageLookups(pnlRows, pout, rows, years, [], bout, 0);
    FixedAssetRoll(rows, facts, years, [], bout, 0);
    FixedAssetRoll(rows, facts, years, [], bout, 1);
  }

  /** Such rows show the statement as written no line at all. */
  lemma OtherAssetsUnseen(pnlRows: seq<PnlRow>, pout: seq<PnlModelRow>, rows: seq<BalanceRow>, years: seq<int>, bout: seq<ComputedRow>)
    requires PageState(pnlRows, pout, rows, years, [], bout)
    requires OtherAssetsOnly(rows)
    ensures |pout| == |rows| == |bout| == |years| >= 2
    ensures NetLines(Some(WiredView(bout[0]))) == 0.0 && NetLines(Some(WiredView(bout[1]))) == 0.0
  {
    PageLookups(pnlRows, pout, rows, years, [], bout, 0);
    PageLookups(pnlRows, pout, rows, years, [], bout, 1);
  }

  /** The balance sheet of such rows: what moves, and what the statement as written sees of it. */
  lemma OtherAssetsBalance(pnlRows: seq<PnlRow>, pout: seq<PnlModelRow>, rows: seq<BalanceRow>, years: seq<int>, bout: seq<ComputedRow>)
    requires PageState(pnlRows, pout, rows, years, [], bout)
    requires OtherAssetsOnly(rows)
    ensures |pout| == |rows| == |bout| == |years| >= 2
    ensures bout[0].items.Net() == 100.0 && bout[1].items.Net() == 0.0
    ensures bout[1].depreciation == 0.0
    ensures NetLines(Some(WiredView(bout[0]))) == 0.0 && NetLines(Some(WiredView(bout[1]))) == 0.0
  {
    OtherAssetsLines(pnlRows, pout, rows, years, bout);
    OtherAssetsNoDepreciation(pnlRows, pout, rows, years, bout);
    OtherAssetsUnseen(pnlRows, pout, rows, years, bout);
  }

  /** The arithmetic of the counterexample: the wired gap is the reconciled one less the 100 of lines it cannot see. */
  lemma MissedBy(wNet: real, wCheck: real, fNet: real, fCheck: real, items0: real, items1: real,
                 lines0: real, lines1: real, depGap: real, equityFlow: real)
    requires (wNet - wCheck) - (fNet - fCheck) == (items1 - items0) - (lines1 - lines0)
    requires fNet - fCheck == depGap - equityFlow
    requires items0 == 100.0 && items1 == 0.0 && lines0 == 0.0 && lines1 == 0.0 && depGap == 0.0 && equityFlow == 0.0
    ensures fNet == fCheck && wCheck - wNet == 100.0
  {
  }

  /** Both readings' gaps in the second year, against the first. */
  lemma SecondYearGaps(pnlRows: seq<PnlRow>, pout: seq<PnlModelRow>, rows: seq<BalanceRow>, years: seq<int>, bout: seq<ComputedRow>)
    requires PageState(pnlRows, pout, rows, years, [], bout)
    requires |years| >= 2
    ensures |pout| == |rows| == |bout| == |years|
    ensures var w := WiredCashflow(pout, bout, years);
      var f := ReconciledCashflow(pout, bout, years);
      && |w| == |f| == |years|
      && (w[1].netChange - w[1].cashCheck) - (f[1].netChange - f[1].cashCheck)
         == (bout[1].items.Net() - bout[0].items.Net())
            - (NetLines(Some(WiredView(bout[1]))) - NetLines(Some(WiredView(bout[0]))))
      && f[1].netChange - f[1].cashCheck
         == (pout[1].dep - bout[1].depreciation) - rows[1].equityContribution.GetOr(0.0) + rows[1].dividend.GetOr(0.0)
  {
    ReconciledCashGap(pnlRows, pout, rows, years, [], bout, 1);
    WiredCashGap(pnlRows, pout, rows, years, [], bout, 0, 1);
  }

  /**
    The statement as written does not balance when only the other current
    assets move: with such rows, no ratio rows and no P&L depreciation in year
    1, the balance sheet's cash rises by 100 that the statement's net change
    misses, though the reconciled reading balances.
   */
  lemma WiredCashflowMissesOtherAssets(pnlRows: seq<PnlRow>, pout: seq<PnlModelRow>, rows: seq<BalanceRow>, years: seq<int>, bout: seq<ComputedRow>)
    requires PageState(pnlRows, pout, rows, years, [], bout)
    requires OtherAssetsOnly(rows)
    requires pout[1].dep == 0.0
    ensures |WiredCashflow(pout, bout, years)| == |ReconciledCashflow(pout, bout, years)| == |years|
    ensures ReconciledCashflow(pout, bout, years)[1].netChange == ReconciledCashflow(pout, bout, years)[1].cashCheck
    ensures WiredCashflow(pout, bout, years)[1].cashCheck - WiredCashflow(pout, bout, years)[1].netChange == 100.0
  {
    OtherAssetsBalance(pnlRows, pout, rows, years, bout);
    SecondYearGaps(pnlRows, pout, rows, years, bout);
    var w, f := WiredCashflow(pout, bout, years)[1], ReconciledCashflow(pout, bout, years)[1];
    MissedBy(w.netChange, w.cashCheck, f.netChange, f.cashCheck,
             bout[0].items.Net(), bout[1].items.Net(), NetLines(Some(WiredView(bout[0]))), NetLines(Some(WiredView(bout[1]))),
             pout[1].dep - bout[1].depreciation, rows[1].equityContribution.GetOr(0.0) - rows[1].dividend.GetOr(0.0));
  }

  /**
    The balance page as written: its plain P&L rows name depreciation and
    interest differently from what the roll-forward reads, so year 0 shows
    neither, and saving writes 0 back as that year's P&L depreciation and interest.
   */
  lemma BalancePageDropsPnlCharges(pnl: seq<PnlRow>, rows: seq<BalanceRow>, years: seq<int>, ratios: seq<RatioRow>)
    requires Aligned(rows, years) && |years| > 0
    ensures ComputeBalance(rows, ComputedFactsAsWritten(ComputePnl(pnl, years)), years, ratios).Ok?
    ensures var out := ComputeBalance(rows, ComputedFactsAsWritten(ComputePnl(pnl, years)), years, ratios).value;
      && out[0].depreciation == 0.0 && out[0].interest == 0.0
      && BalanceData.PnlPatches(out)[0] == BalanceData.PnlPatch(years[0], 0.0, 0.0)
  {
    var facts := ComputedFactsAsWritten(ComputePnl(pnl, years));
    AlignedComputes(rows, facts, years, ratios);
    var out := ComputeBalance(rows, facts, years, ratios).value;
    FixedAssetRoll(rows, facts, years, ratios, out, 0);
    InterestOnAverageDebt(rows, facts, years, ratios, out, 0);
  }

  /**
    Carrying depreciation and interest over under the names the roll-forward
    reads, year 0 shows the P&L's own figures, and saving writes them back unchanged.
   */
  lemma BalancePageKeepsPnlCharges(pnl: seq<PnlRow>, rows: seq<BalanceRow>, years: seq<int>, ratios: seq<RatioRow>)
    requires Aligned(rows, years) && |years| > 0
    ensures ComputeBalance(rows, ComputedFacts(ComputePnl(pnl, years)), years, ratios).Ok?
    ensures var pc := ComputePnl(pnl, years);
      var out := ComputeBalance(rows, ComputedFacts(pc), years, ratios).value;
      && out[0].depreciation == pc[0].depreciation && out[0].interest == pc[0].interest
      && BalanceData.PnlPatches(out)[0] == BalanceData.PnlPatch(years[0], pc[0].depreciation, pc[0].interest)
  {
    var pc := ComputePnl(pnl, years);
    var facts := ComputedFacts(pc);
    AlignedComputes(rows, facts, years, ratios);
    var out := ComputeBalance(rows, facts, years, ratios).value;
    FindFirst(facts, FactsYearOf, 0);
    assert FactsYearOf(facts[0]) == years[0];
    FixedAssetRoll(rows, facts, years, ratios, out, 0);
    InterestOnAverageDebt(rows, facts, years, ratios, out, 0);
  }

  /**
    A P&L row whose year-0 depreciation is not 0 shows the loss: the page as
    written and the corrected page disagree on year 0's depreciation.
   */
  lemma BalancePageLosesDepreciation(pnl: seq<PnlRow>, rows: seq<BalanceRow>, years: seq<int>, ratios: seq<RatioRow>)
    requires Aligned(rows, years) && |years| > 0
    requires RowFor(pnl, years[0]).Some? && RowFor(pnl, years[0]).value.depreciation != 0.0
    ensures ComputeBalance(rows, ComputedFactsAsWritten(ComputePnl(pnl, years)), years, ratios).Ok?
    ensures ComputeBalance(rows, ComputedFacts(ComputePnl(pnl, years)), years, ratios).Ok?
    ensures ComputeBalance(rows, ComputedFactsAsWritten(ComputePnl(pnl, years)), years, ratios).value[0].depreciation
            != ComputeBalance(rows, ComputedFacts(ComputePnl(pnl, years)), years, ratios).value[0].depreciation
  {
    BalancePageDropsPnlCharges(pnl, rows, years, ratios);
    BalancePageKeepsPnlCharges(pnl, rows, years, ratios);
  }
}
