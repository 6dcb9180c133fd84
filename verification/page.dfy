/**
  The financial-statements page's wiring: the computed balance rows as the
  cash-flow statement reads them, and what each year of the page looks up.
 */
module Page {
  import opened Lookup
  import opened BalanceTypes
  import opened PnlModel
  import opened PnlView
  import opened ComputedBalance
  import opened Cashflow
  import BalanceData

  /**
    A computed balance row as the cash-flow statement reads it: the lines are
    the ones carried over from the input row, and the two "other" lines are
    looked up under names the row does not have, so they are absent.
   */
  function WiredView(c: ComputedRow): (b: CfBalance)
    ensures b.year == c.input.year
    ensures b.otherShortTermAssets.None? && b.otherShortTermLiabilities.None?
    ensures NetLines(Some(b)) == c.input.wc.inventory + c.input.wc.receivables - c.input.wc.payables
  {
    CfBalance(c.input.year, Some(c.input.wc.inventory), Some(c.input.wc.receivables), None,
              Some(c.input.wc.payables), None, Some(c.input.investments),
              Some(c.input.longDebt), Some(c.input.shortDebt), Some(c.cash))
  }

  /** A computed balance row read with the lines the roll-forward computed. */
  function ReconciledView(c: ComputedRow): (b: CfBalance)
    ensures b.year == c.input.year
    ensures NetLines(Some(b)) == c.items.Net()
  {
    CfBalance(c.input.year, Some(c.items.inventory), Some(c.items.receivables), Some(c.items.otherCurrentAssets),
              Some(c.items.payables), Some(c.items.otherCurrentLiabilities), Some(c.input.investments),
              Some(c.input.longDebt), Some(c.input.shortDebt), Some(c.cash))
  }

  function WiredViews(out: seq<ComputedRow>): (bs: seq<CfBalance>)
    ensures |bs| == |out| && forall i | 0 <= i < |out| :: bs[i] == WiredView(out[i])
  {
    seq(|out|, i requires 0 <= i < |out| => WiredView(out[i]))
  }

  function ReconciledViews(out: seq<ComputedRow>): (bs: seq<CfBalance>)
    ensures |bs| == |out| && forall i | 0 <= i < |out| :: bs[i] == ReconciledView(out[i])
  {
    seq(|out|, i requires 0 <= i < |out| => ReconciledView(out[i]))
  }

  /** The financial-statements page as written: the projected P&L and the computed balance rows go straight in. */
  function WiredCashflow(pout: seq<PnlModelRow>, bout: seq<ComputedRow>, years: seq<int>): seq<CashflowRow> {
    ComputeCashflow(pout, WiredViews(bout), years)
  }

  /** The page with the balance rows read through their computed lines. */
  function ReconciledCashflow(pout: seq<PnlModelRow>, bout: seq<ComputedRow>, years: seq<int>): seq<CashflowRow> {
    ComputeCashflow(pout, ReconciledViews(bout), years)
  }

  /** Everything the financial-statements page computes from its loaded rows, for `years`. */
  predicate PageState(pnlRows: seq<PnlRow>, pout: seq<PnlModelRow>, rows: seq<BalanceRow>, years: seq<int>,
                      ratios: seq<RatioRow>, bout: seq<ComputedRow>) {
    && |years| > 0 && HasRow(pnlRows, years[0]) && Project(pnlRows, years) == Ok(pout)
    && Aligned(rows, years)
    && ComputeBalance(rows, ModelFacts(pout), years, ratios) == Ok(bout)
  }

  /** On the page, each year finds its own projected row, its own computed row, and their views. */
  lemma PageLookups(pnlRows: seq<PnlRow>, pout: seq<PnlModelRow>, rows: seq<BalanceRow>, years: seq<int>,
                    ratios: seq<RatioRow>, bout: seq<ComputedRow>, i: nat)
    requires PageState(pnlRows, pout, rows, years, ratios, bout)
    requires i < |years|
    ensures |pout| == |years| == |bout| && bout[i].input == rows[i]
    ensures ModelRowFor(pout, years[i]) == Some(pout[i])
    ensures FactsFor(ModelFacts(pout), years[i]) == Some(OfModel(pout[i]))
    ensures CfRowFor(WiredViews(bout), years[i]) == Some(WiredView(bout[i]))
    ensures CfRowFor(ReconciledViews(bout), years[i]) == Some(ReconciledView(bout[i]))
  {
    BalanceData.ComputedYearsDistinct(rows, ModelFacts(pout), years, ratios, bout);
    FindDistinct(bout, ComputedYearOf, i);
    assert ComputedYearOf(bout[i]) == years[i];
    IndexOfMapped(bout, WiredViews(bout), ComputedYearOf, CfYearOf, years[i]);
    IndexOfMapped(bout, ReconciledViews(bout), ComputedYearOf, CfYearOf, years[i]);
    assert DistinctKeys(pout, ModelYearOf) by {
      forall a, b | 0 <= a < b < |pout| ensures ModelYearOf(pout[a]) != ModelYearOf(pout[b]) {
        assert BalanceYearOf(rows[a]) != BalanceYearOf(rows[b]);
      }
    }
    FindDistinct(pout, ModelYearOf, i);
    assert ModelYearOf(pout[i]) == years[i];
    ModelFactsFor(pout, years[i]);
  }

  /** The roll-forward's net result of a year on the page is the projection's EBIT less interest and tax. */
  lemma PageNetResult(pnlRows: seq<PnlRow>, pout: seq<PnlModelRow>, rows: seq<BalanceRow>, years: seq<int>,
                      ratios: seq<RatioRow>, bout: seq<ComputedRow>, i: nat)
    requires PageState(pnlRows, pout, rows, years, ratios, bout)
    requires i < |years|
    ensures |bout| == |years| == |pout|
    ensures bout[i].netResult == pout[i].EBIT - pout[i].interest - pout[i].tax
  {
    PageLookups(pnlRows, pout, rows, years, ratios, bout, i);
    EquityRoll(rows, ModelFacts(pout), years, ratios, bout, i);
    MarginChainHolds(pnlRows, years, pout, i);
    assert NetResultOr0(Some(OfModel(pout[i]))) == pout[i].netResult;
  }

  /** A later year `i` on the page and the year `h` before it: what each looks up. */
  lemma PageYear(pnlRows: seq<PnlRow>, pout: seq<PnlModelRow>, rows: seq<BalanceRow>, years: seq<int>,
                 ratios: seq<RatioRow>, bout: seq<ComputedRow>, h: nat, i: nat)
    requires PageState(pnlRows, pout, rows, years, ratios, bout)
    requires h + 1 == i < |years|
    ensures |pout| == |years| == |bout| && bout[i].input == rows[i]
    ensures ModelRowFor(pout, years[i]) == Some(pout[i])
    ensures CfRowFor(WiredViews(bout), years[i]) == Some(WiredView(bout[i]))
    ensures CfRowFor(WiredViews(bout), years[h]) == Some(WiredView(bout[h]))
    ensures CfRowFor(ReconciledViews(bout), years[i]) == Some(ReconciledView(bout[i]))
    ensures CfRowFor(ReconciledViews(bout), years[h]) == Some(ReconciledView(bout[h]))
  {
    PageLookups(pnlRows, pout, rows, years, ratios, bout, h);
    PageLookups(pnlRows, pout, rows, years, ratios, bout, i);
  }

  /** How the cash of a later year `i` on the page rolls forward from the year `h` before it. */
  lemma PageCashRoll(pnlRows: seq<PnlRow>, pout: seq<PnlModelRow>, rows: seq<BalanceRow>, years: seq<int>,
                     ratios: seq<RatioRow>, bout: seq<ComputedRow>, h: nat, i: nat)
    requires PageState(pnlRows, pout, rows, years, ratios, bout)
    requires h + 1 == i < |years|
    ensures |pout| == |years| == |bout|
    ensures bout[i].netResult == pout[i].EBIT - pout[i].interest - pout[i].tax
    ensures bout[i].cash - bout[h].cash
            == bout[i].netResult + rows[i].equityContribution.GetOr(0.0) - rows[i].dividend.GetOr(0.0)
               + (bout[i].input.TotalDebt() - bout[h].input.TotalDebt())
               - bout[i].input.investments + bout[i].depreciation - (bout[i].items.Net() - bout[h].items.Net())
  {
    PageLookups(pnlRows, pout, rows, years, ratios, bout, i);
    CashRollForward(rows, ModelFacts(pout), years, ratios, bout, h, i);
    PageNetResult(pnlRows, pout, rows, years, ratios, bout, i);
  }
}
