/**
  The dashboard series: per year the revenue, EBITDA, investments and cash,
  and four financing ratios, each ratio 0 wherever its denominator is 0 or a
  row is missing.
 */
module Dashboard {
  import opened Lookup
  import opened BalanceTypes
  import opened PnlModel
  import opened ComputedBalance
  import PnlView
  import BalanceData

  /** `DashboardSeries`: one value per year in every series. */
  datatype DashboardSeries = DashboardSeries(
    years: seq<int>,
    revenue: seq<real>,
    ebitda: seq<real>,
    investments: seq<real>,
    cash: seq<real>,
    icr: seq<real>,
    ebitdaToDebt: seq<real>,
    netDebtToEbitda: seq<real>,
    debtToEquity: seq<real>)

  /** `balanceComputed.find((b) => b.year === year)` */
  function ComputedRowFor(balance: seq<ComputedRow>, year: int): Option<ComputedRow> {
    Find(balance, ComputedYearOf, year)
  }

  /** Revenue, 0 without a P&L row. */
  function RevenueOf(p: Option<PnlModelRow>): (r: real)
    ensures p.None? ==> r == 0.0
    ensures p.Some? ==> r == p.value.revenue
  {
    match p case Some(m) => m.revenue case None => 0.0
  }

  /** EBITDA as the dashboard computes it, from the three flows. */
  function EbitdaOf(p: Option<PnlModelRow>): (r: real)
    ensures p.None? ==> r == 0.0
    ensures p.Some? && MarginChain(p.value) ==> r == p.value.EBITDA
  {
    match p case Some(m) => m.revenue - m.cogs - m.opex case None => 0.0
  }

  /** Investments, 0 without a balance row. */
  function InvestmentsOf(b: Option<ComputedRow>): (r: real)
    ensures b.None? ==> r == 0.0
    ensures b.Some? ==> r == b.value.input.investments
  {
    match b case Some(c) => c.input.investments case None => 0.0
  }

  /** Cash, 0 without a balance row. */
  function CashOf(b: Option<ComputedRow>): (r: real)
    ensures b.None? ==> r == 0.0
    ensures b.Some? ==> r == b.value.cash
  {
    match b case Some(c) => c.cash case None => 0.0
  }

  /** EBIT over interest; 0 without a row or without interest. */
  function Icr(p: Option<PnlModelRow>): (r: real)
    ensures p.None? || p.value.interest == 0.0 ==> r == 0.0
    ensures p.Some? && p.value.interest != 0.0 ==> r * p.value.interest == p.value.EBIT
  {
    match p
    case None => 0.0
    case Some(m) => if m.interest == 0.0 then 0.0 else m.EBIT / m.interest
  }

  /** EBITDA over total debt; 0 without both rows or without debt. */
  function EbitdaToDebt(p: Option<PnlModelRow>, b: Option<ComputedRow>): (r: real)
    ensures p.None? || b.None? || b.value.input.TotalDebt() == 0.0 ==> r == 0.0
    ensures p.Some? && b.Some? && b.value.input.TotalDebt() != 0.0 ==> r * b.value.input.TotalDebt() == p.value.EBITDA
  {
    if p.None? || b.None? then 0.0
    else
      var totalDebt := b.value.input.longDebt + b.value.input.shortDebt;
      if totalDebt == 0.0 then 0.0 else p.value.EBITDA / totalDebt
  }

  /** Debt net of cash over EBITDA; 0 without both rows or when EBITDA is 0. */
  function NetDebtToEbitda(p: Option<PnlModelRow>, b: Option<ComputedRow>): (r: real)
    ensures p.None? || b.None? || p.value.EBITDA == 0.0 ==> r == 0.0
    ensures p.Some? && b.Some? && p.value.EBITDA != 0.0 ==> r * p.value.EBITDA == b.value.input.TotalDebt() - b.value.cash
  {
    if p.None? || b.None? || p.value.EBITDA == 0.0 then 0.0
    else
      var totalDebt := b.value.input.longDebt + b.value.input.shortDebt;
      (totalDebt - b.value.cash) / p.value.EBITDA
  }

  /** Total debt over equity; 0 without a row or when equity is 0. */
  function DebtToEquity(b: Option<ComputedRow>): (r: real)
    ensures b.None? || b.value.equity == 0.0 ==> r == 0.0
    ensures b.Some? && b.value.equity != 0.0 ==> r * b.value.equity == b.value.input.TotalDebt()
  {
    match b
    case None => 0.0
    case Some(c) =>
      var totalDebt := c.input.longDebt + c.input.shortDebt;
      if c.equity == 0.0 then 0.0 else totalDebt / c.equity
  }

  /** A series of zeros, one per year. */
  function Zeros(years: seq<int>): (z: seq<real>)
    ensures |z| == |years| && forall i | 0 <= i < |z| :: z[i] == 0.0
  {
    seq(|years|, _ => 0.0)
  }

  /** The series when both stages produced rows. */
  function Series(pnl: seq<PnlModelRow>, balance: seq<ComputedRow>, years: seq<int>): (d: DashboardSeries)
    ensures d.years == years
    ensures |d.revenue| == |d.ebitda| == |d.investments| == |d.cash| == |years|
    ensures |d.icr| == |d.ebitdaToDebt| == |d.netDebtToEbitda| == |d.debtToEquity| == |years|
    ensures forall i | 0 <= i < |years| ::
      var p := ModelRowFor(pnl, years[i]);
      var b := ComputedRowFor(balance, years[i]);
      && d.revenue[i] == RevenueOf(p) && d.ebitda[i] == EbitdaOf(p)
      && d.investments[i] == InvestmentsOf(b) && d.cash[i] == CashOf(b)
      && d.icr[i] == Icr(p) && d.ebitdaToDebt[i] == EbitdaToDebt(p, b)
      && d.netDebtToEbitda[i] == NetDebtToEbitda(p, b) && d.debtToEquity[i] == DebtToEquity(b)
  {
    var n := |years|;
    DashboardSeries(
      years,
      seq(n, i requires 0 <= i < n => RevenueOf(ModelRowFor(pnl, years[i]))),
      seq(n, i requires 0 <= i < n => EbitdaOf(ModelRowFor(pnl, years[i]))),
      seq(n, i requires 0 <= i < n => InvestmentsOf(ComputedRowFor(balance, years[i]))),
      seq(n, i requires 0 <= i < n => CashOf(ComputedRowFor(balance, years[i]))),
      seq(n, i requires 0 <= i < n => Icr(ModelRowFor(pnl, years[i]))),
      seq(n, i requires 0 <= i < n => EbitdaToDebt(ModelRowFor(pnl, years[i]), ComputedRowFor(balance, years[i]))),
      seq(n, i requires 0 <= i < n => NetDebtToEbitda(ModelRowFor(pnl, years[i]), ComputedRowFor(balance, years[i]))),
      seq(n, i requires 0 <= i < n => DebtToEquity(ComputedRowFor(balance, years[i]))))
  }

  /** The `data` memo: all zeros when either stage produced no rows, the series otherwise. */
  function DashboardData(pnl: seq<PnlModelRow>, balance: seq<ComputedRow>, years: seq<int>): (d: DashboardSeries)
    ensures d.years == years
    ensures |pnl| == 0 || |balance| == 0 ==>
      d == DashboardSeries(years, Zeros(years), Zeros(years), Zeros(years), Zeros(years),
                           Zeros(years), Zeros(years), Zeros(years), Zeros(years))
    ensures |pnl| > 0 && |balance| > 0 ==> d == Series(pnl, balance, years)
  {
    if |pnl| == 0 || |balance| == 0 then
      var z := Zeros(years);
      DashboardSeries(years, z, z, z, z, z, z, z, z)
    else Series(pnl, balance, years)
  }

  /**
    On a projected P&L and an aligned balance sheet computed from it, every
    series value is the statement's own figure of that year: revenue, EBITDA,
    investments and cash.
   */
  lemma DashboardMatchesStatements(pnlRows: seq<PnlRow>, pout: seq<PnlModelRow>, rows: seq<BalanceRow>,
                                   years: seq<int>, ratios: seq<RatioRow>, bout: seq<ComputedRow>, i: nat)
    requires i < |years|
    requires HasRow(pnlRows, years[0]) && Project(pnlRows, years) == Ok(pout)
    requires Aligned(rows, years)
    requires ComputeBalance(rows, PnlView.ModelFacts(pout), years, ratios) == Ok(bout)
    ensures var d := DashboardData(pout, bout, years);
      && d.revenue[i] == pout[i].revenue
      && d.ebitda[i] == pout[i].EBITDA
      && d.investments[i] == rows[i].investments
      && d.cash[i] == bout[i].cash
  {
    BalanceData.ComputedYearsDistinct(rows, PnlView.ModelFacts(pout), years, ratios, bout);
    FindDistinct(bout, ComputedYearOf, i);
    assert ComputedYearOf(bout[i]) == years[i];
    assert DistinctKeys(pout, ModelYearOf) by {
      forall a, b | 0 <= a < b < |pout| ensures ModelYearOf(pout[a]) != ModelYearOf(pout[b]) {
        assert BalanceYearOf(rows[a]) != BalanceYearOf(rows[b]);
      }
    }
    FindDistinct(pout, ModelYearOf, i);
    assert ModelYearOf(pout[i]) == years[i];
    MarginChainHolds(pnlRows, years, pout, i);
  }

  /** Without either stage's rows every ratio is 0, so the dashboard shows no ratio at all. */
  lemma EmptyStagesShowZeros(pnl: seq<PnlModelRow>, balance: seq<ComputedRow>, years: seq<int>, i: nat)
    requires |pnl| == 0 || |balance| == 0
    requires i < |years|
    ensures var d := DashboardData(pnl, balance, years);
      d.icr[i] == 0.0 && d.ebitdaToDebt[i] == 0.0 && d.netDebtToEbitda[i] == 0.0 && d.debtToEquity[i] == 0.0
  {
  }
}
