/**
  The P&L forecast (`usePnlModel`): year 0 passes the actuals through, later years
  grow revenue, apply cost percentages that carry forward until overridden, and
  tax EBT at the year's rate. Depreciation and interest are inputs for every year.
 */
module PnlModel {
  import opened JsMath
  import opened Lookup

  /** One stored P&L year: resolved amounts plus the nullable forecasting drivers. */
  datatype PnlRow = PnlRow(
    year: int,
    revenue: real,
    cogs: real,
    opex: real,
    depreciation: real,
    interest: real,
    taxes: real,
    revenueGrowthPct: Option<real>,
    cogsPct: Option<real>,
    opexPct: Option<real>,
    taxRatePct: Option<real>)

  /** One projected year with its margin chain (`dep`/`int` of the source are `dep`/`interest`). */
  datatype PnlModelRow = PnlModelRow(
    year: int,
    revenue: real,
    cogs: real,
    opex: real,
    dep: real,
    interest: real,
    tax: real,
    grossMargin: real,
    EBITDA: real,
    EBIT: real,
    EBT: real,
    netResult: real,
    cogsPctEff: real,
    opexPctEff: real)

  /** The error the projection throws: a requested year has no input row. */
  datatype PnlError = MissingPnlRow(year: int)

  function YearOf(r: PnlRow): int { r.year }

  function ModelYearOf(m: PnlModelRow): int { m.year }

  /** `rows.find((x) => x.year === year)` */
  function RowFor(rows: seq<PnlRow>, year: int): Option<PnlRow> {
    Find(rows, YearOf, year)
  }

  /** `pnl.find((p) => p.year === year)` over projected rows. */
  function ModelRowFor(pnl: seq<PnlModelRow>, year: int): Option<PnlModelRow> {
    Find(pnl, ModelYearOf, year)
  }

  predicate HasRow(rows: seq<PnlRow>, year: int) {
    RowFor(rows, year).Some?
  }

  /** Every year from position `i` on has an input row. */
  predicate AllPresent(rows: seq<PnlRow>, years: seq<int>, i: nat) {
    forall k | i <= k < |years| :: HasRow(rows, years[k])
  }

  /** The accounting identities every projected year satisfies. */
  predicate MarginChain(m: PnlModelRow) {
    && m.grossMargin == m.revenue - m.cogs
    && m.EBITDA == m.grossMargin - m.opex
    && m.EBIT == m.EBITDA - m.dep
    && m.EBT == m.EBIT - m.interest
    && m.netResult == m.EBT - m.tax
  }

  /** What one year hands to the next: its revenue and effective cost percentages. */
  datatype Carry = Carry(revenue: real, cogsPct: real, opexPct: real)

  /** Effective % of revenue, `round1(amount / max(revenue, 1) * 100)`. */
  function EffectivePct(amount: real, revenue: real): real {
    Round1(amount / Max(revenue, 1.0) * 100.0)
  }

  /** The row for one year once its revenue, cogs, opex and tax are known. */
  function Assemble(year: int, revenue: real, cogs: real, opex: real, r: PnlRow, tax: real): (m: PnlModelRow)
    ensures m.year == year && m.revenue == revenue && m.cogs == cogs && m.opex == opex && m.tax == tax
    ensures m.dep == r.depreciation && m.interest == r.interest
    ensures MarginChain(m)
    ensures IsIntegral(m.cogsPctEff * 10.0)
    ensures cogs / Max(revenue, 1.0) * 100.0 - 0.05 < m.cogsPctEff <= cogs / Max(revenue, 1.0) * 100.0 + 0.05
    ensures IsIntegral(m.opexPctEff * 10.0)
    ensures opex / Max(revenue, 1.0) * 100.0 - 0.05 < m.opexPctEff <= opex / Max(revenue, 1.0) * 100.0 + 0.05
  {
    Round1Bounds(cogs / Max(revenue, 1.0) * 100.0);
    Round1Bounds(opex / Max(revenue, 1.0) * 100.0);
    var grossMargin := revenue - cogs;
    var ebitda := grossMargin - opex;
    var ebit := ebitda - r.depreciation;
    var ebt := ebit - r.interest;
    PnlModelRow(year, revenue, cogs, opex, r.depreciation, r.interest, tax,
                grossMargin, ebitda, ebit, ebt, ebt - tax,
                EffectivePct(cogs, revenue), EffectivePct(opex, revenue))
  }

  /** Tax of a forecast year: the rate applied to a positive EBT, or the stored taxes when no rate is set. */
  function ForecastTax(r: PnlRow, ebt: real): (t: real)
    ensures r.taxRatePct.None? ==> t == r.taxes
    ensures r.taxRatePct.Some? && ebt <= 0.0 ==> t == 0.0
    ensures r.taxRatePct.Some? && ebt > 0.0 ==>
      IsIntegral(t) && OfPct(r.taxRatePct.value, ebt) - 0.5 < t <= OfPct(r.taxRatePct.value, ebt) + 0.5
  {
    match r.taxRatePct
    case None => r.taxes
    case Some(rate) =>
      if ebt > 0.0 then
        RoundBounds(OfPct(rate, ebt));
        Round(OfPct(rate, ebt))
      else 0.0
  }

  /** Year 0: the actuals, unchanged. */
  function BaseYear(r: PnlRow, year: int): (m: PnlModelRow)
    ensures m.year == year && m.revenue == r.revenue && m.cogs == r.cogs && m.opex == r.opex && m.tax == r.taxes
    ensures m.dep == r.depreciation && m.interest == r.interest
    ensures MarginChain(m)
  {
    Assemble(year, r.revenue, r.cogs, r.opex, r, r.taxes)
  }

  /** A year after year 0, driven by the previous year's carry. */
  function ForecastYear(r: PnlRow, year: int, c: Carry): (m: PnlModelRow)
    ensures m.year == year && m.dep == r.depreciation && m.interest == r.interest
    ensures MarginChain(m)
    ensures IsIntegral(m.revenue)
    ensures Grow(c.revenue, r.revenueGrowthPct.GetOr(0.0)) - 0.5 < m.revenue <= Grow(c.revenue, r.revenueGrowthPct.GetOr(0.0)) + 0.5
    ensures IsIntegral(m.cogs)
    ensures OfPct(r.cogsPct.GetOr(c.cogsPct), m.revenue) - 0.5 < m.cogs <= OfPct(r.cogsPct.GetOr(c.cogsPct), m.revenue) + 0.5
    ensures IsIntegral(m.opex)
    ensures OfPct(r.opexPct.GetOr(c.opexPct), m.revenue) - 0.5 < m.opex <= OfPct(r.opexPct.GetOr(c.opexPct), m.revenue) + 0.5
    ensures m.tax == ForecastTax(r, m.EBT)
  {
    RoundBounds(Grow(c.revenue, r.revenueGrowthPct.GetOr(0.0)));
    var revenue := Round(Grow(c.revenue, r.revenueGrowthPct.GetOr(0.0)));
    RoundBounds(OfPct(r.cogsPct.GetOr(c.cogsPct), revenue));
    RoundBounds(OfPct(r.opexPct.GetOr(c.opexPct), revenue));
    var cogs := Round(OfPct(r.cogsPct.GetOr(c.cogsPct), revenue));
    var opex := Round(OfPct(r.opexPct.GetOr(c.opexPct), revenue));
    var ebt := revenue - cogs - opex - r.depreciation - r.interest;
    Assemble(year, revenue, cogs, opex, r, ForecastTax(r, ebt))
  }

  function CarryOf(m: PnlModelRow): Carry {
    Carry(m.revenue, m.cogsPctEff, m.opexPctEff)
  }

  /** One year of the loop: the base year when nothing is carried in, a forecast otherwise. */
  function YearStep(r: PnlRow, year: int, prev: Option<Carry>): (m: PnlModelRow)
    ensures m.year == year && m.dep == r.depreciation && m.interest == r.interest
    ensures MarginChain(m)
    ensures prev.None? ==> m.revenue == r.revenue && m.cogs == r.cogs && m.opex == r.opex && m.tax == r.taxes
    ensures prev.Some? ==> IsIntegral(m.revenue) && IsIntegral(m.cogs) && IsIntegral(m.opex)
    ensures prev.Some? ==> m.tax == ForecastTax(r, m.EBT)
  {
    match prev
    case None => BaseYear(r, year)
    case Some(c) => ForecastYear(r, year, c)
  }

  /** Projects the years from position `i` on, carrying `prev` in; the first missing row raises. */
  function Fold(rows: seq<PnlRow>, years: seq<int>, i: nat, prev: Option<Carry>): (res: Result<seq<PnlModelRow>, PnlError>)
    requires i <= |years|
    ensures res.Ok? <==> AllPresent(rows, years, i)
    ensures res.Ok? ==> |res.value| == |years| - i
    ensures res.Ok? ==> forall k | 0 <= k < |res.value| :: res.value[k].year == years[i + k]
    ensures res.Err? ==> res.error.year in years[i..] && !HasRow(rows, res.error.year)
    decreases |years| - i
  {
    if i == |years| then Ok([])
    else
      match RowFor(rows, years[i])
      case None => Err(MissingPnlRow(years[i]))
      case Some(r) =>
        var m := YearStep(r, years[i], prev);
        match Fold(rows, years, i + 1, Some(CarryOf(m)))
        case Err(e) => Err(e)
        case Ok(rest) => Ok([m] + rest)
  }

  /**
    `usePnlModel`: empty input, or no row for the first year, gives no rows; any
    later year without a row raises; otherwise one row per year, in order.
   */
  function Project(rows: seq<PnlRow>, years: seq<int>): (res: Result<seq<PnlModelRow>, PnlError>)
    ensures |rows| == 0 || |years| == 0 || !HasRow(rows, years[0]) ==> res == Ok([])
    ensures res.Err? <==> |rows| > 0 && |years| > 0 && HasRow(rows, years[0]) && !AllPresent(rows, years, 1)
    ensures res.Err? ==> res.error.year in years[1..] && !HasRow(rows, res.error.year)
    ensures res.Ok? && |rows| > 0 && |years| > 0 && HasRow(rows, years[0]) ==> |res.value| == |years|
    ensures res.Ok? ==> forall i | 0 <= i < |res.value| :: res.value[i].year == years[i]
  {
    if |rows| == 0 || |years| == 0 || !HasRow(rows, years[0]) then Ok([])
    else Fold(rows, years, 0, None)
  }

  /** Row `k` of a fold is the step for its year from the carry of the row before it. */
  lemma {:induction false} FoldRow(rows: seq<PnlRow>, years: seq<int>, i: nat, prev: Option<Carry>, out: seq<PnlModelRow>, k: nat)
    requires i <= |years|
    requires Fold(rows, years, i, prev) == Ok(out)
    requires k < |out|
    ensures HasRow(rows, years[i + k])
    ensures out[k] == YearStep(RowFor(rows, years[i + k]).value, years[i + k],
                               if k == 0 then prev else Some(CarryOf(out[k - 1])))
    decreases k
  {
    var r := RowFor(rows, years[i]).value;
    var m := YearStep(r, years[i], prev);
    match Fold(rows, years, i + 1, Some(CarryOf(m))) {
      case Ok(rest) =>
        assert out == [m] + rest;
        if k > 0 {
          FoldRow(rows, years, i + 1, Some(CarryOf(m)), rest, k - 1);
          assert out[k] == rest[k - 1];
        }
      case Err(_) =>
    }
  }

  /** Row `i` of a projection is the step for year `i`, carrying in the row before it. */
  lemma ProjectStep(rows: seq<PnlRow>, years: seq<int>, out: seq<PnlModelRow>, i: nat)
    requires Project(rows, years) == Ok(out)
    requires i < |out|
    ensures HasRow(rows, years[i])
    ensures out[i] == YearStep(RowFor(rows, years[i]).value, years[i], if i == 0 then None else Some(CarryOf(out[i - 1])))
  {
    FoldRow(rows, years, 0, None, out, i);
  }

  /** Year 0 of a projection is built from the first year's row alone. */
  lemma ProjectFirst(rows: seq<PnlRow>, years: seq<int>, out: seq<PnlModelRow>)
    requires Project(rows, years) == Ok(out)
    requires |out| > 0
    ensures HasRow(rows, years[0])
    ensures out[0] == BaseYear(RowFor(rows, years[0]).value, years[0])
  {
    ProjectStep(rows, years, out, 0);
  }

  /** Every later year of a projection is the forecast from the previous output row. */
  lemma ProjectRow(rows: seq<PnlRow>, years: seq<int>, out: seq<PnlModelRow>, i: nat)
    requires Project(rows, years) == Ok(out)
    requires 0 < i < |out|
    ensures HasRow(rows, years[i])
    ensures out[i] == ForecastYear(RowFor(rows, years[i]).value, years[i], CarryOf(out[i - 1]))
  {
    ProjectStep(rows, years, out, i);
  }

  /** What a single forecast year computes, stated against its row and carry. */
  lemma ForecastFacts(r: PnlRow, year: int, c: Carry)
    ensures ForecastYear(r, year, c).revenue == Round(Grow(c.revenue, r.revenueGrowthPct.GetOr(0.0)))
    ensures ForecastYear(r, year, c).cogs == Round(OfPct(r.cogsPct.GetOr(c.cogsPct), ForecastYear(r, year, c).revenue))
    ensures ForecastYear(r, year, c).opex == Round(OfPct(r.opexPct.GetOr(c.opexPct), ForecastYear(r, year, c).revenue))
    ensures ForecastYear(r, year, c).tax == ForecastTax(r, ForecastYear(r, year, c).EBT)
  {
  }

  /** Year 0 revenue, cogs, opex and tax are the input values unchanged. */
  lemma BaseYearIsActual(rows: seq<PnlRow>, years: seq<int>, out: seq<PnlModelRow>)
    requires Project(rows, years) == Ok(out)
    requires |out| > 0
    ensures var r := RowFor(rows, years[0]).value;
      && out[0].revenue == r.revenue && out[0].cogs == r.cogs
      && out[0].opex == r.opex && out[0].tax == r.taxes
  {
    ProjectFirst(rows, years, out);
  }

  /** Later revenue grows from the previous year's revenue; a missing growth counts as 0%. */
  lemma RevenueGrows(rows: seq<PnlRow>, years: seq<int>, out: seq<PnlModelRow>, i: nat)
    requires Project(rows, years) == Ok(out)
    requires 0 < i < |out|
    ensures var g := RowFor(rows, years[i]).value.revenueGrowthPct.GetOr(0.0);
      out[i].revenue == Round(Grow(out[i - 1].revenue, g))
  {
    ProjectRow(rows, years, out, i);
    ForecastFacts(RowFor(rows, years[i]).value, years[i], CarryOf(out[i - 1]));
  }

  /** Every projected row records the effective cost percentages of its own cogs and opex. */
  lemma EffectivePcts(rows: seq<PnlRow>, years: seq<int>, out: seq<PnlModelRow>, i: nat)
    requires Project(rows, years) == Ok(out)
    requires i < |out|
    ensures out[i].cogsPctEff == Round1(out[i].cogs / Max(out[i].revenue, 1.0) * 100.0)
    ensures out[i].opexPctEff == Round1(out[i].opex / Max(out[i].revenue, 1.0) * 100.0)
  {
    ProjectStep(rows, years, out, i);
  }

  /**
    Cost percentages carry forward: without an override a later year applies the
    previous year's EFFECTIVE percentage, so an override only acts on its own year.
   */
  lemma CostPctCarriesForward(rows: seq<PnlRow>, years: seq<int>, out: seq<PnlModelRow>, i: nat)
    requires Project(rows, years) == Ok(out)
    requires 0 < i < |out|
    ensures var r := RowFor(rows, years[i]).value;
      && out[i].cogs == Round(OfPct(r.cogsPct.GetOr(out[i - 1].cogsPctEff), out[i].revenue))
      && out[i].opex == Round(OfPct(r.opexPct.GetOr(out[i - 1].opexPctEff), out[i].revenue))
  {
    ProjectRow(rows, years, out, i);
    ForecastFacts(RowFor(rows, years[i]).value, years[i], CarryOf(out[i - 1]));
  }

  /** Later tax: rate-based and never negative-EBT tax when a rate is set, the stored taxes otherwise. */
  lemma TaxRule(rows: seq<PnlRow>, years: seq<int>, out: seq<PnlModelRow>, i: nat)
    requires Project(rows, years) == Ok(out)
    requires 0 < i < |out|
    ensures var r := RowFor(rows, years[i]).value;
      match r.taxRatePct
      case None => out[i].tax == r.taxes
      case Some(rate) =>
        && (out[i].EBT <= 0.0 ==> out[i].tax == 0.0)
        && (out[i].EBT > 0.0 ==> out[i].tax == Round(OfPct(rate, out[i].EBT)))
  {
    ProjectRow(rows, years, out, i);
    ForecastFacts(RowFor(rows, years[i]).value, years[i], CarryOf(out[i - 1]));
  }

  /** Depreciation and interest are read from the input row in every year, never derived. */
  lemma DepreciationAndInterestAreInputs(rows: seq<PnlRow>, years: seq<int>, out: seq<PnlModelRow>, i: nat)
    requires Project(rows, years) == Ok(out)
    requires 0 <= i < |out|
    ensures HasRow(rows, years[i])
    ensures out[i].dep == RowFor(rows, years[i]).value.depreciation
    ensures out[i].interest == RowFor(rows, years[i]).value.interest
  {
    if i == 0 {
      ProjectFirst(rows, years, out);
    } else {
      ProjectRow(rows, years, out, i);
    }
  }

  /** Every projected year satisfies the margin chain, so net result is revenue less every cost line. */
  lemma MarginChainHolds(rows: seq<PnlRow>, years: seq<int>, out: seq<PnlModelRow>, i: nat)
    requires Project(rows, years) == Ok(out)
    requires 0 <= i < |out|
    ensures MarginChain(out[i])
    ensures out[i].netResult == out[i].revenue - out[i].cogs - out[i].opex - out[i].dep - out[i].interest - out[i].tax
  {
    if i == 0 {
      ProjectFirst(rows, years, out);
    } else {
      ProjectRow(rows, years, out, i);
    }
  }
}
