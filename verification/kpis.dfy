/**
  Converting between working-capital lines and working-capital ratios
  (`computeFromKpis` and `computeBaseKpis`). Inventory and payables are
  days of cogs, receivables days of revenue, the other two lines percentages
  of revenue; every converted amount is rounded with `Math.round`.
 */
module Kpis {
  import opened JsMath
  import opened BalanceTypes

  /** The ratio that drives a line. */
  function RatioOf(f: WcField): RatioField {
    match f
    case Inventory => Dio
    case Receivables => Dso
    case Payables => Dpo
    case OtherCurrentAssets => OtherCurrentAssetsPct
    case OtherCurrentLiabilities => OtherCurrentLiabilitiesPct
  }

  /** The annual flow a line is measured against: cogs for inventory and payables, revenue otherwise. */
  function FlowOf(f: WcField, revenue: real, cogs: real): real {
    if f == Inventory || f == Payables then cogs else revenue
  }

  /** The ratio unit of a line: 365 days, or 100 percent. */
  function UnitOf(f: WcField): real {
    if f == OtherCurrentAssets || f == OtherCurrentLiabilities then 100.0 else 365.0
  }

  /** The amount a ratio stands for: `ratio / unit * flow`. */
  function Outstanding(ratio: real, unit: real, flow: real): real
    requires unit != 0.0
  {
    ratio / unit * flow
  }

  /** The exact ratio an amount stands for: `amount / flow * unit`. */
  function ExactRatio(amount: real, flow: real, unit: real): real
    requires flow != 0.0
  {
    (amount / flow) * unit
  }

  /** `computeFromKpis(field, ratios, revenue, cogs)`. */
  function FromKpis(f: WcField, k: Ratios, revenue: real, cogs: real): (r: real)
    ensures IsIntegral(r)
    ensures var exact := Outstanding(k.Get(RatioOf(f)), UnitOf(f), FlowOf(f, revenue, cogs));
      exact - 0.5 < r <= exact + 0.5
    ensures k.Get(RatioOf(f)) == 0.0 ==> r == 0.0
  {
    var x := match f
      case Inventory => OfDays(k.dio, cogs)
      case Receivables => OfDays(k.dso, revenue)
      case Payables => OfDays(k.dpo, cogs)
      case OtherCurrentAssets => OfPct(k.otherCurrentAssetsPct, revenue)
      case OtherCurrentLiabilities => OfPct(k.otherCurrentLiabilitiesPct, revenue);
    assert x == Outstanding(k.Get(RatioOf(f)), UnitOf(f), FlowOf(f, revenue, cogs));
    assert k.Get(RatioOf(f)) == 0.0 ==> x == 0.0;
    RoundBounds(x);
    RoundIntegral(0);
    Round(x)
  }

  /** All five lines from one set of ratios. */
  function ItemsFromKpis(k: Ratios, revenue: real, cogs: real): (w: WcItems)
    ensures forall f :: w.Get(f) == FromKpis(f, k, revenue, cogs)
  {
    WcItems(
      FromKpis(Inventory, k, revenue, cogs),
      FromKpis(Receivables, k, revenue, cogs),
      FromKpis(OtherCurrentAssets, k, revenue, cogs),
      FromKpis(Payables, k, revenue, cogs),
      FromKpis(OtherCurrentLiabilities, k, revenue, cogs))
  }

  /** All-zero ratios give all-zero lines, whatever the revenue and cogs. */
  lemma ZeroRatiosGiveZeroItems(revenue: real, cogs: real)
    ensures ItemsFromKpis(ZeroRatios, revenue, cogs) == ZeroItems
    ensures ItemsFromKpis(ZeroRatios, revenue, cogs).Net() == 0.0
  {
    var w := ItemsFromKpis(ZeroRatios, revenue, cogs);
    assert w.Get(Inventory) == 0.0 && w.Get(Receivables) == 0.0 && w.Get(OtherCurrentAssets) == 0.0;
    assert w.Get(Payables) == 0.0 && w.Get(OtherCurrentLiabilities) == 0.0;
  }

  /** The line implied by an amount: `round(amount / flow * unit)` when the flow is positive, else 0. */
  function Implied(amount: real, flow: real, unit: real): (k: real)
    ensures flow <= 0.0 ==> k == 0.0
    ensures flow > 0.0 ==> IsIntegral(k) && amount / flow * unit - 0.5 < k <= amount / flow * unit + 0.5
  {
    if flow > 0.0 then
      RoundBounds(ExactRatio(amount, flow, unit));
      Round(ExactRatio(amount, flow, unit))
    else 0.0
  }

  /** `computeBaseKpis(row, pnlYear)` with the P&L row's revenue and cogs (0 when it is missing). */
  function BaseKpis(w: WcItems, revenue: real, cogs: real): (k: Ratios)
    ensures forall f :: k.Get(RatioOf(f)) == Implied(w.Get(f), FlowOf(f, revenue, cogs), UnitOf(f))
  {
    Ratios(
      if cogs > 0.0 then Round((w.inventory / cogs) * 365.0) else 0.0,
      if revenue > 0.0 then Round((w.receivables / revenue) * 365.0) else 0.0,
      if cogs > 0.0 then Round((w.payables / cogs) * 365.0) else 0.0,
      if revenue > 0.0 then Round((w.otherCurrentAssets / revenue) * 100.0) else 0.0,
      if revenue > 0.0 then Round((w.otherCurrentLiabilities / revenue) * 100.0) else 0.0)
  }

  /** An implied ratio is whole, and 0 when the flow is not positive. */
  lemma ImpliedFacts(amount: real, flow: real, unit: real)
    ensures IsIntegral(Implied(amount, flow, unit))
    ensures flow <= 0.0 ==> Implied(amount, flow, unit) == 0.0
  {
    if flow > 0.0 {
      RoundBounds(ExactRatio(amount, flow, unit));
    }
  }

  /**
    The guards of `computeBaseKpis`: days of cogs (dio, dpo) are 0 unless cogs is
    positive, days and percentages of revenue (dso and both %) are 0 unless
    revenue is positive; every ratio is a whole number.
   */
  lemma BaseKpisGuards(w: WcItems, revenue: real, cogs: real)
    ensures forall f :: FlowOf(f, revenue, cogs) <= 0.0 ==> BaseKpis(w, revenue, cogs).Get(RatioOf(f)) == 0.0
    ensures forall f :: IsIntegral(BaseKpis(w, revenue, cogs).Get(RatioOf(f)))
  {
    forall f: WcField
      ensures FlowOf(f, revenue, cogs) <= 0.0 ==> BaseKpis(w, revenue, cogs).Get(RatioOf(f)) == 0.0
      ensures IsIntegral(BaseKpis(w, revenue, cogs).Get(RatioOf(f)))
    {
      ImpliedFacts(w.Get(f), FlowOf(f, revenue, cogs), UnitOf(f));
    }
  }

  /** `(x / flow) * unit` is `x / q` and `(d / unit) * flow` is `d * q` for `q = flow / unit`. */
  lemma RescaleByQuotient(x: real, d: real, flow: real, unit: real)
    requires flow > 0.0 && unit > 0.0
    ensures flow / unit > 0.0
    ensures ExactRatio(x, flow, unit) == x / (flow / unit)
    ensures Outstanding(d, unit, flow) == d * (flow / unit)
  {
  }

  /** If `d` is within 1/2 of `x / q`, then `d * q` is within `q / 2` of `x`. */
  lemma ScaleError(x: real, d: real, q: real)
    requires q > 0.0
    requires x / q - 0.5 < d <= x / q + 0.5
    ensures x - q / 2.0 < d * q <= x + q / 2.0
  {
    var e := d - x / q;
    assert d * q == x + e * q;
    assert -0.5 * q < e * q <= 0.5 * q;
  }

  /**
    Converting an amount to a rounded ratio and back, then rounding, lands
    within `flow / (2 * unit) + 1/2` of the amount.
   */
  lemma RoundTripWithin(x: real, flow: real, unit: real, r: real)
    requires flow > 0.0 && unit > 0.0
    requires var back := Outstanding(Round(ExactRatio(x, flow, unit)), unit, flow);
      back - 0.5 < r <= back + 0.5
    ensures Abs(r - x) <= flow / (2.0 * unit) + 0.5
  {
    var d := Round(ExactRatio(x, flow, unit));
    RescaleByQuotient(x, d, flow, unit);
    var q := flow / unit;
    RoundBounds(x / q);
    ScaleError(x, d, q);
    assert q / 2.0 == flow / (2.0 * unit);
  }

  /** The largest error `BaseKpisRoundTrip` allows on a line. */
  function RoundTripSlack(f: WcField, revenue: real, cogs: real): real
    requires UnitOf(f) > 0.0
  {
    FlowOf(f, revenue, cogs) / (2.0 * UnitOf(f)) + 0.5
  }

  /**
    Re-deriving a year-0 line from the ratios implied by it recovers it up to
    `flow / 730 + 1/2` for the day-based lines and `revenue / 200 + 1/2` for the
    percentage lines, provided the flow is positive.
   */
  lemma BaseKpisRoundTrip(w: WcItems, revenue: real, cogs: real, f: WcField)
    requires FlowOf(f, revenue, cogs) > 0.0
    ensures Abs(FromKpis(f, BaseKpis(w, revenue, cogs), revenue, cogs) - w.Get(f)) <= RoundTripSlack(f, revenue, cogs)
  {
    var k := BaseKpis(w, revenue, cogs);
    assert k.Get(RatioOf(f)) == Round(ExactRatio(w.Get(f), FlowOf(f, revenue, cogs), UnitOf(f)));
    RoundTripWithin(w.Get(f), FlowOf(f, revenue, cogs), UnitOf(f), FromKpis(f, k, revenue, cogs));
  }

  /** The round trip is not exact: an inventory of 1 against cogs of 1000 comes back as 0. */
  lemma RoundTripNotExact()
    ensures var w := WcItems(1.0, 0.0, 0.0, 0.0, 0.0);
      FromKpis(Inventory, BaseKpis(w, 1000.0, 1000.0), 1000.0, 1000.0) == 0.0
  {
    var w := WcItems(1.0, 0.0, 0.0, 0.0, 0.0);
    RoundUnique(ExactRatio(1.0, 1000.0, 365.0), 0);
    assert BaseKpis(w, 1000.0, 1000.0).dio == 0.0;
  }
}
