/**
  The P&L fields the balance-sheet stages read from a P&L row: `year`,
  `revenue`, `cogs`, `dep`, `int` and `netResult`. A field the row type does not
  have reads as absent, and the balance stage then falls back to 0.
 */
module PnlView {
  import opened Lookup
  import opened PnlModel
  import opened ComputedPnl

  /** What `pnlYear?.revenue`, `pnlYear?.cogs`, `pnlYear?.dep`, `pnlYear?.int` and `pnlYear?.netResult` read. */
  datatype PnlFacts = PnlFacts(
    year: int,
    revenue: real,
    cogs: real,
    dep: Option<real>,
    interest: Option<real>,
    netResult: real)

  /** A forecast row seen by the balance stage: every field is present. */
  function OfModel(m: PnlModelRow): (p: PnlFacts)
    ensures p.year == m.year && p.revenue == m.revenue && p.cogs == m.cogs
    ensures p.dep == Some(m.dep) && p.interest == Some(m.interest) && p.netResult == m.netResult
  {
    PnlFacts(m.year, m.revenue, m.cogs, Some(m.dep), Some(m.interest), m.netResult)
  }

  /**
    A plain P&L row seen by the balance stage as the balance page wires it: the
    row names its depreciation and interest `depreciation` and `interest`, so
    `dep` and `int` are absent.
   */
  function OfComputedAsWritten(c: PnlComputedRow): (p: PnlFacts)
    ensures p.year == c.year && p.revenue == c.revenue && p.cogs == c.cogs
    ensures p.dep.None? && p.interest.None? && p.netResult == c.netResult
  {
    PnlFacts(c.year, c.revenue, c.cogs, None, None, c.netResult)
  }

  /** A plain P&L row seen by the balance stage with its depreciation and interest carried over. */
  function OfComputed(c: PnlComputedRow): (p: PnlFacts)
    ensures p.year == c.year && p.revenue == c.revenue && p.cogs == c.cogs
    ensures p.dep == Some(c.depreciation) && p.interest == Some(c.interest) && p.netResult == c.netResult
  {
    PnlFacts(c.year, c.revenue, c.cogs, Some(c.depreciation), Some(c.interest), c.netResult)
  }

  function FactsYearOf(p: PnlFacts): int { p.year }

  /** `pnl.find((p) => p.year === year)` */
  function FactsFor(pnl: seq<PnlFacts>, year: int): Option<PnlFacts> {
    Find(pnl, FactsYearOf, year)
  }

  /** `pnlYear?.revenue ?? 0` */
  function RevenueOr0(p: Option<PnlFacts>): real {
    if p.Some? then p.value.revenue else 0.0
  }

  /** `pnlYear?.cogs ?? 0` */
  function CogsOr0(p: Option<PnlFacts>): real {
    if p.Some? then p.value.cogs else 0.0
  }

  /** `pnlYear?.dep ?? 0` */
  function DepOr0(p: Option<PnlFacts>): real {
    if p.Some? then p.value.dep.GetOr(0.0) else 0.0
  }

  /** `pnlYear?.int ?? 0` */
  function InterestOr0(p: Option<PnlFacts>): real {
    if p.Some? then p.value.interest.GetOr(0.0) else 0.0
  }

  /** `pnlYear?.netResult ?? 0` */
  function NetResultOr0(p: Option<PnlFacts>): real {
    if p.Some? then p.value.netResult else 0.0
  }

  function ModelFacts(pnl: seq<PnlModelRow>): (v: seq<PnlFacts>)
    ensures |v| == |pnl| && forall i | 0 <= i < |pnl| :: v[i] == OfModel(pnl[i])
  {
    seq(|pnl|, i requires 0 <= i < |pnl| => OfModel(pnl[i]))
  }

  function ComputedFactsAsWritten(pnl: seq<PnlComputedRow>): (v: seq<PnlFacts>)
    ensures |v| == |pnl| && forall i | 0 <= i < |pnl| :: v[i] == OfComputedAsWritten(pnl[i])
  {
    seq(|pnl|, i requires 0 <= i < |pnl| => OfComputedAsWritten(pnl[i]))
  }

  function ComputedFacts(pnl: seq<PnlComputedRow>): (v: seq<PnlFacts>)
    ensures |v| == |pnl| && forall i | 0 <= i < |pnl| :: v[i] == OfComputed(pnl[i])
  {
    seq(|pnl|, i requires 0 <= i < |pnl| => OfComputed(pnl[i]))
  }

  /** Looking a year up among the facts of a forecast finds the facts of the forecast row of that year. */
  lemma ModelFactsFor(pnl: seq<PnlModelRow>, year: int)
    ensures FactsFor(ModelFacts(pnl), year) ==
      (match ModelRowFor(pnl, year) case None => None case Some(m) => Some(OfModel(m)))
  {
    IndexOfMapped(pnl, ModelFacts(pnl), ModelYearOf, FactsYearOf, year);
  }
}
