/**
  The plain P&L view of the balance page (`useComputedPnl`): one row per
  requested year holding the stored amounts and the margin chain built from
  them, with a year that has no stored row reading as all zeros.
 */
module ComputedPnl {
  import opened Lookup
  import opened PnlModel

  /** One year of the plain P&L. */
  datatype PnlComputedRow = PnlComputedRow(
    year: int,
    revenue: real,
    cogs: real,
    opex: real,
    depreciation: real,
    interest: real,
    taxes: real,
    ebitda: real,
    ebit: real,
    ebt: real,
    netResult: real)

  /** The row of one year from its stored row, or from zeros when there is none. */
  function ComputeYear(row: Option<PnlRow>, year: int): (c: PnlComputedRow)
    ensures c.year == year
    ensures c.ebitda == c.revenue - c.cogs - c.opex
    ensures c.ebit == c.ebitda - c.depreciation
    ensures c.ebt == c.ebit - c.interest
    ensures c.netResult == c.ebt - c.taxes
    ensures row.None? ==> c == PnlComputedRow(year, 0.0, 0.0, 0.0, 0.0, 0.0, 0.0, 0.0, 0.0, 0.0, 0.0)
    ensures row.Some? ==>
      && c.revenue == row.value.revenue && c.cogs == row.value.cogs && c.opex == row.value.opex
      && c.depreciation == row.value.depreciation && c.interest == row.value.interest
      && c.taxes == row.value.taxes
  {
    var revenue := if row.Some? then row.value.revenue else 0.0;
    var cogs := if row.Some? then row.value.cogs else 0.0;
    var opex := if row.Some? then row.value.opex else 0.0;
    var depreciation := if row.Some? then row.value.depreciation else 0.0;
    var interest := if row.Some? then row.value.interest else 0.0;
    var taxes := if row.Some? then row.value.taxes else 0.0;
    var ebit := revenue - cogs - opex - depreciation;
    var ebt := ebit - interest;
    PnlComputedRow(year, revenue, cogs, opex, depreciation, interest, taxes,
                   revenue - cogs - opex, ebit, ebt, ebt - taxes)
  }

  /** `useComputedPnl(pnl, years)`. */
  function ComputePnl(pnl: seq<PnlRow>, years: seq<int>): (out: seq<PnlComputedRow>)
    ensures |out| == |years|
    ensures forall i | 0 <= i < |out| :: out[i] == ComputeYear(RowFor(pnl, years[i]), years[i])
  {
    seq(|years|, i requires 0 <= i < |years| => ComputeYear(RowFor(pnl, years[i]), years[i]))
  }

  /**
    Every row of the plain P&L is aligned with its year, copies the stored
    amounts (zeros for a missing year) and satisfies the margin chain, so its net
    result is revenue less every cost line.
   */
  lemma ComputePnlRow(pnl: seq<PnlRow>, years: seq<int>, i: nat)
    requires i < |years|
    ensures var c := ComputePnl(pnl, years)[i];
      && c.year == years[i]
      && c.netResult == c.revenue - c.cogs - c.opex - c.depreciation - c.interest - c.taxes
      && (!HasRow(pnl, years[i]) ==> c.revenue == 0.0 && c.netResult == 0.0)
      && (HasRow(pnl, years[i]) ==>
            c.revenue == RowFor(pnl, years[i]).value.revenue && c.taxes == RowFor(pnl, years[i]).value.taxes)
  {
  }
}
