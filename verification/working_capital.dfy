/**
  The working-capital resolver (`useWorkingCapital`): year 0 takes the entered
  lines, later years derive every line from that year's ratios and P&L flows.
  A missing input row, ratio row or P&L row reads as all zeros.
 */
module WorkingCapital {
  import opened JsMath
  import opened Lookup
  import opened BalanceTypes
  import opened Kpis
  import opened PnlView

  /** An entered working-capital row. */
  datatype WcInputRow = WcInputRow(year: int, items: WcItems)

  /** A resolved year: its five lines and their net `wc`. */
  datatype WcRow = WcRow(year: int, items: WcItems, wc: real)

  function InputYearOf(r: WcInputRow): int { r.year }

  /** `rows.find((r) => r.year === year)`, all zeros when there is none. */
  function InputItems(rows: seq<WcInputRow>, year: int): WcItems {
    match Find(rows, InputYearOf, year)
    case Some(r) => r.items
    case None => ZeroItems
  }

  /** The resolved lines of the year at position `idx`. */
  function ResolveItems(rows: seq<WcInputRow>, pnl: seq<PnlFacts>, ratios: seq<RatioRow>, year: int, idx: nat): WcItems {
    if idx == 0 then InputItems(rows, year)
    else
      var p := FactsFor(pnl, year);
      ItemsFromKpis(RatiosOrZero(RatioRowFor(ratios, year)), RevenueOr0(p), CogsOr0(p))
  }

  /** `useWorkingCapital(rows, pnl, ratios, years)`. */
  function Resolve(rows: seq<WcInputRow>, pnl: seq<PnlFacts>, ratios: seq<RatioRow>, years: seq<int>): (out: seq<WcRow>)
    ensures |out| == |years|
    ensures forall i | 0 <= i < |out| :: out[i].year == years[i]
    ensures forall i | 0 <= i < |out| :: out[i].wc == out[i].items.Net()
    ensures forall i | 0 <= i < |out| :: out[i].items == ResolveItems(rows, pnl, ratios, years[i], i)
    ensures |out| > 0 ==> out[0].items == InputItems(rows, years[0])
    ensures forall i | 0 < i < |out| ::
      out[i].items == ItemsFromKpis(RatiosOrZero(RatioRowFor(ratios, years[i])),
                                    RevenueOr0(FactsFor(pnl, years[i])), CogsOr0(FactsFor(pnl, years[i])))
  {
    seq(|years|, i requires 0 <= i < |years| =>
      var items := ResolveItems(rows, pnl, ratios, years[i], i);
      WcRow(years[i], items, items.Net()))
  }

  /**
    Year 0 is the entered row of its year (zeros when there is none); a later
    line is the rounded share of that year's flow its ratio names, with a
    missing ratio row or P&L row reading as zero.
   */
  lemma ResolveLines(rows: seq<WcInputRow>, pnl: seq<PnlFacts>, ratios: seq<RatioRow>, years: seq<int>, i: nat, f: WcField)
    requires i < |years|
    ensures var out := Resolve(rows, pnl, ratios, years);
      && (i == 0 ==> out[i].items.Get(f) == InputItems(rows, years[i]).Get(f))
      && (i > 0 ==>
            var k := RatiosOrZero(RatioRowFor(ratios, years[i]));
            var p := FactsFor(pnl, years[i]);
            out[i].items.Get(f) == FromKpis(f, k, RevenueOr0(p), CogsOr0(p)))
      && (i > 0 && RatioRowFor(ratios, years[i]).None? ==> out[i].items.Get(f) == 0.0)
  {
  }

  /** Year 0 does not depend on the ratios. */
  lemma Year0IgnoresRatios(rows: seq<WcInputRow>, pnl: seq<PnlFacts>, ratios1: seq<RatioRow>, ratios2: seq<RatioRow>, years: seq<int>)
    requires |years| > 0
    ensures Resolve(rows, pnl, ratios1, years)[0] == Resolve(rows, pnl, ratios2, years)[0]
  {
  }

  /** Later years do not depend on the entered rows. */
  lemma LaterYearsIgnoreInputs(rows1: seq<WcInputRow>, rows2: seq<WcInputRow>, pnl: seq<PnlFacts>, ratios: seq<RatioRow>, years: seq<int>, i: nat)
    requires 0 < i < |years|
    ensures Resolve(rows1, pnl, ratios, years)[i] == Resolve(rows2, pnl, ratios, years)[i]
  {
  }

  /** With every ratio row all zero, every later line and its net are 0. */
  lemma ZeroRatiosZeroLaterYears(rows: seq<WcInputRow>, pnl: seq<PnlFacts>, ratios: seq<RatioRow>, years: seq<int>, i: nat)
    requires forall j | 0 <= j < |ratios| :: ratios[j].ratios.AllZero()
    requires 0 < i < |years|
    ensures Resolve(rows, pnl, ratios, years)[i].items == ZeroItems
    ensures Resolve(rows, pnl, ratios, years)[i].wc == 0.0
  {
    var p := FactsFor(pnl, years[i]);
    var k := RatiosOrZero(RatioRowFor(ratios, years[i]));
    assert k == ZeroRatios;
    ZeroRatiosGiveZeroItems(RevenueOr0(p), CogsOr0(p));
  }
}
