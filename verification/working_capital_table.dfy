/**
  The working-capital table's logic: the base ratios implied by the year-0 lines,
  the one-shot prefill of later ratio rows, the cascade a year-0 edit triggers,
  and the values the two tables display. The `useRef` flag of the prefill is the
  `prefillDone` field of an explicit state.
 */
module WorkingCapitalTable {
  import opened JsMath
  import opened Lookup
  import opened BalanceTypes
  import opened Kpis
  import opened PnlView
  import opened WorkingCapital
  import BalanceData

  /** The table is drawn only when rows, P&L and ratios are all non-empty. */
  predicate Rendered(rows: seq<BalanceRow>, pnl: seq<PnlFacts>, ratios: seq<RatioRow>) {
    |rows| > 0 && |pnl| > 0 && |ratios| > 0
  }

  /** `row0 && pnl0`: the first year has both an input row and a P&L row. */
  predicate HasYear0(rows: seq<BalanceRow>, pnl: seq<PnlFacts>, years: seq<int>) {
    |years| > 0 && BalanceRowFor(rows, years[0]).Some? && FactsFor(pnl, years[0]).Some?
  }

  /** `computeBaseKpis(row0, pnl0)`, or zeros when either is missing. */
  function BaseKpisOf(rows: seq<BalanceRow>, pnl: seq<PnlFacts>, years: seq<int>): (k: Ratios)
    ensures !HasYear0(rows, pnl, years) ==> k == ZeroRatios
    ensures HasYear0(rows, pnl, years) ==>
      var p := FactsFor(pnl, years[0]);
      k == BaseKpis(BalanceRowFor(rows, years[0]).value.wc, RevenueOr0(p), CogsOr0(p))
  {
    if HasYear0(rows, pnl, years) then
      var p := FactsFor(pnl, years[0]);
      BaseKpis(BalanceRowFor(rows, years[0]).value.wc, RevenueOr0(p), CogsOr0(p))
    else ZeroRatios
  }

  /** Every ratio row has all five ratios 0. */
  predicate AllRatiosZero(ratios: seq<RatioRow>) {
    forall i | 0 <= i < |ratios| :: ratios[i].ratios.AllZero()
  }

  /** Every ratio row of a year other than `year0` takes the ratios `k`; its year and edited flag are kept. */
  function OverwriteLater(ratios: seq<RatioRow>, year0: int, k: Ratios): (out: seq<RatioRow>)
    ensures |out| == |ratios|
    ensures forall i | 0 <= i < |ratios| :: out[i].year == ratios[i].year && out[i].userEdited == ratios[i].userEdited
    ensures forall i | 0 <= i < |ratios| :: out[i].ratios == (if ratios[i].year == year0 then ratios[i].ratios else k)
  {
    seq(|ratios|, i requires 0 <= i < |ratios| => if ratios[i].year == year0 then ratios[i] else ratios[i].(ratios := k))
  }

  /** The table's ratio rows and the prefill flag. */
  datatype TableState = TableState(ratios: seq<RatioRow>, prefillDone: bool)

  /**
    The prefill effect: once per table, as soon as the first year has an input
    row and a P&L row, and only if every ratio row is still all zeros, every
    later ratio row takes the base ratios. The flag is set whether or not it fired.
   */
  function Prefill(s: TableState, rows: seq<BalanceRow>, pnl: seq<PnlFacts>, years: seq<int>): (t: TableState)
    ensures s.prefillDone ==> t == s
    ensures !Rendered(rows, pnl, s.ratios) ==> t == s
    ensures t.prefillDone <==> s.prefillDone || (Rendered(rows, pnl, s.ratios) && HasYear0(rows, pnl, years))
    ensures t.ratios != s.ratios ==> !s.prefillDone && HasYear0(rows, pnl, years) && AllRatiosZero(s.ratios)
  {
    if s.prefillDone || !Rendered(rows, pnl, s.ratios) || !HasYear0(rows, pnl, years) then s
    else if !AllRatiosZero(s.ratios) then s.(prefillDone := true)
    else TableState(OverwriteLater(s.ratios, years[0], BaseKpisOf(rows, pnl, years)), true)
  }

  /** A second prefill never changes anything: the effect is one-shot. */
  lemma PrefillOnce(s: TableState, rows: seq<BalanceRow>, pnl: seq<PnlFacts>, years: seq<int>,
                    rows2: seq<BalanceRow>, pnl2: seq<PnlFacts>)
    requires Prefill(s, rows, pnl, years).prefillDone
    ensures Prefill(Prefill(s, rows, pnl, years), rows2, pnl2, years) == Prefill(s, rows, pnl, years)
  {
  }

  /**
    When the prefill fires, the first year's ratio rows are untouched and every
    other ratio row takes the base ratios, keeping its year and edited flag.
   */
  lemma PrefillEffect(s: TableState, rows: seq<BalanceRow>, pnl: seq<PnlFacts>, years: seq<int>, i: nat)
    requires !s.prefillDone && Rendered(rows, pnl, s.ratios) && HasYear0(rows, pnl, years) && AllRatiosZero(s.ratios)
    requires i < |s.ratios|
    ensures var t := Prefill(s, rows, pnl, years);
      && |t.ratios| == |s.ratios|
      && t.ratios[i].year == s.ratios[i].year && t.ratios[i].userEdited == s.ratios[i].userEdited
      && (s.ratios[i].year == years[0] ==> t.ratios[i] == s.ratios[i])
      && (s.ratios[i].year != years[0] ==> t.ratios[i].ratios == BaseKpisOf(rows, pnl, years))
  {
  }

  /** Ratios that are not all zero are left alone; only the flag is set. */
  lemma PrefillSkipsEditedRatios(s: TableState, rows: seq<BalanceRow>, pnl: seq<PnlFacts>, years: seq<int>)
    requires !AllRatiosZero(s.ratios)
    ensures Prefill(s, rows, pnl, years).ratios == s.ratios
  {
  }

  /**
    `handleYear0WCChange(line, years[0])` with the entered value: the input row is
    updated, then, when the first year has an input row and a P&L row, every
    later ratio row takes the ratios implied by the edited year-0 lines.
   */
  function Year0Edit(rows: seq<BalanceRow>, pnl: seq<PnlFacts>, ratios: seq<RatioRow>, years: seq<int>, line: WcField, v: real)
    : (r: (seq<BalanceRow>, seq<RatioRow>))
    requires |years| > 0
    ensures r.0 == BalanceData.UpdateRow(rows, years[0], Wc(line), v)
    ensures !HasYear0(rows, pnl, years) ==> r.1 == ratios
  {
    var rows' := BalanceData.UpdateRow(rows, years[0], Wc(line), v);
    if !HasYear0(rows, pnl, years) then (rows', ratios)
    else
      var row0 := BalanceRowFor(rows, years[0]).value;
      var p := FactsFor(pnl, years[0]);
      (rows', OverwriteLater(ratios, years[0], BaseKpis(row0.wc.Set(line, v), RevenueOr0(p), CogsOr0(p))))
  }

  /**
    A year-0 edit never changes a first-year ratio row and overwrites every other
    ratio row, user-edited or not, with the ratios implied by the edited lines;
    the edited flag is carried along unchanged.
   */
  lemma Year0EditCascade(rows: seq<BalanceRow>, pnl: seq<PnlFacts>, ratios: seq<RatioRow>, years: seq<int>, line: WcField, v: real, i: nat)
    requires |years| > 0 && HasYear0(rows, pnl, years)
    requires i < |ratios|
    ensures var out := Year0Edit(rows, pnl, ratios, years, line, v).1;
      && |out| == |ratios|
      && out[i].year == ratios[i].year && out[i].userEdited == ratios[i].userEdited
      && (ratios[i].year == years[0] ==> out[i] == ratios[i])
  {
  }

  /**
    After a year-0 edit, the base ratios the table shows are the ones the
    cascade wrote into the later rows: the rows are edited consistently.
   */
  lemma Year0EditMatchesNewBase(rows: seq<BalanceRow>, pnl: seq<PnlFacts>, ratios: seq<RatioRow>, years: seq<int>, line: WcField, v: real, i: nat)
    requires |years| > 0 && HasYear0(rows, pnl, years)
    requires i < |ratios| && ratios[i].year != years[0]
    ensures var (rows', out) := Year0Edit(rows, pnl, ratios, years, line, v);
      out[i].ratios == BaseKpisOf(rows', pnl, years)
  {
    var rows' := BalanceData.UpdateRow(rows, years[0], Wc(line), v);
    var j :| 0 <= j < |rows| && rows[j].year == years[0] && BalanceRowFor(rows, years[0]) == Some(rows[j])
      && forall k | 0 <= k < j :: rows[k].year != years[0] by {
      FindIndex(rows, years[0]);
    }
    FindIndex(rows', years[0]);
    assert rows'[j] == SetField(rows[j], Wc(line), v);
    assert BalanceRowFor(rows', years[0]) == Some(rows'[j]) by {
      FindFirst(rows', BalanceYearOf, j);
    }
    assert rows'[j].wc == rows[j].wc.Set(line, v);
  }

  /** A found row is the first row of its year. */
  lemma FindIndex(rows: seq<BalanceRow>, year: int)
    ensures BalanceRowFor(rows, year).Some? ==>
      exists j | 0 <= j < |rows| :: rows[j].year == year && BalanceRowFor(rows, year) == Some(rows[j])
        && forall k | 0 <= k < j :: rows[k].year != year
  {
    match IndexOf(rows, BalanceYearOf, year)
    case None =>
    case Some(j) =>
      assert BalanceRowFor(rows, year) == Some(rows[j]);
  }

  /**
    The working-capital line shown for the year at position `idx`: year 0 shows
    the row's own value (0 without a row); a later year converts its ratio row,
    and a missing ratio row makes `ratio!` raise, here `None`.
   */
  function DisplayedItem(rows: seq<BalanceRow>, pnl: seq<PnlFacts>, ratios: seq<RatioRow>, years: seq<int>, idx: nat, line: WcField)
    : (v: Option<real>)
    requires idx < |years|
    ensures idx == 0 ==> v.Some?
    ensures idx > 0 ==> (v.Some? <==> RatioRowFor(ratios, years[idx]).Some?)
  {
    if idx == 0 then
      Some(match BalanceRowFor(rows, years[0]) case Some(r) => r.wc.Get(line) case None => 0.0)
    else
      match RatioRowFor(ratios, years[idx])
      case None => None
      case Some(ratio) =>
        var p := FactsFor(pnl, years[idx]);
        Some(FromKpis(line, ratio.ratios, RevenueOr0(p), CogsOr0(p)))
  }

  /** The ratio shown for the year at position `idx`: the base ratios in year 0, the ratio row (0 without one) after. */
  function DisplayedKpi(rows: seq<BalanceRow>, pnl: seq<PnlFacts>, ratios: seq<RatioRow>, years: seq<int>, idx: nat, f: RatioField)
    : (v: real)
    requires idx < |years|
    ensures idx > 0 ==> v == RatiosOrZero(RatioRowFor(ratios, years[idx])).Get(f)
    ensures idx == 0 && !HasYear0(rows, pnl, years) ==> v == 0.0
    ensures idx == 0 && HasYear0(rows, pnl, years) ==>
      var p := FactsFor(pnl, years[0]);
      v == BaseKpis(BalanceRowFor(rows, years[0]).value.wc, RevenueOr0(p), CogsOr0(p)).Get(f)
  {
    if idx == 0 then BaseKpisOf(rows, pnl, years).Get(f)
    else RatiosOrZero(RatioRowFor(ratios, years[idx])).Get(f)
  }

  /** The rows the page hands to the working-capital resolver: each row's year and lines. */
  function WcInputsOf(rows: seq<BalanceRow>): (ws: seq<WcInputRow>)
    ensures |ws| == |rows|
    ensures forall i | 0 <= i < |rows| :: ws[i] == WcInputRow(rows[i].year, rows[i].wc)
  {
    seq(|rows|, i requires 0 <= i < |rows| => WcInputRow(rows[i].year, rows[i].wc))
  }

  /** Year 0 shows the resolver's lines: the entered row of its year, zeros without one. */
  lemma DisplayedYear0(rows: seq<BalanceRow>, pnl: seq<PnlFacts>, ratios: seq<RatioRow>, years: seq<int>, line: WcField)
    requires 0 < |years|
    ensures DisplayedItem(rows, pnl, ratios, years, 0, line) == Some(Resolve(WcInputsOf(rows), pnl, ratios, years)[0].items.Get(line))
  {
    var items := InputItems(WcInputsOf(rows), years[0]);
    assert DisplayedItem(rows, pnl, ratios, years, 0, line) == Some(items.Get(line)) by {
      InputItemsOfRows(rows, years[0]);
    }
    assert Resolve(WcInputsOf(rows), pnl, ratios, years)[0].items == items;
  }

  /** The resolver's entered lines of a year are the lines of the balance row `find` gives for it. */
  lemma InputItemsOfRows(rows: seq<BalanceRow>, year: int)
    ensures InputItems(WcInputsOf(rows), year) == match BalanceRowFor(rows, year) case Some(r) => r.wc case None => ZeroItems
  {
    var ws := WcInputsOf(rows);
    IndexOfMapped(rows, ws, BalanceYearOf, InputYearOf, year);
    match IndexOf(rows, BalanceYearOf, year) {
      case None =>
      case Some(k) =>
        assert ws[k] == WcInputRow(rows[k].year, rows[k].wc);
    }
  }

  /** A later year with a ratio row shows the resolver's converted line. */
  lemma DisplayedLater(rows: seq<BalanceRow>, pnl: seq<PnlFacts>, ratios: seq<RatioRow>, years: seq<int>, idx: nat, line: WcField)
    requires 0 < idx < |years|
    requires RatioRowFor(ratios, years[idx]).Some?
    ensures DisplayedItem(rows, pnl, ratios, years, idx, line) == Some(Resolve(WcInputsOf(rows), pnl, ratios, years)[idx].items.Get(line))
  {
    ResolveLines(WcInputsOf(rows), pnl, ratios, years, idx, line);
    assert RatiosOrZero(RatioRowFor(ratios, years[idx])) == RatioRowFor(ratios, years[idx]).value.ratios;
  }

  /**
    The table shows what the resolver computes: the same year-0 lines, and for
    a later year with a ratio row the same converted lines.
   */
  lemma DisplayedMatchesResolver(rows: seq<BalanceRow>, pnl: seq<PnlFacts>, ratios: seq<RatioRow>, years: seq<int>, idx: nat, line: WcField)
    requires idx < |years|
    requires idx > 0 ==> RatioRowFor(ratios, years[idx]).Some?
    ensures DisplayedItem(rows, pnl, ratios, years, idx, line) == Some(Resolve(WcInputsOf(rows), pnl, ratios, years)[idx].items.Get(line))
  {
    if idx == 0 {
      DisplayedYear0(rows, pnl, ratios, years, line);
    } else {
      DisplayedLater(rows, pnl, ratios, years, idx, line);
    }
  }

  /**
    A prefill makes the later years reproduce the year-0 lines: for a later year
    with the first year's flows, each displayed line is within the rounding slack
    of `BaseKpisRoundTrip` of the entered year-0 line.
   */
  lemma PrefillReproducesYear0(s: TableState, rows: seq<BalanceRow>, pnl: seq<PnlFacts>, years: seq<int>, idx: nat, line: WcField)
    requires !s.prefillDone && Rendered(rows, pnl, s.ratios) && HasYear0(rows, pnl, years) && AllRatiosZero(s.ratios)
    requires 0 < idx < |years| && years[idx] != years[0]
    requires RatioRowFor(s.ratios, years[idx]).Some?
    requires RevenueOr0(FactsFor(pnl, years[idx])) == RevenueOr0(FactsFor(pnl, years[0]))
    requires CogsOr0(FactsFor(pnl, years[idx])) == CogsOr0(FactsFor(pnl, years[0]))
    requires FlowOf(line, RevenueOr0(FactsFor(pnl, years[0])), CogsOr0(FactsFor(pnl, years[0]))) > 0.0
    ensures var t := Prefill(s, rows, pnl, years);
      var p := FactsFor(pnl, years[0]);
      var shown := DisplayedItem(rows, pnl, t.ratios, years, idx, line);
      && shown.Some?
      && Abs(shown.value - BalanceRowFor(rows, years[0]).value.wc.Get(line)) <= RoundTripSlack(line, RevenueOr0(p), CogsOr0(p))
  {
    var t := Prefill(s, rows, pnl, years);
    var k := BaseKpisOf(rows, pnl, years);
    assert t.ratios == OverwriteLater(s.ratios, years[0], k);
    IndexOfMapped(s.ratios, t.ratios, RatioYearOf, RatioYearOf, years[idx]);
    match IndexOf(s.ratios, RatioYearOf, years[idx]) {
      case Some(j) =>
        assert RatioRowFor(t.ratios, years[idx]) == Some(t.ratios[j]);
        assert t.ratios[j].ratios == k;
      case None =>
    }
    var p := FactsFor(pnl, years[0]);
    BaseKpisRoundTrip(BalanceRowFor(rows, years[0]).value.wc, RevenueOr0(p), CogsOr0(p), line);
  }
}
