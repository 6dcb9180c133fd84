/**
  The balance-sheet output table's row normalisation: the computed rows are
  indexed by year (a later row of the same year replacing an earlier one), and
  every requested year gets its row with each absent field defaulted to 0, or
  an all-zero row when no row has that year.
 */
module BalanceOutput {
  import opened Lookup

  /** A row of the output table. */
  datatype SheetRow = SheetRow(
    year: int,
    fixedAssets: real,
    wcInventory: real,
    wcReceivables: real,
    wcOtherCurrentAssets: real,
    wcPayables: real,
    wcOtherCurrentLiabilities: real,
    workingCapital: real,
    cash: real,
    equity: real,
    longDebt: real,
    shortDebt: real)

  /** `Partial<BalanceSheetRow>`: any field may be absent. */
  datatype PartialRow = PartialRow(
    fixedAssets: Option<real>,
    wcInventory: Option<real>,
    wcReceivables: Option<real>,
    wcOtherCurrentAssets: Option<real>,
    wcPayables: Option<real>,
    wcOtherCurrentLiabilities: Option<real>,
    workingCapital: Option<real>,
    cash: Option<real>,
    equity: Option<real>,
    longDebt: Option<real>,
    shortDebt: Option<real>)

  /** `{}` */
  const NoFields: PartialRow := PartialRow(None, None, None, None, None, None, None, None, None, None, None)

  /** `EMPTY_ROW(year)` */
  function EmptyRow(year: int): (r: SheetRow)
    ensures r.year == year
  {
    SheetRow(year, 0.0, 0.0, 0.0, 0.0, 0.0, 0.0, 0.0, 0.0, 0.0, 0.0, 0.0)
  }

  /** A full row seen as a partial one: every field present. */
  function AsPartial(r: SheetRow): PartialRow {
    PartialRow(Some(r.fixedAssets), Some(r.wcInventory), Some(r.wcReceivables), Some(r.wcOtherCurrentAssets),
               Some(r.wcPayables), Some(r.wcOtherCurrentLiabilities), Some(r.workingCapital), Some(r.cash),
               Some(r.equity), Some(r.longDebt), Some(r.shortDebt))
  }

  /** `sanitize(row, year)`: every absent field takes the empty row's value; the year is the one asked for. */
  function Sanitize(p: PartialRow, year: int): (r: SheetRow)
    ensures r.year == year
    ensures p == NoFields ==> r == EmptyRow(year)
    ensures p.fixedAssets.Some? ==> r.fixedAssets == p.fixedAssets.value
    ensures p.fixedAssets.None? ==> r.fixedAssets == 0.0
    ensures p.wcInventory.Some? ==> r.wcInventory == p.wcInventory.value
    ensures p.wcInventory.None? ==> r.wcInventory == 0.0
    ensures p.wcReceivables.Some? ==> r.wcReceivables == p.wcReceivables.value
    ensures p.wcReceivables.None? ==> r.wcReceivables == 0.0
    ensures p.wcOtherCurrentAssets.Some? ==> r.wcOtherCurrentAssets == p.wcOtherCurrentAssets.value
    ensures p.wcOtherCurrentAssets.None? ==> r.wcOtherCurrentAssets == 0.0
    ensures p.wcPayables.Some? ==> r.wcPayables == p.wcPayables.value
    ensures p.wcPayables.None? ==> r.wcPayables == 0.0
    ensures p.wcOtherCurrentLiabilities.Some? ==> r.wcOtherCurrentLiabilities == p.wcOtherCurrentLiabilities.value
    ensures p.wcOtherCurrentLiabilities.None? ==> r.wcOtherCurrentLiabilities == 0.0
    ensures p.workingCapital.Some? ==> r.workingCapital == p.workingCapital.value
    ensures p.workingCapital.None? ==> r.workingCapital == 0.0
    ensures p.cash.Some? ==> r.cash == p.cash.value
    ensures p.cash.None? ==> r.cash == 0.0
    ensures p.equity.Some? ==> r.equity == p.equity.value
    ensures p.equity.None? ==> r.equity == 0.0
    ensures p.longDebt.Some? ==> r.longDebt == p.longDebt.value
    ensures p.longDebt.None? ==> r.longDebt == 0.0
    ensures p.shortDebt.Some? ==> r.shortDebt == p.shortDebt.value
    ensures p.shortDebt.None? ==> r.shortDebt == 0.0
  {
    var base := EmptyRow(year);
    SheetRow(
      year,
      p.fixedAssets.GetOr(base.fixedAssets),
      p.wcInventory.GetOr(base.wcInventory),
      p.wcReceivables.GetOr(base.wcReceivables),
      p.wcOtherCurrentAssets.GetOr(base.wcOtherCurrentAssets),
      p.wcPayables.GetOr(base.wcPayables),
      p.wcOtherCurrentLiabilities.GetOr(base.wcOtherCurrentLiabilities),
      p.workingCapital.GetOr(base.workingCapital),
      p.cash.GetOr(base.cash),
      p.equity.GetOr(base.equity),
      p.longDebt.GetOr(base.longDebt),
      p.shortDebt.GetOr(base.shortDebt))
  }

  /** A full row of its own year comes out of `sanitize` unchanged. */
  lemma SanitizeKeepsFullRow(r: SheetRow)
    ensures Sanitize(AsPartial(r), r.year) == r
  {
  }

  /** Sanitizing a sanitized row changes nothing. */
  lemma SanitizeIdempotent(p: PartialRow, year: int)
    ensures Sanitize(AsPartial(Sanitize(p, year)), year) == Sanitize(p, year)
  {
  }

  /**
    `Object.fromEntries(rows.map((r) => [r.year, r]))[year]`: a later entry of a
    key overwrites an earlier one, so the row found is the LAST of its year.
   */
  function LastOfYear(rows: seq<SheetRow>, year: int): (r: Option<SheetRow>)
    ensures r.Some? ==> r.value.year == year
    decreases |rows|
  {
    if |rows| == 0 then None
    else if rows[|rows| - 1].year == year then Some(rows[|rows| - 1])
    else LastOfYear(rows[..|rows| - 1], year)
  }

  /**
    The lookup finds nothing exactly when no row has the year, and otherwise a
    row of the year after which no row has it.
   */
  lemma {:induction false} LastOfYearIsLast(rows: seq<SheetRow>, year: int)
    ensures LastOfYear(rows, year).None? <==> forall j | 0 <= j < |rows| :: rows[j].year != year
    ensures LastOfYear(rows, year).Some? ==> exists j | 0 <= j < |rows| ::
      rows[j] == LastOfYear(rows, year).value && rows[j].year == year
      && forall k | j < k < |rows| :: rows[k].year != year
    decreases |rows|
  {
    if |rows| == 0 {
    } else if rows[|rows| - 1].year == year {
      assert rows[|rows| - 1] == LastOfYear(rows, year).value;
    } else {
      var init := rows[..|rows| - 1];
      LastOfYearIsLast(init, year);
      assert forall j | 0 <= j < |init| :: init[j] == rows[j];
      if LastOfYear(init, year).Some? {
        var j :| 0 <= j < |init| && init[j] == LastOfYear(init, year).value && init[j].year == year
                 && forall k | j < k < |init| :: init[k].year != year;
        assert rows[j] == LastOfYear(rows, year).value;
      }
    }
  }

  /** Appending a row makes it the one its year finds, and leaves every other year's lookup alone. */
  lemma {:induction false} LastWins(rows: seq<SheetRow>, r: SheetRow, year: int)
    ensures LastOfYear(rows + [r], r.year) == Some(r)
    ensures year != r.year ==> LastOfYear(rows + [r], year) == LastOfYear(rows, year)
  {
    assert (rows + [r])[..|rows + [r]| - 1] == rows;
  }

  /** With at most one row per year, the last row of a year is the first, as `find` would give. */
  lemma {:induction false} DistinctLastIsFirst(rows: seq<SheetRow>, i: nat)
    requires i < |rows|
    requires forall a, b | 0 <= a < b < |rows| :: rows[a].year != rows[b].year
    ensures LastOfYear(rows, rows[i].year) == Some(rows[i])
  {
    LastOfYearIsLast(rows, rows[i].year);
    var r := LastOfYear(rows, rows[i].year);
    var j :| 0 <= j < |rows| && rows[j] == r.value && rows[j].year == rows[i].year;
    assert j == i;
  }

  /** The output table's row of one requested year. */
  function NormalizedRow(rows: seq<SheetRow>, year: int): (r: SheetRow)
    ensures r.year == year
    ensures LastOfYear(rows, year).None? ==> r == EmptyRow(year)
    ensures LastOfYear(rows, year).Some? ==> r == LastOfYear(rows, year).value.(year := year)
  {
    match LastOfYear(rows, year)
    case Some(found) => Sanitize(AsPartial(found), year)
    case None => Sanitize(NoFields, year)
  }

  /** `normalizedRows`: one row per requested year, in the order asked. */
  function Normalize(rows: seq<SheetRow>, years: seq<int>): (out: seq<SheetRow>)
    ensures |out| == |years|
    ensures forall i | 0 <= i < |years| :: out[i] == NormalizedRow(rows, years[i])
  {
    seq(|years|, i requires 0 <= i < |years| => NormalizedRow(rows, years[i]))
  }

  /** Normalizing the table's own rows again gives the same table, even when a year is asked twice. */
  lemma NormalizeIdempotent(rows: seq<SheetRow>, years: seq<int>)
    ensures Normalize(Normalize(rows, years), years) == Normalize(rows, years)
  {
    var out := Normalize(rows, years);
    forall i | 0 <= i < |years|
      ensures NormalizedRow(out, years[i]) == out[i]
    {
      assert out[i].year == years[i];
      LastOfYearIsLast(out, years[i]);
      var found := LastOfYear(out, years[i]);
      var j :| 0 <= j < |out| && out[j] == found.value && out[j].year == years[i];
      assert out[j] == NormalizedRow(rows, years[j]);
    }
  }
}
