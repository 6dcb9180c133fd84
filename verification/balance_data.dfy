/**
  The pure parts of the balance page's data hook (`useBalanceData`): turning the
  stored records into input rows and ratio rows, the two edit transitions, the
  year-0 ratio recomputation that opens a save, the records a save writes and the
  P&L patches it sends.
 */
module BalanceData {
  import opened Lookup
  import opened BalanceTypes
  import opened Kpis
  import opened ComputedBalance
  import PnlModel

  /** A stored balance record; a field the record does not hold is `None`. */
  datatype BalanceRecord = BalanceRecord(
    year: int,
    fixedAssets: Option<real>,
    investments: Option<real>,
    depreciationPct: Option<real>,
    interestRatePct: Option<real>,
    inventory: Option<real>,
    receivables: Option<real>,
    otherShortTermAssets: Option<real>,
    payables: Option<real>,
    otherShortTermLiabilities: Option<real>,
    equity: Option<real>,
    longDebt: Option<real>,
    shortDebt: Option<real>,
    cash: Option<real>,
    ratioDio: Option<real>,
    ratioDso: Option<real>,
    ratioDpo: Option<real>,
    ratioOcaPct: Option<real>,
    ratioOclPct: Option<real>)

  function RecordYearOf(b: BalanceRecord): int { b.year }

  /** `ratioFieldMap`: the stored name of each ratio field. */
  function RatioBackendName(f: RatioField): string {
    match f
    case Dio => "ratioDio"
    case Dso => "ratioDso"
    case Dpo => "ratioDpo"
    case OtherCurrentAssetsPct => "ratioOcaPct"
    case OtherCurrentLiabilitiesPct => "ratioOclPct"
  }

  /** The stored ratio a record holds under a ratio field's stored name. */
  function StoredRatio(b: BalanceRecord, f: RatioField): Option<real> {
    match f
    case Dio => b.ratioDio
    case Dso => b.ratioDso
    case Dpo => b.ratioDpo
    case OtherCurrentAssetsPct => b.ratioOcaPct
    case OtherCurrentLiabilitiesPct => b.ratioOclPct
  }

  /** Distinct ratio fields are stored under distinct names, all of them starting `ratio`. */
  lemma RatioBackendNamesDistinct(f: RatioField, g: RatioField)
    ensures f != g ==> RatioBackendName(f) != RatioBackendName(g)
    ensures |RatioBackendName(f)| > 5 && RatioBackendName(f)[..5] == "ratio"
  {
    var n := RatioBackendName(f);
    var m := RatioBackendName(g);
    if f != g {
      assert n[5] != m[5] || n[6] != m[6] || n[7] != m[7];
    }
  }

  /** The optional numeric fields of a stored record. */
  datatype RecordField =
    | StoredFixedAssets | StoredInvestments | StoredDepreciationPct | StoredInterestRatePct
    | StoredInventory | StoredReceivables | StoredOtherShortTermAssets | StoredPayables | StoredOtherShortTermLiabilities
    | StoredEquity | StoredLongDebt | StoredShortDebt | StoredCash
    | RatioStored(ratio: RatioField)

  /** The value a record holds in a field. */
  function Stored(b: BalanceRecord, f: RecordField): Option<real> {
    match f
    case StoredFixedAssets => b.fixedAssets
    case StoredInvestments => b.investments
    case StoredDepreciationPct => b.depreciationPct
    case StoredInterestRatePct => b.interestRatePct
    case StoredInventory => b.inventory
    case StoredReceivables => b.receivables
    case StoredOtherShortTermAssets => b.otherShortTermAssets
    case StoredPayables => b.payables
    case StoredOtherShortTermLiabilities => b.otherShortTermLiabilities
    case StoredEquity => b.equity
    case StoredLongDebt => b.longDebt
    case StoredShortDebt => b.shortDebt
    case StoredCash => b.cash
    case RatioStored(g) => StoredRatio(b, g)
  }

  /** `b?.x ?? d`: the record's value when there is a record holding one, else the default. */
  function Read(b: Option<BalanceRecord>, f: RecordField, d: real): (v: real)
    ensures b.None? ==> v == d
    ensures b.Some? && Stored(b.value, f).Some? ==> v == Stored(b.value, f).value
    ensures b.Some? && Stored(b.value, f).None? ==> v == d
  {
    match b
    case None => d
    case Some(r) => Stored(r, f).GetOr(d)
  }

  /**
    The input row of one year: each field read from that year's record with a
    default of 10 for the depreciation rate, 5 for the interest rate and 0 for
    everything else; the stored `otherShortTerm*` lines become `otherCurrent*`,
    and the P&L depreciation, interest and revenue are copied in.
   */
  function LoadRow(balance: seq<BalanceRecord>, pnl: seq<PnlModel.PnlRow>, year: int): (r: BalanceRow)
    ensures r.year == year && r.equityContribution.None? && r.dividend.None?
    ensures var b := Find(balance, RecordYearOf, year);
      b.Some? ==>
        && r.fixedAssetsInput == b.value.fixedAssets.GetOr(0.0)
        && r.investments == b.value.investments.GetOr(0.0)
        && r.depreciationPct == b.value.depreciationPct.GetOr(10.0)
        && r.interestRatePct == b.value.interestRatePct.GetOr(5.0)
        && r.wc == WcItems(b.value.inventory.GetOr(0.0), b.value.receivables.GetOr(0.0),
                           b.value.otherShortTermAssets.GetOr(0.0), b.value.payables.GetOr(0.0),
                           b.value.otherShortTermLiabilities.GetOr(0.0))
        && r.equityInput == b.value.equity.GetOr(0.0)
        && r.longDebt == b.value.longDebt.GetOr(0.0)
        && r.shortDebt == b.value.shortDebt.GetOr(0.0)
    ensures Find(balance, RecordYearOf, year).None? ==>
      && r.fixedAssetsInput == 0.0 && r.investments == 0.0
      && r.depreciationPct == 10.0 && r.interestRatePct == 5.0
      && r.wc == ZeroItems && r.equityInput == 0.0 && r.longDebt == 0.0 && r.shortDebt == 0.0
    ensures var p := PnlModel.RowFor(pnl, year);
      p.Some? ==> r.depreciationFromPnl == Some(p.value.depreciation) && r.interestFromPnl == Some(p.value.interest)
                  && r.revenueFromPnl == Some(p.value.revenue)
    ensures PnlModel.RowFor(pnl, year).None? ==>
      r.depreciationFromPnl == Some(0.0) && r.interestFromPnl == Some(0.0) && r.revenueFromPnl == Some(0.0)
  {
    var p := PnlModel.RowFor(pnl, year);
    var dep := Some(if p.Some? then p.value.depreciation else 0.0);
    var interest := Some(if p.Some? then p.value.interest else 0.0);
    var revenue := Some(if p.Some? then p.value.revenue else 0.0);
    match Find(balance, RecordYearOf, year)
    case None =>
      BalanceRow(year, 0.0, 0.0, 10.0, 5.0, ZeroItems, 0.0, 0.0, 0.0, None, None, dep, interest, revenue)
    case Some(b) =>
      BalanceRow(
        year,
        b.fixedAssets.GetOr(0.0),
        b.investments.GetOr(0.0),
        b.depreciationPct.GetOr(10.0),
        b.interestRatePct.GetOr(5.0),
        WcItems(b.inventory.GetOr(0.0), b.receivables.GetOr(0.0), b.otherShortTermAssets.GetOr(0.0),
                b.payables.GetOr(0.0), b.otherShortTermLiabilities.GetOr(0.0)),
        b.equity.GetOr(0.0),
        b.longDebt.GetOr(0.0),
        b.shortDebt.GetOr(0.0),
        None,
        None,
        dep, interest, revenue)
  }

  /** The input rows a load builds: one per requested year, in order. */
  function LoadRows(balance: seq<BalanceRecord>, pnl: seq<PnlModel.PnlRow>, years: seq<int>): (rows: seq<BalanceRow>)
    ensures |rows| == |years|
    ensures forall i | 0 <= i < |years| :: rows[i] == LoadRow(balance, pnl, years[i])
  {
    seq(|years|, i requires 0 <= i < |years| => LoadRow(balance, pnl, years[i]))
  }

  /** The ratio row of one year: the stored ratios, 0 where missing, not user-edited. */
  function LoadRatio(balance: seq<BalanceRecord>, year: int): (rr: RatioRow)
    ensures rr.year == year && !rr.userEdited
    ensures Find(balance, RecordYearOf, year).None? ==> rr.ratios == Ratios(0.0, 0.0, 0.0, 0.0, 0.0)
    ensures var b := Find(balance, RecordYearOf, year);
      b.Some? ==> forall f :: rr.ratios.Get(f) == StoredRatio(b.value, f).GetOr(0.0)
  {
    var b := Find(balance, RecordYearOf, year);
    RatioRow(year, Ratios(
      Read(b, RatioStored(Dio), 0.0),
      Read(b, RatioStored(Dso), 0.0),
      Read(b, RatioStored(Dpo), 0.0),
      Read(b, RatioStored(OtherCurrentAssetsPct), 0.0),
      Read(b, RatioStored(OtherCurrentLiabilitiesPct), 0.0)), false)
  }

  /** The ratio rows a load builds: one per requested year, in order. */
  function LoadRatios(balance: seq<BalanceRecord>, years: seq<int>): (ratios: seq<RatioRow>)
    ensures |ratios| == |years|
    ensures forall i | 0 <= i < |years| :: ratios[i] == LoadRatio(balance, years[i])
  {
    seq(|years|, i requires 0 <= i < |years| => LoadRatio(balance, years[i]))
  }

  /**
    A year with no record loads as the default row: rates 10 and 5, every
    amount 0, no contribution or dividend, and the year's P&L figures.
   */
  lemma LoadMissingYear(balance: seq<BalanceRecord>, pnl: seq<PnlModel.PnlRow>, year: int)
    requires forall j | 0 <= j < |balance| :: balance[j].year != year
    ensures var r := LoadRow(balance, pnl, year);
      && r.year == year
      && r.fixedAssetsInput == 0.0 && r.investments == 0.0
      && r.depreciationPct == 10.0 && r.interestRatePct == 5.0
      && r.wc == ZeroItems
      && r.equityInput == 0.0 && r.longDebt == 0.0 && r.shortDebt == 0.0
      && r.equityContribution.None? && r.dividend.None?
    ensures LoadRatio(balance, year) == RatioRow(year, ZeroRatios, false)
  {
  }

  /** A loaded ratio row reads every ratio from the stored field `ratioFieldMap` names, 0 when absent. */
  lemma LoadRatioFields(balance: seq<BalanceRecord>, year: int, f: RatioField)
    ensures var b := Find(balance, RecordYearOf, year);
      LoadRatio(balance, year).ratios.Get(f) == (if b.Some? then StoredRatio(b.value, f).GetOr(0.0) else 0.0)
    ensures !LoadRatio(balance, year).userEdited
  {
  }

  /** Loaded rows line up with the requested years, so a roll-forward over them never raises. */
  lemma LoadedRowsCompute(balance: seq<BalanceRecord>, pnl: seq<PnlModel.PnlRow>, pnlFacts: seq<PnlView.PnlFacts>,
                          years: seq<int>, ratios: seq<RatioRow>)
    requires DistinctKeys(years, (y: int) => y)
    ensures Aligned(LoadRows(balance, pnl, years), years)
    ensures ComputeBalance(LoadRows(balance, pnl, years), pnlFacts, years, ratios).Ok?
  {
    var rows := LoadRows(balance, pnl, years);
    assert forall i | 0 <= i < |rows| :: BalanceYearOf(rows[i]) == years[i];
    assert Aligned(rows, years);
    AlignedComputes(rows, pnlFacts, years, ratios);
  }

  /** `updateRow`: the named field of every row of the year takes the value; nothing else changes. */
  function UpdateRow(rows: seq<BalanceRow>, year: int, f: BalanceField, v: real): (out: seq<BalanceRow>)
    ensures |out| == |rows|
    ensures forall i | 0 <= i < |rows| :: out[i].year == rows[i].year
    ensures forall i | 0 <= i < |rows| && rows[i].year != year :: out[i] == rows[i]
    ensures forall i | 0 <= i < |rows| && rows[i].year == year :: GetField(out[i], f) == Some(v)
    ensures forall i, g | 0 <= i < |rows| && g != f :: GetField(out[i], g) == GetField(rows[i], g)
  {
    seq(|rows|, i requires 0 <= i < |rows| => if rows[i].year == year then SetField(rows[i], f, v) else rows[i])
  }

  /** Repeating an edit changes nothing more. */
  lemma UpdateRowIdempotent(rows: seq<BalanceRow>, year: int, f: BalanceField, v: real)
    ensures UpdateRow(UpdateRow(rows, year, f, v), year, f, v) == UpdateRow(rows, year, f, v)
  {
    var once := UpdateRow(rows, year, f, v);
    var twice := UpdateRow(once, year, f, v);
    forall i | 0 <= i < |rows|
      ensures twice[i] == once[i]
    {
      if rows[i].year == year {
        SetFieldTwice(rows[i], f, v);
      }
    }
  }

  /** Setting a field twice to the same value is setting it once. */
  lemma SetFieldTwice(r: BalanceRow, f: BalanceField, v: real)
    ensures SetField(SetField(r, f, v), f, v) == SetField(r, f, v)
  {
    match f
    case Wc(line) =>
      var w := r.wc.Set(line, v);
      assert w.Set(line, v) == w by {
        match line
        case Inventory =>
        case Receivables =>
        case OtherCurrentAssets =>
        case Payables =>
        case OtherCurrentLiabilities =>
      }
    case _ =>
  }

  /** Edits of two different years commute. */
  lemma UpdateRowsCommute(rows: seq<BalanceRow>, y1: int, f1: BalanceField, v1: real, y2: int, f2: BalanceField, v2: real)
    requires y1 != y2
    ensures UpdateRow(UpdateRow(rows, y1, f1, v1), y2, f2, v2) == UpdateRow(UpdateRow(rows, y2, f2, v2), y1, f1, v1)
  {
  }

  /** An edit keeps the rows aligned with the years, so it never makes the roll-forward raise. */
  lemma UpdateRowKeepsAlignment(rows: seq<BalanceRow>, years: seq<int>, year: int, f: BalanceField, v: real)
    requires Aligned(rows, years)
    ensures Aligned(UpdateRow(rows, year, f, v), years)
  {
    var out := UpdateRow(rows, year, f, v);
    assert forall i | 0 <= i < |out| :: BalanceYearOf(out[i]) == BalanceYearOf(rows[i]);
  }

  /** `updateRatio`: every ratio row of the year takes the value and is marked user-edited; nothing else changes. */
  function UpdateRatio(ratios: seq<RatioRow>, year: int, f: RatioField, v: real): (out: seq<RatioRow>)
    ensures |out| == |ratios|
    ensures forall i | 0 <= i < |ratios| :: out[i].year == ratios[i].year
    ensures forall i | 0 <= i < |ratios| && ratios[i].year != year :: out[i] == ratios[i]
    ensures forall i | 0 <= i < |ratios| && ratios[i].year == year ::
      out[i].ratios.Get(f) == v && out[i].userEdited
    ensures forall i, g | 0 <= i < |ratios| && g != f :: out[i].ratios.Get(g) == ratios[i].ratios.Get(g)
  {
    seq(|ratios|, i requires 0 <= i < |ratios| =>
      if ratios[i].year == year then RatioRow(ratios[i].year, ratios[i].ratios.Set(f, v), true) else ratios[i])
  }

  /** The year-0 ratios save step 0 writes, or nothing when the year-0 row or P&L row is missing. */
  function Step0Kpis(rows: seq<BalanceRow>, pnl: seq<PnlModel.PnlRow>, years: seq<int>): (k: Option<Ratios>)
    ensures k.Some? <==> |years| > 0 && BalanceRowFor(rows, years[0]).Some? && PnlModel.RowFor(pnl, years[0]).Some?
  {
    if |years| == 0 then None
    else
      match (BalanceRowFor(rows, years[0]), PnlModel.RowFor(pnl, years[0]))
      case (Some(row0), Some(pnl0)) => Some(BaseKpis(row0.wc, pnl0.revenue, pnl0.cogs))
      case _ => None
  }

  /**
    Save step 0: every ratio row of the first year takes the ratios implied by the
    year-0 lines (zero-guarded as `computeBaseKpis`); other rows, the year and
    the edited flag are kept.
   */
  function SaveStep0(rows: seq<BalanceRow>, pnl: seq<PnlModel.PnlRow>, ratios: seq<RatioRow>, years: seq<int>): (out: seq<RatioRow>)
    ensures |out| == |ratios|
    ensures Step0Kpis(rows, pnl, years).None? ==> out == ratios
    ensures forall i | 0 <= i < |ratios| ::
      out[i].year == ratios[i].year && out[i].userEdited == ratios[i].userEdited
    ensures forall i | 0 <= i < |ratios| && (|years| == 0 || ratios[i].year != years[0]) :: out[i] == ratios[i]
  {
    match Step0Kpis(rows, pnl, years)
    case None => ratios
    case Some(k) =>
      seq(|ratios|, i requires 0 <= i < |ratios| => if ratios[i].year == years[0] then ratios[i].(ratios := k) else ratios[i])
  }

  /** What step 0 writes into the first year's ratio row. */
  lemma SaveStep0Year0(rows: seq<BalanceRow>, pnl: seq<PnlModel.PnlRow>, ratios: seq<RatioRow>, years: seq<int>, i: nat)
    requires i < |ratios| && |years| > 0 && ratios[i].year == years[0]
    requires BalanceRowFor(rows, years[0]).Some? && PnlModel.RowFor(pnl, years[0]).Some?
    ensures var row0 := BalanceRowFor(rows, years[0]).value;
      var pnl0 := PnlModel.RowFor(pnl, years[0]).value;
      && SaveStep0(rows, pnl, ratios, years)[i].ratios == BaseKpis(row0.wc, pnl0.revenue, pnl0.cogs)
      && (forall f :: FlowOf(f, pnl0.revenue, pnl0.cogs) <= 0.0 ==> SaveStep0(rows, pnl, ratios, years)[i].ratios.Get(RatioOf(f)) == 0.0)
  {
    var row0 := BalanceRowFor(rows, years[0]).value;
    var pnl0 := PnlModel.RowFor(pnl, years[0]).value;
    BaseKpisGuards(row0.wc, pnl0.revenue, pnl0.cogs);
  }

  /** `ratios.find(x => x.year === r.year) ?? <zeros>` read field by field with `?? 0`. */
  function SavedRatios(ratios: seq<RatioRow>, year: int): Ratios {
    RatiosOrZero(RatioRowFor(ratios, year))
  }

  /**
    Save step 2's record for one input row: the computed fixed assets and equity
    when a computed row of the year exists, else the inputs; the computed
    working-capital lines, absent when there is no computed row; cash, else 0;
    the year's ratio row, else zeros.
   */
  function SaveRecord(r: BalanceRow, computed: seq<ComputedRow>, ratios: seq<RatioRow>): (b: BalanceRecord)
    ensures b.year == r.year
    ensures b.investments == Some(r.investments) && b.depreciationPct == Some(r.depreciationPct)
    ensures b.interestRatePct == Some(r.interestRatePct)
    ensures b.longDebt == Some(r.longDebt) && b.shortDebt == Some(r.shortDebt)
    ensures Find(computed, ComputedYearOf, r.year).None? ==>
      && b.fixedAssets == Some(r.fixedAssetsInput) && b.equity == Some(r.equityInput) && b.cash == Some(0.0)
      && b.inventory.None? && b.receivables.None? && b.otherShortTermAssets.None?
      && b.payables.None? && b.otherShortTermLiabilities.None?
    ensures RatioRowFor(ratios, r.year).None? ==>
      b.ratioDio == Some(0.0) && b.ratioDso == Some(0.0) && b.ratioDpo == Some(0.0)
      && b.ratioOcaPct == Some(0.0) && b.ratioOclPct == Some(0.0)
  {
    var comp := Find(computed, ComputedYearOf, r.year);
    var k := SavedRatios(ratios, r.year);
    BalanceRecord(
      r.year,
      Some(if comp.Some? then comp.value.fixedAssets else r.fixedAssetsInput),
      Some(r.investments),
      Some(r.depreciationPct),
      Some(r.interestRatePct),
      if comp.Some? then Some(comp.value.items.inventory) else None,
      if comp.Some? then Some(comp.value.items.receivables) else None,
      if comp.Some? then Some(comp.value.items.otherCurrentAssets) else None,
      if comp.Some? then Some(comp.value.items.payables) else None,
      if comp.Some? then Some(comp.value.items.otherCurrentLiabilities) else None,
      Some(if comp.Some? then comp.value.equity else r.equityInput),
      Some(r.longDebt),
      Some(r.shortDebt),
      Some(if comp.Some? then comp.value.cash else 0.0),
      Some(k.dio), Some(k.dso), Some(k.dpo), Some(k.otherCurrentAssetsPct), Some(k.otherCurrentLiabilitiesPct))
  }

  /** Save step 2: one record per input row, in row order. */
  function SaveRecords(rows: seq<BalanceRow>, computed: seq<ComputedRow>, ratios: seq<RatioRow>): (bs: seq<BalanceRecord>)
    ensures |bs| == |rows|
    ensures forall i | 0 <= i < |rows| :: bs[i] == SaveRecord(rows[i], computed, ratios)
  {
    seq(|rows|, i requires 0 <= i < |rows| => SaveRecord(rows[i], computed, ratios))
  }

  /** A P&L patch of save step 3: the year's depreciation and interest. */
  datatype PnlPatch = PnlPatch(year: int, depreciation: real, interest: real)

  /** Save step 3: one patch per computed row, carrying its depreciation and interest. */
  function PnlPatches(computed: seq<ComputedRow>): (ps: seq<PnlPatch>)
    ensures |ps| == |computed|
    ensures forall i | 0 <= i < |computed| ::
      ps[i].year == computed[i].input.year
      && ps[i].depreciation == computed[i].depreciation && ps[i].interest == computed[i].interest
  {
    seq(|computed|, i requires 0 <= i < |computed| => PnlPatch(computed[i].input.year, computed[i].depreciation, computed[i].interest))
  }

  /** The computed rows of an aligned roll-forward have distinct years. */
  lemma ComputedYearsDistinct(rows: seq<BalanceRow>, pnl: seq<PnlView.PnlFacts>, years: seq<int>, ratios: seq<RatioRow>, out: seq<ComputedRow>)
    requires Aligned(rows, years)
    requires ComputeBalance(rows, pnl, years, ratios) == Ok(out)
    ensures |out| == |rows|
    ensures forall i | 0 <= i < |out| :: out[i].input == rows[i]
    ensures DistinctKeys(out, ComputedYearOf)
  {
    AlignedComputes(rows, pnl, years, ratios);
    assert forall i | 0 <= i < |out| :: ComputedYearOf(out[i]) == BalanceYearOf(rows[i]);
  }

  /** After saving aligned rows, each year finds its own record, built from its own computed row. */
  lemma SavedRecordFound(rows: seq<BalanceRow>, pnl: seq<PnlView.PnlFacts>, years: seq<int>, ratios: seq<RatioRow>,
                         out: seq<ComputedRow>, i: nat)
    requires Aligned(rows, years)
    requires ComputeBalance(rows, pnl, years, ratios) == Ok(out)
    requires i < |years|
    ensures i < |out| && i < |rows|
    ensures Find(out, ComputedYearOf, rows[i].year) == Some(out[i])
    ensures Find(SaveRecords(rows, out, ratios), RecordYearOf, years[i]) == Some(SaveRecord(rows[i], out, ratios))
  {
    ComputedYearsDistinct(rows, pnl, years, ratios, out);
    var records := SaveRecords(rows, out, ratios);
    assert forall j | 0 <= j < |records| :: RecordYearOf(records[j]) == BalanceYearOf(rows[j]);
    assert DistinctKeys(records, RecordYearOf);
    FindDistinct(records, RecordYearOf, i);
    FindDistinct(out, ComputedYearOf, i);
    assert RecordYearOf(records[i]) == years[i];
    assert ComputedYearOf(out[i]) == years[i];
  }

  /** A record holding every field loads as exactly those values. */
  lemma LoadFullRecord(balance: seq<BalanceRecord>, pnl: seq<PnlModel.PnlRow>, year: int, b: BalanceRecord)
    requires Find(balance, RecordYearOf, year) == Some(b)
    requires b.fixedAssets.Some? && b.investments.Some? && b.depreciationPct.Some? && b.interestRatePct.Some?
    requires b.inventory.Some? && b.receivables.Some? && b.otherShortTermAssets.Some?
    requires b.payables.Some? && b.otherShortTermLiabilities.Some?
    requires b.equity.Some? && b.longDebt.Some? && b.shortDebt.Some?
    ensures var r := LoadRow(balance, pnl, year);
      && r.year == year
      && r.fixedAssetsInput == b.fixedAssets.value && r.investments == b.investments.value
      && r.depreciationPct == b.depreciationPct.value && r.interestRatePct == b.interestRatePct.value
      && r.wc == WcItems(b.inventory.value, b.receivables.value, b.otherShortTermAssets.value,
                         b.payables.value, b.otherShortTermLiabilities.value)
      && r.equityInput == b.equity.value && r.longDebt == b.longDebt.value && r.shortDebt == b.shortDebt.value
      && r.equityContribution.None? && r.dividend.None?
  {
  }

  /** A record holding every ratio loads as exactly those ratios. */
  lemma LoadFullRatios(balance: seq<BalanceRecord>, year: int, b: BalanceRecord)
    requires Find(balance, RecordYearOf, year) == Some(b)
    requires b.ratioDio.Some? && b.ratioDso.Some? && b.ratioDpo.Some? && b.ratioOcaPct.Some? && b.ratioOclPct.Some?
    ensures LoadRatio(balance, year).ratios ==
      Ratios(b.ratioDio.value, b.ratioDso.value, b.ratioDpo.value, b.ratioOcaPct.value, b.ratioOclPct.value)
  {
  }

  /**
    Saving aligned rows with their roll-forward and loading the records back
    gives, for every year: the computed fixed assets and equity as the new
    inputs, the computed working-capital lines, the rates, investments and debt
    unchanged, the saved ratios — and no contribution or dividend, which the
    records do not hold.
   */
  lemma SaveThenLoad(rows: seq<BalanceRow>, pnl: seq<PnlView.PnlFacts>, pnlRows: seq<PnlModel.PnlRow>,
                     years: seq<int>, ratios: seq<RatioRow>, out: seq<ComputedRow>, i: nat)
    requires Aligned(rows, years)
    requires ComputeBalance(rows, pnl, years, ratios) == Ok(out)
    requires i < |years|
    ensures i < |out|
    ensures var back := LoadRows(SaveRecords(rows, out, ratios), pnlRows, years)[i];
      && back.year == rows[i].year
      && back.fixedAssetsInput == out[i].fixedAssets
      && back.equityInput == out[i].equity
      && back.wc == out[i].items
      && back.investments == rows[i].investments
      && back.depreciationPct == rows[i].depreciationPct
      && back.interestRatePct == rows[i].interestRatePct
      && back.longDebt == rows[i].longDebt && back.shortDebt == rows[i].shortDebt
      && back.equityContribution.None? && back.dividend.None?
    ensures LoadRatios(SaveRecords(rows, out, ratios), years)[i].ratios == SavedRatios(ratios, years[i])
  {
    SavedRecordFound(rows, pnl, years, ratios, out, i);
    var records := SaveRecords(rows, out, ratios);
    var b := SaveRecord(rows[i], out, ratios);
    LoadFullRecord(records, pnlRows, years[i], b);
    LoadFullRatios(records, years[i], b);
    assert rows[i].year == years[i];
    var k := SavedRatios(ratios, years[i]);
    assert Ratios(b.ratioDio.value, b.ratioDso.value, b.ratioDpo.value, b.ratioOcaPct.value, b.ratioOclPct.value) == k;
    assert LoadRows(records, pnlRows, years)[i] == LoadRow(records, pnlRows, years[i]);
    assert LoadRatios(records, years)[i] == LoadRatio(records, years[i]);
  }
}
