/**
  The balance-sheet records shared by the working-capital, balance, financing and
  save/load stages: the five working-capital lines, the five working-capital
  ratios, a stored balance input row and the ratio row the user edits.
 */
module BalanceTypes {
  import opened Lookup

  /** The five working-capital lines. */
  datatype WcField = Inventory | Receivables | OtherCurrentAssets | Payables | OtherCurrentLiabilities

  /** Amounts on the five working-capital lines of one year. */
  datatype WcItems = WcItems(
    inventory: real,
    receivables: real,
    otherCurrentAssets: real,
    payables: real,
    otherCurrentLiabilities: real)
  {
    function Get(f: WcField): real {
      match f
      case Inventory => inventory
      case Receivables => receivables
      case OtherCurrentAssets => otherCurrentAssets
      case Payables => payables
      case OtherCurrentLiabilities => otherCurrentLiabilities
    }

    /** The line `f` replaced by `v`. */
    function Set(f: WcField, v: real): (w: WcItems)
      ensures w.Get(f) == v
      ensures forall g :: g != f ==> w.Get(g) == Get(g)
    {
      match f
      case Inventory => this.(inventory := v)
      case Receivables => this.(receivables := v)
      case OtherCurrentAssets => this.(otherCurrentAssets := v)
      case Payables => this.(payables := v)
      case OtherCurrentLiabilities => this.(otherCurrentLiabilities := v)
    }

    /** Net working capital: the three asset lines less the two liability lines. */
    function Net(): real {
      inventory + receivables + otherCurrentAssets - payables - otherCurrentLiabilities
    }
  }

  const ZeroItems := WcItems(0.0, 0.0, 0.0, 0.0, 0.0)

  /** The five ratio fields (`RatioFrontendField`). */
  datatype RatioField = Dio | Dso | Dpo | OtherCurrentAssetsPct | OtherCurrentLiabilitiesPct

  /** Days inventory, sales and payables outstanding, and the two other lines as % of revenue. */
  datatype Ratios = Ratios(
    dio: real,
    dso: real,
    dpo: real,
    otherCurrentAssetsPct: real,
    otherCurrentLiabilitiesPct: real)
  {
    function Get(f: RatioField): real {
      match f
      case Dio => dio
      case Dso => dso
      case Dpo => dpo
      case OtherCurrentAssetsPct => otherCurrentAssetsPct
      case OtherCurrentLiabilitiesPct => otherCurrentLiabilitiesPct
    }

    function Set(f: RatioField, v: real): (k: Ratios)
      ensures k.Get(f) == v
      ensures forall g :: g != f ==> k.Get(g) == Get(g)
    {
      match f
      case Dio => this.(dio := v)
      case Dso => this.(dso := v)
      case Dpo => this.(dpo := v)
      case OtherCurrentAssetsPct => this.(otherCurrentAssetsPct := v)
      case OtherCurrentLiabilitiesPct => this.(otherCurrentLiabilitiesPct := v)
    }

    predicate AllZero() {
      dio == 0.0 && dso == 0.0 && dpo == 0.0
      && otherCurrentAssetsPct == 0.0 && otherCurrentLiabilitiesPct == 0.0
    }
  }

  const ZeroRatios := Ratios(0.0, 0.0, 0.0, 0.0, 0.0)

  /** A ratio row of one year; `userEdited` is `_userEdited`. */
  datatype RatioRow = RatioRow(year: int, ratios: Ratios, userEdited: bool)

  /** A stored balance input row (the working-capital lines are the year-0 inputs). */
  datatype BalanceRow = BalanceRow(
    year: int,
    fixedAssetsInput: real,
    investments: real,
    depreciationPct: real,
    interestRatePct: real,
    wc: WcItems,
    equityInput: real,
    longDebt: real,
    shortDebt: real,
    equityContribution: Option<real>,
    dividend: Option<real>,
    depreciationFromPnl: Option<real>,
    interestFromPnl: Option<real>,
    revenueFromPnl: Option<real>)
  {
    /** Long plus short debt. */
    function TotalDebt(): real {
      longDebt + shortDebt
    }
  }

  /** The editable numeric fields of a balance row (`keyof BalanceRow` as the tables use it). */
  datatype BalanceField =
    | Wc(line: WcField)
    | FixedAssetsInput
    | Investments
    | DepreciationPct
    | InterestRatePct
    | EquityInput
    | LongDebt
    | ShortDebt
    | EquityContribution
    | Dividend

  /** The current value of a field; an unset contribution or dividend reads as absent. */
  function GetField(r: BalanceRow, f: BalanceField): Option<real> {
    match f
    case Wc(line) => Some(r.wc.Get(line))
    case FixedAssetsInput => Some(r.fixedAssetsInput)
    case Investments => Some(r.investments)
    case DepreciationPct => Some(r.depreciationPct)
    case InterestRatePct => Some(r.interestRatePct)
    case EquityInput => Some(r.equityInput)
    case LongDebt => Some(r.longDebt)
    case ShortDebt => Some(r.shortDebt)
    case EquityContribution => r.equityContribution
    case Dividend => r.dividend
  }

  /** `{ ...r, [field]: value }`. */
  function SetField(r: BalanceRow, f: BalanceField, v: real): (s: BalanceRow)
    ensures GetField(s, f) == Some(v)
    ensures forall g :: g != f ==> GetField(s, g) == GetField(r, g)
    ensures s.year == r.year
    ensures s.depreciationFromPnl == r.depreciationFromPnl && s.interestFromPnl == r.interestFromPnl
    ensures s.revenueFromPnl == r.revenueFromPnl
  {
    match f
    case Wc(line) => r.(wc := r.wc.Set(line, v))
    case FixedAssetsInput => r.(fixedAssetsInput := v)
    case Investments => r.(investments := v)
    case DepreciationPct => r.(depreciationPct := v)
    case InterestRatePct => r.(interestRatePct := v)
    case EquityInput => r.(equityInput := v)
    case LongDebt => r.(longDebt := v)
    case ShortDebt => r.(shortDebt := v)
    case EquityContribution => r.(equityContribution := Some(v))
    case Dividend => r.(dividend := Some(v))
  }

  function BalanceYearOf(r: BalanceRow): int { r.year }

  function RatioYearOf(r: RatioRow): int { r.year }

  /** `rows.find((r) => r.year === year)` */
  function BalanceRowFor(rows: seq<BalanceRow>, year: int): Option<BalanceRow> {
    Find(rows, BalanceYearOf, year)
  }

  /** `ratios.find((r) => r.year === year)` */
  function RatioRowFor(ratios: seq<RatioRow>, year: int): Option<RatioRow> {
    Find(ratios, RatioYearOf, year)
  }

  /** `ratio?.x ?? 0` for every field at once: a missing ratio row reads as all zeros. */
  function RatiosOrZero(ratio: Option<RatioRow>): Ratios {
    match ratio
    case Some(r) => r.ratios
    case None => ZeroRatios
  }
}
