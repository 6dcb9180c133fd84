/**
  The cash-flow statement of the financial-statements page: each year's
  operating, investing and financing flows from the projected P&L and the
  change of the balance lines against the previous year, next to the change of
  balance-sheet cash it should explain. Every balance field is optional and
  a missing one reads as 0, as does a missing row.
 */
module Cashflow {
  import opened Lookup
  import opened BalanceTypes
  import opened PnlModel

  /** The balance fields the statement reads; each may be absent. */
  datatype CfBalance = CfBalance(
    year: int,
    inventory: Option<real>,
    receivables: Option<real>,
    otherShortTermAssets: Option<real>,
    payables: Option<real>,
    otherShortTermLiabilities: Option<real>,
    investments: Option<real>,
    longDebt: Option<real>,
    shortDebt: Option<real>,
    cash: Option<real>)

  /** One year of the statement. */
  datatype CashflowRow = CashflowRow(
    year: int,
    ebit: real, tax: real, noplat: real, depreciation: real, wcChange: real, ocf: real,
    invChange: real, recChange: real, ocaChange: real, payChange: real, oclChange: real,
    investments: real,
    interest: real, dLong: real, dShort: real,
    netChange: real, cashCheck: real)

  function CfYearOf(b: CfBalance): int { b.year }

  /** `balance.find((b) => b.year === year)` */
  function CfRowFor(balance: seq<CfBalance>, year: int): Option<CfBalance> {
    Find(balance, CfYearOf, year)
  }

  /** The balance fields a flow can be taken of. */
  datatype CfField = Line(line: WcField) | LongDebtField | ShortDebtField | CashField | InvestmentsField

  /** The field of a balance row, absent when the row does not hold it. */
  function FieldOf(r: CfBalance, f: CfField): Option<real> {
    match f
    case Line(Inventory) => r.inventory
    case Line(Receivables) => r.receivables
    case Line(OtherCurrentAssets) => r.otherShortTermAssets
    case Line(Payables) => r.payables
    case Line(OtherCurrentLiabilities) => r.otherShortTermLiabilities
    case LongDebtField => r.longDebt
    case ShortDebtField => r.shortDebt
    case CashField => r.cash
    case InvestmentsField => r.investments
  }

  /** `b?.<field> ?? 0` */
  function ValueOf(b: Option<CfBalance>, f: CfField): (v: real)
    ensures b.None? ==> v == 0.0
    ensures b.Some? && FieldOf(b.value, f).Some? ==> v == FieldOf(b.value, f).value
    ensures b.Some? && FieldOf(b.value, f).None? ==> v == 0.0
  {
    match b
    case None => 0.0
    case Some(r) => FieldOf(r, f).GetOr(0.0)
  }

  /** The net working capital a balance row shows: assets minus liabilities, absent lines as 0. */
  function NetLines(b: Option<CfBalance>): (n: real)
    ensures b.None? ==> n == 0.0
    ensures b.Some? ==>
      n == WcItems(b.value.inventory.GetOr(0.0), b.value.receivables.GetOr(0.0), b.value.otherShortTermAssets.GetOr(0.0),
                   b.value.payables.GetOr(0.0), b.value.otherShortTermLiabilities.GetOr(0.0)).Net()
  {
    ValueOf(b, Line(Inventory)) + ValueOf(b, Line(Receivables)) + ValueOf(b, Line(OtherCurrentAssets))
    - ValueOf(b, Line(Payables)) - ValueOf(b, Line(OtherCurrentLiabilities))
  }

  /** `now - prev` of one field. */
  function Delta(now: Option<CfBalance>, prev: Option<CfBalance>, f: CfField): real {
    ValueOf(now, f) - ValueOf(prev, f)
  }

  /**
    One year of the statement from its P&L row and the balance rows of this and
    the previous year (none in the first year).
   */
  function CashflowYear(year: int, p: Option<PnlModelRow>, now: Option<CfBalance>, prev: Option<CfBalance>): (r: CashflowRow)
    ensures r.year == year
    ensures r.wcChange == NetLines(now) - NetLines(prev)
    ensures r.noplat + r.tax == r.ebit
    ensures r.ocf == r.noplat + r.depreciation - r.wcChange
    ensures r.investments == ValueOf(now, InvestmentsField)
    ensures p.Some? ==> r.ebit == p.value.EBIT && r.tax == p.value.tax && r.depreciation == p.value.dep && r.interest == p.value.interest
    ensures r.netChange == r.ocf - r.investments - r.interest + (ValueOf(now, LongDebtField) + ValueOf(now, ShortDebtField))
                                                               - (ValueOf(prev, LongDebtField) + ValueOf(prev, ShortDebtField))
    ensures r.cashCheck == Delta(now, prev, CashField)
    ensures p.None? ==> r.ebit == 0.0 && r.tax == 0.0 && r.depreciation == 0.0 && r.interest == 0.0
  {
    var invChange := Delta(now, prev, Line(Inventory));
    var recChange := Delta(now, prev, Line(Receivables));
    var ocaChange := Delta(now, prev, Line(OtherCurrentAssets));
    var payChange := Delta(now, prev, Line(Payables));
    var oclChange := Delta(now, prev, Line(OtherCurrentLiabilities));
    var wcChange := invChange + recChange + ocaChange - payChange - oclChange;
    var ebit := match p case Some(m) => m.EBIT case None => 0.0;
    var tax := match p case Some(m) => m.tax case None => 0.0;
    var dep := match p case Some(m) => m.dep case None => 0.0;
    var interest := match p case Some(m) => m.interest case None => 0.0;
    var noplat := ebit - tax;
    var ocf := noplat + dep - wcChange;
    var dLong := Delta(now, prev, LongDebtField);
    var dShort := Delta(now, prev, ShortDebtField);
    var investments := ValueOf(now, InvestmentsField);
    var netChange := ocf - investments - interest + dLong + dShort;
    CashflowRow(year, ebit, tax, noplat, dep, wcChange, ocf,
                invChange, recChange, ocaChange, payChange, oclChange,
                investments, interest, dLong, dShort, netChange, Delta(now, prev, CashField))
  }

  /** The balance row of the year before position `idx`, none at position 0. */
  function PrevRow(balance: seq<CfBalance>, years: seq<int>, idx: nat): Option<CfBalance>
    requires idx < |years|
  {
    if idx > 0 then CfRowFor(balance, years[idx - 1]) else None
  }

  /** `useComputedCashflow(pnl, balance, years)` of the financial-statements page. */
  function ComputeCashflow(pnl: seq<PnlModelRow>, balance: seq<CfBalance>, years: seq<int>): (out: seq<CashflowRow>)
    ensures |pnl| == 0 || |balance| == 0 ==> out == []
    ensures |pnl| > 0 && |balance| > 0 ==> |out| == |years|
    ensures |out| > 0 ==> forall i | 0 <= i < |out| ::
      i < |years| && out[i] == CashflowYear(years[i], ModelRowFor(pnl, years[i]), CfRowFor(balance, years[i]), PrevRow(balance, years, i))
  {
    if |pnl| == 0 || |balance| == 0 || |years| == 0 then []
    else
      seq(|years|, i requires 0 <= i < |years| =>
        CashflowYear(years[i], ModelRowFor(pnl, years[i]), CfRowFor(balance, years[i]), PrevRow(balance, years, i)))
  }

  /** The row of a later year, once the lookups of its P&L row and its two balance rows are known. */
  lemma CashflowAt(pnl: seq<PnlModelRow>, balance: seq<CfBalance>, years: seq<int>, h: nat, i: nat,
                   p: Option<PnlModelRow>, now: Option<CfBalance>, prev: Option<CfBalance>)
    requires |pnl| > 0 && |balance| > 0 && h + 1 == i < |years|
    requires ModelRowFor(pnl, years[i]) == p
    requires CfRowFor(balance, years[i]) == now && CfRowFor(balance, years[h]) == prev
    ensures |ComputeCashflow(pnl, balance, years)| == |years|
    ensures ComputeCashflow(pnl, balance, years)[i] == CashflowYear(years[i], p, now, prev)
  {
    assert PrevRow(balance, years, i) == prev;
  }

  /** The first year is measured against nothing: its checks are the year's own cash and net lines. */
  lemma FirstYearFromZero(pnl: seq<PnlModelRow>, balance: seq<CfBalance>, years: seq<int>)
    requires |pnl| > 0 && |balance| > 0 && |years| > 0
    ensures var out := ComputeCashflow(pnl, balance, years);
      && out[0].cashCheck == ValueOf(CfRowFor(balance, years[0]), CashField)
      && out[0].wcChange == NetLines(CfRowFor(balance, years[0]))
      && out[0].dLong == ValueOf(CfRowFor(balance, years[0]), LongDebtField)
  {
  }

  function SumCashCheck(out: seq<CashflowRow>): real {
    if |out| == 0 then 0.0 else SumCashCheck(out[..|out| - 1]) + out[|out| - 1].cashCheck
  }

  function SumWcChange(out: seq<CashflowRow>): real {
    if |out| == 0 then 0.0 else SumWcChange(out[..|out| - 1]) + out[|out| - 1].wcChange
  }

  /**
    The yearly checks telescope: over the first `n` years they add up to the
    cash, and the working-capital changes to the net lines, of the `n`-th year.
   */
  lemma {:induction false} ChecksTelescope(pnl: seq<PnlModelRow>, balance: seq<CfBalance>, years: seq<int>, n: nat)
    requires |pnl| > 0 && |balance| > 0
    requires 0 < n <= |years|
    ensures var out := ComputeCashflow(pnl, balance, years);
      && SumCashCheck(out[..n]) == ValueOf(CfRowFor(balance, years[n - 1]), CashField)
      && SumWcChange(out[..n]) == NetLines(CfRowFor(balance, years[n - 1]))
  {
    var out := ComputeCashflow(pnl, balance, years);
    var now := CfRowFor(balance, years[n - 1]);
    var prefix := out[..n];
    assert prefix[..n - 1] == out[..n - 1];
    assert prefix[n - 1] == out[n - 1];
    if n == 1 {
      assert out[..0] == [];
    } else {
      ChecksTelescope(pnl, balance, years, n - 1);
      assert out[n - 1].cashCheck == ValueOf(now, CashField) - ValueOf(CfRowFor(balance, years[n - 2]), CashField);
      assert out[n - 1].wcChange == NetLines(now) - NetLines(CfRowFor(balance, years[n - 2]));
    }
  }
}
