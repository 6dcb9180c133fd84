/**
  The debt-financing table: the interest each later year is charged on the
  average of last year's and this year's total debt, the clamped interest-rate
  input, and the interest row the table displays.
 */
module Financing {
  import opened JsMath
  import opened Lookup
  import opened BalanceTypes
  import opened ComputedBalance

  /** `calcInterest(prevTotalDebt, currTotalDebt, interestRatePct)`. */
  function CalcInterest(prevTotalDebt: real, currTotalDebt: real, interestRatePct: real): (r: real)
    ensures IsIntegral(r)
    ensures var exact := OfPct(interestRatePct, (prevTotalDebt + currTotalDebt) / 2.0);
      exact - 0.5 < r <= exact + 0.5
  {
    var avgDebt := (prevTotalDebt + currTotalDebt) / 2.0;
    RoundBounds(avgDebt * (interestRatePct / 100.0));
    Round(avgDebt * (interestRatePct / 100.0))
  }

  /** Interest depends on the two debts only through their sum. */
  lemma CalcInterestSymmetric(a: real, b: real, rate: real)
    ensures CalcInterest(a, b, rate) == CalcInterest(b, a, rate)
  {
    assert a + b == b + a;
  }

  /** No rate, or no debt in either year, means no interest. */
  lemma CalcInterestZero(prev: real, curr: real, rate: real)
    ensures CalcInterest(prev, curr, 0.0) == 0.0
    ensures CalcInterest(0.0, 0.0, rate) == 0.0
  {
    RoundIntegral(0);
  }

  /** Nonnegative debts at a nonnegative rate never give negative interest. */
  lemma CalcInterestNonnegative(prev: real, curr: real, rate: real)
    requires prev >= 0.0 && curr >= 0.0 && rate >= 0.0
    ensures CalcInterest(prev, curr, rate) >= 0.0
  {
    var avg := (prev + curr) / 2.0;
    assert avg * (rate / 100.0) >= 0.0;
    RoundMonotone(0.0, avg * (rate / 100.0));
    RoundIntegral(0);
  }

  /** The table and the balance sheet charge interest by the same rule. */
  lemma CalcInterestIsBalanceRule(prev: real, curr: real, rate: real)
    ensures CalcInterest(prev, curr, rate) == AverageDebtInterest(prev, curr, rate)
  {
  }

  /** The rate input: `round1(Math.min(100, Math.max(0, raw)))`. */
  function ClampRate(raw: real): (r: real)
    ensures 0.0 <= r <= 100.0
    ensures IsIntegral(r * 10.0)
    ensures 0.0 <= raw <= 100.0 ==> raw - 0.05 < r <= raw + 0.05
    ensures raw <= 0.0 ==> r == 0.0
    ensures raw >= 100.0 ==> r == 100.0
  {
    var clamped := Min(100.0, Max(0.0, raw));
    Round1Bounds(clamped);
    RoundIntegral(0);
    RoundIntegral(1000);
    assert clamped == 0.0 ==> clamped * 10.0 == 0 as real;
    assert clamped == 100.0 ==> clamped * 10.0 == 1000 as real;
    var r := Round1(clamped);
    assert 0.0 <= r * 10.0 <= 1000.0 by {
      RoundMonotone(0.0, clamped * 10.0);
      RoundMonotone(clamped * 10.0, 1000.0);
    }
    r
  }

  /** A clamped rate is a fixed point of the clamp. */
  lemma ClampRateIdempotent(raw: real)
    ensures ClampRate(ClampRate(raw)) == ClampRate(raw)
  {
    var r := ClampRate(raw);
    var n := (r * 10.0).Floor;
    assert r * 10.0 == n as real;
    assert Min(100.0, Max(0.0, r)) == r;
    RoundIntegral(n);
    assert Round1(r) == (n as real) / 10.0;
  }

  /** `(r.longDebt ?? 0) + (r.shortDebt ?? 0)` for every row, in row order. */
  function TotalDebts(rows: seq<BalanceRow>): (ds: seq<real>)
    ensures |ds| == |rows|
    ensures forall i | 0 <= i < |rows| :: ds[i] == rows[i].longDebt + rows[i].shortDebt
  {
    seq(|rows|, i requires 0 <= i < |rows| => rows[i].TotalDebt())
  }

  /** `safeRows.find((r) => r.year === year)?.interestRatePct ?? 0` */
  function RateFor(rows: seq<BalanceRow>, year: int): real {
    match BalanceRowFor(rows, year)
    case Some(r) => r.interestRatePct
    case None => 0.0
  }

  /**
    The displayed interest of the year at position `idx`: year 0 shows the
    computed row's interest (0 when there is none); a later year charges its
    rate on the POSITIONAL total debts, and a position past the last row reads
    as `NaN`, here `None`.
   */
  function InterestCell(rows: seq<BalanceRow>, computed: seq<ComputedRow>, years: seq<int>, idx: nat): (r: Option<real>)
    requires idx < |years|
    ensures idx == 0 ==> r.Some?
    ensures idx > 0 ==> (r.Some? <==> idx < |rows|)
  {
    if idx == 0 then
      Some(match Find(computed, ComputedYearOf, years[0]) case Some(c) => c.interest case None => 0.0)
    else
      var debts := TotalDebts(rows);
      if idx < |debts| then Some(CalcInterest(debts[idx - 1], debts[idx], RateFor(rows, years[idx])))
      else None
  }

  /** The interest row of the table. */
  function InterestRow(rows: seq<BalanceRow>, computed: seq<ComputedRow>, years: seq<int>): (cells: seq<Option<real>>)
    ensures |cells| == |years|
    ensures forall i | 0 <= i < |years| :: cells[i] == InterestCell(rows, computed, years, i)
  {
    seq(|years|, i requires 0 <= i < |years| => InterestCell(rows, computed, years, i))
  }

  /** With rows aligned to the years, each cell of the interest row is the balance sheet's interest of that year. */
  lemma InterestCellMatchesBalance(rows: seq<BalanceRow>, pnl: seq<PnlView.PnlFacts>, years: seq<int>, ratios: seq<RatioRow>,
                                   out: seq<ComputedRow>, i: nat)
    requires Aligned(rows, years)
    requires ComputeBalance(rows, pnl, years, ratios) == Ok(out)
    requires i < |out|
    ensures i < |years| && InterestCell(rows, out, years, i) == Some(out[i].interest)
  {
    AlignedComputes(rows, pnl, years, ratios);
    if i == 0 {
      FindFirst(out, ComputedYearOf, 0);
    } else {
      FindDistinct(rows, BalanceYearOf, i);
      assert BalanceYearOf(rows[i]) == years[i];
      assert RateFor(rows, years[i]) == rows[i].interestRatePct;
      assert out[i].input == rows[i];
      InterestOnAverageDebt(rows, pnl, years, ratios, out, i);
      CalcInterestIsBalanceRule(rows[i - 1].TotalDebt(), rows[i].TotalDebt(), rows[i].interestRatePct);
    }
  }

  /**
    With rows aligned to the years, the table's interest row shows exactly the
    interest the balance sheet computed for every year.
   */
  lemma InterestRowMatchesBalance(rows: seq<BalanceRow>, pnl: seq<PnlView.PnlFacts>, years: seq<int>, ratios: seq<RatioRow>)
    requires Aligned(rows, years)
    ensures ComputeBalance(rows, pnl, years, ratios).Ok?
    ensures var out := ComputeBalance(rows, pnl, years, ratios).value;
      forall i | 0 <= i < |years| :: InterestRow(rows, out, years)[i] == Some(out[i].interest)
  {
    AlignedComputes(rows, pnl, years, ratios);
    var out := ComputeBalance(rows, pnl, years, ratios).value;
    forall i | 0 <= i < |years|
      ensures InterestRow(rows, out, years)[i] == Some(out[i].interest)
    {
      InterestCellMatchesBalance(rows, pnl, years, ratios, out, i);
    }
  }
}
