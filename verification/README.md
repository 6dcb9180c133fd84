# Forecast engine of the financial-planning app, in Dafny

This project models the calculation core of a small financial-planning web
application. The user enters a base year (an actual profit-and-loss
statement and an opening balance sheet) and a set of forecast drivers. The
application then projects three linked statements year by year and shows
them next to a dashboard of financing ratios:

- **P&L projection** (`usePnlModel`, module `PnlModel`). Revenue grows by a
  growth percentage. Costs follow a cost percentage, which is either entered
  or carried over from last year's effective percentage. Tax follows a rate
  on positive EBT. Every monetary step is rounded with JavaScript's
  `Math.round`.
- **Balance-sheet roll-forward** (`useComputedBalance`, module
  `ComputedBalance`).
  - Fixed assets roll by investments minus straight-line depreciation, and
    equity rolls by the net result, contributions and dividends.
  - Working capital is entered in year 0 and derived from days and
    percentage ratios afterwards (`computeFromKpis`, module `Kpis`).
  - Cash is the plug that balances the sheet.
  - Interest is charged on the average of last year's and this year's debt.
- **Cash-flow statements.** The financial-statements page has one (module
  `Cashflow`); the balance page has its own hook (module `BalanceCashflow`).
- **Editors and persistence around them.**
  - The working-capital table: prefill, the year-0 cascade and the displayed
    values (module `WorkingCapitalTable`).
  - The financing table: the interest row and the rate clamp (module
    `Financing`).
  - The balance-data hook: load, edit and the save steps (module
    `BalanceData`).
  - The balance output normalisation (module `BalanceOutput`).
  - The dashboard memo (module `Dashboard`).
  - The number formatters (module `Formatters`).
  - The API base-URL rule (module `Api`).

Numbers are modelled as `real`, so JavaScript doubles become exact
rationals. `Math.round(x)` is `Floor(x + 1/2)` (module `JsMath`). `a ?? d`
is `Option.GetOr`, and `array.find` is a first-match `Lookup.Find`. A
`throw`, or a `!` dereference of a missing row, becomes an `Err` of a
`Result`.

The P&L reaches the balance sheet in two shapes: the projected rows of
`usePnlModel` and the plain rows of `useComputedPnl`. Module `PnlView`
gives both a common view, `PnlFacts`, with the depreciation and interest
fields optional, because only one of the two shapes carries them under the
names the balance hook reads. Module `Page` wires the three stages
together as the statements pages do. Module `Statements` proves what that
wiring does to the cash-flow check.

Three properties of the code that the model keeps as they are:

- The year-0 edit in the working-capital table re-derives the ratios of
  every later year, including ratio rows flagged `_userEdited`. The flag
  is written when ratios load and when a ratio is edited
  (components/balance/hooks/useBalanceData.ts:97 and 147), and no code
  path reads it.
- The base-year ratio round trip holds only within rounding.
- An entered base-row `cogsPct`/`opexPct` is never used. Year 1 carries
  the effective percentages `cogsPctEff`/`opexPctEff` of year 0.

## Model

| member | source | states |
|---|---|---|
| JsMath.RoundBounds | components/pnl/hooks/usePnlModel.ts:68-71 | `Math.round` yields an integer within half a unit of its argument, ties going up |
| JsMath.RoundUnique | components/pnl/hooks/usePnlModel.ts:68-71 | the only integer in (x − ½, x + ½] is what `Math.round` returns |
| JsMath.RoundIntegral | components/pnl/hooks/usePnlModel.ts:68-71 | rounding an integer gives the integer back |
| JsMath.RoundMonotone | components/pnl/hooks/usePnlModel.ts:68-71 | `Math.round` never reverses the order of two values |
| JsMath.Round1Bounds | components/pnl/hooks/usePnlModel.ts:26 | `round1` yields a multiple of 0.1 within 0.05 of its argument |
| JsMath.Max | components/pnl/hooks/usePnlModel.ts:87 | `Math.max` is an upper bound of both arguments and equals one of them |
| JsMath.Min | components/balance/ui/FinancingTable.tsx:187 | `Math.min` is a lower bound of both arguments and equals one of them |
| JsMath.Abs | components/layout/formatters.ts:37 | `Math.abs` is non-negative and is the value or its negation |
| Lookup.IndexOf | components/pnl/hooks/usePnlModel.ts:59 | `find` stops at the first element whose year matches; none before it matches; no match means no element has the year |
| Lookup.Find | components/pnl/hooks/usePnlModel.ts:59 | `find` gives nothing exactly when no element has the year, and otherwise an element with that year |
| Lookup.FindFirst | components/pnl/hooks/usePnlModel.ts:59 | an element whose year appears nowhere before it is the one `find` returns |
| Lookup.IndexOfMapped | components/balance/hooks/useComputedBalance.ts:22 | searching a list mapped element-wise with the same years finds the same position |
| Lookup.FindDistinct | components/balance/hooks/useComputedBalance.ts:22 | with distinct years, `find` on an element's year returns that element |
| PnlModel.Fold | components/pnl/hooks/usePnlModel.ts:58-62 | the per-year map succeeds exactly when every remaining year has a P&L row, yields one row per year in order, and otherwise names a year that has no row |
| PnlModel.Project | components/pnl/hooks/usePnlModel.ts:32-62 | empty input or a missing base-year row gives `[]`; a later year without a row is an error naming that year; whenever the input is non-empty and the first year has a row, success gives exactly one row per year, in year order |
| PnlModel.Assemble | components/pnl/hooks/usePnlModel.ts:86-145 | a row carries its year, amounts and tax, takes depreciation and interest from its input row, satisfies the margin chain, and its effective cost percentages are whole tenths within 0.05 of cost over `max(revenue, 1)` times 100 |
| PnlModel.BaseYear | components/pnl/hooks/usePnlModel.ts:64-126 | year 0 shows the entered revenue, cogs, opex and taxes unchanged, with the input's depreciation and interest and the margin chain |
| PnlModel.ForecastYear | components/pnl/hooks/usePnlModel.ts:64-145 | a later year's revenue is an integer within ½ of the carried revenue grown by the growth percentage (0 if unset); cogs and opex are integers within ½ of their percentage (entered, else carried) of that revenue; tax follows the tax rule on the year's EBT; the margin chain holds |
| PnlModel.ForecastTax | components/pnl/hooks/usePnlModel.ts:115-126 | without a rate, the stored taxes; with a rate, 0 for EBT ≤ 0 and otherwise an integer within ½ of rate % of EBT |
| PnlModel.YearStep | components/pnl/hooks/usePnlModel.ts:58-145 | with nothing carried in, the actuals; with a carry, integral revenue, cogs and opex and the tax rule; the margin chain and the input's depreciation and interest either way |
| PnlModel.FoldRow | components/pnl/hooks/usePnlModel.ts:58-146 | every produced row is built from its own year's input and the carry of the row before it |
| PnlModel.ProjectStep | components/pnl/hooks/usePnlModel.ts:58-146 | row i is the base year for i = 0, and a forecast from row i−1's revenue and effective percentages otherwise |
| PnlModel.ProjectFirst | components/pnl/hooks/usePnlModel.ts:64-118 | the first projected row is the base-year row assembled from the entered figures |
| PnlModel.ProjectRow | components/pnl/hooks/usePnlModel.ts:64-126 | each later row is the forecast from its own input row and the previous output row |
| PnlModel.ForecastFacts | components/pnl/hooks/usePnlModel.ts:64-126 | a forecast year rounds grown revenue, rounds costs at the entered or carried percentage, and applies the tax rule to its own EBT |
| PnlModel.BaseYearIsActual | components/pnl/hooks/usePnlModel.ts:64-118 | the base year shows the entered revenue, costs and taxes unchanged |
| PnlModel.RevenueGrows | components/pnl/hooks/usePnlModel.ts:64-73 | each later revenue is last year's revenue grown by the row's growth percentage (0 when absent), rounded |
| PnlModel.EffectivePcts | components/pnl/hooks/usePnlModel.ts:86-105 | the effective cost percentages are cost over max(revenue, 1), in percent, to one decimal |
| PnlModel.CostPctCarriesForward | components/pnl/hooks/usePnlModel.ts:75-107 | a later year's costs use the entered percentage, or else last year's effective percentage |
| PnlModel.TaxRule | components/pnl/hooks/usePnlModel.ts:115-126 | with a tax rate, tax is the rounded rate share of positive EBT and 0 otherwise; without one, the entered taxes |
| PnlModel.DepreciationAndInterestAreInputs | components/pnl/hooks/usePnlModel.ts:112-134 | depreciation and interest are copied from the year's input row |
| PnlModel.MarginChainHolds | components/pnl/hooks/usePnlModel.ts:109-141 | every projected row satisfies the margin chain, so net result is revenue less all five charges |
| BalanceTypes.SetField | components/balance/hooks/useBalanceData.ts:122 | a row spread with one field replaced has that value in the field and every other field unchanged |
| Kpis.FromKpis | components/balance/ui/WorkingCapitalTable.tsx:67-92 | a line from its ratio is an integer within half a unit of ratio × flow ÷ 365 (or ÷ 100), and 0 for a zero ratio |
| Kpis.ItemsFromKpis | components/balance/ui/WorkingCapitalTable.tsx:67-92 | every line of the derived items is that line's own `computeFromKpis` value |
| Kpis.ZeroRatiosGiveZeroItems | components/balance/ui/WorkingCapitalTable.tsx:67-92 | all-zero ratios derive all-zero lines and zero working capital |
| Kpis.BaseKpis | components/balance/ui/WorkingCapitalTable.tsx:94-111 | every base ratio is the line's implied ratio, rounded, against its own flow (COGS for inventory and payables, revenue otherwise) |
| Kpis.ImpliedFacts | components/balance/ui/WorkingCapitalTable.tsx:99-109 | an implied ratio is an integer, and 0 when its flow is not positive |
| Kpis.Implied | components/balance/ui/WorkingCapitalTable.tsx:99-109 | 0 when the flow is not positive; otherwise an integer within ½ of amount / flow × unit |
| Kpis.BaseKpisGuards | components/balance/ui/WorkingCapitalTable.tsx:94-111 | every base ratio is integral, and 0 where its flow is not positive |
| Kpis.RescaleByQuotient | components/balance/ui/WorkingCapitalTable.tsx:78-108 | amount-to-ratio and ratio-to-amount are division and multiplication by the same quotient flow ÷ unit |
| Kpis.ScaleError | components/balance/ui/WorkingCapitalTable.tsx:78-108 | a ratio within ½ of its exact value gives an amount within half a quotient of the original |
| Kpis.RoundTripWithin | components/balance/ui/WorkingCapitalTable.tsx:67-111 | amount → ratio → amount lands within flow ÷ (2 × unit) + ½ of the original |
| Kpis.BaseKpisRoundTrip | components/balance/ui/WorkingCapitalTable.tsx:67-111 | re-deriving a year-0 line from its base ratio reproduces it within that slack |
| Kpis.RoundTripNotExact | components/balance/ui/WorkingCapitalTable.tsx:67-111 | the round trip is not exact: an inventory of 1 against COGS of 1000 comes back as 0 |
| ComputedPnl.ComputeYear | components/balance/hooks/useComputedPnl.ts:28-65 | a year with a row copies its six inputs and closes the margin chain; a year without one is all zeros |
| ComputedPnl.ComputePnl | components/balance/hooks/useComputedPnl.ts:27-69 | one row per year, each computed from the first P&L row of that year |
| ComputedPnl.ComputePnlRow | components/balance/hooks/useComputedPnl.ts:28-65 | each row's net result is revenue less all five charges, its figures come from the input row, and a missing row gives zeros |
| PnlView.OfModel | components/balance/hooks/useComputedBalance.ts:23-45 | a projected row offers revenue, COGS, net result, and `dep`/`int` under the names the balance hook reads |
| PnlView.OfComputedAsWritten | components/balance/BalanceInput.tsx:53-54 | a `useComputedPnl` row, read as the balance hook reads it, offers no `dep` and no `int` |
| PnlView.OfComputed | components/balance/hooks/useComputedPnl.ts:52-65 | the evidently intended view: the computed row's depreciation and interest under the names the balance hook reads |
| PnlView.ModelFacts | components/financialstatements/FinancialStatementsInput.tsx:87-94 | each projected row is viewed element-wise |
| PnlView.ComputedFactsAsWritten | components/balance/BalanceInput.tsx:53-54 | each computed row is viewed element-wise, as written |
| PnlView.ComputedFacts | components/balance/BalanceInput.tsx:53-54 | each computed row is viewed element-wise, corrected |
| PnlView.ModelFactsFor | components/balance/hooks/useComputedBalance.ts:23 | looking up a year in the viewed rows gives the view of the projected row found for that year |
| WorkingCapital.Resolve | components/balance/hooks/useWorkingCapital.ts:34-109 | one row per year; year 0 shows the entered lines of its year (zeros without a row); every later line is `computeFromKpis` of the year's ratios (zeros without a ratio row) and P&L flows; working capital is their net |
| WorkingCapital.ResolveLines | components/balance/hooks/useWorkingCapital.ts:60-91 | year 0 shows the input line (0 without a row); later years show `computeFromKpis` of the year's ratios, and 0 without a ratio row |
| WorkingCapital.Year0IgnoresRatios | components/balance/hooks/useWorkingCapital.ts:66-91 | changing the ratios never changes year 0 |
| WorkingCapital.LaterYearsIgnoreInputs | components/balance/hooks/useWorkingCapital.ts:66-91 | changing the entered lines never changes a later year |
| WorkingCapital.ZeroRatiosZeroLaterYears | components/balance/hooks/useWorkingCapital.ts:49-98 | with all ratios zero, every later year has zero lines and zero working capital |
| ComputedBalance.ComputeYear | components/balance/hooks/useComputedBalance.ts:22-174 | a computed year keeps its input row, nets its lines, balances (fixed assets + working capital + cash = equity + debt) and hands on its fixed assets and equity |
| ComputedBalance.FirstError | components/balance/hooks/useComputedBalance.ts:21-115 | the reported error names a year with no balance row, or a previous position past the end of the rows |
| ComputedBalance.Depreciation | components/balance/hooks/useComputedBalance.ts:31-36 | later-year depreciation is the percentage share of last year's fixed assets, and lies between 0 and those assets for a percentage between 0 and 100 |
| ComputedBalance.AverageDebtInterest | components/balance/hooks/useComputedBalance.ts:113-121 | an integer within ½ of the rate % of the average of last year's and this year's debt |
| ComputedBalance.NextCarry | components/balance/hooks/useComputedBalance.ts:38-57 | year 0 hands on the opening fixed assets and the entered equity; later years hand on fixed assets rolled by investments less depreciation, and equity rolled by the net result (0 without P&L), contribution and dividend (0 when unset) |
| ComputedBalance.Carries | components/balance/hooks/useComputedBalance.ts:176 | one carry per remaining year |
| ComputedBalance.ComputeBalance | components/balance/hooks/useComputedBalance.ts:13-180 | no rows gives `[]`; otherwise it succeeds exactly when every year has a row and every previous position exists, with one row per year in order; an error names the missing year or position |
| ComputedBalance.CarriesStep | components/balance/hooks/useComputedBalance.ts:33-57 | each year's carry is the roll of the previous year's carry over the previous row |
| ComputedBalance.BalanceStep | components/balance/hooks/useComputedBalance.ts:21-177 | row i is computed from year i's balance row, P&L row and ratio row, from the opening carry at 0 and row i−1's carry later |
| ComputedBalance.CarriesInput | components/balance/hooks/useComputedBalance.ts:150-151 | every computed row carries the input row found for its year |
| ComputedBalance.FixedAssetRoll | components/balance/hooks/useComputedBalance.ts:31-41 | year 0 keeps the entered fixed assets and takes P&L depreciation; later years depreciate last year's fixed assets at the row's rate and add investments |
| ComputedBalance.EquityRoll | components/balance/hooks/useComputedBalance.ts:45-57 | year 0 equity is the input; later equity is last year's plus net result, plus contribution, minus dividend |
| ComputedBalance.WorkingCapitalLines | components/balance/hooks/useComputedBalance.ts:61-96 | year 0 lines are the input lines; later lines are `computeFromKpis` of the year's ratios; working capital is their net |
| ComputedBalance.CashIsPlug | components/balance/hooks/useComputedBalance.ts:100-167 | every computed year balances, and capital employed plus cash equals equity plus debt |
| ComputedBalance.CashRoll | components/balance/hooks/useComputedBalance.ts:100-104 | two balanced years rolled by the fixed-asset and equity rules differ in cash by the flows in between |
| ComputedBalance.CashRollForward | components/balance/hooks/useComputedBalance.ts:31-104 | a year's cash change is net result + contribution − dividend + debt change − investments + depreciation − working-capital change |
| ComputedBalance.InterestOnAverageDebt | components/balance/hooks/useComputedBalance.ts:108-122 | year 0 interest is the P&L's `int`; later years round the average of the previous position's and this year's debt at the row's rate |
| ComputedBalance.KpiEchoes | components/balance/hooks/useComputedBalance.ts:126-146 | the other-asset and other-liability percentages echo the lines; day ratios echo the lines in year 0 and repeat the ratio row later |
| ComputedBalance.EchoZero | components/balance/hooks/useComputedBalance.ts:126-141 | an echoed ratio is 0 exactly when its flow is not positive or its line is 0 |
| ComputedBalance.AlignedComputes | components/balance/hooks/useComputedBalance.ts:13-180 | rows aligned one per year with distinct years always compute, and row i carries input row i |
| Financing.CalcInterest | components/balance/ui/FinancingTable.tsx:46-53 | interest is an integer within ½ of the rate share of the average of the two debts |
| Financing.CalcInterestSymmetric | components/balance/ui/FinancingTable.tsx:46-53 | swapping last year's and this year's debt does not change the interest |
| Financing.CalcInterestZero | components/balance/ui/FinancingTable.tsx:46-53 | a zero rate or zero debt gives zero interest |
| Financing.CalcInterestNonnegative | components/balance/ui/FinancingTable.tsx:46-53 | non-negative debts and rate give non-negative interest |
| Financing.CalcInterestIsBalanceRule | components/balance/ui/FinancingTable.tsx:46-53 | the table's interest formula is the balance hook's (useComputedBalance.ts lines 114-121) |
| Financing.ClampRate | components/balance/ui/FinancingTable.tsx:185-188 | an entered rate is clamped into [0, 100] and kept to one decimal, within 0.05 of an in-range entry |
| Financing.ClampRateIdempotent | components/balance/ui/FinancingTable.tsx:185-188 | clamping a clamped rate changes nothing |
| Financing.TotalDebts | components/balance/ui/FinancingTable.tsx:76-78 | one total per row: long plus short debt |
| Financing.InterestCell | components/balance/ui/FinancingTable.tsx:199-235 | year 0 always shows the computed interest (0 without a row); a later year shows `calcInterest` of the two neighbouring debt totals and its own rate, exactly when a debt total exists at its position |
| Financing.InterestRow | components/balance/ui/FinancingTable.tsx:199-235 | one cell per year |
| Financing.InterestCellMatchesBalance | components/balance/ui/FinancingTable.tsx:199-235 | on aligned rows every cell shows exactly the interest the balance hook computed for that year |
| Financing.InterestRowMatchesBalance | components/balance/ui/FinancingTable.tsx:199-235 | on aligned rows the whole interest row agrees with the balance hook |
| BalanceData.RatioBackendNamesDistinct | components/balance/hooks/useBalanceData.ts:8-14 | `ratioFieldMap` sends different ratio fields to different backend names, all prefixed `ratio` |
| BalanceData.Read | components/balance/hooks/useBalanceData.ts:86-95 | a stored field is read when both the record and the field exist, and the default otherwise |
| BalanceData.LoadRows | components/balance/hooks/useBalanceData.ts:50-78 | one loaded row per year, each built from that year's record and P&L row |
| BalanceData.LoadRatios | components/balance/hooks/useBalanceData.ts:85-99 | one loaded ratio row per year, each from that year's record |
| BalanceData.LoadRow | components/balance/hooks/useBalanceData.ts:50-77 | the loaded row of a year takes each stored field of that year's record when present, else the default (0, and 10 / 5 for the two rates); no contribution or dividend; the P&L row's depreciation, interest and revenue, or 0 without one |
| BalanceData.LoadRatio | components/balance/hooks/useBalanceData.ts:85-99 | the loaded ratio row of a year is not marked edited and takes each stored ratio when present, else 0; all zeros without a record |
| BalanceData.LoadMissingYear | components/balance/hooks/useBalanceData.ts:50-99 | a year with no record loads defaults: zeros, 10 % depreciation, 5 % interest, no contribution or dividend, zero ratios |
| BalanceData.LoadRatioFields | components/balance/hooks/useBalanceData.ts:85-99 | each loaded ratio is the stored value under its backend name, or 0; loaded ratios are not marked edited |
| BalanceData.LoadedRowsCompute | components/balance/hooks/useBalanceData.ts:50-78 | loaded rows for distinct years are aligned, so the roll-forward never raises on them |
| BalanceData.UpdateRow | components/balance/hooks/useBalanceData.ts:116-123 | the rows of that year get the value in that field; every other row and every other field is unchanged |
| BalanceData.UpdateRowIdempotent | components/balance/hooks/useBalanceData.ts:116-123 | applying the same edit twice equals applying it once |
| BalanceData.SetFieldTwice | components/balance/hooks/useBalanceData.ts:122 | replacing a field with the same value twice equals doing it once |
| BalanceData.UpdateRowsCommute | components/balance/hooks/useBalanceData.ts:116-123 | edits to different years commute |
| BalanceData.UpdateRowKeepsAlignment | components/balance/hooks/useBalanceData.ts:116-123 | an edit keeps the rows aligned with the years |
| BalanceData.UpdateRatio | components/balance/hooks/useBalanceData.ts:140-149 | the ratio rows of that year get the value and are marked edited; everything else is unchanged |
| BalanceData.Step0Kpis | components/balance/hooks/useBalanceData.ts:176-188 | year-0 ratios are computed exactly when the first year has both a balance row and a P&L row |
| BalanceData.SaveStep0 | components/balance/hooks/useBalanceData.ts:176-205 | save step 0 rewrites only the ratio rows of the first year, keeps years and edit flags, and changes nothing when it cannot compute |
| BalanceData.SaveStep0Year0 | components/balance/hooks/useBalanceData.ts:184-188 | the first year's ratios become the base ratios of the year-0 lines, with 0 where the flow is not positive |
| BalanceData.SaveRecord | components/balance/hooks/useBalanceData.ts:215-257 | a saved record keeps the row's drivers and debts; without a computed row it stores the inputs, zero cash and no lines; without ratios it stores zero ratios |
| BalanceData.SaveRecords | components/balance/hooks/useBalanceData.ts:215-257 | one record per row, in row order |
| BalanceData.PnlPatches | components/balance/hooks/useBalanceData.ts:263-270 | step 3 sends each computed year's depreciation and interest back to the P&L |
| BalanceData.ComputedYearsDistinct | components/balance/hooks/useComputedBalance.ts:21-22 | on aligned rows the computed rows carry the input rows in order, so their years are distinct |
| BalanceData.SavedRecordFound | components/balance/hooks/useBalanceData.ts:216 | on aligned rows, save finds each year's own computed row, and reload finds that year's own saved record |
| BalanceData.LoadFullRecord | components/balance/hooks/useBalanceData.ts:50-78 | a record with every field present loads as exactly those values; contribution and dividend come back empty |
| BalanceData.LoadFullRatios | components/balance/hooks/useBalanceData.ts:85-99 | a record with all five ratios loads exactly those ratios |
| BalanceData.SaveThenLoad | components/balance/hooks/useBalanceData.ts:215-306 | the rows reloaded by save step 4 give each year the computed fixed assets, equity and lines as its inputs, keep the drivers and debts, and drop contribution and dividend; step 4 reloads only the rows, and the saved ratios come back on the next page load (the mount-time ratio load) as the ratios in effect at save time |
| WorkingCapitalTable.BaseKpisOf | components/balance/ui/WorkingCapitalTable.tsx:150-159 | the base ratios of the first year's lines against its P&L; all zero when either row is missing |
| WorkingCapitalTable.OverwriteLater | components/balance/ui/WorkingCapitalTable.tsx:185-200 | every ratio row except the first year's takes the given ratios; years and edit flags stay |
| WorkingCapitalTable.Prefill | components/balance/ui/WorkingCapitalTable.tsx:165-203 | it runs at most once, only once all three inputs have rendered, and rewrites ratios only when every ratio is zero and year 0 exists |
| WorkingCapitalTable.PrefillOnce | components/balance/ui/WorkingCapitalTable.tsx:165-168 | once the prefill has run, running it again changes nothing, whatever the new rows |
| WorkingCapitalTable.PrefillEffect | components/balance/ui/WorkingCapitalTable.tsx:185-200 | a prefill fills every later year with the base ratios and leaves the first year alone |
| WorkingCapitalTable.PrefillSkipsEditedRatios | components/balance/ui/WorkingCapitalTable.tsx:171-183 | a single non-zero ratio anywhere stops the prefill from touching any ratio |
| WorkingCapitalTable.Year0Edit | components/balance/ui/WorkingCapitalTable.tsx:209-239 | a year-0 line edit updates that line of the first year's row; without year-0 rows the ratios are untouched |
| WorkingCapitalTable.Year0EditCascade | components/balance/ui/WorkingCapitalTable.tsx:222-237 | the cascade keeps years, edit flags and the first year's ratio row |
| WorkingCapitalTable.Year0EditMatchesNewBase | components/balance/ui/WorkingCapitalTable.tsx:219-237 | after a year-0 edit every later year carries the base ratios of the edited year-0 lines, edited rows included |
| WorkingCapitalTable.FindIndex | components/balance/ui/WorkingCapitalTable.tsx:305-321 | a found row is the first row of its year |
| WorkingCapitalTable.DisplayedItem | components/balance/ui/WorkingCapitalTable.tsx:305-321 | year 0 always shows a line; a later year shows one exactly when it has a ratio row |
| WorkingCapitalTable.DisplayedKpi | components/balance/ui/WorkingCapitalTable.tsx:373-393 | year 0 shows the base ratios implied by the first year's lines and P&L flows (0 without year-0 rows); later years show the year's own ratio (0 without one) |
| WorkingCapitalTable.WcInputsOf | components/balance/BalanceInput.tsx:70-77 | each balance row is handed to the resolver as its year and its lines |
| WorkingCapitalTable.DisplayedYear0 | components/balance/ui/WorkingCapitalTable.tsx:313-315 | the year-0 cell shows what the working-capital resolver gives for year 0 |
| WorkingCapitalTable.InputItemsOfRows | components/balance/BalanceInput.tsx:70-77 | the resolver's input lines for a year are the lines of the balance row of that year, or zeros |
| WorkingCapitalTable.DisplayedLater | components/balance/ui/WorkingCapitalTable.tsx:316-321 | a later cell with a ratio row shows what the resolver gives for that year |
| WorkingCapitalTable.DisplayedMatchesResolver | components/balance/ui/WorkingCapitalTable.tsx:305-321 | every shown cell agrees with `useWorkingCapital` |
| WorkingCapitalTable.PrefillReproducesYear0 | components/balance/ui/WorkingCapitalTable.tsx:165-203 | after a prefill, a later year with the same flows as year 0 shows its year-0 line within rounding slack |
| Cashflow.CashflowYear | components/cashflow/hooks/useComputedCashflow.ts:32-139 | a year's operating flow is NOPLAT + depreciation − change of net lines; its net change adds the debt changes and subtracts investments and interest; its check is the change of cash; absent P&L figures read 0 |
| Cashflow.ValueOf | components/cashflow/hooks/useComputedCashflow.ts:42-55 | a field reads as its stored value when the row and the field are present, and as 0 otherwise |
| Cashflow.NetLines | components/cashflow/hooks/useComputedCashflow.ts:42-70 | a row's net lines are the net working capital of its five lines with absent lines as 0, and 0 without a row |
| Cashflow.ComputeCashflow | components/cashflow/hooks/useComputedCashflow.ts:30-139 | no P&L or no balance gives `[]`; otherwise one row per year, each measured against the previous year's balance row |
| Cashflow.CashflowAt | components/cashflow/hooks/useComputedCashflow.ts:33-38 | a later year's row is built from the rows found for it and for the year before |
| Cashflow.FirstYearFromZero | components/cashflow/hooks/useComputedCashflow.ts:33-102 | the first year is measured against nothing, so its check is the year's whole cash |
| Cashflow.ChecksTelescope | components/cashflow/hooks/useComputedCashflow.ts:42-102 | the yearly cash checks sum to the latest cash and the working-capital changes to the latest net lines |
| BalanceCashflow.LaterYear | components/balance/hooks/useComputedCashflow.ts:35-93 | a later year takes EBIT, taxes, depreciation and interest from the P&L row at its position (0 without one); operating flow is NOPLAT + depreciation − change of the carried lines; investing is the change of net fixed assets; financing is the change of debt less interest; the total is operating − investing + financing; its check is the change of cash rebuilt from equity, debt, fixed assets and the carried lines |
| BalanceCashflow.RowAt | components/balance/hooks/useComputedCashflow.ts:17-38 | every row is labelled with its own year |
| BalanceCashflow.Rows | components/balance/hooks/useComputedCashflow.ts:16-95 | one row per year: zeros first, then each position against the one before |
| BalanceCashflow.ComputeBalanceCashflow | components/balance/hooks/useComputedCashflow.ts:14-95 | a missing input gives `[]`; otherwise it raises exactly when a position past the computed rows is read |
| BalanceCashflow.CheckAgainstBalanceCash | components/balance/hooks/useComputedCashflow.ts:83-93 | the check equals the change of balance-sheet cash, off by the change of the gap between computed and carried lines |
| BalanceCashflow.DepreciationCountedTwice | components/balance/hooks/useComputedCashflow.ts:66-80 | with equity rolling by net result, the total exceeds the check by exactly the depreciation |
| Dashboard.RevenueOf | components/dashboard/hooks/useDashboardData.ts:68-71 | the P&L row's revenue, and 0 without a row |
| Dashboard.EbitdaOf | components/dashboard/hooks/useDashboardData.ts:74-78 | the dashboard's EBITDA is the row's EBITDA whenever the margin chain holds, and 0 without a row |
| Dashboard.InvestmentsOf | components/dashboard/hooks/useDashboardData.ts:81-84 | the balance row's investments, and 0 without a row |
| Dashboard.CashOf | components/dashboard/hooks/useDashboardData.ts:87-90 | the computed row's cash, and 0 without a row |
| Dashboard.Icr | components/dashboard/hooks/useDashboardData.ts:97-103 | the coverage ratio times interest gives EBIT, and it is 0 without a row or without interest |
| Dashboard.EbitdaToDebt | components/dashboard/hooks/useDashboardData.ts:106-115 | the ratio times total debt gives EBITDA, and it is 0 without both rows or without debt |
| Dashboard.NetDebtToEbitda | components/dashboard/hooks/useDashboardData.ts:118-128 | the ratio times EBITDA gives debt net of cash, and it is 0 without both rows or without EBITDA |
| Dashboard.DebtToEquity | components/dashboard/hooks/useDashboardData.ts:131-141 | the ratio times equity gives total debt, and it is 0 without a row or without equity |
| Dashboard.Zeros | components/dashboard/hooks/useDashboardData.ts:48-62 | one zero per year |
| Dashboard.Series | components/dashboard/hooks/useDashboardData.ts:64-143 | every series has one value per year, each the year's own figure from the rows found for that year |
| Dashboard.DashboardData | components/dashboard/hooks/useDashboardData.ts:47-143 | either stage empty gives all-zero series; otherwise the series |
| Dashboard.DashboardMatchesStatements | components/dashboard/hooks/useDashboardData.ts:47-90 | on a projected P&L and an aligned balance, the dashboard shows each year's own revenue, EBITDA, investments and cash |
| Dashboard.EmptyStagesShowZeros | components/dashboard/hooks/useDashboardData.ts:48-62 | without either stage, every ratio is 0 |
| Formatters.Parens | components/layout/formatters.ts:37 | parenthesising wraps the text in exactly one pair of brackets |
| Formatters.FmtNormal | components/layout/formatters.ts:26-38 | negative values are bracketed, others are not; both show the magnitude; without a formatter, the plain number |
| Formatters.FmtCost | components/layout/formatters.ts:43-55 | positive values are bracketed, others are not; both show the magnitude; without a formatter, the plain magnitude |
| Formatters.FmtNegToParens | components/layout/formatters.ts:60-72 | with a formatter it is exactly the signed format `fmtNormal` (negatives bracketed); without one, the plain magnitude |
| Formatters.FmtPosToParens | components/layout/formatters.ts:77-89 | it is exactly the cost format `fmtCost` (positives bracketed), with or without a formatter |
| Formatters.CostIsNormalOfNegation | components/layout/formatters.ts:26-55 | formatting a cost is formatting its negation as a signed number |
| Formatters.SignDecidesParens | components/layout/formatters.ts:26-55 | only the sign decides the brackets, and zero is never bracketed |
| Api.Base | lib/api.ts:2-3 | the configured URL is used when non-empty, the local default otherwise; never empty |
| Api.Normalize | lib/api.ts:6 | the API root always ends in `/api`; a base already ending so is kept, any other gets `/api` appended |
| Api.NormalizeIdempotent | lib/api.ts:6 | normalising twice equals normalising once |
| Api.DefaultIsNormal | lib/api.ts:2-6 | the default base is already an API root |
| Api.RequestFor | lib/api.ts:8-25 | a request's URL is the API root followed by the path; only POST has a JSON body, only GET disables the cache |
| BalanceOutput.EmptyRow | components/balance/BalanceOutput.tsx:7-20 | the empty row has the given year |
| BalanceOutput.Sanitize | components/balance/BalanceOutput.tsx:22-41 | the sanitised row has the given year; each of the eleven fields is kept when present and 0 when absent |
| BalanceOutput.SanitizeKeepsFullRow | components/balance/BalanceOutput.tsx:22-41 | a complete row comes out unchanged |
| BalanceOutput.SanitizeIdempotent | components/balance/BalanceOutput.tsx:22-41 | sanitising a sanitised row changes nothing |
| BalanceOutput.LastOfYear | components/balance/BalanceOutput.tsx:50-52 | the row kept for a year has that year |
| BalanceOutput.LastOfYearIsLast | components/balance/BalanceOutput.tsx:50-52 | a year is absent exactly when no row has it; otherwise the kept row is the last of that year |
| BalanceOutput.LastWins | components/balance/BalanceOutput.tsx:50-52 | appending a row replaces its own year and leaves every other year alone |
| BalanceOutput.DistinctLastIsFirst | components/balance/BalanceOutput.tsx:50-52 | with distinct years, each row is the one kept for its year |
| BalanceOutput.NormalizedRow | components/balance/BalanceOutput.tsx:54-56 | a year with no row shows the empty row; otherwise the last row of that year |
| BalanceOutput.Normalize | components/balance/BalanceOutput.tsx:54-56 | one output row per requested year, in the order requested |
| BalanceOutput.NormalizeIdempotent | components/balance/BalanceOutput.tsx:50-56 | normalising normalised rows changes nothing |
| Page.WiredView | components/cashflow/hooks/useComputedCashflow.ts:9-20 | the statement sees the computed row's carried-over input lines and never sees other current assets or liabilities |
| Page.ReconciledView | components/balance/hooks/useComputedBalance.ts:159-164 | the corrected view shows the statement exactly the lines the roll-forward computed |
| Page.WiredViews | components/financialstatements/FinancialStatementsInput.tsx:96-100 | each computed row is viewed as wired |
| Page.ReconciledViews | components/financialstatements/FinancialStatementsInput.tsx:96-100 | each computed row is viewed as corrected |
| Page.PageLookups | components/financialstatements/FinancialStatementsInput.tsx:87-100 | on the statements page every year's lookups find that year's own rows |
| Page.PageNetResult | components/balance/hooks/useComputedBalance.ts:45 | the balance's net result is the projection's EBIT less interest and tax |
| Page.PageYear | components/financialstatements/FinancialStatementsInput.tsx:87-100 | a year and the one before it find their own rows in every stage |
| Page.PageCashRoll | components/balance/hooks/useComputedBalance.ts:31-104 | on the statements page each year's cash moves by the roll-forward's flows |
| Statements.ReconciledYearGap | components/cashflow/hooks/useComputedCashflow.ts:74-102 | with the corrected view, net change and check differ only by the depreciation gap and the equity flows |
| Statements.WiredYearGap | components/cashflow/hooks/useComputedCashflow.ts:42-70 | the wired check misses by the change of the lines it cannot see |
| Statements.ReconciledGapAt | components/cashflow/hooks/useComputedCashflow.ts:32-102 | the corrected statement's gap at a year is the depreciation gap less the equity flows |
| Statements.ReconciledCashGap | components/cashflow/hooks/useComputedCashflow.ts:32-102 | on the statements page the corrected gap is P&L depreciation minus balance depreciation, less contribution, plus dividend |
| Statements.ReconciledCashBalances | components/cashflow/hooks/useComputedCashflow.ts:92-102 | with matching depreciation and no equity flows, the corrected net change equals the change of cash |
| Statements.WiredCashGap | components/cashflow/hooks/useComputedCashflow.ts:42-102 | the wired gap exceeds the corrected one by the change of the unseen working capital |
| Statements.OtherAssetsRows | components/balance/types/balance.ts:8-48 | the witness input is aligned and holds other current assets of 100 in year 0 only |
| Statements.OtherAssetsLines | components/balance/hooks/useComputedBalance.ts:61-96 | on that input, working capital is 100 in year 0 and 0 in year 1 |
| Statements.OtherAssetsNoDepreciation | components/balance/hooks/useComputedBalance.ts:31-41 | on that input, year-1 depreciation is 0 |
| Statements.OtherAssetsUnseen | components/cashflow/hooks/useComputedCashflow.ts:48-55 | on that input, the wired statement sees no working capital in either year |
| Statements.OtherAssetsBalance | components/balance/hooks/useComputedBalance.ts:31-96 | the three facts about the witness input together |
| Statements.MissedBy | components/cashflow/hooks/useComputedCashflow.ts:92-102 | the two gap equations with the witness's figures force a corrected gap of 0 and a wired miss of 100 |
| Statements.SecondYearGaps | components/cashflow/hooks/useComputedCashflow.ts:42-102 | the wired and the corrected gaps of the second year |
| Statements.WiredCashflowMissesOtherAssets | components/cashflow/hooks/useComputedCashflow.ts:48-102 | on the witness input the corrected statement reconciles, while the wired one's check exceeds its net change by 100 |
| Statements.BalancePageDropsPnlCharges | components/balance/BalanceInput.tsx:53-54 | as wired, the balance page's year-0 depreciation and interest are 0, and save step 3 writes 0 back to the P&L |
| Statements.BalancePageKeepsPnlCharges | components/balance/hooks/useComputedBalance.ts:33-111 | with the corrected view, year 0 takes the P&L's depreciation and interest, and step 3 writes them back unchanged |
| Statements.BalancePageLosesDepreciation | components/balance/BalanceInput.tsx:53-54 | whenever the first year has non-zero P&L depreciation, the wired and corrected balance pages disagree on it |

## Left out

- React state, memoisation and rendering, the loading, saving and error flags, and console logging are not modelled. Each hook is modelled as the pure function its memo computes.
- `fetch`, JSON and the backend calls (`api.get`, `api.post`, `api.patch`, `api.delete`) are not modelled. `Api.RequestFor` models only the URL and options of a request; the stored data is a parameter of the load functions, and `BalanceData.SaveRecords` and `BalanceData.PnlPatches` return the payloads.
- Save step 1 (delete all backend rows) is not modelled as a separate step; the save builds the full set of records that replaces them.
- Save step 2 reads the ratios of the render before step 0 updated them. The model takes the ratio list as a parameter, so either the stale or the updated list can be supplied.
- `Number(...)` parsing of form input, and NaN, are not modelled. Numbers are exact rationals, so floating-point rounding of doubles is not modelled; only `Math.round` is.
- `toLocaleString`, `getLocale` and `fmtFactory` are not modelled. The locale formatter is a function parameter of the formatters, and `String(n)` is a parameter too.
- The hook-order defect in `WorkingCapitalTable` (a `useRef` after an early return) is not modelled; the prefill's "done" flag is explicit state.
- The `_userEdited` flag is carried and set, but no code path reads it to skip a row, so nothing else is modelled about it.
- The cash-flow page (components/cashflow/CashflowInput.tsx:37-58) is not part of this model. It passes the raw stored `/balance` records and an empty ratio list to `useComputedBalance`. Those records have no `fixedAssetsInput`/`equityInput`, which the hook reads at components/balance/hooks/useComputedBalance.ts:18-19. Only the financial-statements page's wiring is modelled (module `Page`).
- BalanceSheetTable and the other table components are not modelled beyond the values the financing and working-capital tables compute.
- PnlModel.Project: the `?? 25` fallback for a tax rate inside the branch that has already checked the rate is present can never fire, and the model omits it.
- PnlModel.Project: the base-year `cogsPct`/`opexPct` overrides are computed but never used, because year 1 carries the effective percentages. The model omits them.
- Kpis.BaseKpisRoundTrip: states the round trip within rounding slack, not as an identity, because the code rounds the ratio to an integer (see `Kpis.RoundTripNotExact`).
- BalanceData.SaveThenLoad: contribution and dividend are neither saved nor loaded, so they come back empty, and the lemma says so.
- BalanceData.SaveThenLoad: assumes the backend stores the posted records and returns them unchanged. The backend is not part of this model, so the lemma feeds the saved records straight to the loaders.
- Financing.InterestCell: a position past the balance rows reads an undefined debt total, and the code shows NaN there. The model shows no value (`None`).
- BalanceCashflow.DepreciationCountedTwice: the balance page's own cash-flow hook is not used by any page. Its double count of depreciation is recorded but not treated as a finding.

## Findings

| source | as written | input that shows it | evidently intended | confidence | as-written member | corrected member |
|---|---|---|---|---|---|---|
| components/cashflow/hooks/useComputedCashflow.ts:48-55 | On the financial-statements page (FinancialStatementsInput.tsx lines 87-100), the cash-flow statement is wired to the balance roll-forward of the rows `useBalanceData` rebuilds. It reads `inventory`, `receivables` and `payables` from the computed rows. Those are the carried-over input lines, not the computed `wc*` lines. It also reads `otherShortTermAssets`/`otherShortTermLiabilities`, which the rebuilt rows (useBalanceData.ts lines 49-77) never carry. | Two years; other current assets of 100 in year 0 only; no ratios; no fixed assets, depreciation or equity flows. The balance sheet's cash rises by 100, but the statement's net change does not. | The statement should read the lines the roll-forward computed, so that its net change explains the change of cash. | not executed | Statements.WiredCashflowMissesOtherAssets | Statements.ReconciledCashBalances |
| components/balance/BalanceInput.tsx:53-54 | The balance page feeds `useComputedPnl` rows to `useComputedBalance`. Those rows name their fields `depreciation` and `interest`, but the hook reads `dep` and `int` (useComputedBalance.ts lines 35 and 111). | Any first year whose P&L depreciation is non-zero. Year-0 depreciation and interest on the balance page become 0, and save step 3 writes 0 back to the P&L. | Year 0 should take the P&L's own depreciation and interest. | not executed | Statements.BalancePageDropsPnlCharges | Statements.BalancePageKeepsPnlCharges |
