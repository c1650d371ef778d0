# Athlete transfer calculator — Dafny model

The calculator estimates two amounts in local currency (BRL). One is the
net proceeds of selling a football player. The other is the total cost of
buying one. Both start from a reference value in millions of euros, fee
percentages, an "international" flag and a EUR/BRL rate. The page also
shows the net balance, which is sale minus purchase.

This project models the logic under the page's UI calls, all of it in
`calc_atletas.py`:

- `Valuation` (valuation.dfy): `calcular_valor_liquido` and
  `calcular_custo_total`. They work over exact `real` values. The 0.38%
  transaction tax (IOF) applies to international deals. International
  purchases also carry the withholding gross-up (1/0.85)·0.15, which is
  exactly 3/17.
- `RateProvider` (rateprovider.dfy): the session slot `cotacao_atual`. It is
  `Absent`, or `Present(None)` after a failed first fetch, or
  `Present(Some(rate))`. Three pieces of logic act on it:
  - the fetch on a live run that finds the slot absent;
  - the "Atualizar Cotação" refresh;
  - the choice of `cotacao_usada`.

  The HTTP request and the parsing of its JSON body are reduced to a
  `FetchOutcome`: `Fetched(bid)` or `FetchFailed`.
- `BrFormat` (brformat.dfy): `formatar_numero_br`. It writes the decimal
  numeral with "." between groups of three digits and a "-" for negatives.
  `SplitDots`, `StripDots` and `ParseBr` read a rendering back, so the grouping and the round trip can be stated.
- `Page` (page.dfy): one run of the script, as `RunPass`. It covers the
  sidebar requests, the rate in use, the `is not None` guards of both
  columns, the "rate unavailable" notice, Python's `int()` truncation, and
  the net balance `saldo_liquido`. A successful refresh calls `st.rerun()`.
  The model writes that as a recursive call of `SidebarSlot` with the
  button released.
- The sidebar tests the live rate for truthiness before showing it
  (line 37). The columns test it only against None (line 76). So a bid
  of 0 is computed with but not shown. `Page.Render` states both.
- `Options` (options.dfy): the `Option` type, standing in for Python's `None`.

Page amounts go through `int()` (calc_atletas.py:94, 108, 121), which
truncates the exact amounts toward zero. So a purchase abroad of 5 M EUR
with 8% intermediation at 6.00 (exactly 37,808,117 + 11/17) shows
37.808.117. With a sale of 10 M EUR at 5% repasse and 10% intermediation
(51,000,000), the balance is truncated from 13,191,882 + 6/17 and shows
13.191.882 (`Page.WorkedExample`).

## Model

| member | source | states |
|---|---|---|
| Valuation.NetSaleProceeds | calc_atletas.py:60-64 | within the form's bounds (value ≥ 0, repasse in [0,50], intermediation in [0,20]) and with rate ≥ 0, the proceeds are at least 0 and at most the gross converted value |
| Valuation.TotalPurchaseCost | calc_atletas.py:66-71 | within the form's bounds and with rate ≥ 0, the cost lies between the gross converted value and that value times 1 + 0.20 + 0.0038 + 3/17 |
| Valuation.WithholdingIsThreeSeventeenths | calc_atletas.py:69 | the gross-up (1/0.85)·0.15 is exactly 3/17, between 0.17647 and 0.17648 |
| Valuation.DomesticSaleDeductsFees | calc_atletas.py:60-64 | a domestic sale deducts intermediation and repasse, each as its percentage of the gross converted value |
| Valuation.InternationalSaleDeductsIof | calc_atletas.py:62-63 | an international sale yields exactly value·1e6·rate·0.0038 less than the same sale at home |
| Valuation.PurchaseCostFractions | calc_atletas.py:66-71 | the cost fraction is 1 + inter/100 at home and 1 + inter/100 + 0.0038 + 3/17 abroad |
| Valuation.NoFeesIsGross | calc_atletas.py:60-71 | with no fees and the flag off, proceeds and cost both equal value·1e6·rate exactly |
| Valuation.ProceedsNeverExceedCost | calc_atletas.py:60-71 | within the form's bounds, proceeds ≤ gross converted value ≤ cost, for any flags and fees on either side |
| Valuation.ProceedsFallWithFees | calc_atletas.py:60-64 | higher repasse or intermediation, or the international flag, never raises the proceeds |
| Valuation.CostRisesWithFees | calc_atletas.py:66-71 | higher intermediation, or the international flag, never lowers the cost |
| Valuation.ExcessFeesGiveNegativeProceeds | calc_atletas.py:63 | the net fraction is not clamped: deductions above 100% give negative proceeds |
| Valuation.WorkedAmounts | calc_atletas.py:60-71 | 10 M EUR sold with 5%/10% at 6.00 gives 51,000,000 at home and 50,772,000 abroad; 5 M EUR bought abroad with 8% costs 37,808,117 + 11/17 |
| RateProvider.StoredRate | calc_atletas.py:29-35 | a fetch stores a rate exactly when it succeeded, and then it stores the bid |
| RateProvider.FetchIfAbsent | calc_atletas.py:23-35 | the fetch writes only an absent slot; the slot is always present afterwards; a failure stores None |
| RateProvider.Refresh | calc_atletas.py:40-51 | a successful refresh overwrites the slot with the bid; a failed one leaves it unchanged |
| RateProvider.RateInUse | calc_atletas.py:74-78 | a rate is in use exactly in fixed mode or when the live slot holds a value; it is the fixed value in fixed mode and the cached value in live mode |
| RateProvider.FetchHappensOnce | calc_atletas.py:23-35 | a second first-pass fetch never changes the slot the first one left, whatever its request returns |
| RateProvider.FailedFetchLeavesNoRate | calc_atletas.py:30-35 | a failed first fetch leaves the slot present with None, and live mode then has no rate in use |
| RateProvider.RefreshDecidesLiveRate | calc_atletas.py:40-51 | after a successful refresh the live rate in use is its bid; after a failed one it is what it was |
| RateProvider.FixedRateIgnoresSlot | calc_atletas.py:77-78 | fixed mode's rate does not depend on the slot |
| BrFormat.DecimalDigits | calc_atletas.py:57-58 | the numeral is non-empty and all digits, and it starts with '0' exactly when the number is 0 |
| BrFormat.DigitsValueOfDecimalDigits | calc_atletas.py:57-58 | the numeral of n denotes n |
| BrFormat.DecimalDigitsOfValue | calc_atletas.py:57-58 | every canonical numeral is the numeral of its value, so numerals and naturals correspond one to one |
| BrFormat.Pad3 | calc_atletas.py:57-58 | an inner group is three digits denoting the number below 1000 it stands for |
| BrFormat.Groups | calc_atletas.py:57-58 | the first group has 1 to 3 digits and every later group exactly 3; the first group starts with '0' only for the number 0 |
| BrFormat.Join | calc_atletas.py:58 | the joined text starts with the first group |
| BrFormat.SplitJoin | calc_atletas.py:58 | splitting the joined groups at the dots gives the groups back |
| BrFormat.StripJoin | calc_atletas.py:58 | removing the dots from the joined groups runs the groups together |
| BrFormat.NumeralSplitsAtThousands | calc_atletas.py:57-58 | the numeral of n ≥ 1000 is the numeral of n/1000 followed by the three padded digits of n mod 1000 |
| BrFormat.ConcatGroups | calc_atletas.py:57-58 | the groups of n run together give the numeral of n |
| BrFormat.FormatBr | calc_atletas.py:57-58 | the text is non-empty and starts with "-" exactly when the number is negative |
| BrFormat.FormatBrGrouping | calc_atletas.py:57-58 | after the sign, the dots split the text into one group of 1–3 digits and groups of exactly 3; removing the dots leaves the numeral of abs(n) |
| BrFormat.FormatBrRoundTrip | calc_atletas.py:57-58 | reading a rendering back gives the number rendered |
| BrFormat.FormatsZero | calc_atletas.py:57-58 | 0 is written "0" |
| BrFormat.FormatsFiftyOneMillion | calc_atletas.py:57-58 | 51000000 is written "51.000.000" |
| BrFormat.FormatsWorkedPurchase | calc_atletas.py:57-58 | 37808117 is written "37.808.117" |
| BrFormat.FormatsWorkedBalance | calc_atletas.py:57-58 | 13191882 is written "13.191.882" |
| BrFormat.FormatsNegative | calc_atletas.py:57-58 | -1234567 is written "-1.234.567" |
| Page.TruncateToInt | calc_atletas.py:94 | `int()` truncates toward zero: the result has the sign of x, and x lies less than 1 beyond it, away from zero |
| Page.AmountText | calc_atletas.py:94 | the text of an amount (`formatar_numero_br(int(x))`) reads back as the amount truncated toward zero |
| Page.SaleValuation | calc_atletas.py:91-93 | the sale is computed exactly when its three inputs are filled and a rate is in use, and then it is the net proceeds at that rate |
| Page.PurchaseValuation | calc_atletas.py:105-107 | the purchase is computed exactly when its two inputs are filled and a rate is in use, and then it is the total cost at that rate |
| Page.NetBalance | calc_atletas.py:115-121 | the balance is the truncation of (sale or 0) − (purchase or 0); with neither side computed it is 0 |
| Page.Render | calc_atletas.py:37-121 | the page below the sidebar keeps the slot and uses the rate chosen from it; each column is computed exactly when it is filled and a rate is in use; the live rate is shown exactly when it is in use and not 0; the notice shows exactly in live mode without a rate; the amounts are the column valuations at the rate in use; each text is the amount's AmountText exactly when the amount is computed; the balance truncates sale minus purchase and its text is its Brazilian rendering |
| Page.SidebarSlot | calc_atletas.py:22-51 | fixed mode keeps the slot; live mode leaves it present; a present slot is kept unless a refresh succeeds; a successful refresh stores its bid; a failed refresh keeps a present slot; an absent slot otherwise gets the first fetch's result |
| Page.RunPass | calc_atletas.py:22-121 | fixed mode leaves the slot alone and uses the fixed rate; live mode leaves the slot present and uses its value, shown in the sidebar unless it is 0; a present slot is not refetched without the button; a successful refresh stores its bid; a failed refresh keeps a present slot; an absent slot otherwise gets the first fetch's result; the notice shows exactly in live mode without a rate; the page is what Render shows for the slot the run leaves |
| Page.ComputedIffRateInUse | calc_atletas.py:92-106 | with the inputs filled, each valuation is computed exactly when a rate is in use |
| Page.NoRateMeansZeroBalance | calc_atletas.py:95-121 | without a rate nothing is computed, the balance is 0 and shown as "0", and live mode shows the notice |
| Page.FailedFirstFetchIsSticky | calc_atletas.py:23-35 | after a failed first fetch the slot holds None and there is no rate; a later live run without a successful refresh keeps it so |
| Page.RefreshUsesNewBid | calc_atletas.py:40-47 | a successful refresh stores the bid and the re-run computes with it |
| Page.FailedRefreshKeepsRate | calc_atletas.py:48-51 | a failed refresh keeps a present slot and its rate |
| Page.FixedModeSendsNoRequest | calc_atletas.py:53-55 | in fixed mode the run does not depend on any request's outcome and keeps the slot |
| Page.RerunShowsSamePage | calc_atletas.py:23-47 | a later run from the slot a run left, with the button released, shows exactly the same page whatever its requests would return |
| Page.WorkedExample | calc_atletas.py:91-121 | at a fixed 6.00, the sale of 10 M EUR (5%, 10%) shows 51.000.000; the purchase abroad of 5 M EUR (8%) shows 37.808.117; the balance shows 13.191.882 |

## Left out

- Streamlit presentation: page setup, sidebar, columns, widgets, spinners, and the wording of `st.error`, `st.success` and `st.metric`. The model keeps only whether the live rate is shown and whether the "rate unavailable" notice is shown.
- The HTTP request and the JSON parsing of `data['EURBRL']['bid']`. Together they become a `FetchOutcome` given to each run. A fetch failure covers the request, the HTTP status and the parse errors alike.
- Exceptions that the handlers do not catch, such as a `TypeError` from `float(None)` on a null bid or from a JSON body that is a list. Such an exception ends the run. On the first-run fetch (calc_atletas.py:25-35) it leaves the slot absent. On the refresh (calc_atletas.py:42-51) it leaves the slot as it was. The model has no such outcome.
- Request timeouts. `requests.get` (calc_atletas.py:26, 43) is called without a timeout, so a run can block forever. `FetchOutcome` assumes that every request returns.
- Floating point. All amounts are exact reals, so the model has no IEEE-754 rounding, NaN or infinity. It also does not keep the float rounding of `1/0.85`.
- BrFormat.FormatBr: it renders the integer exactly. `"{:,.0f}"` first converts the integer to a float, so digits are lost beyond 2^53. Amounts in this calculator stay far below that.
- The 4-decimal rendering of the live rate.
- Validation of the number inputs. The widgets keep the values in their bounds, including the fixed rate's minimum of 0.0001. The model accepts any real there. The bound lemmas take the widget bounds as their requirements.
