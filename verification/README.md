# Taiwan-listed breakout radar: Dafny model

This project models the logic of `stock2.py`. That script is a Streamlit page that scans a fixed universe of Taiwan-listed stocks for a moving-average "breakout" and shortlists up to five candidates. The same page runs a paper-trading account that starts with one million in cash.

The model has five modules:

- `Wrappers` (`wrappers.dfy`): `Option` and `Result`. They stand in for Python's caught exceptions.
- `Universe` (`universe.dfy`) holds the scanned universe (`get_extended_stock_list`) and the industry classification (`get_industry_v2`).
  - A ticker is a decimal code followed by `.TW`.
  - The stock list joins four Python ranges: 1501–1599, 2301–2498, 2601–2639 and 6101–6298. That makes 534 tickers.
  - A ticker's industry comes from an ordered if-chain over the integer before the first `.`. Code 2330 is tested first, so it is a wafer foundry and not general electronics.
- `Indicators` (`indicators.dfy`) covers the per-ticker body of `scan_breakout_pro`.
  - Rows with a missing field are dropped. Histories of fewer than 20 bars and last-bar volumes below 1,000,000 shares are skipped.
  - It computes the 5-, 10- and 20-bar moving averages of the close, the squeeze ratio, the bias to MA5 and the 5-bar volume ratio.
  - A ticker passes when the price is above all three averages, the squeeze is below 0.03 and the bias is below 0.035.
  - A passing ticker gets a candidate record with these fields:
    - lots = volume div 1000;
    - stop-loss = 0.97 × the lowest average;
    - take-profit = 1.15 × price;
    - a label from a first-match cascade.
  - numpy division by zero gives an infinity or NaN, not an exception. `Double` models exactly that, and every comparison with NaN is false.
- `Screener` (`screener.dfy`) covers the scan itself.
  - `ScanBreakout` is a loop over the stock list. It appends each passing candidate, then sorts by lots, largest first, and keeps five.
  - The sort is stable: candidates with equal lots keep their order, as with Python's `sorted(..., reverse=True)`.
  - The market data is an input map from ticker to its downloaded rows. A ticker the download did not return is absent from the map.
- `Ledger` (`ledger.dfy`) is the paper-trading account.
  - `Account` is a class whose `balance` and `portfolio` fields are updated in place by `Reset`, `Buy` and `Liquidate`.
  - Each method is specified by a pure transition on the `Book` value (`Opening`, `AfterBuy`, `AfterLiquidate`). The lemmas are stated about those transitions.

Other variants of this screener use different settings. The model follows `stock2.py` as written:

- the minimum history is 20 bars, not the longest window of 60;
- there is no 60-bar average and no trend or weekly gate;
- the volume ratio uses a 5-bar mean and only picks the label, it is never a filter;
- the squeeze and bias tests are strict (`<`), not `≤`;
- the cap is always 5.

## Model

| member | source | states |
|---|---|---|
| `Universe.Decimal` | stock2.py:46 | the f-string spelling of a code is a non-empty string of decimal digits |
| `Universe.ParseDecimal` | stock2.py:50 | `int()` reads back exactly the code that the f-string wrote |
| `Universe.ParseInt` | stock2.py:50 | `int()` on a string: a string parses exactly when it is a run of digits, or a `+` or `-` followed by a run of digits; a digit run parses to its value, a signed one to that value with its sign; a string that parses holds no `.`, and a negative result needs a leading `-` |
| `Universe.ParseIntRejects` | stock2.py:50 | `int()` raises on `ABC`, `12a`, the empty string, a bare `-` and `2330.TW` |
| `Universe.ParseIntAccepts` | stock2.py:50 | `int()` reads `-12` as −12 and `+7` as 7, and reads `0050` as 50 |
| `Universe.DecimalInjective` | stock2.py:46 | two codes with the same spelling are the same code |
| `Universe.BeforeDot` | stock2.py:50 | `split(".")[0]` gives a prefix of the ticker that holds no `.` and stops at the first `.` |
| `Universe.TickerFields` | stock2.py:46-50 | for a ticker `"NNNN.TW"` the first `.`-field is the code's spelling and it parses to the code |
| `Universe.Ticker` | stock2.py:46 | the f-string ticker of a code: both its first `.`-field and its text with `.TW` removed are exactly the code's spelling |
| `Universe.RemoveSuffix` | stock2.py:94 | `replace(".TW", "")` never lengthens its input and leaves a string without a `.` unchanged |
| `Universe.TickerInjective` | stock2.py:46 | different codes give different tickers |
| `Universe.CodesShape` | stock2.py:45 | the four ranges hold 534 codes, strictly increasing; each is in the universe and every universe code is among them |
| `Universe.StockList` | stock2.py:44-46 | `get_extended_stock_list` has one ticker per universe code, and entry i with `.TW` removed is the spelling of the i-th code |
| `Universe.StockListElements` | stock2.py:44-46 | the stock list has 534 entries; entry i is the ticker of the i-th universe code |
| `Universe.StockListComplete` | stock2.py:45-46 | the ticker of every code in the four ranges is in the stock list |
| `Universe.StockListDistinct` | stock2.py:45-46 | no ticker appears twice in the stock list |
| `Universe.Classify` | stock2.py:51-54 | 2330 is a wafer foundry; otherwise 2301–2499 is electronics, 1501–1599 is electrical and any other integer is "other"; each label holds exactly on its codes |
| `Universe.IndustryOf` | stock2.py:48-55 | the result is "unknown" exactly when the text before the first `.` is not an integer |
| `Universe.UnknownIndustryExamples` | stock2.py:48-55 | `ABC.TW` and `.TW` fall into the `except` branch and are "unknown" |
| `Universe.SignedIndustryExample` | stock2.py:50-54 | `-12.TW` parses to −12, which is in none of the ranges, so it is traditional |
| `Universe.IndustryOfTicker` | stock2.py:48-54 | a formatted ticker is classified by its own code; `2330.TW` is a wafer foundry |
| `Universe.UniverseIndustries` | stock2.py:45-55 | no ticker of the stock list is "unknown"; 1501–1599 are electrical; 2601–2639 and 6101–6298 are "other" |
| `Indicators.Quotient` | stock2.py:75-77 | a quotient is finite exactly when the divisor is non-zero, and then quotient × divisor = dividend; for a positive divisor, "quotient < t" and "quotient > t" mean dividend < t × divisor and dividend > t × divisor; for a zero divisor they depend only on the dividend's sign (infinity or NaN) |
| `Indicators.DropIncomplete` | stock2.py:64 | dropping incomplete rows never lengthens the history |
| `Indicators.DropIncompleteAppend` | stock2.py:64 | one more row adds its bar when that row is complete and nothing otherwise |
| `Indicators.DropIncompleteLast` | stock2.py:64-67 | when the last row is complete, the last bar (the one `iloc[-1]` reads) is that row's close and volume |
| `Indicators.DropIncompleteAllComplete` | stock2.py:64 | a history with no missing field keeps every row: same length, and bar i is row i |
| `Indicators.DropIncompleteAt` | stock2.py:64 | bar j is the row at the j-th complete position |
| `Indicators.DropIncompleteSelects` | stock2.py:64 | the bars are exactly the complete rows in their order: the kept positions are increasing, are all and only the complete rows, and bar j is the row at the j-th of them |
| `Indicators.MovingAverageBetween` | stock2.py:71-73 | `MovingAverage` (`rolling(n).mean().iloc[-1]`) lies between the smallest and the largest of the last n values |
| `Indicators.MovingAveragePositive` | stock2.py:71-73 | the mean of the last n of a series of positive closes is positive |
| `Indicators.TakeSnapshot` | stock2.py:66-67 | the snapshot's price and volume are the last bar's close and volume |
| `Indicators.Snapshot.Squeeze` | stock2.py:75 | with a positive lowest MA, "squeeze < t" holds exactly when the spread of the three MAs is below t × the lowest; a zero lowest MA passes no squeeze test |
| `Indicators.Snapshot.Bias` | stock2.py:77 | with a positive MA5, "bias < t" holds exactly when the price exceeds MA5 by less than t × MA5; with a zero MA5 it holds exactly for a negative price |
| `Indicators.Snapshot.VolumeRatio` | stock2.py:76 | with a positive 5-bar mean volume, "ratio > t" holds exactly when the last volume exceeds t × the mean; with a zero mean it holds exactly for a positive volume |
| `Indicators.IsBreakout` | stock2.py:80 | a passing snapshot has its price above MA5, MA10 and MA20; with a positive lowest MA the filter holds exactly when price > highest MA, spread < 0.03 × lowest MA and price − MA5 < 0.035 × MA5; a zero lowest MA never passes |
| `Indicators.BreakoutFacts` | stock2.py:74-80 | a passing snapshot's price is above MA5, MA10 and MA20; its averages are non-zero; its squeeze is below 0.03 and its bias below 0.035 |
| `Indicators.ChooseStrategy` | stock2.py:82-91 | each label holds if and only if its rule fires and every earlier rule fails: burst iff volume ratio > 3; squeeze iff not a burst and squeeze < 0.015; reclaim iff neither of those and previous close ≤ MA20 < price; accumulation iff none of those and volume ratio > 1.5 with bias < 0.01; steady rise iff no rule fires. A NaN ratio fails every comparison |
| `Indicators.Evaluate` | stock2.py:64-101 | fewer than 20 clean bars means InsufficientHistory. A ticker passes iff it has at least 20 bars, last volume ≥ 1,000,000 and a breakout. A passing ticker's record has its code and industry, the last close as price, lots = ⌊volume/1000⌋ ≥ 1000, the price above each MA, the squeeze and bias limits, stop = 0.97 × min MA, take = 1.15 × price, and the cascade's label |
| `Indicators.MakeCandidate` | stock2.py:93-101 | the record carries the ticker without `.TW`, its industry, the price, lots = ⌊volume/1000⌋, the label, stop = 0.97 × lowest MA and take = 1.15 × price; when 0 < lowest MA < price, 0 < stop < price < take |
| `Indicators.CandidateSound` | stock2.py:79-101 | the record built for a ticker with at least 20 bars, enough volume and a breakout satisfies every clause of `Sound` |
| `Indicators.LotsBound` | stock2.py:97 | a volume of at least 1,000,000 shares gives at least 1000 lots, and lots is the whole part of volume/1000 |
| `Indicators.StopBelowPriceBelowTarget` | stock2.py:99-100 | with positive closes, 0 < stop-loss < price < take-profit for every passing ticker |
| `Indicators.VolumeRatioOnlyLabels` | stock2.py:76-91 | histories with the same closes and the same last volume pass alike, with records that differ at most in their label |
| `Screener.EvaluateTicker` | stock2.py:62-64 | a ticker missing from the download is skipped as NoData; an admitted ticker is in the download and its record is `Sound` for its clean bars |
| `Screener.Collect` | stock2.py:60-102 | the results list after visiting the tickers holds at most one record per ticker |
| `Screener.CollectAdmitted` | stock2.py:60-102 | for any evaluation, a record is in the results exactly when some visited ticker evaluates to it |
| `Screener.Candidates` | stock2.py:58-102 | the results of the scan loop over a ticker list hold at most one record per ticker |
| `Screener.CandidatesAdmitted` | stock2.py:60-102 | a record is collected by the loop exactly when some visited ticker evaluates to it |
| `Screener.Insert` | stock2.py:103 | inserting into a lots-non-increasing list keeps it non-increasing and adds exactly that record |
| `Screener.SortByLots` | stock2.py:103 | the sorted list is non-increasing in lots and a permutation of its input |
| `Screener.SortStable` | stock2.py:103 | for every lot count, the records with that count keep their input order |
| `Screener.Shortlist` | stock2.py:103 | the shortlist has min(5, n) records and is non-increasing in lots |
| `Screener.ShortlistKeepsLargest` | stock2.py:103 | the shortlist is a sub-multiset of the candidates, and no candidate left out has more lots than one kept |
| `Screener.ShortlistPicked` | stock2.py:62-103 | every shortlisted record was built from ≥ 20 bars of a stock-list ticker that passed every filter |
| `Screener.ScanBreakout` | stock2.py:57-103 | the loop's result is the shortlist of the collected candidates: at most 5, non-increasing in lots, each built for a stock-list ticker that passed |
| `Universe.StockListCode` | stock2.py:44-46 | a stock-list ticker whose code spells a given code is that code's ticker |
| `Screener.CollectedFrom` | stock2.py:61-101 | every collected record comes from a visited ticker that was downloaded with at least 20 clean rows, and the record carries that ticker's code |
| `Screener.ShortHistoryNeverPicked` | stock2.py:62-65 | a universe ticker with no data or fewer than 20 complete rows never appears in the shortlist, whatever its prices |
| `Ledger.CostValueRemove` | stock2.py:154 | the portfolio's value at cost is the same whichever holding is summed first |
| `Ledger.CostValue` | stock2.py:154 | the sum of lots × 1000 × cost over the portfolio; with no negative lots or costs it is non-negative |
| `Ledger.Opening` | stock2.py:9-12 | the opening book has 1,000,000 in cash and no holdings, so it is sane and records no negative cost |
| `Ledger.AfterBuy` | stock2.py:124-137 | an affordable buy lowers the balance by exactly shares × 1000 × price (so it stays ≥ 0); it adds lots to a held code at its old cost, or records a new code at this price; every other code is unchanged; an unaffordable buy changes nothing |
| `Ledger.AfterLiquidate` | stock2.py:154-156 | liquidation empties the portfolio and keeps cash plus holdings at cost |
| `Ledger.BuyKeepsSane` | stock2.py:127-133 | a buy of one lot or more keeps the balance non-negative and every position at ≥ 1 lot |
| `Ledger.BuyKeepsCostsNonNegative` | stock2.py:124-133 | a buy of one lot or more at a non-negative price keeps every recorded lot count and cost non-negative |
| `Ledger.LiquidateKeepsSane` | stock2.py:154-156 | with non-negative recorded costs, liquidation never lowers the balance and leaves a sane book with no negative cost |
| `Ledger.BuyEquity` | stock2.py:128-133 | buying a new code keeps cash plus holdings at cost; topping up a held code changes it by shares × 1000 × (old cost − price paid) |
| `Ledger.Account.constructor` | stock2.py:9-12 | a new session starts at the opening book |
| `Ledger.Account.Reset` | stock2.py:31-33 | the reset button restores the opening book |
| `Ledger.Account.Buy` | stock2.py:123-137 | the purchase succeeds iff the balance covers the cost; the new state is `AfterBuy` of the old one; on failure nothing changes |
| `Ledger.Account.Liquidate` | stock2.py:152-156 | the loop sums lots × 1000 × cost over all holdings; the new state is `AfterLiquidate` of the old one |

## Left out

- The Streamlit page is not modelled: its setup, widgets, tabs, expanders, metrics, messages and `st.rerun`. This is user interface only.
- The access-key gate against the fixed key list is not modelled. It is a membership test that guards the page.
- `yf.download` and `@st.cache_data` are not modelled. They are network I/O and caching. The downloaded frame is an input, `MarketData`, and a ticker missing from it is skipped like the source's `KeyError`.
- The `except: continue` around each ticker becomes the `Skip` outcome of `Evaluate` and `EvaluateTicker` (`NoData`, `InsufficientHistory`, `ThinVolume`, `NoBreakout`). Python exception semantics are not modelled.
- Floating point is modelled only in part:
  - prices and volumes are exact reals, so rounding error is ignored;
  - `round(..., 2)` on price, stop-loss and take-profit is ignored, and the stated bounds hold before rounding;
  - signed zero is ignored;
  - only the infinities and NaN from division by zero are kept.
- `DropIncomplete` reads the Open, High, Low, Close and Volume columns. An "Adj Close" column, which some yfinance settings add, is not modelled.
- `Universe.ParseInt` accepts an optional sign followed by ASCII digits. The whitespace, underscores and non-ASCII digits that Python's `int()` also accepts are not modelled.
- `Indicators.StopBelowPriceBelowTarget` holds only for positive closes. With negative closes the squeeze test always passes, and a stop-loss above the price is possible.
- `Ledger.Account.Buy` takes the lot count already bounded to 1–100 by the number input. It takes the code and price as they appear in the displayed record.
- `Ledger.Account.Buy` accepts any real price, as the transition does. The balance is shown to stay non-negative through liquidation only for books whose recorded costs are non-negative: the opening book and every book reached from it by buys at non-negative prices (`BuyKeepsCostsNonNegative`, `LiquidateKeepsSane`). A buy at a negative price followed by a top-up can drive a later liquidation into debt; the page only buys at a displayed close.
- The portfolio table (stock2.py:143-151) is display only. Its per-row value is the same `HoldingValue` that liquidation sums.
