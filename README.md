# 2030 CAGR Simulator — model of the dashboard's data logic

`app.py` is a single-page Streamlit dashboard: it keeps a list of tracked
tickers in the session, fetches each ticker's price and market cap from
Yahoo Finance (with fallbacks between provider fields), lets the user set a
2030 market-cap target per asset with a slider, computes the implied target
price and 5-year CAGR, and shows the rows ranked by CAGR. This project models
the deterministic part of that script in Dafny:

- `pyvalues.dfy` — module `PyValues`: optional provider fields, provider
  accesses that may raise (`Access = Raises | Yields`), Python truthiness of
  numbers (`None` and `0` are false, negatives are true).
- `quotes.dfy` — module `Quotes`: `fetch_stock_data`. The two `or`-chains
  are modelled by `OrChain`, which follows Python's evaluation exactly: left
  to right, the first truthy operand wins, an operand that raises ends the
  chain, and operands after the winner are never evaluated (so a raising
  `fast_info` does not matter when `info` already has the value). Any raise
  gives `None`; nothing escapes. The display symbol is `split('-')[0]`.
- `session.dfy` — module `Session`: the tracked-symbol list
  (`st.session_state.my_symbols`) as a class with a `seq` field, starting
  from `['AAPL', 'TSLA', 'NVDA', 'BTC-USD']`; `Submit` is the sidebar's
  upper-case-then-append-if-new action. Its invariant: entries distinct,
  non-empty, upper case.
- `collect.dfy` — module `Collect`: the loop building `final_data`, proved
  equal to the successful fetches in tracked order (a subsequence of the
  fetches, with every dropped position a failure).
- `projection.dfy` — module `Projection`: `int(MC_B)` as truncation toward
  zero, the slider's bounds and default, the slider loop filling
  `target_values` (a later row with the same symbol overwrites an earlier
  one, as the dict assignment does), `calc`, the column assignment, the sort
  by CAGR (highest first) and the `Rank` column.
- `dashboard.dfy` — module `Dashboard`: the script from `final_data = []`
  on: collect, show the error branch when nothing was fetched, otherwise the
  ranked table. The add-ticker step that precedes it in the same run is the
  separate `Session.TrackedSymbols.Submit`.

The provider, the user and the fractional power are parameters: `feed:
string -> Reply` answers for Yahoo Finance (a function, since the cache
gives one answer per symbol within a run), `widget: (string, Slider) -> int`
is what the user sets on a slider with a given label and bounds, and
`fifthRoot: real -> real` stands for `** (1/5)`. CAGR facts are proved for
any `fifthRoot` that maps 1 to 1 and is increasing on the non-negative reals.

What `app.py` does not do, the model does not do either: there is no
stripping of `.XX` exchange suffixes, no fallback to price history, no
positivity check (a negative price or market cap is truthy and accepted),
the default target is `2 * int(MC_B)`, and nothing is claimed about the
order of rows with equal CAGR.

Two facts worth noting from the proofs: the slider's default `2 *
int(MC_B)` lies within `[1, max]` exactly when `MC_B >= 1`
(`SliderDefaultInRange`), so for an asset under one billion the default is
below the slider's minimum; and when two tracked tickers share a display
symbol (`BTC-USD` and `BTC-EUR`) both rows use the target of the last
slider.

## Model

| member | source | states |
|---|---|---|
| `Quotes.DisplaySymbol` | app.py:21 | the display symbol is a prefix of the ticker, contains no `-`, and is either the whole ticker or followed by a `-` (the longest dash-free prefix) |
| `Quotes.DisplaySymbolOfDashFree` | app.py:21 | a ticker without `-` is its own display symbol |
| `Quotes.DisplaySymbolIdempotent` | app.py:21 | applying the rule to a display symbol leaves it unchanged |
| `Quotes.DisplaySymbolExamples` | app.py:21 | `BTC-USD` shows as `BTC`, `AAPL` as `AAPL` |
| `PyValues.Truthy` | app.py:17-20 | definition: `None` and zero are false, every other number (negative ones included) true, as the `or`-chains and `if price and mc` test it |
| `Quotes.OrChain` | app.py:17-18 | Python's `a or b or ...` over provider accesses; its value is always one of the operands; properties in `OrChainSelected` and `OrChainCases` |
| `Quotes.PriceChain` | app.py:17 | definition: the operands `regularMarketPrice`, `currentPrice`, `fast_info['lastPrice']` in that order |
| `Quotes.CapChain` | app.py:18 | definition: the operands `marketCap`, `fast_info['marketCap']` in that order |
| `Quotes.OrChainSelected` | app.py:17-18 | when operand k is the first truthy one and nothing before it raised, the chain's value is operand k, whatever the later operands are (they are not consulted) |
| `Quotes.OrChainCases` | app.py:17-18 | the chain is truthy exactly when some operand is first-truthy with no earlier raise, and raises exactly when an operand raises after only missing or zero ones |
| `Quotes.FetchStockData` | app.py:12-24 | a record has a non-zero price, a non-zero market cap and a dash-free symbol |
| `Quotes.FetchStockDataSomeIff` | app.py:13-24 | a record is returned exactly when `info` succeeds and both the price chain and the market-cap chain reach a truthy value without an exception; otherwise `None` |
| `Quotes.FetchStockDataRecord` | app.py:17-21 | the record holds the display symbol, the first truthy price, and `MC_B` with `MC_B * 1e9` equal to the first truthy market cap |
| `Quotes.FetchStockDataIgnoresFastInfo` | app.py:17-18 | when `info` has a truthy price and market cap, the record exists and does not depend on what `fast_info` would answer, even an exception |
| `Session.Upper` | app.py:32 | `.upper()` on ASCII letters; keeps the length; properties in `UpperProperties` |
| `Session.UpperProperties` | app.py:32-33 | upper-casing keeps the length (so the emptiness test is unchanged), leaves no lower-case letter, and is idempotent |
| `Session.WithTicker` | app.py:33-35 | the list changes exactly when the ticker is non-empty and new; then it is appended at the end, earlier entries and order kept, length grows by at most 1, and a duplicate-free list stays duplicate-free |
| `Session.WithTickerIdempotent` | app.py:33-35 | submitting the same ticker twice is submitting it once |
| `Session.TrackedSymbols.constructor` | app.py:27-28 | the session starts with AAPL, TSLA, NVDA, BTC-USD, a valid (distinct, non-empty, upper-case) list |
| `Session.TrackedSymbols.Submit` | app.py:32-35 | keeps the list valid; the new list is the upper-cased entry added if new when the button is clicked, the old list otherwise; reports whether it grew |
| `Collect.Fetches` | app.py:40-41 | one fetch answer per tracked symbol |
| `Collect.Somes` | app.py:42-43 | keeping the non-`None` answers never yields more records than answers |
| `Collect.Successes` | app.py:39-43 | `final_data`: the non-`None` fetch answers, at most one per tracked symbol; properties in `SomesSubsequence`, `SomesEmptyIff`, `CollectQuotes` |
| `Collect.SomesAppend` | app.py:39-43 | keeping distributes over concatenation, so records come out in list order |
| `Collect.SomesSubsequence` | app.py:39-43 | the kept records sit at strictly increasing positions, each is the fetch at its position, and every position not kept failed |
| `Collect.SomesEmptyIff` | app.py:39-47 | nothing is collected exactly when every fetch failed, and everything exactly when none failed |
| `Collect.SuccessesWellFormed` | app.py:20-21 | every collected record has a non-zero price and market cap and a dash-free symbol |
| `Collect.CollectQuotes` | app.py:39-43 | the loop's `final_data` is exactly the successful fetches in tracked order |
| `Projection.Trunc` | app.py:53 | `int()` truncates toward zero: within 1 below a non-negative value, within 1 above a negative one |
| `Projection.SliderFor` | app.py:53-58 | minimum 1, maximum the larger of `10 * int(MC_B)` and 10000, default `2 * int(MC_B)` |
| `Projection.SliderDefaultInRange` | app.py:53-58 | the default lies within the slider's bounds exactly when `MC_B >= 1` |
| `Projection.SliderLabel` | app.py:55 | the label `f"{symbol} Target MC"`: the symbol followed by more text |
| `Projection.CreateSliders` | app.py:49-59 | `target_values` has exactly the rows' symbols as keys, and a symbol holds the answer to the last slider shown for it |
| `Projection.Calc` | app.py:62-66 | the row and target are kept; `target_price / Price == target_mc / MC_B` for a non-zero price, and `target_price == Price` when the target equals `MC_B` |
| `Projection.CagrZeroIff` | app.py:64 | for `MC_B > 0`, any non-negative target (0 included, the slider's default below one billion) and a root fixing 1 and strictly increasing on the non-negative reals, CAGR is zero exactly when the target equals the current market cap |
| `Projection.CagrMonotone` | app.py:64-65 | for a root increasing on the non-negative reals, positive `MC_B` and targets `0 <= t1 <= t2`, the larger target never gives a lower CAGR, nor a lower target price when the price is positive |
| `Projection.ApplyCalc` | app.py:68 | the new columns of every row are `calc` of that row with its symbol's target |
| `Projection.SortByCagr` | app.py:69 | the sorted rows are a permutation of the rows with CAGR non-increasing |
| `Projection.RankByCagr` | app.py:69-70 | the ranked table is a permutation of the rows, CAGR never increases down the table, and `Rank` is 1..N in row order |
| `Dashboard.RankedTable` | app.py:47-70 | the table's quotes are a permutation of the collected records, sorted by CAGR, ranked 1..N, each row `calc` of its quote and target, and with distinct symbols each target is the answer to that row's slider |
| `Dashboard.Refresh` | app.py:39-88 | the error branch is shown exactly when every fetch failed; otherwise the table holds exactly the successful records, ranked by CAGR |

## Left out

- The page layout, the sidebar widgets' rendering, the results table's
  formatting and the bar chart (app.py:6-7, 31, 48, 73-85): presentation.
- The network calls of yfinance: each ticker's answers are the given `Reply`
  value, and an exception anywhere in the provider is `Raises` on the access
  that would throw.
- `@st.cache_data(ttl=86400)`, `st.cache_data.clear()` after an add, and the
  "Force Refresh" button with `st.rerun()` (app.py:11, 36, 89-91): library
  caching and session mechanics; the error message itself is `CouldNotFetch`.
- Floating point: prices, market caps, `mc / 1_000_000_000` and the target
  price are exact reals; NaN (truthy in Python) and rounding are not modelled.
- Projection.Calc: the power `** (1/5)` is the parameter `fifthRoot`; a
  negative ratio, which Python turns into a complex number, is not modelled.
- Projection.SortByCagr: the model sorts by insertion, one of the orders the
  unstable pandas sort may produce; nothing is stated about ties.
- Session.Upper, Session.UpperProperties: `str.upper()` is modelled on ASCII
  letters only; other Unicode case mappings (é to É) and those that change the
  length (ß to SS) are not.
- Dashboard.RankedTable: the link from a row's target to its slider is stated
  only when display symbols are distinct; with a shared symbol the row gets
  the last slider's answer, behaviour the dashboard does not intend.
- Values of `info` fields that are not numbers are not modelled; fields are
  missing or numeric.
