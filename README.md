# NIFTY50 Fibonacci backtest, modelled in Dafny

The NIFTY50 scanner reads daily bars of the index and runs a "gap and accept"
backtest over them. For every consecutive pair of bars it compares today's open
with yesterday's low and high. The range is `open - low`. The 0.5 and 0.618
retracement levels of that range must both lie inside yesterday's `[low, high]`
for the day to be a TRIGGER. The backtest appends one record per evaluated day
to the session's results list, newest day first, and counts the triggers. The
dashboard and the e-mail report reduce that list to a trigger count and a hit
rate.

This project models that core:

- `prices.dfy` (module `Prices`): a price cell, `safe_float` as a function to
  `Option<real>`, and the daily bar.
- `signal.dfy` (module `Signal`): the per-pair rule `SignalFor`, the result
  record (the degenerate record has no levels), and the predicate `WellFormed`
  that every record satisfies.
- `metrics.dfy` (module `Metrics`): the TRIGGER rows of a results list and the
  two hit-rate expressions.
- `backtest.dfy` (module `Backtest`): the specification `BacktestRecords` of
  what a run appends, lemmas about its order and skipping, and the loop
  `ScanPairs` proved equal to it.
- `dashboard.dfy` (module `Dashboard`): the session state (`backtest_results`,
  `backtest_running`) as a class, `run_historical_backtest` as a method on it,
  and the results table.

Prices are exact reals. `0.5`, `0.618` and `0.382` are exact rationals there.
The `YES`/`NO` columns are booleans. The `trigger` column is the datatype
`Verdict` (`Trigger` or `NoTrade`).

## Model

| member | source | states |
|---|---|---|
| `Prices.SafeFloat` | niftycall.py:27-32 | a cell yields a number exactly when it holds one, and then that number; NaN, `None` and unconvertible values yield nothing |
| `Signal.SignalFor` | niftycall.py:119-143 | the record copies the date and the three prices through and is `WellFormed`: `case1` iff `yest_low < today_open`; a range `<= 0` gives acceptance NO, NO TRADE and no levels; a positive range gives `sl = yest_low`, `buy_50 = yest_low + 0.5*range`, `target1 = today_open + 0.382*range`, `yest_low < buy_50 < buy_618 < today_open < target1`, acceptance iff `buy_618 <= yest_high`, and TRIGGER iff acceptance; a TRIGGER record has `today_open > yest_low` and both levels in `[yest_low, yest_high]` |
| `Signal.PairRecord` | niftycall.py:111-117 | a pair yields a record exactly when today's open, yesterday's low and yesterday's high are all present, built from those three prices and today's date |
| `Signal.WorkedExample` | niftycall.py:131-142 | yesterday 100..200 and an open of 150 give `buy_50 = 125`, `buy_618 = 130.9`, `sl = 100`, `target1 = 169.1` and a TRIGGER |
| `Signal.OpenAtLowIsNoTrade` | niftycall.py:119-129 | an open exactly at yesterday's low is not a gap-up, has acceptance NO, NO TRADE and no levels |
| `Metrics.Triggers` | niftycall.py:58 | the TRIGGER rows are no more than the rows, and they are as many as the rows exactly when every row is a TRIGGER |
| `Metrics.TriggersAreTriggerRows` | niftycall.py:58 | a record is among the TRIGGER rows exactly when it is in the results with verdict TRIGGER |
| `Metrics.HitRate` | niftycall.py:58-60 | the report's hit rate lies in `[0, 100]`, is 0 exactly when there is no trigger (in particular for an empty list), equals `100 * triggers / total` for a non-empty list, and is 100 exactly when every row triggered |
| `Metrics.MetricHitRate` | niftycall.py:178-179 | the unguarded dashboard metric, callable only on the non-empty list the dashboard shows it for, equals the guarded report hit rate |
| `Backtest.RecordsFrom` | niftycall.py:110-147 | pairs `i` down to 1 append at most `i` records, each of them `WellFormed` |
| `Backtest.BacktestRecords` | niftycall.py:110-147 | a run over fewer than 2 bars appends nothing, otherwise at most `len(data) - 1` records, each of them `WellFormed` |
| `Backtest.EvaluatedFrom` | niftycall.py:110-117 | every pair index it lists is in `1..i` and has all three prices present |
| `Backtest.EvaluatedFromOrdered` | niftycall.py:110-117 | the listed pair indices strictly decrease, and a pair in `1..i` is listed exactly when its three prices are present |
| `Backtest.RecordsFollowPairs` | niftycall.py:110-145 | record `k` of pairs `i` down to 1 is the record of the `k`-th listed pair, and there are as many records as listed pairs |
| `Backtest.RecordsFollowEvaluatedPairs` | niftycall.py:110-145 | for a whole run: records come newest first, one per pair with all prices present and none for any other pair, so a pair with a missing price is skipped and the older pairs are still evaluated |
| `Backtest.CompleteRecordsFrom` | niftycall.py:110-114 | with all prices of bars `0..i` present, pairs `i` down to 1 append exactly `i` records, record `k` built from bar `i - k`'s open and bar `i - 1 - k`'s low and high |
| `Backtest.CompleteDataRecords` | niftycall.py:110-114 | with no price missing, a run appends `len(data) - 1` records and record `k` is built from bar `len(data) - 1 - k`'s open and the previous bar's low and high |
| `Backtest.TriggersAreAccepted` | niftycall.py:135-136 | every TRIGGER record of a run has `today_open > yest_low` and both `buy_50` and `buy_618` in `[yest_low, yest_high]` |
| `Backtest.ScanPairs` | niftycall.py:109-147 | the descending loop appends exactly `BacktestRecords(data)`, and `signals_found` ends equal to the number of TRIGGER records it appended |
| `Dashboard.Session.constructor` | niftycall.py:17-21 | a new session has an empty results list and is not running |
| `Dashboard.Session.RunHistoricalBacktest` | niftycall.py:93-150 | a run while one is running changes nothing and warns; otherwise the list is cleared, fewer than 10 bars leave it empty and report insufficient data, and 10 or more bars leave it equal to `BacktestRecords(data)` with the trigger count reported; the running flag ends cleared on both of these paths |
| `Dashboard.TableRowsAsWritten` | niftycall.py:172 | the table as written holds `min(20, len)` rows, and they are the last ones of the results list |
| `Dashboard.LatestTableRows` | niftycall.py:172-173 | the intended "Last 20 Days" table is the first 20 records (all of them when there are fewer) |
| `Dashboard.TableShowsOldestPairs` | niftycall.py:172-173 | with more than 21 complete bars, the table as written shows the records of pairs 20 down to 1, never the newest day |
| `Dashboard.LatestTableShowsNewestPairs` | niftycall.py:172-173 | with complete bars, the intended table shows the newest `min(20, len(data) - 1)` pairs, newest first, starting with the newest day |

## Left out

- `get_nifty_daily_data` (niftycall.py:34-41) is a network fetch with a cache. Its output is the input `data: seq<Bar>` of the model.
- `send_email` (niftycall.py:43-91 and app.py) is SMTP, secrets and message text. Only its hit-rate arithmetic (`Metrics.HitRate`) is modelled. Its period line and its list of the last five triggers are message templating.
- The Streamlit page, buttons, spinner, metrics widgets and messages are not modelled. The messages a run ends with are the `Outcome` value that `RunHistoricalBacktest` returns.
- Threads and the race the `backtest_running` flag guards against are not modelled. `ScanPairs` builds the list in a local variable, and `RunHistoricalBacktest` stores it at the end. A reader on another thread in the source could see the list half-filled; the model has no such reader.
- An exception from the fetch, which in the source would leave `backtest_running` set, is not modelled.
- Float formatting of the record fields (`.0f`, `.1f`, `.2f`, `.3f`) and the `strftime('%m/%d')` date label are presentation. Records keep exact prices and the bar's `Date`.
- IEEE floating point is not modelled: prices are exact reals, so rounding at the boundary comparisons (`buy_618 == yest_high`) and infinities are not captured.
- `Prices.SafeFloat`: the branch for values with `.iloc` (a pandas Series) is not modelled. The price columns yield scalar cells, which the `Cell` datatype covers.
- The unused `buy_382` (niftycall.py:133) never reaches a record and is not modelled.
- The close column of a bar is never read and is not modelled.
- `SignalFor` and `BacktestRecords` are functions, so equal bars give equal records; no lemma states this separately.

## Findings

| source | as written | input that shows it | evidently intended | confidence | as-written member | corrected member |
|---|---|---|---|---|---|---|
| niftycall.py:172-173 | the table under the heading "Last 20 Days" shows `backtest_results[-20:]`, the end of a list that the loop at niftycall.py:110 fills newest day first | 22 bars with all prices present and distinct dates: the run appends 21 records, and the table shows the records of pairs 20 down to 1, leaving out the newest day; the discrepancy shows only when the one-month fetch returns more than 21 bars | show the 20 newest records, `backtest_results[:20]` | medium; not executed | `Dashboard.TableShowsOldestPairs` | `Dashboard.LatestTableShowsNewestPairs` |
