# CoinAPI derived-metrics engine and start-up sync, in Dafny

CoinAPI keeps per-symbol histories of exchange funding rates, open interest
and stablecoin interest rates in a local database, brings them up to date
when the service starts, and serves derived series over HTTP. This project
models the parts of `api/app.py` and `api/api_app.py` that are logic rather
than plumbing, and proves what they compute:

- **Fixed-window aggregation** (`sums.dfy`, `windowing.dfy`). The interest
  endpoint drops the leading `N % 8` samples of a series of `N`. It sums the
  rest in non-overlapping windows of 8 and labels each window with its first
  timestamp (`timestamps[N % 8::8]`). The window size is a parameter `w > 0`.
  `Windowing.InterestWindow` = 8 is the size the service uses.
- **Linear and compounded cumulative series** (`cumulative.dfy`). These are
  `100 * cumsum(v)` and `100 * (cumprod(1 + v) - 1)`. Both are defined as
  running recurrences, the way the array library accumulates them. The
  per-index closed forms (prefix sum, prefix product of growth factors) are
  proved about them. Values are exact `real`s.
- **Record building** (`series.dfy`, `endpoints.dfy`). Python's `zip` stops
  at the shorter input. Each of the three data endpoints builds one record
  per zipped element.
- **Start-up synchronisation** (`startup_sync.dfy`). The service walks every
  symbol of the enumeration, funding first and then open interest. For each
  series it catches up from the newest stored timestamp, or backfills the
  full history when the series is empty. The store is abstracted to the map
  of cursors it holds. The pass is modelled as the list of actions it issues.
  Any call of the pass can raise, and an exception ends the whole pass; the
  model states what a pass cut short in this way has issued.

`api/api_app.py` repeats the three data endpoints of `api/app.py` line for
line (43-44, 64-70, 97-100, 105), without the start-up pass. The same
members model both copies. The table below cites one copy or the other.

Two facts about the code shape the model. The interest-rate catch-up loop
(`api/app.py:64-80`) sits inside a string literal and never runs, so the
start-up model covers only the funding and open-interest families. The rates
1%, -0.5% and 2% compound to 2.5049%, since 1.01 * 0.995 * 1.02 = 1.025049;
`Cumulative.CompoundedExample` proves it.

## Model

| member | source | states |
|---|---|---|
| Windowing.Aggregate | api/app.py:178 | There are exactly N / w aggregates, so none when N < w. Aggregate i is the sum of values[N % w + w*i .. N % w + w*i + w): contiguous, non-overlapping windows that end at the newest sample |
| Windowing.AggregateShape | api/api_app.py:97 | After the leading N % w values are dropped, the reshape-and-sum gives N / w block sums. Block i sums the original values N % w + w*i up to N % w + w*i + w |
| Windowing.BlockSumsAt | api/app.py:178 | For a series of k whole windows, reshape(-1, w).sum(axis=1) has k entries and entry i sums s[w*i .. w*i + w) |
| Windowing.BlockSumsLength | api/app.py:178 | For a series of k whole windows, reshape(-1, w) yields exactly k rows |
| Windowing.Thin | api/app.py:179 | timestamps[N % w::w] has exactly N / w elements. Element i is timestamps[N % w + w*i], the first timestamp of window i |
| Windowing.ThinShape | api/api_app.py:98 | The strided slice that starts at N % w has N / w elements. Each lies in range and is the timestamp at N % w + w*i |
| Windowing.StrideShape | api/app.py:179 | A slice s[start::w] with k whole strides to the end has k elements, and element i is s[start + w*i] |
| Windowing.AggregateTotal | api/app.py:178 | The aggregates add up to the sum of values[N % w ..]: only the leading partial window is discarded |
| Windowing.BlockSumsTotal | api/app.py:178 | reshape(-1, w).sum(axis=1) on a series of whole windows keeps its total: the block sums add up to the sum of the series |
| Windowing.Stride | api/app.py:179 | s[start::w] is empty exactly when start lies past the end. Otherwise it begins with s[start], and every element it holds comes from s |
| Windowing.AggregateAligned | api/api_app.py:105 | For parallel timestamp and value series, the labels are as many as the aggregates. Label i is the timestamp of the first value summed into aggregate i, so the zip loses nothing |
| Windowing.TenSamplesExample | api/app.py:178-179 | Ten samples with windows of 8 give one aggregate, the sum of samples 3 to 10, dated with the third timestamp |
| Cumulative.RunningSumIsPrefixSum | api/app.py:146 | Element i of cumsum(v) equals the sum of v[0..i] |
| Cumulative.RunningGrowthIsPrefixGrowth | api/app.py:147 | Element i of cumprod(1 + v) equals the product of (1 + v[k]) for k <= i |
| Cumulative.RunningSum | api/app.py:146 | cumsum yields one running total per input value |
| Cumulative.RunningGrowth | api/app.py:147 | cumprod(1 + v) yields one running product per input value |
| Cumulative.Linear | api/app.py:146 | 100 * cumsum(v) has the length of v, and element i is 100 times the sum of v[0..i] |
| Cumulative.Compounded | api/app.py:147 | 100 * (cumprod(1 + v) - 1) has the length of v, and element i is 100 * (product of (1 + v[k]) for k <= i, minus 1) |
| Cumulative.LinearRecurrence | api/api_app.py:65 | Linear element 0 is 100 * v[0], and element i is element i - 1 plus 100 * v[i] |
| Cumulative.CompoundedRecurrence | api/api_app.py:66 | Compounded element 0 is 100 * v[0], and 100 + c[i] == (100 + c[i - 1]) * (1 + v[i]): the running product advances by one growth factor per sample |
| Cumulative.CompoundedDominatesLinear | api/app.py:146-147 | With no negative rate, the compounded funding is never below the linear funding at any index |
| Cumulative.CompoundedAppend | api/app.py:181 | Compounding a series that continues a with b carries on from the growth a reached: 100 plus the combined series' element at (length of a) + i equals Growth(a) times (100 plus element i of the compounded series of b alone) |
| Cumulative.LinearByRunningTotal | api/api_app.py:65 | One running total and one output per input rate compute exactly the linear cumulative series |
| Cumulative.CompoundedByRunningProduct | api/app.py:181 | One running product of growth factors and one output per input rate compute exactly the compounded cumulative series. The same definition compounds the windowed aggregates |
| Cumulative.LinearExample | api/app.py:146 | The rates 0.01, -0.005, 0.02 give the linear series 1, 0.5, 2.5 percent |
| Cumulative.CompoundedExample | api/app.py:147 | The same rates compound to 1, 0.495, 2.5049 percent |
| Series.Zip | api/app.py:124 | zip of two series has the length of the shorter, and pair i holds element i of each |
| Series.Zip3 | api/app.py:151 | zip of three series has the length of the shortest, and triple i holds element i of each |
| Series.ZipUnzip | api/api_app.py:43 | Zipping two series of equal length loses nothing: unzipping returns both |
| Series.UnzipZip | api/api_app.py:70 | Unzipping a sequence of pairs and zipping again rebuilds it |
| Endpoints.FundingRates | api/app.py:119-127 | One record per zipped (timestamp, rate) pair, holding 100 times the rate. That is one record per stored sample when the series are parallel |
| Endpoints.FundingRatesCumulative | api/api_app.py:64-79 | One record per stored sample. Record i carries timestamp i, the compounded return 100 * (prod (1 + v[k]) - 1) and the linear return 100 * sum v[k], both over k <= i |
| Endpoints.InterestRatesCumulative | api/app.py:176-194 | One record per complete window of 8, so N / 8 records for parallel series. Record i is dated timestamps[N % 8 + 8*i] and holds the compounded return of the window sums 0..i |
| Endpoints.InterestRecords | api/api_app.py:104-111 | The record loop emits one record per zipped (label, compounded value) pair, in order |
| StartupSync.Decide | api/app.py:37-49 | The action concerns the given symbol and family. It is a catch-up exactly when the store holds a cursor for that series, and then it starts from that cursor. It is a full fill exactly when the series is empty |
| StartupSync.DecideKeepsCursor | api/app.py:37-63 | The cursor an action starts from is exactly the most-recent timestamp the store reported, and absent exactly when the store reported none |
| StartupSync.Plan | api/app.py:35-63 | The pass issues two actions per symbol, in enumeration order. Action 2i is the funding decision for symbol i and action 2i+1 the open-interest decision |
| StartupSync.SyncAtStartup | api/app.py:35-63 | The start-up loop issues exactly the plan: every symbol gets both decisions, funding before open interest |
| StartupSync.Order | api/app.py:35-51 | The pass visits two series per symbol in enumeration order: series 2i is the funding series of symbol i and series 2i+1 its open-interest series |
| StartupSync.PlanFollowsOrder | api/app.py:35-63 | The plan is exactly one decision per visited series, in visiting order |
| StartupSync.FirstFault | api/app.py:35-63 | The position of the first series whose calls raise: no series before it raises, and if the position is inside the list, that series raises |
| StartupSync.Run | api/app.py:35-63 | With no exception handler around the loop, the pass is cut short exactly when some series raises. The series before the first raising one are decided in order. A failing read issues nothing more, and a failing catch-up or fill has issued its own action |
| StartupSync.RunIssuesPlanPrefix | api/app.py:35-63 | Whatever raises, the actions issued are a prefix of the plan, and the pass ends early exactly when some visited series raises |
| StartupSync.RunWithoutFaults | api/app.py:35-63 | When no call raises, the pass issues the whole plan and completes |
| StartupSync.PlanCovers | api/app.py:35 | Every series of every enumerated symbol has its decision in the plan |
| StartupSync.PlanOnlyEnumerated | api/app.py:35 | Every action of the plan concerns a symbol of the enumeration |
| StartupSync.PlanDecidesEachSeriesOnce | api/app.py:35-63 | When no symbol is listed twice, two actions about the same symbol and family are the same action: each series is decided once |
| Sums.SumAppend | api/app.py:178 | The sum of a concatenation is the sum of the sums of its parts. This underlies the statement that aggregation only discards the leading partial window |
| Sums.GrowthAppend | api/app.py:181 | The growth of a concatenation is the product of the growths of its parts. This underlies the statement that compounding a continued series carries on from the growth already reached |
| Sums.GrowthDominatesSum | api/app.py:146-147 | With no negative rate, the product of (1 + v_k) is at least 1 plus the sum of the v_k |

## Left out

- HTTP plumbing: the FastAPI app, routes, `Query` defaults, the root greeting, CORS middleware (`api/app.py:82-101`) and the fixed `/chart` payload (`api/app.py:197-212`).
- `run_server.py`: it only launches the web server.
- The database engine and table creation (`api/app.py:29-30`) and the exchange client (`api/app.py:33`). These are I/O.
- The store and download routines: `read_*_entries`, `read_most_recent_update_*`, `fill_*`, `catch_latest_*`. Their bodies are not part of this model. Their results are parameters: the timestamp and rate arrays an endpoint reads, and the cursor map of the start-up pass. Their effects are the `StartupSync.Action` values the pass issues.
- Store invariants (append-only writes, unique and ordered timestamps, a second sync being a no-op) are not modelled. They belong to the store and download routines, which are not part of this model.
- The `num_values` limit on funding reads is applied inside `read_funding_entries`. The endpoints receive its result as their input arrays.
- The interest-rate sync loop (`api/app.py:64-80`): it is a string literal, not executed code.
- The `Symbol` enumeration's members are not part of this model. The start-up pass is generic over the enumeration order `symbols`.
- Endpoints.FundingRates: records hold the exact `100 * rate`, not the value rounded to 5 decimals. Dates are raw timestamps, not `strftime('%b %y')` labels. The response's `title` field is not modelled.
- Endpoints.FundingRatesCumulative: records hold the exact compounded and linear values, not the values rounded to 2 decimals. Dates are raw timestamps, not `strftime('%b %y')` labels. The response's `title` field is not modelled.
- Endpoints.InterestRatesCumulative: records hold the exact compounded value, not the value rounded to 2 decimals. Dates are raw timestamps, not `strftime('%b %y')` labels. The response's `title` field is not modelled.
- IEEE floating-point rounding of the array library's `cumsum`, `cumprod` and `sum`: values are exact reals.
- StartupSync.SyncAtStartup: models the pass in which no call raises. `StartupSync.Run` models a pass cut short by an exception, because the loop has no handler.
- StartupSync.SyncAtStartup, StartupSync.Plan, StartupSync.Decide, StartupSync.Run: decide every series from one snapshot of the cursors, while the code reads each cursor just before that series is synchronised, after the earlier series were written. The two agree when a catch-up or fill writes only its own series. The store routines that would guarantee this are not part of this model.
