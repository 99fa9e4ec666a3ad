# Google Trends proxy: series analyzer and batch keyword handling

This project models the logic of a small HTTP service that fetches
Google Trends interest-over-time data for keywords and summarises it. Two
endpoints matter:

- `get_trends` takes one keyword and fetches its weekly score column (0–100).
  It reports the last score, the truncated mean and the maximum, together
  with a trend label. The label is `no_data`, `insufficient_data`, `rising`,
  `falling` or `stable`.
- `get_trends_batch` takes a comma-separated keyword string. It keeps at
  most five fields, strips the whitespace around each, and calls
  `get_trends` once per keyword, in order.

The Dafny files are:

- `wrappers.dfy`: `Option` and `Result`.
- `series.dfy` (module `Series`): the analyzer as pure functions, with
  lemmas about them. The source's float arithmetic (`sum(...) / 4`,
  `* 1.2`, `* 0.8`, `sum / len`) is written with Dafny's exact `real`. The
  lemmas prove what that means in integers:
  - rising iff `5 * sum(last 4) > 6 * sum(previous 4)`;
  - falling iff not rising and `5 * sum(last 4) < 4 * sum(previous 4)`;
  - `int(sum / len)` equals `sum / len` on non-negative scores.
- `keywords.dfy` (module `Keywords`): Python's `str.split` with a
  one-character separator, `str.strip` (Python's `str.isspace` set of
  whitespace characters), and the `[:5]` slice.
- `trends.dfy` (module `Trends`): `get_trends` as a function of what the
  provider answered. `get_trends_batch` is a method whose loop appends one
  result per keyword.

How the provider is modelled:

- The provider call is a parameter. For one keyword it yields either
  `Raised(detail)`, an exception, or `Fetched(column)`.
- `column` is `None` when the returned frame is empty or has no column for
  the keyword. Otherwise it is the keyword's column.
- In the batch, `fetch(i, k)` is the answer to the `i`-th call, which asks
  for keyword `k`.
- An exception inside `get_trends` becomes a 500 error carrying the
  exception's message. The batch loop has no handler of its own, so the
  first such error is the whole batch's response, and results gathered
  before it are not returned.

## Model

| member | source | states |
|---|---|---|
| `Series.Analyze` | app.py:52-80 | No data (missing column, or an empty one) iff the label is `no_data`, and then every score is 0 and `data_points` is empty. Otherwise `data_points` is the series unchanged and current is its last element. Peak is an element and at least every element. Average is the truncated mean `Average(s)` and lies between the minimum and the peak. The label is `Trend(s)`, which is `insufficient_data` iff there are fewer than 8 points. |
| `Series.Max` | app.py:66 | `max(data)` is an element of the series and no element exceeds it |
| `Series.TruncToInt` | app.py:65 | Python's `int()` on a float truncates toward zero: the result is within one below a non-negative argument and within one above a negative one |
| `Series.Trend` | app.py:69-80 | Never `no_data`; `insufficient_data` iff fewer than 8 points. From 8 points: `rising` iff 5·sum(last 4) > 6·sum(previous 4); `falling` iff not rising and 5·sum(last 4) < 4·sum(previous 4); `stable` iff 4·prev ≤ 5·recent ≤ 6·prev. This is the float comparison restated in integers. |
| `Series.AverageWithinRange` | app.py:65 | The truncated mean of a non-empty series lies between its minimum and its maximum (for every integer series) |
| `Series.AverageIsIntegerDivision` | app.py:65 | On non-negative scores, `int(sum(data) / len(data))` equals integer division `sum / len` |
| `Series.ScoresStayOnScale` | app.py:63-66 | Scores on the 0–100 scale give current, average and peak on the 0–100 scale |
| `Series.TrendDependsOnLastEight` | app.py:69-71 | Two series of 8 or more points whose last eight points agree get the same label |
| `Series.ConstantSeriesIsStable` | app.py:69-78 | A constant series of 8 or more non-negative scores is `stable` |
| `Series.RisingAndFallingExclusive` | app.py:73-76 | On non-negative scores, the rising and falling conditions never hold together |
| `Series.RisingExample` | app.py:69-78 | `[10,20,...,80]`: the last four average 65 and the previous four 25, so the label is `rising` |
| `Series.ShortSeriesExample` | app.py:63-80 | `[10,20,30]` gives current 30, average 20, peak 30 and `insufficient_data` |
| `Series.Direction.Label` | app.py:57-80 | The `trend_direction` string of each label. `LabelsAreDistinct` proves the five strings pairwise different, so the enum stands for them one to one. |
| `Series.Sum` | app.py:65-71 | Python's `sum`. `SumBounds` bounds it by length times the least and greatest point; `SumOfConstant` evaluates it on a constant series. |
| `Series.Average` | app.py:65 | `int(sum(data) / len(data))` as the truncation of the exact mean. `AverageWithinRange` proves it lies between the minimum and the maximum; `AverageIsIntegerDivision` proves it equals `sum / len` on non-negative scores. |
| `Series.RecentSum` | app.py:70 | `sum(data[-4:])`. `Trend`'s contract compares it with `PreviousSum` in integers; `TrendDependsOnLastEight` shows it reads only the last eight points. |
| `Series.PreviousSum` | app.py:71 | `sum(data[-8:-4])`. `Trend`'s contract compares it with `RecentSum` in integers; `RisingAndFallingExclusive` uses it being non-negative on non-negative scores. |
| `Series.SumBounds` | app.py:65 | If every point lies in `[lo, hi]`, then `sum` lies in `[len·lo, len·hi]` |
| `Keywords.IsSpace` | app.py:103 | The characters `str.strip()` removes: Python's `str.isspace` set. `TrimStart`, `TrimEnd` and `Strip` state what they remove in its terms. |
| `Keywords.TrimStart` | app.py:103 | The result is a suffix of the input, everything removed is whitespace, and the result starts with a non-whitespace character or is empty |
| `Keywords.TrimEnd` | app.py:103 | The result is a prefix of the input, everything removed is whitespace, and the result ends with a non-whitespace character or is empty |
| `Keywords.Strip` | app.py:103 | `k.strip()` is a contiguous slice of `k` with only whitespace before and after it, and it neither starts nor ends with whitespace |
| `Keywords.StripIdempotent` | app.py:103 | Stripping twice is stripping once |
| `Keywords.StripKeepsOut` | app.py:103 | Stripping adds no character: a comma absent from the field is absent from the keyword |
| `Keywords.Split` | app.py:103 | `split(",")` always yields at least one piece (`"".split(",") == [""]`) |
| `Keywords.SplitPiecesLackSeparator` | app.py:103 | No piece of `split(",")` contains a comma |
| `Keywords.JoinSplit` | app.py:103 | `",".join(s.split(","))` gives `s` back |
| `Keywords.SplitJoin` | app.py:103 | Splitting a comma-join of comma-free pieces gives exactly those pieces back |
| `Keywords.ParseKeywords` | app.py:103 | The keyword list is never empty, has at most 5 entries, and has min(5, number of fields) entries |
| `Keywords.KeywordIsStrippedField` | app.py:103 | Keyword `i` is field `i` stripped, in the original order. It holds no comma and neither starts nor ends with whitespace. |
| `Keywords.ParseCleanKeywords` | app.py:103 | Up to 5 comma-free, already-trimmed keywords joined with commas parse back to exactly that list |
| `Trends.GetTrends` | app.py:45-95 | The response is an error iff the provider call raised. The error has status 500 and carries the exception's message. A missing column gives the all-zero `no_data` body for the keyword. |
| `Trends.GetTrendsResponse` | app.py:35-43 | For a column on the 0–100 scale, the response succeeds and echoes the keyword. `data_points` is the column unchanged (empty when missing), and current, average and peak are on the 0–100 scale. |
| `Trends.GetTrendsBatch` | app.py:103-111 | The batch succeeds iff every keyword's `get_trends` call succeeds. On success there is exactly one result per parsed keyword, and entry `i` is keyword `i`'s single-keyword result. On failure the response is the error of the first failing keyword, and every keyword before it succeeded. |

## Left out

- The FastAPI application, CORS middleware, routes and the `home` status
  endpoint (app.py:1-23): framework wiring with no logic.
- The pytrends client (`TrendReq`, `build_payload`, `interest_over_time`)
  and the DataFrame column check (app.py:19, 47-52): foreign I/O. Its answer
  is a parameter (`Trends.Fetch`). A provider that answers differently over
  time is covered only through the call index in `fetch(i, k)`.
- The `timeframe` and `geo` parameters: they only reach the provider call,
  which is a parameter here.
- `time.sleep(1)` and `time.sleep(2)` (app.py:83, 109): wall-clock pacing
  with no effect on any result.
- Floating-point rounding: the float expressions are modelled with exact
  reals. For scores on the 0–100 scale the rounding of `* 1.2`, `* 0.8` and
  `/` does not change any comparison or truncation.
- Exceptions raised by anything other than the provider call, for example
  a non-numeric column, are not modelled. Only the provider's exception
  becomes the 500 response.
- FastAPI's serialisation of the 500 error of a batch is not modelled. The
  model returns the same `ApiError` that the failing `get_trends` call
  produced.
- A quota window, admission control, a retry/backoff controller and
  partial batch results are not modelled. The service's code has none of
  them: it only sleeps between calls and lets exceptions propagate.
