# Merged pull requests per quarter, with a local cache

This project models, in Dafny, the core of a command-line tool that charts how
many pull requests a GitHub repository has merged over time. The tool keeps
every closed pull request it has seen in a `pulls` table keyed by the
pull-request number. A run does three things:

1. **Fetch.** Unless it is offline, it lists closed pull requests newest-first,
   one page at a time. Each page's batch is upserted into the table. The
   listing stops at the first item whose number is at or below the largest
   number cached before the run (the *frontier*). It also stops at an empty
   page, at a page without a `rel="next"` link, or at an HTTP error. A full
   refresh empties the table first and ignores the frontier.
2. **Load.** It reads the merge times of the rows flagged `merged` that also
   carry a merge time, in ascending order.
3. **Chart.** It computes the cumulative series, the quarter-start markers
   with their `Q<n> <year>` captions, and the daily histogram.

The model is organised as follows:

- `Timestamps` covers the proleptic Gregorian calendar, the order on naive
  date-times, quarter starts and quarter labels.
- `PullStore` models the table as a `map<int, PullRecord>`. It has the
  maximum-number query, the upsert, the merged-dates query, and a class
  `PullsTable` whose methods are the statements that change the table.
- `Fetcher` models the page loop as an imperative method. The method is
  proved against a closed-form specification of a run: the *stop page*
  (the first page after which the loop requests nothing more) and the
  batches of the pages up to it, upserted in page order.
- `Chart` models the quarter-marker loop and the plot's data as methods, and
  the series and histogram as functions.
- `Orchestrator` models the choice between offline, full-refresh and
  incremental runs.

The network is an input. `responses[k-1]` is the answer to the request for
page `k`: either an HTTP error status, or the items together with whether a
next page is announced. A request past the end of that sequence gets an empty
page.

## Model

| member | source | states |
|---|---|---|
| PullStore.MaxNumber | cs_rankins_pr_quarters_duckdb_cmdline_hist_offline.py:67-69 | None exactly when the table is empty; otherwise a stored number that no stored number exceeds |
| PullStore.Upsert | cs_rankins_pr_quarters_duckdb_cmdline_hist_offline.py:72-95 | an upsert keeps every row stored under its own number |
| PullStore.UpsertAt | cs_rankins_pr_quarters_duckdb_cmdline_hist_offline.py:78-95 | after an upsert, a number is present iff it was stored or is in the batch; a number in the batch holds the batch's last row with that number; any other number keeps its old row |
| PullStore.UpsertIdempotent | cs_rankins_pr_quarters_duckdb_cmdline_hist_offline.py:78-95 | inserting the same batch twice gives the same table as inserting it once |
| PullStore.UpsertConcat | cs_rankins_pr_quarters_duckdb_cmdline_hist_offline.py:180 | upserting two batches one after the other equals upserting their concatenation |
| PullStore.PullsTable.constructor | cs_rankins_pr_quarters_duckdb_cmdline_hist_offline.py:49-64 | the table opens holding the rows already stored |
| PullStore.PullsTable.InsertPrs | cs_rankins_pr_quarters_duckdb_cmdline_hist_offline.py:72-95 | the new table is the old one upserted with the batch; an empty batch leaves the table unchanged |
| PullStore.PullsTable.DeleteAll | cs_rankins_pr_quarters_duckdb_cmdline_hist_offline.py:114-116 | the table is empty afterwards |
| PullStore.SortAscending | cs_rankins_pr_quarters_duckdb_cmdline_hist_offline.py:208 | the result is in ascending time order and is a permutation of the input |
| PullStore.MergedDates | cs_rankins_pr_quarters_duckdb_cmdline_hist_offline.py:201-212 | ascending, and each time occurs exactly as often as there are rows flagged merged that carry that merge time |
| PullStore.MergedDatesMembers | cs_rankins_pr_quarters_duckdb_cmdline_hist_offline.py:205-207 | a time is loaded iff some row flagged merged carries it as its merge time |
| PullStore.MergedDatesEmpty | cs_rankins_pr_quarters_duckdb_cmdline_hist_offline.py:350-355 | nothing is loaded iff no row is both flagged merged and carries a merge time |
| Fetcher.CutIndex | cs_rankins_pr_quarters_duckdb_cmdline_hist_offline.py:150-157 | the index of the first item at or below the frontier, or the page length if there is none |
| Fetcher.ToRecord | cs_rankins_pr_quarters_duckdb_cmdline_hist_offline.py:165-178 | the stored row copies the item's number, times and state, and is flagged merged, and so selected by the loader, iff the item has a merge time |
| Fetcher.PageBatchFacts | cs_rankins_pr_quarters_duckdb_cmdline_hist_offline.py:147-178 | the batch is the page's prefix before the first cached item, one row per item, each row `merged` iff it has a merge time and numbered above the frontier; the scan stopped early iff the batch is shorter than the page; without a frontier the whole page is kept |
| Fetcher.BuildBatch | cs_rankins_pr_quarters_duckdb_cmdline_hist_offline.py:147-178 | the loop builds exactly the batch and stop flag of PageBatch |
| Fetcher.StopPageFacts | cs_rankins_pr_quarters_duckdb_cmdline_hist_offline.py:129-191 | every page before the stop page lets the loop go on (a non-empty page, no cached item, a next link), and the stop page does not |
| Fetcher.FetchAndCache | cs_rankins_pr_quarters_duckdb_cmdline_hist_offline.py:102-194 | a run makes at least one request; every page before the last one requested lets the loop go on and the last does not; the run aborts, with that page's status, iff the last page answered with an HTTP error |
| Fetcher.FetchAndCachePrs | cs_rankins_pr_quarters_duckdb_cmdline_hist_offline.py:102-194 | the loop requests exactly pages 1..p, p being the stop page; the table ends as the start table (emptied on a full refresh) upserted with those pages' batches in page order; the run aborts with page p's status iff p answered with an HTTP error, and otherwise reports p requests and the total batch length |
| Fetcher.BatchesSnoc | cs_rankins_pr_quarters_duckdb_cmdline_hist_offline.py:180-181 | the batches up to a page are those of the earlier pages followed by that page's batch |
| Fetcher.StopPageIsFirst | cs_rankins_pr_quarters_duckdb_cmdline_hist_offline.py:143-189 | the first page that does not let the loop go on is the stop page |
| Fetcher.AbortedRunKeepsEarlierPages | cs_rankins_pr_quarters_duckdb_cmdline_hist_offline.py:139-180 | an HTTP error on page k aborts the run after k requests and keeps the batches of pages 1..k-1 |
| Fetcher.BatchesAboveFrontier | cs_rankins_pr_quarters_duckdb_cmdline_hist_offline.py:153-157 | every row fetched in an incremental run is numbered above the frontier |
| Fetcher.IncrementalRunKeepsCachedRows | cs_rankins_pr_quarters_duckdb_cmdline_hist_offline.py:112-157 | an incremental run changes no cached row, and every number it adds is above every cached number |
| Fetcher.BatchesWithoutFrontier | cs_rankins_pr_quarters_duckdb_cmdline_hist_offline.py:150-178 | without a frontier, the batches are the rows of all items of the pages in order |
| Fetcher.FullRefreshRefetchesEverything | cs_rankins_pr_quarters_duckdb_cmdline_hist_offline.py:112-116 | a full refresh does not depend on the cached rows; the table holds exactly the fetched numbers, each with the row of its last fetched occurrence |
| Timestamps.Midnight | cs_rankins_pr_quarters_duckdb_cmdline_hist_offline.py:276 | the earliest date-time on the given calendar day |
| Timestamps.QuarterStart | cs_rankins_pr_quarters_duckdb_cmdline_hist_offline.py:218-222 | midnight on the first day of January, April, July or October, which falls in that quarter |
| Timestamps.QuarterOf | cs_rankins_pr_quarters_duckdb_cmdline_hist_offline.py:259 | the quarter is 1..4 and its three months contain the date-time's month |
| Timestamps.LabelOf | cs_rankins_pr_quarters_duckdb_cmdline_hist_offline.py:259 | the caption `Q<n> <year>` names a quarter in 1..4 and the date-time's own year |
| Timestamps.LabelOfQuarterStart | cs_rankins_pr_quarters_duckdb_cmdline_hist_offline.py:259 | the caption of a quarter's start names that quarter and year |
| Timestamps.QuarterStartOfLabel | cs_rankins_pr_quarters_duckdb_cmdline_hist_offline.py:259 | a quarter start is the start of the quarter its caption names |
| Chart.AppendQuarterStarts | cs_rankins_pr_quarters_duckdb_cmdline_hist_offline.py:221-224 | appends exactly the year's quarter starts that lie in [start, end], in order |
| Chart.QuarterMarkers | cs_rankins_pr_quarters_duckdb_cmdline_hist_offline.py:215-227 | strictly ascending quarter starts, each in [start, end], and every quarter start in [start, end] is among them |
| Chart.QuarterMarkersExample | cs_rankins_pr_quarters_duckdb_cmdline_hist_offline.py:215-227 | from 2021-02-15 to 2021-11-01 the markers are Q2, Q3 and Q4 of 2021 |
| Chart.QuarterMarkersAsWritten | cs_rankins_pr_quarters_duckdb_cmdline_hist_offline.py:215-227 | with the calendar ending at year 9999, the loop fails iff the range ends in year 9999; otherwise it gives the markers of QuarterMarkers |
| Chart.QuarterMarkersAsWrittenFailsInMaxYear | cs_rankins_pr_quarters_duckdb_cmdline_hist_offline.py:220-225 | the range 9999-01-01 to 9999-12-31 makes the loop fail |
| Chart.CumulativeSeries | cs_rankins_pr_quarters_duckdb_cmdline_hist_offline.py:240-241 | the i-th value counts the merges up to and including the i-th; it starts at 1, rises by 1 per merge and ends at the number of merges |
| Chart.TallyFacts | cs_rankins_pr_quarters_duckdb_cmdline_hist_offline.py:270-273 | the counted days are strictly increasing, each count is the number of merges on that day, and the counts add up to the number of merges |
| Chart.DailyHistogram | cs_rankins_pr_quarters_duckdb_cmdline_hist_offline.py:270-273 | days strictly increasing; a day is listed iff some merge falls on it, with its number of merges (at least 1); the counts add up to the number of merges |
| Chart.SeriesAgree | cs_rankins_pr_quarters_duckdb_cmdline_hist_offline.py:241-273 | the histogram's total equals the last value of the cumulative series |
| Chart.HistogramExample | cs_rankins_pr_quarters_duckdb_cmdline_hist_offline.py:240-276 | two merges on one day and one on the next give the series 1, 2, 3 and bars of 2 and 1 |
| Chart.PlotMergedWithQuarters | cs_rankins_pr_quarters_duckdb_cmdline_hist_offline.py:230-292 | no chart iff there is no merge; otherwise the cumulative series, strictly ascending captioned markers that are exactly the quarter starts between the first and the last merge, one bar per merge day at its midnight with that day's count, and the x-limits from the first to the last merge |
| Orchestrator.ModeOf | cs_rankins_pr_quarters_duckdb_cmdline_hist_offline.py:330-348 | offline wins over full refresh; a full refresh happens iff it was asked for without offline |
| Orchestrator.RunMain | cs_rankins_pr_quarters_duckdb_cmdline_hist_offline.py:327-357 | offline: no request and the table is unchanged; otherwise the table and request count are those of the fetch, and the run fails, with the aborted page's status, iff the fetch aborted; nothing is plotted iff the fetch succeeded and no merge is stored; otherwise the chart is the full chart of the loaded merge times |

## Left out

- HTTP, the session, the `GITHUB_TOKEN` header, the query parameters (`state`, `per_page=100`, `sort`, `direction`) and JSON decoding are not modelled. Each response is given as an error status, or as parsed items plus a next-page flag.
- The `Link` header is reduced to that next-page flag: whether it contains `rel="next"`.
- Timestamp parsing (`parse_ts`, with `Z` rewritten as `+00:00` and the offset dropped) is not modelled. Items carry already-parsed naive date-times, so malformed timestamps raise nothing in the model.
- A page item with no `number` field raises a `KeyError` in the source. The model's items always carry a number.
- DuckDB itself is not modelled: opening and closing connections, the schema's SQL column types (for example the 32-bit range of `INTEGER`), and the order among rows with equal merge times. Equal times are interchangeable values, so the loaded multiset and its ascending order fully determine the result.
- An HTTP error ends the run by an exception in the source. Here it is the `Aborted` result and the `FetchFailed` report. The rows committed before the error are kept, as in the source.
- The count of new rows is only logged by the source. The model returns it in `Completed`.
- Logging, argument parsing (the `true`/`false` strings) and matplotlib rendering are not modelled: figure size, line style, caption placement, date formatting, bar width and window display. The chart is its data: series, markers with captions, bars and x-limits.
- The listing is assumed to be newest-first. If it were not, numbers above the frontier that come after the first cached item would be missed. The model takes the pages as given and proves what holds for any order: cached rows are never overwritten, and new numbers lie above the frontier.
- Chart.PlotMergedWithQuarters: uses the corrected marker loop, so the year-9999 `ValueError` is not modelled. When the last merge falls in year 9999 the source raises, while the model returns the chart (see Findings).
- Orchestrator.RunMain: plots through Chart.PlotMergedWithQuarters, so it reports `Plotted` where the source's `main` stops with that `ValueError`.

## Findings

| source | as written | input that shows it | evidently intended | confidence | as-written member | corrected member |
|---|---|---|---|---|---|---|
| cs_rankins_pr_quarters_duckdb_cmdline_hist_offline.py:220-225 | the marker loop evaluates `datetime(year, 1, 1)` for the year after the last one, and Python's `datetime` cannot build year 10000 | start 9999-01-01, end 9999-12-31 (merges dated in year 9999) | the four quarter starts of 9999 are returned | not executed | Chart.QuarterMarkersAsWritten | Chart.QuarterMarkers |
