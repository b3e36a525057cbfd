/**
 * The command's main sequence: fetch unless offline, load the merged
 * timestamps, and plot them unless there are none.
 */
module Orchestrator {
  import opened Wrappers
  import opened Timestamps
  import opened PullStore
  import opened Fetcher
  import opened Chart

  /** The two flags resolved: offline takes precedence over a full refresh. */
  datatype Mode = Offline | FullRefresh | Incremental

  function ModeOf(offline: bool, fullRefresh: bool): (m: Mode)
    ensures m == Offline <==> offline
    ensures m == FullRefresh <==> !offline && fullRefresh
    ensures m == Incremental <==> !offline && !fullRefresh
  {
    if offline then Offline
    else if fullRefresh then FullRefresh
    else Incremental
  }

  /** How an invocation ends, with the number of page requests it made. */
  datatype Report =
    | FetchFailed(requests: nat, status: int)
    | NoData(requests: nat)
    | Plotted(requests: nat, chart: ChartData)

  /**
   * main, after the flags are parsed: an offline run makes no request and
   * leaves the table as it was; any other run is a fetch in the chosen
   * mode. An HTTP error ends the invocation; otherwise the merged
   * timestamps are loaded and plotted, or reported missing. The plot uses
   * the corrected quarter-marker loop, so a merge in year 9999 still plots.
   */
  method RunMain(table: PullsTable, responses: seq<Response>, fullRefresh: bool, offline: bool)
    returns (report: Report)
    requires table.Valid()
    modifies table
    ensures table.Valid()
    ensures ModeOf(offline, fullRefresh) == Offline ==>
              table.rows == old(table.rows) && !report.FetchFailed? && report.requests == 0
    ensures ModeOf(offline, fullRefresh) != Offline ==>
              var o := FetchAndCache(old(table.rows), responses, ModeOf(offline, fullRefresh) == FullRefresh);
              && table.rows == o.rows
              && report.requests == o.result.requests
              && (report.FetchFailed? <==> o.result.Aborted?)
              && (report.FetchFailed? ==> report.status == o.result.status)
    ensures report.NoData? <==> !report.FetchFailed? && MergedDates(table.rows) == []
    ensures report.Plotted? ==> ChartOf(MergedDates(table.rows), report.chart)
  {
    var requests := 0;
    if !offline {
      var fetched := FetchAndCachePrs(table, responses, fullRefresh);
      if fetched.Aborted? {
        return FetchFailed(fetched.requests, fetched.status);
      }
      requests := fetched.requests;
    }
    var mergedDates := MergedDates(table.rows);
    if mergedDates == [] {
      return NoData(requests);
    }
    var chart := PlotMergedWithQuarters(mergedDates);
    report := Plotted(requests, chart.value);
  }
}
