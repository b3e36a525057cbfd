/**
 * What the chart is drawn from: the cumulative series of merges, the
 * per-day histogram, and the quarter-start markers with their labels.
 * Rendering itself is not modelled; these are the values handed to it.
 */
module Chart {
  import opened Wrappers
  import opened Timestamps

  // ---------------------------------------------------------------------
  // Cumulative series (left axis)

  /** Point i of the line is the number of merges up to and including the i-th. */
  function CumulativeSeries(xs: seq<DateTime>): (ys: seq<int>)
    ensures |ys| == |xs|
    ensures forall i :: 0 <= i < |ys| ==> ys[i] == |xs[..i + 1]|
    ensures forall i :: 0 < i < |ys| ==> ys[i] == ys[i - 1] + 1
    ensures ys != [] ==> ys[0] == 1 && ys[|ys| - 1] == |xs|
  {
    seq(|xs|, i => i + 1)
  }

  // ---------------------------------------------------------------------
  // Daily histogram (right axis)

  datatype DayCount = DayCount(date: Date, count: nat)

  /** How many of the timestamps fall on date `d`. */
  function CountOn(ts: seq<DateTime>, d: Date): nat
    decreases |ts|
  {
    if ts == [] then 0
    else (if DateOf(ts[0]) == d then 1 else 0) + CountOn(ts[1..], d)
  }

  predicate DatesIncreasing(h: seq<DayCount>) {
    forall i, j :: 0 <= i < j < |h| ==> DateBefore(h[i].date, h[j].date)
  }

  predicate AllPositive(h: seq<DayCount>) {
    forall i :: 0 <= i < |h| ==> h[i].count >= 1
  }

  /** The count a histogram holds for date `d`; 0 when `d` has no bar. */
  function CountIn(h: seq<DayCount>, d: Date): nat
    decreases |h|
  {
    if h == [] then 0
    else if h[0].date == d then h[0].count
    else CountIn(h[1..], d)
  }

  function Total(h: seq<DayCount>): nat
    decreases |h|
  {
    if h == [] then 0 else h[0].count + Total(h[1..])
  }

  function UniqueDates(h: seq<DayCount>): (ds: seq<Date>)
    ensures |ds| == |h| && forall i :: 0 <= i < |h| ==> ds[i] == h[i].date
  {
    seq(|h|, i requires 0 <= i < |h| => h[i].date)
  }

  function CountsPerDay(h: seq<DayCount>): (cs: seq<nat>)
    ensures |cs| == |h| && forall i :: 0 <= i < |h| ==> cs[i] == h[i].count
  {
    seq(|h|, i requires 0 <= i < |h| => h[i].count)
  }

  /** Where each bar stands: midnight of its date. */
  function BarPositions(h: seq<DayCount>): (xs: seq<DateTime>)
    ensures |xs| == |h| && forall i :: 0 <= i < |h| ==> xs[i] == Midnight(h[i].date)
  {
    seq(|h|, i requires 0 <= i < |h| => Midnight(h[i].date))
  }

  /** Counts one more timestamp on date `d`, keeping the dates ascending and distinct. */
  function Bump(h: seq<DayCount>, d: Date): (r: seq<DayCount>)
    decreases |h|
  {
    if h == [] then [DayCount(d, 1)]
    else if h[0].date == d then [DayCount(d, h[0].count + 1)] + h[1..]
    else if DateBefore(d, h[0].date) then [DayCount(d, 1)] + h
    else [h[0]] + Bump(h[1..], d)
  }

  /** Counter over the dates, then sorted: the histogram as one bar per distinct date. */
  function Tally(ts: seq<DateTime>): seq<DayCount>
    decreases |ts|
  {
    if ts == [] then [] else Bump(Tally(ts[1..]), DateOf(ts[0]))
  }

  /** In a histogram with distinct dates, each bar holds the count CountIn finds for its date. */
  lemma {:induction false} CountInAtBar(h: seq<DayCount>, i: nat)
    requires DatesIncreasing(h) && i < |h|
    ensures CountIn(h, h[i].date) == h[i].count
    decreases |h|
  {
    if i > 0 {
      assert DateBefore(h[0].date, h[i].date);
      CountInAtBar(h[1..], i - 1);
    }
  }

  /** A date has a bar exactly when its count is positive. */
  lemma {:induction false} CountInPositive(h: seq<DayCount>, d: Date)
    requires AllPositive(h)
    ensures CountIn(h, d) > 0 <==> d in UniqueDates(h)
    decreases |h|
  {
    if h != [] {
      CountInPositive(h[1..], d);
      assert UniqueDates(h) == [h[0].date] + UniqueDates(h[1..]);
    }
  }

  lemma {:induction false} CountInAbsent(h: seq<DayCount>, d: Date)
    requires forall i :: 0 <= i < |h| ==> h[i].date != d
    ensures CountIn(h, d) == 0
    decreases |h|
  {
    if h != [] {
      CountInAbsent(h[1..], d);
    }
  }

  /** Bump keeps the dates strictly ascending and every count positive. */
  lemma {:induction false} BumpOrdered(h: seq<DayCount>, d: Date)
    requires DatesIncreasing(h) && AllPositive(h)
    ensures var r := Bump(h, d);
            && DatesIncreasing(r) && AllPositive(r)
            && |r| >= 1
            && (forall i :: 0 <= i < |r| ==> r[i].date == d || DateBefore(h[0].date, r[i].date) || r[i].date == h[0].date)
    decreases |h|
  {
    if h != [] && h[0].date != d && !DateBefore(d, h[0].date) {
      var rest := Bump(h[1..], d);
      BumpOrdered(h[1..], d);
      DateTrichotomy(d, h[0].date);
      if |h| > 1 {
        assert forall i :: 0 <= i < |rest| ==> DateBefore(h[0].date, rest[i].date) by {
          forall i | 0 <= i < |rest| ensures DateBefore(h[0].date, rest[i].date) {
            assert DateBefore(h[0].date, h[1].date);
            if DateBefore(h[1].date, rest[i].date) {
              DateBeforeTransitive(h[0].date, h[1].date, rest[i].date);
            }
          }
        }
      }
    } else if h != [] && h[0].date != d {
      assert forall j :: 0 < j < |h| ==> DateBefore(d, h[j].date) by {
        forall j | 0 < j < |h| ensures DateBefore(d, h[j].date) {
          DateBeforeTransitive(d, h[0].date, h[j].date);
        }
      }
    }
  }

  /** Bump adds one to the count of `d` and to no other date. */
  lemma {:induction false} BumpCounts(h: seq<DayCount>, d: Date)
    requires DatesIncreasing(h)
    ensures forall e :: CountIn(Bump(h, d), e) == CountIn(h, e) + (if e == d then 1 else 0)
    decreases |h|
  {
    if h != [] && h[0].date != d && !DateBefore(d, h[0].date) {
      BumpCounts(h[1..], d);
    } else if h != [] && h[0].date != d {
      assert forall j :: 0 <= j < |h| ==> h[j].date != d by {
        forall j | 0 <= j < |h| ensures h[j].date != d {
          if 0 < j {
            DateBeforeTransitive(d, h[0].date, h[j].date);
          }
        }
      }
      CountInAbsent(h, d);
      assert Bump(h, d)[1..] == h;
    }
  }

  lemma {:induction false} BumpTotal(h: seq<DayCount>, d: Date)
    ensures Total(Bump(h, d)) == Total(h) + 1
    decreases |h|
  {
    if h != [] && h[0].date != d && !DateBefore(d, h[0].date) {
      BumpTotal(h[1..], d);
      assert Bump(h, d)[1..] == Bump(h[1..], d);
    } else if h != [] && h[0].date != d {
      assert Bump(h, d)[1..] == h;
    }
  }

  lemma {:induction false} TallyFacts(ts: seq<DateTime>)
    ensures var h := Tally(ts);
            && DatesIncreasing(h) && AllPositive(h)
            && (forall d :: CountIn(h, d) == CountOn(ts, d))
            && Total(h) == |ts|
    decreases |ts|
  {
    if ts != [] {
      TallyFacts(ts[1..]);
      BumpOrdered(Tally(ts[1..]), DateOf(ts[0]));
      BumpCounts(Tally(ts[1..]), DateOf(ts[0]));
      BumpTotal(Tally(ts[1..]), DateOf(ts[0]));
    }
  }

  /**
   * The daily histogram of the merge times: distinct dates in ascending
   * order, each with the number of merges on it, every merge counted once.
   */
  function DailyHistogram(ts: seq<DateTime>): (h: seq<DayCount>)
    ensures DatesIncreasing(h)
    ensures forall i :: 0 <= i < |h| ==> h[i].count == CountOn(ts, h[i].date) && h[i].count >= 1
    ensures forall d :: d in UniqueDates(h) <==> CountOn(ts, d) > 0
    ensures Total(h) == |ts|
  {
    var h := Tally(ts);
    TallyFacts(ts);
    assert forall i :: 0 <= i < |h| ==> h[i].count == CountOn(ts, h[i].date) by {
      forall i | 0 <= i < |h| ensures h[i].count == CountOn(ts, h[i].date) {
        CountInAtBar(h, i);
      }
    }
    assert forall d :: d in UniqueDates(h) <==> CountOn(ts, d) > 0 by {
      forall d ensures d in UniqueDates(h) <==> CountOn(ts, d) > 0 {
        CountInPositive(h, d);
      }
    }
    h
  }

  /** The line and the bars account for the same merges: the last cumulative value is the bars' total. */
  lemma SeriesAgree(xs: seq<DateTime>)
    requires xs != []
    ensures var ys := CumulativeSeries(xs);
            ys[|ys| - 1] == Total(DailyHistogram(xs))
  {
  }

  // ---------------------------------------------------------------------
  // Quarter markers

  /** January 1st, 00:00 of `year`: the test that keeps the year loop going. */
  function NewYear(year: int): DateTime {
    DateTime(year, 1, 1, 0, 0, 0, 0)
  }

  predicate InRange(t: DateTime, start: DateTime, end: DateTime) {
    AtOrBefore(start, t) && AtOrBefore(t, end)
  }

  predicate StrictlyAscending(s: seq<DateTime>) {
    forall i, j :: 0 <= i < j < |s| ==> Before(s[i], s[j])
  }

  /** The markers found so far: every quarter start of [start, end] before `upTo`, and only those, in order. */
  ghost predicate MarkersBelow(markers: seq<DateTime>, start: DateTime, end: DateTime, upTo: DateTime) {
    && StrictlyAscending(markers)
    && (forall i :: 0 <= i < |markers| ==>
          IsQuarterStart(markers[i]) && InRange(markers[i], start, end) && Before(markers[i], upTo))
    && (forall q :: IsQuarterStart(q) && InRange(q, start, end) && Before(q, upTo) ==> q in markers)
  }

  /** A quarter start in a later year than `year` comes after its New Year. */
  lemma QuarterStartAfterNewYear(q: DateTime, year: int)
    requires IsQuarterStart(q) && q.year >= year
    ensures AtOrBefore(NewYear(year), q)
  {
  }

  /** The instant below which the year's markers are complete once `k` of its quarters are handled. */
  function QuarterBound(year: int, k: int): (t: DateTime)
    requires 0 <= k <= 4
    ensures k == 0 ==> t == NewYear(year)
  {
    if k < 4 then QuarterStart(year, k + 1) else NewYear(year + 1)
  }

  /** No quarter start lies strictly between the start of quarter k + 1 and the next bound. */
  lemma QuarterGap(year: int, k: int, p: DateTime)
    requires 0 <= k < 4
    requires IsQuarterStart(p) && Before(p, QuarterBound(year, k + 1))
    ensures Before(p, QuarterBound(year, k)) || p == QuarterStart(year, k + 1)
  {
  }

  /** One pass of the inner loop: quarter k + 1 is appended when it is in range, and the markers stay complete. */
  lemma MarkersStep(markers: seq<DateTime>, start: DateTime, end: DateTime, year: int, k: int)
    requires 0 <= k < 4
    requires MarkersBelow(markers, start, end, QuarterBound(year, k))
    ensures var q := QuarterStart(year, k + 1);
            MarkersBelow(if InRange(q, start, end) then markers + [q] else markers,
                         start, end, QuarterBound(year, k + 1))
  {
    var q := QuarterStart(year, k + 1);
    var next := QuarterBound(year, k + 1);
    var extended := if InRange(q, start, end) then markers + [q] else markers;
    assert Before(q, next);
    forall i | 0 <= i < |markers| ensures Before(markers[i], next) {
      BeforeTransitive(markers[i], q, next);
    }
    forall p | IsQuarterStart(p) && InRange(p, start, end) && Before(p, next) ensures p in extended {
      QuarterGap(year, k, p);
    }
  }

  /**
   * The inner `for m in quarter_months` loop for one year: appends the
   * quarter starts of `year` that lie in [start, end], in month order.
   */
  method AppendQuarterStarts(markers: seq<DateTime>, year: int, start: DateTime, end: DateTime)
    returns (extended: seq<DateTime>)
    requires MarkersBelow(markers, start, end, NewYear(year))
    ensures MarkersBelow(extended, start, end, NewYear(year + 1))
  {
    extended := markers;
    for k := 0 to 4
      invariant MarkersBelow(extended, start, end, QuarterBound(year, k))
    {
      MarkersStep(extended, start, end, year, k);
      var q := QuarterStart(year, k + 1);
      if AtOrBefore(start, q) && AtOrBefore(q, end) {
        extended := extended + [q];
      }
    }
  }

  /**
   * quarter_markers: the quarter starts (January, April, July and October 1,
   * at midnight) that lie in [start, end], in ascending order, each once.
   */
  method QuarterMarkers(start: DateTime, end: DateTime) returns (markers: seq<DateTime>)
    ensures StrictlyAscending(markers)
    ensures forall i :: 0 <= i < |markers| ==> IsQuarterStart(markers[i]) && InRange(markers[i], start, end)
    ensures forall q :: IsQuarterStart(q) && InRange(q, start, end) ==> q in markers
  {
    markers := [];
    var year := start.year;
    while AtOrBefore(NewYear(year), end)
      invariant MarkersBelow(markers, start, end, NewYear(year))
      decreases end.year - year
    {
      markers := AppendQuarterStarts(markers, year, start, end);
      year := year + 1;
    }
    forall q | IsQuarterStart(q) && InRange(q, start, end) ensures q in markers {
      if q.year >= year {
        QuarterStartAfterNewYear(q, year);
        AtOrBeforeTransitive(NewYear(year), q, end);
        assert false;
      }
    }
  }

  /**
   * In a strictly ascending sequence, whatever follows the third element
   * comes after it. The example below needs this as a separate lemma: there
   * a fourth marker is already impossible, and an index into it written in
   * place would be checked under contradictory facts.
   */
  lemma AscendingPastThird(s: seq<DateTime>)
    requires StrictlyAscending(s) && |s| >= 3
    ensures |s| > 3 ==> Before(s[2], s[3])
  {
  }

  /** The worked range [2021-02-15, 2021-11-01]: April, July and October 1st, 2021, and nothing else. */
  method QuarterMarkersExample() returns (markers: seq<DateTime>)
    ensures markers == [QuarterStart(2021, 2), QuarterStart(2021, 3), QuarterStart(2021, 4)]
  {
    var start := DateTime(2021, 2, 15, 0, 0, 0, 0);
    var end := DateTime(2021, 11, 1, 0, 0, 0, 0);
    markers := QuarterMarkers(start, end);
    var a, b, c := QuarterStart(2021, 2), QuarterStart(2021, 3), QuarterStart(2021, 4);
    assert IsQuarterStart(a) && IsQuarterStart(b) && IsQuarterStart(c);
    assert a in markers && b in markers && c in markers;
    assert forall i :: 0 <= i < |markers| ==> markers[i] == a || markers[i] == b || markers[i] == c;
    assert |markers| >= 1;
    assert markers[0] == a;
    assert |markers| >= 2;
    assert markers[1] == b;
    assert |markers| >= 3;
    assert markers[2] == c;
    AscendingPastThird(markers);
    assert |markers| == 3;
  }

  /**
   * quarter_markers as written: the year loop tests New Year of every year
   * from start's on, up to and including end.year + 1, and constructing
   * that instant fails when the year is past MaxYear.
   */
  method QuarterMarkersAsWritten(start: DateTime, end: DateTime) returns (r: Result<seq<DateTime>, string>)
    requires Valid(start) && Valid(end)
    ensures r.Err? <==> end.year == MaxYear
    ensures r.Ok? ==> StrictlyAscending(r.value)
    ensures r.Ok? ==> forall i :: 0 <= i < |r.value| ==> IsQuarterStart(r.value[i]) && InRange(r.value[i], start, end)
    ensures r.Ok? ==> forall q :: IsQuarterStart(q) && InRange(q, start, end) ==> q in r.value
  {
    var markers := [];
    var year := start.year;
    while true
      invariant start.year <= year <= MaxYear + 1
      invariant year > start.year ==> year <= end.year + 1
      invariant MarkersBelow(markers, start, end, NewYear(year))
      decreases MaxYear + 1 - year
    {
      if year > MaxYear {
        return Err("year is out of range");
      }
      if !AtOrBefore(NewYear(year), end) {
        break;
      }
      markers := AppendQuarterStarts(markers, year, start, end);
      year := year + 1;
    }
    forall q | IsQuarterStart(q) && InRange(q, start, end) ensures q in markers {
      if q.year >= year {
        QuarterStartAfterNewYear(q, year);
        AtOrBeforeTransitive(NewYear(year), q, end);
        assert false;
      }
    }
    r := Ok(markers);
  }

  /** The input that shows it: a range inside the last representable year. */
  method QuarterMarkersAsWrittenFailsInMaxYear() returns (r: Result<seq<DateTime>, string>)
    ensures r.Err?
  {
    r := QuarterMarkersAsWritten(DateTime(9999, 1, 1, 0, 0, 0, 0), DateTime(9999, 12, 31, 0, 0, 0, 0));
  }

  // ---------------------------------------------------------------------
  // Everything the chart is drawn from

  datatype QuarterMark = QuarterMark(at: DateTime, caption: QuarterLabel)

  datatype ChartData = ChartData(xs: seq<DateTime>, ys: seq<int>,
                                 marks: seq<QuarterMark>,
                                 bars: seq<DateTime>, counts: seq<nat>,
                                 xFrom: DateTime, xTo: DateTime)

  function MarkTimes(marks: seq<QuarterMark>): (ts: seq<DateTime>)
    ensures |ts| == |marks| && forall i :: 0 <= i < |marks| ==> ts[i] == marks[i].at
  {
    seq(|marks|, i requires 0 <= i < |marks| => marks[i].at)
  }

  /**
   * What the figure is drawn from, given the merge times xs: the cumulative
   * line over xs, one captioned marker per quarter start between the first
   * and the last merge (strictly ascending, and none missing), one bar per
   * distinct merge day at its midnight with its count, and the x range
   * clipped to the first and last merge.
   */
  ghost predicate ChartOf(xs: seq<DateTime>, c: ChartData) {
    && |xs| > 0
    && c.xs == xs
    && c.ys == CumulativeSeries(xs)
    && c.xFrom == xs[0]
    && c.xTo == xs[|xs| - 1]
    && c.bars == BarPositions(DailyHistogram(xs))
    && c.counts == CountsPerDay(DailyHistogram(xs))
    && StrictlyAscending(MarkTimes(c.marks))
    && (forall i :: 0 <= i < |c.marks| ==>
          && IsQuarterStart(c.marks[i].at) && InRange(c.marks[i].at, c.xFrom, c.xTo)
          && c.marks[i].caption == LabelOf(c.marks[i].at))
    && (forall q :: IsQuarterStart(q) && InRange(q, c.xFrom, c.xTo) ==> q in MarkTimes(c.marks))
  }

  /**
   * plot_merged_with_quarters, up to rendering: nothing on an empty input,
   * otherwise the chart of the merge times.
   */
  method PlotMergedWithQuarters(mergedDates: seq<DateTime>) returns (chart: Option<ChartData>)
    ensures chart.None? <==> mergedDates == []
    ensures chart.Some? ==> ChartOf(mergedDates, chart.value)
  {
    if mergedDates == [] {
      return None;
    }
    var xs := mergedDates;
    var ys := CumulativeSeries(xs);
    var qmarks := QuarterMarkers(xs[0], xs[|xs| - 1]);
    var marks := [];
    for i := 0 to |qmarks|
      invariant |marks| == i
      invariant forall j :: 0 <= j < i ==> marks[j] == QuarterMark(qmarks[j], LabelOf(qmarks[j]))
    {
      marks := marks + [QuarterMark(qmarks[i], LabelOf(qmarks[i]))];
    }
    assert MarkTimes(marks) == qmarks;
    var histogram := DailyHistogram(mergedDates);
    chart := Some(ChartData(xs, ys, marks, BarPositions(histogram), CountsPerDay(histogram),
                            xs[0], xs[|xs| - 1]));
  }

  /** The worked input: three merges over two days give the line [1, 2, 3] and the bars [2, 1]. */
  lemma HistogramExample()
    ensures var ts := [DateTime(2024, 1, 1, 0, 0, 0, 0), DateTime(2024, 1, 1, 12, 0, 0, 0),
                       DateTime(2024, 1, 2, 0, 0, 0, 0)];
            && CumulativeSeries(ts) == [1, 2, 3]
            && DailyHistogram(ts) == [DayCount(Date(2024, 1, 1), 2), DayCount(Date(2024, 1, 2), 1)]
  {
  }
}
