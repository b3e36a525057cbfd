/**
 * Naive timestamps, as the program holds them once the "Z" suffix has been
 * stripped and the time zone dropped: a calendar date plus a wall-clock time
 * down to the microsecond. Comparison is the lexicographic order of the
 * seven fields, which is how naive datetimes (and SQL TIMESTAMP values)
 * compare.
 */
module Timestamps {

  /** The year range a naive datetime can hold. */
  const MinYear := 1
  const MaxYear := 9999

  datatype Date = Date(year: int, month: int, day: int)

  datatype DateTime = DateTime(year: int, month: int, day: int,
                               hour: int, minute: int, second: int, micro: int)

  predicate IsLeapYear(y: int) {
    y % 4 == 0 && (y % 100 != 0 || y % 400 == 0)
  }

  function DaysInMonth(y: int, m: int): int
    requires 1 <= m <= 12
  {
    if m == 2 then (if IsLeapYear(y) then 29 else 28)
    else if m == 4 || m == 6 || m == 9 || m == 11 then 30
    else 31
  }

  predicate ValidDate(d: Date) {
    && MinYear <= d.year <= MaxYear
    && 1 <= d.month <= 12
    && 1 <= d.day <= DaysInMonth(d.year, d.month)
  }

  /** Every value a naive datetime can take. */
  predicate Valid(t: DateTime) {
    && ValidDate(DateOf(t))
    && 0 <= t.hour < 24 && 0 <= t.minute < 60 && 0 <= t.second < 60
    && 0 <= t.micro < 1000000
  }

  /** The calendar date of a timestamp (Python's `datetime.date()`). */
  function DateOf(t: DateTime): Date {
    Date(t.year, t.month, t.day)
  }

  /** The first instant of a date (`datetime.combine(d, time())`). */
  function Midnight(d: Date): (t: DateTime)
    ensures DateOf(t) == d
    ensures forall u :: Valid(u) && DateOf(u) == d ==> AtOrBefore(t, u)
  {
    DateTime(d.year, d.month, d.day, 0, 0, 0, 0)
  }

  predicate DateBefore(a: Date, b: Date) {
    || a.year < b.year
    || (a.year == b.year && a.month < b.month)
    || (a.year == b.year && a.month == b.month && a.day < b.day)
  }

  predicate TimeBefore(a: DateTime, b: DateTime) {
    || a.hour < b.hour
    || (a.hour == b.hour && a.minute < b.minute)
    || (a.hour == b.hour && a.minute == b.minute && a.second < b.second)
    || (a.hour == b.hour && a.minute == b.minute && a.second == b.second && a.micro < b.micro)
  }

  /** Strict chronological order: date first, then time of day. */
  predicate Before(a: DateTime, b: DateTime) {
    DateBefore(DateOf(a), DateOf(b)) || (DateOf(a) == DateOf(b) && TimeBefore(a, b))
  }

  /** `a <= b` on naive datetimes. */
  predicate AtOrBefore(a: DateTime, b: DateTime) {
    !Before(b, a)
  }

  lemma BeforeTransitive(a: DateTime, b: DateTime, c: DateTime)
    requires Before(a, b) && Before(b, c)
    ensures Before(a, c)
  {
  }

  lemma AtOrBeforeTransitive(a: DateTime, b: DateTime, c: DateTime)
    requires AtOrBefore(a, b) && AtOrBefore(b, c)
    ensures AtOrBefore(a, c)
  {
  }

  lemma DateBeforeTransitive(a: Date, b: Date, c: Date)
    requires DateBefore(a, b) && DateBefore(b, c)
    ensures DateBefore(a, c)
  {
  }

  /** Two timestamps that are not ordered either way are the same instant. */
  lemma Trichotomy(a: DateTime, b: DateTime)
    ensures Before(a, b) || Before(b, a) || a == b
  {
  }

  lemma DateTrichotomy(a: Date, b: Date)
    ensures DateBefore(a, b) || DateBefore(b, a) || a == b
  {
  }

  /** The months that open a quarter: January, April, July and October. */
  const QuarterMonths: seq<int> := [1, 4, 7, 10]

  /** Midnight of the first day of quarter `q` (1..4) of `year`. */
  function QuarterStart(year: int, q: int): (t: DateTime)
    requires 1 <= q <= 4
    ensures t.month == QuarterMonths[q - 1]
  {
    DateTime(year, 3 * (q - 1) + 1, 1, 0, 0, 0, 0)
  }

  predicate IsQuarterStart(t: DateTime) {
    && t.month in QuarterMonths && t.day == 1
    && t.hour == 0 && t.minute == 0 && t.second == 0 && t.micro == 0
  }

  /** The quarter a timestamp falls in, as the chart labels it. */
  function QuarterOf(t: DateTime): (q: int)
    requires 1 <= t.month <= 12
    ensures 1 <= q <= 4
    ensures QuarterMonths[q - 1] <= t.month < QuarterMonths[q - 1] + 3
  {
    (t.month - 1) / 3 + 1
  }

  /** A quarter marker's label: "Q<quarter> <year>". */
  datatype QuarterLabel = QuarterLabel(quarter: int, year: int)

  function LabelOf(t: DateTime): (l: QuarterLabel)
    requires 1 <= t.month <= 12
    ensures 1 <= l.quarter <= 4 && l.year == t.year
  {
    QuarterLabel(QuarterOf(t), t.year)
  }

  /** Labelling inverts QuarterStart: a quarter start is named by its own quarter and year. */
  lemma LabelOfQuarterStart(year: int, q: int)
    requires 1 <= q <= 4
    ensures LabelOf(QuarterStart(year, q)) == QuarterLabel(q, year)
  {
  }

  /** ...and every quarter start is the QuarterStart of its label. */
  lemma QuarterStartOfLabel(t: DateTime)
    requires IsQuarterStart(t)
    ensures QuarterStart(t.year, LabelOf(t).quarter) == t
  {
  }
}
