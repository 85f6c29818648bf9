/**
 * Dates and times as Python's `datetime` module sees them: the proleptic Gregorian
 * calendar for years 1 to 9999, day ordinals (`date.toordinal()`, day 1 being
 * 0001-01-01, a Monday) and weekday names as `strftime('%A').lower()` prints them.
 */
module Calendar {

  /** A naive `datetime` down to the second. */
  datatype DateTime = DateTime(year: int, month: int, day: int, hour: int, minute: int, second: int)

  const MinYear := 1
  const MaxYear := 9999
  const SecondsPerDay := 86400

  predicate IsLeapYear(y: int) {
    y % 4 == 0 && (y % 100 != 0 || y % 400 == 0)
  }

  function DaysInMonth(y: int, m: int): (n: int)
    requires 1 <= m <= 12
    ensures 28 <= n <= 31
    ensures n == 31 <==> m in {1, 3, 5, 7, 8, 10, 12}
    ensures n == 30 <==> m in {4, 6, 9, 11}
    ensures m == 2 ==> (n == 29 <==> IsLeapYear(y))
  {
    if m == 2 then (if IsLeapYear(y) then 29 else 28)
    else if m in {4, 6, 9, 11} then 30
    else 31
  }

  /**
   * The dates `datetime(y, m, d)` and `datetime.fromisoformat` accept; every other
   * triple the deadline patterns can capture makes them raise `ValueError`.
   */
  predicate ValidDate(y: int, m: int, d: int) {
    MinYear <= y <= MaxYear && 1 <= m <= 12 && 1 <= d <= DaysInMonth(y, m)
  }

  predicate ValidTime(h: int, mi: int, s: int) {
    0 <= h < 24 && 0 <= mi < 60 && 0 <= s < 60
  }

  predicate ValidDateTime(t: DateTime) {
    ValidDate(t.year, t.month, t.day) && ValidTime(t.hour, t.minute, t.second)
  }

  /** Python's `a <= b` on datetimes: field by field, the year first. */
  predicate AtOrBefore(a: DateTime, b: DateTime) {
    if a.year != b.year then a.year < b.year
    else if a.month != b.month then a.month < b.month
    else if a.day != b.day then a.day < b.day
    else if a.hour != b.hour then a.hour < b.hour
    else if a.minute != b.minute then a.minute < b.minute
    else a.second <= b.second
  }

  /** `AtOrBefore` is a total order: any two datetimes compare, and equal ones are the same. */
  lemma AtOrBeforeTotalOrder(a: DateTime, b: DateTime, c: DateTime)
    ensures AtOrBefore(a, a)
    ensures AtOrBefore(a, b) || AtOrBefore(b, a)
    ensures AtOrBefore(a, b) && AtOrBefore(b, a) ==> a == b
    ensures AtOrBefore(a, b) && AtOrBefore(b, c) ==> AtOrBefore(a, c)
  {
  }

  const WeekdayNames: seq<string> :=
    ["monday", "tuesday", "wednesday", "thursday", "friday", "saturday", "sunday"]

  /** `date.weekday()` of the day with the given ordinal: 0 for Monday up to 6 for Sunday. */
  function Weekday(ordinal: int): (w: nat)
    ensures w < 7
  {
    (ordinal + 6) % 7
  }

  /** `strftime('%A').lower()` of the day with the given ordinal. */
  function WeekdayName(ordinal: int): (name: string)
  {
    WeekdayNames[Weekday(ordinal)]
  }

  /** The position of a weekday name in `WeekdayNames`, 7 for a string that names no weekday. */
  function WeekdayIndex(name: string): (w: nat)
    ensures w <= 7
    ensures w < 7 <==> name in WeekdayNames
    ensures w < 7 ==> WeekdayNames[w] == name
  {
    if name == "monday" then 0 else if name == "tuesday" then 1 else if name == "wednesday" then 2
    else if name == "thursday" then 3 else if name == "friday" then 4 else if name == "saturday" then 5
    else if name == "sunday" then 6 else 7
  }

  /** A day's name determines its weekday: the seven names are pairwise distinct. */
  lemma WeekdayNameDeterminesWeekday(a: int, b: int)
    ensures WeekdayName(a) == WeekdayName(b) <==> Weekday(a) == Weekday(b)
  {
    assert forall w | 0 <= w < 7 :: WeekdayIndex(WeekdayNames[w]) == w;
  }

  /** The instant, in seconds, at `secondOfDay` seconds past midnight of the day `ordinal`. */
  function InstantOf(ordinal: int, secondOfDay: int): (t: int)
    ensures 0 <= secondOfDay < SecondsPerDay ==> t / SecondsPerDay == ordinal && t % SecondsPerDay == secondOfDay
  {
    ordinal * SecondsPerDay + secondOfDay
  }
}
