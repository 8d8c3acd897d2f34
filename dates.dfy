/**
 * Day arithmetic over timestamps (the `Date` extensions).
 *
 * A timestamp is a whole number of seconds since midnight, 1 January 1970, in the device's calendar.
 * Every day lasts 86400 seconds (no time zone changes, no daylight saving), so the day a timestamp
 * falls on is `t / 86400`. Years and months follow the proleptic Gregorian calendar.
 */
module Dates {

  type Timestamp = int

  const SecondsPerDay: int := 86400
  const SecondsPerHour: int := 3600
  const SecondsPerMinute: int := 60

  /** Day index: the number of whole days since 1 January 1970 (negative before it). */
  function Day(t: Timestamp): int {
    t / SecondsPerDay
  }

  /** `startOfDay`: midnight at the start of `t`'s day. */
  function StartOfDay(t: Timestamp): (r: Timestamp)
    ensures r <= t < r + SecondsPerDay
    ensures r % SecondsPerDay == 0
    ensures Day(r) == Day(t)
  {
    Day(t) * SecondsPerDay
  }

  /** Calendar `date(byAdding: .day, value: n, to: t)`. */
  function AddDays(t: Timestamp, n: int): (r: Timestamp)
    ensures Day(r) == Day(t) + n
    ensures r - t == n * SecondsPerDay
  {
    t + n * SecondsPerDay
  }

  /** `endOfDay`: one day after the start of the day, less one second; the last second of `t`'s day. */
  function EndOfDay(t: Timestamp): (r: Timestamp)
    ensures StartOfDay(t) <= t <= r
    ensures Day(r) == Day(t) && Day(r + 1) == Day(t) + 1
    ensures r == StartOfDay(t) + SecondsPerDay - 1
  {
    AddDays(StartOfDay(t), 1) - 1
  }

  /** `isSameDay(as:)`. */
  predicate IsSameDay(a: Timestamp, b: Timestamp) {
    Day(a) == Day(b)
  }

  /** `isToday`, relative to the current time `now`. */
  predicate IsToday(t: Timestamp, now: Timestamp) {
    IsSameDay(t, now)
  }

  /** `isYesterday`, relative to the current time `now`. */
  predicate IsYesterday(t: Timestamp, now: Timestamp) {
    IsSameDay(t, AddDays(now, -1))
  }

  /** `days(from:)`: calendar days from the start of `date`'s day to the start of `t`'s day. */
  function DaysFrom(t: Timestamp, date: Timestamp): (r: int)
    ensures r == Day(t) - Day(date)
  {
    var d := StartOfDay(t) - StartOfDay(date);
    assert d == (Day(t) - Day(date)) * SecondsPerDay;
    d / SecondsPerDay
  }

  lemma StartOfDayIdempotent(t: Timestamp)
    ensures StartOfDay(StartOfDay(t)) == StartOfDay(t)
  {
  }

  /** Two timestamps fall on the same day exactly when their days start at the same moment. */
  lemma SameDayIffSameStart(a: Timestamp, b: Timestamp)
    ensures IsSameDay(a, b) <==> StartOfDay(a) == StartOfDay(b)
  {
  }

  /** `startOfDay <= d <= endOfDay` for every `d`, and both bounds belong to `d`'s day. */
  lemma WithinOwnDay(t: Timestamp)
    ensures StartOfDay(t) <= t <= EndOfDay(t)
    ensures IsSameDay(StartOfDay(t), t) && IsSameDay(EndOfDay(t), t)
  {
  }

  /** A timestamp lies in `t`'s day exactly when it lies between its start and its end. */
  lemma SameDayIffWithin(t: Timestamp, u: Timestamp)
    ensures IsSameDay(u, t) <==> StartOfDay(t) <= u <= EndOfDay(t)
  {
  }

  lemma DaysFromSelf(t: Timestamp)
    ensures DaysFrom(t, t) == 0
  {
  }

  /** Later timestamps never fall on earlier days. */
  lemma DayMonotone(a: Timestamp, b: Timestamp)
    requires a <= b
    ensures Day(a) <= Day(b)
  {
  }

  /** A timestamp before a midnight falls on an earlier day than that midnight. */
  lemma BeforeMidnight(t: Timestamp, midnight: Timestamp)
    requires midnight % SecondsPerDay == 0 && t < midnight
    ensures Day(t) < Day(midnight)
  {
  }

  // ---------------------------------------------------------------------------------------------
  // Years and months

  predicate IsLeapYear(year: int) {
    year % 4 == 0 && (year % 100 != 0 || year % 400 == 0)
  }

  function DaysInYear(year: int): (n: int)
    ensures 365 <= n <= 366
  {
    if IsLeapYear(year) then 366 else 365
  }
  const EpochYear: int := 1970

  /** A day given as its year and its 0-based ordinal within that year. */
  datatype YearDay = YearDay(year: int, ordinal: nat)

  /** Year and 0-based ordinal of the day `d` days after 1 January of `year`. */
  function YearForward(d: nat, year: int): (r: YearDay)
    ensures r.ordinal < DaysInYear(r.year) && r.ordinal <= d
    decreases d
  {
    if d < DaysInYear(year) then YearDay(year, d)
    else YearForward(d - DaysInYear(year), year + 1)
  }

  /** Year and 0-based ordinal of the day `-d` days before 1 January of `year` (`d < 0`). */
  function YearBackward(d: int, year: int): (r: YearDay)
    requires d < 0
    ensures r.ordinal < DaysInYear(r.year)
    decreases -d
  {
    var d' := d + DaysInYear(year - 1);
    if d' >= 0 then YearDay(year - 1, d')
    else YearBackward(d', year - 1)
  }

  /** Year of a day index and the 0-based ordinal of that day within its year. */
  function YearAndOrdinal(day: int): (r: YearDay)
    ensures r.ordinal < DaysInYear(r.year)
  {
    if day >= 0 then YearForward(day, EpochYear) else YearBackward(day, EpochYear)
  }

  /** Lengths of January to December. */
  function MonthLengths(leap: bool): (lengths: seq<nat>)
    ensures |lengths| == 12
  {
    [31, if leap then 29 else 28, 31, 30, 31, 30, 31, 31, 30, 31, 30, 31]
  }

  /** A day given as its month (1 to 12) and its 0-based day within that month. */
  datatype MonthDay = MonthDay(month: int, day: nat)

  /** Month (from `month` on) and 0-based day within it of the `ordinal`-th day counted from the start of `month`. */
  function MonthForward(ordinal: nat, month: int, lengths: seq<nat>): (r: MonthDay)
    requires |lengths| == 12 && 1 <= month <= 12
    ensures month <= r.month <= 12 && r.day <= ordinal
    ensures r.month < 12 ==> r.day < lengths[r.month - 1]
    decreases 12 - month
  {
    if month == 12 || ordinal < lengths[month - 1] then MonthDay(month, ordinal)
    else MonthForward(ordinal - lengths[month - 1], month + 1, lengths)
  }

  /** A calendar month, the key by which entries are grouped (`monthYearFormatted`). */
  datatype MonthKey = MonthKey(year: int, month: int)

  /** A calendar date: its month and its 0-based day within that month. */
  datatype CivilDate = CivilDate(key: MonthKey, dayOfMonth: nat)

  /** Year, month (1 to 12) and 0-based day of the month of a day index. */
  function CivilOfDay(day: int): (r: CivilDate)
    ensures 1 <= r.key.month <= 12
  {
    var yo := YearAndOrdinal(day);
    var md := MonthForward(yo.ordinal, 1, MonthLengths(IsLeapYear(yo.year)));
    CivilDate(MonthKey(yo.year, md.month), md.day)
  }

  /** `monthYearFormatted`, as the (year, month) it names. */
  function MonthOf(t: Timestamp): MonthKey {
    CivilOfDay(Day(t)).key
  }

  /** `dayOfYear`: the 1-based ordinal of `t`'s day in its year. */
  function DayOfYear(t: Timestamp): (r: int)
    ensures 1 <= r <= 366
  {
    YearAndOrdinal(Day(t)).ordinal + 1
  }

  /** `startOfMonth`: midnight at the start of the first day of `t`'s month. */
  function StartOfMonth(t: Timestamp): (r: Timestamp)
    ensures r <= t
  {
    (Day(t) - CivilOfDay(Day(t)).dayOfMonth) * SecondsPerDay
  }

  lemma {:induction false} YearForwardShift(d: nat, year: int, k: nat)
    requires k <= YearForward(d, year).ordinal
    ensures YearForward(d - k, year).year == YearForward(d, year).year
    ensures YearForward(d - k, year).ordinal == YearForward(d, year).ordinal - k
    decreases d
  {
    if d >= DaysInYear(year) {
      YearForwardShift(d - DaysInYear(year), year + 1, k);
    }
  }

  lemma {:induction false} YearBackwardShift(d: int, year: int, k: nat)
    requires d < 0
    requires k <= YearBackward(d, year).ordinal
    ensures YearBackward(d - k, year).year == YearBackward(d, year).year
    ensures YearBackward(d - k, year).ordinal == YearBackward(d, year).ordinal - k
    decreases -d
  {
    var d' := d + DaysInYear(year - 1);
    if d' < 0 {
      YearBackwardShift(d', year - 1, k);
    }
  }

  /** Moving back `k` days, no further than the first day of the year, stays in the same year. */
  lemma YearShift(day: int, k: nat)
    requires k <= YearAndOrdinal(day).ordinal
    ensures YearAndOrdinal(day - k).year == YearAndOrdinal(day).year
    ensures YearAndOrdinal(day - k).ordinal == YearAndOrdinal(day).ordinal - k
  {
    if day >= 0 {
      YearForwardShift(day, EpochYear, k);
    } else {
      YearBackwardShift(day, EpochYear, k);
    }
  }

  /** Moving the ordinal back no further than the first of its month keeps the month and moves the day by as much. */
  lemma {:induction false} MonthForwardShift(ordinal: nat, shifted: nat, month: int, lengths: seq<nat>)
    requires |lengths| == 12 && 1 <= month <= 12
    requires shifted <= ordinal && ordinal - shifted <= MonthForward(ordinal, month, lengths).day
    ensures MonthForward(shifted, month, lengths)
         == MonthDay(MonthForward(ordinal, month, lengths).month, MonthForward(ordinal, month, lengths).day - (ordinal - shifted))
    decreases 12 - month
  {
    var len := lengths[month - 1];
    if month == 12 || ordinal < len {
      assert MonthForward(shifted, month, lengths) == MonthDay(month, shifted);
    } else {
      var o': nat := ordinal - len;
      assert MonthForward(ordinal, month, lengths) == MonthForward(o', month + 1, lengths);
      var s': nat := shifted - len;
      MonthForwardShift(o', s', month + 1, lengths);
      assert MonthForward(shifted, month, lengths) == MonthForward(s', month + 1, lengths);
    }
  }

  /** A midnight `k` days after the epoch falls on day `k`. */
  lemma MidnightDay(k: int)
    ensures Day(k * SecondsPerDay) == k && (k * SecondsPerDay) % SecondsPerDay == 0
  {
  }

  /** Going back `k` days, no further than the first of the month, keeps the year and month. */
  lemma CivilShiftBack(day: int, k: nat)
    requires k <= CivilOfDay(day).dayOfMonth
    ensures CivilOfDay(day - k).key == CivilOfDay(day).key
    ensures CivilOfDay(day - k).dayOfMonth == CivilOfDay(day).dayOfMonth - k
  {
    var yo := YearAndOrdinal(day);
    var lengths := MonthLengths(IsLeapYear(yo.year));
    var md := MonthForward(yo.ordinal, 1, lengths);
    assert CivilOfDay(day) == CivilDate(MonthKey(yo.year, md.month), md.day);
    YearShift(day, k);
    var yo' := YearAndOrdinal(day - k);
    assert yo' == YearDay(yo.year, yo.ordinal - k);
    MonthForwardShift(yo.ordinal, yo'.ordinal, 1, lengths);
    var md' := MonthForward(yo'.ordinal, 1, lengths);
    assert md' == MonthDay(md.month, md.day - k);
    assert CivilOfDay(day - k) == CivilDate(MonthKey(yo.year, md.month), md.day - k);
  }

  /** `startOfMonth` lies in the same year and month as `t`, on the first day of that month. */
  lemma StartOfMonthSameMonth(t: Timestamp)
    ensures StartOfMonth(t) <= t
    ensures MonthOf(StartOfMonth(t)) == MonthOf(t)
    ensures CivilOfDay(Day(StartOfMonth(t))).dayOfMonth == 0
    ensures StartOfMonth(t) % SecondsPerDay == 0
  {
    var first := Day(t) - CivilOfDay(Day(t)).dayOfMonth;
    assert StartOfMonth(t) == first * SecondsPerDay;
    MidnightDay(first);
    CivilShiftBack(Day(t), CivilOfDay(Day(t)).dayOfMonth);
  }

  // ---------------------------------------------------------------------------------------------
  // Time of day

  /** Calendar `component(.hour, from: t)`. */
  function Hour(t: Timestamp): (h: int)
    ensures 0 <= h < 24
  {
    (t % SecondsPerDay) / SecondsPerHour
  }

  /** Calendar `component(.minute, from: t)`. */
  function Minute(t: Timestamp): (m: int)
    ensures 0 <= m < 60
  {
    (t % SecondsPerHour) / SecondsPerMinute
  }

  /** Day index of 1 January of year 1, the day Calendar `date(from:)` uses when only hour and minute are given. */
  const ReferenceDay: int := -719162

  /** Calendar `date(from: DateComponents(hour:, minute:))`; out-of-range components carry over, as the calendar's lenient arithmetic does. */
  function DateFromTimeOfDay(hour: int, minute: int): Timestamp {
    ReferenceDay * SecondsPerDay + hour * SecondsPerHour + minute * SecondsPerMinute
  }

  /** Building a date from an in-range hour and minute and reading them back gives them unchanged. */
  lemma TimeOfDayRoundTrip(hour: int, minute: int)
    requires 0 <= hour < 24 && 0 <= minute < 60
    ensures Hour(DateFromTimeOfDay(hour, minute)) == hour
    ensures Minute(DateFromTimeOfDay(hour, minute)) == minute
  {
    var t := DateFromTimeOfDay(hour, minute);
    var inDay := hour * SecondsPerHour + minute * SecondsPerMinute;
    assert 0 <= inDay < SecondsPerDay;
    assert t == ReferenceDay * SecondsPerDay + inDay;
    assert t % SecondsPerDay == inDay;
    assert t == (ReferenceDay * 24 + hour) * SecondsPerHour + minute * SecondsPerMinute;
    assert t % SecondsPerHour == minute * SecondsPerMinute;
  }

  // ---------------------------------------------------------------------------------------------
  // Relative labels

  /** Which of the three branches of `relativeFormatted` applies. */
  datatype RelativeDay = Today | Yesterday | OnDate(date: Timestamp)

  /** `relativeFormatted`, by branch. */
  function RelativeFormatted(t: Timestamp, now: Timestamp): (r: RelativeDay)
    ensures r == Today <==> DaysFrom(now, t) == 0
    ensures r == Yesterday <==> DaysFrom(now, t) == 1
    ensures r.OnDate? <==> DaysFrom(now, t) != 0 && DaysFrom(now, t) != 1
    ensures r.OnDate? ==> r.date == t
  {
    if IsToday(t, now) then Today
    else if IsYesterday(t, now) then Yesterday
    else OnDate(t)
  }

  /** The text shown for a relative day; `mediumDate` stands for the locale's medium date format. */
  function RelativeText(r: RelativeDay, mediumDate: Timestamp -> string): string {
    match r
    case Today => "Aujourd'hui"
    case Yesterday => "Hier"
    case OnDate(date) => mediumDate(date)
  }
}
