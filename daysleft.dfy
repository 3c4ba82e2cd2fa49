/**
 * calculateDaysLeft: the whole days from today's date to a "YYYY-MM-DD" deadline, both read as
 * UTC midnights through Date.UTC (section 21.4.3.4 of ECMA-262) and the day arithmetic of
 * section 21.4.1 (DayFromYear, MakeDay, TimeClip).
 */
module DaysLeft {
  import opened Wrappers
  import opened JsString

  /** 1000 * 60 * 60 * 24, the milliseconds in a day. */
  const MS_PER_DAY: int := 86400000

  /** The largest time value a Date can hold, in milliseconds either side of the epoch. */
  const MAX_TIME: int := 8640000000000000

  /** The day number of January 1st of year y, day 0 being 1970-01-01. */
  function DayFromYear(y: int): int
  {
    365 * (y - 1970) + (y - 1969) / 4 - (y - 1901) / 100 + (y - 1601) / 400
  }

  predicate IsLeapYear(y: int)
  {
    y % 4 == 0 && (y % 100 != 0 || y % 400 == 0)
  }

  function DaysInYear(y: int): int
  {
    if IsLeapYear(y) then 366 else 365
  }

  /** The length of month mn (0 for January) of year y. */
  function DaysInMonth(y: int, mn: int): int
    requires 0 <= mn < 12
  {
    if mn == 1 then (if IsLeapYear(y) then 29 else 28)
    else if mn == 3 || mn == 5 || mn == 8 || mn == 10 then 30
    else 31
  }

  /** The days of year y before the first of month mn. */
  function MonthStart(y: int, mn: int): int
    requires 0 <= mn < 12
  {
    var common := [0, 31, 59, 90, 120, 151, 181, 212, 243, 273, 304, 334][mn];
    if IsLeapYear(y) && mn >= 2 then common + 1 else common
  }

  /**
   * MakeDay: the day number of date `date` of month `month` of year `year`, where a month
   * outside 0..11 carries into the year and a date outside the month runs on into the next.
   */
  function MakeDay(year: int, month: int, date: int): int
  {
    var ym := year + month / 12;
    var mn := month % 12;
    DayFromYear(ym) + MonthStart(ym, mn) + date - 1
  }

  /** Date.UTC reads a year from 0 to 99 as a year of the 1900s. */
  function FullYear(year: int): int
  {
    if 0 <= year <= 99 then 1900 + year else year
  }

  /** TimeClip: the time value, or None (NaN) when it lies beyond MAX_TIME either way. */
  function TimeClip(t: int): Option<int>
  {
    if -MAX_TIME <= t <= MAX_TIME then Some(t) else None
  }

  /** Date.UTC(year, month, date): the time value of that day's UTC midnight, None as NaN. */
  function DateUTC(year: int, month: int, date: int): Option<int>
  {
    TimeClip(MakeDay(FullYear(year), month, date) * MS_PER_DAY)
  }

  /** Math.ceil(a / b). */
  function CeilDiv(a: int, b: int): (q: int)
    requires b > 0
    ensures (q - 1) * b < a <= q * b
  {
    -((-a) / b)
  }

  /** today.getFullYear(), today.getMonth() and today.getDate() of the local clock. */
  datatype LocalDate = LocalDate(year: int, month: int, date: int)

  /** The results of calculateDaysLeft: null, NaN, or a whole number of days. */
  datatype DaysLeft = Null | NaN | Days(n: nat)

  /** The time value of Date.UTC(parseInt(parts[0]), parseInt(parts[1]) - 1, parseInt(parts[2])). */
  function DeadlineTime(parts: seq<string>): Option<int>
    requires |parts| == 3
  {
    var year := ParseInt(parts[0]);
    var month := ParseInt(parts[1]);
    var date := ParseInt(parts[2]);
    if year.None? || month.None? || date.None? then None
    else DateUTC(year.value, month.value - 1, date.value)
  }

  /**
   * calculateDaysLeft(deadline) on the day `today`: null unless the deadline splits on '-'
   * into three parts whose numbers make a representable date; otherwise the whole days from
   * today's UTC midnight to the deadline's, rounded up and never below 0. The subtraction is
   * NaN when today itself lies outside the range Date.UTC can represent.
   */
  function CalculateDaysLeft(deadline: string, today: LocalDate): DaysLeft
  {
    var parts := Split(deadline, '-');
    if |parts| != 3 then Null
    else
      var deadlineTime := DeadlineTime(parts);
      if deadlineTime.None? then Null
      else
        var todayTime := DateUTC(today.year, today.month, today.date);
        if todayTime.None? then NaN
        else
          var diffDays := CeilDiv(deadlineTime.value - todayTime.value, MS_PER_DAY);
          Days(if diffDays > 0 then diffDays else 0)
  }

  /** The days from day number now to day number target, 0 once target has come. */
  function Countdown(target: int, now: int): nat
  {
    if target > now then target - now else 0
  }

  /** The day number of today's local date, as calculateDaysLeft reads it through Date.UTC. */
  function TodayNumber(today: LocalDate): int
  {
    MakeDay(FullYear(today.year), today.month, today.date)
  }

  /** today's date lies in the range of a Date, as every date a clock reports does. */
  predicate Representable(today: LocalDate)
  {
    DateUTC(today.year, today.month, today.date).Some?
  }

  /** A calendar date, month mn counted from 0, as the date picker produces. */
  predicate IsCalendarDate(y: int, mn: int, d: int)
  {
    0 <= mn < 12 && 1 <= d <= DaysInMonth(y, mn)
  }

  /** The deadline string the date picker produces: "YYYY-MM-DD", month counted from 1. */
  function IsoDate(y: nat, m: nat, d: nat): string
  {
    PadDecimal(y, 4) + "-" + PadDecimal(m, 2) + "-" + PadDecimal(d, 2)
  }

  // Calendar arithmetic

  /** One year after January 1st of y comes January 1st of y + 1. */
  lemma DayFromYearStep(y: int)
    ensures DayFromYear(y + 1) == DayFromYear(y) + DaysInYear(y)
  {
    LeapStep(y);
    CenturyStep(y);
    QuadricentennialStep(y);
    DivisorChain(y);
    YearLength(y % 4 == 0, y % 100 == 0, y % 400 == 0, DaysInYear(y));
  }

  /** A year divisible by 400 is divisible by 100, and one divisible by 100 is divisible by 4. */
  lemma DivisorChain(y: int)
    ensures y % 400 == 0 ==> y % 100 == 0
    ensures y % 100 == 0 ==> y % 4 == 0
  {
  }

  /** The leap days added, dropped and restored in one year make up the year's length beyond 365. */
  lemma YearLength(by4: bool, by100: bool, by400: bool, days: int)
    requires by400 ==> by100
    requires by100 ==> by4
    requires days == if by4 && (!by100 || by400) then 366 else 365
    ensures days == 365 + (if by4 then 1 else 0) - (if by100 then 1 else 0) + (if by400 then 1 else 0)
  {
  }

  /** Counting one more year adds a leap day exactly when 4 divides the year. */
  lemma LeapStep(y: int)
    ensures (y + 1 - 1969) / 4 == (y - 1969) / 4 + (if y % 4 == 0 then 1 else 0)
  {
  }

  /** Counting one more year drops a leap day exactly when 100 divides the year. */
  lemma CenturyStep(y: int)
    ensures (y + 1 - 1901) / 100 == (y - 1901) / 100 + (if y % 100 == 0 then 1 else 0)
  {
  }

  /** Counting one more year restores a leap day exactly when 400 divides the year. */
  lemma QuadricentennialStep(y: int)
    ensures (y + 1 - 1601) / 400 == (y - 1601) / 400 + (if y % 400 == 0 then 1 else 0)
  {
  }

  /** The months of a year are consecutive and together make the year. */
  lemma MonthStartStep(y: int, mn: int)
    requires 0 <= mn < 12
    ensures mn < 11 ==> MonthStart(y, mn + 1) == MonthStart(y, mn) + DaysInMonth(y, mn)
    ensures mn == 11 ==> MonthStart(y, mn) + DaysInMonth(y, mn) == DaysInYear(y)
  {
  }

  /** The day after the last of a month is the first of the next month, across a year end too. */
  lemma MonthRollover(y: int, mn: int)
    requires 0 <= mn < 12
    ensures MakeDay(y, mn, DaysInMonth(y, mn) + 1) == MakeDay(y, mn + 1, 1)
  {
    assert mn / 12 == 0 && mn % 12 == mn;
    MonthStartStep(y, mn);
    if mn == 11 {
      DayFromYearStep(y);
      assert (mn + 1) / 12 == 1 && (mn + 1) % 12 == 0;
    } else {
      assert (mn + 1) / 12 == 0 && (mn + 1) % 12 == mn + 1;
    }
  }

  /** A month index 12 higher is the same month a year later. */
  lemma MonthCarry(y: int, month: int, date: int)
    ensures MakeDay(y, month + 12, date) == MakeDay(y + 1, month, date)
  {
    assert (month + 12) / 12 == month / 12 + 1;
    assert (month + 12) % 12 == month % 12;
  }

  /** A calendar date lies between January 1st of its year and January 1st of the next. */
  lemma CalendarDateInYear(y: int, mn: int, d: int)
    requires IsCalendarDate(y, mn, d)
    ensures DayFromYear(y) <= MakeDay(y, mn, d) < DayFromYear(y) + DaysInYear(y)
  {
    assert mn / 12 == 0 && mn % 12 == mn;
    MonthStartStep(y, mn);
    DayFromYearStep(y);
  }

  /** DayFromYear grows with the year. */
  lemma {:induction false} DayFromYearMonotone(y: int, z: int)
    requires y <= z
    ensures DayFromYear(y) <= DayFromYear(z)
    decreases z - y
  {
    if y < z {
      DayFromYearStep(y);
      DayFromYearMonotone(y + 1, z);
    }
  }

  /** Every calendar date of the years 100 to 275759 is a representable UTC midnight. */
  lemma CalendarDateRepresentable(y: int, mn: int, d: int)
    requires 100 <= y <= 275759 && IsCalendarDate(y, mn, d)
    ensures DateUTC(y, mn, d) == Some(MakeDay(y, mn, d) * MS_PER_DAY)
  {
    CalendarDateInYear(y, mn, d);
    DayFromYearMonotone(100, y);
    DayFromYearMonotone(y + 1, 275760);
    DayFromYearStep(y);
    assert DayFromYear(100) == -683003 && DayFromYear(275760) == 99999744;
  }

  // calculateDaysLeft

  /** A deadline with other than two '-' in it is null. */
  lemma NullUnlessTwoDashes(deadline: string, today: LocalDate)
    requires Count(deadline, '-') != 2
    ensures CalculateDaysLeft(deadline, today) == Null
  {
    SplitCount(deadline, '-');
  }

  /** Math.ceil of the distance between two UTC midnights, in days, is the distance of their day numbers. */
  lemma CeilDivDays(a: int, b: int)
    ensures CeilDiv(a * MS_PER_DAY - b * MS_PER_DAY, MS_PER_DAY) == a - b
  {
    assert a * MS_PER_DAY - b * MS_PER_DAY == (a - b) * MS_PER_DAY;
    assert -((a - b) * MS_PER_DAY) == (b - a) * MS_PER_DAY;
  }

  /** A time value Date.UTC produces is the day number of that date in milliseconds. */
  lemma DateUTCValue(year: int, month: int, date: int)
    requires DateUTC(year, month, date).Some?
    ensures DateUTC(year, month, date).value == MakeDay(FullYear(year), month, date) * MS_PER_DAY
  {
  }

  /** With both midnights known as day numbers, the answer is their distance, never below 0. */
  lemma DaysLeftFromTimes(deadline: string, today: LocalDate, target: int, now: int)
    requires |Split(deadline, '-')| == 3
    requires DeadlineTime(Split(deadline, '-')) == Some(target * MS_PER_DAY)
    requires DateUTC(today.year, today.month, today.date) == Some(now * MS_PER_DAY)
    ensures CalculateDaysLeft(deadline, today) == Days(Countdown(target, now))
  {
    CeilDivDays(target, now);
  }

  /** Three parts that parse to numbers give the time value of Date.UTC on them, the month less 1. */
  lemma DeadlineTimeOf(parts: seq<string>, y: int, m: int, d: int)
    requires |parts| == 3
    requires ParseInt(parts[0]) == Some(y) && ParseInt(parts[1]) == Some(m) && ParseInt(parts[2]) == Some(d)
    ensures DeadlineTime(parts) == DateUTC(y, m - 1, d)
  {
  }

  /**
   * When the three parts make a representable date and today is representable, the answer is
   * the difference of the two day numbers, or 0 once the deadline has passed.
   */
  lemma DaysLeftIsDayDifference(deadline: string, today: LocalDate, y: int, m: int, d: int)
    requires |Split(deadline, '-')| == 3
    requires ParseInt(Split(deadline, '-')[0]) == Some(y)
    requires ParseInt(Split(deadline, '-')[1]) == Some(m)
    requires ParseInt(Split(deadline, '-')[2]) == Some(d)
    requires DateUTC(y, m - 1, d).Some? && Representable(today)
    ensures CalculateDaysLeft(deadline, today) == Days(Countdown(MakeDay(FullYear(y), m - 1, d), TodayNumber(today)))
  {
    DeadlineTimeOf(Split(deadline, '-'), y, m, d);
    DateUTCValue(y, m - 1, d);
    DateUTCValue(today.year, today.month, today.date);
    DaysLeftFromTimes(deadline, today, MakeDay(FullYear(y), m - 1, d), TodayNumber(today));
  }

  /** The date picker's "YYYY-MM-DD" splits into its three numerals, which parse back. */
  lemma IsoDateParts(y: nat, m: nat, d: nat)
    ensures var parts := Split(IsoDate(y, m, d), '-');
      && parts == [PadDecimal(y, 4), PadDecimal(m, 2), PadDecimal(d, 2)]
      && ParseInt(parts[0]) == Some(y) && ParseInt(parts[1]) == Some(m) && ParseInt(parts[2]) == Some(d)
  {
    var parts := [PadDecimal(y, 4), PadDecimal(m, 2), PadDecimal(d, 2)];
    forall i | 0 <= i < 3
      ensures '-' !in parts[i]
    {
      assert forall k :: 0 <= k < |parts[i]| ==> '0' <= parts[i][k] <= '9';
    }
    assert Join(parts[2..], '-') == parts[2];
    assert Join(parts[1..], '-') == parts[1] + "-" + parts[2];
    assert Join(parts, '-') == IsoDate(y, m, d);
    JoinSplit(parts, '-');
    ParsePadded(y, 4, "");
    ParsePadded(m, 2, "");
    ParsePadded(d, 2, "");
    assert PadDecimal(y, 4) + "" == PadDecimal(y, 4);
    assert PadDecimal(m, 2) + "" == PadDecimal(m, 2);
    assert PadDecimal(d, 2) + "" == PadDecimal(d, 2);
  }

  /** A deadline from the date picker that Date.UTC can represent counts the days to that date. */
  lemma IsoDeadlineAt(y: nat, m: nat, d: nat, today: LocalDate)
    requires DateUTC(y, m - 1, d).Some? && Representable(today)
    ensures CalculateDaysLeft(IsoDate(y, m, d), today) == Days(Countdown(MakeDay(FullYear(y), m - 1, d), TodayNumber(today)))
  {
    IsoDateParts(y, m, d);
    DaysLeftIsDayDifference(IsoDate(y, m, d), today, y, m, d);
  }

  /**
   * A deadline from the date picker, for a calendar date of the years 100 to 275759 (a year
   * written 0000 to 0099 being read as 19xx), counts the days from today to that date.
   */
  lemma IsoDeadline(y: nat, m: nat, d: nat, today: LocalDate)
    requires 100 <= FullYear(y) <= 275759 && IsCalendarDate(FullYear(y), m - 1, d)
    requires Representable(today)
    ensures CalculateDaysLeft(IsoDate(y, m, d), today) == Days(Countdown(MakeDay(FullYear(y), m - 1, d), TodayNumber(today)))
  {
    CalendarDateRepresentable(FullYear(y), m - 1, d);
    assert FullYear(FullYear(y)) == FullYear(y);
    IsoDeadlineAt(y, m, d, today);
  }

  /** Today's own date, as the date picker writes it, has 0 days left. */
  lemma TodayHasNoDaysLeft(today: LocalDate)
    requires 100 <= today.year <= 275759 && IsCalendarDate(today.year, today.month, today.date)
    ensures CalculateDaysLeft(IsoDate(today.year, today.month + 1, today.date), today) == Days(0)
  {
    IsoDeadline(today.year, today.month + 1, today.date, today);
  }

  /** A deadline k days after today has k days left; one on or before today has none. */
  lemma DaysAhead(y: nat, m: nat, d: nat, today: LocalDate, k: int)
    requires 100 <= FullYear(y) <= 275759 && IsCalendarDate(FullYear(y), m - 1, d)
    requires Representable(today)
    requires MakeDay(FullYear(y), m - 1, d) == TodayNumber(today) + k
    ensures k >= 0 ==> CalculateDaysLeft(IsoDate(y, m, d), today) == Days(k)
    ensures k <= 0 ==> CalculateDaysLeft(IsoDate(y, m, d), today) == Days(0)
  {
    IsoDeadline(y, m, d, today);
    CountdownBy(MakeDay(FullYear(y), m - 1, d), TodayNumber(today), k);
  }

  /** Two deadlines that Date.UTC reads as the same day count down alike. */
  lemma SameDeadlineDay(y: nat, m: nat, d: nat, y2: nat, m2: nat, d2: nat, today: LocalDate)
    requires DateUTC(y, m - 1, d).Some? && Representable(today)
    requires MakeDay(FullYear(y), m - 1, d) == MakeDay(FullYear(y2), m2 - 1, d2)
    ensures CalculateDaysLeft(IsoDate(y, m, d), today) == CalculateDaysLeft(IsoDate(y2, m2, d2), today)
  {
    SameDayUTC(y, m - 1, d, y2, m2 - 1, d2);
    IsoDeadlineAt(y, m, d, today);
    IsoDeadlineAt(y2, m2, d2, today);
  }

  /** Two ways of writing the same day give the same Date.UTC time value. */
  lemma SameDayUTC(y: int, month: int, date: int, y2: int, month2: int, date2: int)
    requires MakeDay(FullYear(y), month, date) == MakeDay(FullYear(y2), month2, date2)
    ensures DateUTC(y, month, date) == DateUTC(y2, month2, date2)
  {
  }

  lemma CountdownBy(target: int, now: int, k: int)
    requires target == now + k
    ensures Countdown(target, now) == if k >= 0 then k else 0
  {
  }

  /** Each day closer to a deadline still ahead takes one day off the count. */
  lemma CountsDown(deadline: string, today: LocalDate, tomorrow: LocalDate, n: nat)
    requires Representable(today) && Representable(tomorrow)
    requires TodayNumber(tomorrow) == TodayNumber(today) + 1
    requires CalculateDaysLeft(deadline, today) == Days(n) && n >= 1
    ensures CalculateDaysLeft(deadline, tomorrow) == Days(n - 1)
  {
    var t := DeadlineTime(Split(deadline, '-')).value;
    DateUTCValue(today.year, today.month, today.date);
    DateUTCValue(tomorrow.year, tomorrow.month, tomorrow.date);
    var a := DateUTC(today.year, today.month, today.date).value;
    var b := DateUTC(tomorrow.year, tomorrow.month, tomorrow.date).value;
    assert b == a + MS_PER_DAY;
    CountdownStep(t, a, b, n);
  }

  /** Moving the start one day later takes one day off a count that is still positive. */
  lemma CountdownStep(t: int, a: int, b: int, n: nat)
    requires b == a + MS_PER_DAY && n >= 1
    requires (if CeilDiv(t - a, MS_PER_DAY) > 0 then CeilDiv(t - a, MS_PER_DAY) else 0) == n
    ensures (if CeilDiv(t - b, MS_PER_DAY) > 0 then CeilDiv(t - b, MS_PER_DAY) else 0) == n - 1
  {
    CeilDivShift(t - a);
    assert t - b == (t - a) - MS_PER_DAY;
  }

  /** Math.ceil((x - one day) / one day) is one less than Math.ceil(x / one day). */
  lemma CeilDivShift(x: int)
    ensures CeilDiv(x - MS_PER_DAY, MS_PER_DAY) == CeilDiv(x, MS_PER_DAY) - 1
  {
    assert -(x - MS_PER_DAY) == -x + MS_PER_DAY;
  }

  /** A date written with a year 0000 to 0099 counts down to the same day of 1900 to 1999. */
  lemma TwoDigitYear(y: nat, m: nat, d: nat, today: LocalDate)
    requires y <= 99 && IsCalendarDate(1900 + y, m - 1, d)
    requires Representable(today)
    ensures CalculateDaysLeft(IsoDate(y, m, d), today) == CalculateDaysLeft(IsoDate(1900 + y, m, d), today)
  {
    CalendarDateRepresentable(1900 + y, m - 1, d);
    SameDayUTC(y, m - 1, d, 1900 + y, m - 1, d);
    SameDeadlineDay(y, m, d, 1900 + y, m, d, today);
  }

  /** A day one past the end of a month before December reads as the first of the next: 2024-02-30 is 2024-03-01. */
  lemma DayOverflowRollsOver(y: nat, m: nat, today: LocalDate)
    requires 100 <= y <= 275759 && 1 <= m < 12
    requires Representable(today)
    ensures CalculateDaysLeft(IsoDate(y, m, DaysInMonth(y, m - 1) + 1), today) == CalculateDaysLeft(IsoDate(y, m + 1, 1), today)
  {
    MonthRollover(y, m - 1);
    CalendarDateRepresentable(y, m, 1);
    SameDeadlineDay(y, m + 1, 1, y, m, DaysInMonth(y, m - 1) + 1, today);
  }

  /** December 32nd reads as January 1st of the next year. */
  lemma YearOverflowRollsOver(y: nat, today: LocalDate)
    requires 100 <= y < 275759
    requires Representable(today)
    ensures CalculateDaysLeft(IsoDate(y, 12, 32), today) == CalculateDaysLeft(IsoDate(y + 1, 1, 1), today)
  {
    MonthRollover(y, 11);
    MonthCarry(y, 0, 1);
    CalendarDateRepresentable(y + 1, 0, 1);
    SameDeadlineDay(y + 1, 1, 1, y, 12, 32, today);
  }
}
