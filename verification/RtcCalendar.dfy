/** The real-time clock's conversions between a 32-bit count of seconds and a calendar date, against the
    Gregorian calendar. */
module RtcCalendar {
  import opened Integers

  const DAY: nat := 86400

  // ---------------------------------------------------------------- the calendar

  predicate IsLeap(y: nat) {
    y % 4 == 0 && (y % 100 != 0 || y % 400 == 0)
  }

  function YearDays(y: nat): nat { if IsLeap(y) then 366 else 365 }

  /** Days of month `m` of year `y`, months counted from 0. */
  function MonthDays(y: nat, m: nat): nat
    requires m < 12
  {
    if m == 1 then (if IsLeap(y) then 29 else 28)
    else if m == 3 || m == 5 || m == 8 || m == 10 then 30
    else 31
  }

  /** Days before year `y`, from the first of January 1970. */
  function YearStart(y: nat): nat
    requires y >= 1970
    decreases y
  {
    if y == 1970 then 0 else YearStart(y - 1) + YearDays(y - 1)
  }

  /** Days of year `y` before month `m`. */
  function MonthStart(y: nat, m: nat): nat
    requires m <= 12
  {
    if m == 0 then 0 else MonthStart(y, m - 1) + MonthDays(y, m - 1)
  }

  /** A date and time as `SYSTEMTIME` has it: months and days counted from 1. */
  datatype Time = Time(year: nat, month: nat, day: nat, hour: nat, minute: nat, second: nat)

  predicate ValidTime(t: Time) {
    && t.year >= 1970 && 1 <= t.month <= 12 && 1 <= t.day <= MonthDays(t.year, t.month - 1)
    && t.hour < 24 && t.minute < 60 && t.second < 60
  }

  /** The seconds from the beginning of 1970 to `t`. */
  function Seconds(t: Time): nat
    requires ValidTime(t)
  {
    DAY * Days(t) + 3600 * t.hour + 60 * t.minute + t.second
  }

  function Days(t: Time): nat
    requires ValidTime(t)
  {
    YearStart(t.year) + MonthStart(t.year, t.month - 1) + (t.day - 1)
  }

  /** The years' starts follow the Gregorian rule in closed form. */
  lemma {:induction false} YearStartIsGregorian(y: nat)
    requires y >= 1970
    ensures YearStart(y) + (y - 1901) / 100 == 365 * (y - 1970) + (y - 1969) / 4 + (y - 1601) / 400
    decreases y
  {
    if y > 1970 {
      YearStartIsGregorian(y - 1);
      LeapCount(y - 1);
    }
  }

  lemma {:induction false} LeapCount(y: nat)
    requires y >= 1970
    ensures YearDays(y) + (y - 1900) / 100 - (y - 1901) / 100
         == 365 + (y - 1968) / 4 - (y - 1969) / 4 + (y - 1600) / 400 - (y - 1601) / 400
  {
    Steps(y, 4, 492);
    Steps(y, 100, 19);
    Steps(y, 400, 4);
    if y % 400 == 0 {
      assert y % 100 == 0 && y % 4 == 0;
    }
    if y % 100 == 0 {
      assert y % 4 == 0;
    }
  }

  /** A multiple of `n` was passed exactly when `y` is one. */
  lemma {:induction false} Steps(y: nat, n: nat, k: nat)
    requires (n == 4 && k == 492) || (n == 100 && k == 19) || (n == 400 && k == 4)
    requires y >= n * k && y > n * k
    ensures (y - n * k) / n - (y - n * k - 1) / n == if y % n == 0 then 1 else 0
  {
  }

  lemma {:induction false} MonthsMakeYear(y: nat)
    ensures MonthStart(y, 12) == YearDays(y)
  {
    QuarterStarts(y);
    assert MonthStart(y, 7) == MonthStart(y, 6) + 31 && MonthStart(y, 8) == MonthStart(y, 7) + 31;
    assert MonthStart(y, 9) == MonthStart(y, 8) + 30 && MonthStart(y, 10) == MonthStart(y, 9) + 31;
    assert MonthStart(y, 11) == MonthStart(y, 10) + 30 && MonthStart(y, 12) == MonthStart(y, 11) + 31;
  }

  lemma {:induction false} QuarterStarts(y: nat)
    ensures MonthStart(y, 6) == YearDays(y) - 184
  {
    assert MonthStart(y, 0) == 0 && MonthStart(y, 1) == 31 && MonthStart(y, 2) == 31 + MonthDays(y, 1);
    assert MonthStart(y, 3) == MonthStart(y, 2) + 31 && MonthStart(y, 4) == MonthStart(y, 3) + 30;
    assert MonthStart(y, 5) == MonthStart(y, 4) + 31 && MonthStart(y, 6) == MonthStart(y, 5) + 30;
  }

  /** The months' starts follow the closed form of the Gregorian calendar, with February two days short, or one
      in a leap year. */
  lemma {:induction false} MonthStartIsGregorian(y: nat, m: nat)
    requires m < 12
    ensures MonthStart(y, m) == (367 * m + 5) / 12 - if m < 2 then 0 else if IsLeap(y) then 1 else 2
  {
    if m > 0 {
      MonthStartIsGregorian(y, m - 1);
    }
  }

  /** Midnight of the next day. */
  function NextDay(t: Time): Time
    requires ValidTime(t)
  {
    if t.day < MonthDays(t.year, t.month - 1) then Time(t.year, t.month, t.day + 1, 0, 0, 0)
    else if t.month < 12 then Time(t.year, t.month + 1, 1, 0, 0, 0)
    else Time(t.year + 1, 1, 1, 0, 0, 0)
  }

  /** The time one second later. */
  function Tick(t: Time): Time
    requires ValidTime(t)
  {
    if t.second < 59 then t.(second := t.second + 1)
    else if t.minute < 59 then t.(minute := t.minute + 1, second := 0)
    else if t.hour < 23 then t.(hour := t.hour + 1, minute := 0, second := 0)
    else NextDay(t)
  }

  lemma {:induction false} NextDayIsValid(t: Time)
    requires ValidTime(t)
    ensures ValidTime(NextDay(t))
  {
  }

  lemma {:induction false} DaysTick(t: Time)
    requires ValidTime(t)
    ensures ValidTime(NextDay(t)) && Days(NextDay(t)) == Days(t) + 1
  {
    NextDayIsValid(t);
    if t.month == 12 {
      MonthsMakeYear(t.year);
    }
  }

  lemma {:induction false} SecondsInDay(t: Time, u: Time)
    requires ValidTime(t) && ValidTime(u) && u.year == t.year && u.month == t.month && u.day == t.day
    requires 3600 * u.hour + 60 * u.minute + u.second == 3600 * t.hour + 60 * t.minute + t.second + 1
    ensures Seconds(u) == Seconds(t) + 1
  {
    assert Days(u) == Days(t);
  }

  lemma {:induction false} SecondsToMidnight(t: Time, u: Time)
    requires ValidTime(t) && ValidTime(u) && t.hour == 23 && t.minute == 59 && t.second == 59
    requires u.hour == 0 && u.minute == 0 && u.second == 0 && Days(u) == Days(t) + 1
    ensures Seconds(u) == Seconds(t) + 1
  {
  }

  /** The count starts at the beginning of 1970 and goes up by one each second, over every carry. */
  lemma {:induction false} SecondsTick(t: Time)
    requires ValidTime(t)
    ensures ValidTime(Tick(t)) && Seconds(Tick(t)) == Seconds(t) + 1
    ensures Seconds(Time(1970, 1, 1, 0, 0, 0)) == 0
  {
    if t.second == 59 && t.minute == 59 && t.hour == 23 {
      DaysTick(t);
      SecondsToMidnight(t, NextDay(t));
    } else {
      SecondsInDay(t, Tick(t));
    }
  }

  lemma {:induction false} MonthsAscend(y: nat, m: nat, n: nat)
    requires m < n <= 12
    ensures MonthStart(y, m) + MonthDays(y, m) <= MonthStart(y, n)
    decreases n
  {
    if m < n - 1 {
      MonthsAscend(y, m, n - 1);
    }
  }

  lemma {:induction false} YearsAscend(y: nat, z: nat)
    requires 1970 <= y < z
    ensures YearStart(y) + YearDays(y) <= YearStart(z)
    decreases z
  {
    if y < z - 1 {
      YearsAscend(y, z - 1);
    }
  }

  lemma {:induction false} DayInYear(t: Time)
    requires ValidTime(t)
    ensures MonthStart(t.year, t.month - 1) + (t.day - 1) < YearDays(t.year)
  {
    MonthsAscend(t.year, t.month - 1, 12);
    MonthsMakeYear(t.year);
  }

  /** No two dates have the same day number. */
  lemma {:induction false} DaysAreUnique(t: Time, u: Time)
    requires ValidTime(t) && ValidTime(u) && Days(t) == Days(u)
    ensures t.year == u.year && t.month == u.month && t.day == u.day
  {
    DayInYear(t);
    DayInYear(u);
    if t.year < u.year {
      YearsAscend(t.year, u.year);
    } else if u.year < t.year {
      YearsAscend(u.year, t.year);
    } else if t.month < u.month {
      MonthsAscend(t.year, t.month - 1, u.month - 1);
    } else if u.month < t.month {
      MonthsAscend(t.year, u.month - 1, t.month - 1);
    }
  }

  /** Every count of seconds denotes at most one date and time. */
  lemma {:induction false} SecondsAreUnique(t: Time, u: Time)
    requires ValidTime(t) && ValidTime(u) && Seconds(t) == Seconds(u)
    ensures t == u
  {
    assert Days(t) == Days(u) by {
      SplitDay(Days(t), 3600 * t.hour + 60 * t.minute + t.second);
      SplitDay(Days(u), 3600 * u.hour + 60 * u.minute + u.second);
    }
    DaysAreUnique(t, u);
  }

  lemma {:induction false} SplitDay(d: nat, s: nat)
    requires s < DAY
    ensures (DAY * d + s) / DAY == d
  {
  }

  // ---------------------------------------------------------------- the driver

  /** `OEMGetRealTime` on the clock's count: the date and time it denotes. The branch for a thirteenth
      month is never taken. */
  method GetRealTime(clock: nat) returns (t: Time)
    requires clock < U32
    ensures ValidTime(t) && Seconds(t) == clock
  {
    var daysCount := [31, 28, 31, 30, 31, 30, 31, 31, 30, 31, 30, 31];
    var timestamp: nat := clock;
    var year: nat := 1970;
    while timestamp >= DAY * YearDays(year)
      invariant year >= 1970 && clock == DAY * YearStart(year) + timestamp
      decreases timestamp
    {
      timestamp := timestamp - DAY * YearDays(year);
      year := year + 1;
    }
    var isLeap := IsLeap(year);
    var month: nat, day: nat := 0, 0;
    while timestamp >= DAY
      invariant year >= 1970 && isLeap == IsLeap(year) && month < 12 && day < MonthDays(year, month)
      invariant clock == DAY * (YearStart(year) + MonthStart(year, month) + day) + timestamp
      invariant DAY * (MonthStart(year, month) + day) + timestamp < DAY * YearDays(year)
      decreases timestamp
    {
      timestamp := timestamp - DAY;
      day := day + 1;
      var mdays := daysCount[month];
      if month == 1 && isLeap {
        mdays := mdays + 1;
      }
      assert mdays == MonthDays(year, month);
      if day == mdays {
        day := 0;
        month := month + 1;
      }
      if month == 12 {
        MonthsMakeYear(year);
        assert false;
      }
    }
    t := Time(year, month + 1, day + 1, timestamp / 3600, timestamp % 3600 / 60, timestamp % 3600 % 60);
  }

  /** What `OEMSetRealTime` leaves out: it looks for February at the target month, so the leap day of the
      target year is never added. */
  function Missing(t: Time): nat
    requires ValidTime(t)
  {
    if IsLeap(t.year) && t.month > 2 then DAY else 0
  }

  /** Days before month `m` without the leap day. */
  function CommonStart(m: nat): nat
    requires m <= 12
  {
    if m == 0 then 0 else CommonStart(m - 1) + MonthDays(1970, m - 1)
  }

  lemma {:induction false} LeapDayIsMissing(y: nat, m: nat)
    requires m <= 12
    ensures MonthStart(y, m) == CommonStart(m) + if IsLeap(y) && m >= 2 then 1 else 0
  {
    if m > 0 {
      LeapDayIsMissing(y, m - 1);
    }
  }

  /** `OEMSetRealTime`: the count written to the clock. */
  method SetRealTime(t: Time) returns (clock: nat)
    requires ValidTime(t)
    ensures clock == (Seconds(t) - Missing(t)) % U32
  {
    ghost var rest := t.second + t.minute * 60 + t.hour * 3600 + (t.day - 1) * DAY;
    var timestamp := (t.second + t.minute * 60 + t.hour * 3600 + (t.day - 1) * DAY) % U32;
    var isLeap;
    timestamp, isLeap := AddYears(t.year, timestamp, rest);
    clock := AddMonths(t.month, isLeap, timestamp, DAY * YearStart(t.year) + rest);
    LeapDayIsMissing(t.year, t.month - 1);
  }

  /** The years before the target year. */
  method AddYears(year: nat, timestamp0: nat, ghost rest: nat) returns (timestamp: nat, isLeap: bool)
    requires year >= 1970 && timestamp0 == rest % U32
    ensures timestamp == (DAY * YearStart(year) + rest) % U32 && isLeap == IsLeap(year)
  {
    timestamp, isLeap := timestamp0, false;
    var curYear := 1970;
    while curYear < year
      invariant 1970 <= curYear <= year
      invariant timestamp == (DAY * YearStart(curYear) + rest) % U32 && isLeap == IsLeap(curYear)
    {
      isLeap := IsLeap(curYear);
      AddWraps(DAY * YearStart(curYear) + rest, DAY * (if isLeap then 366 else 365));
      timestamp := (timestamp + DAY * (if isLeap then 366 else 365)) % U32;
      curYear := curYear + 1;
      isLeap := IsLeap(curYear);
    }
  }

  lemma {:induction false} DaysTable(m: nat)
    requires m < 12
    ensures [31, 28, 31, 30, 31, 30, 31, 31, 30, 31, 30, 31][m] == MonthDays(1970, m)
  {
  }

  /** The months before the target month, with the test of the target month for February. */
  method AddMonths(month: nat, isLeap: bool, timestamp0: nat, ghost years: nat) returns (timestamp: nat)
    requires 1 <= month <= 12 && timestamp0 == years % U32
    ensures timestamp == (years + DAY * CommonStart(month - 1)) % U32
  {
    var daysCount := [31, 28, 31, 30, 31, 30, 31, 31, 30, 31, 30, 31];
    timestamp := timestamp0;
    var curMonth := 1;
    while curMonth < month
      invariant 1 <= curMonth <= month
      invariant timestamp == (years + DAY * CommonStart(curMonth - 1)) % U32
    {
      var mdays := daysCount[curMonth - 1];
      if month == 1 && isLeap {
        mdays := mdays + 1;
      }
      DaysTable(curMonth - 1);
      AddWraps(years + DAY * CommonStart(curMonth - 1), DAY * mdays);
      timestamp := (timestamp + DAY * mdays) % U32;
      curMonth := curMonth + 1;
    }
  }

  lemma {:induction false} AddWraps(a: nat, b: nat)
    ensures (a % U32 + b) % U32 == (a + b) % U32
  {
  }

  /** Reading the clock and writing the result back restores the count exactly when the date is in a
      common year or before March; in March to December of a leap year the clock loses a day. */
  lemma {:induction false} RoundTripIffNoLeapDay(clock: nat, t: Time)
    requires clock < U32 && ValidTime(t) && Seconds(t) == clock
    ensures (Seconds(t) - Missing(t)) % U32 == clock <==> !(IsLeap(t.year) && t.month > 2)
    ensures Missing(t) != 0 ==> (Seconds(t) - Missing(t)) % U32 == clock - DAY
  {
    if Missing(t) != 0 {
      LateInYear(t);
    }
  }

  /** The first of March 1972: what `OEMSetRealTime` writes reads as the day before. */
  lemma {:induction false} LeapDayIsLost()
    ensures var march, february := Time(1972, 3, 1, 0, 0, 0), Time(1972, 2, 29, 0, 0, 0);
            && ValidTime(march) && ValidTime(february) && Seconds(march) == 68256000
            && (Seconds(march) - Missing(march)) % U32 == Seconds(february)
  {
    assert YearStart(1971) == 365;
    assert YearStart(1972) == 730;
    assert MonthStart(1972, 1) == 31;
    assert MonthStart(1972, 2) == 60;
  }

  lemma {:induction false} LateInYear(t: Time)
    requires ValidTime(t) && t.month > 2
    ensures Seconds(t) >= DAY
  {
    MonthsAscend(t.year, 0, t.month - 1);
  }
}
