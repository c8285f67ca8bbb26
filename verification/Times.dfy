/** Dates as the user reads them, decoded by a rule that knows only one leap year in four. */
module Times {
  import opened Numerals
  import opened CText

  /** As in time.h, but the day of the month counts from 0. */
  datatype Tm = Tm(year: nat, mon: nat, mday: nat, yday: nat, hour: nat, min: nat, sec: nat)

  const DAY: nat := 86400

  // ---- calendars ----

  function MonthLength(mon: nat, leap: bool): nat {
    if mon == 1 then (if leap then 29 else 28)
    else if mon == 3 || mon == 5 || mon == 8 || mon == 10 then 30
    else 31
  }

  function DaysBefore(mon: nat, leap: bool): nat {
    if mon == 0 then 0 else DaysBefore(mon - 1, leap) + MonthLength(mon - 1, leap)
  }

  /** The fields are a time of a day of the year, in a calendar that says whether the year is a leap year. */
  predicate Proper(tm: Tm, leap: bool) {
    && tm.hour < 24 && tm.min < 60 && tm.sec < 60
    && tm.mon < 12 && tm.mday < MonthLength(tm.mon, leap) && tm.yday == DaysBefore(tm.mon, leap) + tm.mday
  }

  function TimeOfDay(tm: Tm): nat {
    tm.hour * 3600 + tm.min * 60 + tm.sec
  }

  predicate GregorianLeap(year: nat) {
    var y := 1900 + year;
    y % 4 == 0 && (y % 100 != 0 || y % 400 == 0)
  }

  predicate FourthYear(year: nat) {
    year % 4 == 0
  }

  /** Seconds Since the Epoch (POSIX.1-2017, Base Definitions, section 4.16). */
  function PosixSeconds(tm: Tm): int {
    TimeOfDay(tm) + tm.yday * DAY + (tm.year - 70) * 31536000 + (tm.year - 69) / 4 * DAY - (tm.year - 1) / 100 * DAY
      + (tm.year + 299) / 400 * DAY
  }

  /** The same count when every fourth year is a leap year. */
  function QuadSeconds(tm: Tm): int {
    TimeOfDay(tm) + tm.yday * DAY + (tm.year - 70) * 31536000 + (tm.year - 69) / 4 * DAY
  }

  /** The date and time in the calendar in use, at t seconds since the epoch. */
  predicate IsDateOf(tm: Tm, t: nat) {
    tm.year >= 70 && Proper(tm, GregorianLeap(tm.year)) && PosixSeconds(tm) == t
  }

  /** The same in a calendar without the exceptions for centuries. */
  predicate IsQuadDateOf(tm: Tm, t: nat) {
    tm.year >= 70 && Proper(tm, FourthYear(tm.year)) && QuadSeconds(tm) == t
  }

  function YearStart(year: nat): Tm {
    Tm(year, 0, 0, 0, 0, 0, 0)
  }

  /** The leap days before a year, by the formula of the standard. */
  function LeapDays(year: nat): int {
    (year - 69) / 4 - (year - 1) / 100 + (year + 299) / 400
  }

  lemma LeapDayStep(year: nat)
    requires year >= 70
    ensures LeapDays(year + 1) - LeapDays(year) == if GregorianLeap(year) then 1 else 0
  {
    hide GregorianLeap;
    LeapRemainders(year);
    Quotient(year - 69, 4);
    Quotient(year - 1, 100);
    Quotient(year + 299, 400);
  }

  /** The rule of the leap years, by the remainders at which the three quotients grow. */
  lemma LeapRemainders(year: nat)
    requires year >= 70
    ensures GregorianLeap(year) <==> (year - 68) % 4 == 0 && (year % 100 != 0 || (year + 300) % 400 == 0)
    ensures (year + 300) % 400 == 0 ==> year % 100 == 0
    ensures year % 100 == 0 ==> (year - 68) % 4 == 0
  {
    SameRemainder(year - 68, 492, 4);
    SameRemainder(year, 19, 100);
    SameRemainder(year + 300, 4, 400);
    SameRemainder(year % 100, year / 100, 100);
    var q, r := (year + 300) / 400, (year + 300) % 400;
    assert year + 300 == q * 400 + r;
    if r == 0 {
      DivModUnique(year, 100, 4 * q - 3, 0);
    }
    if year % 100 == 0 {
      DivModUnique(year - 68, 4, 25 * (year / 100) - 17, 0);
    }
  }

  lemma SameRemainder(n: nat, k: nat, d: nat)
    requires d > 0
    ensures (n + k * d) % d == n % d
  {
    var q, r := n / d, n % d;
    assert n == q * d + r;
    assert n + k * d == (q + k) * d + r;
    DivModUnique(n + k * d, d, q + k, r);
  }

  lemma Quotient(n: nat, d: nat)
    requires d > 1
    ensures (n + 1) / d == n / d + if (n + 1) % d == 0 then 1 else 0
  {
    var q, r := n / d, n % d;
    assert n == q * d + r;
    if r + 1 == d {
      DivModUnique(n + 1, d, q + 1, 0);
    } else {
      DivModUnique(n + 1, d, q, r + 1);
    }
  }

  lemma YearStartSeconds(year: nat)
    ensures PosixSeconds(YearStart(year)) == (year - 70) * 31536000 + LeapDays(year) * 86400
  {
  }

  /** The formula of the standard counts the days of the years before. */
  lemma YearLength(year: nat)
    requires year >= 70
    ensures PosixSeconds(YearStart(70)) == 0
    ensures PosixSeconds(YearStart(year + 1)) - PosixSeconds(YearStart(year))
         == (if GregorianLeap(year) then 366 else 365) * DAY
  {
    hide LeapDays, GregorianLeap, PosixSeconds, YearStart;
    LeapDayStep(year);
    YearStartSeconds(year);
    YearStartSeconds(year + 1);
    EpochIsZero();
  }

  lemma EpochIsZero()
    ensures PosixSeconds(YearStart(70)) == 0
  {
    hide PosixSeconds, LeapDays, YearStart;
    YearStartSeconds(70);
    NoLeapDays();
  }

  lemma NoLeapDays()
    ensures LeapDays(70) == 0
  {
  }

  /** Where the months of a year begin. */
  lemma MonthTable(leap: bool)
    ensures var l := if leap then 1 else 0;
      && DaysBefore(0, leap) == 0 && DaysBefore(1, leap) == 31 && DaysBefore(2, leap) == 59 + l
      && DaysBefore(3, leap) == 90 + l && DaysBefore(4, leap) == 120 + l && DaysBefore(5, leap) == 151 + l
      && DaysBefore(6, leap) == 181 + l && DaysBefore(7, leap) == 212 + l && DaysBefore(8, leap) == 243 + l
      && DaysBefore(9, leap) == 273 + l && DaysBefore(10, leap) == 304 + l && DaysBefore(11, leap) == 334 + l
  {
  }

  lemma {:induction false} MonthsFit(a: nat, b: nat, leap: bool)
    requires a < b
    ensures DaysBefore(a, leap) + MonthLength(a, leap) <= DaysBefore(b, leap)
  {
    if a < b - 1 {
      MonthsFit(a, b - 1, leap);
    }
  }

  lemma YearDays(tm: Tm, leap: bool)
    requires Proper(tm, leap)
    ensures tm.yday < if leap then 366 else 365
    ensures 0 <= TimeOfDay(tm) < DAY
  {
    if tm.mon < 11 {
      MonthsFit(tm.mon, 11, leap);
    }
    MonthTable(leap);
  }

  /** A second of a day of the year is one date and time only. */
  lemma SameDay(a: Tm, b: Tm, leap: bool)
    requires Proper(a, leap) && Proper(b, leap) && a.yday == b.yday && a.year == b.year && TimeOfDay(a) == TimeOfDay(b)
    ensures a == b
  {
    if a.mon < b.mon {
      MonthsFit(a.mon, b.mon, leap);
    } else if b.mon < a.mon {
      MonthsFit(b.mon, a.mon, leap);
    }
  }

  /** No second is dated twice in the calendar of the fourth years. */
  lemma QuadDateUnique(a: Tm, b: Tm, t: nat)
    requires IsQuadDateOf(a, t) && IsQuadDateOf(b, t)
    ensures a == b
  {
    hide QuadSeconds, TimeOfDay, DaysBefore, MonthLength, FourthYear;
    YearDays(a, FourthYear(a.year));
    YearDays(b, FourthYear(b.year));
    QuadByYear(a);
    QuadByYear(b);
    if a.year < b.year {
      QuadYearsApart(a.year, b.year);
    } else if b.year < a.year {
      QuadYearsApart(b.year, a.year);
    }
    SameDay(a, b, FourthYear(a.year));
  }

  lemma QuadByYear(tm: Tm)
    ensures QuadSeconds(tm) == QuadSeconds(YearStart(tm.year)) + tm.yday * DAY + TimeOfDay(tm)
  {
  }

  function FourthYears(year: nat): int {
    (year - 69) / 4
  }

  lemma FourthYearStep(year: nat)
    requires year >= 70
    ensures FourthYears(year + 1) == FourthYears(year) + if FourthYear(year) then 1 else 0
  {
    var n := year - 69;
    DivModUnique(n + 1, 4, year / 4 - 17, year % 4);
    Quotient(n, 4);
  }

  lemma QuadStartSeconds(year: nat)
    ensures QuadSeconds(YearStart(year)) == (year - 70) * 31536000 + FourthYears(year) * 86400
  {
  }

  lemma QuadYearLength(year: nat)
    requires year >= 70
    ensures QuadSeconds(YearStart(year + 1)) == QuadSeconds(YearStart(year))
        + (if FourthYear(year) then 366 else 365) * DAY
  {
    hide QuadSeconds, YearStart, FourthYear, FourthYears;
    FourthYearStep(year);
    QuadStartSeconds(year);
    QuadStartSeconds(year + 1);
  }

  lemma {:induction false} QuadYearsApart(a: nat, b: nat)
    requires 70 <= a < b
    ensures QuadSeconds(YearStart(b)) >= QuadSeconds(YearStart(a)) + (if FourthYear(a) then 366 else 365) * DAY
  {
    hide QuadSeconds, YearStart, FourthYear;
    QuadYearLength(b - 1);
    if a < b - 1 {
      QuadYearsApart(a, b - 1);
    }
  }

  const CENTURY_FAILS: nat := 4107542400

  /**
   * The two calendars agree exactly up to the first of March of 2100: a date by the rule of the fourth years is the
   * date in use if and only if it comes before.
   */
  lemma QuadIsGregorian(tm: Tm, t: nat)
    requires IsQuadDateOf(tm, t) && t < 0x1_0000_0000
    ensures IsDateOf(tm, t) <==> t < 4107542400
  {
    YearDays(tm, FourthYear(tm.year));
    hide Proper, DaysBefore, MonthLength, GregorianLeap, FourthYear, PosixSeconds, QuadSeconds, TimeOfDay;
    Centuries(tm.year);
    CountsDiffer(tm);
    SecondsOfYear(tm);
    if tm.year == 200 {
      InTheYear2100(tm);
    }
  }

  /** The two counts differ by the corrections of the centuries. */
  lemma CountsDiffer(tm: Tm)
    ensures PosixSeconds(tm) - QuadSeconds(tm) == ((tm.year + 299) / 400 - (tm.year - 1) / 100) * DAY
  {
  }

  /** Where the seconds around the year 2100 lie. */
  lemma SecondsOfYear(tm: Tm)
    requires tm.year >= 70 && 0 <= tm.yday < 366 && 0 <= TimeOfDay(tm) < DAY
    ensures tm.year >= 201 ==> QuadSeconds(tm) >= CENTURY_FAILS
    ensures tm.year < 200 ==> QuadSeconds(tm) < CENTURY_FAILS
    ensures tm.year == 200 ==> (QuadSeconds(tm) < CENTURY_FAILS <==> tm.yday < 59)
  {
    hide TimeOfDay;
    var q := (tm.year - 69) / 4;
    assert 4 * q <= tm.year - 69 < 4 * q + 4;
  }

  /** Before 1900 + 200 every fourth year is a leap year, and the corrections of the centuries cancel out. */
  lemma Centuries(year: nat)
    requires year >= 70
    ensures year >= 201 ==> (year - 1) / 100 > (year + 299) / 400
    ensures year <= 200 ==> (year - 1) / 100 == (year + 299) / 400
    ensures year < 200 ==> (FourthYear(year) <==> GregorianLeap(year))
    ensures FourthYear(200) && !GregorianLeap(200)
  {
    var p, q := (year - 1) / 100, (year + 299) / 400;
    assert 100 * p <= year - 1 < 100 * p + 100 && 400 * q <= year + 299 < 400 * q + 400;
  }

  /** From the 29th of February on, a year with that day and one without disagree. */
  lemma InTheYear2100(tm: Tm)
    requires Proper(tm, true)
    ensures Proper(tm, false) <==> tm.yday < 59
  {
    OneDayMore(tm.mon);
    assert DaysBefore(2, false) == 59;
    if tm.mon > 2 {
      MonthsFit(2, tm.mon, false);
    }
  }

  lemma {:induction false} OneDayMore(mon: nat)
    ensures DaysBefore(mon, true) == DaysBefore(mon, false) + if mon >= 2 then 1 else 0
  {
    if mon > 0 {
      OneDayMore(mon - 1);
    }
  }

  // ---- the decoder ----

  /** Month and day of the month, both from 0, of a day of the year. */
  method MonthAndDay(yday: nat, leap: bool) returns (month: nat, mday: nat)
    requires yday < if leap then 366 else 365
    ensures month < 12 && mday < MonthLength(month, leap) && yday == DaysBefore(month, leap) + mday
  {
    MonthTable(leap);
    hide DaysBefore;
    var tmpdays := yday;
    month := 0;
    label Months: {
      if tmpdays >= 31 { month, tmpdays := month + 1, tmpdays - 31; } else { break Months; }
      if tmpdays >= (if leap then 29 else 28) {
        month, tmpdays := month + 1, tmpdays - (if leap then 29 else 28);
      } else { break Months; }
      if tmpdays >= 31 { month, tmpdays := month + 1, tmpdays - 31; } else { break Months; }
      if tmpdays >= 30 { month, tmpdays := month + 1, tmpdays - 30; } else { break Months; }
      if tmpdays >= 31 { month, tmpdays := month + 1, tmpdays - 31; } else { break Months; }
      if tmpdays >= 30 { month, tmpdays := month + 1, tmpdays - 30; } else { break Months; }
      if tmpdays >= 31 { month, tmpdays := month + 1, tmpdays - 31; } else { break Months; }
      if tmpdays >= 31 { month, tmpdays := month + 1, tmpdays - 31; } else { break Months; }
      if tmpdays >= 30 { month, tmpdays := month + 1, tmpdays - 30; } else { break Months; }
      if tmpdays >= 31 { month, tmpdays := month + 1, tmpdays - 31; } else { break Months; }
      if tmpdays >= 30 { month, tmpdays := month + 1, tmpdays - 30; } else { break Months; }
    }
    mday := tmpdays;
  }

  /** `bloodyHackyDateDecode`: for every 32-bit time, the date by the rule of the fourth years. */
  method BloodyHackyDateDecode(time: nat) returns (tm: Tm)
    requires time < 0x1_0000_0000
    ensures IsQuadDateOf(tm, time)
    ensures IsDateOf(tm, time) <==> time < 4107542400
  {
    hide IsDateOf, DaysBefore, MonthLength;
    var leap := false;
    var year, ctime := 0, time;
    var quadannums := ctime / 126230400;
    ctime := ctime - quadannums * 126230400;
    if ctime >= 31536000 { year, ctime, leap := year + 1, ctime - 31536000, false; }
    if ctime >= 31536000 { year, ctime, leap := year + 1, ctime - 31536000, true; }
    if ctime >= 31622400 { year, ctime, leap := year + 1, ctime - 31622400, false; }
    year := year + 70 + 4 * quadannums;
    QuadYear(time, quadannums, year, ctime, leap);
    var yday := ctime / DAY;
    ctime := ctime - yday * DAY;
    var month, mday := MonthAndDay(yday, leap);
    var hour := ctime / 3600;
    ctime := ctime - hour * 3600;
    tm := Tm(year, month, mday, yday, hour, ctime / 60, ctime % 60);
    QuadIsGregorian(tm, time);
  }

  /** What is left of a time after whole years of the four-year cycle. */
  lemma QuadYear(time: nat, quads: nat, year: nat, rest: nat, leap: bool)
    requires quads == time / 126230400
    requires year >= 70 + 4 * quads
    requires var k := year - 70 - 4 * quads;
      && k <= 3 && leap == (k == 2)
      && time == quads * 126230400 + rest + k * 31536000 + if k == 3 then DAY else 0
    ensures leap == FourthYear(year) && time == rest + (year - 70) * 31536000 + (year - 69) / 4 * DAY
  {
    var k := year - 70 - 4 * quads;
    assert (year - 69) / 4 == quads + if k == 3 then 1 else 0;
  }

  /** Every 32-bit time has a date in this calendar, and so exactly one. */
  lemma QuadDateExists(t: nat) returns (tm: Tm)
    requires t < 0x1_0000_0000
    ensures IsQuadDateOf(tm, t)
  {
    hide DaysBefore, MonthLength, FourthYear;
    var year, seconds := YearOf(t);
    var yday, time := seconds / DAY, seconds % DAY;
    YearEnds(FourthYear(year));
    var month := MonthOf(yday, FourthYear(year), 0);
    Clock(time);
    tm := Tm(year, month, yday - DaysBefore(month, FourthYear(year)), yday, time / 3600, time % 3600 / 60, time % 60);
  }

  lemma Clock(time: nat)
    requires time < DAY
    ensures time / 3600 < 24 && time % 3600 / 60 < 60 && time / 3600 * 3600 + time % 3600 / 60 * 60 + time % 60 == time
  {
    assert time % 3600 % 60
        == time % 60 by { DivModUnique(time, 60, time / 3600 * 60 + time % 3600 / 60, time % 3600 % 60); }
  }

  /** The year of a time, and the seconds that are left of it. */
  lemma YearOf(t: nat) returns (year: nat, seconds: nat)
    ensures year >= 70 && seconds < (if FourthYear(year) then 366 else 365) * DAY
    ensures t == seconds + (year - 70) * 31536000 + (year - 69) / 4 * DAY
  {
    hide FourthYear;
    var q := t / 126230400;
    var rest := t - q * 126230400;
    var k := if rest < 31536000 then 0 else if rest < 63072000 then 1 else if rest < 94694400 then 2 else 3;
    year, seconds := 70 + 4 * q + k, rest - k * 31536000 - if k == 3 then DAY else 0;
    QuadYear(t, q, year, seconds, k == 2);
  }

  lemma YearEnds(leap: bool)
    ensures DaysBefore(0, leap) == 0 && DaysBefore(12, leap) == if leap then 366 else 365
  {
    MonthTable(leap);
    assert DaysBefore(12, leap) == DaysBefore(11, leap) + 31;
  }

  lemma {:induction false} MonthOf(yday: nat, leap: bool, m: nat) returns (month: nat)
    requires m < 12 && DaysBefore(m, leap) <= yday < DaysBefore(12, leap)
    ensures month < 12 && DaysBefore(month, leap) <= yday < DaysBefore(month, leap) + MonthLength(month, leap)
    decreases 12 - m
  {
    hide MonthLength;
    if yday < DaysBefore(m, leap) + MonthLength(m, leap) {
      month := m;
    } else {
      month := MonthOf(yday, leap, m + 1);
    }
  }

  // ---- the text ----

  /** A number printed with at least `width` digits. */
  function Padded(v: nat, width: nat): string {
    if |Decimal(v)| < width then NoughtDigits(width - |Decimal(v)|) + Decimal(v) else Decimal(v)
  }

  function TimeText(tm: Tm): string {
    Padded(tm.year + 1900, 4) + "-" + Padded(tm.mon + 1, 2) + "-" + Padded(tm.mday + 1, 2) + " T "
      + Padded(tm.hour, 2) + ":" + Padded(tm.min, 2) + ":" + Padded(tm.sec, 2) + " UTC"
  }

  lemma PaddedBack(v: nat, width: nat)
    requires width > 0 && v < Pow(10, width)
    ensures |Padded(v, width)| == width && ValueOf(Padded(v, width)) == v && AllDigits(Padded(v, width))
  {
    hide Decimal, Val, Pow;
    DecimalBack(v);
    DecimalLength(v, width);
    if |Decimal(v)| < width {
      NoughtsValue(width - |Decimal(v)|, Decimal(v));
    }
  }

  lemma Hundred()
    ensures Pow(10, 2) == 100 && Pow(10, 4) == 10000
  {
    assert Pow(10, 2) == 10 * (10 * Pow(10, 0));
    PowAdd(10, 2, 2);
  }

  /** The seconds a printed date stands for, every fourth year being a leap year. */
  function ReadTime(s: string): int {
    if |s| < 21 then 0 else
      var year := ValueOf(s[0..4]) - 1900;
      var mon, mday := ValueOf(s[5..7]) - 1, ValueOf(s[8..10]) - 1;
      var hour, min, sec := ValueOf(s[13..15]), ValueOf(s[16..18]), ValueOf(s[19..21]);
      if year < 70 || mon < 0 || mday < 0 then 0
      else QuadSeconds(Tm(year, mon, mday, DaysBefore(mon, FourthYear(year)) + mday, hour, min, sec))
  }

  /** The fields of a printed date are found at fixed places. */
  lemma TimeTextFields(tm: Tm)
    requires tm.year < 300 && tm.mon < 12 && tm.mday < 31 && tm.hour < 24 && tm.min < 60 && tm.sec < 60
    ensures var s := TimeText(tm);
      && DateForm(s)
      && ValueOf(s[0..4]) == tm.year + 1900 && ValueOf(s[5..7]) == tm.mon + 1 && ValueOf(s[8..10]) == tm.mday + 1
      && ValueOf(s[13..15]) == tm.hour && ValueOf(s[16..18]) == tm.min && ValueOf(s[19..21]) == tm.sec
  {
    hide Pow, Padded, ValueOf;
    Hundred();
    PaddedBack(tm.year + 1900, 4);
    PaddedBack(tm.mon + 1, 2);
    PaddedBack(tm.mday + 1, 2);
    PaddedBack(tm.hour, 2);
    PaddedBack(tm.min, 2);
    PaddedBack(tm.sec, 2);
    TextSlices(Padded(tm.year + 1900, 4), Padded(tm.mon + 1, 2), Padded(tm.mday + 1, 2),
               Padded(tm.hour, 2), Padded(tm.min, 2), Padded(tm.sec, 2));
  }

  /** Year, month, day, hour, minute and second, with what stands between them. */
  predicate DateForm(s: string) {
    && |s| == 25 && s[4] == '-' && s[7] == '-' && s[10..13] == " T " && s[15] == ':' && s[18] == ':'
    && s[21..] == " UTC"
  }

  /** A printed date tells which second is meant, so no two seconds are printed alike. */
  lemma TimeTextBack(tm: Tm, t: nat)
    requires IsQuadDateOf(tm, t) && t < 0x1_0000_0000
    ensures |TimeText(tm)| == 25 && DateForm(TimeText(tm)) && ReadTime(TimeText(tm)) == t
  {
    hide TimeText, QuadSeconds, DaysBefore, MonthLength, ValueOf, IsQuadDateOf, FourthYear;
    FieldsFit(tm, t);
    TimeTextFields(tm);
  }

  lemma FieldsFit(tm: Tm, t: nat)
    requires IsQuadDateOf(tm, t) && t < 0x1_0000_0000
    ensures 70 <= tm.year < 300 && tm.mon < 12 && tm.mday < 31 && tm.hour < 24 && tm.min < 60 && tm.sec < 60
    ensures tm.yday == DaysBefore(tm.mon, FourthYear(tm.year)) + tm.mday && QuadSeconds(tm) == t
  {
  }

  lemma TextSlices(a: string, b: string, c: string, d: string, e: string, f: string)
    requires |a| == 4 && |b| == |c| == |d| == |e| == |f| == 2
    ensures var s := a + "-" + b + "-" + c + " T " + d + ":" + e + ":" + f + " UTC";
      DateForm(s) && s[0..4] == a && s[5..7] == b && s[8..10] == c && s[13..15] == d && s[16..18] == e && s[19..21] == f
  {
  }

  /** `prettyPrintBtsTimeType`: a printed date tells exactly which second is meant. */
  method PrettyPrintBtsTimeType(btsTime: nat, buffer: array<char>, at: nat) returns (written: nat, ghost tm: Tm)
    requires btsTime < 0x1_0000_0000 && at + 100 <= buffer.Length
    modifies buffer
    ensures IsQuadDateOf(tm, btsTime) && (IsDateOf(tm, btsTime) <==> btsTime < 4107542400)
    ensures IsText(buffer, at, TimeText(tm)) && written == |TimeText(tm)| == 25
    ensures DateForm(buffer[at..at + 25]) && ReadTime(buffer[at..at + 25]) == btsTime
    ensures OnlyWithin(buffer, at, at + 100)
  {
    hide IsDateOf, IsQuadDateOf, Padded, Cut, ReadTime, DateForm;
    var gmt := BloodyHackyDateDecode(btsTime);
    tm := gmt;
    TimeTextBack(gmt, btsTime);
    TimeNoEnd(gmt);
    CutShort(TimeText(gmt), 99);
    Snprintf(buffer, at, 100, TimeText(gmt));
    written := Strlen(buffer, at, TimeText(gmt));
  }

  lemma CutShort(s: string, n: nat)
    requires |s| <= n
    ensures Cut(s, n) == s
  {
  }

  lemma PaddedNoEnd(v: nat, width: nat)
    ensures NoEnd(Padded(v, width))
  {
    hide Decimal;
    DecimalNoEnd(v);
  }

  lemma TimeNoEnd(tm: Tm)
    ensures NoEnd(TimeText(tm))
  {
    hide Padded;
    PaddedNoEnd(tm.year + 1900, 4);
    PaddedNoEnd(tm.mon + 1, 2);
    PaddedNoEnd(tm.mday + 1, 2);
    PaddedNoEnd(tm.hour, 2);
    PaddedNoEnd(tm.min, 2);
    PaddedNoEnd(tm.sec, 2);
  }
}
