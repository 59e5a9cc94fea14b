/**
 * Days, weeks and months.
 * Calendar days as integers: day 0 is Monday, 1 January of year 1 of the proleptic
 * Gregorian calendar, the origin Go's `time` package counts from.
 */
module Calendar {
  import Decimal

  datatype Date = Date(year: int, month: int, day: int)

  datatype IsoWeekDate = IsoWeekDate(year: int, week: int)

  predicate Leap(y: int) {
    y % 4 == 0 && (y % 100 != 0 || y % 400 == 0)
  }

  function YearLength(y: int): int {
    if Leap(y) then 366 else 365
  }

  /** The day number of 1 January of year y. */
  function DaysBeforeYear(y: int): int {
    365 * (y - 1) + (y - 1) / 4 - (y - 1) / 100 + (y - 1) / 400
  }

  const CUMULATIVE: seq<int> := [0, 31, 59, 90, 120, 151, 181, 212, 243, 273, 304, 334, 365]

  function DaysBeforeMonth(y: int, m: int): int
    requires 1 <= m <= 13
  {
    CUMULATIVE[m - 1] + if m > 2 && Leap(y) then 1 else 0
  }

  predicate ValidDate(x: Date) {
    1 <= x.month <= 12 && 1 <= x.day <= DaysBeforeMonth(x.year, x.month + 1) - DaysBeforeMonth(x.year, x.month)
  }

  function DayNumber(x: Date): int
    requires 1 <= x.month <= 12
  {
    DaysBeforeYear(x.year) + DaysBeforeMonth(x.year, x.month) + x.day - 1
  }

  function AtMost(n: int, bound: int): int {
    if n > bound then bound else n
  }

  /** Peels off 400-, 100-, 4- and 1-year cycles, as Go's `time` package does. */
  function YearOf(d: int): int {
    var in400 := d % 146097;
    var n100 := AtMost(in400 / 36524, 3);
    var in100 := in400 - 36524 * n100;
    var n4 := in100 / 1461;
    var n1 := AtMost(in100 % 1461 / 365, 3);
    400 * (d / 146097) + 100 * n100 + 4 * n4 + n1 + 1
  }

  function YearDay(d: int): int {
    d - DaysBeforeYear(YearOf(d))
  }

  function MonthFrom(y: int, yearDay: int, m: int): (r: int)
    requires 1 <= m <= 12 && 0 <= yearDay < DaysBeforeMonth(y, m + 1)
    ensures 1 <= r <= m && DaysBeforeMonth(y, r) <= yearDay < DaysBeforeMonth(y, r + 1)
    decreases m
  {
    if m == 1 || DaysBeforeMonth(y, m) <= yearDay then m else MonthFrom(y, yearDay, m - 1)
  }

  function MonthOf(d: int): (r: int)
    ensures 1 <= r <= 12
  {
    YearBounds(d);
    MonthFrom(YearOf(d), YearDay(d), 12)
  }

  function CivilOf(d: int): Date {
    Date(YearOf(d), MonthOf(d), YearDay(d) - DaysBeforeMonth(YearOf(d), MonthOf(d)) + 1)
  }

  // ----- The Gregorian calendar

  lemma CycleDays(a: int, b: int, c: int, e: int)
    requires 0 <= b <= 3 && 0 <= c <= 24 && 0 <= e <= 3
    ensures DaysBeforeYear(400 * a + 100 * b + 4 * c + e + 1) == 146097 * a + 36524 * b + 1461 * c + 365 * e
  {
    var y := 400 * a + 100 * b + 4 * c + e;
    assert y / 4 == 100 * a + 25 * b + c;
    assert y / 100 == 4 * a + b;
    assert y / 400 == a;
  }

  lemma Mod4(n: int, r: int)
    requires 0 <= r < 4
    ensures (4 * n + r) % 4 == r
  {
  }

  lemma Mod100(n: int, r: int)
    requires 0 <= r < 100
    ensures (100 * n + r) % 100 == r
  {
  }

  lemma Mod400(n: int, r: int)
    requires 0 <= r < 400
    ensures (400 * n + r) % 400 == r
  {
  }

  lemma LeapInCycle(a: int, b: int, c: int, e: int)
    requires 0 <= b <= 3 && 0 <= c <= 24 && 0 <= e <= 3
    ensures Leap(400 * a + 100 * b + 4 * c + e + 1) <==> e == 3 && (c < 24 || b == 3)
  {
    if e < 3 {
      Mod4(100 * a + 25 * b + c, e + 1);
    } else {
      Mod4(100 * a + 25 * b + c + 1, 0);
      if c < 24 {
        Mod100(4 * a + b, 4 * (c + 1));
      } else {
        Mod100(4 * a + b + 1, 0);
        if b < 3 { Mod400(a, 100 * (b + 1)); } else { Mod400(a + 1, 0); }
      }
    }
  }

  lemma InCycle(y: int) returns (a: int, b: int, c: int, e: int)
    ensures 0 <= b <= 3 && 0 <= c <= 24 && 0 <= e <= 3
    ensures y == 400 * a + 100 * b + 4 * c + e + 1
  {
    a := (y - 1) / 400;
    var r := (y - 1) % 400;
    b := r / 100;
    c := r % 100 / 4;
    e := r % 100 % 4;
  }

  lemma YearStep(y: int)
    ensures DaysBeforeYear(y + 1) == DaysBeforeYear(y) + YearLength(y)
  {
    var a, b, c, e := InCycle(y);
    CycleDays(a, b, c, e);
    LeapInCycle(a, b, c, e);
    if e < 3 {
      CycleDays(a, b, c, e + 1);
    } else if c < 24 {
      CycleDays(a, b, c + 1, 0);
    } else if b < 3 {
      CycleDays(a, b + 1, 0, 0);
    } else {
      CycleDays(a + 1, 0, 0, 0);
    }
  }

  lemma {:induction false} YearsGrow(y: int, z: int)
    requires y < z
    ensures DaysBeforeYear(y) + 365 <= DaysBeforeYear(z)
    decreases z - y
  {
    YearStep(y);
    if y + 1 < z { YearsGrow(y + 1, z); }
  }

  lemma DayInCycle(d: int) returns (a: int, b: int, c: int, e: int, rest: int)
    ensures 0 <= b <= 3 && 0 <= c <= 24 && 0 <= e <= 3
    ensures d == 146097 * a + 36524 * b + 1461 * c + 365 * e + rest
    ensures 0 <= rest <= if e == 3 && (c < 24 || b == 3) then 365 else 364
    ensures YearOf(d) == 400 * a + 100 * b + 4 * c + e + 1
  {
    a := d / 146097;
    b := AtMost(d % 146097 / 36524, 3);
    var in100 := d % 146097 - 36524 * b;
    c := in100 / 1461;
    e := AtMost(in100 % 1461 / 365, 3);
    rest := in100 % 1461 - 365 * e;
  }

  lemma YearBounds(d: int)
    ensures 0 <= YearDay(d) < YearLength(YearOf(d))
  {
    var a, b, c, e, rest := DayInCycle(d);
    CycleDays(a, b, c, e);
    LeapInCycle(a, b, c, e);
  }

  /** The year of a day is the only one whose days include it. */
  lemma YearUnique(d: int, y: int)
    requires DaysBeforeYear(y) <= d < DaysBeforeYear(y + 1)
    ensures YearOf(d) == y
  {
    YearBounds(d);
    YearStep(YearOf(d));
    if YearOf(d) < y {
      YearsAreMonotone(YearOf(d) + 1, y);
    } else if y < YearOf(d) {
      YearsAreMonotone(y + 1, YearOf(d));
    }
  }

  lemma YearsAreMonotone(y: int, z: int)
    requires y <= z
    ensures DaysBeforeYear(y) <= DaysBeforeYear(z)
  {
    if y < z { YearsGrow(y, z); }
  }

  lemma MonthUnique(y: int, yearDay: int, m: int, n: int)
    requires 1 <= m <= 12 && 1 <= n <= 12
    requires DaysBeforeMonth(y, m) <= yearDay < DaysBeforeMonth(y, m + 1)
    requires DaysBeforeMonth(y, n) <= yearDay < DaysBeforeMonth(y, n + 1)
    ensures m == n
  {
  }

  /** Every day number names a valid date, and the date names the day number. */
  lemma DayRoundTrip(d: int)
    ensures ValidDate(CivilOf(d))
    ensures DayNumber(CivilOf(d)) == d
  {
    YearBounds(d);
  }

  /** Every valid date is the date of its day number. */
  lemma DateRoundTrip(x: Date)
    requires ValidDate(x)
    ensures CivilOf(DayNumber(x)) == x
  {
    var d := DayNumber(x);
    YearStep(x.year);
    assert DaysBeforeMonth(x.year, 13) == YearLength(x.year);
    assert DaysBeforeMonth(x.year, x.month + 1) <= DaysBeforeMonth(x.year, 13);
    YearUnique(d, x.year);
    YearBounds(d);
    MonthUnique(x.year, YearDay(d), x.month, MonthOf(d));
  }

  /** The Gregorian lengths of the months. */
  lemma MonthLengths(y: int, m: int, d: int)
    ensures ValidDate(Date(y, m, d)) <==>
            && 1 <= m <= 12
            && 1 <= d <= (if m in {4, 6, 9, 11} then 30
                          else if m != 2 then 31
                          else if y % 4 == 0 && (y % 100 != 0 || y % 400 == 0) then 29 else 28)
  {
  }

  predicate Follows(next: Date, x: Date) {
    next == if ValidDate(Date(x.year, x.month, x.day + 1)) then Date(x.year, x.month, x.day + 1)
            else if x.month < 12 then Date(x.year, x.month + 1, 1) else Date(x.year + 1, 1, 1)
  }

  lemma FollowingDay(x: Date, next: Date)
    requires ValidDate(x) && Follows(next, x)
    ensures ValidDate(next) && DayNumber(next) == DayNumber(x) + 1
  {
    YearStep(x.year);
  }

  /** The day after a date is the next date: the count neither skips nor repeats one. */
  lemma NextDayIsNextDate(x: Date, next: Date)
    requires ValidDate(x) && Follows(next, x)
    ensures DayNumber(next) == DayNumber(x) + 1 && CivilOf(DayNumber(next)) == next
  {
    FollowingDay(x, next);
    DateRoundTrip(next);
  }

  /** Day 719162 is 1 January 1970. */
  lemma CountIsAnchored()
    ensures CivilOf(719162) == Date(1970, 1, 1)
  {
    assert DayNumber(Date(1970, 1, 1)) == 719162;
    DateRoundTrip(Date(1970, 1, 1));
  }

  /** It is a Thursday, and weekdays follow one another; Sunday is 0. */
  lemma WeekdaysFollow(d: int)
    ensures Weekday(719162) == 4
    ensures Weekday(d + 1) == if Weekday(d) == 6 then 0 else Weekday(d) + 1
  {
  }

  /** The Monday of a day's week is a Monday, at most six days back. */
  lemma MondayIsNear(d: int)
    ensures Weekday(Monday(d)) == 1 && d - 6 <= Monday(d) <= d
  {
  }

  lemma YearsAreOrdered(d: int, e: int)
    requires d <= e
    ensures YearOf(d) <= YearOf(e)
  {
    YearBounds(d);
    YearBounds(e);
    YearStep(YearOf(e));
    if YearOf(e) < YearOf(d) { YearsAreMonotone(YearOf(e) + 1, YearOf(d)); }
  }

  lemma MonthsAreOrdered(y: int, m: int, n: int, a: int, b: int)
    requires 1 <= m <= 12 && 1 <= n <= 12 && a <= b
    requires DaysBeforeMonth(y, m) <= a < DaysBeforeMonth(y, m + 1)
    requires DaysBeforeMonth(y, n) <= b < DaysBeforeMonth(y, n + 1)
    ensures m <= n
  {
  }

  /** Dates are ordered as their days are. */
  lemma DatesAreOrdered(d: int, e: int)
    requires d <= e
    ensures YearOf(d) <= YearOf(e)
    ensures YearOf(d) == YearOf(e) ==> MonthOf(d) <= MonthOf(e)
  {
    YearsAreOrdered(d, e);
    if YearOf(d) == YearOf(e) {
      YearBounds(d);
      YearBounds(e);
      MonthsAreOrdered(YearOf(d), MonthOf(d), MonthOf(e), YearDay(d), YearDay(e));
    }
  }

  // ----- Weeks

  /** Go's `Weekday`: Sunday is 0. */
  function Weekday(d: int): int {
    (d + 1) % 7
  }

  function Monday(d: int): int {
    d - d % 7
  }

  /** The year and the week that hold the Thursday of the day's week, as Go's `ISOWeek` computes them. */
  function IsoWeek(d: int): IsoWeekDate {
    WeekOfThursday(Monday(d) + 3)
  }

  function WeekOfThursday(thursday: int): IsoWeekDate {
    IsoWeekDate(YearOf(thursday), YearDay(thursday) / 7 + 1)
  }

  /** The Monday of week 1: the week that holds 4 January, hence the year's first Thursday. */
  function FirstMonday(y: int): int {
    Monday(DaysBeforeYear(y) + 3)
  }

  lemma MondayIsMultiple(d: int) returns (k: int)
    ensures Monday(d) == 7 * k && 7 * k <= d < 7 * k + 7
  {
    k := d / 7;
  }

  lemma WeeksFromFirst(first: int, next: int, k: int)
    requires first <= 7 * k + 3 < next <= first + 366
    ensures 0 <= (7 * k + 3 - first) / 7 <= 52
    ensures Monday(first + 3) == 7 * (k - (7 * k + 3 - first) / 7)
    ensures 7 * k + 7 <= Monday(next + 3)
  {
    var w, r := (7 * k + 3 - first) / 7, (7 * k + 3 - first) % 7;
    var j := MondayIsMultiple(first + 3);
    assert first + 3 == 7 * (k - w) + (6 - r);
    var i := MondayIsMultiple(next + 3);
  }

  lemma ThursdayYear(d: int, k: int) returns (first: int, next: int)
    requires Monday(d) == 7 * k
    ensures first == DaysBeforeYear(IsoWeek(d).year) && next == DaysBeforeYear(IsoWeek(d).year + 1)
    ensures first <= 7 * k + 3 < next <= first + 366
    ensures IsoWeek(d).week == (7 * k + 3 - first) / 7 + 1
  {
    var y := YearOf(7 * k + 3);
    YearBounds(7 * k + 3);
    YearStep(y);
    return DaysBeforeYear(y), DaysBeforeYear(y + 1);
  }

  /**
   * `IsoWeek` meets section 2.2.10 of ISO 8601:2004: weeks begin on Monday and are
   * counted from the one that holds the year's first Thursday.
   */
  lemma IsoWeekCountsFromFirstThursday(d: int)
    ensures 1 <= IsoWeek(d).week <= 53
    ensures Monday(d) == FirstMonday(IsoWeek(d).year) + 7 * (IsoWeek(d).week - 1)
    ensures FirstMonday(IsoWeek(d).year) <= d < FirstMonday(IsoWeek(d).year + 1)
  {
    var k := MondayIsMultiple(d);
    var first, next := ThursdayYear(d, k);
    WeeksFromFirst(first, next, k);
  }

  /** Two days share an ISO week exactly when they share a Monday. */
  lemma SameWeek(d: int, e: int)
    ensures IsoWeek(d) == IsoWeek(e) <==> Monday(d) == Monday(e)
  {
    if IsoWeek(d) == IsoWeek(e) {
      IsoWeekCountsFromFirstThursday(d);
      IsoWeekCountsFromFirstThursday(e);
    }
  }

  // ----- Months

  function MonthStart(d: int): int {
    DayNumber(Date(YearOf(d), MonthOf(d), 1))
  }

  lemma MonthStartBounds(d: int)
    ensures MonthStart(d) <= d < MonthStart(d) + 31
  {
    YearBounds(d);
    MonthsAreShort(YearOf(d), MonthOf(d));
  }

  lemma MonthsAreShort(y: int, m: int)
    requires 1 <= m <= 12
    ensures DaysBeforeMonth(y, m + 1) <= DaysBeforeMonth(y, m) + 31
  {
  }

  lemma MonthStartIsFirst(d: int)
    ensures MonthStart(d) <= d < MonthStart(d) + 31
    ensures YearOf(MonthStart(d)) == YearOf(d) && MonthOf(MonthStart(d)) == MonthOf(d)
    ensures MonthStart(MonthStart(d)) == MonthStart(d)
    ensures CivilOf(MonthStart(d)) == Date(CivilOf(d).year, CivilOf(d).month, 1)
  {
    MonthStartBounds(d);
    DateRoundTrip(Date(YearOf(d), MonthOf(d), 1));
    FirstOfMonth(YearOf(d), MonthOf(d));
  }

  lemma FirstOfMonth(y: int, m: int)
    requires 1 <= m <= 12
    ensures YearOf(DayNumber(Date(y, m, 1))) == y && MonthOf(DayNumber(Date(y, m, 1))) == m
  {
    DateRoundTrip(Date(y, m, 1));
  }

  lemma FirstIsStart(d: int)
    ensures CivilOf(d).day == 1 <==> MonthStart(d) == d
  {
    DayRoundTrip(d);
    MonthStartIsFirst(d);
  }

  lemma SameMonth(d: int, e: int)
    ensures YearOf(d) == YearOf(e) && MonthOf(d) == MonthOf(e) <==> MonthStart(d) == MonthStart(e)
  {
    MonthStartIsFirst(d);
    MonthStartIsFirst(e);
  }

  lemma MonthsAreLong(y: int, m: int, n: int)
    requires 1 <= m < n <= 13
    ensures DaysBeforeMonth(y, m) + 28 <= DaysBeforeMonth(y, n)
  {
  }

  /** Distinct months start at least 28 days apart, in the order of their days. */
  lemma MonthsAreApart(d: int, e: int)
    requires d <= e
    ensures MonthStart(d) == MonthStart(e) || MonthStart(d) + 28 <= MonthStart(e)
  {
    DatesAreOrdered(d, e);
    if YearOf(d) != YearOf(e) || MonthOf(d) != MonthOf(e) {
      FirstsAreApart(YearOf(d), MonthOf(d), YearOf(e), MonthOf(e));
    }
  }

  lemma FirstsAreApart(y: int, m: int, z: int, n: int)
    requires 1 <= m <= 12 && 1 <= n <= 12
    requires y < z || (y == z && m < n)
    ensures DayNumber(Date(y, m, 1)) + 28 <= DayNumber(Date(z, n, 1))
  {
    if y == z {
      MonthsAreLong(y, m, n);
    } else {
      YearStep(y);
      YearsAreMonotone(y + 1, z);
      MonthsAreLong(y, m, 13);
    }
  }

  // ----- Keys

  /** `fmt.Sprintf("%d-W%02d", year, week)` */
  function WeekKey(d: int): string {
    Decimal.Format(IsoWeek(d).year, 0) + "-W" + Decimal.Format(IsoWeek(d).week, 2)
  }

  /** `fmt.Sprintf("%04d-%02d", year, month)` */
  function MonthKey(d: int): string {
    Decimal.Format(YearOf(d), 4) + "-" + Decimal.Format(MonthOf(d), 2)
  }

  lemma KeyParts(y: int, z: int, width: nat, middle: string, a: nat, b: nat)
    requires a < 100 && b < 100
    requires Decimal.Format(y, width) + middle + Decimal.Format(a, 2) == Decimal.Format(z, width) + middle + Decimal.Format(b, 2)
    ensures y == z && a == b
  {
    var fy, fz, fa, fb := Decimal.Format(y, width), Decimal.Format(z, width), Decimal.Format(a, 2), Decimal.Format(b, 2);
    var key := fy + middle + fa;
    Decimal.TwoDigits(a);
    Decimal.TwoDigits(b);
    assert |fy| == |fz|;
    assert fy == key[..|fy|] == fz;
    assert fa == key[|fy + middle|..] == fb;
    Decimal.ParseOfFormat(y, width);
    Decimal.ParseOfFormat(z, width);
    Decimal.ParseOfFormat(a, 2);
    Decimal.ParseOfFormat(b, 2);
  }

  /** Week keys tell weeks apart, across year ends too: equal keys, equal Mondays. */
  lemma WeekKeysNameMondays(d: int, e: int)
    ensures WeekKey(d) == WeekKey(e) <==> Monday(d) == Monday(e)
  {
    SameWeek(d, e);
    IsoWeekCountsFromFirstThursday(d);
    IsoWeekCountsFromFirstThursday(e);
    var v, w := IsoWeek(d), IsoWeek(e);
    if WeekKey(d) == WeekKey(e) {
      KeyParts(v.year, w.year, 0, "-W", v.week, w.week);
    }
  }

  /** Month keys tell months apart: equal keys, equal firsts of the month. */
  lemma MonthKeysNameFirsts(d: int, e: int)
    ensures MonthKey(d) == MonthKey(e) <==> MonthStart(d) == MonthStart(e)
  {
    SameMonth(d, e);
    if MonthKey(d) == MonthKey(e) {
      KeyParts(YearOf(d), YearOf(e), 4, "-", MonthOf(d), MonthOf(e));
    }
  }
}
