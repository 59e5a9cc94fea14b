/** Weeks and months as an exchange's local calendar sees them. */
module ExchangeTime {
  import opened Aggregation
  import opened Calendar
  import opened Candles

  /**
   * A time zone: the local day of an instant, the instant `AddDate(0, 0, n)` leads to,
   * and the instant `time.Date` gives for the start of a day.
   */
  datatype Location = Location(day: int -> int, addDays: (int, int) -> int, midnight: int -> int)

  function WeekKeyFn(loc: Location): int -> string {
    t => WeekKey(loc.day(t))
  }

  function DaysSinceMonday(d: int): int {
    (if Weekday(d) == 0 then 7 else Weekday(d)) - 1
  }

  function WeekStart(loc: Location, t: int): int {
    var monday := loc.addDays(t, -DaysSinceMonday(loc.day(t)));
    loc.midnight(loc.day(monday))
  }

  function WeekStartFn(loc: Location): int -> int {
    t => WeekStart(loc, t)
  }

  function MonthKeyFn(loc: Location): int -> string {
    t => MonthKey(loc.day(t))
  }

  function MonthStartFn(loc: Location): int -> int {
    t => loc.midnight(MonthStart(loc.day(t)))
  }

  function IsMonday(loc: Location): int -> bool {
    t => Weekday(loc.day(t)) == 1
  }

  function IsFirstOfMonth(loc: Location): int -> bool {
    t => CivilOf(loc.day(t)).day == 1
  }

  // ----- What is assumed of a zone

  /** No time zone ever moved by a week, so days that far apart have midnights in their order. */
  ghost predicate MidnightsAreOrdered(loc: Location) {
    forall d, e {:trigger loc.midnight(d), loc.midnight(e)} | d + 7 <= e :: loc.midnight(d) < loc.midnight(e)
  }

  ghost predicate DaysAreOrdered(loc: Location, bars: seq<Candle>) {
    forall c, d | c in bars && d in bars && c.time <= d.time :: loc.day(c.time) <= loc.day(d.time)
  }

  /** Stepping back to Monday lands on the day it names; a step into a clock change can miss it. */
  ghost predicate StepsLand(loc: Location, bars: seq<Candle>) {
    forall c, n {:trigger loc.addDays(c.time, n)} | c in bars && -6 <= n <= 0 :: loc.day(loc.addDays(c.time, n)) == loc.day(c.time) + n
  }

  ghost predicate Tame(loc: Location, bars: seq<Candle>) {
    MidnightsAreOrdered(loc) && DaysAreOrdered(loc, bars) && StepsLand(loc, bars)
  }

  ghost predicate OneBarPerDay(loc: Location, bars: seq<Candle>) {
    forall c, d | c in bars && d in bars && loc.day(c.time) == loc.day(d.time) :: c == d
  }

  const EPOCH := DayNumber(Date(1970, 1, 1))

  /** A zone without clock changes, `offset` seconds ahead of UTC. */
  function FixedOffset(offset: int): Location {
    Location(
      t => (t + offset) / 86400 + EPOCH,
      (t: int, n: int) => t + 86400 * n,
      d => 86400 * (d - EPOCH) - offset)
  }

  /** The assumptions hold of every zone without clock changes. */
  lemma FixedOffsetIsTame(offset: int, bars: seq<Candle>)
    ensures Tame(FixedOffset(offset), bars)
  {
    var loc := FixedOffset(offset);
    assert MidnightsAreOrdered(loc);
    assert StepsLand(loc, bars) by {
      forall c, n {:trigger loc.addDays(c.time, n)} | c in bars && -6 <= n <= 0 ensures loc.day(loc.addDays(c.time, n)) == loc.day(c.time) + n {
        WholeDays(c.time + offset, n);
      }
    }
    assert DaysAreOrdered(loc, bars) by {
      forall c, d | c in bars && d in bars && c.time <= d.time ensures loc.day(c.time) <= loc.day(d.time) {
        DaysGrow(c.time + offset, d.time + offset);
      }
    }
  }

  /** In UTC the Unix epoch falls on day 719162, which is 1 January 1970. */
  lemma EpochInUtc(t: int)
    requires 0 <= t < 86400
    ensures FixedOffset(0).day(t) == 719162
  {
    assert DayNumber(Date(1970, 1, 1)) == 719162;
  }

  /** Midnights are where the days begin. */
  lemma DaysBeginAtMidnight(offset: int, d: int)
    ensures var loc := FixedOffset(offset); loc.day(loc.midnight(d)) == d && loc.day(loc.midnight(d) - 1) == d - 1
  {
    WholeDays(0, d - EPOCH);
    WholeDays(-1, d - EPOCH);
  }

  lemma WholeDays(t: int, n: int)
    ensures (t + 86400 * n) / 86400 == t / 86400 + n
  {
  }

  lemma DaysGrow(t: int, u: int)
    requires t <= u
    ensures t / 86400 <= u / 86400
  {
  }

  // ----- Keys and starts agree

  lemma StepBackIsMonday(d: int)
    ensures 0 <= DaysSinceMonday(d) <= 6
    ensures d - DaysSinceMonday(d) == Monday(d)
    ensures Weekday(d) == 1 <==> Monday(d) == d
  {
  }

  lemma WeekStartIsMonday(loc: Location, bars: seq<Candle>, c: Candle)
    requires Tame(loc, bars) && c in bars
    ensures WeekStartFn(loc)(c.time) == loc.midnight(Monday(loc.day(c.time)))
  {
    var d := loc.day(c.time);
    StepBackIsMonday(d);
    StepLands(loc, bars, c, -DaysSinceMonday(d));
    assert WeekStart(loc, c.time) == loc.midnight(Monday(d));
  }

  lemma StepLands(loc: Location, bars: seq<Candle>, c: Candle, back: int)
    requires StepsLand(loc, bars) && c in bars && -6 <= back <= 0
    ensures loc.day(loc.addDays(c.time, back)) == loc.day(c.time) + back
  {
  }

  /** A bucket starts on the Monday of its week, or on the first of its month, and on no other day. */
  lemma BucketDays(loc: Location, t: int)
    ensures IsMonday(loc)(t) <==> loc.day(t) == Monday(loc.day(t))
    ensures IsFirstOfMonth(loc)(t) <==> loc.day(t) == MonthStart(loc.day(t))
  {
    StepBackIsMonday(loc.day(t));
    FirstIsStart(loc.day(t));
  }

  lemma MondaysAreApart(d: int, e: int)
    requires d <= e
    ensures Monday(d) == Monday(e) || Monday(d) + 7 <= Monday(e)
  {
    var i := MondayIsMultiple(d);
    var j := MondayIsMultiple(e);
  }

  /** Equal week keys mean equal starts, and later weeks start later. */
  lemma WeekKeysFollowTime(loc: Location, bars: seq<Candle>)
    requires Tame(loc, bars)
    ensures KeysFollowTime(bars, WeekKeyFn(loc), WeekStartFn(loc))
  {
    forall c, d | c in bars && d in bars && c.time <= d.time ensures FollowsTime(c, d, WeekKeyFn(loc), WeekStartFn(loc)) {
      var x, y := loc.day(c.time), loc.day(d.time);
      WeekKeysNameMondays(x, y);
      MondaysAreApart(x, y);
      WeekStartIsMonday(loc, bars, c);
      WeekStartIsMonday(loc, bars, d);
    }
  }

  /** Equal month keys mean equal starts, and later months start later. */
  lemma MonthKeysFollowTime(loc: Location, bars: seq<Candle>)
    requires Tame(loc, bars)
    ensures KeysFollowTime(bars, MonthKeyFn(loc), MonthStartFn(loc))
  {
    forall c, d | c in bars && d in bars && c.time <= d.time ensures FollowsTime(c, d, MonthKeyFn(loc), MonthStartFn(loc)) {
      var x, y := loc.day(c.time), loc.day(d.time);
      MonthKeysNameFirsts(x, y);
      MonthsAreApart(x, y);
    }
  }

  // ----- A bar on the first day of a bucket has no earlier company

  /** No bar is both earlier than a bucket-start bar and in its bucket. */
  ghost predicate StartsAreFirst(bars: seq<Candle>, keyFn: int -> string, isBucketStart: int -> bool) {
    forall c, d | c in bars && d in bars && c.time < d.time && isBucketStart(d.time) :: keyFn(c.time) != keyFn(d.time)
  }

  lemma MondaysAreFirst(loc: Location, bars: seq<Candle>)
    requires Tame(loc, bars) && OneBarPerDay(loc, bars)
    ensures StartsAreFirst(bars, WeekKeyFn(loc), IsMonday(loc))
  {
    forall c, d | c in bars && d in bars && c.time < d.time && IsMonday(loc)(d.time)
      ensures WeekKeyFn(loc)(c.time) != WeekKeyFn(loc)(d.time)
    {
      var x, y := loc.day(c.time), loc.day(d.time);
      WeekKeysNameMondays(x, y);
      StepBackIsMonday(y);
      var k := MondayIsMultiple(x);
    }
  }

  lemma FirstsAreFirst(loc: Location, bars: seq<Candle>)
    requires Tame(loc, bars) && OneBarPerDay(loc, bars)
    ensures StartsAreFirst(bars, MonthKeyFn(loc), IsFirstOfMonth(loc))
  {
    forall c, d | c in bars && d in bars && c.time < d.time && IsFirstOfMonth(loc)(d.time)
      ensures MonthKeyFn(loc)(c.time) != MonthKeyFn(loc)(d.time)
    {
      var x, y := loc.day(c.time), loc.day(d.time);
      MonthKeysNameFirsts(x, y);
      MonthStartIsFirst(x);
      DayRoundTrip(y);
      assert CivilOf(y) == Date(YearOf(y), MonthOf(y), 1);
    }
  }
}
