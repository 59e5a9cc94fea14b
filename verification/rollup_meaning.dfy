/** What an ingest writes, in terms of days, weeks and months. */
module RollupMeaning {
  import opened Aggregation
  import opened Calendar
  import opened CandleRepository
  import opened Candles
  import opened Dedup
  import opened ExchangeTime
  import opened HeadTrim
  import opened Ingest
  import opened NextWindow

  // ----- Summaries of the bars of some days

  function WeekDays(monday: int): int -> bool {
    d => monday <= d < monday + 7
  }

  function MonthDays(year: int, month: int): int -> bool {
    d => CivilOf(d).year == year && CivilOf(d).month == month
  }

  predicate On(c: Candle, loc: Location, bars: seq<Candle>, days: int -> bool) {
    c in bars && days(loc.day(c.time))
  }

  function VolumeOn(loc: Location, bars: seq<Candle>, days: int -> bool): int
    decreases |bars|
  {
    if bars == [] then 0
    else VolumeOn(loc, bars[..|bars| - 1], days) + if days(loc.day(bars[|bars| - 1].time)) then bars[|bars| - 1].volume else 0
  }

  /** Open of the earliest bar of the days, close of the latest, greatest high, least low, all the volume. */
  ghost predicate Summarizes(x: Candle, loc: Location, bars: seq<Candle>, days: int -> bool) {
    && (exists e :: On(e, loc, bars, days) && (forall c | On(c, loc, bars, days) :: e.time <= c.time) && x.open == e.open)
    && (exists l :: On(l, loc, bars, days) && (forall c | On(c, loc, bars, days) :: c.time <= l.time) && x.close == l.close)
    && (forall c | On(c, loc, bars, days) :: x.low <= c.low && c.high <= x.high)
    && (exists c :: On(c, loc, bars, days) && c.high == x.high)
    && (exists c :: On(c, loc, bars, days) && c.low == x.low)
    && x.volume == VolumeOn(loc, bars, days)
  }

  /** There are bars on the days, and the oldest bar of all, if it is one of them, is on the first day. */
  ghost predicate IsWhole(loc: Location, bars: seq<Candle>, days: int -> bool, firstDay: int) {
    && (exists c :: On(c, loc, bars, days))
    && forall c | On(c, loc, bars, days) && (forall d | d in bars :: c.time <= d.time) :: loc.day(c.time) == firstDay
  }

  lemma {:induction false} VolumeOfKey(loc: Location, bars: seq<Candle>, keyFn: int -> string, k: string, days: int -> bool)
    requires forall c | c in bars :: keyFn(c.time) == k <==> days(loc.day(c.time))
    ensures Volume(Bars(bars, keyFn, k)) == VolumeOn(loc, bars, days)
    decreases |bars|
  {
    if bars != [] {
      var before, c := bars[..|bars| - 1], bars[|bars| - 1];
      assert bars == before + [c] && c in bars;
      VolumeOfKey(loc, before, keyFn, k, days);
      BarsOfMore(before, c, keyFn, k);
      VolumeOfSum(Bars(before, keyFn, k), if keyFn(c.time) == k then [c] else []);
      VolumeOfOne(c);
    }
  }

  lemma VolumeOfOne(c: Candle)
    ensures Volume([c]) == c.volume && Volume([]) == 0
  {
    assert [c][..0] == [];
  }

  lemma SummaryOfKey(loc: Location, bars: seq<Candle>, keyFn: int -> string, startFn: int -> int, k: string, days: int -> bool, x: Candle)
    requires SumsUp(x, bars, keyFn, startFn, k)
    requires forall c | c in bars :: keyFn(c.time) == k <==> days(loc.day(c.time))
    ensures Summarizes(x, loc, bars, days)
  {
    VolumeOfKey(loc, bars, keyFn, k, days);
    assert forall c :: InBucket(c, bars, keyFn, k) <==> On(c, loc, bars, days);
    var e :| Earliest(e, bars, keyFn, k) && x.time == startFn(e.time) && x.open == e.open;
    var l :| Latest(l, bars, keyFn, k) && x.close == l.close;
    assert On(e, loc, bars, days) && On(l, loc, bars, days);
  }

  // ----- One kind of bucket

  /** On a bar the key names the days; their bucket starts at the midnight of the first of them, and only that day is a start. */
  predicate NamesFor(loc: Location, c: Candle, keyFn: int -> string, startFn: int -> int, isBucketStart: int -> bool,
                     k: string, days: int -> bool, firstDay: int) {
    && (keyFn(c.time) == k <==> days(loc.day(c.time)))
    && (days(loc.day(c.time)) ==> startFn(c.time) == loc.midnight(firstDay))
    && (days(loc.day(c.time)) ==> (isBucketStart(c.time) <==> loc.day(c.time) == firstDay))
  }

  ghost predicate Names(loc: Location, bars: seq<Candle>, keyFn: int -> string, startFn: int -> int, isBucketStart: int -> bool,
                        k: string, days: int -> bool, firstDay: int) {
    forall c | c in bars :: NamesFor(loc, c, keyFn, startFn, isBucketStart, k, days, firstDay)
  }

  lemma HeadIsOldest(bars: seq<Candle>, s: seq<Candle>)
    requires SortOf(s, bars) && s != [] && DistinctTimes(s)
    ensures s[0] in bars && forall c | c in bars :: s[0].time <= c.time
    ensures forall c | c in bars && (forall d | d in bars :: c.time <= d.time) :: c == s[0]
  {
    SameBars(s, bars);
    assert s[0] in s;
    forall c | c in bars ensures s[0].time <= c.time && (c.time <= s[0].time ==> c == s[0]) {
      var i :| 0 <= i < |s| && s[i] == c;
    }
  }

  lemma KeptHasBars(loc: Location, bars: seq<Candle>, s: seq<Candle>, keyFn: int -> string, startFn: int -> int, isBucketStart: int -> bool,
                    k: string, days: int -> bool, firstDay: int)
    requires SortOf(s, bars) && Names(loc, bars, keyFn, startFn, isBucketStart, k, days, firstDay)
    ensures Bars(s, keyFn, k) != [] <==> exists c :: On(c, loc, bars, days)
  {
    BarsAreTheBucket(bars, s, keyFn, k);
    if Bars(s, keyFn, k) != [] {
      assert InBucket(Bars(s, keyFn, k)[0], bars, keyFn, k);
      assert On(Bars(s, keyFn, k)[0], loc, bars, days);
    }
    if c :| On(c, loc, bars, days) { assert InBucket(c, bars, keyFn, k); }
  }

  lemma KeptIsWhole(loc: Location, bars: seq<Candle>, s: seq<Candle>, keyFn: int -> string, startFn: int -> int, isBucketStart: int -> bool,
                    k: string, days: int -> bool, firstDay: int)
    requires SortOf(s, bars) && s != [] && DistinctTimes(s) && Names(loc, bars, keyFn, startFn, isBucketStart, k, days, firstDay)
    ensures Kept(s, keyFn, isBucketStart, k) <==> IsWhole(loc, bars, days, firstDay)
  {
    KeptHasBars(loc, bars, s, keyFn, startFn, isBucketStart, k, days, firstDay);
    HeadIsOldest(bars, s);
    assert NamesFor(loc, s[0], keyFn, startFn, isBucketStart, k, days, firstDay);
    assert On(s[0], loc, bars, days) <==> keyFn(s[0].time) == k;
  }

  lemma BucketMeans(loc: Location, bars: seq<Candle>, s: seq<Candle>, keyFn: int -> string, startFn: int -> int, isBucketStart: int -> bool,
                    k: string, days: int -> bool, firstDay: int)
    requires SortOf(s, bars) && s != [] && Bars(s, keyFn, k) != []
    requires Names(loc, bars, keyFn, startFn, isBucketStart, k, days, firstDay)
    ensures var x := Bucket(Bars(s, keyFn, k), startFn);
            x.time == loc.midnight(firstDay) && Summarizes(x, loc, bars, days)
  {
    var x := Bucket(Bars(s, keyFn, k), startFn);
    OneBucketSumsUp(bars, s, keyFn, startFn, k);
    assert forall c | c in bars :: NamesFor(loc, c, keyFn, startFn, isBucketStart, k, days, firstDay);
    SummaryOfKey(loc, bars, keyFn, startFn, k, days, x);
    BarsAreTheBucket(bars, s, keyFn, k);
    assert Bars(s, keyFn, k)[0] in Bars(s, keyFn, k);
  }

  // ----- Weeks

  lemma MondayOf(d: int, monday: int)
    requires Weekday(monday) == 1
    ensures Monday(monday) == monday && (Monday(d) == monday <==> monday <= d < monday + 7)
  {
    var m := MondayIsMultiple(monday);
    var k := MondayIsMultiple(d);
  }

  lemma WeekKeyNamesFor(loc: Location, bars: seq<Candle>, monday: int, c: Candle)
    requires Tame(loc, bars) && Weekday(monday) == 1 && c in bars
    ensures NamesFor(loc, c, WeekKeyFn(loc), WeekStartFn(loc), IsMonday(loc), WeekKey(monday), WeekDays(monday), monday)
  {
    MondayOf(loc.day(c.time), monday);
    WeekKeysNameMondays(loc.day(c.time), monday);
    WeekStartIsMonday(loc, bars, c);
    BucketDays(loc, c.time);
  }

  lemma WeekKeyNames(loc: Location, bars: seq<Candle>, monday: int)
    requires Tame(loc, bars) && Weekday(monday) == 1
    ensures Names(loc, bars, WeekKeyFn(loc), WeekStartFn(loc), IsMonday(loc), WeekKey(monday), WeekDays(monday), monday)
  {
    forall c | c in bars
      ensures NamesFor(loc, c, WeekKeyFn(loc), WeekStartFn(loc), IsMonday(loc), WeekKey(monday), WeekDays(monday), monday)
    {
      WeekKeyNamesFor(loc, bars, monday, c);
    }
  }

  ghost predicate IsWeek(loc: Location, bars: seq<Candle>, monday: int) {
    Weekday(monday) == 1 && IsWhole(loc, bars, WeekDays(monday), monday)
  }

  ghost predicate IsWeekly(x: Candle, loc: Location, bars: seq<Candle>, monday: int) {
    x.time == loc.midnight(monday) && Summarizes(x, loc, bars, WeekDays(monday))
  }

  lemma WeekOfKey(loc: Location, bars: seq<Candle>, s: seq<Candle>, k: string) returns (monday: int)
    requires Tame(loc, bars) && SortOf(s, bars) && DistinctTimes(s) && s != [] && Kept(s, WeekKeyFn(loc), IsMonday(loc), k)
    ensures IsWeek(loc, bars, monday) && IsWeekly(Bucket(Bars(s, WeekKeyFn(loc), k), WeekStartFn(loc)), loc, bars, monday)
  {
    var c := Bars(s, WeekKeyFn(loc), k)[0];
    InBars(s, WeekKeyFn(loc), k, c);
    monday := Monday(loc.day(c.time));
    MondayIsNear(loc.day(c.time));
    MondayOf(monday, monday);
    WeekKeysNameMondays(loc.day(c.time), monday);
    WeekKeyNames(loc, bars, monday);
    KeptIsWhole(loc, bars, s, WeekKeyFn(loc), WeekStartFn(loc), IsMonday(loc), k, WeekDays(monday), monday);
    BucketMeans(loc, bars, s, WeekKeyFn(loc), WeekStartFn(loc), IsMonday(loc), k, WeekDays(monday), monday);
  }

  lemma KeyOfWeek(loc: Location, bars: seq<Candle>, s: seq<Candle>, monday: int)
    requires Tame(loc, bars) && SortOf(s, bars) && DistinctTimes(s) && s != [] && IsWeek(loc, bars, monday)
    ensures Kept(s, WeekKeyFn(loc), IsMonday(loc), WeekKey(monday))
    ensures IsWeekly(Bucket(Bars(s, WeekKeyFn(loc), WeekKey(monday)), WeekStartFn(loc)), loc, bars, monday)
  {
    WeekKeyNames(loc, bars, monday);
    KeptIsWhole(loc, bars, s, WeekKeyFn(loc), WeekStartFn(loc), IsMonday(loc), WeekKey(monday), WeekDays(monday), monday);
    BucketMeans(loc, bars, s, WeekKeyFn(loc), WeekStartFn(loc), IsMonday(loc), WeekKey(monday), WeekDays(monday), monday);
  }

  lemma SortedHead(bars: seq<Candle>)
    requires DistinctTimes(bars) && bars != []
    ensures SortOf(Sorted(bars), bars) && Sorted(bars) != [] && DistinctTimes(Sorted(bars))
  {
    SortedSorts(bars);
    DistinctBag(Sorted(bars), bars);
    SameBars(Sorted(bars), bars);
    assert bars[0] in bars;
  }

  /**
   * The weekly bars are exactly the summaries of the weeks that have bars, stamped with
   * the midnight of their Monday, but for a week in which the oldest bar comes after Monday.
   */
  lemma WeeklyBarsMean(loc: Location, bars: seq<Candle>)
    requires Tame(loc, bars) && DistinctTimes(bars)
    ensures forall x | x in WeeklyBars(loc, bars) :: exists monday :: IsWeek(loc, bars, monday) && IsWeekly(x, loc, bars, monday)
    ensures forall monday | IsWeek(loc, bars, monday) :: exists x :: x in WeeklyBars(loc, bars) && IsWeekly(x, loc, bars, monday)
  {
    if bars != [] {
      var s := Sorted(bars);
      SortedHead(bars);
      TrimmedRows(s, bars, WeekKeyFn(loc), WeekStartFn(loc), IsMonday(loc));
      forall x | x in WeeklyBars(loc, bars) ensures exists monday :: IsWeek(loc, bars, monday) && IsWeekly(x, loc, bars, monday) {
        var k :| Kept(s, WeekKeyFn(loc), IsMonday(loc), k) && x == Bucket(Bars(s, WeekKeyFn(loc), k), WeekStartFn(loc));
        var monday := WeekOfKey(loc, bars, s, k);
      }
      forall monday | IsWeek(loc, bars, monday) ensures exists x :: x in WeeklyBars(loc, bars) && IsWeekly(x, loc, bars, monday) {
        KeyOfWeek(loc, bars, s, monday);
      }
    }
  }

  // ----- Months

  function FirstDay(year: int, month: int): int
    requires 1 <= month <= 12
  {
    DayNumber(Date(year, month, 1))
  }

  lemma FirstDayIsStart(year: int, month: int, d: int)
    requires 1 <= month <= 12
    ensures MonthStart(FirstDay(year, month)) == FirstDay(year, month)
    ensures MonthStart(d) == FirstDay(year, month) <==> CivilOf(d).year == year && CivilOf(d).month == month
  {
    DateRoundTrip(Date(year, month, 1));
    FirstIsStart(FirstDay(year, month));
    MonthStartIsFirst(d);
  }

  lemma MonthKeyNamesFor(loc: Location, year: int, month: int, c: Candle)
    requires 1 <= month <= 12
    ensures NamesFor(loc, c, MonthKeyFn(loc), MonthStartFn(loc), IsFirstOfMonth(loc), MonthKey(FirstDay(year, month)),
                     MonthDays(year, month), FirstDay(year, month))
  {
    FirstDayIsStart(year, month, loc.day(c.time));
    MonthKeysNameFirsts(loc.day(c.time), FirstDay(year, month));
    BucketDays(loc, c.time);
  }

  lemma MonthKeyNames(loc: Location, bars: seq<Candle>, year: int, month: int)
    requires 1 <= month <= 12
    ensures Names(loc, bars, MonthKeyFn(loc), MonthStartFn(loc), IsFirstOfMonth(loc), MonthKey(FirstDay(year, month)),
                  MonthDays(year, month), FirstDay(year, month))
  {
    forall c | c in bars
      ensures NamesFor(loc, c, MonthKeyFn(loc), MonthStartFn(loc), IsFirstOfMonth(loc), MonthKey(FirstDay(year, month)),
                       MonthDays(year, month), FirstDay(year, month))
    {
      MonthKeyNamesFor(loc, year, month, c);
    }
  }

  ghost predicate IsMonth(loc: Location, bars: seq<Candle>, year: int, month: int) {
    1 <= month <= 12 && IsWhole(loc, bars, MonthDays(year, month), FirstDay(year, month))
  }

  ghost predicate IsMonthly(x: Candle, loc: Location, bars: seq<Candle>, year: int, month: int) {
    1 <= month <= 12 && x.time == loc.midnight(FirstDay(year, month)) && Summarizes(x, loc, bars, MonthDays(year, month))
  }

  lemma MonthKeyOfFirst(d: int)
    ensures 1 <= CivilOf(d).month <= 12
    ensures MonthKey(d) == MonthKey(FirstDay(CivilOf(d).year, CivilOf(d).month))
  {
    MonthStartIsFirst(d);
    MonthKeysNameFirsts(d, MonthStart(d));
  }

  lemma MonthOfKey(loc: Location, bars: seq<Candle>, s: seq<Candle>, k: string) returns (year: int, month: int)
    requires SortOf(s, bars) && DistinctTimes(s) && s != [] && Kept(s, MonthKeyFn(loc), IsFirstOfMonth(loc), k)
    ensures IsMonth(loc, bars, year, month) && IsMonthly(Bucket(Bars(s, MonthKeyFn(loc), k), MonthStartFn(loc)), loc, bars, year, month)
  {
    var c := Bars(s, MonthKeyFn(loc), k)[0];
    InBars(s, MonthKeyFn(loc), k, c);
    MonthKeyOfFirst(loc.day(c.time));
    year, month := CivilOf(loc.day(c.time)).year, CivilOf(loc.day(c.time)).month;
    MonthKeyNames(loc, bars, year, month);
    KeptIsWhole(loc, bars, s, MonthKeyFn(loc), MonthStartFn(loc), IsFirstOfMonth(loc), k, MonthDays(year, month), FirstDay(year, month));
    BucketMeans(loc, bars, s, MonthKeyFn(loc), MonthStartFn(loc), IsFirstOfMonth(loc), k, MonthDays(year, month), FirstDay(year, month));
  }

  lemma KeyOfMonth(loc: Location, bars: seq<Candle>, s: seq<Candle>, year: int, month: int)
    requires SortOf(s, bars) && DistinctTimes(s) && s != [] && IsMonth(loc, bars, year, month)
    ensures Kept(s, MonthKeyFn(loc), IsFirstOfMonth(loc), MonthKey(FirstDay(year, month)))
    ensures IsMonthly(Bucket(Bars(s, MonthKeyFn(loc), MonthKey(FirstDay(year, month))), MonthStartFn(loc)), loc, bars, year, month)
  {
    var k := MonthKey(FirstDay(year, month));
    MonthKeyNames(loc, bars, year, month);
    KeptIsWhole(loc, bars, s, MonthKeyFn(loc), MonthStartFn(loc), IsFirstOfMonth(loc), k, MonthDays(year, month), FirstDay(year, month));
    BucketMeans(loc, bars, s, MonthKeyFn(loc), MonthStartFn(loc), IsFirstOfMonth(loc), k, MonthDays(year, month), FirstDay(year, month));
  }

  /**
   * The monthly bars are exactly the summaries of the months that have bars, stamped with
   * the midnight of their first day, but for a month in which the oldest bar comes later.
   */
  lemma MonthlyBarsMean(loc: Location, bars: seq<Candle>)
    requires DistinctTimes(bars)
    ensures forall x | x in MonthlyBars(loc, bars) ::
              exists year, month :: IsMonth(loc, bars, year, month) && IsMonthly(x, loc, bars, year, month)
    ensures forall year, month | IsMonth(loc, bars, year, month) ::
              exists x :: x in MonthlyBars(loc, bars) && IsMonthly(x, loc, bars, year, month)
  {
    if bars != [] {
      var s := Sorted(bars);
      SortedHead(bars);
      TrimmedRows(s, bars, MonthKeyFn(loc), MonthStartFn(loc), IsFirstOfMonth(loc));
      forall x | x in MonthlyBars(loc, bars)
        ensures exists year, month :: IsMonth(loc, bars, year, month) && IsMonthly(x, loc, bars, year, month)
      {
        var k :| Kept(s, MonthKeyFn(loc), IsFirstOfMonth(loc), k) && x == Bucket(Bars(s, MonthKeyFn(loc), k), MonthStartFn(loc));
        var year, month := MonthOfKey(loc, bars, s, k);
      }
      forall year, month | IsMonth(loc, bars, year, month)
        ensures exists x :: x in MonthlyBars(loc, bars) && IsMonthly(x, loc, bars, year, month)
      {
        KeyOfMonth(loc, bars, s, year, month);
      }
    }
  }

  // ----- Days

  /** The bar the market sent, labelled, if no earlier one has its time. */
  ghost predicate IsFirstSent(x: Candle, code: string, fetched: seq<Candle>, i: nat) {
    && i < |fetched| && x == fetched[i].(symbol := code, interval := "1day")
    && forall j | 0 <= j < i :: fetched[j].time != fetched[i].time
  }

  /** The daily bars are the fetched ones under the symbol's code, the first of each moment. */
  lemma DailyBarsMean(code: string, fetched: seq<Candle>)
    ensures forall x :: x in DailyBars(code, fetched) <==> exists i: nat :: IsFirstSent(x, code, fetched, i)
  {
    var all, daily := Labelled(fetched, code, "1day"), DailyBars(code, fetched);
    KeepsFirstOccurrences(all);
    forall i: nat | i < |all| ensures FirstOccurrence(all, i) <==> IsFirstSent(all[i], code, fetched, i) {
      forall j | 0 <= j < i ensures DedupKey(all[j]) == DedupKey(all[i]) <==> fetched[j].time == fetched[i].time {
        assert Label3(all[i], code) && Label3(all[j], code);
        DedupKeyIsRowKey(all[j], all[i]);
      }
    }
    var firsts := Firsts(all, |all|);
    forall x ensures x in daily <==> exists i: nat :: IsFirstSent(x, code, fetched, i) {
      if x in daily {
        var k :| 0 <= k < |daily| && daily[k] == x;
        assert firsts[k] in firsts;
        assert IsFirstSent(x, code, fetched, firsts[k]);
      }
      if i: nat :| IsFirstSent(x, code, fetched, i) {
        assert all[i] == x && i in firsts;
        var k :| 0 <= k < |firsts| && firsts[k] == i;
        assert daily[k] == x;
      }
    }
  }

  // ----- The table

  /** The bar's columns stand under its moment, the symbol's code and the interval. */
  predicate Stored(t: Table, x: Candle, code: string, interval: string) {
    var k := RowKey(code, interval, x.time);
    k in t && t[k].open == x.open && t[k].high == x.high && t[k].low == x.low && t[k].close == x.close && t[k].volume == x.volume
  }

  lemma StoredRow(t: Table, batch: seq<Candle>, x: Candle, code: string, interval: string)
    requires DistinctKeys(batch) && x.(symbol := code, interval := interval) in batch
    ensures Stored(Upserted(t, batch), x, code, interval)
  {
    UpsertedAt(t, batch, RowKey(code, interval, x.time));
    assert Contains(Upserted(t, batch), x.(symbol := code, interval := interval));
  }

  /** The rows an ingest of these daily bars is about. */
  ghost predicate Writes(loc: Location, code: string, daily: seq<Candle>, k: RowKey) {
    && k.symbol == code
    && (|| (k.interval == "1day" && HasTime(daily, k.time))
        || (k.interval == "1week" && HasTime(WeeklyBars(loc, daily), k.time))
        || (k.interval == "1month" && HasTime(MonthlyBars(loc, daily), k.time)))
  }

  /** A successful ingest stores the daily, weekly and monthly bars. */
  lemma IngestStores(t: Table, loc: Location, code: string, fetched: seq<Candle>)
    requires Tame(loc, DailyBars(code, fetched))
    ensures var u, daily := Upserted(t, Batch(loc, code, fetched)), DailyBars(code, fetched);
            && (forall x | x in daily :: Stored(u, x, code, "1day"))
            && (forall x | x in WeeklyBars(loc, daily) :: Stored(u, x, code, "1week"))
            && (forall x | x in MonthlyBars(loc, daily) :: Stored(u, x, code, "1month"))
  {
    var u, daily, batch := Upserted(t, Batch(loc, code, fetched)), DailyBars(code, fetched), Batch(loc, code, fetched);
    SecondDedupIsIdentity(loc, code, fetched);
    BatchKeysAreDistinct(loc, code, fetched);
    DailyBarsAreLabelled(code, fetched);
    JoinedRows(loc, code, fetched);
    forall x | x in daily ensures Stored(u, x, code, "1day") {
      assert x.(symbol := code, interval := "1day") == x;
      StoredRow(t, batch, x, code, "1day");
    }
    forall x | x in WeeklyBars(loc, daily) ensures Stored(u, x, code, "1week") { StoredRow(t, batch, x, code, "1week"); }
    forall x | x in MonthlyBars(loc, daily) ensures Stored(u, x, code, "1month") { StoredRow(t, batch, x, code, "1month"); }
  }

  /** It touches no other row. */
  lemma IngestTouchesNoOther(t: Table, loc: Location, code: string, fetched: seq<Candle>, k: RowKey)
    requires Tame(loc, DailyBars(code, fetched)) && !Writes(loc, code, DailyBars(code, fetched), k)
    ensures var u := Upserted(t, Batch(loc, code, fetched)); (k in u <==> k in t) && (k in t ==> u[k] == t[k])
  {
    SecondDedupIsIdentity(loc, code, fetched);
    BatchKeysAreDistinct(loc, code, fetched);
    UpsertedAt(t, Batch(loc, code, fetched), k);
    UnwrittenKey(loc, code, fetched, k);
  }

  lemma UnwrittenKey(loc: Location, code: string, fetched: seq<Candle>, k: RowKey)
    requires !Writes(loc, code, DailyBars(code, fetched), k)
    ensures !HasKey(Joined(loc, code, fetched), k)
  {
    var daily := DailyBars(code, fetched);
    DailyBarsAreLabelled(code, fetched);
    JoinIsLabelled(code, daily, WeeklyBars(loc, daily), MonthlyBars(loc, daily));
    forall z | z in Joined(loc, code, fetched) ensures Writes(loc, code, daily, KeyOf(z)) {
      assert Label3(z, code);
      RolledUpBars(code, daily, WeeklyBars(loc, daily), MonthlyBars(loc, daily), z);
      if z.interval == "1day" { DailyOrRolledUp(code, daily, WeeklyBars(loc, daily), MonthlyBars(loc, daily), z); }
    }
  }

  lemma DailyOrRolledUp(code: string, daily: seq<Candle>, weekly: seq<Candle>, monthly: seq<Candle>, z: Candle)
    requires z in Join(code, daily, weekly, monthly) && z.interval == "1day"
    ensures z in daily
  {
    assert "1week"[1] != "1day"[1] && "1day"[1] != "1month"[1];
    LabelledInterval(weekly, code, "1week");
    LabelledInterval(monthly, code, "1month");
    assert z in daily || z in Labelled(weekly, code, "1week") || z in Labelled(monthly, code, "1month");
  }
}
