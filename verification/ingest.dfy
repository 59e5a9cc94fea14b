/** One symbol's ingest: label, deduplicate, roll up, trim, join, upsert. */
module Ingest {
  import opened Aggregation
  import opened CandleRepository
  import opened Candles
  import opened Common
  import opened Dedup
  import opened ExchangeTime

  datatype IngestError = TimezoneError | FetchError | Cancelled | WriteError(cause: CandleRepository.Error)

  function Labelled(s: seq<Candle>, code: string, interval: string): (r: seq<Candle>)
    ensures |r| == |s|
  {
    seq(|s|, i requires 0 <= i < |s| => s[i].(symbol := code, interval := interval))
  }

  function DailyBars(code: string, fetched: seq<Candle>): seq<Candle> {
    Deduped(Labelled(fetched, code, "1day"))
  }

  function WeeklyBars(loc: Location, daily: seq<Candle>): seq<Candle> {
    Trimmed(Grouped(Sorted(daily), WeekKeyFn(loc), WeekStartFn(loc)), daily, IsMonday(loc))
  }

  function MonthlyBars(loc: Location, daily: seq<Candle>): seq<Candle> {
    Trimmed(Grouped(Sorted(daily), MonthKeyFn(loc), MonthStartFn(loc)), daily, IsFirstOfMonth(loc))
  }

  function Join(code: string, daily: seq<Candle>, weekly: seq<Candle>, monthly: seq<Candle>): seq<Candle> {
    daily + Labelled(weekly, code, "1week") + Labelled(monthly, code, "1month")
  }

  function Joined(loc: Location, code: string, fetched: seq<Candle>): seq<Candle> {
    var daily := DailyBars(code, fetched);
    Join(code, daily, WeeklyBars(loc, daily), MonthlyBars(loc, daily))
  }

  /** What one ingest hands to the upsert. */
  function Batch(loc: Location, code: string, fetched: seq<Candle>): seq<Candle> {
    Deduped(Joined(loc, code, fetched))
  }

  lemma DailyBarsAreLabelled(code: string, fetched: seq<Candle>)
    ensures forall c | c in DailyBars(code, fetched) :: c.symbol == code && c.interval == "1day"
    ensures DistinctTimes(DailyBars(code, fetched))
  {
    var daily := DailyBars(code, fetched);
    DedupedKeys(Labelled(fetched, code, "1day"));
    forall i, j | 0 <= i < j < |daily| ensures daily[i].time != daily[j].time {
      assert daily[i] in daily && daily[j] in daily;
      assert DedupKey(daily[i]) != DedupKey(daily[j]);
    }
  }

  predicate Label3(c: Candle, code: string) {
    c.symbol == code && (c.interval == "1day" || c.interval == "1week" || c.interval == "1month")
  }

  lemma JoinIsLabelled(code: string, daily: seq<Candle>, weekly: seq<Candle>, monthly: seq<Candle>)
    requires forall c | c in daily :: c.symbol == code && c.interval == "1day"
    ensures forall c | c in Join(code, daily, weekly, monthly) :: Label3(c, code)
  {
    forall c | c in Join(code, daily, weekly, monthly) ensures Label3(c, code) {
      if c !in daily {
        assert c in Labelled(weekly, code, "1week") || c in Labelled(monthly, code, "1month");
      }
    }
  }

  lemma LabelledKeys(batch: seq<Candle>, code: string)
    requires forall c | c in batch :: Label3(c, code)
    ensures DistinctDedupKeys(batch) <==> DistinctKeys(batch)
  {
    forall i, j | 0 <= i < j < |batch| ensures DedupKey(batch[i]) != DedupKey(batch[j]) <==> KeyOf(batch[i]) != KeyOf(batch[j]) {
      assert Label3(batch[i], code) && Label3(batch[j], code);
      DedupKeyIsRowKey(batch[i], batch[j]);
    }
  }

  /** Keys are distinct in every batch, so the one statement never updates a row twice. */
  lemma BatchKeysAreDistinct(loc: Location, code: string, fetched: seq<Candle>)
    ensures DistinctKeys(Batch(loc, code, fetched))
    ensures forall c | c in Batch(loc, code, fetched) :: Label3(c, code)
  {
    var daily := DailyBars(code, fetched);
    DailyBarsAreLabelled(code, fetched);
    JoinIsLabelled(code, daily, WeeklyBars(loc, daily), MonthlyBars(loc, daily));
    DedupedKeys(Joined(loc, code, fetched));
    LabelledKeys(Batch(loc, code, fetched), code);
  }

  // ----- The use case

  class IngestUsecase {
    const repository: DbRepository

    constructor (repository: DbRepository)
      ensures this.repository == repository
    {
      this.repository := repository;
    }

    /**
     * `location`, `fetched`, `cancelled` and `fault` are what the time zone database, the
     * market API, the context and the database answer during the call.
     */
    method IngestOne(code: string, location: Option<Location>, fetched: Option<seq<Candle>>, cancelled: bool, fault: bool)
      returns (r: Result<(), IngestError>)
      modifies repository`candles
      ensures r.Success? <==>
              && location.Some? && fetched.Some? && !cancelled
              && (fetched.value == [] || (!fault && code in repository.zones))
      ensures r.Success? ==> repository.candles == Upserted(old(repository.candles), Batch(location.value, code, fetched.value))
      ensures r.Failure? ==> repository.candles == old(repository.candles)
      ensures r.Failure? && !r.error.WriteError? ==>
              r.error == if location.None? then TimezoneError else if fetched.None? then FetchError else Cancelled
      ensures r.Failure? && r.error.WriteError? ==> location.Some? && fetched.Some? && !cancelled
      ensures r != Failure(WriteError(SecondUpdateOfRow))
    {
      if location.None? {
        return Failure(TimezoneError);
      }
      var loc := location.value;
      if fetched.None? {
        return Failure(FetchError);
      }
      if cancelled {
        return Failure(Cancelled);
      }
      var daily := Label(fetched.value, code, "1day");
      daily := DedupCandles(daily);
      DailyBarsAreLabelled(code, fetched.value);

      var weekly := Aggregate(daily, WeekKeyFn(loc), WeekStartFn(loc));
      OnlyOneGrouping(weekly, daily, WeekKeyFn(loc), WeekStartFn(loc));
      weekly := TrimIncompleteFirstBucket(weekly, daily, IsMonday(loc));
      weekly := Label(weekly, code, "1week");

      var monthly := Aggregate(daily, MonthKeyFn(loc), MonthStartFn(loc));
      OnlyOneGrouping(monthly, daily, MonthKeyFn(loc), MonthStartFn(loc));
      monthly := TrimIncompleteFirstBucket(monthly, daily, IsFirstOfMonth(loc));
      monthly := Label(monthly, code, "1month");

      var all := DedupCandles(daily + weekly + monthly);
      BatchKeysAreDistinct(loc, code, fetched.value);
      BatchIsEmpty(loc, code, fetched.value);
      var written := repository.UpsertBatch(all, fault);
      if written.Failure? {
        assert all != [] && all[0] in all;
        return Failure(WriteError(written.error));
      }
      return Success(());
    }
  }

  method Label(s: seq<Candle>, code: string, interval: string) returns (r: seq<Candle>)
    ensures r == Labelled(s, code, interval)
  {
    r := s;
    for i := 0 to |r|
      invariant |r| == |s|
      invariant forall j | 0 <= j < |s| :: r[j] == if j < i then s[j].(symbol := code, interval := interval) else s[j]
    {
      r := r[i := r[i].(symbol := code)];
      r := r[i := r[i].(interval := interval)];
    }
  }

  lemma BatchIsEmpty(loc: Location, code: string, fetched: seq<Candle>)
    ensures Batch(loc, code, fetched) == [] <==> fetched == []
  {
    var daily, joined := DailyBars(code, fetched), Joined(loc, code, fetched);
    DedupedKeys(Labelled(fetched, code, "1day"));
    DedupedKeys(joined);
    if fetched != [] {
      var c := Labelled(fetched, code, "1day")[0];
      assert DedupKey(c) in KeySet(daily);
      assert daily != [];
      assert daily[0] in joined;
      assert DedupKey(daily[0]) in KeySet(Batch(loc, code, fetched));
    } else {
      assert Keys([], WeekKeyFn(loc)) == [] && Keys([], MonthKeyFn(loc)) == [];
      assert Sorted(daily) == [];
      assert joined == [];
    }
  }

  // ----- On tame days the second deduplication has nothing to do

  ghost predicate Increasing(s: seq<Candle>) {
    forall i, j | 0 <= i < j < |s| :: s[i].time < s[j].time
  }

  lemma TailIncreases(s: seq<Candle>)
    requires Increasing(s)
    ensures s != [] ==> Increasing(s[1..])
  {
  }

  lemma RollupIncreases(s: seq<Candle>, daily: seq<Candle>, keyFn: int -> string, startFn: int -> int, isBucketStart: int -> bool)
    requires ByTime(s) && KeysFollowTime(s, keyFn, startFn)
    ensures Increasing(Trimmed(Grouped(s, keyFn, startFn), daily, isBucketStart))
  {
    BucketTimesIncrease(s, keyFn, startFn);
    TailIncreases(Grouped(s, keyFn, startFn));
  }

  lemma SameBars(s: seq<Candle>, bars: seq<Candle>)
    requires multiset(s) == multiset(bars)
    ensures forall c :: c in s <==> c in bars
  {
    forall c ensures c in s <==> c in bars { assert c in multiset(s) <==> c in multiset(bars); }
  }

  /** Weekly and monthly bars come out strictly increasing in time. */
  lemma RollupsIncrease(loc: Location, daily: seq<Candle>)
    requires Tame(loc, daily)
    ensures Increasing(WeeklyBars(loc, daily)) && Increasing(MonthlyBars(loc, daily))
  {
    var s := Sorted(daily);
    SortedSorts(daily);
    SameBars(s, daily);
    WeekKeysFollowTime(loc, s);
    MonthKeysFollowTime(loc, s);
    RollupIncreases(s, daily, WeekKeyFn(loc), WeekStartFn(loc), IsMonday(loc));
    RollupIncreases(s, daily, MonthKeyFn(loc), MonthStartFn(loc), IsFirstOfMonth(loc));
  }

  lemma LabelledIsDistinct(s: seq<Candle>, code: string, interval: string)
    requires Increasing(s)
    ensures DistinctKeys(Labelled(s, code, interval))
  {
    var r := Labelled(s, code, interval);
    forall i, j | 0 <= i < j < |r| ensures KeyOf(r[i]) != KeyOf(r[j]) {
      assert s[i].time < s[j].time;
    }
  }

  lemma SumIsDistinct(s: seq<Candle>, t: seq<Candle>)
    requires DistinctKeys(s) && DistinctKeys(t)
    requires forall c, d | c in s && d in t :: c.interval != d.interval
    ensures DistinctKeys(s + t)
  {
    forall i, j | 0 <= i < j < |s + t| ensures KeyOf((s + t)[i]) != KeyOf((s + t)[j]) {
      if i < |s| <= j {
        assert s[i] in s && t[j - |s|] in t;
      }
    }
  }

  predicate AllHave(s: seq<Candle>, interval: string) {
    forall c | c in s :: c.interval == interval
  }

  lemma LabelledInterval(s: seq<Candle>, code: string, interval: string)
    ensures AllHave(Labelled(s, code, interval), interval)
  {
  }

  lemma LabelsDiffer(daily: seq<Candle>, weekly: seq<Candle>, monthly: seq<Candle>)
    requires AllHave(daily, "1day") && AllHave(weekly, "1week") && AllHave(monthly, "1month")
    ensures forall c, d | c in daily && d in weekly :: c.interval != d.interval
    ensures forall c, d | c in daily + weekly && d in monthly :: c.interval != d.interval
  {
    assert "1week"[1] != "1month"[1] && "1day"[1] != "1week"[1] && "1day"[1] != "1month"[1];
    forall c, d | c in daily + weekly && d in monthly ensures c.interval != d.interval {
      assert c in daily || c in weekly;
    }
  }

  /** The joined bars already have distinct keys: the batch is daily, weekly and monthly bars one after the other. */
  lemma SecondDedupIsIdentity(loc: Location, code: string, fetched: seq<Candle>)
    requires Tame(loc, DailyBars(code, fetched))
    ensures Batch(loc, code, fetched) == Joined(loc, code, fetched)
  {
    var daily := DailyBars(code, fetched);
    var weekly, monthly := Labelled(WeeklyBars(loc, daily), code, "1week"), Labelled(MonthlyBars(loc, daily), code, "1month");
    DailyBarsAreLabelled(code, fetched);
    RollupsIncrease(loc, daily);
    LabelledIsDistinct(WeeklyBars(loc, daily), code, "1week");
    LabelledIsDistinct(MonthlyBars(loc, daily), code, "1month");
    LabelledInterval(WeeklyBars(loc, daily), code, "1week");
    LabelledInterval(MonthlyBars(loc, daily), code, "1month");
    LabelsDiffer(daily, weekly, monthly);
    SumIsDistinct(daily, weekly);
    SumIsDistinct(daily + weekly, monthly);
    JoinIsLabelled(code, daily, WeeklyBars(loc, daily), MonthlyBars(loc, daily));
    LabelledKeys(Joined(loc, code, fetched), code);
    DistinctIsFixed(Joined(loc, code, fetched));
  }
}
