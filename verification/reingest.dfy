/** Ingesting any later part of a series again changes no row. */
module Reingest {
  import opened Aggregation
  import opened CandleRepository
  import opened Candles
  import opened Dedup
  import opened ExchangeTime
  import opened HeadTrim
  import opened Ingest

  // ----- Sets of bars

  lemma {:induction false} AtMostOnce(s: seq<Candle>, c: Candle)
    requires DistinctTimes(s)
    ensures multiset(s)[c] == if c in s then 1 else 0
    decreases |s|
  {
    if s != [] {
      HeadAndTail(s);
      AtMostOnce(s[1..], c);
      assert c in s <==> c == s[0] || c in s[1..];
    }
  }

  lemma SameMembersSameBag(s: seq<Candle>, t: seq<Candle>)
    requires DistinctTimes(s) && DistinctTimes(t)
    requires forall c :: c in s <==> c in t
    ensures multiset(s) == multiset(t)
  {
    forall c ensures multiset(s)[c] == multiset(t)[c] {
      AtMostOnce(s, c);
      AtMostOnce(t, c);
    }
  }

  lemma {:induction false} FirstNotBefore(s: seq<Candle>, from: int) returns (p: nat)
    requires ByTime(s)
    ensures p <= |s|
    ensures forall i | 0 <= i < p :: s[i].time < from
    ensures forall i | p <= i < |s| :: from <= s[i].time
    decreases |s|
  {
    if s == [] || s[|s| - 1].time < from {
      p := |s|;
      forall i | 0 <= i < p ensures s[i].time < from {
        assert s[i].time <= s[|s| - 1].time;
      }
    } else {
      var n := |s| - 1;
      p := FirstNotBefore(s[..n], from);
      forall i | 0 <= i < p ensures s[i].time < from { assert s[..n][i] == s[i]; }
      forall i | p <= i < |s| ensures from <= s[i].time {
        if i < n { assert s[..n][i] == s[i]; }
      }
    }
  }

  /** The sorted later part is a suffix of the sorted series. */
  lemma LaterPartIsSuffix(daily: seq<Candle>, later: seq<Candle>, from: int) returns (before: seq<Candle>)
    requires DistinctTimes(daily) && DistinctTimes(later)
    requires forall c :: c in later <==> c in daily && c.time >= from
    ensures Sorted(daily) == before + Sorted(later)
  {
    var s := Sorted(daily);
    SortedFacts(daily);
    var p := FirstNotBefore(s, from);
    before := s[..p];
    SuffixIsSorted(s, p, later, from);
    assert s == before + s[p..];
  }

  lemma SortedFacts(daily: seq<Candle>)
    requires DistinctTimes(daily)
    ensures ByTime(Sorted(daily)) && DistinctTimes(Sorted(daily))
    ensures forall c :: c in Sorted(daily) <==> c in daily
  {
    SortedSorts(daily);
    DistinctBag(Sorted(daily), daily);
    SameBars(Sorted(daily), daily);
  }

  lemma SuffixIsSorted(s: seq<Candle>, p: nat, later: seq<Candle>, from: int)
    requires ByTime(s) && DistinctTimes(s) && DistinctTimes(later)
    requires p <= |s| && forall c :: c in later <==> c in s && c.time >= from
    requires (forall i | 0 <= i < p :: s[i].time < from) && (forall i | p <= i < |s| :: from <= s[i].time)
    ensures s[p..] == Sorted(later)
  {
    LaterMembers(s, p, later, from);
    RestIsDistinct(s, p);
    SameMembersSameBag(s[p..], later);
    SortedIsTheSort(s[p..], later);
  }

  lemma RestIsDistinct(s: seq<Candle>, p: nat)
    requires p <= |s| && ByTime(s) && DistinctTimes(s)
    ensures ByTime(s[p..]) && DistinctTimes(s[p..])
  {
    assert forall i | 0 <= i < |s| - p :: s[p..][i] == s[i + p];
  }

  lemma LaterMembers(s: seq<Candle>, p: nat, later: seq<Candle>, from: int)
    requires p <= |s| && forall c :: c in later <==> c in s && c.time >= from
    requires (forall i | 0 <= i < p :: s[i].time < from) && (forall i | p <= i < |s| :: from <= s[i].time)
    ensures forall c :: c in s[p..] <==> c in later
  {
    forall c ensures c in s[p..] <==> c in later {
      if c in later {
        var i :| 0 <= i < |s| && s[i] == c;
        assert s[p..][i - p] == c;
      }
    }
  }

  // ----- Later parts roll up to nothing new

  lemma AssumptionsCarryOver(loc: Location, bars: seq<Candle>, some: seq<Candle>)
    requires Tame(loc, bars) && OneBarPerDay(loc, bars)
    requires forall c | c in some :: c in bars
    ensures Tame(loc, some) && OneBarPerDay(loc, some)
  {
  }

  lemma RollupsOfLaterPart(loc: Location, daily: seq<Candle>, later: seq<Candle>, from: int)
    requires DistinctTimes(daily) && DistinctTimes(later)
    requires forall c :: c in later <==> c in daily && c.time >= from
    requires Tame(loc, daily) && OneBarPerDay(loc, daily)
    ensures forall x | x in WeeklyBars(loc, later) :: x in WeeklyBars(loc, daily)
    ensures forall x | x in MonthlyBars(loc, later) :: x in MonthlyBars(loc, daily)
  {
    var s := Sorted(daily);
    var before := LaterPartIsSuffix(daily, later, from);
    SortedFacts(daily);
    SortedSorts(daily);
    SortedSorts(later);
    AssumptionsCarryOver(loc, daily, s);
    WeekKeysFollowTime(loc, s);
    MonthKeysFollowTime(loc, s);
    MondaysAreFirst(loc, s);
    FirstsAreFirst(loc, s);
    LaterPartAddsNothing(before, Sorted(later), daily, later, WeekKeyFn(loc), WeekStartFn(loc), IsMonday(loc));
    LaterPartAddsNothing(before, Sorted(later), daily, later, MonthKeyFn(loc), MonthStartFn(loc), IsFirstOfMonth(loc));
  }

  lemma LabelledMember(s: seq<Candle>, x: Candle, code: string, interval: string)
    requires x in s
    ensures x.(symbol := code, interval := interval) in Labelled(s, code, interval)
  {
    var i :| 0 <= i < |s| && s[i] == x;
    assert Labelled(s, code, interval)[i] == x.(symbol := code, interval := interval);
  }

  lemma LabelledSubset(s: seq<Candle>, t: seq<Candle>, code: string, interval: string)
    requires forall x | x in s :: x in t
    ensures forall c | c in Labelled(s, code, interval) :: c in Labelled(t, code, interval)
  {
    forall c | c in Labelled(s, code, interval) ensures c in Labelled(t, code, interval) {
      var i :| 0 <= i < |s| && Labelled(s, code, interval)[i] == c;
      assert s[i] in s;
      LabelledMember(t, s[i], code, interval);
    }
  }

  lemma BatchIsContained(t: Table, batch: seq<Candle>)
    requires DistinctKeys(batch)
    ensures forall c | c in batch :: Contains(Upserted(t, batch), c)
  {
    UpsertedRows(t, batch);
  }

  lemma JoinSubset(code: string, d: seq<Candle>, w: seq<Candle>, m: seq<Candle>, dd: seq<Candle>, ww: seq<Candle>, mm: seq<Candle>)
    requires forall c | c in d :: c in dd
    requires forall c | c in w :: c in ww
    requires forall c | c in m :: c in mm
    ensures forall c | c in Join(code, d, w, m) :: c in Join(code, dd, ww, mm)
  {
    LabelledSubset(w, ww, code, "1week");
    LabelledSubset(m, mm, code, "1month");
  }

  /**
   * If the first fetch held one bar per local day, a fetch of its bars from any moment
   * on, in any order and with any repetitions, writes only rows that are already there.
   */
  lemma ReingestChangesNothing(t: Table, loc: Location, code: string, first: seq<Candle>, again: seq<Candle>, from: int)
    requires Tame(loc, DailyBars(code, first)) && OneBarPerDay(loc, DailyBars(code, first))
    requires forall c :: c in DailyBars(code, again) <==> c in DailyBars(code, first) && c.time >= from
    ensures Upserted(Upserted(t, Batch(loc, code, first)), Batch(loc, code, again)) == Upserted(t, Batch(loc, code, first))
  {
    var daily, later := DailyBars(code, first), DailyBars(code, again);
    DailyBarsAreLabelled(code, first);
    DailyBarsAreLabelled(code, again);
    RollupsOfLaterPart(loc, daily, later, from);
    JoinSubset(code, later, WeeklyBars(loc, later), MonthlyBars(loc, later), daily, WeeklyBars(loc, daily), MonthlyBars(loc, daily));
    SecondDedupIsIdentity(loc, code, first);
    DedupedKeys(Joined(loc, code, again));
    BatchKeysAreDistinct(loc, code, first);
    BatchIsContained(t, Batch(loc, code, first));
    UpsertOfPresentRows(Upserted(t, Batch(loc, code, first)), Batch(loc, code, again));
  }

  // ----- The common case: the same response, cut off at the head

  function From(s: seq<Candle>, from: int): seq<Candle>
    decreases |s|
  {
    if s == [] then [] else
      var n := |s| - 1;
      From(s[..n], from) + if s[n].time >= from then [s[n]] else []
  }

  lemma {:induction false} LabelledFrom(s: seq<Candle>, from: int, code: string, interval: string)
    ensures From(Labelled(s, code, interval), from) == Labelled(From(s, from), code, interval)
    decreases |s|
  {
    if s != [] {
      var n := |s| - 1;
      assert Labelled(s, code, interval)[..n] == Labelled(s[..n], code, interval);
      LabelledFrom(s[..n], from, code, interval);
    }
  }

  lemma {:induction false} InFrom(s: seq<Candle>, from: int, c: Candle)
    ensures c in From(s, from) <==> c in s && c.time >= from
    decreases |s|
  {
    if s != [] {
      InFrom(s[..|s| - 1], from, c);
      assert s == s[..|s| - 1] + [s[|s| - 1]];
    }
  }

  lemma KeysFrom(s: seq<Candle>, from: int, code: string, c: Candle)
    requires forall d | d in s :: Label3(d, code)
    requires Label3(c, code) && c.time >= from
    ensures DedupKey(c) in KeySet(From(s, from)) <==> DedupKey(c) in KeySet(s)
  {
    forall d | d in s ensures DedupKey(d) == DedupKey(c) ==> d in From(s, from) {
      assert Label3(d, code);
      DedupKeyIsRowKey(c, d);
      InFrom(s, from, d);
    }
    forall d | d in From(s, from) ensures d in s { InFrom(s, from, d); }
  }

  lemma OneMore(s: seq<Candle>, c: Candle, from: int)
    ensures From(s + [c], from) == From(s, from) + if c.time >= from then [c] else []
    ensures Deduped(s + [c]) == Deduped(s) + if DedupKey(c) in KeySet(s) then [] else [c]
  {
    assert (s + [c])[..|s|] == s;
  }

  lemma DedupedFromStep(s: seq<Candle>, c: Candle, from: int, code: string)
    requires (forall d | d in s :: Label3(d, code)) && Label3(c, code)
    requires Deduped(From(s, from)) == From(Deduped(s), from)
    ensures Deduped(From(s + [c], from)) == From(Deduped(s + [c]), from)
  {
    var kept, deduped := From(s, from), Deduped(s);
    OneMore(s, c, from);
    OneMore(deduped, c, from);
    OneMore(kept, c, from);
    assert deduped + [] == deduped && kept + [] == kept;
    if c.time >= from {
      KeysFrom(s, from, code, c);
      assert From(s + [c], from) == kept + [c];
    } else {
      assert From(s + [c], from) == kept;
      assert From(deduped, from) + [] == From(deduped, from);
    }
  }

  lemma {:induction false} DedupedFrom(s: seq<Candle>, from: int, code: string)
    requires forall d | d in s :: Label3(d, code)
    ensures Deduped(From(s, from)) == From(Deduped(s), from)
    decreases |s|
  {
    if s != [] {
      var before, c := s[..|s| - 1], s[|s| - 1];
      assert s == before + [c];
      DedupedFrom(before, from, code);
      DedupedFromStep(before, c, from, code);
    }
  }

  /** Cutting a response off at the head, at any moment, is harmless. */
  lemma HeadlessResponseChangesNothing(t: Table, loc: Location, code: string, fetched: seq<Candle>, from: int)
    requires Tame(loc, DailyBars(code, fetched)) && OneBarPerDay(loc, DailyBars(code, fetched))
    ensures Upserted(Upserted(t, Batch(loc, code, fetched)), Batch(loc, code, From(fetched, from))) == Upserted(t, Batch(loc, code, fetched))
  {
    var all := Labelled(fetched, code, "1day");
    LabelledFrom(fetched, from, code, "1day");
    assert forall d | d in all :: Label3(d, code);
    DedupedFrom(all, from, code);
    forall c ensures c in DailyBars(code, From(fetched, from)) <==> c in DailyBars(code, fetched) && c.time >= from {
      InFrom(DailyBars(code, fetched), from, c);
    }
    ReingestChangesNothing(t, loc, code, fetched, From(fetched, from), from);
  }

  /**
   * What the trim is for: untrimmed, a bucket cut in two by the head of the later part
   * has the whole bucket's key but only the later bars' volume.
   */
  lemma CutBucketDiffers(before: seq<Candle>, later: seq<Candle>, keyFn: int -> string, startFn: int -> int, k: string)
    requires Bars(later, keyFn, k) != [] && KeysFollowTime(before + later, keyFn, startFn)
    ensures Bars(before + later, keyFn, k) != []
    ensures Bucket(Bars(before + later, keyFn, k), startFn).time == Bucket(Bars(later, keyFn, k), startFn).time
    ensures Bucket(Bars(before + later, keyFn, k), startFn).volume ==
            Volume(Bars(before, keyFn, k)) + Bucket(Bars(later, keyFn, k), startFn).volume
  {
    BarsOfSum(before, later, keyFn, k);
    VolumeOfSum(Bars(before, keyFn, k), Bars(later, keyFn, k));
    var whole := before + later;
    var c, d := Bars(whole, keyFn, k)[0], Bars(later, keyFn, k)[0];
    InBars(whole, keyFn, k, c);
    InBars(later, keyFn, k, d);
    assert d in whole;
    if c.time <= d.time { assert FollowsTime(c, d, keyFn, startFn); } else { assert FollowsTime(d, c, keyFn, startFn); }
  }
}
