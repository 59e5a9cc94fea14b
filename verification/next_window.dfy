/**
 * Two overlapping ingests that amount to one.
 * Two ingests of overlapping windows, the second starting and ending later, leave the table as one ingest of
 * everything they held would: the earlier window supplies what the later one trims at its head, and the later one
 * completes what the earlier one cut at its tail.
 */
module NextWindow {
  import opened Aggregation
  import opened CandleRepository
  import opened Candles
  import opened ExchangeTime
  import opened HeadTrim
  import opened Ingest
  import opened Reingest

  // ----- One series, cut twice: u == s + after == before + w

  /**
   * The later window's first bucket, if it is cut and the whole keeps it, is all in the
   * earlier window.
   */
  ghost predicate HeadIsSafe(u: seq<Candle>, w: seq<Candle>, to: int, keyFn: int -> string, isBucketStart: int -> bool) {
    || w == [] || isBucketStart(w[0].time) || !Kept(u, keyFn, isBucketStart, keyFn(w[0].time))
    || forall c | c in w && keyFn(c.time) == keyFn(w[0].time) :: c.time <= to
  }

  ghost predicate Cut(s: seq<Candle>, after: seq<Candle>, before: seq<Candle>, w: seq<Candle>, to: int) {
    && s + after == before + w && |before| <= |s|
    && (forall c | c in s :: c.time <= to) && (forall c | c in after :: to < c.time)
  }

  lemma AfterIsLater(s: seq<Candle>, after: seq<Candle>, before: seq<Candle>, w: seq<Candle>, to: int)
    requires Cut(s, after, before, w, to)
    ensures forall c | c in after :: c in w
  {
    forall c | c in after ensures c in w {
      var i :| 0 <= i < |after| && after[i] == c;
      assert (s + after)[|s| + i] == c;
      assert (before + w)[|s| + i] == w[|s| + i - |before|];
    }
  }

  /** A bucket that the later window does not keep, or does not have, is all in the earlier one. */
  lemma NotKeptIsEarlier(s: seq<Candle>, after: seq<Candle>, before: seq<Candle>, w: seq<Candle>, to: int,
                         keyFn: int -> string, isBucketStart: int -> bool, k: string)
    requires Cut(s, after, before, w, to) && HeadIsSafe(s + after, w, to, keyFn, isBucketStart)
    requires Kept(s + after, keyFn, isBucketStart, k) && (w == [] || !Kept(w, keyFn, isBucketStart, k))
    ensures Bars(s + after, keyFn, k) == Bars(s, keyFn, k)
  {
    AfterIsLater(s, after, before, w, to);
    forall c | c in after ensures keyFn(c.time) != k {
      if keyFn(c.time) == k { InBars(w, keyFn, k, c); }
    }
    NoBars(after, keyFn, k);
    BarsOfSum(s, after, keyFn, k);
  }

  /** What the whole keeps, one of the two windows keeps with all its bars. */
  lemma OneWindowHasIt(s: seq<Candle>, after: seq<Candle>, before: seq<Candle>, w: seq<Candle>, to: int,
                       keyFn: int -> string, startFn: int -> int, isBucketStart: int -> bool, k: string)
    requires Cut(s, after, before, w, to) && HeadIsSafe(s + after, w, to, keyFn, isBucketStart)
    requires ByTime(before + w) && DistinctTimes(before + w)
    requires KeysFollowTime(before + w, keyFn, startFn) && StartsAreFirst(before + w, keyFn, isBucketStart)
    requires s + after != [] && Kept(s + after, keyFn, isBucketStart, k)
    ensures (w != [] && Kept(w, keyFn, isBucketStart, k) && Bars(w, keyFn, k) == Bars(s + after, keyFn, k))
         || (s != [] && Kept(s, keyFn, isBucketStart, k) && Bars(s, keyFn, k) == Bars(s + after, keyFn, k))
  {
    if w != [] && Kept(w, keyFn, isBucketStart, k) {
      KeptBucketsAreWhole(before, w, keyFn, startFn, isBucketStart, k);
    } else {
      NotKeptIsEarlier(s, after, before, w, to, keyFn, isBucketStart, k);
      assert (s + after)[0] == s[0];
    }
  }

  /** What the earlier window keeps, the whole keeps at the same time. */
  lemma EarlierIsKept(s: seq<Candle>, after: seq<Candle>, keyFn: int -> string, isBucketStart: int -> bool, k: string)
    requires s != [] && Kept(s, keyFn, isBucketStart, k)
    ensures Kept(s + after, keyFn, isBucketStart, k)
    ensures Bars(s + after, keyFn, k) != [] && Bars(s + after, keyFn, k)[0] == Bars(s, keyFn, k)[0]
  {
    BarsOfSum(s, after, keyFn, k);
    assert (s + after)[0] == s[0];
  }

  // ----- The rolled-up bars

  lemma RowsOfWhole(s: seq<Candle>, after: seq<Candle>, before: seq<Candle>, w: seq<Candle>, to: int,
                    first: seq<Candle>, later: seq<Candle>, whole: seq<Candle>,
                    keyFn: int -> string, startFn: int -> int, isBucketStart: int -> bool)
    requires Cut(s, after, before, w, to) && HeadIsSafe(s + after, w, to, keyFn, isBucketStart)
    requires SortOf(s, first) && SortOf(w, later) && SortOf(s + after, whole) && DistinctTimes(s + after)
    requires KeysFollowTime(s + after, keyFn, startFn) && StartsAreFirst(s + after, keyFn, isBucketStart)
    ensures forall x | x in Trimmed(Grouped(s + after, keyFn, startFn), whole, isBucketStart) ::
              || x in Trimmed(Grouped(w, keyFn, startFn), later, isBucketStart)
              || x in Trimmed(Grouped(s, keyFn, startFn), first, isBucketStart)
  {
    var u := s + after;
    if u != [] {
      TrimmedRows(u, whole, keyFn, startFn, isBucketStart);
      if s != [] { TrimmedRows(s, first, keyFn, startFn, isBucketStart); }
      if w != [] { TrimmedRows(w, later, keyFn, startFn, isBucketStart); }
      forall x | x in Trimmed(Grouped(u, keyFn, startFn), whole, isBucketStart)
        ensures x in Trimmed(Grouped(w, keyFn, startFn), later, isBucketStart) || x in Trimmed(Grouped(s, keyFn, startFn), first, isBucketStart)
      {
        var k :| Kept(u, keyFn, isBucketStart, k) && x == Bucket(Bars(u, keyFn, k), startFn);
        OneWindowHasIt(s, after, before, w, to, keyFn, startFn, isBucketStart, k);
      }
    }
  }

  predicate HasTime(s: seq<Candle>, time: int) {
    exists c :: c in s && c.time == time
  }

  lemma TimesOfEarlier(s: seq<Candle>, after: seq<Candle>, first: seq<Candle>, whole: seq<Candle>,
                       keyFn: int -> string, startFn: int -> int, isBucketStart: int -> bool)
    requires SortOf(s, first) && SortOf(s + after, whole)
    ensures forall x | x in Trimmed(Grouped(s, keyFn, startFn), first, isBucketStart) ::
              HasTime(Trimmed(Grouped(s + after, keyFn, startFn), whole, isBucketStart), x.time)
  {
    var u := s + after;
    if s != [] {
      TrimmedRows(s, first, keyFn, startFn, isBucketStart);
      TrimmedRows(u, whole, keyFn, startFn, isBucketStart);
      forall x | x in Trimmed(Grouped(s, keyFn, startFn), first, isBucketStart)
        ensures HasTime(Trimmed(Grouped(u, keyFn, startFn), whole, isBucketStart), x.time)
      {
        var k :| Kept(s, keyFn, isBucketStart, k) && x == Bucket(Bars(s, keyFn, k), startFn);
        EarlierIsKept(s, after, keyFn, isBucketStart, k);
        assert Bucket(Bars(u, keyFn, k), startFn).time == x.time;
      }
    }
  }

  // ----- The windows' daily bars

  /** The sorted earlier part is a prefix of the sorted series. */
  lemma EarlierPartIsPrefix(daily: seq<Candle>, first: seq<Candle>, to: int) returns (after: seq<Candle>)
    requires DistinctTimes(daily) && DistinctTimes(first)
    requires forall c :: c in first <==> c in daily && c.time <= to
    ensures Sorted(daily) == Sorted(first) + after
    ensures forall c | c in after :: to < c.time
  {
    var s := Sorted(daily);
    SortedFacts(daily);
    var p := FirstNotBefore(s, to + 1);
    after := s[p..];
    PrefixIsSorted(s, p, first, to);
    assert s == s[..p] + after;
  }

  lemma PrefixIsSorted(s: seq<Candle>, p: nat, first: seq<Candle>, to: int)
    requires ByTime(s) && DistinctTimes(s) && DistinctTimes(first)
    requires p <= |s| && forall c :: c in first <==> c in s && c.time <= to
    requires (forall i | 0 <= i < p :: s[i].time <= to) && (forall i | p <= i < |s| :: to < s[i].time)
    ensures s[..p] == Sorted(first)
  {
    forall c ensures c in s[..p] <==> c in first {
      if c in first {
        var i :| 0 <= i < |s| && s[i] == c;
        assert s[..p][i] == c;
      }
    }
    assert forall i | 0 <= i < p :: s[..p][i] == s[i];
    SameMembersSameBag(s[..p], first);
    SortedIsTheSort(s[..p], first);
  }

  /** `whole` is what the windows hold together: one ends at `to`, the other starts at `from`. */
  ghost predicate Windows(first: seq<Candle>, later: seq<Candle>, whole: seq<Candle>, from: int, to: int) {
    && DistinctTimes(first) && DistinctTimes(later) && DistinctTimes(whole)
    && (forall c :: c in first <==> c in whole && c.time <= to)
    && (forall c :: c in later <==> c in whole && c.time >= from)
    && (forall c | c in whole :: c.time <= to || c.time >= from)
  }

  lemma WindowsCut(first: seq<Candle>, later: seq<Candle>, whole: seq<Candle>, from: int, to: int)
      returns (after: seq<Candle>, before: seq<Candle>)
    requires Windows(first, later, whole, from, to)
    ensures Cut(Sorted(first), after, before, Sorted(later), to) && Sorted(whole) == Sorted(first) + after
  {
    after := EarlierPartIsPrefix(whole, first, to);
    before := LaterPartIsSuffix(whole, later, from);
    SortedFacts(first);
    SortedFacts(later);
    SortedFacts(whole);
    var u, s, w := Sorted(whole), Sorted(first), Sorted(later);
    PartsAreDisjoint(before, w);
    forall c | c in before ensures c.time <= to {
      assert c in u && c in whole;
      assert c.time >= from ==> c in w;
    }
    assert u == before + w;
    PartsOverlap(s, after, before, w, to);
  }

  lemma PlaceInBoth(s: seq<Candle>, after: seq<Candle>, before: seq<Candle>, w: seq<Candle>)
    requires s + after == before + w && |s| < |before|
    ensures before[|s|] in before && before[|s|] in after
  {
    assert (before + w)[|s|] == (s + after)[|s|] == after[0];
  }

  lemma PartsOverlap(s: seq<Candle>, after: seq<Candle>, before: seq<Candle>, w: seq<Candle>, to: int)
    requires s + after == before + w
    requires (forall c | c in before :: c.time <= to) && (forall c | c in after :: to < c.time)
    ensures |before| <= |s|
  {
    if |s| < |before| { PlaceInBoth(s, after, before, w); }
  }

  lemma PartsAreDisjoint(before: seq<Candle>, w: seq<Candle>)
    requires DistinctTimes(before + w)
    ensures forall c | c in before :: c !in w
  {
    forall j, i | 0 <= j < |before| && 0 <= i < |w| ensures before[j] != w[i] {
      assert (before + w)[j] == before[j] && (before + w)[|before| + i] == w[i];
    }
  }

  // ----- The batches

  lemma RollupsOfWindows(loc: Location, first: seq<Candle>, later: seq<Candle>, whole: seq<Candle>, from: int, to: int)
    requires Windows(first, later, whole, from, to) && Tame(loc, whole) && OneBarPerDay(loc, whole)
    requires HeadIsSafe(Sorted(whole), Sorted(later), to, WeekKeyFn(loc), IsMonday(loc))
    requires HeadIsSafe(Sorted(whole), Sorted(later), to, MonthKeyFn(loc), IsFirstOfMonth(loc))
    ensures forall x | x in WeeklyBars(loc, whole) :: x in WeeklyBars(loc, later) || x in WeeklyBars(loc, first)
    ensures forall x | x in MonthlyBars(loc, whole) :: x in MonthlyBars(loc, later) || x in MonthlyBars(loc, first)
    ensures forall x | x in WeeklyBars(loc, first) :: HasTime(WeeklyBars(loc, whole), x.time)
    ensures forall x | x in MonthlyBars(loc, first) :: HasTime(MonthlyBars(loc, whole), x.time)
  {
    var after, before := WindowsCut(first, later, whole, from, to);
    var s, w, u := Sorted(first), Sorted(later), Sorted(whole);
    SortedFacts(whole);
    SortedSorts(whole);
    SortedSorts(first);
    SortedSorts(later);
    AssumptionsCarryOver(loc, whole, u);
    WeekKeysFollowTime(loc, u);
    MonthKeysFollowTime(loc, u);
    MondaysAreFirst(loc, u);
    FirstsAreFirst(loc, u);
    RowsOfWhole(s, after, before, w, to, first, later, whole, WeekKeyFn(loc), WeekStartFn(loc), IsMonday(loc));
    RowsOfWhole(s, after, before, w, to, first, later, whole, MonthKeyFn(loc), MonthStartFn(loc), IsFirstOfMonth(loc));
    TimesOfEarlier(s, after, first, whole, WeekKeyFn(loc), WeekStartFn(loc), IsMonday(loc));
    TimesOfEarlier(s, after, first, whole, MonthKeyFn(loc), MonthStartFn(loc), IsFirstOfMonth(loc));
  }

  predicate HasKey(batch: seq<Candle>, k: RowKey) {
    exists c :: c in batch && KeyOf(c) == k
  }

  /** What the batch of the whole writes, one of the two batches writes, and it writes every row they write. */
  predicate Completes(b: seq<Candle>, next: seq<Candle>, whole: seq<Candle>) {
    && (forall c | c in next :: c in whole)
    && (forall c | c in whole :: c in next || c in b)
    && (forall c | c in b :: HasKey(whole, KeyOf(c)))
  }

  lemma LabelledTime(s: seq<Candle>, code: string, interval: string, x: Candle)
    requires x in Labelled(s, code, interval)
    ensures x.symbol == code && x.interval == interval
    ensures exists y :: y in s && x == y.(symbol := code, interval := interval)
  {
    var i :| 0 <= i < |s| && Labelled(s, code, interval)[i] == x;
    assert s[i] in s && x == s[i].(symbol := code, interval := interval);
  }

  lemma LabelledCompletes(b: seq<Candle>, next: seq<Candle>, whole: seq<Candle>, code: string, interval: string)
    requires forall c | c in next :: c in whole
    requires forall c | c in whole :: c in next || c in b
    requires forall c | c in b :: HasTime(whole, c.time)
    ensures Completes(Labelled(b, code, interval), Labelled(next, code, interval), Labelled(whole, code, interval))
  {
    LabelledSubset(next, whole, code, interval);
    forall x | x in Labelled(whole, code, interval) ensures x in Labelled(next, code, interval) || x in Labelled(b, code, interval) {
      LabelledTime(whole, code, interval, x);
      var y :| y in whole && x == y.(symbol := code, interval := interval);
      if y in next { LabelledMember(next, y, code, interval); } else { LabelledMember(b, y, code, interval); }
    }
    forall x | x in Labelled(b, code, interval) ensures HasKey(Labelled(whole, code, interval), KeyOf(x)) {
      LabelledTime(b, code, interval, x);
      var y :| y in b && x == y.(symbol := code, interval := interval);
      var z :| z in whole && z.time == y.time;
      LabelledMember(whole, z, code, interval);
      assert KeyOf(z.(symbol := code, interval := interval)) == KeyOf(x);
    }
  }

  lemma JoinCompletes(a: seq<Candle>, b: seq<Candle>, c: seq<Candle>, d: seq<Candle>, e: seq<Candle>, f: seq<Candle>)
    requires Completes(a, b, c) && Completes(d, e, f)
    ensures Completes(a + d, b + e, c + f)
  {
    forall x | x in a + d ensures HasKey(c + f, KeyOf(x)) {
      if x in a {
        var y :| y in c && KeyOf(y) == KeyOf(x);
        assert y in c + f;
      } else {
        var y :| y in f && KeyOf(y) == KeyOf(x);
        assert y in c + f;
      }
    }
  }

  lemma KeyDecides(batch: seq<Candle>, c: Candle, d: Candle)
    requires DistinctKeys(batch) && c in batch && d in batch && KeyOf(c) == KeyOf(d)
    ensures c == d
  {
    var i :| 0 <= i < |batch| && batch[i] == c;
    var j :| 0 <= j < |batch| && batch[j] == d;
  }

  /** The row a batch leaves under a key. */
  lemma UpsertedAt(t: Table, batch: seq<Candle>, k: RowKey)
    requires DistinctKeys(batch)
    ensures forall c | c in batch && KeyOf(c) == k :: Contains(Upserted(t, batch), c)
    ensures !HasKey(batch, k) ==> (k in Upserted(t, batch) <==> k in t) && (k in t ==> Upserted(t, batch)[k] == t[k])
  {
    UpsertedRows(t, batch);
    if i :| 0 <= i < |batch| && KeyOf(batch[i]) == k { assert batch[i] in batch && HasKey(batch, k); }
  }

  lemma CompletesAt(t: Table, b: seq<Candle>, next: seq<Candle>, whole: seq<Candle>, k: RowKey)
    requires Completes(b, next, whole) && DistinctKeys(b) && DistinctKeys(next) && DistinctKeys(whole)
    ensures var x, y := Upserted(Upserted(t, b), next), Upserted(t, whole);
            (k in x <==> k in y) && (k in x ==> x[k] == y[k])
  {
    UpsertedAt(t, whole, k);
    UpsertedAt(t, b, k);
    UpsertedAt(Upserted(t, b), next, k);
    if HasKey(whole, k) {
      var c :| c in whole && KeyOf(c) == k;
      assert Contains(Upserted(t, whole), c);
      if HasKey(next, k) {
        var d :| d in next && KeyOf(d) == k;
        KeyDecides(whole, c, d);
        assert Contains(Upserted(Upserted(t, b), next), d);
      } else {
        assert c in b && Contains(Upserted(t, b), c);
      }
    } else {
      assert !HasKey(next, k) && !HasKey(b, k);
    }
  }

  lemma UpsertCompletes(t: Table, b: seq<Candle>, next: seq<Candle>, whole: seq<Candle>)
    requires Completes(b, next, whole) && DistinctKeys(b) && DistinctKeys(next) && DistinctKeys(whole)
    ensures Upserted(Upserted(t, b), next) == Upserted(t, whole)
  {
    forall k ensures var x, y := Upserted(Upserted(t, b), next), Upserted(t, whole); (k in x <==> k in y) && (k in x ==> x[k] == y[k]) {
      CompletesAt(t, b, next, whole, k);
    }
  }

  lemma BatchesComplete(loc: Location, code: string, first: seq<Candle>, next: seq<Candle>, whole: seq<Candle>, from: int, to: int)
    requires Windows(DailyBars(code, first), DailyBars(code, next), DailyBars(code, whole), from, to)
    requires Tame(loc, DailyBars(code, whole)) && OneBarPerDay(loc, DailyBars(code, whole))
    requires HeadIsSafe(Sorted(DailyBars(code, whole)), Sorted(DailyBars(code, next)), to, WeekKeyFn(loc), IsMonday(loc))
    requires HeadIsSafe(Sorted(DailyBars(code, whole)), Sorted(DailyBars(code, next)), to, MonthKeyFn(loc), IsFirstOfMonth(loc))
    ensures Completes(Joined(loc, code, first), Joined(loc, code, next), Joined(loc, code, whole))
  {
    var f, n, w := DailyBars(code, first), DailyBars(code, next), DailyBars(code, whole);
    RollupsOfWindows(loc, f, n, w, from, to);
    RollupsOfLaterPart(loc, w, n, from);
    assert Completes(f, n, w) by {
      forall c | c in f ensures HasKey(w, KeyOf(c)) { assert c in w; }
    }
    LabelledCompletes(WeeklyBars(loc, f), WeeklyBars(loc, n), WeeklyBars(loc, w), code, "1week");
    LabelledCompletes(MonthlyBars(loc, f), MonthlyBars(loc, n), MonthlyBars(loc, w), code, "1month");
    var fw, nw, ww := Labelled(WeeklyBars(loc, f), code, "1week"), Labelled(WeeklyBars(loc, n), code, "1week"), Labelled(WeeklyBars(loc, w), code, "1week");
    JoinCompletes(f, n, w, fw, nw, ww);
    JoinCompletes(f + fw, n + nw, w + ww, Labelled(MonthlyBars(loc, f), code, "1month"),
                  Labelled(MonthlyBars(loc, n), code, "1month"), Labelled(MonthlyBars(loc, w), code, "1month"));
  }

  /** The week and the month in which the later window starts. */
  ghost predicate HeadsAreSafe(loc: Location, later: seq<Candle>, whole: seq<Candle>, to: int) {
    && HeadIsSafe(Sorted(whole), Sorted(later), to, WeekKeyFn(loc), IsMonday(loc))
    && HeadIsSafe(Sorted(whole), Sorted(later), to, MonthKeyFn(loc), IsFirstOfMonth(loc))
  }

  /**
   * Ingesting a window and then one that starts and ends later is ingesting what they
   * hold together, in any order and with any repetitions, into any table, provided that
   * the earlier window has all bars of the week and of the month in which the later one
   * starts inside.
   */
  lemma NextWindowCompletesTheSeries(t: Table, loc: Location, code: string, first: seq<Candle>, next: seq<Candle>,
                                     whole: seq<Candle>, from: int, to: int)
    requires Windows(DailyBars(code, first), DailyBars(code, next), DailyBars(code, whole), from, to)
    requires Tame(loc, DailyBars(code, whole)) && OneBarPerDay(loc, DailyBars(code, whole))
    requires HeadsAreSafe(loc, DailyBars(code, next), DailyBars(code, whole), to)
    ensures Upserted(Upserted(t, Batch(loc, code, first)), Batch(loc, code, next)) == Upserted(t, Batch(loc, code, whole))
  {
    BatchesAreJoined(loc, code, first, next, whole, from, to);
    BatchesComplete(loc, code, first, next, whole, from, to);
    UpsertCompletes(t, Batch(loc, code, first), Batch(loc, code, next), Batch(loc, code, whole));
  }

  // ----- Otherwise a bucket is missing or short

  lemma {:induction false} PositiveVolume(bars: seq<Candle>)
    requires forall c | c in bars :: c.volume > 0
    ensures bars != [] ==> Volume(bars) > 0
    ensures Volume(bars) >= 0
    decreases |bars|
  {
    if bars != [] {
      assert bars[|bars| - 1] in bars;
      PositiveVolume(bars[..|bars| - 1]);
    }
  }

  /** Two buckets of one series at the same time have the same key. */
  lemma TimesTellKeys(u: seq<Candle>, b: seq<Candle>, c: seq<Candle>, keyFn: int -> string, startFn: int -> int, k: string, m: string)
    requires KeysFollowTime(u, keyFn, startFn) && (forall x | x in b + c :: x in u)
    requires Bars(b, keyFn, k) != [] && Bars(c, keyFn, m) != []
    requires Bucket(Bars(b, keyFn, k), startFn).time == Bucket(Bars(c, keyFn, m), startFn).time
    ensures k == m
  {
    var x, y := Bars(b, keyFn, k)[0], Bars(c, keyFn, m)[0];
    InBars(b, keyFn, k, x);
    InBars(c, keyFn, m, y);
    assert x in b + c && y in b + c;
    if x.time <= y.time { assert FollowsTime(x, y, keyFn, startFn); } else { assert FollowsTime(y, x, keyFn, startFn); }
  }

  /** A bucket of the whole that no batch of a window writes with its volume. */
  ghost predicate Lost(x: Candle, first: seq<Candle>, later: seq<Candle>, whole: seq<Candle>) {
    && x in whole && (forall y | y in later :: y.time != x.time)
    && forall y | y in first && y.time == x.time :: y.volume != x.volume
  }

  lemma ShortOfVolume(s: seq<Candle>, after: seq<Candle>, keyFn: int -> string, k: string, c: Candle)
    requires (forall x | x in s + after :: x.volume > 0) && c in after && keyFn(c.time) == k
    ensures Volume(Bars(s, keyFn, k)) < Volume(Bars(s + after, keyFn, k))
  {
    BarsOfSum(s, after, keyFn, k);
    VolumeOfSum(Bars(s, keyFn, k), Bars(after, keyFn, k));
    forall x | x in Bars(after, keyFn, k) ensures x.volume > 0 {
      InBars(after, keyFn, k, x);
      assert x in s + after;
    }
    InBars(after, keyFn, k, c);
    PositiveVolume(Bars(after, keyFn, k));
  }

  lemma BucketIsLost(s: seq<Candle>, after: seq<Candle>, before: seq<Candle>, w: seq<Candle>, to: int,
                     first: seq<Candle>, later: seq<Candle>, whole: seq<Candle>,
                     keyFn: int -> string, startFn: int -> int, isBucketStart: int -> bool) returns (x: Candle)
    requires Cut(s, after, before, w, to) && !HeadIsSafe(s + after, w, to, keyFn, isBucketStart)
    requires SortOf(s, first) && SortOf(w, later) && SortOf(s + after, whole)
    requires KeysFollowTime(s + after, keyFn, startFn) && forall c | c in s + after :: c.volume > 0
    ensures Lost(x, Trimmed(Grouped(s, keyFn, startFn), first, isBucketStart), Trimmed(Grouped(w, keyFn, startFn), later, isBucketStart),
                 Trimmed(Grouped(s + after, keyFn, startFn), whole, isBucketStart))
  {
    var u, k := s + after, keyFn(w[0].time);
    TrimmedRows(u, whole, keyFn, startFn, isBucketStart);
    TrimmedRows(w, later, keyFn, startFn, isBucketStart);
    x := Bucket(Bars(u, keyFn, k), startFn);
    var late :| late in w && keyFn(late.time) == k && to < late.time;
    LateIsAfter(s, after, before, w, to, late);
    ShortOfVolume(s, after, keyFn, k, late);
    forall y | y in Trimmed(Grouped(w, keyFn, startFn), later, isBucketStart) ensures y.time != x.time {
      var m :| Kept(w, keyFn, isBucketStart, m) && y == Bucket(Bars(w, keyFn, m), startFn);
      assert forall c | c in u + w :: c in u || c in w;
      assert forall c | c in w :: c in before + w;
      if y.time == x.time { TimesTellKeys(u, u, w, keyFn, startFn, k, m); }
    }
    if s != [] {
      TrimmedRows(s, first, keyFn, startFn, isBucketStart);
      forall y | y in Trimmed(Grouped(s, keyFn, startFn), first, isBucketStart) && y.time == x.time ensures y.volume != x.volume {
        var m :| Kept(s, keyFn, isBucketStart, m) && y == Bucket(Bars(s, keyFn, m), startFn);
        TimesTellKeys(u, u, s, keyFn, startFn, k, m);
      }
    }
  }

  lemma LateIsAfter(s: seq<Candle>, after: seq<Candle>, before: seq<Candle>, w: seq<Candle>, to: int, late: Candle)
    requires Cut(s, after, before, w, to) && late in w && to < late.time
    ensures late in after
  {
    assert late in before + w;
    assert late in s + after;
  }

  /** The joined bars of one rolled-up interval. */
  lemma RolledUpBars(code: string, daily: seq<Candle>, weekly: seq<Candle>, monthly: seq<Candle>, z: Candle)
    requires z in Join(code, daily, weekly, monthly) && forall c | c in daily :: c.interval == "1day"
    ensures z.interval == "1week" ==> exists y :: y in weekly && z == y.(symbol := code, interval := "1week")
    ensures z.interval == "1month" ==> exists y :: y in monthly && z == y.(symbol := code, interval := "1month")
  {
    assert "1week"[1] != "1month"[1] && "1day"[1] != "1week"[1] && "1day"[1] != "1month"[1];
    if z in Labelled(weekly, code, "1week") { LabelledTime(weekly, code, "1week", z); }
    if z in Labelled(monthly, code, "1month") { LabelledTime(monthly, code, "1month", z); }
  }

  /** The rows of one rolled-up interval in the three batches. */
  ghost predicate RowsFrom(batch: seq<Candle>, rollup: seq<Candle>, code: string, interval: string) {
    && (forall z | z in batch && z.symbol == code && z.interval == interval :: exists y :: y in rollup && z == y.(symbol := code, interval := interval))
    && (forall y | y in rollup :: y.(symbol := code, interval := interval) in batch)
  }

  lemma JoinedRows(loc: Location, code: string, fetched: seq<Candle>)
    ensures RowsFrom(Joined(loc, code, fetched), WeeklyBars(loc, DailyBars(code, fetched)), code, "1week")
    ensures RowsFrom(Joined(loc, code, fetched), MonthlyBars(loc, DailyBars(code, fetched)), code, "1month")
  {
    var daily := DailyBars(code, fetched);
    DailyBarsAreLabelled(code, fetched);
    forall z | z in Joined(loc, code, fetched)
      ensures z.interval == "1week" ==> exists y :: y in WeeklyBars(loc, daily) && z == y.(symbol := code, interval := "1week")
      ensures z.interval == "1month" ==> exists y :: y in MonthlyBars(loc, daily) && z == y.(symbol := code, interval := "1month")
    {
      RolledUpBars(code, daily, WeeklyBars(loc, daily), MonthlyBars(loc, daily), z);
    }
    forall y | y in WeeklyBars(loc, daily) ensures y.(symbol := code, interval := "1week") in Joined(loc, code, fetched) {
      LabelledMember(WeeklyBars(loc, daily), y, code, "1week");
    }
    forall y | y in MonthlyBars(loc, daily) ensures y.(symbol := code, interval := "1month") in Joined(loc, code, fetched) {
      LabelledMember(MonthlyBars(loc, daily), y, code, "1month");
    }
  }

  lemma LostBucketShows(b: seq<Candle>, next: seq<Candle>, whole: seq<Candle>, first: seq<Candle>, later: seq<Candle>, all: seq<Candle>,
                        code: string, interval: string, x: Candle)
    requires DistinctKeys(b) && DistinctKeys(next) && DistinctKeys(whole) && Lost(x, first, later, all)
    requires RowsFrom(b, first, code, interval) && RowsFrom(next, later, code, interval) && RowsFrom(whole, all, code, interval)
    ensures Upserted(Upserted(map[], b), next) != Upserted(map[], whole)
  {
    var row := x.(symbol := code, interval := interval);
    var k := KeyOf(row);
    UpsertedAt(map[], whole, k);
    UpsertedAt(map[], b, k);
    UpsertedAt(Upserted(map[], b), next, k);
    assert Contains(Upserted(map[], whole), row);
    assert forall z | z in next && z.symbol == code && z.interval == interval :: z.time != x.time;
    assert !HasKey(next, k);
    if HasKey(b, k) {
      var z :| z in b && KeyOf(z) == k;
      assert Contains(Upserted(map[], b), z);
      assert z.volume != x.volume;
    }
  }

  lemma UnsafeHeadShows(loc: Location, code: string, first: seq<Candle>, next: seq<Candle>, whole: seq<Candle>, from: int, to: int)
    requires Windows(DailyBars(code, first), DailyBars(code, next), DailyBars(code, whole), from, to)
    requires Tame(loc, DailyBars(code, whole)) && OneBarPerDay(loc, DailyBars(code, whole))
    requires forall c | c in DailyBars(code, whole) :: c.volume > 0
    requires !HeadsAreSafe(loc, DailyBars(code, next), DailyBars(code, whole), to)
    requires DistinctKeys(Joined(loc, code, first)) && DistinctKeys(Joined(loc, code, next)) && DistinctKeys(Joined(loc, code, whole))
    ensures Upserted(Upserted(map[], Joined(loc, code, first)), Joined(loc, code, next)) != Upserted(map[], Joined(loc, code, whole))
  {
    var f, n, w := DailyBars(code, first), DailyBars(code, next), DailyBars(code, whole);
    var after, before := WindowsCut(f, n, w, from, to);
    SortedFacts(w);
    SortedSorts(w);
    SortedSorts(f);
    SortedSorts(n);
    AssumptionsCarryOver(loc, w, Sorted(w));
    WeekKeysFollowTime(loc, Sorted(w));
    MonthKeysFollowTime(loc, Sorted(w));
    JoinedRows(loc, code, first);
    JoinedRows(loc, code, next);
    JoinedRows(loc, code, whole);
    if !HeadIsSafe(Sorted(w), Sorted(n), to, WeekKeyFn(loc), IsMonday(loc)) {
      var x := BucketIsLost(Sorted(f), after, before, Sorted(n), to, f, n, w, WeekKeyFn(loc), WeekStartFn(loc), IsMonday(loc));
      LostBucketShows(Joined(loc, code, first), Joined(loc, code, next), Joined(loc, code, whole),
                      WeeklyBars(loc, f), WeeklyBars(loc, n), WeeklyBars(loc, w), code, "1week", x);
    } else {
      var x := BucketIsLost(Sorted(f), after, before, Sorted(n), to, f, n, w, MonthKeyFn(loc), MonthStartFn(loc), IsFirstOfMonth(loc));
      LostBucketShows(Joined(loc, code, first), Joined(loc, code, next), Joined(loc, code, whole),
                      MonthlyBars(loc, f), MonthlyBars(loc, n), MonthlyBars(loc, w), code, "1month", x);
    }
  }

  /** Two ingests of windows amount to one of their union, whatever the table held before. */
  ghost predicate AmountToOne(loc: Location, code: string, first: seq<Candle>, next: seq<Candle>, whole: seq<Candle>) {
    forall t {:trigger Upserted(t, Batch(loc, code, whole))} ::
      Upserted(Upserted(t, Batch(loc, code, first)), Batch(loc, code, next)) == Upserted(t, Batch(loc, code, whole))
  }

  /** The condition is exact as soon as every bar has some volume. */
  lemma CompleteExactlyIfHeadsAreSafe(loc: Location, code: string, first: seq<Candle>, next: seq<Candle>, whole: seq<Candle>, from: int, to: int)
    requires Windows(DailyBars(code, first), DailyBars(code, next), DailyBars(code, whole), from, to)
    requires Tame(loc, DailyBars(code, whole)) && OneBarPerDay(loc, DailyBars(code, whole))
    requires forall c | c in DailyBars(code, whole) :: c.volume > 0
    ensures AmountToOne(loc, code, first, next, whole) <==> HeadsAreSafe(loc, DailyBars(code, next), DailyBars(code, whole), to)
  {
    if HeadsAreSafe(loc, DailyBars(code, next), DailyBars(code, whole), to) {
      forall t {:trigger Upserted(t, Batch(loc, code, whole))}
        ensures Upserted(Upserted(t, Batch(loc, code, first)), Batch(loc, code, next)) == Upserted(t, Batch(loc, code, whole))
      {
        NextWindowCompletesTheSeries(t, loc, code, first, next, whole, from, to);
      }
    } else {
      BatchesAreJoined(loc, code, first, next, whole, from, to);
      UnsafeHeadShows(loc, code, first, next, whole, from, to);
    }
  }

  lemma BatchesAreJoined(loc: Location, code: string, first: seq<Candle>, next: seq<Candle>, whole: seq<Candle>, from: int, to: int)
    requires Windows(DailyBars(code, first), DailyBars(code, next), DailyBars(code, whole), from, to)
    requires Tame(loc, DailyBars(code, whole)) && OneBarPerDay(loc, DailyBars(code, whole))
    ensures Batch(loc, code, first) == Joined(loc, code, first) && DistinctKeys(Joined(loc, code, first))
    ensures Batch(loc, code, next) == Joined(loc, code, next) && DistinctKeys(Joined(loc, code, next))
    ensures Batch(loc, code, whole) == Joined(loc, code, whole) && DistinctKeys(Joined(loc, code, whole))
  {
    AssumptionsCarryOver(loc, DailyBars(code, whole), DailyBars(code, first));
    AssumptionsCarryOver(loc, DailyBars(code, whole), DailyBars(code, next));
    SecondDedupIsIdentity(loc, code, first);
    SecondDedupIsIdentity(loc, code, next);
    SecondDedupIsIdentity(loc, code, whole);
    BatchKeysAreDistinct(loc, code, first);
    BatchKeysAreDistinct(loc, code, next);
    BatchKeysAreDistinct(loc, code, whole);
  }
}
