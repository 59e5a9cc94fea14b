/** Folding daily bars into weekly and monthly ones. */
module Aggregation {
  import opened Candles

  // ----- What one bucket holds

  function Bars(s: seq<Candle>, keyFn: int -> string, k: string): seq<Candle>
    decreases |s|
  {
    if s == [] then [] else
      var n := |s| - 1;
      Bars(s[..n], keyFn, k) + if keyFn(s[n].time) == k then [s[n]] else []
  }

  lemma {:induction false} InBars(s: seq<Candle>, keyFn: int -> string, k: string, c: Candle)
    ensures c in Bars(s, keyFn, k) <==> c in s && keyFn(c.time) == k
    decreases |s|
  {
    if s != [] {
      var n := |s| - 1;
      InBars(s[..n], keyFn, k, c);
      assert s == s[..n] + [s[n]];
    }
  }

  lemma BarsOfMore(s: seq<Candle>, c: Candle, keyFn: int -> string, k: string)
    ensures Bars(s + [c], keyFn, k) == Bars(s, keyFn, k) + if keyFn(c.time) == k then [c] else []
  {
    assert (s + [c])[..|s|] == s;
  }

  function High(bars: seq<Candle>): real
    requires bars != []
    decreases |bars|
  {
    var n := |bars| - 1;
    if n == 0 then bars[0].high else
      var h := High(bars[..n]);
      if bars[n].high > h then bars[n].high else h
  }

  function Low(bars: seq<Candle>): real
    requires bars != []
    decreases |bars|
  {
    var n := |bars| - 1;
    if n == 0 then bars[0].low else
      var l := Low(bars[..n]);
      if bars[n].low < l then bars[n].low else l
  }

  /** The high is the greatest of the highs and one of them, and so for the low. */
  lemma {:induction false} Extremes(bars: seq<Candle>)
    requires bars != []
    ensures (forall c | c in bars :: c.high <= High(bars) && Low(bars) <= c.low)
    ensures (exists c :: c in bars && c.high == High(bars)) && (exists c :: c in bars && c.low == Low(bars))
    decreases |bars|
  {
    var n := |bars| - 1;
    assert bars == bars[..n] + [bars[n]] && bars[n] in bars;
    if n > 0 {
      Extremes(bars[..n]);
      var h :| h in bars[..n] && h.high == High(bars[..n]);
      var l :| l in bars[..n] && l.low == Low(bars[..n]);
      assert h in bars && l in bars;
    }
  }

  function Volume(bars: seq<Candle>): int
    decreases |bars|
  {
    if bars == [] then 0 else Volume(bars[..|bars| - 1]) + bars[|bars| - 1].volume
  }

  function Bucket(bars: seq<Candle>, startFn: int -> int): Candle
    requires bars != []
  {
    Candle("", "", startFn(bars[0].time), "",
           bars[0].open, High(bars), Low(bars), bars[|bars| - 1].close, Volume(bars))
  }

  lemma BucketOfMore(bars: seq<Candle>, c: Candle, startFn: int -> int)
    requires bars != []
    ensures Bucket(bars + [c], startFn) ==
            Bucket(bars, startFn).(high := if c.high > High(bars) then c.high else High(bars),
                                   low := if c.low < Low(bars) then c.low else Low(bars),
                                   close := c.close, volume := Volume(bars) + c.volume)
  {
    assert (bars + [c])[..|bars|] == bars;
  }

  predicate Holds(b: Candle, s: seq<Candle>, keyFn: int -> string, startFn: int -> int, k: string) {
    var bars := Bars(s, keyFn, k);
    bars != [] && b == Bucket(bars, startFn)
  }

  // ----- The buckets of an ordered series

  /** The distinct keys in order of first appearance. */
  function Keys(s: seq<Candle>, keyFn: int -> string): seq<string>
    decreases |s|
  {
    if s == [] then [] else
      var n := |s| - 1;
      var ks := Keys(s[..n], keyFn);
      if keyFn(s[n].time) in ks then ks else ks + [keyFn(s[n].time)]
  }

  lemma KeysOfMore(s: seq<Candle>, c: Candle, keyFn: int -> string)
    ensures Keys(s + [c], keyFn) == Keys(s, keyFn) + if keyFn(c.time) in Keys(s, keyFn) then [] else [keyFn(c.time)]
  {
    assert (s + [c])[..|s|] == s;
  }

  ghost predicate Distinct(ks: seq<string>) {
    forall i, j | 0 <= i < j < |ks| :: ks[i] != ks[j]
  }

  lemma {:induction false} KeysAreDistinct(s: seq<Candle>, keyFn: int -> string)
    ensures Distinct(Keys(s, keyFn))
    decreases |s|
  {
    if s != [] { KeysAreDistinct(s[..|s| - 1], keyFn); }
  }

  /** A key is listed exactly when it has bars. */
  lemma {:induction false} KeysHaveBars(s: seq<Candle>, keyFn: int -> string, k: string)
    ensures k in Keys(s, keyFn) <==> Bars(s, keyFn, k) != []
    decreases |s|
  {
    if s != [] { KeysHaveBars(s[..|s| - 1], keyFn, k); }
  }

  function Grouped(s: seq<Candle>, keyFn: int -> string, startFn: int -> int): (out: seq<Candle>)
    ensures |out| == |Keys(s, keyFn)|
  {
    var ks := Keys(s, keyFn);
    seq(|ks|, i requires 0 <= i < |ks| => KeysHaveBars(s, keyFn, ks[i]); Bucket(Bars(s, keyFn, ks[i]), startFn))
  }

  ghost predicate Tabulates(buckets: map<string, Candle>, s: seq<Candle>, keyFn: int -> string, startFn: int -> int) {
    && (forall k :: k in buckets <==> k in Keys(s, keyFn))
    && (forall k {:trigger Holds(buckets[k], s, keyFn, startFn, k)} | k in buckets :: Holds(buckets[k], s, keyFn, startFn, k))
  }

  function Opened(c: Candle, startFn: int -> int): Candle {
    Candle("", "", startFn(c.time), "", c.open, c.high, c.low, c.close, c.volume)
  }

  function Merged(b: Candle, c: Candle): Candle {
    b.(high := if c.high > b.high then c.high else b.high,
       low := if c.low < b.low then c.low else b.low,
       close := c.close, volume := b.volume + c.volume)
  }

  lemma HoldsMore(b: Candle, s: seq<Candle>, c: Candle, keyFn: int -> string, startFn: int -> int, k: string)
    requires Holds(b, s, keyFn, startFn, k)
    ensures Holds(if keyFn(c.time) == k then Merged(b, c) else b, s + [c], keyFn, startFn, k)
  {
    BarsOfMore(s, c, keyFn, k);
    BucketOfMore(Bars(s, keyFn, k), c, startFn);
    VolumeOfMore(Bars(s, keyFn, k), c);
  }

  lemma HoldsFirst(s: seq<Candle>, c: Candle, keyFn: int -> string, startFn: int -> int)
    requires keyFn(c.time) !in Keys(s, keyFn)
    ensures Holds(Opened(c, startFn), s + [c], keyFn, startFn, keyFn(c.time))
  {
    var k := keyFn(c.time);
    BarsOfMore(s, c, keyFn, k);
    KeysHaveBars(s, keyFn, k);
    assert Bars(s + [c], keyFn, k) == [c];
    VolumeOfMore([], c);
  }

  lemma TabulatesMore(buckets: map<string, Candle>, s: seq<Candle>, c: Candle, keyFn: int -> string, startFn: int -> int)
    requires Tabulates(buckets, s, keyFn, startFn)
    ensures var k := keyFn(c.time);
            Tabulates(buckets[k := if k in buckets then Merged(buckets[k], c) else Opened(c, startFn)], s + [c], keyFn, startFn)
  {
    var k := keyFn(c.time);
    var now := buckets[k := if k in buckets then Merged(buckets[k], c) else Opened(c, startFn)];
    KeysOfMore(s, c, keyFn);
    forall j | j in now ensures Holds(now[j], s + [c], keyFn, startFn, j) {
      if j in buckets {
        assert Holds(buckets[j], s, keyFn, startFn, j);
        HoldsMore(buckets[j], s, c, keyFn, startFn, j);
      } else {
        HoldsFirst(s, c, keyFn, startFn);
      }
    }
  }

  /** `aggregate`: one pass over the sorted bars, one map entry per bucket, keys in order of appearance. */
  method Aggregate(daily: seq<Candle>, keyFn: int -> string, startFn: int -> int) returns (out: seq<Candle>)
    ensures GroupsSomeSort(out, daily, keyFn, startFn)
  {
    if |daily| == 0 {
      assert SortOf([], daily) && Grouped([], keyFn, startFn) == [];
      return [];
    }
    var sorted := SortByTime(daily);
    var buckets, keyOrder := Collect(sorted, keyFn, startFn);
    out := Emit(buckets, keyOrder, sorted, keyFn, startFn);
  }

  /** The buckets of one of the orders an unstable sort may leave. */
  ghost predicate GroupsSomeSort(out: seq<Candle>, daily: seq<Candle>, keyFn: int -> string, startFn: int -> int) {
    exists sorted :: SortOf(sorted, daily) && out == Grouped(sorted, keyFn, startFn)
  }

  method Collect(s: seq<Candle>, keyFn: int -> string, startFn: int -> int) returns (buckets: map<string, Candle>, keyOrder: seq<string>)
    ensures keyOrder == Keys(s, keyFn) && Tabulates(buckets, s, keyFn, startFn)
  {
    buckets, keyOrder := map[], [];
    for i := 0 to |s|
      invariant keyOrder == Keys(s[..i], keyFn)
      invariant Tabulates(buckets, s[..i], keyFn, startFn)
    {
      var c := s[i];
      var k := keyFn(c.time);
      TabulatesMore(buckets, s[..i], c, keyFn, startFn);
      KeysOfMore(s[..i], c, keyFn);
      assert s[..i + 1] == s[..i] + [c];
      if k !in buckets {
        buckets := buckets[k := Opened(c, startFn)];
        keyOrder := keyOrder + [k];
      } else {
        var b := buckets[k];
        if c.high > b.high {
          b := b.(high := c.high);
        }
        if c.low < b.low {
          b := b.(low := c.low);
        }
        b := b.(close := c.close, volume := b.volume + c.volume);
        assert b == Merged(buckets[k], c);
        buckets := buckets[k := b];
      }
      assert Tabulates(buckets, s[..i] + [c], keyFn, startFn);
    }
    assert s[..|s|] == s;
  }

  method Emit(buckets: map<string, Candle>, keyOrder: seq<string>, ghost s: seq<Candle>, keyFn: int -> string, startFn: int -> int)
    returns (out: seq<Candle>)
    requires keyOrder == Keys(s, keyFn) && Tabulates(buckets, s, keyFn, startFn)
    ensures out == Grouped(s, keyFn, startFn)
  {
    out := [];
    ghost var grouped := Grouped(s, keyFn, startFn);
    for i := 0 to |keyOrder|
      invariant out == grouped[..i]
    {
      assert Holds(buckets[keyOrder[i]], s, keyFn, startFn, keyOrder[i]);
      assert buckets[keyOrder[i]] == grouped[i];
      out := out + [buckets[keyOrder[i]]];
    }
  }

  // ----- What the buckets mean

  predicate InBucket(c: Candle, bars: seq<Candle>, keyFn: int -> string, k: string) {
    c in bars && keyFn(c.time) == k
  }

  ghost predicate Earliest(c: Candle, bars: seq<Candle>, keyFn: int -> string, k: string) {
    InBucket(c, bars, keyFn, k) && forall d | InBucket(d, bars, keyFn, k) :: c.time <= d.time
  }

  ghost predicate Latest(c: Candle, bars: seq<Candle>, keyFn: int -> string, k: string) {
    InBucket(c, bars, keyFn, k) && forall d | InBucket(d, bars, keyFn, k) :: d.time <= c.time
  }

  /** x sums up the bars of key k, however they are ordered. */
  ghost predicate SumsUp(x: Candle, bars: seq<Candle>, keyFn: int -> string, startFn: int -> int, k: string) {
    && (exists e :: Earliest(e, bars, keyFn, k) && x.time == startFn(e.time) && x.open == e.open)
    && (exists l :: Latest(l, bars, keyFn, k) && x.close == l.close)
    && (forall c | InBucket(c, bars, keyFn, k) :: x.low <= c.low && c.high <= x.high)
    && (exists c :: InBucket(c, bars, keyFn, k) && c.high == x.high)
    && (exists c :: InBucket(c, bars, keyFn, k) && c.low == x.low)
    && x.volume == Volume(Bars(bars, keyFn, k))
  }

  lemma {:induction false} BarsAreOrdered(s: seq<Candle>, keyFn: int -> string, k: string)
    requires ByTime(s)
    ensures ByTime(Bars(s, keyFn, k))
    decreases |s|
  {
    if s != [] {
      var n := |s| - 1;
      BarsAreOrdered(s[..n], keyFn, k);
      forall c | c in Bars(s[..n], keyFn, k) ensures c.time <= s[n].time {
        InBars(s[..n], keyFn, k, c);
        var i :| 0 <= i < n && s[..n][i] == c;
      }
    }
  }

  lemma {:induction false} BagOfBars(s: seq<Candle>, keyFn: int -> string, k: string, c: Candle)
    ensures multiset(Bars(s, keyFn, k))[c] == if keyFn(c.time) == k then multiset(s)[c] else 0
    decreases |s|
  {
    if s != [] {
      var n := |s| - 1;
      BagOfBars(s[..n], keyFn, k, c);
      assert s == s[..n] + [s[n]];
    }
  }

  lemma {:induction false} VolumeOfSum(s: seq<Candle>, t: seq<Candle>)
    ensures Volume(s + t) == Volume(s) + Volume(t)
    decreases |t|
  {
    if t == [] {
      assert s + t == s;
    } else {
      var n := |t| - 1;
      assert (s + t)[..|s| + n] == s + t[..n];
      VolumeOfSum(s, t[..n]);
    }
  }

  /** Volume does not depend on the order. */
  lemma {:induction false} VolumeOfBag(s: seq<Candle>, t: seq<Candle>)
    requires multiset(s) == multiset(t)
    ensures Volume(s) == Volume(t)
    decreases |s|
  {
    if s == [] {
      assert |multiset(t)| == |t|;
    } else {
      assert s[0] in multiset(t);
      var a: nat :| a < |t| && t[a] == s[0];
      HeadAndTail(s);
      CancelOne(multiset(s[1..]), multiset(Without(t, a)), s[0]);
      VolumeOfBag(s[1..], Without(t, a));
      VolumeOfSum([s[0]], s[1..]);
      assert t == t[..a] + ([t[a]] + t[a + 1..]);
      VolumeOfSum(t[..a], [t[a]] + t[a + 1..]);
      VolumeOfSum([t[a]], t[a + 1..]);
      VolumeOfSum(t[..a], t[a + 1..]);
    }
  }

  /** Every output bar sums up its key's bars of the input, whatever the input's order; no key is lost or repeated. */
  lemma BucketsSumUp(daily: seq<Candle>, s: seq<Candle>, keyFn: int -> string, startFn: int -> int)
    requires SortOf(s, daily)
    ensures forall i | 0 <= i < |Keys(s, keyFn)| :: SumsUp(Grouped(s, keyFn, startFn)[i], daily, keyFn, startFn, Keys(s, keyFn)[i])
    ensures forall c | c in daily :: keyFn(c.time) in Keys(s, keyFn)
    ensures Distinct(Keys(s, keyFn))
  {
    KeysAreDistinct(s, keyFn);
    forall c | c in daily ensures keyFn(c.time) in Keys(s, keyFn) {
      assert c in multiset(s);
      InBars(s, keyFn, keyFn(c.time), c);
      KeysHaveBars(s, keyFn, keyFn(c.time));
    }
    forall i | 0 <= i < |Keys(s, keyFn)|
      ensures SumsUp(Grouped(s, keyFn, startFn)[i], daily, keyFn, startFn, Keys(s, keyFn)[i])
    {
      KeysHaveBars(s, keyFn, Keys(s, keyFn)[i]);
      OneBucketSumsUp(daily, s, keyFn, startFn, Keys(s, keyFn)[i]);
    }
  }

  lemma {:induction false} BagVolume(s: seq<Candle>, daily: seq<Candle>, keyFn: int -> string, k: string)
    requires multiset(s) == multiset(daily)
    ensures Volume(Bars(s, keyFn, k)) == Volume(Bars(daily, keyFn, k))
  {
    forall c ensures multiset(Bars(s, keyFn, k))[c] == multiset(Bars(daily, keyFn, k))[c] {
      BagOfBars(s, keyFn, k, c);
      BagOfBars(daily, keyFn, k, c);
    }
    assert multiset(Bars(s, keyFn, k)) == multiset(Bars(daily, keyFn, k));
    VolumeOfBag(Bars(s, keyFn, k), Bars(daily, keyFn, k));
  }

  lemma BarsAreTheBucket(daily: seq<Candle>, s: seq<Candle>, keyFn: int -> string, k: string)
    requires multiset(s) == multiset(daily)
    ensures forall c :: c in Bars(s, keyFn, k) <==> InBucket(c, daily, keyFn, k)
  {
    forall c ensures c in Bars(s, keyFn, k) <==> InBucket(c, daily, keyFn, k) {
      InBars(s, keyFn, k, c);
      assert c in multiset(daily) <==> c in multiset(s);
    }
  }

  lemma OneBucketSumsUp(daily: seq<Candle>, s: seq<Candle>, keyFn: int -> string, startFn: int -> int, k: string)
    requires SortOf(s, daily) && Bars(s, keyFn, k) != []
    ensures SumsUp(Bucket(Bars(s, keyFn, k), startFn), daily, keyFn, startFn, k)
  {
    BagVolume(s, daily, keyFn, k);
    BarsAreTheBucket(daily, s, keyFn, k);
    BarsAreOrdered(s, keyFn, k);
    EndsOfBars(Bars(s, keyFn, k), daily, keyFn, k);
    var bars := Bars(s, keyFn, k);
    Extremes(bars);
    var high :| high in bars && high.high == High(bars);
    var low :| low in bars && low.low == Low(bars);
    assert InBucket(high, daily, keyFn, k) && InBucket(low, daily, keyFn, k);
  }

  lemma EndsOfBars(bars: seq<Candle>, daily: seq<Candle>, keyFn: int -> string, k: string)
    requires bars != [] && ByTime(bars)
    requires forall c :: c in bars <==> InBucket(c, daily, keyFn, k)
    ensures Earliest(bars[0], daily, keyFn, k) && Latest(bars[|bars| - 1], daily, keyFn, k)
  {
    assert bars[0] in bars && bars[|bars| - 1] in bars;
  }

  /** With distinct times neither the input order nor the sort shows in the result. */
  lemma OrderDoesNotMatter(daily: seq<Candle>, other: seq<Candle>, s: seq<Candle>, t: seq<Candle>, keyFn: int -> string, startFn: int -> int)
    requires DistinctTimes(daily) && multiset(daily) == multiset(other)
    requires SortOf(s, daily) && SortOf(t, other)
    ensures Grouped(s, keyFn, startFn) == Grouped(t, keyFn, startFn)
  {
    DistinctBag(t, daily);
    SortIsUnique(s, t);
  }

  lemma OnlyOneGrouping(out: seq<Candle>, daily: seq<Candle>, keyFn: int -> string, startFn: int -> int)
    requires DistinctTimes(daily) && GroupsSomeSort(out, daily, keyFn, startFn)
    ensures out == Grouped(Sorted(daily), keyFn, startFn)
  {
    var s :| SortOf(s, daily) && out == Grouped(s, keyFn, startFn);
    SortedIsTheSort(s, daily);
  }

  // ----- Conservation

  /** The volume of s that falls under the keys ks. */
  function VolumeUnder(s: seq<Candle>, keyFn: int -> string, ks: seq<string>): int
    decreases |ks|
  {
    if ks == [] then 0
    else VolumeUnder(s, keyFn, ks[..|ks| - 1]) + Volume(Bars(s, keyFn, ks[|ks| - 1]))
  }

  lemma {:induction false} OneMoreBar(s: seq<Candle>, c: Candle, keyFn: int -> string, ks: seq<string>)
    requires Distinct(ks)
    ensures VolumeUnder(s + [c], keyFn, ks) == VolumeUnder(s, keyFn, ks) + if keyFn(c.time) in ks then c.volume else 0
    decreases |ks|
  {
    if ks != [] {
      var n := |ks| - 1;
      OneMoreBar(s, c, keyFn, ks[..n]);
      BarsOfMore(s, c, keyFn, ks[n]);
      VolumeOfMore(Bars(s, keyFn, ks[n]), c);
      assert ks == ks[..n] + [ks[n]];
    }
  }

  lemma VolumeOfMore(bars: seq<Candle>, c: Candle)
    ensures Volume(bars + [c]) == Volume(bars) + c.volume
    ensures bars + [] == bars
  {
    assert (bars + [c])[..|bars|] == bars;
  }

  lemma VolumeUnderMore(s: seq<Candle>, keyFn: int -> string, ks: seq<string>, k: string)
    ensures VolumeUnder(s, keyFn, ks + [k]) == VolumeUnder(s, keyFn, ks) + Volume(Bars(s, keyFn, k))
  {
    assert (ks + [k])[..|ks|] == ks;
  }

  lemma {:induction false} VolumeUnderKeys(s: seq<Candle>, keyFn: int -> string)
    ensures VolumeUnder(s, keyFn, Keys(s, keyFn)) == Volume(s)
    decreases |s|
  {
    if s != [] {
      var n := |s| - 1;
      var before, c := s[..n], s[n];
      var k, ks := keyFn(c.time), Keys(before, keyFn);
      assert s == before + [c];
      VolumeUnderKeys(before, keyFn);
      KeysAreDistinct(before, keyFn);
      OneMoreBar(before, c, keyFn, ks);
      if k !in ks {
        KeysHaveBars(before, keyFn, k);
        BarsOfMore(before, c, keyFn, k);
        VolumeOfMore([], c);
        VolumeUnderMore(s, keyFn, ks, k);
      }
    }
  }

  lemma {:induction false} VolumeOfBuckets(s: seq<Candle>, keyFn: int -> string, startFn: int -> int, i: nat)
    requires i <= |Keys(s, keyFn)|
    ensures Volume(Grouped(s, keyFn, startFn)[..i]) == VolumeUnder(s, keyFn, Keys(s, keyFn)[..i])
    decreases i
  {
    if i > 0 {
      var out, ks := Grouped(s, keyFn, startFn), Keys(s, keyFn);
      VolumeOfBuckets(s, keyFn, startFn, i - 1);
      assert out[..i][..i - 1] == out[..i - 1] && ks[..i][..i - 1] == ks[..i - 1];
    }
  }

  /** No volume is lost or counted twice. */
  lemma VolumeIsConserved(daily: seq<Candle>, s: seq<Candle>, keyFn: int -> string, startFn: int -> int)
    requires SortOf(s, daily)
    ensures Volume(Grouped(s, keyFn, startFn)) == Volume(daily)
  {
    var n := |Keys(s, keyFn)|;
    VolumeOfBuckets(s, keyFn, startFn, n);
    assert Grouped(s, keyFn, startFn)[..n] == Grouped(s, keyFn, startFn);
    assert Keys(s, keyFn)[..n] == Keys(s, keyFn);
    VolumeUnderKeys(s, keyFn);
    VolumeOfBag(s, daily);
  }

  // ----- Order of the buckets

  predicate FollowsTime(c: Candle, d: Candle, keyFn: int -> string, startFn: int -> int) {
    if keyFn(c.time) == keyFn(d.time) then startFn(c.time) == startFn(d.time) else startFn(c.time) < startFn(d.time)
  }

  /** Keys name starts, and starts grow with time, on the bars of s. */
  ghost predicate KeysFollowTime(s: seq<Candle>, keyFn: int -> string, startFn: int -> int) {
    forall c, d {:trigger FollowsTime(c, d, keyFn, startFn)} | c in s && d in s && c.time <= d.time :: FollowsTime(c, d, keyFn, startFn)
  }

  predicate FirstBar(c: Candle, s: seq<Candle>, keyFn: int -> string, k: string) {
    var bars := Bars(s, keyFn, k);
    bars != [] && c == bars[0]
  }

  lemma {:induction false} FirstBarsAreOrdered(s: seq<Candle>, keyFn: int -> string, i: nat, j: nat, c: Candle, d: Candle)
    requires ByTime(s) && i < j < |Keys(s, keyFn)|
    requires FirstBar(c, s, keyFn, Keys(s, keyFn)[i]) && FirstBar(d, s, keyFn, Keys(s, keyFn)[j])
    ensures c.time <= d.time
    decreases |s|
  {
    var n := |s| - 1;
    var before, last := s[..n], s[n];
    assert s == before + [last];
    var ks, k := Keys(before, keyFn), keyFn(last.time);
    KeysHaveBars(before, keyFn, ks[i]);
    BarsOfMore(before, last, keyFn, ks[i]);
    KeysHaveBars(before, keyFn, Keys(s, keyFn)[j]);
    BarsOfMore(before, last, keyFn, Keys(s, keyFn)[j]);
    if j < |ks| {
      FirstBarsAreOrdered(before, keyFn, i, j, c, d);
    } else {
      InBars(s, keyFn, ks[i], c);
    }
  }

  /** The output is strictly increasing in time: no two buckets share a start. */
  lemma BucketTimesIncrease(s: seq<Candle>, keyFn: int -> string, startFn: int -> int)
    requires ByTime(s) && KeysFollowTime(s, keyFn, startFn)
    ensures forall i, j | 0 <= i < j < |Keys(s, keyFn)| :: Grouped(s, keyFn, startFn)[i].time < Grouped(s, keyFn, startFn)[j].time
  {
    var ks := Keys(s, keyFn);
    KeysAreDistinct(s, keyFn);
    forall i, j | 0 <= i < j < |ks| ensures Grouped(s, keyFn, startFn)[i].time < Grouped(s, keyFn, startFn)[j].time {
      KeysHaveBars(s, keyFn, ks[i]);
      KeysHaveBars(s, keyFn, ks[j]);
      var c, d := Bars(s, keyFn, ks[i])[0], Bars(s, keyFn, ks[j])[0];
      InBars(s, keyFn, ks[i], c);
      InBars(s, keyFn, ks[j], d);
      FirstBarsAreOrdered(s, keyFn, i, j, c, d);
      assert FollowsTime(c, d, keyFn, startFn);
    }
  }

  // ----- Trimming the head

  function Oldest(bars: seq<Candle>): int
    requires bars != []
    decreases |bars|
  {
    var n := |bars| - 1;
    if n == 0 then bars[0].time else
      var t := Oldest(bars[..n]);
      if bars[n].time < t then bars[n].time else t
  }

  lemma {:induction false} OldestIsLeast(bars: seq<Candle>)
    requires bars != []
    ensures (forall c | c in bars :: Oldest(bars) <= c.time) && (exists c :: c in bars && c.time == Oldest(bars))
    decreases |bars|
  {
    var n := |bars| - 1;
    assert bars == bars[..n] + [bars[n]] && bars[n] in bars;
    if n > 0 {
      OldestIsLeast(bars[..n]);
      var o :| o in bars[..n] && o.time == Oldest(bars[..n]);
      assert o in bars;
    }
  }

  function Trimmed(result: seq<Candle>, daily: seq<Candle>, isBucketStart: int -> bool): seq<Candle> {
    if result == [] || daily == [] || isBucketStart(Oldest(daily)) then result else result[1..]
  }

  lemma OldestOfMore(bars: seq<Candle>, c: Candle)
    requires bars != []
    ensures Oldest(bars + [c]) == if c.time < Oldest(bars) then c.time else Oldest(bars)
  {
    assert (bars + [c])[..|bars|] == bars;
  }

  method OldestOf(daily: seq<Candle>) returns (oldest: int)
    requires daily != []
    ensures oldest == Oldest(daily)
  {
    oldest := daily[0].time;
    assert daily[..1] == [daily[0]];
    for i := 1 to |daily|
      invariant oldest == Oldest(daily[..i])
    {
      OldestOfMore(daily[..i], daily[i]);
      assert daily[..i + 1] == daily[..i] + [daily[i]];
      if daily[i].time < oldest {
        oldest := daily[i].time;
      }
    }
    assert daily[..|daily|] == daily;
  }

  method TrimIncompleteFirstBucket(result: seq<Candle>, daily: seq<Candle>, isBucketStart: int -> bool) returns (r: seq<Candle>)
    ensures r == Trimmed(result, daily, isBucketStart)
  {
    if |result| == 0 || |daily| == 0 {
      return result;
    }
    var oldest := OldestOf(daily);
    if !isBucketStart(oldest) {
      return result[1..];
    }
    return result;
  }
}
