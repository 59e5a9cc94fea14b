/** Why the head bucket is trimmed. */
module HeadTrim {
  /*
   * What a later part of a series rolls up to is among what the whole series rolls up to.
   */

  import opened Aggregation
  import opened Candles
  import opened ExchangeTime

  /** The keys whose buckets survive the trim of an ordered series. */
  ghost predicate Kept(s: seq<Candle>, keyFn: int -> string, isBucketStart: int -> bool, k: string) {
    Bars(s, keyFn, k) != [] && (k != keyFn(s[0].time) || isBucketStart(s[0].time))
  }

  lemma OldestIsFirst(s: seq<Candle>, daily: seq<Candle>)
    requires SortOf(s, daily) && s != []
    ensures daily != [] && Oldest(daily) == s[0].time
  {
    assert s[0] in multiset(daily);
    OldestIsLeast(daily);
    var c :| c in daily && c.time == Oldest(daily);
    assert c in multiset(s);
  }

  lemma {:induction false} FirstKey(s: seq<Candle>, keyFn: int -> string)
    requires s != []
    ensures Keys(s, keyFn) != [] && Keys(s, keyFn)[0] == keyFn(s[0].time)
    decreases |s|
  {
    if |s| > 1 { FirstKey(s[..|s| - 1], keyFn); } else { assert s[..0] == []; }
  }

  /** Bucket i of the ordered series, by key. */
  lemma BucketAt(s: seq<Candle>, keyFn: int -> string, startFn: int -> int, i: nat)
    requires i < |Keys(s, keyFn)|
    ensures Bars(s, keyFn, Keys(s, keyFn)[i]) != []
    ensures Grouped(s, keyFn, startFn)[i] == Bucket(Bars(s, keyFn, Keys(s, keyFn)[i]), startFn)
  {
    KeysHaveBars(s, keyFn, Keys(s, keyFn)[i]);
  }

  lemma TrimmedIsTail(s: seq<Candle>, daily: seq<Candle>, keyFn: int -> string, startFn: int -> int, isBucketStart: int -> bool)
    requires SortOf(s, daily) && s != []
    ensures Keys(s, keyFn) != [] && Keys(s, keyFn)[0] == keyFn(s[0].time) && Distinct(Keys(s, keyFn))
    ensures var all := Grouped(s, keyFn, startFn);
            Trimmed(all, daily, isBucketStart) == if isBucketStart(s[0].time) then all else all[1..]
  {
    OldestIsFirst(s, daily);
    FirstKey(s, keyFn);
    KeysAreDistinct(s, keyFn);
  }

  /** The rolled-up bars are exactly the buckets of the kept keys. */
  lemma TrimmedRows(s: seq<Candle>, daily: seq<Candle>, keyFn: int -> string, startFn: int -> int, isBucketStart: int -> bool)
    requires SortOf(s, daily) && s != []
    ensures forall x | x in Trimmed(Grouped(s, keyFn, startFn), daily, isBucketStart) ::
              exists k :: Kept(s, keyFn, isBucketStart, k) && x == Bucket(Bars(s, keyFn, k), startFn)
    ensures forall k | Kept(s, keyFn, isBucketStart, k) ::
              Bucket(Bars(s, keyFn, k), startFn) in Trimmed(Grouped(s, keyFn, startFn), daily, isBucketStart)
  {
    var ks, all := Keys(s, keyFn), Grouped(s, keyFn, startFn);
    TrimmedIsTail(s, daily, keyFn, startFn, isBucketStart);
    var whole := isBucketStart(s[0].time);
    var out := if whole then all else all[1..];
    forall x | x in out ensures exists k :: Kept(s, keyFn, isBucketStart, k) && x == Bucket(Bars(s, keyFn, k), startFn) {
      var j :| 0 <= j < |out| && out[j] == x;
      var i := if whole then j else j + 1;
      BucketAt(s, keyFn, startFn, i);
      assert Kept(s, keyFn, isBucketStart, ks[i]);
    }
    forall k | Kept(s, keyFn, isBucketStart, k) ensures Bucket(Bars(s, keyFn, k), startFn) in out {
      KeysHaveBars(s, keyFn, k);
      var i :| 0 <= i < |ks| && ks[i] == k;
      BucketAt(s, keyFn, startFn, i);
      assert out[if whole then i else i - 1] == all[i];
    }
  }

  lemma {:induction false} BarsOfSum(s: seq<Candle>, t: seq<Candle>, keyFn: int -> string, k: string)
    ensures Bars(s + t, keyFn, k) == Bars(s, keyFn, k) + Bars(t, keyFn, k)
    decreases |t|
  {
    if t == [] {
      assert s + t == s;
    } else {
      var n := |t| - 1;
      assert (s + t)[..|s| + n] == s + t[..n];
      BarsOfSum(s, t[..n], keyFn, k);
    }
  }

  lemma {:induction false} NoBars(s: seq<Candle>, keyFn: int -> string, k: string)
    requires forall c | c in s :: keyFn(c.time) != k
    ensures Bars(s, keyFn, k) == []
    decreases |s|
  {
    if s != [] { NoBars(s[..|s| - 1], keyFn, k); }
  }

  /** A kept key of a later part has all its bars there, and is kept by the whole. */
  lemma KeptBucketsAreWhole(before: seq<Candle>, later: seq<Candle>, keyFn: int -> string, startFn: int -> int,
                            isBucketStart: int -> bool, k: string)
    requires later != [] && ByTime(before + later) && DistinctTimes(before + later)
    requires KeysFollowTime(before + later, keyFn, startFn) && StartsAreFirst(before + later, keyFn, isBucketStart)
    requires Kept(later, keyFn, isBucketStart, k)
    ensures Bars(before + later, keyFn, k) == Bars(later, keyFn, k)
    ensures Kept(before + later, keyFn, isBucketStart, k)
  {
    var s := before + later;
    var b := Bars(later, keyFn, k)[0];
    InBars(later, keyFn, k, b);
    forall c | c in before ensures keyFn(c.time) != k {
      EarlierBarsAreElsewhere(s, c, later[0], b, keyFn, startFn, isBucketStart) by {
        var i :| 0 <= i < |before| && before[i] == c;
        assert s[i] == c && s[|before|] == later[0];
        var j :| 0 <= j < |later| && later[j] == b;
        assert s[|before| + j] == b;
      }
    }
    NoBars(before, keyFn, k);
    BarsOfSum(before, later, keyFn, k);
    if before != [] { assert s[0] == before[0] && before[0] in before; }
  }

  /** c lies before the head h of the later part, b in a kept bucket of it. */
  lemma EarlierBarsAreElsewhere(s: seq<Candle>, c: Candle, h: Candle, b: Candle, keyFn: int -> string, startFn: int -> int, isBucketStart: int -> bool)
    requires c in s && h in s && b in s && c.time < h.time <= b.time
    requires KeysFollowTime(s, keyFn, startFn) && StartsAreFirst(s, keyFn, isBucketStart)
    requires keyFn(b.time) != keyFn(h.time) || isBucketStart(h.time)
    ensures keyFn(c.time) != keyFn(b.time)
  {
    assert FollowsTime(c, h, keyFn, startFn);
    assert FollowsTime(h, b, keyFn, startFn);
    assert FollowsTime(c, b, keyFn, startFn);
  }

  /** Every bar a later part rolls up to is one the whole series rolls up to. */
  lemma LaterPartAddsNothing(before: seq<Candle>, later: seq<Candle>, daily: seq<Candle>, laterDaily: seq<Candle>,
                             keyFn: int -> string, startFn: int -> int, isBucketStart: int -> bool)
    requires SortOf(before + later, daily) && DistinctTimes(before + later) && SortOf(later, laterDaily)
    requires KeysFollowTime(before + later, keyFn, startFn) && StartsAreFirst(before + later, keyFn, isBucketStart)
    ensures forall x | x in Trimmed(Grouped(later, keyFn, startFn), laterDaily, isBucketStart) ::
              x in Trimmed(Grouped(before + later, keyFn, startFn), daily, isBucketStart)
  {
    if later != [] {
      TrimmedRows(later, laterDaily, keyFn, startFn, isBucketStart);
      TrimmedRows(before + later, daily, keyFn, startFn, isBucketStart);
      forall x | x in Trimmed(Grouped(later, keyFn, startFn), laterDaily, isBucketStart)
        ensures x in Trimmed(Grouped(before + later, keyFn, startFn), daily, isBucketStart)
      {
        var k :| Kept(later, keyFn, isBucketStart, k) && x == Bucket(Bars(later, keyFn, k), startFn);
        KeptBucketsAreWhole(before, later, keyFn, startFn, isBucketStart, k);
      }
    }
  }
}
