/** OHLCV bars and their order in time. */
module Candles {

  /** `time` counts whole seconds since the Unix epoch. */
  datatype Candle = Candle(symbol: string, interval: string, time: int, timezone: string,
                           open: real, high: real, low: real, close: real, volume: int)

  predicate ByTime(s: seq<Candle>) {
    forall i, j | 0 <= i < j < |s| :: s[i].time <= s[j].time
  }

  /** All that may be assumed of an unstable sort: some ordered permutation. */
  predicate SortOf(s: seq<Candle>, bars: seq<Candle>) {
    ByTime(s) && multiset(s) == multiset(bars)
  }

  ghost predicate DistinctTimes(s: seq<Candle>) {
    forall i, j | 0 <= i < j < |s| :: s[i].time != s[j].time
  }

  function Insert(c: Candle, s: seq<Candle>): seq<Candle> {
    if s == [] || c.time <= s[0].time then [c] + s else [s[0]] + Insert(c, s[1..])
  }

  function Sorted(bars: seq<Candle>): seq<Candle> {
    if bars == [] then [] else Insert(bars[0], Sorted(bars[1..]))
  }

  lemma {:induction false} InsertSorts(c: Candle, s: seq<Candle>)
    requires ByTime(s)
    ensures SortOf(Insert(c, s), [c] + s)
    decreases |s|
  {
    if s != [] && c.time > s[0].time {
      var r := Insert(c, s[1..]);
      InsertSorts(c, s[1..]);
      assert s == [s[0]] + s[1..];
      FirstIsLeast([s[0]] + r, c, s);
    }
  }

  lemma FirstIsLeast(t: seq<Candle>, c: Candle, s: seq<Candle>)
    requires s != [] && ByTime(s) && t != [] && t[0] == s[0] && s[0].time <= c.time
    requires SortOf(t[1..], [c] + s[1..])
    ensures ByTime(t)
  {
    forall j | 1 <= j < |t| ensures s[0].time <= t[j].time {
      assert t[j] == t[1..][j - 1];
      assert t[j] in multiset([c] + s[1..]);
    }
    assert forall i, j | 1 <= i < j < |t| :: t[i] == t[1..][i - 1] && t[j] == t[1..][j - 1];
  }

  /** Sorting is possible. */
  lemma {:induction false} SortedSorts(bars: seq<Candle>)
    ensures SortOf(Sorted(bars), bars)
    decreases |bars|
  {
    if bars != [] {
      SortedSorts(bars[1..]);
      InsertSorts(bars[0], Sorted(bars[1..]));
      assert bars == [bars[0]] + bars[1..];
    }
  }

  /** `slices.SortFunc` on a clone: the order of equal times is left open. */
  method SortByTime(bars: seq<Candle>) returns (s: seq<Candle>)
    ensures SortOf(s, bars)
  {
    SortedSorts(bars);
    s :| SortOf(s, bars);
  }

  function Without(s: seq<Candle>, a: nat): (r: seq<Candle>)
    requires a < |s|
    ensures multiset(s) == multiset(r) + multiset{s[a]}
  {
    assert s == s[..a] + [s[a]] + s[a + 1..];
    s[..a] + s[a + 1..]
  }

  lemma CancelOne(a: multiset<Candle>, b: multiset<Candle>, c: Candle)
    requires multiset{c} + a == b + multiset{c}
    ensures a == b
  {
    forall x: Candle ensures a[x] == b[x] {
      assert (multiset{c} + a)[x] == (b + multiset{c})[x];
    }
  }

  lemma HeadAndTail(s: seq<Candle>)
    requires s != []
    ensures s == [s[0]] + s[1..]
    ensures multiset(s) == multiset{s[0]} + multiset(s[1..])
  {
    assert s == [s[0]] + s[1..];
  }

  lemma RestDiffers(bars: seq<Candle>, a: nat)
    requires a < |bars| && DistinctTimes(bars)
    ensures DistinctTimes(Without(bars, a))
    ensures forall c | c in multiset(Without(bars, a)) :: c.time != bars[a].time
  {
    var rest := Without(bars, a);
    assert forall i | 0 <= i < |rest| :: rest[i] == bars[if i < a then i else i + 1];
  }

  lemma {:induction false} DistinctBag(s: seq<Candle>, bars: seq<Candle>)
    requires multiset(s) == multiset(bars) && DistinctTimes(bars)
    ensures DistinctTimes(s)
    decreases |s|
  {
    if s != [] {
      assert s[0] in multiset(bars);
      var a: nat :| a < |bars| && bars[a] == s[0];
      var rest := Without(bars, a);
      HeadAndTail(s);
      CancelOne(multiset(s[1..]), multiset(rest), s[0]);
      RestDiffers(bars, a);
      DistinctBag(s[1..], rest);
      forall i, j | 0 <= i < j < |s| ensures s[i].time != s[j].time {
        assert s[j] == s[1..][j - 1];
        if i == 0 { assert s[j] in multiset(rest); } else { assert s[i] == s[1..][i - 1]; }
      }
    }
  }

  /** With distinct times there is only one sort. */
  lemma {:induction false} SortIsUnique(s: seq<Candle>, t: seq<Candle>)
    requires SortOf(s, t) && ByTime(t) && DistinctTimes(t)
    ensures s == t
    decreases |t|
  {
    assert |multiset(s)| == |s| && |multiset(t)| == |t|;
    if t != [] {
      assert s[0] in multiset(t) && t[0] in multiset(s);
      assert s[0].time == t[0].time;
      assert s[0] == t[0];
      HeadAndTail(s);
      HeadAndTail(t);
      CancelOne(multiset(s[1..]), multiset(t[1..]), s[0]);
      SortIsUnique(s[1..], t[1..]);
    }
  }

  lemma SortedIsTheSort(s: seq<Candle>, bars: seq<Candle>)
    requires SortOf(s, bars) && DistinctTimes(bars)
    ensures s == Sorted(bars)
  {
    SortedSorts(bars);
    DistinctBag(Sorted(bars), bars);
    SortIsUnique(s, Sorted(bars));
  }
}
