/** The candle table, its bulk upsert, and its newest-first query. */
module CandleRepository {
  import opened Candles
  import opened Common

  const MAX_OUTPUT_SIZE := 5000

  datatype RowKey = RowKey(symbol: string, interval: string, time: int)

  datatype Row = Row(open: real, high: real, low: real, close: real, volume: int)

  type Table = map<RowKey, Row>

  datatype Error = DatabaseError | SecondUpdateOfRow | InvalidOutputSize | InvalidTimezone

  function KeyOf(c: Candle): RowKey {
    RowKey(c.symbol, c.interval, c.time)
  }

  function RowOf(c: Candle): Row {
    Row(c.open, c.high, c.low, c.close, c.volume)
  }

  // ----- Upsert

  function Upserted(t: Table, batch: seq<Candle>): Table
    decreases |batch|
  {
    if batch == [] then t else
      var n := |batch| - 1;
      Upserted(t, batch[..n])[KeyOf(batch[n]) := RowOf(batch[n])]
  }

  predicate DistinctKeys(batch: seq<Candle>) {
    forall i, j | 0 <= i < j < |batch| :: KeyOf(batch[i]) != KeyOf(batch[j])
  }

  /** A batch with distinct keys leaves each of its bars in the table, and nothing else changed. */
  lemma {:induction false} UpsertedRows(t: Table, batch: seq<Candle>)
    requires DistinctKeys(batch)
    ensures forall i | 0 <= i < |batch| :: KeyOf(batch[i]) in Upserted(t, batch) && Upserted(t, batch)[KeyOf(batch[i])] == RowOf(batch[i])
    ensures forall k :: k in Upserted(t, batch) <==> k in t || exists i :: 0 <= i < |batch| && KeyOf(batch[i]) == k
    ensures forall k | k in t && !(exists i :: 0 <= i < |batch| && KeyOf(batch[i]) == k) :: Upserted(t, batch)[k] == t[k]
    decreases |batch|
  {
    if batch != [] {
      var n := |batch| - 1;
      var before := batch[..n];
      assert forall i | 0 <= i < n :: before[i] == batch[i];
      UpsertedRows(t, before);
    }
  }

  ghost predicate Contains(t: Table, c: Candle) {
    KeyOf(c) in t && t[KeyOf(c)] == RowOf(c)
  }

  /** Upserting rows the table already holds changes nothing. */
  lemma {:induction false} UpsertOfPresentRows(t: Table, batch: seq<Candle>)
    requires forall c | c in batch :: Contains(t, c)
    ensures Upserted(t, batch) == t
    decreases |batch|
  {
    if batch != [] {
      var n := |batch| - 1;
      UpsertOfPresentRows(t, batch[..n]);
      assert Contains(t, batch[n]);
    }
  }

  // ----- Newest first

  predicate IsGreatest(s: set<int>, m: int) {
    m in s && forall x | x in s :: x <= m
  }

  function Greatest(s: set<int>): (m: int)
    requires s != {}
    ensures IsGreatest(s, m)
  {
    GreatestExists(s);
    var m :| IsGreatest(s, m);
    m
  }

  lemma SomeMember<T>(s: set<T>) returns (a: T)
    requires s != {}
    ensures a in s
  {
    a :| a in s;
  }

  lemma {:induction false} GreatestExists(s: set<int>)
    requires s != {}
    ensures exists m :: IsGreatest(s, m)
    decreases |s|
  {
    var a := SomeMember(s);
    var rest := s - {a};
    if rest == {} {
      assert s == {a};
      assert IsGreatest(s, a);
    } else {
      GreatestExists(rest);
      var m :| IsGreatest(rest, m);
      assert forall x | x in s :: x == a || x in rest;
      assert IsGreatest(s, if a <= m then m else a);
    }
  }

  function Descending(s: set<int>): seq<int>
    decreases |s|
  {
    if s == {} then [] else [Greatest(s)] + Descending(s - {Greatest(s)})
  }

  /** `ORDER BY time DESC` lists every time once, newest first. */
  lemma {:induction false} DescendingLists(s: set<int>)
    ensures |Descending(s)| == |s|
    ensures forall x :: x in Descending(s) <==> x in s
    ensures forall i, j | 0 <= i < j < |Descending(s)| :: Descending(s)[j] < Descending(s)[i]
    decreases |s|
  {
    if s != {} {
      var m := Greatest(s);
      var rest := Descending(s - {m});
      DescendingLists(s - {m});
      forall i, j | 0 <= i < j < |Descending(s)| ensures Descending(s)[j] < Descending(s)[i] {
        assert Descending(s)[j] == rest[j - 1];
        assert rest[j - 1] in rest;
        if i > 0 { assert Descending(s)[i] == rest[i - 1]; }
      }
    }
  }

  /** The first n, or all: a LIMIT, and the slice a caller gets of the cached bars. */
  function Take<T>(s: seq<T>, n: nat): seq<T> {
    if n >= |s| then s else s[..n]
  }

  function Times(t: Table, symbol: string, interval: string): set<int> {
    set k | k in t && k.symbol == symbol && k.interval == interval :: k.time
  }

  function CandleAt(t: Table, zone: string, symbol: string, interval: string, time: int): Candle
    requires RowKey(symbol, interval, time) in t
  {
    var r := t[RowKey(symbol, interval, time)];
    Candle(symbol, interval, time, zone, r.open, r.high, r.low, r.close, r.volume)
  }

  /** All bars of one series, newest first. */
  function Series(t: Table, zone: string, symbol: string, interval: string): (s: seq<Candle>)
    ensures |s| == |Descending(Times(t, symbol, interval))|
  {
    var times := Descending(Times(t, symbol, interval));
    DescendingLists(Times(t, symbol, interval));
    seq(|times|, i requires 0 <= i < |times| =>
      assert times[i] in times;
      CandleAt(t, zone, symbol, interval, times[i]))
  }

  predicate InSeries(t: Table, k: RowKey, symbol: string, interval: string) {
    k in t && k.symbol == symbol && k.interval == interval
  }

  /** A series holds the table's rows for its symbol and interval, each once, newest first. */
  lemma SeriesIsNewestFirst(t: Table, zone: string, symbol: string, interval: string)
    ensures var s := Series(t, zone, symbol, interval);
            && (forall c | c in s :: InSeries(t, KeyOf(c), symbol, interval) && Contains(t, c) && c.timezone == zone)
            && (forall k | InSeries(t, k, symbol, interval) :: exists c :: c in s && KeyOf(c) == k)
            && (forall i, j | 0 <= i < j < |s| :: s[j].time < s[i].time)
  {
    var s := Series(t, zone, symbol, interval);
    var times := Descending(Times(t, symbol, interval));
    DescendingLists(Times(t, symbol, interval));
    forall c | c in s ensures InSeries(t, KeyOf(c), symbol, interval) && Contains(t, c) && c.timezone == zone {
      var i :| 0 <= i < |s| && s[i] == c;
      assert times[i] in times;
    }
    forall k | InSeries(t, k, symbol, interval) ensures exists c :: c in s && KeyOf(c) == k {
      assert k.time in times;
      var i :| 0 <= i < |times| && times[i] == k.time;
      assert s[i] in s && KeyOf(s[i]) == k;
    }
    forall i, j | 0 <= i < j < |s| ensures s[j].time < s[i].time {
      assert s[i].time == times[i] && s[j].time == times[j];
    }
  }

  // ----- The repository

  /** A bar as callers get it: its time shown in a location. */
  datatype Bar = Bar(candle: Candle, location: string)

  predicate Loads(loadable: set<string>, zone: string) {
    zone != "" && zone != "Local" && zone in loadable
  }

  function InZone(s: seq<Candle>): (b: seq<Bar>)
    ensures |b| == |s|
  {
    seq(|s|, i requires 0 <= i < |s| => Bar(s[i], s[i].timezone))
  }

  /** What a query of n bars answers on table t. */
  function FindResult(t: Table, zones: map<string, string>, loadable: set<string>, symbol: string, interval: string, n: int)
    : Result<seq<Bar>, Error>
  {
    if n <= 0 || n > MAX_OUTPUT_SIZE then Failure(InvalidOutputSize)
    else if symbol !in zones then Success([])
    else
      var rows := Take(Series(t, zones[symbol], symbol, interval), n);
      if rows != [] && !Loads(loadable, zones[symbol]) then Failure(InvalidTimezone) else Success(InZone(rows))
  }

  // ----- What a query means

  function RowsOfSeries(t: Table, symbol: string, interval: string): set<RowKey> {
    set k | k in t && k.symbol == symbol && k.interval == interval
  }

  /** The bar shows its row: all columns, in the symbol's zone. */
  predicate Shows(t: Table, b: Bar, symbol: string, interval: string, zone: string) {
    && b.location == zone && b.candle.timezone == zone && b.candle.symbol == symbol && b.candle.interval == interval
    && RowKey(symbol, interval, b.candle.time) in t
    && var row := t[RowKey(symbol, interval, b.candle.time)];
       b.candle.open == row.open && b.candle.high == row.high && b.candle.low == row.low && b.candle.close == row.close && b.candle.volume == row.volume
  }

  /** `bars` are the newest n rows of the series, newest first, or all of them if there are fewer. */
  ghost predicate AreNewest(t: Table, symbol: string, interval: string, zone: string, n: int, bars: seq<Bar>) {
    && (forall i | 0 <= i < |bars| :: Shows(t, bars[i], symbol, interval, zone))
    && (forall i, j | 0 <= i < j < |bars| :: bars[j].candle.time < bars[i].candle.time)
    && |bars| == (if n < |RowsOfSeries(t, symbol, interval)| then n else |RowsOfSeries(t, symbol, interval)|)
    && forall k | k in RowsOfSeries(t, symbol, interval) ::
         (exists i :: 0 <= i < |bars| && bars[i].candle.time == k.time) || (forall i | 0 <= i < |bars| :: k.time < bars[i].candle.time)
  }

  /** The answer to a query of n bars: an error, or the newest n. A symbol that is not registered has no bars. */
  ghost predicate AnswersFind(t: Table, zones: map<string, string>, loadable: set<string>, symbol: string, interval: string, n: int,
                              r: Result<seq<Bar>, Error>) {
    if n <= 0 || n > 5000 then r == Failure(InvalidOutputSize)
    else if symbol !in zones then r == Success([])
    else if RowsOfSeries(t, symbol, interval) != {} && (zones[symbol] == "" || zones[symbol] == "Local" || zones[symbol] !in loadable) then
      r == Failure(InvalidTimezone)
    else r.Success? && AreNewest(t, symbol, interval, zones[symbol], n, r.value)
  }

  lemma SeriesSize(t: Table, zone: string, symbol: string, interval: string)
    ensures |Series(t, zone, symbol, interval)| == |RowsOfSeries(t, symbol, interval)|
  {
    var times, rows := Times(t, symbol, interval), RowsOfSeries(t, symbol, interval);
    DescendingLists(times);
    TimesAndRows(times, rows, symbol, interval);
  }

  lemma {:induction false} TimesAndRows(times: set<int>, rows: set<RowKey>, symbol: string, interval: string)
    requires forall k | k in rows :: k.symbol == symbol && k.interval == interval
    requires times == set k | k in rows :: k.time
    ensures |times| == |rows|
    decreases |rows|
  {
    if rows != {} {
      var k := SomeMember(rows);
      var rest := set j | j in rows - {k} :: j.time;
      assert times == rest + {k.time};
      assert k.time !in rest;
      TimesAndRows(rest, rows - {k}, symbol, interval);
    }
  }

  /** A query answers with the newest n rows. */
  lemma FindAnswers(t: Table, zones: map<string, string>, loadable: set<string>, symbol: string, interval: string, n: int)
    ensures AnswersFind(t, zones, loadable, symbol, interval, n, FindResult(t, zones, loadable, symbol, interval, n))
  {
    if 0 < n <= MAX_OUTPUT_SIZE && symbol in zones {
      var zone := zones[symbol];
      var s := Series(t, zone, symbol, interval);
      SeriesSize(t, zone, symbol, interval);
      SeriesIsNewestFirst(t, zone, symbol, interval);
      NewestOfSeries(t, zone, symbol, interval, n);
    }
  }

  lemma NewestOfSeries(t: Table, zone: string, symbol: string, interval: string, n: nat)
    ensures AreNewest(t, symbol, interval, zone, n, InZone(Take(Series(t, zone, symbol, interval), n)))
  {
    var s := Series(t, zone, symbol, interval);
    var bars := InZone(Take(s, n));
    SeriesSize(t, zone, symbol, interval);
    SeriesIsNewestFirst(t, zone, symbol, interval);
    forall i | 0 <= i < |bars| ensures Shows(t, bars[i], symbol, interval, zone) {
      assert bars[i].candle == s[i] && s[i] in s;
    }
    forall k | k in RowsOfSeries(t, symbol, interval)
      ensures (exists i :: 0 <= i < |bars| && bars[i].candle.time == k.time) || (forall i | 0 <= i < |bars| :: k.time < bars[i].candle.time)
    {
      assert InSeries(t, k, symbol, interval);
      var c :| c in s && KeyOf(c) == k;
      var j :| 0 <= j < |s| && s[j] == c;
      if j < |bars| { assert bars[j].candle.time == k.time; }
    }
  }

  /** What a batch stored, a query shows: the bar comes back, in its symbol's zone, if the query reaches that far. */
  lemma StoredBarsAreFound(t: Table, batch: seq<Candle>, c: Candle, zones: map<string, string>, loadable: set<string>, n: int)
    requires DistinctKeys(batch) && c in batch && c.symbol in zones
    requires |RowsOfSeries(Upserted(t, batch), c.symbol, c.interval)| <= n <= 5000
    ensures var r := FindResult(Upserted(t, batch), zones, loadable, c.symbol, c.interval, n);
            if zones[c.symbol] == "" || zones[c.symbol] == "Local" || zones[c.symbol] !in loadable then r == Failure(InvalidTimezone)
            else r.Success? && Bar(c.(timezone := zones[c.symbol]), zones[c.symbol]) in r.value
  {
    var u, k := Upserted(t, batch), RowKey(c.symbol, c.interval, c.time);
    UpsertedRows(t, batch);
    var rows := RowsOfSeries(u, c.symbol, c.interval);
    assert k in rows;
    FindAnswers(u, zones, loadable, c.symbol, c.interval, n);
    var r := FindResult(u, zones, loadable, c.symbol, c.interval, n);
    if r.Success? {
      AllRowsAreShown(u, c.symbol, c.interval, zones[c.symbol], n, r.value, k);
      var i :| 0 <= i < |r.value| && r.value[i].candle.time == c.time;
      assert Shows(u, r.value[i], c.symbol, c.interval, zones[c.symbol]);
      assert r.value[i] == Bar(c.(timezone := zones[c.symbol]), zones[c.symbol]);
    }
  }

  /** If there are no more rows than asked for, every row is shown. */
  lemma AllRowsAreShown(t: Table, symbol: string, interval: string, zone: string, n: int, bars: seq<Bar>, k: RowKey)
    requires AreNewest(t, symbol, interval, zone, n, bars) && |RowsOfSeries(t, symbol, interval)| <= n
    requires k in RowsOfSeries(t, symbol, interval)
    ensures exists i :: 0 <= i < |bars| && bars[i].candle.time == k.time
  {
    if forall i | 0 <= i < |bars| :: bars[i].candle.time != k.time {
      ShownKeys(t, symbol, interval, zone, bars, |bars|);
      var shown := KeysShown(symbol, interval, bars, |bars|);
      SubsetSize(shown, RowsOfSeries(t, symbol, interval) - {k});
      assert false;
    }
  }

  function KeysShown(symbol: string, interval: string, bars: seq<Bar>, n: nat): set<RowKey>
    requires n <= |bars|
  {
    set i | 0 <= i < n :: RowKey(symbol, interval, bars[i].candle.time)
  }

  lemma MoreKeysShown(symbol: string, interval: string, bars: seq<Bar>, n: nat)
    requires 0 < n <= |bars| && forall i, j | 0 <= i < j < |bars| :: bars[j].candle.time < bars[i].candle.time
    ensures var last, before := RowKey(symbol, interval, bars[n - 1].candle.time), KeysShown(symbol, interval, bars, n - 1);
            last !in before && KeysShown(symbol, interval, bars, n) == before + {last}
  {
  }

  lemma {:induction false} ShownKeys(t: Table, symbol: string, interval: string, zone: string, bars: seq<Bar>, n: nat)
    requires (forall i | 0 <= i < |bars| :: Shows(t, bars[i], symbol, interval, zone)) && n <= |bars|
    requires forall i, j | 0 <= i < j < |bars| :: bars[j].candle.time < bars[i].candle.time
    ensures |KeysShown(symbol, interval, bars, n)| == n && KeysShown(symbol, interval, bars, n) <= RowsOfSeries(t, symbol, interval)
    decreases n
  {
    if n > 0 {
      ShownKeys(t, symbol, interval, zone, bars, n - 1);
      MoreKeysShown(symbol, interval, bars, n);
      assert Shows(t, bars[n - 1], symbol, interval, zone);
    }
  }

  lemma {:induction false} SubsetSize(a: set<RowKey>, b: set<RowKey>)
    requires a <= b
    ensures |a| <= |b|
    decreases |a|
  {
    if a != {} {
      var x := SomeMember(a);
      SubsetSize(a - {x}, b - {x});
    }
  }

  lemma InZoneMore(rows: seq<Candle>, i: nat)
    requires i < |rows|
    ensures InZone(rows[..i + 1]) == InZone(rows[..i]) + [Bar(rows[i], rows[i].timezone)]
  {
  }

  class DbRepository {
    var candles: Table
    var zones: map<string, string>
    const loadable: set<string>

    constructor (zones: map<string, string>, loadable: set<string>)
      ensures candles == map[] && this.zones == zones && this.loadable == loadable
    {
      this.candles := map[];
      this.zones := zones;
      this.loadable := loadable;
    }

    /** One statement: either every row is written or none is. `fault` is any other database error. */
    method UpsertBatch(batch: seq<Candle>, fault: bool) returns (r: Result<(), Error>)
      modifies `candles
      ensures r.Success? <==> batch == [] || (!fault && DistinctKeys(batch) && forall c | c in batch :: c.symbol in zones)
      ensures r == Failure(SecondUpdateOfRow) ==> !DistinctKeys(batch)
      ensures candles == if r.Success? then Upserted(old(candles), batch) else old(candles)
    {
      if |batch| == 0 {
        return Success(());
      }
      if fault || exists c :: c in batch && c.symbol !in zones {
        return Failure(DatabaseError);
      }
      if !DistinctKeys(batch) {
        return Failure(SecondUpdateOfRow);
      }
      candles := Upserted(candles, batch);
      return Success(());
    }

    method Find(symbol: string, interval: string, outputsize: int, fault: bool) returns (r: Result<seq<Bar>, Error>)
      ensures r == if fault && 0 < outputsize <= MAX_OUTPUT_SIZE then Failure(DatabaseError)
                   else FindResult(candles, zones, loadable, symbol, interval, outputsize)
      ensures if fault && 0 < outputsize <= 5000 then r == Failure(DatabaseError)
              else AnswersFind(candles, zones, loadable, symbol, interval, outputsize, r)
    {
      FindAnswers(candles, zones, loadable, symbol, interval, outputsize);
      if outputsize <= 0 || outputsize > MAX_OUTPUT_SIZE {
        return Failure(InvalidOutputSize);
      }
      if fault {
        return Failure(DatabaseError);
      }
      var rows := if symbol in zones then Take(Series(candles, zones[symbol], symbol, interval), outputsize) else [];
      var out: seq<Bar> := [];
      var loc: Option<string> := None;
      for i := 0 to |rows|
        invariant out == InZone(rows[..i])
        invariant if i == 0 then loc == None else loc == Some(zones[symbol]) && Loads(loadable, zones[symbol])
      {
        if loc == None {
          assert rows[0].timezone == zones[symbol];
          if rows[i].timezone == "" || rows[i].timezone == "Local" || rows[i].timezone !in loadable {
            return Failure(InvalidTimezone);
          }
          loc := Some(rows[i].timezone);
        }
        assert rows[i].timezone == loc.value;
        InZoneMore(rows, i);
        out := out + [Bar(rows[i], loc.value)];
      }
      assert rows[..|rows|] == rows;
      return Success(out);
    }
  }
}
