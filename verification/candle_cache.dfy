/** The Redis read-through cache in front of the candle table. */
module CandleCache {
  import opened CandleRepository
  import opened Candles
  import opened Common
  import Separators

  const LATEST_CACHE_SIZE := 200
  const LATEST_CACHE_VERSION := 2

  /**
   * What may sit under a key. JSON keeps the instant and the UTC offset of a time, not
   * the name of its location, so cached bars are plain candles. `candles` is None when
   * the field is missing or null.
   */
  datatype Payload =
    | Empty
    | NotJson
    | LegacyArray(bars: seq<Candle>)
    | Envelope(version: int, candles: Option<seq<Candle>>)

  datatype Entry = Entry(payload: Payload, expires: int)

  // ----- Keys

  /** `safeCacheKey` */
  function Safe(s: string): (r: string)
    ensures |r| == |s|
    ensures ':' !in r && ' ' !in r
    ensures ':' !in s && ' ' !in s ==> r == s
  {
    if s == [] then [] else [if s[0] == ' ' || s[0] == ':' then '_' else s[0]] + Safe(s[1..])
  }

  /** Spaces and colons become underscores, and nothing else changes. */
  lemma {:induction false} SafeReplaces(s: string, i: nat)
    requires i < |s|
    ensures Safe(s)[i] == if s[i] == ' ' || s[i] == ':' then '_' else s[i]
    decreases |s|
  {
    if i > 0 { SafeReplaces(s[1..], i - 1); }
  }

  /** `cacheKey` */
  function CacheKey(namespace: string, symbol: string, interval: string): string {
    namespace + ":" + Safe(symbol) + ":" + Safe(interval)
  }

  /** Two requests share a key exactly when their escaped names agree. */
  lemma KeysCollide(namespace: string, s: string, i: string, t: string, j: string)
    ensures CacheKey(namespace, s, i) == CacheKey(namespace, t, j) <==> Safe(s) == Safe(t) && Safe(i) == Safe(j)
  {
    if CacheKey(namespace, s, i) == CacheKey(namespace, t, j) {
      Separators.SplitAtLast(namespace + ":" + Safe(s), namespace + ":" + Safe(t), ':', Safe(i), Safe(j));
      Separators.SplitAtLast(namespace, namespace, ':', Safe(s), Safe(t));
    }
  }

  /** `^[A-Za-z0-9._-]{1,20}$` */
  predicate AcceptedCode(s: string) {
    && 1 <= |s| <= 20
    && forall c | c in s :: 'A' <= c <= 'Z' || 'a' <= c <= 'z' || '0' <= c <= '9' || c == '.' || c == '_' || c == '-'
  }

  predicate ValidInterval(i: string) {
    i in {"1day", "1week", "1month"}
  }

  predicate Accepted(symbol: string, interval: string) {
    AcceptedCode(symbol) && ValidInterval(interval)
  }

  lemma ValidIntervalIsSafe(i: string)
    requires ValidInterval(i)
    ensures Safe(i) == i
  {
    assert ':' !in "1day" && ' ' !in "1day";
    assert ':' !in "1week" && ' ' !in "1week";
    assert ':' !in "1month" && ' ' !in "1month";
  }

  /** On everything the handler lets through, keys are distinct. */
  lemma KeysAreInjective(namespace: string, s: string, i: string, t: string, j: string)
    requires Accepted(s, i) && Accepted(t, j)
    requires CacheKey(namespace, s, i) == CacheKey(namespace, t, j)
    ensures s == t && i == j
  {
    KeysCollide(namespace, s, i, t, j);
    ValidIntervalIsSafe(i);
    ValidIntervalIsSafe(j);
  }

  // ----- Values

  function Encode(all: seq<Bar>): Payload {
    Envelope(LATEST_CACHE_VERSION, Some(Plain(all)))
  }

  function Plain(all: seq<Bar>): (s: seq<Candle>)
    ensures |s| == |all|
  {
    seq(|all|, i requires 0 <= i < |all| => all[i].candle)
  }

  function Restored(s: seq<Candle>, loadable: set<string>): Option<seq<Bar>> {
    if forall c | c in s :: Loads(loadable, c.timezone) then Some(InZone(s)) else None
  }

  function Decode(p: Payload, loadable: set<string>): Option<seq<Bar>> {
    match p
    case LegacyArray(bars) => Restored(bars, loadable)
    case Envelope(version, candles) =>
      if version == LATEST_CACHE_VERSION && candles.Some? then Restored(candles.value, loadable) else None
    case _ => None
  }

  /** Bars shown in the loadable zone they carry: exactly those survive a trip through the cache. */
  predicate Restorable(all: seq<Bar>, loadable: set<string>) {
    forall b | b in all :: b.location == b.candle.timezone && Loads(loadable, b.candle.timezone)
  }

  lemma CacheRoundTrip(all: seq<Bar>, loadable: set<string>)
    ensures Decode(Encode(all), loadable) == Some(all) <==> Restorable(all, loadable)
  {
    var plain := Plain(all);
    if Restorable(all, loadable) {
      forall c | c in plain ensures Loads(loadable, c.timezone) {
        var i :| 0 <= i < |plain| && plain[i] == c;
        assert all[i] in all;
      }
      assert forall i | 0 <= i < |all| :: all[i] in all;
      assert InZone(plain) == all;
    } else {
      var b :| b in all && !(b.location == b.candle.timezone && Loads(loadable, b.candle.timezone));
      var i :| 0 <= i < |all| && all[i] == b;
      assert plain[i] in plain;
      assert InZone(plain)[i].location == b.candle.timezone;
    }
  }

  /** Everything the repository returns can be restored. */
  lemma FoundBarsAreRestorable(t: Table, zones: map<string, string>, loadable: set<string>, symbol: string, interval: string, n: int)
    requires FindResult(t, zones, loadable, symbol, interval, n).Success?
    ensures Restorable(FindResult(t, zones, loadable, symbol, interval, n).value, loadable)
  {
    if symbol in zones {
      var series := Series(t, zones[symbol], symbol, interval);
      assert forall i | 0 <= i < |series| :: series[i].timezone == zones[symbol];
    }
  }

  /** The first n of the newest 200 are the newest n. */
  lemma PrefixOfLatest(t: Table, zones: map<string, string>, loadable: set<string>, symbol: string, interval: string, n: int)
    requires 1 <= n <= LATEST_CACHE_SIZE
    ensures var latest := FindResult(t, zones, loadable, symbol, interval, LATEST_CACHE_SIZE);
            FindResult(t, zones, loadable, symbol, interval, n) ==
            if latest.Success? then Success(Take(latest.value, n)) else latest
  {
    if symbol in zones {
      var series := Series(t, zones[symbol], symbol, interval);
      assert InZone(Take(series, n)) == Take(InZone(Take(series, LATEST_CACHE_SIZE)), n);
    }
  }

  // ----- Series that a batch does not touch

  predicate Touches(batch: seq<Candle>, symbol: string, interval: string) {
    exists c :: c in batch && c.symbol == symbol && c.interval == interval
  }

  lemma {:induction false} OtherRowsStay(t: Table, batch: seq<Candle>, symbol: string, interval: string, time: int)
    requires !Touches(batch, symbol, interval)
    ensures var k := RowKey(symbol, interval, time);
            (k in Upserted(t, batch) <==> k in t) && (k in t ==> Upserted(t, batch)[k] == t[k])
    decreases |batch|
  {
    if batch != [] {
      var n := |batch| - 1;
      assert batch[n] in batch && forall c | c in batch[..n] :: c in batch;
      OtherRowsStay(t, batch[..n], symbol, interval, time);
    }
  }

  /** A batch changes the answers for the series it holds bars of, and no others. */
  lemma UntouchedSeries(t: Table, batch: seq<Candle>, zones: map<string, string>, loadable: set<string>, symbol: string, interval: string, n: int)
    requires !Touches(batch, symbol, interval)
    ensures FindResult(Upserted(t, batch), zones, loadable, symbol, interval, n) == FindResult(t, zones, loadable, symbol, interval, n)
  {
    var u := Upserted(t, batch);
    forall time ensures time in Times(u, symbol, interval) <==> time in Times(t, symbol, interval) {
      OtherRowsStay(t, batch, symbol, interval, time);
      assert time in Times(t, symbol, interval) <==> RowKey(symbol, interval, time) in t;
      assert time in Times(u, symbol, interval) <==> RowKey(symbol, interval, time) in u;
    }
    assert Times(u, symbol, interval) == Times(t, symbol, interval);
    if symbol in zones {
      var s, r := Series(t, zones[symbol], symbol, interval), Series(u, zones[symbol], symbol, interval);
      var times := Descending(Times(t, symbol, interval));
      DescendingLists(Times(t, symbol, interval));
      forall i | 0 <= i < |s| ensures r[i] == s[i] {
        assert times[i] in times;
        OtherRowsStay(t, batch, symbol, interval, times[i]);
      }
      assert r == s;
    }
  }

  // ----- Coherence of the cache with the table

  predicate Readable(redis: map<string, Entry>, loadable: set<string>, key: string) {
    key in redis && Decode(redis[key].payload, loadable).Some?
  }

  predicate Current(redis: map<string, Entry>, namespace: string, t: Table, zones: map<string, string>, loadable: set<string>, s: string, i: string) {
    var key := CacheKey(namespace, s, i);
    Readable(redis, loadable, key) ==>
      FindResult(t, zones, loadable, s, i, LATEST_CACHE_SIZE) == Success(Decode(redis[key].payload, loadable).value)
  }

  /** Every readable entry of an accepted series is the series' current answer. */
  ghost predicate CoherentWith(redis: map<string, Entry>, namespace: string, t: Table, zones: map<string, string>, loadable: set<string>) {
    forall s, i {:trigger Current(redis, namespace, t, zones, loadable, s, i)} | Accepted(s, i) ::
      Current(redis, namespace, t, zones, loadable, s, i)
  }

  /** Storing what the database answers for a series under the series' key. */
  lemma FillKeepsCoherence(redis: map<string, Entry>, namespace: string, t: Table, zones: map<string, string>, loadable: set<string>,
                           symbol: string, interval: string, all: seq<Bar>, expires: int)
    requires CoherentWith(redis, namespace, t, zones, loadable) && Accepted(symbol, interval)
    requires FindResult(t, zones, loadable, symbol, interval, LATEST_CACHE_SIZE) == Success(all)
    ensures CoherentWith(redis[CacheKey(namespace, symbol, interval) := Entry(Encode(all), expires)], namespace, t, zones, loadable)
  {
    var key := CacheKey(namespace, symbol, interval);
    var now := redis[key := Entry(Encode(all), expires)];
    FoundBarsAreRestorable(t, zones, loadable, symbol, interval, LATEST_CACHE_SIZE);
    CacheRoundTrip(all, loadable);
    forall s, i | Accepted(s, i) ensures Current(now, namespace, t, zones, loadable, s, i) {
      if CacheKey(namespace, s, i) == key {
        KeysAreInjective(namespace, s, i, symbol, interval);
      } else {
        assert Current(redis, namespace, t, zones, loadable, s, i);
      }
    }
  }

  /** Losing entries is harmless. */
  lemma LossKeepsCoherence(redis: map<string, Entry>, fewer: map<string, Entry>, namespace: string, t: Table, zones: map<string, string>,
                           loadable: set<string>)
    requires CoherentWith(redis, namespace, t, zones, loadable)
    requires forall k | k in fewer :: k in redis && fewer[k] == redis[k]
    ensures CoherentWith(fewer, namespace, t, zones, loadable)
  {
    forall s, i | Accepted(s, i) ensures Current(fewer, namespace, t, zones, loadable, s, i) {
      assert Current(redis, namespace, t, zones, loadable, s, i);
    }
  }

  /** After a batch, coherence needs the keys of the batch's series gone. */
  lemma DeletionKeepsCoherence(redis: map<string, Entry>, fewer: map<string, Entry>, namespace: string, t: Table, zones: map<string, string>,
                               loadable: set<string>, batch: seq<Candle>)
    requires CoherentWith(redis, namespace, t, zones, loadable)
    requires forall k | k in fewer :: k in redis && fewer[k] == redis[k]
    requires forall c | c in batch :: CacheKey(namespace, c.symbol, c.interval) !in fewer
    ensures CoherentWith(fewer, namespace, Upserted(t, batch), zones, loadable)
  {
    forall s, i | Accepted(s, i) ensures Current(fewer, namespace, Upserted(t, batch), zones, loadable, s, i) {
      if CacheKey(namespace, s, i) in fewer {
        assert Current(redis, namespace, t, zones, loadable, s, i);
        assert !Touches(batch, s, i);
        UntouchedSeries(t, batch, zones, loadable, s, i, LATEST_CACHE_SIZE);
      }
    }
  }

  // ----- The repository

  datatype RedisFaults = RedisFaults(get: bool, setNx: bool, del: bool)

  class CachingRepository {
    const inner: DbRepository
    const hasRedis: bool
    const ttl: int
    const namespace: string
    var redis: map<string, Entry>

    constructor (hasRedis: bool, ttl: int, inner: DbRepository, namespace: string)
      ensures this.inner == inner && this.hasRedis == hasRedis && redis == map[] && Coherent()
      ensures this.ttl == if ttl <= 0 then 300 else ttl
      ensures this.namespace == if namespace == "" then "candles" else namespace
    {
      this.inner := inner;
      this.hasRedis := hasRedis;
      this.ttl := if ttl <= 0 then 300 else ttl;
      this.namespace := if namespace == "" then "candles" else namespace;
      redis := map[];
    }

    ghost predicate Coherent()
      reads this, inner
    {
      && (!hasRedis ==> redis == map[])
      && CoherentWith(redis, namespace, inner.candles, inner.zones, inner.loadable)
    }

    /** `restoreCachedTimezone`, in place. */
    method RestoreCachedTimezone(bars: array<Bar>) returns (ok: bool)
      modifies bars
      ensures ok <==> Restored(Plain(old(bars[..])), inner.loadable).Some?
      ensures ok ==> bars[..] == Restored(Plain(old(bars[..])), inner.loadable).value
    {
      var locations: set<string> := {};
      ghost var plain := Plain(bars[..]);
      for i := 0 to bars.Length
        invariant forall z | z in locations :: Loads(inner.loadable, z)
        invariant forall j | 0 <= j < i :: Loads(inner.loadable, plain[j].timezone)
        invariant forall j | 0 <= j < bars.Length ::
          bars[j] == if j < i then Bar(plain[j], plain[j].timezone) else old(bars[j])
      {
        var zone := bars[i].candle.timezone;
        assert plain[i] in plain && zone == plain[i].timezone;
        if zone == "" || zone == "Local" {
          return false;
        }
        if zone !in locations {
          if zone !in inner.loadable {
            return false;
          }
          locations := locations + {zone};
        }
        bars[i] := bars[i].(location := zone);
      }
      assert bars[..] == InZone(plain);
      return true;
    }

    /** Only the current version 2 and the legacy array, and only bars that name a zone that loads. */
    method DecodeCachedCandles(p: Payload) returns (all: Option<seq<Bar>>)
      ensures all == Decode(p, inner.loadable)
      ensures all.Some? <==>
              exists bars: seq<Candle> :: (p == LegacyArray(bars) || p == Envelope(2, Some(bars)))
                && forall i | 0 <= i < |bars| :: bars[i].timezone != "" && bars[i].timezone != "Local" && bars[i].timezone in inner.loadable
      ensures all.Some? ==>
              exists bars: seq<Candle> :: (p == LegacyArray(bars) || p == Envelope(2, Some(bars)))
                && |all.value| == |bars| && forall i | 0 <= i < |bars| :: all.value[i] == Bar(bars[i], bars[i].timezone)
    {
      var candles: seq<Candle>;
      match p {
        case LegacyArray(bars) => candles := bars;
        case Envelope(version, c) =>
          if version != LATEST_CACHE_VERSION || c.None? {
            return None;
          }
          candles := c.value;
        case _ => return None;
      }
      var bars := new Bar[|candles|](i requires 0 <= i < |candles| => Bar(candles[i], ""));
      assert Plain(bars[..]) == candles;
      var ok := RestoreCachedTimezone(bars);
      if !ok {
        return None;
      }
      return Some(bars[..]);
    }

    /** The entry of the series is there, alive and readable. */
    predicate Hits(symbol: string, interval: string, now: int, faults: RedisFaults)
      reads this, inner
    {
      var key := CacheKey(namespace, symbol, interval);
      hasRedis && !faults.get && key in redis && now < redis[key].expires && Decode(redis[key].payload, inner.loadable).Some?
    }

    /** A live entry that is not readable and can be deleted, or no live entry. */
    predicate Vacant(symbol: string, interval: string, now: int, faults: RedisFaults)
      reads this
    {
      var key := CacheKey(namespace, symbol, interval);
      key !in redis || redis[key].expires <= now || (!faults.get && !faults.del && redis[key].payload != Empty)
    }

    /**
     * `Find` at time `now`; `dbFault` and `faults` are what fails during the call. A hit
     * does not need the database; a miss stores the newest 200 for the lifetime.
     */
    method Find(symbol: string, interval: string, outputsize: int, now: int, dbFault: bool, faults: RedisFaults)
      returns (r: Result<seq<Bar>, Error>)
      requires Accepted(symbol, interval) && Coherent()
      modifies `redis
      ensures Coherent()
      ensures AnswersFind(inner.candles, inner.zones, inner.loadable, symbol, interval, outputsize, r)
              || (dbFault && r == Failure(DatabaseError) && 1 <= outputsize <= 5000)
      ensures 1 <= outputsize <= 200 && old(Hits(symbol, interval, now, faults)) ==> r.Success? && redis == old(redis)
      ensures 1 <= outputsize <= 200 && hasRedis && !old(Hits(symbol, interval, now, faults)) && dbFault ==> r == Failure(DatabaseError)
      ensures 1 <= outputsize <= 200 && hasRedis && r.Success? && !faults.setNx
              && !old(Hits(symbol, interval, now, faults)) && old(Vacant(symbol, interval, now, faults)) ==>
              var key := CacheKey(namespace, symbol, interval);
              && key in redis && redis[key].expires == now + ttl && Decode(redis[key].payload, inner.loadable).Some?
              && AnswersFind(inner.candles, inner.zones, inner.loadable, symbol, interval, 200, Success(Decode(redis[key].payload, inner.loadable).value))
      ensures !hasRedis || outputsize < 1 || outputsize > 200 ==> redis == old(redis)
      ensures forall k | k != CacheKey(namespace, symbol, interval) ::
              (k in redis <==> k in old(redis)) && (k in redis ==> redis[k] == old(redis)[k])
    {
      FindAnswers(inner.candles, inner.zones, inner.loadable, symbol, interval, outputsize);
      if outputsize <= 0 || outputsize > MAX_OUTPUT_SIZE {
        return Failure(InvalidOutputSize);
      }
      if !hasRedis || outputsize > LATEST_CACHE_SIZE {
        r := inner.Find(symbol, interval, outputsize, dbFault);
        return;
      }
      PrefixOfLatest(inner.candles, inner.zones, inner.loadable, symbol, interval, outputsize);
      var cached := ReadCache(symbol, interval, now, faults);
      if cached.Some? {
        return Success(Take(cached.value, outputsize));
      }
      var found := FillFromDatabase(symbol, interval, now, dbFault, faults.setNx);
      if found.Failure? {
        return found;
      }
      return Success(Take(found.value, outputsize));
    }

    /** The cache half of `Find`: a readable entry, or nothing; an unreadable one is deleted. */
    method ReadCache(symbol: string, interval: string, now: int, faults: RedisFaults) returns (all: Option<seq<Bar>>)
      requires Accepted(symbol, interval) && Coherent() && hasRedis
      modifies `redis
      ensures Coherent()
      ensures all.Some? <==> old(Hits(symbol, interval, now, faults))
      ensures all.Some? ==>
              && FindResult(inner.candles, inner.zones, inner.loadable, symbol, interval, LATEST_CACHE_SIZE) == Success(all.value)
              && redis == old(redis)
      ensures var key := CacheKey(namespace, symbol, interval);
              all.None? ==>
                redis == if key in old(redis) && now < old(redis)[key].expires && old(redis)[key].payload != Empty && !faults.get && !faults.del
                         then old(redis) - {key} else old(redis)
    {
      var key := CacheKey(namespace, symbol, interval);
      if !faults.get && key in redis && now < redis[key].expires && redis[key].payload != Empty {
        all := DecodeCachedCandles(redis[key].payload);
        if all.Some? {
          assert Current(redis, namespace, inner.candles, inner.zones, inner.loadable, symbol, interval);
          return;
        }
        if !faults.del {
          LossKeepsCoherence(redis, redis - {key}, namespace, inner.candles, inner.zones, inner.loadable);
          redis := redis - {key};
          assert CoherentWith(redis, namespace, inner.candles, inner.zones, inner.loadable);
        }
      }
      return None;
    }

    /** The cache-miss half of `Find`: read the newest 200, store them unless the key is taken. */
    method FillFromDatabase(symbol: string, interval: string, now: int, dbFault: bool, setFault: bool) returns (found: Result<seq<Bar>, Error>)
      requires Accepted(symbol, interval) && Coherent() && hasRedis
      modifies `redis
      ensures Coherent()
      ensures found == if dbFault then Failure(DatabaseError)
                       else FindResult(inner.candles, inner.zones, inner.loadable, symbol, interval, LATEST_CACHE_SIZE)
      ensures !dbFault ==> AnswersFind(inner.candles, inner.zones, inner.loadable, symbol, interval, 200, found)
      ensures found.Success? ==> Decode(Encode(found.value), inner.loadable) == Some(found.value)
      ensures var key := CacheKey(namespace, symbol, interval);
              redis == if found.Success? && !setFault && (key in old(redis) ==> old(redis)[key].expires <= now)
                       then old(redis)[key := Entry(Encode(found.value), now + ttl)] else old(redis)
    {
      FindAnswers(inner.candles, inner.zones, inner.loadable, symbol, interval, LATEST_CACHE_SIZE);
      found := inner.Find(symbol, interval, LATEST_CACHE_SIZE, dbFault);
      if found.Failure? {
        return;
      }
      FoundBarsAreRestorable(inner.candles, inner.zones, inner.loadable, symbol, interval, LATEST_CACHE_SIZE);
      CacheRoundTrip(found.value, inner.loadable);
      SetNx(symbol, interval, found.value, now, setFault);
    }

    /** Best effort: stores the answer unless the key is taken. */
    method SetNx(symbol: string, interval: string, all: seq<Bar>, now: int, fault: bool)
      requires Accepted(symbol, interval) && Coherent() && hasRedis
      requires FindResult(inner.candles, inner.zones, inner.loadable, symbol, interval, LATEST_CACHE_SIZE) == Success(all)
      modifies `redis
      ensures Coherent()
      ensures var key := CacheKey(namespace, symbol, interval);
              redis == if !fault && (key in old(redis) ==> old(redis)[key].expires <= now)
                       then old(redis)[key := Entry(Encode(all), now + ttl)] else old(redis)
    {
      var key := CacheKey(namespace, symbol, interval);
      if !fault && (key !in redis || redis[key].expires <= now) {
        FillKeepsCoherence(redis, namespace, inner.candles, inner.zones, inner.loadable, symbol, interval, all, now + ttl);
        redis := redis[key := Entry(Encode(all), now + ttl)];
        assert CoherentWith(redis, namespace, inner.candles, inner.zones, inner.loadable);
      }
    }

    /** `UpsertBatch`; the deletions of the keys in `stuck` fail. */
    method UpsertBatch(batch: seq<Candle>, dbFault: bool, stuck: set<string>) returns (r: Result<(), Error>)
      requires Coherent()
      modifies `redis, inner`candles
      ensures r.Success? <==> batch == [] || (!dbFault && DistinctKeys(batch) && forall c | c in batch :: c.symbol in inner.zones)
      ensures inner.candles == if r.Success? then Upserted(old(inner.candles), batch) else old(inner.candles)
      ensures stuck == {} ==> Coherent()
      ensures hasRedis && r.Success? ==>
              forall c | c in batch && CacheKey(namespace, c.symbol, c.interval) !in stuck :: CacheKey(namespace, c.symbol, c.interval) !in redis
      ensures forall k | k in redis :: k in old(redis) && redis[k] == old(redis[k])
      ensures forall k | k in old(redis) && k !in redis :: r.Success? && exists c :: c in batch && CacheKey(namespace, c.symbol, c.interval) == k
    {
      r := inner.UpsertBatch(batch, dbFault);
      if r.Failure? {
        return;
      }
      if !hasRedis || |batch| == 0 {
        return Success(());
      }
      var seen := CollectSeries(batch);
      var todo := seen;
      while todo != {}
        modifies `redis
        invariant todo <= seen
        invariant forall k | k in redis :: k in old(redis) && redis[k] == old(redis[k])
        invariant forall k | k in old(redis) && k !in redis :: exists si :: si in seen && CacheKey(namespace, si.0, si.1) == k
        invariant forall si | si in seen && si !in todo && CacheKey(namespace, si.0, si.1) !in stuck :: CacheKey(namespace, si.0, si.1) !in redis
      {
        var si :| si in todo;
        var key := CacheKey(namespace, si.0, si.1);
        if key !in stuck {
          redis := redis - {key};
        }
        todo := todo - {si};
      }
      assert forall c | c in batch :: (c.symbol, c.interval) in seen;
      forall k | k in old(redis) && k !in redis ensures exists c :: c in batch && CacheKey(namespace, c.symbol, c.interval) == k {
        var si :| si in seen && CacheKey(namespace, si.0, si.1) == k;
      }
      if stuck == {} {
        DeletionKeepsCoherence(old(redis), redis, namespace, old(inner.candles), inner.zones, inner.loadable, batch);
      }
      return Success(());
    }
  }

  method CollectSeries(batch: seq<Candle>) returns (seen: set<(string, string)>)
    ensures seen == set c | c in batch :: (c.symbol, c.interval)
  {
    seen := {};
    for i := 0 to |batch|
      invariant seen == set c | c in batch[..i] :: (c.symbol, c.interval)
    {
      assert batch[..i + 1] == batch[..i] + [batch[i]];
      seen := seen + {(batch[i].symbol, batch[i].interval)};
    }
    assert batch[..|batch|] == batch;
  }
}
