/** What the concurrent cache guarantees in every run. */
module CacheSafety {
  /*
   * A late SetNX may publish rows that a writer has already replaced, so the cache is not linearizable and is not
   * meant to be: the results say which version a reader gets, how old it can be, who can publish an old one, and
   * when the cache is sure to be current.
   */

  import opened CacheInvariant
  import opened CacheProtocol
  import opened CandleCache
  import opened CandleRepository
  import opened Common

  /**
   * A Find served from the cache returns the first n bars of one committed version. A
   * reader of the same series read that version while it was current, stored it at
   * `setAt`, and less than ttl passed between that and the Find: the answer is no older
   * than ttl plus what its filler took from its read to its SetNX.
   */
  lemma CachedAnswersAreRecentVersions(run: seq<State>, c: Config, i: nat, id: ActorId)
    requires Run(run, c) && i < |run|
    requires id in run[i].actors && run[i].actors[id].phase.Hit?
    ensures var s, hit, r := run[i], run[i].actors[id].phase, run[i].actors[id].request;
            && Cached(r) && FilledBy(s, c, r, hit.filler, hit.all)
            && var f := s.actors[hit.filler].phase;
               && CurrentAt(s, f.version, f.readAt)
               && AnswersFind(s.versions[f.version].table, c.zones, c.loadable, r.symbol, r.interval, r.outputsize, Success(Take(hit.all, r.outputsize)))
               && f.readAt <= f.setAt.value <= hit.servedAt < f.setAt.value + c.ttl
               && hit.servedAt - f.readAt < c.ttl + (f.setAt.value - f.readAt)
  {
    RunKeepsInv(run, c, i);
    var s, r := run[i], run[i].actors[id].request;
    var filler := run[i].actors[id].phase.filler;
    assert ActorInv(s, c, id);
    assert ActorInv(s, c, filler);
    PrefixOfLatest(s.versions[s.actors[filler].phase.version].table, c.zones, c.loadable, r.symbol, r.interval, r.outputsize);
    FindAnswers(s.versions[s.actors[filler].phase.version].table, c.zones, c.loadable, r.symbol, r.interval, r.outputsize);
  }

  /** A Find that missed the cache, and one above 200 bars, returns what one version held at its own read. */
  lemma UncachedAnswersAreCurrent(run: seq<State>, c: Config, i: nat, id: ActorId)
    requires Run(run, c) && i < |run| && id in run[i].actors
    ensures var s, p, r := run[i], run[i].actors[id].phase, run[i].actors[id].request;
            && (p.Filled? ==> Cached(r) && CurrentAt(s, p.version, p.readAt) &&
                              AnswersFind(s.versions[p.version].table, c.zones, c.loadable, r.symbol, r.interval, r.outputsize, Success(Take(p.all, r.outputsize))))
            && (p.Direct? ==> r.Find? && CurrentAt(s, p.version, p.readAt) &&
                              AnswersFind(s.versions[p.version].table, c.zones, c.loadable, r.symbol, r.interval, r.outputsize, Success(p.rows)))
  {
    RunKeepsInv(run, c, i);
    var s, p, r := run[i], run[i].actors[id].phase, run[i].actors[id].request;
    assert ActorInv(s, c, id);
    if p.Filled? || p.Direct? { FindAnswers(s.versions[p.version].table, c.zones, c.loadable, r.symbol, r.interval, r.outputsize); }
    if p.Filled? { PrefixOfLatest(s.versions[p.version].table, c.zones, c.loadable, r.symbol, r.interval, r.outputsize); }
  }

  /**
   * After a successful invalidation of a key, an entry of it older than the announced
   * version can only come from a reader whose read was under way at that moment.
   */
  lemma OnlyLateFillersPublishStale(run: seq<State>, c: Config, i: nat, key: string)
    requires Run(run, c) && i < |run|
    requires key in run[i].cleared && key in run[i].redis && run[i].redis[key].filler.Some?
    ensures var s := run[i];
            var filler := s.redis[key].filler.value;
            && filler in s.actors && s.actors[filler].phase.Filled?
            && (s.actors[filler].phase.version >= s.cleared[key].version || filler in s.cleared[key].underWay)
  {
    RunKeepsInv(run, c, i);
    assert SlotInv(run[i], c, key) && ClearingInv(run[i], c, key);
  }

  /** From version `from` on, no committed version has another answer for the series than the newest one. */
  ghost predicate SettledSince(s: State, c: Config, r: Request, from: nat)
    requires r.Find? && s.versions != []
  {
    forall v | from <= v < |s.versions| ::
      Answer(c, s.versions[v].table, r, LATEST_CACHE_SIZE) == Answer(c, Latest(s).table, r, LATEST_CACHE_SIZE)
  }

  /** A batch of other series leaves a series settled, whether its statement fails or not. */
  lemma OtherSeriesLeaveItSettled(s: State, c: Config, id: ActorId, ok: bool, r: Request, from: nat)
    requires s.versions != [] && Enabled(s, c, CommitBatch(id, ok)) && r.Find? && from < |s.versions|
    requires SettledSince(s, c, r, from) && !Touches(s.actors[id].request.batch, r.symbol, r.interval)
    ensures SettledSince(Step(s, c, CommitBatch(id, ok)), c, r, from)
  {
    var batch, t := s.actors[id].request.batch, Step(s, c, CommitBatch(id, ok));
    UntouchedSeries(Latest(s).table, batch, c.zones, c.loadable, r.symbol, r.interval, LATEST_CACHE_SIZE);
    forall v | from <= v < |t.versions|
      ensures Answer(c, t.versions[v].table, r, LATEST_CACHE_SIZE) == Answer(c, Latest(t).table, r, LATEST_CACHE_SIZE)
    {
      if v < |s.versions| { assert t.versions[v] == s.versions[v]; }
    }
  }

  /** No other step commits anything. */
  lemma OnlyBatchesUnsettle(s: State, c: Config, a: Action, r: Request, from: nat)
    requires s.versions != [] && Enabled(s, c, a) && !a.CommitBatch? && r.Find? && SettledSince(s, c, r, from)
    ensures Step(s, c, a).versions == s.versions && SettledSince(Step(s, c, a), c, r, from)
  {
  }

  /**
   * Eventual consistency: once a deletion that met no read under way has announced the
   * last version that changed a series, whatever is cached for the series is the table's
   * current answer, whatever is committed for other series.
   */
  lemma CleanInvalidationIsFresh(run: seq<State>, c: Config, i: nat, r: Request)
    requires Run(run, c) && i < |run| && run[i].versions != [] && Cached(r) && Admissible(r)
    requires KeyFor(c, r) in run[i].cleared && run[i].cleared[KeyFor(c, r)].underWay == {}
    requires SettledSince(run[i], c, r, run[i].cleared[KeyFor(c, r)].version)
    requires KeyFor(c, r) in run[i].redis && Decode(run[i].redis[KeyFor(c, r)].payload, c.loadable).Some?
    ensures AnswersFind(Latest(run[i]).table, c.zones, c.loadable, r.symbol, r.interval, 200,
                        Success(Decode(run[i].redis[KeyFor(c, r)].payload, c.loadable).value))
  {
    var s, key := run[i], KeyFor(c, r);
    RunKeepsInv(run, c, i);
    assert SlotInv(s, c, key);
    OnlyLateFillersPublishStale(run, c, i, key);
    var filler := s.redis[key].filler.value;
    assert ActorInv(s, c, filler);
    FindAnswers(Latest(s).table, c.zones, c.loadable, r.symbol, r.interval, 200);
    KeysAreInjective(c.namespace, s.actors[filler].request.symbol, s.actors[filler].request.interval, r.symbol, r.interval);
  }

  /** A writer whose batch has committed has the keys of all its series to delete, and of no other. */
  lemma CommittedBatchIsAnnounced(s: State, c: Config, id: ActorId)
    requires s.versions != [] && Enabled(s, c, CommitBatch(id, true)) && s.actors[id].request.batch != []
    ensures var t, batch := Step(s, c, CommitBatch(id, true)), s.actors[id].request.batch;
            && t.versions == s.versions + [Commit(Upserted(Latest(s).table, batch), s.now)] && t.redis == s.redis
            && t.actors[id].phase.Deleting? && t.actors[id].phase.version == |s.versions|
            && forall key :: key in t.actors[id].phase.keys <==>
                 exists x :: x in batch && CacheKey(c.namespace, x.symbol, x.interval) == key
  {
  }

  /** It deletes one key after the other, and is done once it has tried them all. */
  lemma EveryKeyIsTried(s: State, c: Config, id: ActorId, key: string, ok: bool)
    requires s.versions != [] && Enabled(s, c, Delete(id, key, ok))
    ensures var t, keys := Step(s, c, Delete(id, key, ok)), s.actors[id].phase.keys;
            && t.versions == s.versions
            && (if keys == {key} then t.actors[id].phase == Finished
                else t.actors[id].phase == Deleting(s.actors[id].phase.version, keys - {key}))
            && (forall k :: k in t.redis <==> k in s.redis && (ok ==> k != key))
            && (forall k | k in t.redis :: t.redis[k] == s.redis[k])
  {
    assert s.actors[id].phase.keys - {key} == {} <==> s.actors[id].phase.keys == {key};
  }

  /** A readable live entry is served; with any other entry, or none, or a failing Redis, the reader goes on to the database. */
  lemma EntriesAreServed(run: seq<State>, c: Config, i: nat, id: ActorId, ok: bool)
    requires Run(run, c) && i < |run| && Enabled(run[i], c, Get(id, ok)) && 1 <= run[i].actors[id].request.outputsize <= 200
    requires run[i].versions != []
    ensures var s, key := run[i], KeyFor(c, run[i].actors[id].request);
            var p := Step(s, c, Get(id, ok)).actors[id].phase;
            if ok && key in s.redis && s.now < s.redis[key].expires && Decode(s.redis[key].payload, c.loadable).Some? then
              p.Hit? && p.servedAt == s.now && Some(p.all) == Decode(s.redis[key].payload, c.loadable)
            else if ok && key in s.redis && s.now < s.redis[key].expires && s.redis[key].payload != Empty then p == Unreadable
            else p == Missed
  {
    RunKeepsInv(run, c, i);
    assert SlotInv(run[i], c, KeyFor(c, run[i].actors[id].request));
  }

  /** A failing database is an error; otherwise the reader holds what the newest version answers. */
  lemma DatabaseIsRead(s: State, c: Config, id: ActorId, ok: bool)
    requires s.versions != [] && Enabled(s, c, ReadDatabase(id, ok))
    ensures var r, p := s.actors[id].request, Step(s, c, ReadDatabase(id, ok)).actors[id].phase;
            && Step(s, c, ReadDatabase(id, ok)).redis == s.redis
            && (!ok ==> p == Failed(DatabaseError))
            && (ok ==> p.Failed? || (p.Read? && p.readAt == s.now))
            && (ok && p.Failed? ==> AnswersFind(Latest(s).table, c.zones, c.loadable, r.symbol, r.interval, 200, Failure(p.error)))
            && (ok && p.Read? ==> AnswersFind(Latest(s).table, c.zones, c.loadable, r.symbol, r.interval, 200, Success(p.all)))
  {
    var r := s.actors[id].request;
    FindAnswers(Latest(s).table, c.zones, c.loadable, r.symbol, r.interval, 200);
  }

  /** SetNX stores what was read for the lifetime, but never over a live entry. */
  lemma LiveEntriesAreKept(s: State, c: Config, id: ActorId, ok: bool)
    requires s.versions != [] && Enabled(s, c, SetNx(id, ok))
    ensures var t, key, all := Step(s, c, SetNx(id, ok)), KeyFor(c, s.actors[id].request), s.actors[id].phase.all;
            && (!ok || (key in s.redis && s.now < s.redis[key].expires) ==> t.redis == s.redis)
            && (ok && !(key in s.redis && s.now < s.redis[key].expires) ==>
                  t.redis == s.redis[key := Slot(Encode(all), s.now + c.ttl, Some(id))])
            && t.actors[id].phase.Filled? && t.actors[id].phase.all == all
  {
  }
}
