/**
 * Concurrent readers and writers of the candle cache. Every Redis command and every
 * database statement is a step of its own, commands may fail, entries expire, and the
 * table is known by its committed versions.
 */
module CacheProtocol {
  import opened CandleCache
  import opened CandleRepository
  import opened Candles
  import opened Common

  type ActorId = nat

  datatype Request =
    | Find(symbol: string, interval: string, outputsize: int)
    | Upsert(batch: seq<Candle>)

  datatype Phase =
    | Ready
    | Refused                                                 // outputsize out of range
    | Missed                                                  // about to read the newest 200
    | Unreadable                                              // about to delete an undecodable entry
    | Read(version: nat, readAt: int, all: seq<Bar>)          // about to SetNX what it read
    | Filled(version: nat, readAt: int, all: seq<Bar>, setAt: Option<int>) // setAt is None if nothing was stored
    | Hit(filler: ActorId, servedAt: int, all: seq<Bar>)
    | Direct(version: nat, readAt: int, rows: seq<Bar>)       // bypassed the cache
    | Deleting(version: nat, keys: set<string>)               // committed, keys still to delete
    | Finished
    | Failed(error: Error)

  datatype Actor = Actor(request: Request, phase: Phase)

  datatype Commit = Commit(table: Table, at: int)

  /** `filler` is the reader that stored the entry; None for entries of other programs. */
  datatype Slot = Slot(payload: Payload, expires: int, filler: Option<ActorId>)

  datatype State = State(
    now: int,
    versions: seq<Commit>,
    redis: map<string, Slot>,
    actors: map<ActorId, Actor>,
    cleared: map<string, Clearing>)

  /** The last successful invalidation of a key: the version it announced, and the reads under way at that moment. */
  datatype Clearing = Clearing(version: nat, underWay: set<ActorId>)

  datatype Config = Config(namespace: string, ttl: int, zones: map<string, string>, loadable: set<string>)

  datatype Action =
    | Arrive(id: ActorId, request: Request)
    | Tick(seconds: nat)
    | Evict(key: string)
    | Foreign(key: string, payload: Payload, expires: int)
    | Get(id: ActorId, ok: bool)
    | Discard(id: ActorId, ok: bool)
    | ReadDatabase(id: ActorId, ok: bool)
    | SetNx(id: ActorId, ok: bool)
    | CommitBatch(id: ActorId, ok: bool)
    | Delete(id: ActorId, key: string, ok: bool)

  // ----- Enabled steps

  function KeyFor(c: Config, r: Request): string
    requires r.Find?
  {
    CacheKey(c.namespace, r.symbol, r.interval)
  }

  predicate Admissible(r: Request) {
    r.Find? ==> Accepted(r.symbol, r.interval)
  }

  predicate Cached(r: Request) {
    r.Find? && 1 <= r.outputsize <= LATEST_CACHE_SIZE
  }

  predicate Enabled(s: State, c: Config, a: Action) {
    match a
    case Arrive(id, request) => id !in s.actors && Admissible(request)
    case Tick(seconds) => true
    case Evict(key) => true
    case Foreign(key, payload, expires) => Decode(payload, c.loadable) == None
    case Get(id, ok) => id in s.actors && s.actors[id].phase == Ready && s.actors[id].request.Find?
    case Discard(id, ok) => id in s.actors && s.actors[id].phase == Unreadable && s.actors[id].request.Find?
    case ReadDatabase(id, ok) => id in s.actors && s.actors[id].phase == Missed && s.actors[id].request.Find?
    case SetNx(id, ok) => id in s.actors && s.actors[id].phase.Read? && s.actors[id].request.Find?
    case CommitBatch(id, ok) => id in s.actors && s.actors[id].phase == Ready && s.actors[id].request.Upsert?
    case Delete(id, key, ok) => id in s.actors && s.actors[id].phase.Deleting? && key in s.actors[id].phase.keys
  }

  // ----- Steps

  function Latest(s: State): Commit
    requires s.versions != []
  {
    s.versions[|s.versions| - 1]
  }

  function Answer(c: Config, t: Table, r: Request, n: int): Result<seq<Bar>, Error>
    requires r.Find?
  {
    FindResult(t, c.zones, c.loadable, r.symbol, r.interval, n)
  }

  function To(s: State, id: ActorId, p: Phase): State
    requires id in s.actors
  {
    s.(actors := s.actors[id := s.actors[id].(phase := p)])
  }

  predicate Visible(s: State, key: string) {
    key in s.redis && s.now < s.redis[key].expires
  }

  /** Checks the size, then either reads the database directly or asks Redis; a failing Redis is a miss. */
  function GetPhase(s: State, c: Config, r: Request, ok: bool): Phase
    requires r.Find? && s.versions != []
  {
    if r.outputsize <= 0 || r.outputsize > MAX_OUTPUT_SIZE then Refused
    else if r.outputsize > LATEST_CACHE_SIZE then
      var rows := Answer(c, Latest(s).table, r, r.outputsize);
      if rows.Success? then Direct(|s.versions| - 1, s.now, rows.value) else Failed(rows.error)
    else
      var key := KeyFor(c, r);
      if !ok || !Visible(s, key) || s.redis[key].payload == Empty then Missed
      else
        var all := Decode(s.redis[key].payload, c.loadable);
        if all.Some? && s.redis[key].filler.Some? then Hit(s.redis[key].filler.value, s.now, all.value)
        else Unreadable
  }

  function ReadPhase(s: State, c: Config, r: Request, ok: bool): Phase
    requires r.Find? && s.versions != []
  {
    var rows := Answer(c, Latest(s).table, r, LATEST_CACHE_SIZE);
    if !ok then Failed(DatabaseError)
    else if rows.Failure? then Failed(rows.error)
    else Read(|s.versions| - 1, s.now, rows.value)
  }

  function SetNxStep(s: State, c: Config, id: ActorId, ok: bool): State
    requires id in s.actors && s.actors[id].phase.Read? && s.actors[id].request.Find?
  {
    var p := s.actors[id].phase;
    var key := KeyFor(c, s.actors[id].request);
    var stored := ok && !Visible(s, key);
    var t := To(s, id, Filled(p.version, p.readAt, p.all, if stored then Some(s.now) else None));
    if stored then t.(redis := s.redis[key := Slot(Encode(p.all), s.now + c.ttl, Some(id))]) else t
  }

  function KeysOf(c: Config, batch: seq<Candle>): set<string> {
    set x | x in batch :: CacheKey(c.namespace, x.symbol, x.interval)
  }

  function CommitStep(s: State, c: Config, id: ActorId, ok: bool): State
    requires id in s.actors && s.actors[id].request.Upsert? && s.versions != []
  {
    var batch := s.actors[id].request.batch;
    if batch == [] then To(s, id, Finished)
    else if !ok then To(s, id, Failed(DatabaseError))
    else To(s, id, Deleting(|s.versions|, KeysOf(c, batch))).(versions := s.versions + [Commit(Upserted(Latest(s).table, batch), s.now)])
  }

  /** The readers of a key that hold rows they may yet store. */
  function UnderWay(s: State, c: Config, key: string): set<ActorId> {
    set id | id in s.actors && s.actors[id].phase.Read? && s.actors[id].request.Find? && KeyFor(c, s.actors[id].request) == key
  }

  function DeleteStep(s: State, c: Config, id: ActorId, key: string, ok: bool): State
    requires id in s.actors && s.actors[id].phase.Deleting?
  {
    var p := s.actors[id].phase;
    var rest := p.keys - {key};
    var t := To(s, id, if rest == {} then Finished else Deleting(p.version, rest));
    if !ok then t
    else t.(redis := s.redis - {key}, cleared := s.cleared[key := Clearing(p.version, UnderWay(s, c, key))])
  }

  function Step(s: State, c: Config, a: Action): State
    requires Enabled(s, c, a) && s.versions != []
  {
    match a
    case Arrive(id, request) => s.(actors := s.actors[id := Actor(request, Ready)])
    case Tick(seconds) => s.(now := s.now + seconds)
    case Evict(key) => s.(redis := s.redis - {key})
    case Foreign(key, payload, expires) => s.(redis := s.redis[key := Slot(payload, expires, None)])
    case Get(id, ok) => To(s, id, GetPhase(s, c, s.actors[id].request, ok))
    case Discard(id, ok) =>
      var t := To(s, id, Missed);
      if ok then t.(redis := s.redis - {KeyFor(c, s.actors[id].request)}) else t
    case ReadDatabase(id, ok) => To(s, id, ReadPhase(s, c, s.actors[id].request, ok))
    case SetNx(id, ok) => SetNxStep(s, c, id, ok)
    case CommitBatch(id, ok) => CommitStep(s, c, id, ok)
    case Delete(id, key, ok) => DeleteStep(s, c, id, key, ok)
  }

  ghost predicate Initial(s: State, c: Config) {
    && |s.versions| == 1 && s.versions[0].at <= s.now
    && s.actors == map[] && s.cleared == map[]
    && forall k | k in s.redis :: s.redis[k].filler == None && Decode(s.redis[k].payload, c.loadable) == None
  }

  ghost predicate Run(run: seq<State>, c: Config) {
    && run != [] && Initial(run[0], c)
    && forall i: nat {:trigger NextAt(run, i, c)} | i + 1 < |run| :: NextAt(run, i, c)
  }

  ghost predicate NextAt(run: seq<State>, i: nat, c: Config)
    requires i + 1 < |run|
  {
    Next(run[i], run[i + 1], c)
  }

  ghost predicate Next(s: State, t: State, c: Config) {
    exists a :: Enabled(s, c, a) && s.versions != [] && t == Step(s, c, a)
  }

  // ----- What every run keeps

  /** Version v was the committed table at some moment `at`. */
  predicate CurrentAt(s: State, v: nat, at: int) {
    v < |s.versions| && s.versions[v].at <= at && (v + 1 < |s.versions| ==> at <= s.versions[v + 1].at)
  }

  predicate Honest(s: State, c: Config, r: Request, version: nat, readAt: int, all: seq<Bar>) {
    && CurrentAt(s, version, readAt) && readAt <= s.now
    && r.Find? && Answer(c, s.versions[version].table, r, LATEST_CACHE_SIZE) == Success(all)
  }

  predicate FilledBy(s: State, c: Config, r: Request, filler: ActorId, all: seq<Bar>) {
    && filler in s.actors && s.actors[filler].phase.Filled?
    && s.actors[filler].request.Find? && r.Find?
    && s.actors[filler].request.symbol == r.symbol && s.actors[filler].request.interval == r.interval
    && s.actors[filler].phase.all == all
    && s.actors[filler].phase.setAt.Some?
  }

  predicate ActorInv(s: State, c: Config, id: ActorId) {
    id in s.actors ==>
      var r, p := s.actors[id].request, s.actors[id].phase;
      && Admissible(r)
      && (p.Missed? || p.Unreadable? ==> Cached(r))
      && (p.Read? ==> Cached(r) && Honest(s, c, r, p.version, p.readAt, p.all))
      && (p.Filled? ==> Cached(r) && Honest(s, c, r, p.version, p.readAt, p.all))
      && (p.Filled? && p.setAt.Some? ==> p.readAt <= p.setAt.value <= s.now)
      && (p.Hit? ==> Cached(r) && FilledBy(s, c, r, p.filler, p.all) && p.servedAt <= s.now &&
                     s.actors[p.filler].phase.setAt.value <= p.servedAt < s.actors[p.filler].phase.setAt.value + c.ttl)
      && (p.Direct? ==> r.Find? && CurrentAt(s, p.version, p.readAt) && p.readAt <= s.now && Answer(c, s.versions[p.version].table, r, r.outputsize) == Success(p.rows))
      && (p.Deleting? ==> 0 < p.version < |s.versions|)
  }

  predicate SlotInv(s: State, c: Config, key: string) {
    key in s.redis ==>
      match s.redis[key].filler
      case None => Decode(s.redis[key].payload, c.loadable) == None
      case Some(a) =>
        && a in s.actors && s.actors[a].request.Find? && s.actors[a].phase.Filled? && s.actors[a].phase.setAt.Some?
        && Accepted(s.actors[a].request.symbol, s.actors[a].request.interval)
        && KeyFor(c, s.actors[a].request) == key
        && Decode(s.redis[key].payload, c.loadable) == Some(s.actors[a].phase.all)
        && s.redis[key].expires == s.actors[a].phase.setAt.value + c.ttl
  }

  /** After an invalidation only reads already under way can still store older data. */
  predicate ClearingInv(s: State, c: Config, key: string) {
    key in s.cleared ==>
      && s.cleared[key].version < |s.versions|
      && (forall id | id in UnderWay(s, c, key) :: s.actors[id].phase.version >= s.cleared[key].version || id in s.cleared[key].underWay)
      && (key in s.redis && s.redis[key].filler.Some? && s.redis[key].filler.value in s.actors && s.actors[s.redis[key].filler.value].phase.Filled? ==>
            s.actors[s.redis[key].filler.value].phase.version >= s.cleared[key].version || s.redis[key].filler.value in s.cleared[key].underWay)
  }

  ghost predicate Inv(s: State, c: Config) {
    && s.versions != []
    && (forall i | 0 <= i < |s.versions| :: s.versions[i].at <= s.now)
    && (forall id {:trigger ActorInv(s, c, id)} :: ActorInv(s, c, id))
    && (forall key {:trigger SlotInv(s, c, key)} :: SlotInv(s, c, key))
    && (forall key {:trigger ClearingInv(s, c, key)} :: ClearingInv(s, c, key))
  }
}
