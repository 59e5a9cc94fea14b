/**
 * What every command of every reader and writer keeps: a reader holds, and an entry carries, the answer of one
 * committed version; an entry's filler is on record with the times of its read and of its SetNX; and after a
 * deletion only reads already under way can be older than the version it announced.
 */
module CacheInvariant {
  import opened CacheProtocol
  import opened CandleCache
  import opened Common

  // ----- Everything an invariant says about a state survives a growing history

  /** t extends s: time and history grow, actors that filled the cache keep their record. */
  ghost predicate Extends(s: State, t: State) {
    && s.now <= t.now
    && |s.versions| <= |t.versions| && t.versions[..|s.versions|] == s.versions
    && (forall i | |s.versions| <= i < |t.versions| :: t.versions[i].at == s.now)
    && (forall id | id in s.actors :: id in t.actors && t.actors[id].request == s.actors[id].request)
    && (forall id | id in s.actors && s.actors[id].phase.Filled? :: t.actors[id].phase == s.actors[id].phase)
  }

  lemma CurrentStays(s: State, t: State, v: nat, at: int)
    requires Extends(s, t) && CurrentAt(s, v, at) && at <= s.now
    ensures CurrentAt(t, v, at)
  {
    assert t.versions[v] == t.versions[..|s.versions|][v];
    if v + 1 < |s.versions| { assert t.versions[v + 1] == t.versions[..|s.versions|][v + 1]; }
  }

  /** An actor that does not step keeps its invariant. */
  lemma OthersKeepInv(s: State, t: State, c: Config, id: ActorId)
    requires Extends(s, t) && ActorInv(s, c, id)
    requires id in s.actors ==> t.actors[id] == s.actors[id]
    requires id in t.actors ==> id in s.actors
    ensures ActorInv(t, c, id)
  {
    if id in s.actors {
      var p := s.actors[id].phase;
      match p {
        case Read(v, at, all) => CurrentStays(s, t, v, at); assert t.versions[v] == t.versions[..|s.versions|][v];
        case Filled(v, at, all, set_) => CurrentStays(s, t, v, at); assert t.versions[v] == t.versions[..|s.versions|][v];
        case Direct(v, at, rows) => CurrentStays(s, t, v, at); assert t.versions[v] == t.versions[..|s.versions|][v];
        case _ =>
      }
    }
  }

  lemma SlotStays(s: State, t: State, c: Config, key: string)
    requires Extends(s, t) && SlotInv(s, c, key)
    requires key in t.redis ==> key in s.redis && t.redis[key] == s.redis[key]
    ensures SlotInv(t, c, key)
  {
  }

  /** Nothing new is under way on the key, and its entry is the same or gone. */
  lemma ClearingStays(s: State, t: State, c: Config, key: string)
    requires Extends(s, t) && SlotInv(s, c, key) && ClearingInv(s, c, key)
    requires key in t.cleared ==> key in s.cleared && t.cleared[key] == s.cleared[key]
    requires key in t.redis ==> (key in s.redis && t.redis[key] == s.redis[key]) || t.redis[key].filler == None
    requires forall id | id in UnderWay(t, c, key) :: id in UnderWay(s, c, key) && t.actors[id] == s.actors[id]
    ensures ClearingInv(t, c, key)
  {
  }

  // ----- Steps of the environment

  lemma QuietStep(s: State, t: State, c: Config)
    requires Inv(s, c) && Extends(s, t) && t.actors == s.actors && t.cleared == s.cleared
    requires forall i | 0 <= i < |t.versions| :: t.versions[i].at <= t.now
    requires forall k | k in t.redis :: (k in s.redis && t.redis[k] == s.redis[k]) || (SlotInv(t, c, k) && t.redis[k].filler == None)
    ensures Inv(t, c)
  {
    forall id ensures ActorInv(t, c, id) {
      assert ActorInv(s, c, id);
      OthersKeepInv(s, t, c, id);
    }
    forall key ensures SlotInv(t, c, key) && ClearingInv(t, c, key) {
      assert SlotInv(s, c, key) && ClearingInv(s, c, key);
      if key in t.redis ==> key in s.redis && t.redis[key] == s.redis[key] { SlotStays(s, t, c, key); }
      ClearingStays(s, t, c, key);
    }
  }

  // ----- Steps of an actor

  /** t is s with one actor moved, and perhaps entries of the cache removed. */
  ghost predicate Moves(s: State, t: State, id: ActorId) {
    && Extends(s, t) && t.actors.Keys == s.actors.Keys + {id}
    && (forall i | 0 <= i < |t.versions| :: t.versions[i].at <= t.now)
    && (forall b | b in s.actors && b != id :: t.actors[b] == s.actors[b])
  }

  lemma ActorsKeepInv(s: State, t: State, c: Config, id: ActorId)
    requires Inv(s, c) && Moves(s, t, id) && ActorInv(t, c, id)
    ensures forall b :: ActorInv(t, c, b)
  {
    forall b ensures ActorInv(t, c, b) {
      if b != id {
        assert ActorInv(s, c, b);
        OthersKeepInv(s, t, c, b);
      }
    }
  }

  /** The moved actor has not just read, and no entry was stored. */
  lemma PlainMove(s: State, t: State, c: Config, id: ActorId)
    requires Inv(s, c) && Moves(s, t, id) && ActorInv(t, c, id) && !t.actors[id].phase.Read?
    requires t.cleared == s.cleared
    requires forall k | k in t.redis :: k in s.redis && t.redis[k] == s.redis[k]
    ensures Inv(t, c)
  {
    ActorsKeepInv(s, t, c, id);
    forall key ensures SlotInv(t, c, key) && ClearingInv(t, c, key) {
      assert SlotInv(s, c, key) && ClearingInv(s, c, key);
      SlotStays(s, t, c, key);
      ClearingStays(s, t, c, key);
    }
  }

  lemma HitIsOfTheSeries(s: State, c: Config, r: Request)
    requires Inv(s, c) && Cached(r) && Admissible(r)
    requires GetPhase(s, c, r, true).Hit?
    ensures var hit := GetPhase(s, c, r, true);
            && FilledBy(s, c, r, hit.filler, hit.all) && hit.servedAt == s.now
            && s.actors[hit.filler].phase.setAt.value <= s.now < s.actors[hit.filler].phase.setAt.value + c.ttl
  {
    var hit := GetPhase(s, c, r, true);
    assert SlotInv(s, c, KeyFor(c, r));
    assert ActorInv(s, c, hit.filler);
    KeysAreInjective(c.namespace, s.actors[hit.filler].request.symbol, s.actors[hit.filler].request.interval, r.symbol, r.interval);
  }

  lemma GetKeepsOwn(s: State, c: Config, id: ActorId, ok: bool)
    requires Inv(s, c) && Enabled(s, c, Get(id, ok))
    ensures ActorInv(To(s, id, GetPhase(s, c, s.actors[id].request, ok)), c, id)
  {
    var r := s.actors[id].request;
    assert ActorInv(s, c, id);
    if GetPhase(s, c, r, ok).Hit? { HitIsOfTheSeries(s, c, r); }
  }

  lemma GetKeepsInv(s: State, c: Config, id: ActorId, ok: bool)
    requires Inv(s, c) && Enabled(s, c, Get(id, ok))
    ensures Inv(Step(s, c, Get(id, ok)), c)
  {
    GetKeepsOwn(s, c, id, ok);
    PlainMove(s, To(s, id, GetPhase(s, c, s.actors[id].request, ok)), c, id);
  }

  lemma DiscardKeepsInv(s: State, c: Config, id: ActorId, ok: bool)
    requires Inv(s, c) && Enabled(s, c, Discard(id, ok))
    ensures Inv(Step(s, c, Discard(id, ok)), c)
  {
    var t := Step(s, c, Discard(id, ok));
    assert ActorInv(s, c, id);
    assert ActorInv(t, c, id);
    PlainMove(s, t, c, id);
  }

  lemma ReadKeepsInv(s: State, c: Config, id: ActorId, ok: bool)
    requires Inv(s, c) && Enabled(s, c, ReadDatabase(id, ok))
    ensures Inv(Step(s, c, ReadDatabase(id, ok)), c)
  {
    var t := Step(s, c, ReadDatabase(id, ok));
    assert ActorInv(s, c, id);
    assert ActorInv(t, c, id);
    ActorsKeepInv(s, t, c, id);
    forall key ensures SlotInv(t, c, key) && ClearingInv(t, c, key) {
      assert SlotInv(s, c, key) && ClearingInv(s, c, key);
      SlotStays(s, t, c, key);
      forall b | b in UnderWay(t, c, key) ensures b == id || (b in UnderWay(s, c, key) && t.actors[b] == s.actors[b]) {}
    }
  }

  lemma StoredIsReadable(s: State, c: Config, id: ActorId)
    requires Inv(s, c) && id in s.actors && s.actors[id].phase.Read?
    ensures s.actors[id].request.Find? && Decode(Encode(s.actors[id].phase.all), c.loadable) == Some(s.actors[id].phase.all)
  {
    var r, p := s.actors[id].request, s.actors[id].phase;
    assert ActorInv(s, c, id);
    FoundBarsAreRestorable(s.versions[p.version].table, c.zones, c.loadable, r.symbol, r.interval, LATEST_CACHE_SIZE);
    CacheRoundTrip(p.all, c.loadable);
  }

  lemma StoredSlot(s: State, c: Config, id: ActorId)
    requires Inv(s, c) && Enabled(s, c, SetNx(id, true)) && !Visible(s, KeyFor(c, s.actors[id].request))
    ensures SlotInv(SetNxStep(s, c, id, true), c, KeyFor(c, s.actors[id].request))
  {
    assert ActorInv(s, c, id);
    StoredIsReadable(s, c, id);
  }

  lemma StoredAfterClearing(s: State, c: Config, id: ActorId)
    requires Inv(s, c) && Enabled(s, c, SetNx(id, true)) && !Visible(s, KeyFor(c, s.actors[id].request))
    ensures ClearingInv(SetNxStep(s, c, id, true), c, KeyFor(c, s.actors[id].request))
  {
    var key, t := KeyFor(c, s.actors[id].request), SetNxStep(s, c, id, true);
    assert ClearingInv(s, c, key);
    assert id in UnderWay(s, c, key);
    assert forall b | b in UnderWay(t, c, key) :: b in UnderWay(s, c, key) && t.actors[b] == s.actors[b];
  }

  lemma SetNxMoves(s: State, c: Config, id: ActorId, ok: bool)
    requires Inv(s, c) && Enabled(s, c, SetNx(id, ok))
    ensures Moves(s, SetNxStep(s, c, id, ok), id)
  {
  }

  lemma SetNxKeepsOwn(s: State, c: Config, id: ActorId, ok: bool)
    requires Inv(s, c) && Enabled(s, c, SetNx(id, ok))
    ensures ActorInv(SetNxStep(s, c, id, ok), c, id)
  {
    assert ActorInv(s, c, id);
  }

  /** One entry was stored, by the actor that moved. */
  lemma StoringMove(s: State, t: State, c: Config, id: ActorId, stored: string)
    requires Inv(s, c) && Moves(s, t, id) && ActorInv(t, c, id) && !t.actors[id].phase.Read?
    requires t.cleared == s.cleared && SlotInv(t, c, stored) && ClearingInv(t, c, stored)
    requires forall k | k in t.redis && k != stored :: k in s.redis && t.redis[k] == s.redis[k]
    ensures Inv(t, c)
  {
    ActorsKeepInv(s, t, c, id);
    forall key ensures SlotInv(t, c, key) && ClearingInv(t, c, key) {
      if key != stored {
        assert SlotInv(s, c, key) && ClearingInv(s, c, key);
        SlotStays(s, t, c, key);
        ClearingStays(s, t, c, key);
      }
    }
  }

  lemma SetNxKeepsInv(s: State, c: Config, id: ActorId, ok: bool)
    requires Inv(s, c) && Enabled(s, c, SetNx(id, ok))
    ensures Inv(Step(s, c, SetNx(id, ok)), c)
  {
    SetNxMoves(s, c, id, ok);
    SetNxKeepsOwn(s, c, id, ok);
    if ok && !Visible(s, KeyFor(c, s.actors[id].request)) {
      StoredSlot(s, c, id);
      StoredAfterClearing(s, c, id);
      StoringMove(s, SetNxStep(s, c, id, ok), c, id, KeyFor(c, s.actors[id].request));
    } else {
      PlainMove(s, SetNxStep(s, c, id, ok), c, id);
    }
  }

  lemma CommitMoves(s: State, c: Config, id: ActorId, ok: bool)
    requires Inv(s, c) && Enabled(s, c, CommitBatch(id, ok))
    ensures Moves(s, CommitStep(s, c, id, ok), id)
  {
  }

  lemma CommitKeepsOwn(s: State, c: Config, id: ActorId, ok: bool)
    requires Inv(s, c) && Enabled(s, c, CommitBatch(id, ok))
    ensures ActorInv(CommitStep(s, c, id, ok), c, id)
  {
    assert ActorInv(s, c, id);
  }

  lemma CommitKeepsInv(s: State, c: Config, id: ActorId, ok: bool)
    requires Inv(s, c) && Enabled(s, c, CommitBatch(id, ok))
    ensures Inv(Step(s, c, CommitBatch(id, ok)), c)
  {
    CommitMoves(s, c, id, ok);
    CommitKeepsOwn(s, c, id, ok);
    PlainMove(s, CommitStep(s, c, id, ok), c, id);
  }

  lemma DeleteKeepsInv(s: State, c: Config, id: ActorId, key: string, ok: bool)
    requires Inv(s, c) && Enabled(s, c, Delete(id, key, ok))
    ensures Inv(Step(s, c, Delete(id, key, ok)), c)
  {
    var t := Step(s, c, Delete(id, key, ok));
    assert ActorInv(s, c, id);
    assert ActorInv(t, c, id);
    if !ok {
      PlainMove(s, t, c, id);
    } else {
      ActorsKeepInv(s, t, c, id);
      forall k ensures SlotInv(t, c, k) && ClearingInv(t, c, k) {
        assert SlotInv(s, c, k) && ClearingInv(s, c, k);
        SlotStays(s, t, c, k);
        if k == key {
          assert UnderWay(t, c, k) == UnderWay(s, c, k);
        } else {
          ClearingStays(s, t, c, k);
        }
      }
    }
  }

  lemma ArriveKeepsInv(s: State, c: Config, id: ActorId, request: Request)
    requires Inv(s, c) && Enabled(s, c, Arrive(id, request))
    ensures Inv(Step(s, c, Arrive(id, request)), c)
  {
    var t := Step(s, c, Arrive(id, request));
    assert ActorInv(t, c, id);
    PlainMove(s, t, c, id);
  }

  lemma StepKeepsInv(s: State, c: Config, a: Action)
    requires Inv(s, c) && Enabled(s, c, a)
    ensures Inv(Step(s, c, a), c)
  {
    match a
    case Arrive(id, request) => ArriveKeepsInv(s, c, id, request);
    case Tick(seconds) => QuietStep(s, Step(s, c, a), c);
    case Evict(key) => QuietStep(s, Step(s, c, a), c);
    case Foreign(key, payload, expires) => QuietStep(s, Step(s, c, a), c);
    case Get(id, ok) => GetKeepsInv(s, c, id, ok);
    case Discard(id, ok) => DiscardKeepsInv(s, c, id, ok);
    case ReadDatabase(id, ok) => ReadKeepsInv(s, c, id, ok);
    case SetNx(id, ok) => SetNxKeepsInv(s, c, id, ok);
    case CommitBatch(id, ok) => CommitKeepsInv(s, c, id, ok);
    case Delete(id, key, ok) => DeleteKeepsInv(s, c, id, key, ok);
  }

  lemma {:induction false} RunKeepsInv(run: seq<State>, c: Config, i: nat)
    requires Run(run, c) && i < |run|
    ensures Inv(run[i], c)
    decreases i
  {
    if i > 0 {
      RunKeepsInv(run, c, i - 1);
      assert NextAt(run, i - 1, c);
      var a :| Enabled(run[i - 1], c, a) && run[i - 1].versions != [] && run[i] == Step(run[i - 1], c, a);
      StepKeepsInv(run[i - 1], c, a);
    }
  }
}
