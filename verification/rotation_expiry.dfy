/** Expiry along a family's chain. */
module RotationExpiry {
  /*
   * internal/feature/auth/session.go:167-189: with one monotone clock, one TTL, and tokens presented only after they
   * were issued, cleanup always removes the oldest part of a chain.
   */

  import opened Common
  import opened SessionTable
  import opened RotationProtocol
  import opened RotationRefinement
  import opened RotationSafety

  // ---------------------------------------------------------------- well-timed steps

  /** Nobody in flight has presented this hash: it is minted at random. */
  ghost predicate Unguessed(s: State, h: TokenHash) {
    forall u | u in s.txs && TokenRequest(s.txs[u].req) :: s.txs[u].req.hash != h
  }

  /** Requests carry the clock, expiry is issue time plus `ttl`, and an uncommitted token is not presented. */
  ghost predicate Timed(s: State, a: Action, ttl: Time) {
    match a
    case Begin(t, req) =>
      (match req
       case RotateReq(h, now) => now == s.clock && (h in s.hashes ==> h in s.ledger.owner)
       case RevokeReq(h, now) => h in s.hashes ==> h in s.ledger.owner
       case CreateReq(row) => row.expires == s.clock + ttl && Unguessed(s, row.hash)
       case CleanupReq(_) => true)
    case Insert(t, m) => t in s.txs && TokenRequest(s.txs[t].req) && m.expires == s.txs[t].req.now + ttl && Unguessed(s, m.hash)
    case _ => true
  }

  ghost predicate TimedRun(s: State, actions: seq<Action>, end: State, ttl: Time)
    decreases |actions|
  {
    if actions == [] then s == end
    else
      && Enabled(s, actions[0]) && Timed(s, actions[0], ttl)
      && TimedRun(Step(s, actions[0]), actions[1..], end, ttl)
  }

  // ---------------------------------------------------------------- the chain in time

  /** Whether `b` was issued to the same family as `a`, and not before it. */
  predicate NotBefore(l: Ledger, a: SessionId, b: SessionId) {
    a in l.place && b in l.place && l.place[a].family == l.place[b].family && l.place[a].at <= l.place[b].at
  }

  /** The stored rows of a family are a suffix of its chain, and their expiry never decreases along it. */
  ghost predicate SortedSuffix(l: Ledger) {
    forall a, b {:trigger NotBefore(l, a, b)} | a in l.rows && NotBefore(l, a, b) ::
      b in l.rows && l.rows[a].expires <= l.rows[b].expires
  }

  ghost predicate SnapshotInv(s: State, t: TxId)
    requires t in s.txs && s.txs[t].req.CleanupReq?
  {
    var l, tx := s.ledger, s.txs[t];
    (tx.phase.Deleting? || tx.phase.Deleted?) ==>
      && (forall id {:trigger id in tx.phase.snapshot} | id in tx.phase.snapshot && id in l.rows && l.rows[id].expires < tx.req.before ::
            id in tx.deletes || (tx.phase.Deleting? && id in tx.phase.todo))
      && tx.phase.snapshot <= l.place.Keys
      && tx.deletes <= tx.phase.snapshot
      && (tx.phase.Deleting? ==> tx.phase.todo <= tx.phase.snapshot)
      && (forall a, b {:trigger NotBefore(l, a, b)} | a in l.rows && b in tx.phase.snapshot && NotBefore(l, a, b) ::
            a in tx.phase.snapshot)
  }

  /** The row a transaction has inserted but not committed. */
  function PendingRow(s: State, t: TxId): Option<Session>
    requires t in s.txs
  {
    var tx := s.txs[t];
    match tx.phase
    case Inserted(c, m) => Some(Successor(c, m))
    case Swapped(c, m) => Some(Successor(c, m))
    case Begun => if tx.req.CreateReq? then Some(tx.req.row) else None
    case Registering => if tx.req.CreateReq? then Some(tx.req.row) else None
    case _ => None
  }

  ghost predicate TxTimed(s: State, t: TxId, ttl: Time)
    requires t in s.txs
  {
    var tx := s.txs[t];
    && (tx.req.RotateReq? ==>
          && tx.req.now <= s.clock
          && (forall id {:trigger s.ledger.rows[id].expires} | id in s.ledger.rows && s.ledger.rows[id].hash == tx.req.hash ::
                s.ledger.rows[id].expires <= tx.req.now + ttl)
          && (forall m | tx.phase.Swapped? && tx.phase.minted == m :: m.expires == tx.req.now + ttl)
          && (forall m | tx.phase.Inserted? && tx.phase.minted == m :: m.expires == tx.req.now + ttl))
    && (tx.req.CreateReq? ==> tx.req.row.expires <= s.clock + ttl)
    && (tx.req.CleanupReq? ==> SnapshotInv(s, t))
    && (PendingRow(s, t).Some? ==> Unguessed(s, PendingRow(s, t).value.hash))
  }

  ghost predicate TimeInv(s: State, ttl: Time) {
    && SortedSuffix(s.ledger)
    && (forall id {:trigger s.ledger.rows[id].expires} | id in s.ledger.rows :: s.ledger.rows[id].expires <= s.clock + ttl)
    && (forall t {:trigger TxTimed(s, t, ttl)} | t in s.txs :: TxTimed(s, t, ttl))
  }

  // ---------------------------------------------------------------- commits

  lemma RotateKeepsSorted(s: State, t: TxId, ttl: Time)
    requires Inv(s) && TimeInv(s, ttl) && Enabled(s, Commit(t)) && s.txs[t].phase.Swapped?
    ensures SortedSuffix(Record(s.ledger, s.txs[t]))
  {
    assert TxInv(s, t) && TxTimed(s, t, ttl);
    var c, m := s.txs[t].phase.current, s.txs[t].phase.minted;
    var l, l' := s.ledger, Record(s.ledger, s.txs[t]);
    assert RowInv(l, c.id);
    forall a, b | a in l'.rows && NotBefore(l', a, b) ensures b in l'.rows && l'.rows[a].expires <= l'.rows[b].expires {
      assert b in l.place ==> Placed(l, b);
      if b == m.id {
        if a != m.id {
          assert RowInv(l, a);
          assert NotBefore(l, a, c.id);
        }
      } else if a != m.id {
        assert NotBefore(l, a, b);
      }
    }
  }

  lemma DeleteKeepsSorted(s: State, t: TxId, ttl: Time)
    requires Inv(s) && TimeInv(s, ttl) && Enabled(s, Commit(t)) && s.txs[t].phase.Deleted?
    ensures SortedSuffix(Record(s.ledger, s.txs[t]))
  {
    var tx := s.txs[t];
    assert TxInv(s, t) && TxTimed(s, t, ttl);
    CleanupCommits(s, t);
    var l, l' := s.ledger, Record(s.ledger, tx);
    forall a, b | a in l'.rows && NotBefore(l', a, b) ensures b in l'.rows && l'.rows[a].expires <= l'.rows[b].expires {
      assert NotBefore(l, a, b);
      assert b in tx.deletes ==> ExpiredRow(s, t, b);
    }
  }

  lemma CommitKeepsSorted(s: State, t: TxId, ttl: Time)
    requires Inv(s) && TimeInv(s, ttl) && Enabled(s, Commit(t))
    ensures SortedSuffix(Record(s.ledger, s.txs[t]))
  {
    var l, l' := s.ledger, Record(s.ledger, s.txs[t]);
    assert TxInv(s, t);
    if s.txs[t].phase.Swapped? {
      RotateKeepsSorted(s, t, ttl);
    } else if s.txs[t].phase.Deleted? {
      DeleteKeepsSorted(s, t, ttl);
    } else {
      CommitRefines(s, t);
      forall a, b | a in l'.rows && NotBefore(l', a, b) ensures b in l'.rows && l'.rows[a].expires <= l'.rows[b].expires {
        assert a in l.rows ==> RowInv(l, a);
        assert b in l.place ==> Placed(l, b);
        assert a in l.rows && b in l.place ==> NotBefore(l, a, b);
      }
    }
  }

  // ---------------------------------------------------------------- every step

  /** A committed row was committed before with the same token, or is the one `t` had pending. */
  lemma RowOrigin(s: State, t: TxId, id: SessionId)
    requires Inv(s) && Enabled(s, Commit(t)) && id in Record(s.ledger, s.txs[t]).rows
    ensures var row := Record(s.ledger, s.txs[t]).rows[id];
            || (id in s.ledger.rows && s.ledger.rows[id].hash == row.hash && s.ledger.rows[id].expires == row.expires)
            || (id !in s.ledger.place && PendingRow(s, t) == Some(row))
  {
    assert TxInv(s, t);
    var tx := s.txs[t];
    if tx.phase.Revoking? && id in tx.writes { assert RevokedWrite(s, t, tx.phase.current.family, id); }
  }

  lemma PendingExpiry(s: State, t: TxId, ttl: Time)
    requires t in s.txs && TxInv(s, t) && TxTimed(s, t, ttl) && PendingRow(s, t).Some?
    ensures PendingRow(s, t).value.expires <= s.clock + ttl
  {
  }

  lemma CommitKeepsExpiries(s: State, t: TxId, ttl: Time)
    requires Inv(s) && TimeInv(s, ttl) && Enabled(s, Commit(t))
    ensures forall id | id in Record(s.ledger, s.txs[t]).rows :: Record(s.ledger, s.txs[t]).rows[id].expires <= s.clock + ttl
  {
    assert TxInv(s, t) && TxTimed(s, t, ttl);
    var l' := Record(s.ledger, s.txs[t]);
    forall id | id in l'.rows ensures l'.rows[id].expires <= s.clock + ttl {
      RowOrigin(s, t, id);
      assert id in s.ledger.rows ==> s.ledger.rows[id].expires <= s.clock + ttl;
      if PendingRow(s, t).Some? { PendingExpiry(s, t, ttl); }
    }
  }

  /** Somebody else's commit adds nothing that carries this transaction's token. */
  lemma CommitKeepsTokenTimes(s: State, t: TxId, u: TxId, ttl: Time)
    requires Inv(s) && TimeInv(s, ttl) && Enabled(s, Commit(t)) && u in s.txs && u != t && s.txs[u].req.RotateReq?
    ensures forall id | id in Record(s.ledger, s.txs[t]).rows && Record(s.ledger, s.txs[t]).rows[id].hash == s.txs[u].req.hash ::
              Record(s.ledger, s.txs[t]).rows[id].expires <= s.txs[u].req.now + ttl
  {
    var l' := Record(s.ledger, s.txs[t]);
    assert TxTimed(s, t, ttl) && TxTimed(s, u, ttl);
    forall id | id in l'.rows && l'.rows[id].hash == s.txs[u].req.hash ensures l'.rows[id].expires <= s.txs[u].req.now + ttl {
      RowOrigin(s, t, id);
      assert id in s.ledger.rows && s.ledger.rows[id].hash == s.txs[u].req.hash ==>
          s.ledger.rows[id].expires <= s.txs[u].req.now + ttl;
    }
  }

  /** Places already given out stay, and a new one comes after every other of its family. */
  lemma PlaceOrigin(s: State, t: TxId, a: SessionId, b: SessionId)
    requires Inv(s) && Enabled(s, Commit(t)) && b in s.ledger.place
    requires NotBefore(Record(s.ledger, s.txs[t]), a, b)
    ensures a in s.ledger.place && NotBefore(s.ledger, a, b)
  {
    assert TxInv(s, t);
    assert Placed(s.ledger, b);
    var phase := s.txs[t].phase;
    if phase.Swapped? { assert RowInv(s.ledger, phase.current.id); }
  }

  lemma CommitKeepsSnapshot(s: State, t: TxId, u: TxId, ttl: Time)
    requires Inv(s) && TimeInv(s, ttl) && Enabled(s, Commit(t)) && u in s.txs && u != t && s.txs[u].req.CleanupReq?
    ensures SnapshotInv(s.(ledger := Record(s.ledger, s.txs[t])), u)
  {
    var l, l', phase := s.ledger, Record(s.ledger, s.txs[t]), s.txs[u].phase;
    assert TxTimed(s, u, ttl);
    if phase.Deleting? || phase.Deleted? {
      forall id | id in phase.snapshot && id in l'.rows ensures id in l.rows && l.rows[id].expires == l'.rows[id].expires {
        RowOrigin(s, t, id);
      }
      forall a, b | a in l'.rows && b in phase.snapshot && NotBefore(l', a, b) ensures a in phase.snapshot {
        PlaceOrigin(s, t, a, b);
        RowOrigin(s, t, a);
      }
    }
  }

  predicate Early(a: Action) {
    a.Begin? || a.Find? || a.LockFamily? || a.ReadRow?
  }

  lemma EarlyRequestsStay(s: State, a: Action, t: TxId)
    requires Enabled(s, a) && Early(a) && t in Step(s, a).txs
    ensures if t in s.txs then Step(s, a).txs[t].req == s.txs[t].req else a == Begin(t, Step(s, a).txs[t].req)
  {
  }

  lemma LateRequestsStay(s: State, a: Action, t: TxId)
    requires Enabled(s, a) && !Early(a) && t in Step(s, a).txs
    ensures t in s.txs && Step(s, a).txs[t].req == s.txs[t].req
  {
  }

  lemma RequestsStay(s: State, a: Action, t: TxId)
    requires Enabled(s, a) && t in Step(s, a).txs
    ensures if t in s.txs then Step(s, a).txs[t].req == s.txs[t].req else a == Begin(t, Step(s, a).txs[t].req)
  {
    if Early(a) { EarlyRequestsStay(s, a, t); } else { LateRequestsStay(s, a, t); }
  }

  lemma PendingStaysUnguessed(s: State, a: Action, u: TxId, ttl: Time)
    requires Inv(s) && TimeInv(s, ttl) && Enabled(s, a) && Timed(s, a, ttl) && u in s.txs && PendingRow(s, u).Some?
    ensures Unguessed(Step(s, a), PendingRow(s, u).value.hash)
  {
    var h := PendingRow(s, u).value.hash;
    assert TxTimed(s, u, ttl);
    assert h in s.hashes && h !in s.ledger.owner by { assert TxInv(s, u); }
    var s' := Step(s, a);
    forall t | t in s'.txs && TokenRequest(s'.txs[t].req) ensures s'.txs[t].req.hash != h {
      RequestsStay(s, a, t);
    }
  }

  /** A transaction that kept its record stays timed if the ledger stays timed for it. */
  lemma StaysTimed(s: State, s': State, u: TxId, ttl: Time)
    requires u in s.txs && TxTimed(s, u, ttl) && u in s'.txs && s'.txs[u] == s.txs[u] && s.clock <= s'.clock
    requires s.txs[u].req.RotateReq? ==>
               forall id | id in s'.ledger.rows && s'.ledger.rows[id].hash == s.txs[u].req.hash ::
                 s'.ledger.rows[id].expires <= s.txs[u].req.now + ttl
    requires s.txs[u].req.CleanupReq? ==> SnapshotInv(s', u)
    requires PendingRow(s, u).Some? ==> Unguessed(s', PendingRow(s, u).value.hash)
    ensures TxTimed(s', u, ttl)
  {
  }

  lemma OthersStayTimed(s: State, a: Action, u: TxId, ttl: Time)
    requires Inv(s) && TimeInv(s, ttl) && Enabled(s, a) && Timed(s, a, ttl) && u in s.txs && Actor(a) != Some(u)
    ensures u in Step(s, a).txs && TxTimed(Step(s, a), u, ttl)
  {
    var s' := Step(s, a);
    StepUndisturbed(s, a, u);
    if PendingRow(s, u).Some? { PendingStaysUnguessed(s, a, u, ttl); }
    if a.Commit? { OthersStayTimedAtCommit(s, a.t, u, ttl); }
    assert TxTimed(s, u, ttl);
    StaysTimed(s, s', u, ttl);
  }

  lemma OthersStayTimedAtCommit(s: State, t: TxId, u: TxId, ttl: Time)
    requires Inv(s) && TimeInv(s, ttl) && Enabled(s, Commit(t)) && u in s.txs && u != t
    requires u in Step(s, Commit(t)).txs && Step(s, Commit(t)).txs[u] == s.txs[u]
    ensures var s' := Step(s, Commit(t));
            && (s.txs[u].req.RotateReq? ==>
                 forall id | id in s'.ledger.rows && s'.ledger.rows[id].hash == s.txs[u].req.hash ::
                   s'.ledger.rows[id].expires <= s.txs[u].req.now + ttl)
            && (s.txs[u].req.CleanupReq? ==> SnapshotInv(s', u))
  {
    if s.txs[u].req.RotateReq? { CommitKeepsTokenTimes(s, t, u, ttl); }
    if s.txs[u].req.CleanupReq? { CommitKeepsSnapshot(s, t, u, ttl); }
  }

  lemma BeginsTimed(s: State, t: TxId, req: Request, ttl: Time)
    requires Inv(s) && TimeInv(s, ttl) && Enabled(s, Begin(t, req)) && Timed(s, Begin(t, req), ttl)
    ensures TxTimed(Step(s, Begin(t, req)), t, ttl)
  {
    if req.RotateReq? {
      forall id | id in s.ledger.rows ensures s.ledger.rows[id].expires <= s.clock + ttl {
      }
    }
  }

  lemma InsertsTimed(s: State, t: TxId, m: Minted, ttl: Time)
    requires Inv(s) && TimeInv(s, ttl) && Enabled(s, Insert(t, m)) && Timed(s, Insert(t, m), ttl)
    ensures TxTimed(Step(s, Insert(t, m)), t, ttl)
  {
    assert TxInv(s, t) && TxTimed(s, t, ttl);
  }

  lemma ConsumesTimed(s: State, t: TxId, ttl: Time)
    requires Inv(s) && TimeInv(s, ttl) && Enabled(s, Consume(t))
    ensures TxTimed(Step(s, Consume(t)), t, ttl)
  {
    assert TxTimed(s, t, ttl);
  }

  lemma StartsSweepTimed(s: State, t: TxId, ttl: Time)
    requires Inv(s) && TimeInv(s, ttl) && Enabled(s, StartSweep(t))
    ensures TxTimed(StartSweepStep(s, t), t, ttl)
  {
    assert TxInv(s, t) && TxTimed(s, t, ttl);
    forall id | id in s.ledger.rows ensures id in s.ledger.place { assert RowInv(s.ledger, id); }
  }

  lemma SweepsTimed(s: State, t: TxId, id: SessionId, ttl: Time)
    requires Inv(s) && TimeInv(s, ttl) && Enabled(s, Sweep(t, id))
    ensures TxTimed(SweepStep(s, t, id), t, ttl)
  {
    assert TxTimed(s, t, ttl);
  }

  lemma ReadsTimed(s: State, a: Action, ttl: Time)
    requires Inv(s) && TimeInv(s, ttl) && Enabled(s, a) && (a.Find? || a.LockFamily? || a.ReadRow? || a.FactoryFails? || a.InsertFirst?)
    ensures TxTimed(Step(s, a), a.t, ttl)
  {
    assert TxTimed(s, a.t, ttl);
  }

  lemma ClearsTimed(s: State, t: TxId, ttl: Time)
    requires Inv(s) && TimeInv(s, ttl) && Enabled(s, ClearReferences(t))
    ensures TxTimed(ClearStep(s, t), t, ttl)
  {
    assert TxInv(s, t) && TxTimed(s, t, ttl);
  }

  lemma OwnStepStaysTimed(s: State, a: Action, ttl: Time)
    requires Inv(s) && TimeInv(s, ttl) && Enabled(s, a) && Timed(s, a, ttl) && !a.Tick? && a.t in Step(s, a).txs
    ensures TxTimed(Step(s, a), a.t, ttl)
  {
    match a
    case Begin(t, req) => BeginsTimed(s, t, req, ttl);
    case Insert(t, m) => InsertsTimed(s, t, m, ttl);
    case Consume(t) => ConsumesTimed(s, t, ttl);
    case StartSweep(t) => StartsSweepTimed(s, t, ttl);
    case Sweep(t, id) => SweepsTimed(s, t, id, ttl);
    case ClearReferences(t) => ClearsTimed(s, t, ttl);
    case Commit(t) =>
    case Abort(t) =>
    case _ => ReadsTimed(s, a, ttl);
  }

  /** The committed part of the invariant: only a commit moves it. */
  lemma LedgerStaysTimed(s: State, a: Action, ttl: Time)
    requires Inv(s) && TimeInv(s, ttl) && Enabled(s, a) && Timed(s, a, ttl)
    ensures SortedSuffix(Step(s, a).ledger)
    ensures forall id | id in Step(s, a).ledger.rows :: Step(s, a).ledger.rows[id].expires <= Step(s, a).clock + ttl
  {
    if a.Commit? {
      CommitKeepsSorted(s, a.t, ttl);
      CommitKeepsExpiries(s, a.t, ttl);
    }
  }

  lemma TxsStayTimed(s: State, a: Action, u: TxId, ttl: Time)
    requires Inv(s) && TimeInv(s, ttl) && Enabled(s, a) && Timed(s, a, ttl) && u in Step(s, a).txs
    ensures TxTimed(Step(s, a), u, ttl)
  {
    if Actor(a) == Some(u) {
      OwnStepStaysTimed(s, a, ttl);
    } else {
      RequestsStay(s, a, u);
      OthersStayTimed(s, a, u, ttl);
    }
  }

  lemma StepStaysTimed(s: State, a: Action, ttl: Time)
    requires Inv(s) && TimeInv(s, ttl) && Enabled(s, a) && Timed(s, a, ttl)
    ensures TimeInv(Step(s, a), ttl)
  {
    LedgerStaysTimed(s, a, ttl);
    forall u | u in Step(s, a).txs ensures TxTimed(Step(s, a), u, ttl) { TxsStayTimed(s, a, u, ttl); }
  }

  lemma {:induction false} TimedRunStaysSorted(s: State, actions: seq<Action>, end: State, ttl: Time)
    requires Inv(s) && TimeInv(s, ttl) && TimedRun(s, actions, end, ttl)
    ensures SortedSuffix(end.ledger)
    decreases |actions|
  {
    if actions != [] {
      StepKeepsInv(s, actions[0]);
      StepStaysTimed(s, actions[0], ttl);
      TimedRunStaysSorted(Step(s, actions[0]), actions[1..], end, ttl);
    }
  }

  /**
    After any interleaving of issues, rotations, revocations and cleanups the stored rows of every family are
    the newest part of its chain, in order of expiry: cleanup never leaves a gap behind a surviving row.
  */
  lemma SurvivorsAreASuffix(clock: Time, actions: seq<Action>, end: State, ttl: Time)
    requires TimedRun(Initial(true, clock), actions, end, ttl)
    ensures SortedSuffix(end.ledger)
  {
    InitialInv(clock);
    TimedRunStaysSorted(Initial(true, clock), actions, end, ttl);
  }
}
