/** Interleaved session transactions. */
module RotationProtocol {
  /*
    Rotate, Revoke, Create and DeleteExpired as interleaved Read Committed transactions
    (internal/feature/auth/session_repository.go:64-199, :243-257).

    Every SQL statement is a step of its own, and a sweeping UPDATE or DELETE takes one step per row.  Writes
    stay private to their transaction until it commits.  A statement sees the rows committed when it starts;
    when it reaches a row another transaction has locked it waits, and then works on the latest committed
    version of that row.  It never sees a row that was committed after it started.
  */

  import opened Common
  import opened SessionTable

  type TxId = nat

  datatype Request =
    | RotateReq(hash: TokenHash, now: Time)
    | RevokeReq(hash: TokenHash, now: Time)
    | CreateReq(row: Session)
    | CleanupReq(before: Time)

  datatype Phase =
    | Begun
    | Found(family: FamilyId)                          // family looked up, nothing locked
    | Locked(family: FamilyId)                         // family lock granted
    | Verified(current: Session)                       // row locked, re-read and accepted
    | Inserted(current: Session, minted: Minted)
    | Swapped(current: Session, minted: Minted)        // successor inserted, current consumed
    | Condemned(current: Session)                      // row locked, its family is to be revoked
    | Revoking(current: Session, todo: set<SessionId>) // inside the revoking UPDATE
    | Registering                                      // first row of a new family inserted
    | Deleting(snapshot: set<SessionId>, todo: set<SessionId>)
    | Deleted(snapshot: set<SessionId>)                // rows deleted, references cleared
    | Ready(outcome: Outcome)                          // nothing written, COMMIT next
    | RollingBack(outcome: Outcome)                         // ROLLBACK next

  datatype Tx = Tx(req: Request, phase: Phase, writes: Table, deletes: set<SessionId>)

  /**
    `ids`, `hashes` and `families` record which transaction minted each random value.  `locking` is false
    only in the variant without the family lock, which `HalfRevokedWithoutLock` shows to be broken.
  */
  datatype State = State(
    ledger: Ledger,
    txs: map<TxId, Tx>,
    outcomes: map<TxId, Outcome>,
    rowLocks: map<SessionId, TxId>,
    familyLocks: map<FamilyId, TxId>,
    ids: map<SessionId, TxId>,
    hashes: map<TokenHash, TxId>,
    families: map<FamilyId, TxId>,
    clock: Time,
    locking: bool)

  datatype Action =
    | Begin(t: TxId, req: Request)
    | Find(t: TxId)
    | LockFamily(t: TxId)
    | ReadRow(t: TxId)
    | FactoryFails(t: TxId)
    | Insert(t: TxId, minted: Minted)
    | Consume(t: TxId)
    | InsertFirst(t: TxId)
    | StartSweep(t: TxId)
    | Sweep(t: TxId, id: SessionId)
    | ClearReferences(t: TxId)
    | Commit(t: TxId)
    | Abort(t: TxId)
    | Tick(now: Time)

  // ---------------------------------------------------------------- helpers

  predicate TokenRequest(r: Request) { r.RotateReq? || r.RevokeReq? }

  predicate RowFree(s: State, t: TxId, id: SessionId) {
    id in s.rowLocks ==> s.rowLocks[id] == t
  }

  predicate HoldsRow(s: State, t: TxId, id: SessionId) {
    id in s.rowLocks && s.rowLocks[id] == t
  }

  predicate HoldsFamily(s: State, t: TxId, f: FamilyId) {
    f in s.familyLocks && s.familyLocks[f] == t
  }

  function Put(s: State, t: TxId, tx: Tx): State {
    s.(txs := s.txs[t := tx])
  }

  function Goto(s: State, t: TxId, p: Phase): State
    requires t in s.txs
  {
    Put(s, t, s.txs[t].(phase := p))
  }

  /** Advisory and row locks are released together, when the transaction ends. */
  function Finish(s: State, t: TxId, o: Outcome): State {
    s.(txs := s.txs - {t},
       outcomes := s.outcomes[t := o],
       rowLocks := s.rowLocks - (set id | id in s.rowLocks && s.rowLocks[id] == t),
       familyLocks := s.familyLocks - (set f | f in s.familyLocks && s.familyLocks[f] == t))
  }

  /** The rows whose stored reference points at a row this transaction has deleted. */
  function Referrers(rows: Table, deletes: set<SessionId>): set<SessionId> {
    set id | id in rows && id !in deletes && rows[id].replacedBy.Some? && rows[id].replacedBy.value in deletes
  }

  /** What a commit makes visible: the private writes and deletions, and nothing else of the rows. */
  function CommitRows(rows: Table, tx: Tx): Table {
    (rows + tx.writes) - tx.deletes
  }

  /** The bookkeeping of what has been committed; the rows come from `CommitRows` alone. */
  function Record(l: Ledger, tx: Tx): Ledger {
    var rows := CommitRows(l.rows, tx);
    match tx.phase
    case Registering =>
      if tx.req.CreateReq? then
        var row := tx.req.row;
        Ledger(rows, l.chain[row.family := [row.id]], l.place[row.id := Place(row.family, 0)],
               l.owner[row.hash := row.id], l.dead, l.rotated)
      else l
    case Swapped(current, minted) =>
      var f := current.family;
      var chain := if f in l.chain then l.chain[f] else [];
      Ledger(rows, l.chain[f := chain + [minted.id]], l.place[minted.id := Place(f, |chain|)],
             l.owner[minted.hash := minted.id], l.dead, l.rotated + multiset{current.hash})
    case Revoking(current, _) => l.(rows := rows, dead := l.dead + {current.family})
    case _ => l.(rows := rows)
  }

  function CommitOutcome(tx: Tx): Outcome {
    match tx.phase
    case Registering => Created
    case Swapped(_, _) => Rotated
    case Revoking(_, _) => if tx.req.RotateReq? then Reused else Revoked
    case Deleted(_) => Cleaned
    case Ready(o) => o
    case _ => Unavailable
  }

  // ---------------------------------------------------------------- steps

  ghost predicate Enabled(s: State, a: Action) {
    match a
    case Begin(t, req) =>
      && t !in s.txs && t !in s.outcomes
      && (req.CreateReq? ==>
            && Unused(req.row)
            && req.row.id !in s.ids && req.row.hash !in s.hashes && req.row.family !in s.families)
    case Find(t) => t in s.txs && s.txs[t].phase.Begun? && TokenRequest(s.txs[t].req)
    case LockFamily(t) =>
      && t in s.txs && s.txs[t].phase.Found?
      && (s.locking ==> s.txs[t].phase.family !in s.familyLocks)
    case ReadRow(t) =>
      && t in s.txs && s.txs[t].phase.Locked? && TokenRequest(s.txs[t].req)
      && var row := Lookup(s.ledger.rows, s.txs[t].req.hash);
         row.Some? ==> RowFree(s, t, row.value.id)
    case FactoryFails(t) => t in s.txs && s.txs[t].phase.Verified?
    case Insert(t, minted) =>
      t in s.txs && s.txs[t].phase.Verified? && minted.id !in s.ids && minted.hash !in s.hashes
    case Consume(t) => t in s.txs && s.txs[t].phase.Inserted? && s.txs[t].req.RotateReq?
    case InsertFirst(t) =>
      t in s.txs && s.txs[t].phase.Begun? && s.txs[t].req.CreateReq? && RowFree(s, t, s.txs[t].req.row.id)
    case StartSweep(t) =>
      t in s.txs && (s.txs[t].phase.Condemned? || (s.txs[t].phase.Begun? && s.txs[t].req.CleanupReq?))
    case Sweep(t, id) =>
      && t in s.txs && RowFree(s, t, id)
      && ((s.txs[t].phase.Revoking? && TokenRequest(s.txs[t].req)) || (s.txs[t].phase.Deleting? && s.txs[t].req.CleanupReq?))
      && id in s.txs[t].phase.todo
    case ClearReferences(t) =>
      && t in s.txs && s.txs[t].phase.Deleting? && s.txs[t].phase.todo == {}
      && forall id | id in Referrers(s.ledger.rows, s.txs[t].deletes) :: RowFree(s, t, id)
    case Commit(t) =>
      && t in s.txs
      && (|| s.txs[t].phase.Registering? || s.txs[t].phase.Swapped? || s.txs[t].phase.Deleted?
          || s.txs[t].phase.Ready? || (s.txs[t].phase.Revoking? && s.txs[t].phase.todo == {}))
    case Abort(t) => t in s.txs
    case Tick(now) => s.clock <= now
  }

  /** The unlocked lookup of the family (session_repository.go:245-252). */
  function FindPhase(req: Request, found: Option<Session>): Phase {
    match found
    case Some(row) => Found(row.family)
    case None => RollingBack(if req.RotateReq? then Invalid else NothingToRevoke)
  }

  ghost function FindStep(s: State, t: TxId): (r: State)
    requires Enabled(s, Find(t))
    ensures r.ledger == s.ledger
  {
    Put(s, t, s.txs[t].(phase := FindPhase(s.txs[t].req, Lookup(s.ledger.rows, s.txs[t].req.hash))))
  }

  /** The branch taken on what the locked re-read returns (:87-116, :172-182). */
  function ReadPhase(req: Request, found: Option<Session>): Phase
    requires TokenRequest(req)
  {
    match found
    case None => if req.RotateReq? then RollingBack(Invalid) else Ready(NothingToRevoke)
    case Some(row) =>
      if req.RevokeReq? then Condemned(row)
      else
        match Judge(row, req.now)
        case Refuse(why) => RollingBack(why)
        case Condemn(_) => Condemned(row)
        case Accept(_) => Verified(row)
  }

  ghost function ReadStep(s: State, t: TxId): (r: State)
    requires Enabled(s, ReadRow(t))
    ensures r.ledger == s.ledger
  {
    var found := Lookup(s.ledger.rows, s.txs[t].req.hash);
    var locked := if found.Some? then s.(rowLocks := s.rowLocks[found.value.id := t]) else s;
    Put(locked, t, s.txs[t].(phase := ReadPhase(s.txs[t].req, found)))
  }

  /** The statement's snapshot: the committed rows that match its WHERE clause when it starts. */
  function SnapshotPhase(rows: Table, tx: Tx): Phase
    requires tx.phase.Condemned? || tx.req.CleanupReq?
  {
    if tx.phase.Condemned? then
      var f := tx.phase.current.family;
      Revoking(tx.phase.current, set id | id in rows && rows[id].family == f && rows[id].revoked.None?)
    else
      Deleting(rows.Keys, set id | id in rows && rows[id].expires < tx.req.before)
  }

  function StartSweepStep(s: State, t: TxId): (r: State)
    requires t in s.txs && (s.txs[t].phase.Condemned? || s.txs[t].req.CleanupReq?)
    ensures r.ledger == s.ledger
  {
    Put(s, t, s.txs[t].(phase := SnapshotPhase(s.ledger.rows, s.txs[t])))
  }

  /** Whether the row still matches the WHERE clause on its latest committed version. */
  predicate StillMatches(rows: Table, tx: Tx, id: SessionId)
    requires tx.phase.Revoking? || (tx.phase.Deleting? && tx.req.CleanupReq?)
  {
    && id in rows
    && if tx.phase.Revoking? then rows[id].family == tx.phase.current.family && rows[id].revoked.None?
       else rows[id].expires < tx.req.before
  }

  /** One row of the sweep: skipped, revoked or deleted. */
  function SweepTx(rows: Table, tx: Tx, id: SessionId): Tx
    requires (tx.phase.Revoking? && TokenRequest(tx.req)) || (tx.phase.Deleting? && tx.req.CleanupReq?)
  {
    match tx.phase
    case Revoking(current, todo) =>
      var next := tx.(phase := Revoking(current, todo - {id}));
      if StillMatches(rows, tx, id) then next.(writes := tx.writes[id := rows[id].(revoked := Some(tx.req.now))]) else next
    case Deleting(snapshot, todo) =>
      var next := tx.(phase := Deleting(snapshot, todo - {id}));
      if StillMatches(rows, tx, id) then next.(deletes := tx.deletes + {id}) else next
  }

  ghost function SweepStep(s: State, t: TxId, id: SessionId): (r: State)
    requires Enabled(s, Sweep(t, id))
    ensures r.ledger == s.ledger
  {
    var locked := if StillMatches(s.ledger.rows, s.txs[t], id) then s.(rowLocks := s.rowLocks[id := t]) else s;
    Put(locked, t, SweepTx(s.ledger.rows, s.txs[t], id))
  }

  ghost function ClearStep(s: State, t: TxId): (r: State)
    requires Enabled(s, ClearReferences(t))
    ensures r.ledger == s.ledger
  {
    var tx := s.txs[t];
    var rows := s.ledger.rows;
    var refs := Referrers(rows, tx.deletes);
    var locked := s.(rowLocks := s.rowLocks + map id | id in refs :: t);
    Put(locked, t, tx.(phase := Deleted(tx.phase.snapshot), writes := map id | id in refs :: Unlink(rows[id], tx.deletes)))
  }

  /** Only a commit changes what is committed. */
  ghost function Step(s: State, a: Action): (r: State)
    requires Enabled(s, a)
    ensures !a.Commit? ==> r.ledger == s.ledger
    ensures !a.Commit? && !a.Abort? ==> r.outcomes == s.outcomes
    ensures s.clock <= r.clock
  {
    match a
    case Begin(t, req) =>
      var b := Put(s, t, Tx(req, Begun, map[], {}));
      if req.CreateReq? then
        b.(ids := s.ids[req.row.id := t], hashes := s.hashes[req.row.hash := t], families := s.families[req.row.family := t])
      else b
    case Find(t) => FindStep(s, t)
    case LockFamily(t) =>
      var f := s.txs[t].phase.family;
      Goto(if s.locking then s.(familyLocks := s.familyLocks[f := t]) else s, t, Locked(f))
    case ReadRow(t) => ReadStep(s, t)
    case FactoryFails(t) => Goto(s, t, RollingBack(FactoryFailed))
    case Insert(t, minted) =>
      var tx := s.txs[t];
      Put(s.(rowLocks := s.rowLocks[minted.id := t], ids := s.ids[minted.id := t], hashes := s.hashes[minted.hash := t]), t,
          tx.(phase := Inserted(tx.phase.current, minted),
              writes := tx.writes[minted.id := Successor(tx.phase.current, minted)]))
    case Consume(t) =>
      var tx := s.txs[t];
      var current, minted := tx.phase.current, tx.phase.minted;
      Put(s, t, tx.(phase := Swapped(current, minted),
                    writes := tx.writes[current.id := Consumed(current, tx.req.now, minted.id)]))
    case InsertFirst(t) =>
      var tx := s.txs[t];
      Put(s.(rowLocks := s.rowLocks[tx.req.row.id := t]), t,
          tx.(phase := Registering, writes := tx.writes[tx.req.row.id := tx.req.row]))
    case StartSweep(t) => StartSweepStep(s, t)
    case Sweep(t, id) => SweepStep(s, t, id)
    case ClearReferences(t) => ClearStep(s, t)
    case Commit(t) => Finish(s.(ledger := Record(s.ledger, s.txs[t])), t, CommitOutcome(s.txs[t]))
    case Abort(t) =>
      Finish(s, t, if s.txs[t].phase.RollingBack? then s.txs[t].phase.outcome else Unavailable)
    case Tick(now) => s.(clock := now)
  }

  ghost predicate Run(s: State, actions: seq<Action>, end: State)
    decreases |actions|
  {
    if actions == [] then s == end
    else Enabled(s, actions[0]) && Run(Step(s, actions[0]), actions[1..], end)
  }

  function Initial(locking: bool, clock: Time): State {
    State(EMPTY, map[], map[], map[], map[], map[], map[], map[], clock, locking)
  }
}
