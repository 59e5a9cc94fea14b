/**
 * One user's watchlist under concurrent Add, Remove and Reorder transactions. Every SQL
 * statement is a step of its own; committed rows are kept apart from the keys a
 * transaction has written but not committed.
 */
module WatchlistProtocol {

  type TxId = nat
  type RowId = nat

  datatype Row = Row(code: string, key: int)

  datatype Request =
    | AddNext(code: string)
    | Remove(code: string)
    | Reorder(codes: seq<string>)

  datatype Outcome = Done | Mismatch | AlreadyInWatchlist | NotInWatchlist | KeyCollision | Aborted

  datatype Phase =
    | Ready
    | UserLocked
    | KnowsMax(max: int)
    | Inserted(id: RowId, key: int)
    | Validated
    | Locking(snapshot: set<RowId>, todo: set<RowId>, got: set<RowId>)
    /** ids: the rows shifted so far, in request order; settled: how many of them have their final key. */
    | Renumbering(snapshot: set<RowId>, locked: set<RowId>, ids: seq<RowId>, settled: nat)
    | Ended(outcome: Outcome)

  datatype Tx = Tx(request: Request, phase: Phase)

  datatype State = State(
    rows: map<RowId, Row>,
    userLock: set<TxId>,             // at most one holder
    rowLocks: map<RowId, TxId>,
    used: set<RowId>,                // every id ever given out
    txs: map<TxId, Tx>)

  datatype Action =
    | Arrive(t: TxId, request: Request)
    | LockUser(t: TxId)
    | ReadMax(t: TxId, max: int)
    | Insert(t: TxId, id: RowId)
    | CommitAdd(t: TxId)
    | Delete(t: TxId, found: set<RowId>)
    | List(t: TxId)
    | BeginLocking(t: TxId)
    | LockRow(t: TxId, id: RowId)
    | EndLocking(t: TxId)
    | Shift(t: TxId, found: set<RowId>)
    | Settle(t: TxId, found: set<RowId>)
    | CommitReorder(t: TxId)
    | Abort(t: TxId)

  // ----- Statements

  function WithCode(rows: map<RowId, Row>, code: string): set<RowId> {
    set id | id in rows && rows[id].code == code
  }

  function Codes(rows: map<RowId, Row>): set<string> {
    set id | id in rows :: rows[id].code
  }

  /** `COALESCE(MAX(sort_key), -1)` */
  predicate IsMax(rows: map<RowId, Row>, max: int) {
    && (forall id | id in rows :: rows[id].key <= max)
    && (if rows == map[] then max == -1 else exists id :: id in rows && rows[id].key == max)
  }

  predicate DistinctCodes(codes: seq<string>) {
    forall i, j | 0 <= i < j < |codes| :: codes[i] != codes[j]
  }

  /** The use case's check of a request against the listed rows. */
  predicate Permutes(codes: seq<string>, rows: map<RowId, Row>) {
    |codes| == |rows| && DistinctCodes(codes) && forall c | c in codes :: c in Codes(rows)
  }

  /** The key a renumbering transaction has written into the j-th row of its request. */
  function WrittenKey(settled: nat, j: nat): int {
    if j < settled then j else -(j + 1)
  }

  /** Transaction x has written `key` into row `id` and not committed yet. */
  predicate Writes(x: Tx, id: RowId, key: int) {
    match x.phase
    case Inserted(i, k) => id == i && key == k
    case Renumbering(snapshot, locked, ids, settled) => exists j :: 0 <= j < |ids| && ids[j] == id && key == WrittenKey(settled, j)
    case _ => false
  }

  predicate Owns(x: Tx, id: RowId) {
    match x.phase
    case Renumbering(snapshot, locked, ids, settled) => id in ids
    case _ => false
  }

  /**
   * The unique index refuses `key` for row `id`: another row has it, committed or about
   * to be, or held it before this transaction's writer finishes.
   */
  ghost predicate Collides(s: State, t: TxId, id: RowId, key: int)
    requires t in s.txs
  {
    || (exists other :: other in s.rows && other != id && !Owns(s.txs[t], other) && s.rows[other].key == key)
    || (exists u, other {:trigger Writes(s.txs[u], other, key)} :: u in s.txs && other != id && Writes(s.txs[u], other, key))
  }

  predicate Free(s: State, t: TxId, id: RowId) {
    id in s.rowLocks ==> s.rowLocks[id] == t
  }

  predicate At(s: State, t: TxId) {
    t in s.txs
  }

  ghost predicate Enabled(s: State, a: Action) {
    match a
    case Arrive(t, request) => t !in s.txs
    case LockUser(t) => At(s, t) && s.txs[t].request.AddNext? && s.txs[t].phase == Ready && s.userLock == {}
    case ReadMax(t, max) => At(s, t) && s.txs[t].phase == UserLocked && IsMax(s.rows, max)
    case Insert(t, id) => At(s, t) && s.txs[t].request.AddNext? && s.txs[t].phase.KnowsMax? && id !in s.used
    case CommitAdd(t) => At(s, t) && s.txs[t].request.AddNext? && s.txs[t].phase.Inserted?
    case Delete(t, found) =>
      && At(s, t) && s.txs[t].request.Remove? && s.txs[t].phase == Ready
      && found == WithCode(s.rows, s.txs[t].request.code) && forall id | id in found :: Free(s, t, id)
    case List(t) => At(s, t) && s.txs[t].request.Reorder? && s.txs[t].phase == Ready
    case BeginLocking(t) => At(s, t) && s.txs[t].request.Reorder? && s.txs[t].phase == Validated
    case LockRow(t, id) =>
      At(s, t) && s.txs[t].phase.Locking? && id in s.txs[t].phase.todo && (id in s.rows ==> Free(s, t, id))
    case EndLocking(t) => At(s, t) && s.txs[t].request.Reorder? && s.txs[t].phase.Locking? && s.txs[t].phase.todo == {}
    case Shift(t, found) =>
      && At(s, t) && s.txs[t].request.Reorder? && s.txs[t].phase.Renumbering?
      && |s.txs[t].phase.ids| < |s.txs[t].request.codes|
      && found == WithCode(s.rows, s.txs[t].request.codes[|s.txs[t].phase.ids|]) && forall id | id in found :: Free(s, t, id)
    case Settle(t, found) =>
      && At(s, t) && s.txs[t].request.Reorder? && s.txs[t].phase.Renumbering?
      && |s.txs[t].phase.ids| == |s.txs[t].request.codes| && s.txs[t].phase.settled < |s.txs[t].request.codes|
      && found == WithCode(s.rows, s.txs[t].request.codes[s.txs[t].phase.settled]) && forall id | id in found :: Free(s, t, id)
    case CommitReorder(t) =>
      && At(s, t) && s.txs[t].request.Reorder? && s.txs[t].phase.Renumbering?
      && |s.txs[t].phase.ids| == |s.txs[t].request.codes| == s.txs[t].phase.settled
    case Abort(t) => At(s, t) && !s.txs[t].phase.Ended?
  }

  // ----- Steps

  function To(s: State, t: TxId, p: Phase): State
    requires t in s.txs
  {
    s.(txs := s.txs[t := s.txs[t].(phase := p)])
  }

  /** Commit or rollback: every lock of t goes, and what it wrote stays only if `rows` says so. */
  function End(s: State, t: TxId, rows: map<RowId, Row>, outcome: Outcome): State
    requires t in s.txs
  {
    To(s, t, Ended(outcome)).(
      rows := rows,
      userLock := s.userLock - {t},
      rowLocks := s.rowLocks - (set id | id in s.rowLocks && s.rowLocks[id] == t))
  }

  function Renumbered(rows: map<RowId, Row>, ids: seq<RowId>): map<RowId, Row>
    decreases |ids|
  {
    if ids == [] then rows else
      var n := |ids| - 1;
      var before := Renumbered(rows, ids[..n]);
      if ids[n] in rows then before[ids[n] := rows[ids[n]].(key := n)] else before
  }

  ghost function InsertStep(s: State, t: TxId, id: RowId): State
    requires Enabled(s, Insert(t, id))
  {
    var key := s.txs[t].phase.max + 1;
    var minted := s.(used := s.used + {id});
    if s.txs[t].request.code in Codes(s.rows) then End(minted, t, s.rows, AlreadyInWatchlist)
    else if Collides(s, t, id, key) then End(minted, t, s.rows, KeyCollision)
    else To(minted, t, Inserted(id, key))
  }

  function Shifted(s: State, t: TxId, id: RowId): State
    requires At(s, t) && s.txs[t].phase.Renumbering?
  {
    To(s, t, s.txs[t].phase.(ids := s.txs[t].phase.ids + [id])).(rowLocks := s.rowLocks[id := t])
  }

  function Settled(s: State, t: TxId): State
    requires At(s, t) && s.txs[t].phase.Renumbering?
  {
    To(s, t, s.txs[t].phase.(settled := s.txs[t].phase.settled + 1))
  }

  ghost function ShiftStep(s: State, t: TxId, found: set<RowId>): State
    requires Enabled(s, Shift(t, found))
  {
    var key := WrittenKey(0, |s.txs[t].phase.ids|);
    if found == {} then End(s, t, s.rows, Mismatch)
    else
      var id :| id in found;
      if Collides(s, t, id, key) then End(s, t, s.rows, KeyCollision)
      else Shifted(s, t, id)
  }

  ghost function SettleStep(s: State, t: TxId, found: set<RowId>): State
    requires Enabled(s, Settle(t, found))
  {
    if found == {} then End(s, t, s.rows, Mismatch)
    else
      var id :| id in found;
      if Collides(s, t, id, s.txs[t].phase.settled) then End(s, t, s.rows, KeyCollision)
      else Settled(s, t)
  }

  ghost function Step(s: State, a: Action): State
    requires Enabled(s, a)
  {
    match a
    case Arrive(t, request) => s.(txs := s.txs[t := Tx(request, Ready)])
    case LockUser(t) => To(s, t, UserLocked).(userLock := {t})
    case ReadMax(t, max) => To(s, t, KnowsMax(max))
    case Insert(t, id) => InsertStep(s, t, id)
    case CommitAdd(t) => End(s, t, s.rows[s.txs[t].phase.id := Row(s.txs[t].request.code, s.txs[t].phase.key)], Done)
    case Delete(t, found) => End(s, t, s.rows - found, if found == {} then NotInWatchlist else Done)
    case List(t) => if Permutes(s.txs[t].request.codes, s.rows) then To(s, t, Validated) else End(s, t, s.rows, Mismatch)
    case BeginLocking(t) => To(s, t, Locking(s.rows.Keys, s.rows.Keys, {}))
    case LockRow(t, id) =>
      var p := s.txs[t].phase;
      if id in s.rows then To(s, t, Locking(p.snapshot, p.todo - {id}, p.got + {id})).(rowLocks := s.rowLocks[id := t])
      else To(s, t, Locking(p.snapshot, p.todo - {id}, p.got))
    case EndLocking(t) =>
      var p := s.txs[t].phase;
      if |p.got| == |s.txs[t].request.codes| then To(s, t, Renumbering(p.snapshot, p.got, [], 0))
      else End(s, t, s.rows, Mismatch)
    case Shift(t, found) => ShiftStep(s, t, found)
    case Settle(t, found) => SettleStep(s, t, found)
    case CommitReorder(t) => End(s, t, Renumbered(s.rows, s.txs[t].phase.ids), Done)
    case Abort(t) => End(s, t, s.rows, Aborted)
  }
}
