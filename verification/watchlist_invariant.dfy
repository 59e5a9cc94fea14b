/**
 * What every statement of concurrent Add, Remove and Reorder transactions keeps. Reorder does not take the lock
 * that Adds take, so nothing serializes the two; that their keys never meet is a matter of counting: distinct
 * non-negative keys up to MAX leave room for at most MAX + 1 rows, so MAX + 1 lies above every position a Reorder
 * of locked rows can give out. Two Reorders exclude each other through their row locks: of two lock statements
 * the later one sees every surviving row of the earlier.
 */
module WatchlistInvariant {
  import opened WatchlistProtocol

  // ----- The invariant

  predicate RowsInv(rows: map<RowId, Row>) {
    && (forall i | i in rows :: 0 <= rows[i].key)
    && (forall i, j | i in rows && j in rows && i != j :: rows[i].key != rows[j].key && rows[i].code != rows[j].code)
  }

  predicate HasSnapshot(p: Phase) {
    p.Locking? || p.Renumbering?
  }

  predicate LocksAll(s: State, t: TxId, ids: set<RowId>) {
    forall id | id in ids :: id in s.rows && id in s.rowLocks && s.rowLocks[id] == t
  }

  /** The rows the transaction has shifted are those of its first codes, and nobody else's key is in their way. */
  predicate Renumbers(s: State, t: TxId, codes: seq<string>, ids: seq<RowId>, settled: nat) {
    && settled <= |ids| <= |codes| && (settled > 0 ==> |ids| == |codes|)
    && (forall j | 0 <= j < |ids| :: ids[j] in s.rows && ids[j] in s.rowLocks && s.rowLocks[ids[j]] == t && s.rows[ids[j]].code == codes[j])
    && (forall id, j | id in s.rows && id !in ids && 0 <= j < |ids| :: s.rows[id].key != WrittenKey(settled, j))
  }

  predicate TxInv(s: State, t: TxId) {
    t in s.txs ==>
      var r := s.txs[t].request;
      match s.txs[t].phase
      case Ready => true
      case UserLocked => r.AddNext? && s.userLock == {t}
      case KnowsMax(max) => r.AddNext? && s.userLock == {t} && |s.rows| <= max + 1 && forall id | id in s.rows :: s.rows[id].key <= max
      case Inserted(id, key) =>
        && r.AddNext? && s.userLock == {t} && id in s.used && id !in s.rows && |s.rows| <= key
        && forall id | id in s.rows :: s.rows[id].key < key && s.rows[id].code != r.code
      case Validated => r.Reorder? && DistinctCodes(r.codes)
      case Locking(snapshot, todo, got) =>
        && r.Reorder? && DistinctCodes(r.codes) && snapshot <= s.used && todo <= snapshot && got <= snapshot
        && LocksAll(s, t, got) && snapshot * s.rows.Keys <= got + todo
      case Renumbering(snapshot, locked, ids, settled) =>
        && r.Reorder? && DistinctCodes(r.codes) && snapshot <= s.used
        && locked == snapshot * s.rows.Keys && LocksAll(s, t, locked) && |locked| == |r.codes|
        && Renumbers(s, t, r.codes, ids, settled)
      case Ended(outcome) => true
  }

  /** Of two snapshots the later one holds everything of the earlier that still exists. */
  predicate PairInv(s: State, t: TxId, u: TxId) {
    t in s.txs && u in s.txs && t != u && HasSnapshot(s.txs[u].phase) ==>
      var p, q := s.txs[t].phase, s.txs[u].phase;
      && (HasSnapshot(p) ==> p.snapshot * s.rows.Keys <= q.snapshot || q.snapshot * s.rows.Keys <= p.snapshot)
      && (p.Inserted? ==> p.id !in q.snapshot)
  }

  ghost predicate Inv(s: State) {
    && RowsInv(s.rows) && s.rows.Keys <= s.used
    && (forall t {:trigger TxInv(s, t)} :: TxInv(s, t))
    && (forall t, u {:trigger PairInv(s, t, u)} :: PairInv(s, t, u))
  }

  // ----- Counting

  lemma {:induction false} DistinctKeysNeedRoom(rows: map<RowId, Row>, max: int)
    requires RowsInv(rows) && max >= -1 && forall id | id in rows :: rows[id].key <= max
    ensures |rows| <= max + 1
    decreases max + 1
  {
    if max == -1 {
      assert rows.Keys == {};
    } else if id :| id in rows && rows[id].key == max {
      var rest := rows - {id};
      assert rows.Keys == rest.Keys + {id};
      DistinctKeysNeedRoom(rest, max - 1);
    } else {
      DistinctKeysNeedRoom(rows, max - 1);
    }
  }

  lemma LockedFitsRows(s: State, t: TxId)
    requires Inv(s) && t in s.txs && s.txs[t].phase.Renumbering?
    ensures s.txs[t].request.Reorder? && |s.txs[t].request.codes| <= |s.rows|
  {
    assert TxInv(s, t);
    SubsetSize(s.txs[t].phase.locked, s.rows.Keys);
  }

  lemma {:induction false} SubsetSize(a: set<RowId>, b: set<RowId>)
    requires a <= b
    ensures |a| <= |b|
    decreases |a|
  {
    if x :| x in a { SubsetSize(a - {x}, b - {x}); }
  }

  /** Two transactions cannot both be renumbering rows: the later snapshot would need the earlier one's locks. */
  lemma OneRenumbersAtATime(s: State, t: TxId, u: TxId)
    requires Inv(s) && t in s.txs && u in s.txs && t != u
    requires s.txs[t].phase.Renumbering? && s.txs[u].phase.Renumbering?
    ensures s.txs[t].phase.ids == [] || s.txs[u].phase.ids == []
    ensures s.txs[t].request.Reorder? && s.txs[u].request.Reorder?
    ensures s.txs[t].request.codes == [] || s.txs[u].request.codes == []
  {
    assert TxInv(s, t) && TxInv(s, u) && PairInv(s, t, u);
    var p, q := s.txs[t].phase, s.txs[u].phase;
    assert p.locked * q.locked == {};
    assert p.locked <= q.locked || q.locked <= p.locked;
    assert p.locked == p.locked * q.locked || q.locked == p.locked * q.locked;
  }

  // ----- Main results about one state

  /**
   * An Add never meets the unique index on sort keys: MAX + 1 is at least the number of
   * rows, so above every key a concurrent Reorder has written or will write.
   */
  lemma AddNeverCollides(s: State, t: TxId, id: RowId)
    requires Inv(s) && Enabled(s, Insert(t, id))
    ensures !Collides(s, t, id, s.txs[t].phase.max + 1)
    ensures forall other | other in s.rows :: s.rows[other].key < s.txs[t].phase.max + 1
  {
    var key := s.txs[t].phase.max + 1;
    assert TxInv(s, t);
    forall u, other | u in s.txs && other != id && Writes(s.txs[u], other, key) ensures false {
      assert TxInv(s, u);
      if s.txs[u].phase.Renumbering? { LockedFitsRows(s, u); }
    }
  }

  // ----- Steps that leave the committed rows alone

  /** t2 differs from s only in transaction t, in locks of t, and in ids given out. */
  ghost predicate Moves(s: State, s2: State, t: TxId) {
    && s2.rows == s.rows && s.used <= s2.used
    && s2.txs.Keys == s.txs.Keys + {t}
    && (forall u | u in s.txs && u != t :: s2.txs[u] == s.txs[u] && (s.userLock == {u} ==> s2.userLock == {u}))
    && (forall id | id in s.rowLocks && s.rowLocks[id] != t :: id in s2.rowLocks && s2.rowLocks[id] == s.rowLocks[id])
  }

  lemma OthersStay(s: State, s2: State, t: TxId, u: TxId)
    requires Moves(s, s2, t) && u != t && TxInv(s, u)
    ensures TxInv(s2, u)
  {
  }

  lemma MovesKeepInv(s: State, s2: State, t: TxId)
    requires Inv(s) && Moves(s, s2, t) && TxInv(s2, t)
    requires forall u :: PairInv(s2, t, u) && PairInv(s2, u, t)
    ensures Inv(s2)
  {
    forall u ensures TxInv(s2, u) {
      if u != t {
        assert TxInv(s, u);
        OthersStay(s, s2, t, u);
      }
    }
    forall u, v ensures PairInv(s2, u, v) {
      if u != t && v != t { assert PairInv(s, u, v); }
    }
  }

  /** The snapshot, if any, was already there, and nothing was inserted. */
  lemma QuietMove(s: State, s2: State, t: TxId)
    requires Inv(s) && Moves(s, s2, t) && t in s.txs && TxInv(s2, t) && !s2.txs[t].phase.Inserted?
    requires HasSnapshot(s2.txs[t].phase) ==> HasSnapshot(s.txs[t].phase) && s2.txs[t].phase.snapshot == s.txs[t].phase.snapshot
    ensures Inv(s2)
  {
    forall u ensures PairInv(s2, t, u) && PairInv(s2, u, t) {
      assert PairInv(s, t, u) && PairInv(s, u, t);
    }
    MovesKeepInv(s, s2, t);
  }

  lemma EndMoves(s: State, t: TxId, outcome: Outcome)
    requires Inv(s) && t in s.txs
    ensures Inv(End(s, t, s.rows, outcome))
  {
    QuietMove(s, End(s, t, s.rows, outcome), t);
  }

  // ----- Steps of Add

  lemma LockUserKeepsInv(s: State, t: TxId)
    requires Inv(s) && Enabled(s, LockUser(t))
    ensures Inv(Step(s, LockUser(t)))
  {
    QuietMove(s, Step(s, LockUser(t)), t);
  }

  lemma ReadMaxKeepsInv(s: State, t: TxId, max: int)
    requires Inv(s) && Enabled(s, ReadMax(t, max))
    ensures Inv(Step(s, ReadMax(t, max)))
  {
    assert TxInv(s, t);
    DistinctKeysNeedRoom(s.rows, max);
    QuietMove(s, Step(s, ReadMax(t, max)), t);
  }

  lemma InsertKeepsInv(s: State, t: TxId, id: RowId)
    requires Inv(s) && Enabled(s, Insert(t, id))
    ensures Inv(Step(s, Insert(t, id)))
  {
    var s2 := InsertStep(s, t, id);
    AddNeverCollides(s, t, id);
    assert TxInv(s, t);
    if s2.txs[t].phase.Inserted? {
      forall u ensures PairInv(s2, t, u) && PairInv(s2, u, t) {
        assert TxInv(s, u);
      }
      MovesKeepInv(s, s2, t);
    } else {
      QuietMove(s, s2, t);
    }
  }

  // ----- Steps of Reorder before its commit

  lemma ListKeepsInv(s: State, t: TxId)
    requires Inv(s) && Enabled(s, List(t))
    ensures Inv(Step(s, List(t)))
  {
    QuietMove(s, Step(s, List(t)), t);
  }

  lemma BeginLockingKeepsInv(s: State, t: TxId)
    requires Inv(s) && Enabled(s, BeginLocking(t))
    ensures Inv(Step(s, BeginLocking(t)))
  {
    var s2 := Step(s, BeginLocking(t));
    assert TxInv(s, t);
    forall u ensures PairInv(s2, t, u) && PairInv(s2, u, t) {
      assert TxInv(s, u);
    }
    MovesKeepInv(s, s2, t);
  }

  lemma LockRowKeepsInv(s: State, t: TxId, id: RowId)
    requires Inv(s) && Enabled(s, LockRow(t, id))
    ensures Inv(Step(s, LockRow(t, id)))
  {
    assert TxInv(s, t);
    QuietMove(s, Step(s, LockRow(t, id)), t);
  }

  lemma EndLockingKeepsOwn(s: State, t: TxId)
    requires TxInv(s, t) && Enabled(s, EndLocking(t))
    ensures TxInv(Step(s, EndLocking(t)), t)
  {
    assert s.txs[t].phase.got == s.txs[t].phase.snapshot * s.rows.Keys;
  }

  lemma EndLockingKeepsInv(s: State, t: TxId)
    requires Inv(s) && Enabled(s, EndLocking(t))
    ensures Inv(Step(s, EndLocking(t)))
  {
    assert TxInv(s, t);
    EndLockingKeepsOwn(s, t);
    QuietMove(s, Step(s, EndLocking(t)), t);
  }

  lemma NotColliding(s: State, t: TxId, id: RowId, key: int)
    requires t in s.txs && !Collides(s, t, id, key)
    ensures forall other | other in s.rows && other != id && !Owns(s.txs[t], other) :: s.rows[other].key != key
  {
  }

  lemma ShiftRenumbers(s: State, t: TxId, codes: seq<string>, ids: seq<RowId>, id: RowId, s2: State)
    requires Renumbers(s, t, codes, ids, 0) && |ids| < |codes| && RowsInv(s.rows)
    requires id in s.rows && s.rows[id].code == codes[|ids|]
    requires s2.rows == s.rows && s2.rowLocks == s.rowLocks[id := t]
    ensures Renumbers(s2, t, codes, ids + [id], 0)
  {
  }

  lemma ShiftedKeepsInv(s: State, t: TxId, id: RowId)
    requires Inv(s) && t in s.txs && s.txs[t].request.Reorder? && s.txs[t].phase.Renumbering?
    requires |s.txs[t].phase.ids| < |s.txs[t].request.codes| && Free(s, t, id)
    requires id in s.rows && s.rows[id].code == s.txs[t].request.codes[|s.txs[t].phase.ids|]
    ensures Inv(Shifted(s, t, id))
  {
    assert TxInv(s, t);
    ShiftRenumbers(s, t, s.txs[t].request.codes, s.txs[t].phase.ids, id, Shifted(s, t, id));
    QuietMove(s, Shifted(s, t, id), t);
  }

  lemma ShiftKeepsInv(s: State, t: TxId, found: set<RowId>)
    requires Inv(s) && Enabled(s, Shift(t, found))
    ensures Inv(Step(s, Shift(t, found)))
  {
    forall id | id in found ensures Inv(Shifted(s, t, id)) { ShiftedKeepsInv(s, t, id); }
    EndMoves(s, t, Mismatch);
    EndMoves(s, t, KeyCollision);
  }

  lemma SettleFinds(s: State, t: TxId, found: set<RowId>)
    requires Inv(s) && Enabled(s, Settle(t, found))
    ensures found == {s.txs[t].phase.ids[s.txs[t].phase.settled]}
  {
    assert TxInv(s, t);
  }

  lemma SettleRenumbers(s: State, t: TxId, codes: seq<string>, ids: seq<RowId>, settled: nat)
    requires Renumbers(s, t, codes, ids, settled) && settled < |ids| == |codes|
    requires forall other | other in s.rows && other !in ids :: s.rows[other].key != settled
    ensures Renumbers(s, t, codes, ids, settled + 1)
  {
    forall id, j {:trigger s.rows[id], WrittenKey(settled + 1, j)} | id in s.rows && id !in ids && 0 <= j < |ids|
      ensures s.rows[id].key != WrittenKey(settled + 1, j)
    {
      assert j != settled ==> WrittenKey(settled + 1, j) == WrittenKey(settled, j);
    }
  }

  lemma SettledKeepsOwn(s: State, t: TxId, id: RowId)
    requires TxInv(s, t) && t in s.txs && s.txs[t].request.Reorder? && s.txs[t].phase.Renumbering?
    requires var p := s.txs[t].phase;
             p.settled < |p.ids| == |s.txs[t].request.codes| && id == p.ids[p.settled] && !Collides(s, t, id, p.settled)
    ensures TxInv(Settled(s, t), t)
  {
    var p := s.txs[t].phase;
    NotColliding(s, t, id, p.settled);
    SettleRenumbers(s, t, s.txs[t].request.codes, p.ids, p.settled);
    assert Renumbers(Settled(s, t), t, s.txs[t].request.codes, p.ids, p.settled + 1);
  }

  lemma SettledKeepsInv(s: State, t: TxId, id: RowId)
    requires Inv(s) && t in s.txs && s.txs[t].request.Reorder? && s.txs[t].phase.Renumbering?
    requires var p := s.txs[t].phase;
             p.settled < |p.ids| == |s.txs[t].request.codes| && id == p.ids[p.settled] && !Collides(s, t, id, p.settled)
    ensures Inv(Settled(s, t))
  {
    assert TxInv(s, t);
    SettledKeepsOwn(s, t, id);
    QuietMove(s, Settled(s, t), t);
  }

  lemma SettleKeepsInv(s: State, t: TxId, found: set<RowId>)
    requires Inv(s) && Enabled(s, Settle(t, found))
    ensures Inv(Step(s, Settle(t, found)))
  {
    var p := s.txs[t].phase;
    SettleFinds(s, t, found);
    if !Collides(s, t, p.ids[p.settled], p.settled) { SettledKeepsInv(s, t, p.ids[p.settled]); }
    EndMoves(s, t, KeyCollision);
  }

  // ----- Commits

  lemma {:induction false} RenumberedRows(rows: map<RowId, Row>, ids: seq<RowId>)
    requires (forall id | id in ids :: id in rows) && forall i, j | 0 <= i < j < |ids| :: ids[i] != ids[j]
    ensures Renumbered(rows, ids).Keys == rows.Keys
    ensures forall j | 0 <= j < |ids| :: Renumbered(rows, ids)[ids[j]] == rows[ids[j]].(key := j)
    ensures forall id | id in rows && id !in ids :: Renumbered(rows, ids)[id] == rows[id]
    decreases |ids|
  {
    if ids != [] {
      var n := |ids| - 1;
      RenumberedRows(rows, ids[..n]);
      assert ids == ids[..n] + [ids[n]];
    }
  }

  lemma IdsAreDistinct(s: State, t: TxId, codes: seq<string>, ids: seq<RowId>, settled: nat)
    requires Renumbers(s, t, codes, ids, settled) && DistinctCodes(codes)
    ensures forall i, j | 0 <= i < j < |ids| :: ids[i] != ids[j]
    ensures forall id | id in ids :: id in s.rows
  {
  }

  lemma CommittedRowsInv(s: State, t: TxId, codes: seq<string>, ids: seq<RowId>)
    requires RowsInv(s.rows) && Renumbers(s, t, codes, ids, |ids|) && DistinctCodes(codes)
    ensures (forall id | id in ids :: id in s.rows) && RowsInv(Renumbered(s.rows, ids))
  {
    IdsAreDistinct(s, t, codes, ids, |ids|);
    RenumberedRows(s.rows, ids);
    var now := Renumbered(s.rows, ids);
    forall i, j | i in now && j in now && i != j ensures now[i].key != now[j].key && now[i].code != now[j].code {
      if i in ids { var a :| 0 <= a < |ids| && ids[a] == i; assert now[i].key == WrittenKey(|ids|, a); }
      if j in ids { var b :| 0 <= b < |ids| && ids[b] == j; assert now[j].key == WrittenKey(|ids|, b); }
    }
  }

  /** s2 is s with other committed rows and t ended. */
  ghost predicate Commits(s: State, s2: State, t: TxId) {
    && t in s.txs && s2.used == s.used && s2.txs.Keys == s.txs.Keys && s2.txs[t].phase.Ended?
    && (forall u | u in s.txs && u != t :: s2.txs[u] == s.txs[u] && (s.userLock == {u} ==> s2.userLock == {u}))
    && (forall id | id in s.rowLocks && s.rowLocks[id] != t :: id in s2.rowLocks && s2.rowLocks[id] == s.rowLocks[id])
  }

  lemma CommitsKeepInv(s: State, s2: State, t: TxId)
    requires Inv(s) && Commits(s, s2, t) && RowsInv(s2.rows) && s2.rows.Keys <= s2.used
    requires forall u | u != t :: TxInv(s2, u)
    requires forall u, v | u != t && v != t :: PairInv(s2, u, v)
    ensures Inv(s2)
  {
    forall u ensures TxInv(s2, u) {
      if u != t { assert TxInv(s2, u); }
    }
    forall u, v ensures PairInv(s2, u, v) {
      if u != t && v != t { assert PairInv(s2, u, v); }
    }
  }

  /** A row that nobody holds goes away. */
  lemma DeleteLeavesOthers(s: State, s2: State, t: TxId, u: TxId, found: set<RowId>)
    requires TxInv(s, u) && Commits(s, s2, t) && s2.rows == s.rows - found && u != t
    requires forall id | id in found :: Free(s, t, id)
    requires |s2.rows| <= |s.rows|
    ensures TxInv(s2, u)
  {
    if u in s.txs && s.txs[u].phase.Renumbering? {
      var p := s.txs[u].phase;
      assert p.locked == p.snapshot * s2.rows.Keys;
    }
  }

  lemma DeleteKeepsInv(s: State, t: TxId, found: set<RowId>)
    requires Inv(s) && Enabled(s, Delete(t, found))
    ensures Inv(Step(s, Delete(t, found)))
  {
    var s2 := Step(s, Delete(t, found));
    SubsetSize(s2.rows.Keys, s.rows.Keys);
    assert |s2.rows| == |s2.rows.Keys| && |s.rows| == |s.rows.Keys|;
    forall u | u != t ensures TxInv(s2, u) {
      assert TxInv(s, u);
      DeleteLeavesOthers(s, s2, t, u, found);
    }
    forall u, v | u != t && v != t ensures PairInv(s2, u, v) { assert PairInv(s, u, v); }
    CommitsKeepInv(s, s2, t);
  }

  /** A new row whose key is at least the number of rows is in nobody's way. */
  lemma InsertionLeavesOthers(s: State, s2: State, t: TxId, u: TxId, id: RowId, row: Row)
    requires TxInv(s, u) && Commits(s, s2, t) && u != t && s.userLock == {t}
    requires id !in s.rows && s2.rows == s.rows[id := row] && 0 <= row.key
    requires u in s.txs && HasSnapshot(s.txs[u].phase) ==> id !in s.txs[u].phase.snapshot
    requires u in s.txs && s.txs[u].phase.Renumbering? ==> s.txs[u].request.Reorder? && |s.txs[u].request.codes| <= row.key
    ensures TxInv(s2, u)
  {
    if u in s.txs && s.txs[u].phase.Renumbering? {
      assert s.txs[u].phase.snapshot * s2.rows.Keys == s.txs[u].phase.snapshot * s.rows.Keys;
    }
  }

  lemma CommitAddKeepsInv(s: State, t: TxId)
    requires Inv(s) && Enabled(s, CommitAdd(t))
    ensures Inv(Step(s, CommitAdd(t)))
  {
    var s2 := Step(s, CommitAdd(t));
    assert TxInv(s, t);
    forall u | u != t ensures TxInv(s2, u) { CommitAddLeavesOthers(s, t, u); }
    forall u, v | u != t && v != t ensures PairInv(s2, u, v) {
      assert PairInv(s, u, v) && PairInv(s, t, u) && PairInv(s, t, v);
    }
    CommitsKeepInv(s, s2, t);
  }

  lemma CommitAddLeavesOthers(s: State, t: TxId, u: TxId)
    requires Inv(s) && Enabled(s, CommitAdd(t)) && u != t
    ensures TxInv(Step(s, CommitAdd(t)), u)
  {
    var id, row := s.txs[t].phase.id, Row(s.txs[t].request.code, s.txs[t].phase.key);
    assert TxInv(s, t) && TxInv(s, u) && PairInv(s, t, u);
    if u in s.txs && s.txs[u].phase.Renumbering? { LockedFitsRows(s, u); }
    InsertionLeavesOthers(s, End(s, t, s.rows[id := row], Done), t, u, id, row);
  }

  lemma CommitReorderFacts(s: State, t: TxId)
    requires Inv(s) && Enabled(s, CommitReorder(t))
    ensures forall id | id in s.txs[t].phase.ids :: id in s.rows
    ensures var ids, now := s.txs[t].phase.ids, Renumbered(s.rows, s.txs[t].phase.ids);
            && RowsInv(now) && now.Keys == s.rows.Keys
            && (forall j | 0 <= j < |ids| :: now[ids[j]] == s.rows[ids[j]].(key := j))
            && (forall id | id in s.rows && id !in ids :: now[id] == s.rows[id])
  {
    assert TxInv(s, t);
    var ids := s.txs[t].phase.ids;
    CommittedRowsInv(s, t, s.txs[t].request.codes, ids);
    IdsAreDistinct(s, t, s.txs[t].request.codes, ids, |ids|);
    RenumberedRows(s.rows, ids);
  }

  /** Rows keep their codes, and a key that changed is now below the number of rows. */
  ghost predicate Reordered(rows: map<RowId, Row>, now: map<RowId, Row>) {
    && now.Keys == rows.Keys && |now| == |rows|
    && forall id | id in rows :: now[id].code == rows[id].code && (now[id].key == rows[id].key || now[id].key < |rows|)
  }

  lemma CommitReorders(s: State, t: TxId)
    requires Inv(s) && Enabled(s, CommitReorder(t))
    ensures Reordered(s.rows, Renumbered(s.rows, s.txs[t].phase.ids))
  {
    CommitReorderFacts(s, t);
    LockedFitsRows(s, t);
    var ids, now := s.txs[t].phase.ids, Renumbered(s.rows, s.txs[t].phase.ids);
    assert |now| == |now.Keys| == |s.rows.Keys| == |s.rows|;
    forall id | id in s.rows ensures now[id].code == s.rows[id].code && (now[id].key == s.rows[id].key || now[id].key < |s.rows|) {
      if id in ids { var j :| 0 <= j < |ids| && ids[j] == id; }
    }
  }

  lemma ReorderingLeavesOthers(s: State, s2: State, t: TxId, u: TxId)
    requires Commits(s, s2, t) && u != t && TxInv(s, u) && Reordered(s.rows, s2.rows)
    requires u in s.txs && s.txs[u].phase.Renumbering? ==> s.txs[u].phase.ids == [] || s2.rows == s.rows
    ensures TxInv(s2, u)
  {
  }

  lemma CommitReorderCommits(s: State, t: TxId)
    requires Inv(s) && Enabled(s, CommitReorder(t))
    ensures Commits(s, End(s, t, Renumbered(s.rows, s.txs[t].phase.ids), Done), t)
  {
  }

  lemma RenumberingOthersAreIdle(s: State, t: TxId, u: TxId)
    requires Inv(s) && Enabled(s, CommitReorder(t)) && u != t
    ensures u in s.txs && s.txs[u].phase.Renumbering? ==> s.txs[u].phase.ids == [] || Renumbered(s.rows, s.txs[t].phase.ids) == s.rows
  {
    if u in s.txs && s.txs[u].phase.Renumbering? { OneRenumbersAtATime(s, t, u); }
  }

  lemma CommitReorderKeepsInv(s: State, t: TxId)
    requires Inv(s) && Enabled(s, CommitReorder(t))
    ensures Inv(Step(s, CommitReorder(t)))
  {
    CommitReorderFacts(s, t);
    CommitReorderCommits(s, t);
    CommitReorders(s, t);
    var s2 := End(s, t, Renumbered(s.rows, s.txs[t].phase.ids), Done);
    forall u | u != t ensures TxInv(s2, u) {
      assert TxInv(s, u);
      RenumberingOthersAreIdle(s, t, u);
      ReorderingLeavesOthers(s, s2, t, u);
    }
    forall u, v | u != t && v != t ensures PairInv(s2, u, v) { assert PairInv(s, u, v); }
    CommitsKeepInv(s, s2, t);
  }
}
