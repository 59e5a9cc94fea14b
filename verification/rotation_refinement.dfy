/**
  Every commit of the interleaved protocol is one whole operation on the committed table, so the table's
  invariant holds in every reachable state.  What a transaction has established under its locks makes its
  commit an allowed operation, and no commit disturbs what the others have established.
*/
module RotationRefinement {
  import opened Common
  import opened SessionTable
  import opened RotationProtocol

  // ---------------------------------------------------------------- what each transaction relies on

  ghost predicate Quiet(tx: Tx) { tx.writes == map[] && tx.deletes == {} }

  /** A row that is still private to `t`: its random values belong to nobody else. */
  ghost predicate Pending(s: State, t: TxId, row: Session) {
    && Unused(row)
    && row.id in s.ids && s.ids[row.id] == t && row.id !in s.ledger.place
    && row.hash in s.hashes && s.hashes[row.hash] == t && row.hash !in s.ledger.owner
  }

  ghost predicate KnownFamily(s: State, h: TokenHash, f: FamilyId) {
    && h in s.ledger.owner
    && s.ledger.owner[h] in s.ledger.place
    && s.ledger.place[s.ledger.owner[h]].family == f
  }

  /** The row `t` has locked is the committed one, and its family is locked too. */
  ghost predicate Pinned(s: State, t: TxId, row: Session)
    requires t in s.txs
  {
    && HoldsFamily(s, t, row.family)
    && HoldsRow(s, t, row.id)
    && row.id in s.ledger.rows && s.ledger.rows[row.id] == row
    && TokenRequest(s.txs[t].req) && row.hash == s.txs[t].req.hash
  }

  ghost predicate Accepted(s: State, t: TxId, row: Session)
    requires t in s.txs
  {
    Pinned(s, t, row) && s.txs[t].req.RotateReq? && Judge(row, s.txs[t].req.now).Accept?
  }

  ghost predicate ToRevoke(s: State, t: TxId, row: Session)
    requires t in s.txs
  {
    Pinned(s, t, row) && (s.txs[t].req.RotateReq? ==> Judge(row, s.txs[t].req.now).Condemn?)
  }

  /** The revoking UPDATE reaches every row of the family: this is what the family lock is for. */
  ghost predicate Covered(s: State, t: TxId, f: FamilyId, todo: set<SessionId>)
    requires t in s.txs
  {
    forall id | id in s.ledger.rows && s.ledger.rows[id].family == f && s.ledger.rows[id].revoked.None? ::
      id in todo || id in s.txs[t].writes
  }

  ghost predicate RevokedWrite(s: State, t: TxId, f: FamilyId, id: SessionId)
    requires t in s.txs && id in s.txs[t].writes && TokenRequest(s.txs[t].req)
  {
    && HoldsRow(s, t, id)
    && id in s.ledger.rows
    && s.ledger.rows[id].family == f
    && s.ledger.rows[id].revoked.None?
    && s.txs[t].writes[id] == s.ledger.rows[id].(revoked := Some(s.txs[t].req.now))
  }

  ghost predicate ExpiredRow(s: State, t: TxId, id: SessionId)
    requires t in s.txs && s.txs[t].req.CleanupReq?
  {
    HoldsRow(s, t, id) && id in s.ledger.rows && s.ledger.rows[id].expires < s.txs[t].req.before
  }

  ghost predicate Cleared(s: State, t: TxId)
    requires t in s.txs
  {
    var rows, tx := s.ledger.rows, s.txs[t];
    && (forall id | id in Referrers(rows, tx.deletes) :: id in tx.writes)
    && (forall id | id in tx.writes ::
          HoldsRow(s, t, id) && id in Referrers(rows, tx.deletes) && tx.writes[id] == Unlink(rows[id], tx.deletes))
  }

  ghost predicate TxInv(s: State, t: TxId)
    requires t in s.txs
  {
    var tx := s.txs[t];
    match tx.phase
    case Begun =>
      Quiet(tx) && (tx.req.CreateReq? ==> FirstRow(s, t))
    case Found(f) => Quiet(tx) && TokenRequest(tx.req) && KnownFamily(s, tx.req.hash, f)
    case Locked(f) => Quiet(tx) && TokenRequest(tx.req) && KnownFamily(s, tx.req.hash, f) && HoldsFamily(s, t, f)
    case Verified(c) => Quiet(tx) && Accepted(s, t, c)
    case Inserted(c, m) =>
      && Accepted(s, t, c) && Pending(s, t, Successor(c, m)) && HoldsRow(s, t, m.id)
      && tx.deletes == {} && tx.writes == map[m.id := Successor(c, m)]
    case Swapped(c, m) =>
      && Accepted(s, t, c) && Pending(s, t, Successor(c, m)) && HoldsRow(s, t, m.id)
      && tx.deletes == {}
      && tx.writes == map[m.id := Successor(c, m)][c.id := Consumed(c, tx.req.now, m.id)]
    case Condemned(c) => Quiet(tx) && ToRevoke(s, t, c)
    case Revoking(c, todo) =>
      && ToRevoke(s, t, c) && tx.deletes == {} && Covered(s, t, c.family, todo)
      && forall id {:trigger RevokedWrite(s, t, c.family, id)} | id in tx.writes :: RevokedWrite(s, t, c.family, id)
    case Registering =>
      && tx.req.CreateReq? && FirstRow(s, t) && HoldsRow(s, t, tx.req.row.id)
      && tx.deletes == {} && tx.writes == map[tx.req.row.id := tx.req.row]
    case Deleting(_, _) =>
      && tx.req.CleanupReq? && tx.writes == map[]
      && forall id {:trigger ExpiredRow(s, t, id)} | id in tx.deletes :: ExpiredRow(s, t, id)
    case Deleted(_) =>
      && tx.req.CleanupReq? && Cleared(s, t)
      && forall id {:trigger ExpiredRow(s, t, id)} | id in tx.deletes :: ExpiredRow(s, t, id)
    case Ready(o) => Quiet(tx) && tx.req.RevokeReq? && o == NothingToRevoke
    case RollingBack(_) => true
  }

  ghost predicate FirstRow(s: State, t: TxId)
    requires t in s.txs && s.txs[t].req.CreateReq?
  {
    var row := s.txs[t].req.row;
    && Pending(s, t, row)
    && row.family in s.families && s.families[row.family] == t && row.family !in s.ledger.chain
  }

  /** Committed and locked random values were all minted by somebody. */
  ghost predicate Minting(s: State) {
    && s.ledger.place.Keys <= s.ids.Keys
    && s.ledger.owner.Keys <= s.hashes.Keys
    && s.ledger.chain.Keys <= s.families.Keys
    && s.rowLocks.Keys <= s.ids.Keys
  }

  /** A transaction that has answered is over. */
  ghost predicate Settled(s: State) {
    forall t {:trigger t in s.outcomes} | t in s.outcomes :: t !in s.txs
  }

  ghost predicate Inv(s: State) {
    && s.locking
    && LedgerInv(s.ledger)
    && Minting(s)
    && Settled(s)
    && forall t {:trigger TxInv(s, t)} | t in s.txs :: TxInv(s, t)
  }

  // ---------------------------------------------------------------- a commit is one whole operation

  ghost function OpOf(s: State, t: TxId): TableOp
    requires t in s.txs
  {
    var tx := s.txs[t];
    match tx.phase
    case Registering => if tx.req.CreateReq? then CreateOp(tx.req.row) else Keep
    case Swapped(c, m) => if tx.req.RotateReq? then RotateOp(c.hash, tx.req.now, m) else Keep
    case Revoking(c, _) => if TokenRequest(tx.req) then RevokeOp(c.family, tx.req.now) else Keep
    case Deleted(_) => if tx.req.CleanupReq? then DeleteOp(tx.req.before, tx.deletes) else Keep
    case _ => Keep
  }

  lemma RotateAllowed(s: State, t: TxId)
    requires Inv(s) && t in s.txs && s.txs[t].phase.Swapped?
    ensures TxInv(s, t)
    ensures Allowed(s.ledger, OpOf(s, t))
    ensures Decide(s.ledger.rows, s.txs[t].phase.current.hash, s.txs[t].req.now) == Accept(s.txs[t].phase.current)
    ensures s.txs[t].phase.current.family in s.ledger.chain
  {
    var c := s.txs[t].phase.current;
    assert TxInv(s, t);
    HashFinds(s.ledger, c.id);
    assert RowInv(s.ledger, c.id);
  }

  lemma RotateCommits(s: State, t: TxId)
    requires Inv(s) && Enabled(s, Commit(t)) && s.txs[t].phase.Swapped?
    ensures Allowed(s.ledger, OpOf(s, t))
    ensures Record(s.ledger, s.txs[t]) == ApplyOp(s.ledger, OpOf(s, t))
  {
    RotateAllowed(s, t);
    var c, m := s.txs[t].phase.current, s.txs[t].phase.minted;
    assert CommitRows(s.ledger.rows, s.txs[t]) == RotateRows(s.ledger.rows, c, s.txs[t].req.now, m);
  }

  lemma RevokeCommits(s: State, t: TxId)
    requires Inv(s) && Enabled(s, Commit(t)) && s.txs[t].phase.Revoking?
    ensures Allowed(s.ledger, OpOf(s, t))
    ensures Record(s.ledger, s.txs[t]) == ApplyOp(s.ledger, OpOf(s, t))
  {
    var c := s.txs[t].phase.current;
    assert TxInv(s, t);
    assert RowInv(s.ledger, c.id);
    var rows := CommitRows(s.ledger.rows, s.txs[t]);
    forall id | id in rows ensures id in s.ledger.rows && rows[id] == RevokeRows(s.ledger.rows, c.family, s.txs[t].req.now)[id] {
      if id in s.txs[t].writes { assert RevokedWrite(s, t, c.family, id); }
    }
  }

  lemma CleanupCommits(s: State, t: TxId)
    requires Inv(s) && Enabled(s, Commit(t)) && s.txs[t].phase.Deleted?
    ensures Allowed(s.ledger, OpOf(s, t))
    ensures Record(s.ledger, s.txs[t]) == ApplyOp(s.ledger, OpOf(s, t))
  {
    var tx := s.txs[t];
    assert TxInv(s, t);
    forall id | id in tx.deletes ensures id in s.ledger.rows && s.ledger.rows[id].expires < tx.req.before {
      assert ExpiredRow(s, t, id);
    }
    assert CommitRows(s.ledger.rows, tx) == DeleteRows(s.ledger.rows, tx.deletes);
  }

  lemma CreateCommits(s: State, t: TxId)
    requires Inv(s) && Enabled(s, Commit(t)) && s.txs[t].phase.Registering?
    ensures Allowed(s.ledger, OpOf(s, t))
    ensures Record(s.ledger, s.txs[t]) == ApplyOp(s.ledger, OpOf(s, t))
  {
    assert TxInv(s, t);
    assert CommitRows(s.ledger.rows, s.txs[t]) == s.ledger.rows[s.txs[t].req.row.id := s.txs[t].req.row];
  }

  lemma NothingCommits(s: State, t: TxId)
    requires Inv(s) && Enabled(s, Commit(t)) && s.txs[t].phase.Ready?
    ensures Allowed(s.ledger, OpOf(s, t))
    ensures Record(s.ledger, s.txs[t]) == ApplyOp(s.ledger, OpOf(s, t))
  {
    assert TxInv(s, t);
    assert CommitRows(s.ledger.rows, s.txs[t]) == s.ledger.rows;
  }

  lemma CommitRefines(s: State, t: TxId)
    requires Inv(s) && Enabled(s, Commit(t))
    ensures Allowed(s.ledger, OpOf(s, t))
    ensures Step(s, Commit(t)).ledger == ApplyOp(s.ledger, OpOf(s, t))
  {
    match s.txs[t].phase
    case Swapped(_, _) => RotateCommits(s, t);
    case Revoking(_, _) => RevokeCommits(s, t);
    case Deleted(_) => CleanupCommits(s, t);
    case Registering => CreateCommits(s, t);
    case _ => NothingCommits(s, t);
  }

  // ---------------------------------------------------------------- the others are not disturbed

  /** `u` keeps its own state, its locks and its claim to the values it minted. */
  ghost predicate Undisturbed(s: State, s': State, u: TxId) {
    && u in s.txs && u in s'.txs && s'.txs[u] == s.txs[u]
    && (forall f | f in s.familyLocks && s.familyLocks[f] == u :: f in s'.familyLocks && s'.familyLocks[f] == u)
    && (forall id | id in s.rowLocks && s.rowLocks[id] == u :: id in s'.rowLocks && s'.rowLocks[id] == u)
    && (forall id | id in s.ids :: id in s'.ids && s'.ids[id] == s.ids[id])
    && (forall h | h in s.hashes :: h in s'.hashes && s'.hashes[h] == s.hashes[h])
    && (forall f | f in s.families :: f in s'.families && s'.families[f] == s.families[f])
  }

  /** How far somebody else's commit may change the rows under `u`. */
  ghost predicate RowsMoved(s: State, m: Ledger, u: TxId) {
    var l := s.ledger;
    && (forall id | HoldsRow(s, u, id) :: (id in l.rows <==> id in m.rows) && (id in l.rows ==> m.rows[id] == l.rows[id]))
    && (forall id | id in m.rows && m.rows[id].revoked.None? && m.rows[id].family in l.chain && HoldsFamily(s, u, m.rows[id].family) ::
          id in l.rows && l.rows[id].family == m.rows[id].family && l.rows[id].revoked.None?)
    && (forall id | id in m.rows && m.rows[id].replacedBy.Some? && m.rows[id].replacedBy.value in l.rows ::
          id in l.rows && l.rows[id].replacedBy == m.rows[id].replacedBy)
  }

  /** What was committed stays recorded, and what `u` minted is still its own. */
  ghost predicate HistoryMoved(s: State, m: Ledger, u: TxId) {
    var l := s.ledger;
    && (forall id | id in s.ids && s.ids[id] == u && id !in l.place :: id !in m.place)
    && (forall h | h in s.hashes && s.hashes[h] == u && h !in l.owner :: h !in m.owner)
    && (forall f | f in s.families && s.families[f] == u && f !in l.chain :: f !in m.chain)
    && (forall h | h in l.owner :: h in m.owner && m.owner[h] == l.owner[h])
    && (forall id | id in l.place :: id in m.place && m.place[id] == l.place[id])
  }

  ghost predicate Moved(s: State, m: Ledger, u: TxId) {
    RowsMoved(s, m, u) && HistoryMoved(s, m, u)
  }

  lemma Framed(s: State, s': State, u: TxId)
    requires LedgerInv(s.ledger)
    requires Undisturbed(s, s', u) && Moved(s, s'.ledger, u) && TxInv(s, u)
    ensures TxInv(s', u)
  {
    var tx := s.txs[u];
    match tx.phase
    case Revoking(c, todo) =>
      assert RowInv(s.ledger, c.id);
      assert Covered(s', u, c.family, todo);
      forall id | id in tx.writes ensures RevokedWrite(s', u, c.family, id) { assert RevokedWrite(s, u, c.family, id); }
    case Deleting(_, _) =>
      forall id | id in tx.deletes ensures ExpiredRow(s', u, id) { assert ExpiredRow(s, u, id); }
    case Deleted(_) =>
      forall id | id in tx.deletes ensures ExpiredRow(s', u, id) && id in s.ledger.rows { assert ExpiredRow(s, u, id); }
      assert Cleared(s', u);
    case _ =>
  }

  lemma CommitHistoryMoves(s: State, t: TxId, u: TxId)
    requires Inv(s) && Enabled(s, Commit(t)) && u in s.txs && u != t
    ensures HistoryMoved(s, Record(s.ledger, s.txs[t]), u)
  {
    assert TxInv(s, t);
    if s.txs[t].phase.Swapped? { RotateAllowed(s, t); }
  }

  lemma RotateMoves(s: State, t: TxId, u: TxId)
    requires Inv(s) && Enabled(s, Commit(t)) && u in s.txs && u != t && s.txs[t].phase.Swapped?
    ensures RowsMoved(s, Record(s.ledger, s.txs[t]), u)
  {
    assert TxInv(s, t);
    var c, m := s.txs[t].phase.current, s.txs[t].phase.minted;
    assert RowInv(s.ledger, c.id);
    assert m.id !in s.ledger.rows by {
      assert m.id in s.ledger.rows ==> RowInv(s.ledger, m.id);
    }
  }

  lemma RevokeMoves(s: State, t: TxId, u: TxId)
    requires Inv(s) && Enabled(s, Commit(t)) && u in s.txs && u != t && s.txs[t].phase.Revoking?
    ensures RowsMoved(s, Record(s.ledger, s.txs[t]), u)
  {
    assert TxInv(s, t);
    forall id | id in s.txs[t].writes ensures RevokedWrite(s, t, s.txs[t].phase.current.family, id) {
    }
  }

  lemma CleanupMoves(s: State, t: TxId, u: TxId)
    requires Inv(s) && Enabled(s, Commit(t)) && u in s.txs && u != t && s.txs[t].phase.Deleted?
    ensures RowsMoved(s, Record(s.ledger, s.txs[t]), u)
  {
    assert TxInv(s, t);
    forall id | id in s.txs[t].deletes ensures ExpiredRow(s, t, id) {
    }
  }

  lemma CreateMoves(s: State, t: TxId, u: TxId)
    requires Inv(s) && Enabled(s, Commit(t)) && u in s.txs && u != t && s.txs[t].phase.Registering?
    ensures RowsMoved(s, Record(s.ledger, s.txs[t]), u)
  {
    assert TxInv(s, t);
  }

  lemma CommitMoves(s: State, t: TxId, u: TxId)
    requires Inv(s) && Enabled(s, Commit(t)) && u in s.txs && u != t
    ensures Moved(s, Record(s.ledger, s.txs[t]), u)
  {
    CommitHistoryMoves(s, t, u);
    match s.txs[t].phase
    case Swapped(_, _) => RotateMoves(s, t, u);
    case Revoking(_, _) => RevokeMoves(s, t, u);
    case Deleted(_) => CleanupMoves(s, t, u);
    case Registering => CreateMoves(s, t, u);
    case _ => NothingCommits(s, t);
  }

  // ---------------------------------------------------------------- one step

  function Actor(a: Action): Option<TxId> {
    if a.Tick? then None else Some(a.t)
  }

  lemma CommitUndisturbed(s: State, t: TxId, u: TxId)
    requires Enabled(s, Commit(t)) && u in s.txs && u != t
    ensures Undisturbed(s, Step(s, Commit(t)), u)
  {
  }

  lemma AbortUndisturbed(s: State, t: TxId, u: TxId)
    requires Enabled(s, Abort(t)) && u in s.txs && u != t
    ensures Undisturbed(s, Step(s, Abort(t)), u)
  {
  }

  lemma FactoryUndisturbed(s: State, t: TxId, u: TxId)
    requires Enabled(s, FactoryFails(t)) && u in s.txs && u != t
    ensures Undisturbed(s, Step(s, FactoryFails(t)), u)
  {
  }

  lemma PutUndisturbed(s: State, t: TxId, tx: Tx, u: TxId)
    requires u in s.txs && u != t
    ensures Undisturbed(s, Put(s, t, tx), u)
  {
  }

  /** A row lock is granted only when nobody else holds it. */
  lemma LockUndisturbed(s: State, t: TxId, id: SessionId, tx: Tx, u: TxId)
    requires RowFree(s, t, id) && u in s.txs && u != t
    ensures Undisturbed(s, Put(s.(rowLocks := s.rowLocks[id := t]), t, tx), u)
  {
  }

  lemma FindUndisturbed(s: State, t: TxId, u: TxId)
    requires Enabled(s, Find(t)) && u in s.txs && u != t
    ensures Undisturbed(s, Step(s, Find(t)), u)
  {
    PutUndisturbed(s, t, s.txs[t].(phase := FindPhase(s.txs[t].req, Lookup(s.ledger.rows, s.txs[t].req.hash))), u);
  }

  lemma StartSweepUndisturbed(s: State, t: TxId, u: TxId)
    requires Enabled(s, StartSweep(t)) && u in s.txs && u != t
    ensures Undisturbed(s, Step(s, StartSweep(t)), u)
  {
    PutUndisturbed(s, t, s.txs[t].(phase := SnapshotPhase(s.ledger.rows, s.txs[t])), u);
  }

  lemma SweepUndisturbed(s: State, t: TxId, id: SessionId, u: TxId)
    requires Enabled(s, Sweep(t, id)) && u in s.txs && u != t
    ensures Undisturbed(s, SweepStep(s, t, id), u)
  {
    var tx := SweepTx(s.ledger.rows, s.txs[t], id);
    PutUndisturbed(s, t, tx, u);
    LockUndisturbed(s, t, id, tx, u);
  }

  lemma ClearUndisturbed(s: State, t: TxId, u: TxId)
    requires Enabled(s, ClearReferences(t)) && u in s.txs && u != t
    ensures Undisturbed(s, ClearStep(s, t), u)
  {
  }

  lemma ReadUndisturbed(s: State, t: TxId, u: TxId)
    requires Enabled(s, ReadRow(t)) && u in s.txs && u != t
    ensures Undisturbed(s, ReadStep(s, t), u)
  {
    var found := Lookup(s.ledger.rows, s.txs[t].req.hash);
    var tx := s.txs[t].(phase := ReadPhase(s.txs[t].req, found));
    match found
    case None => PutUndisturbed(s, t, tx, u);
    case Some(row) => LockUndisturbed(s, t, row.id, tx, u);
  }

  lemma InsertUndisturbed(s: State, t: TxId, minted: Minted, u: TxId)
    requires s.rowLocks.Keys <= s.ids.Keys && Enabled(s, Insert(t, minted)) && u in s.txs && u != t
    ensures Undisturbed(s, Step(s, Insert(t, minted)), u)
  {
  }

  lemma BeginUndisturbed(s: State, t: TxId, req: Request, u: TxId)
    requires Enabled(s, Begin(t, req)) && u in s.txs && u != t
    ensures Undisturbed(s, Step(s, Begin(t, req)), u)
  {
  }

  lemma ConsumeUndisturbed(s: State, t: TxId, u: TxId)
    requires Enabled(s, Consume(t)) && u in s.txs && u != t
    ensures Undisturbed(s, Step(s, Consume(t)), u)
  {
  }

  lemma InsertFirstUndisturbed(s: State, t: TxId, u: TxId)
    requires Enabled(s, InsertFirst(t)) && u in s.txs && u != t
    ensures Undisturbed(s, Step(s, InsertFirst(t)), u)
  {
  }

  lemma LockFamilyUndisturbed(s: State, t: TxId, u: TxId)
    requires Enabled(s, LockFamily(t)) && s.locking && u in s.txs && u != t
    ensures Undisturbed(s, Step(s, LockFamily(t)), u)
  {
  }

  lemma StepUndisturbed(s: State, a: Action, u: TxId)
    requires s.locking && s.rowLocks.Keys <= s.ids.Keys
    requires Enabled(s, a) && u in s.txs && Actor(a) != Some(u)
    ensures Undisturbed(s, Step(s, a), u)
  {
    match a
    case Begin(t, req) => BeginUndisturbed(s, t, req, u);
    case Find(t) => FindUndisturbed(s, t, u);
    case LockFamily(t) => LockFamilyUndisturbed(s, t, u);
    case ReadRow(t) => ReadUndisturbed(s, t, u);
    case FactoryFails(t) => FactoryUndisturbed(s, t, u);
    case Insert(t, minted) => InsertUndisturbed(s, t, minted, u);
    case Consume(t) => ConsumeUndisturbed(s, t, u);
    case InsertFirst(t) => InsertFirstUndisturbed(s, t, u);
    case StartSweep(t) => StartSweepUndisturbed(s, t, u);
    case Sweep(t, id) => SweepUndisturbed(s, t, id, u);
    case ClearReferences(t) => ClearUndisturbed(s, t, u);
    case Commit(t) => CommitUndisturbed(s, t, u);
    case Abort(t) => AbortUndisturbed(s, t, u);
    case Tick(_) =>
  }

  lemma StepKeepsOthers(s: State, a: Action, u: TxId)
    requires Inv(s) && Enabled(s, a) && u in s.txs && Actor(a) != Some(u)
    ensures u in Step(s, a).txs && TxInv(Step(s, a), u)
  {
    var s' := Step(s, a);
    StepUndisturbed(s, a, u);
    if a.Commit? {
      CommitMoves(s, a.t, u);
    }
    assert TxInv(s, u);
    Framed(s, s', u);
  }

  lemma BeginKeepsOwn(s: State, t: TxId, req: Request)
    requires Inv(s) && Enabled(s, Begin(t, req))
    ensures TxInv(Step(s, Begin(t, req)), t)
  {
  }

  lemma FindKeepsOwn(s: State, t: TxId)
    requires Inv(s) && Enabled(s, Find(t))
    ensures TxInv(FindStep(s, t), t)
  {
    assert TxInv(s, t);
    var found := Lookup(s.ledger.rows, s.txs[t].req.hash);
    if found.Some? { LookupSound(s.ledger, s.txs[t].req.hash); }
  }

  lemma LockFamilyKeepsOwn(s: State, t: TxId)
    requires Inv(s) && Enabled(s, LockFamily(t))
    ensures TxInv(Step(s, LockFamily(t)), t)
  {
    assert TxInv(s, t);
  }

  lemma ReadKeepsOwn(s: State, t: TxId)
    requires Inv(s) && Enabled(s, ReadRow(t))
    ensures TxInv(ReadStep(s, t), t)
  {
    assert TxInv(s, t);
    var found := Lookup(s.ledger.rows, s.txs[t].req.hash);
    if found.Some? { LookupSound(s.ledger, s.txs[t].req.hash); }
  }

  lemma InsertKeepsOwn(s: State, t: TxId, minted: Minted)
    requires Inv(s) && Enabled(s, Insert(t, minted))
    ensures TxInv(Step(s, Insert(t, minted)), t)
  {
    assert TxInv(s, t);
  }

  lemma ConsumeKeepsOwn(s: State, t: TxId)
    requires Inv(s) && Enabled(s, Consume(t))
    ensures TxInv(Step(s, Consume(t)), t)
  {
    assert TxInv(s, t);
  }

  lemma InsertFirstKeepsOwn(s: State, t: TxId)
    requires Inv(s) && Enabled(s, InsertFirst(t))
    ensures TxInv(Step(s, InsertFirst(t)), t)
  {
    assert TxInv(s, t);
  }

  lemma StartSweepKeepsOwn(s: State, t: TxId)
    requires Inv(s) && Enabled(s, StartSweep(t))
    ensures TxInv(StartSweepStep(s, t), t)
  {
    assert TxInv(s, t);
  }

  lemma RevokingSweepKeepsOwn(s: State, t: TxId, id: SessionId)
    requires Inv(s) && Enabled(s, Sweep(t, id)) && s.txs[t].phase.Revoking?
    ensures TxInv(SweepStep(s, t, id), t)
  {
    assert TxInv(s, t);
    var s', tx := SweepStep(s, t, id), s.txs[t];
    var f := tx.phase.current.family;
    forall x | x in s'.txs[t].writes ensures RevokedWrite(s', t, f, x) {
      assert x in tx.writes ==> RevokedWrite(s, t, f, x);
    }
  }

  lemma DeletingSweepKeepsOwn(s: State, t: TxId, id: SessionId)
    requires Inv(s) && Enabled(s, Sweep(t, id)) && s.txs[t].phase.Deleting?
    ensures TxInv(SweepStep(s, t, id), t)
  {
    assert TxInv(s, t);
    var s', tx := SweepStep(s, t, id), s.txs[t];
    forall x | x in s'.txs[t].deletes ensures ExpiredRow(s', t, x) {
      assert x in tx.deletes ==> ExpiredRow(s, t, x);
    }
  }

  lemma SweepKeepsOwn(s: State, t: TxId, id: SessionId)
    requires Inv(s) && Enabled(s, Sweep(t, id))
    ensures TxInv(SweepStep(s, t, id), t)
  {
    if s.txs[t].phase.Revoking? { RevokingSweepKeepsOwn(s, t, id); } else { DeletingSweepKeepsOwn(s, t, id); }
  }

  lemma ClearKeepsOwn(s: State, t: TxId)
    requires Inv(s) && Enabled(s, ClearReferences(t))
    ensures TxInv(ClearStep(s, t), t)
  {
    assert TxInv(s, t);
    var s', tx := ClearStep(s, t), s.txs[t];
    forall x | x in tx.deletes ensures ExpiredRow(s', t, x) { assert ExpiredRow(s, t, x); }
  }
}
