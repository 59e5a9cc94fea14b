/** When a Reorder succeeds, and what it leaves. */
module WatchlistOrder {
  /*
   * The condition for success is one the database could check when the last row lock is granted; once it holds,
   * nothing that other transactions add or remove can spoil it.
   */

  import opened WatchlistInvariant
  import opened WatchlistProtocol
  import opened WatchlistSafety

  /** t has locked exactly the rows of the requested codes, and every other row has a key beyond theirs. */
  ghost predicate Exact(s: State, t: TxId) {
    && t in s.txs && s.txs[t].request.Reorder? && s.txs[t].phase.Renumbering?
    && var codes, locked := s.txs[t].request.codes, s.txs[t].phase.locked;
       && (forall id | id in locked :: id in s.rows && s.rows[id].code in codes)
       && (forall c | c in codes :: exists id :: id in locked && id in s.rows && s.rows[id].code == c)
       && (forall id | id in s.rows && id !in locked :: |codes| <= s.rows[id].key)
  }

  /** It is enough that no other row exists when the last lock is taken; rows added later do not matter. */
  lemma ExactFromTheStart(s: State, t: TxId)
    requires Inv(s) && Enabled(s, EndLocking(t))
    requires s.txs[t].phase.got == s.rows.Keys && Permutes(s.txs[t].request.codes, s.rows)
    ensures Exact(Step(s, EndLocking(t)), t)
  {
    var codes := s.txs[t].request.codes;
    assert |s.rows.Keys| == |s.rows|;
    forall id | id in s.rows ensures s.rows[id].code in codes {
      EveryRowIsNamed(codes, s.rows, id);
    }
    forall c | c in codes ensures exists id :: id in s.rows && s.rows[id].code == c {
      assert c in Codes(s.rows);
    }
  }

  lemma {:induction false} DistinctSize(codes: seq<string>)
    requires DistinctCodes(codes)
    ensures |set c | c in codes| == |codes|
    decreases |codes|
  {
    if codes != [] {
      var n := |codes| - 1;
      DistinctSize(codes[..n]);
      assert codes == codes[..n] + [codes[n]];
      assert (set c | c in codes) == (set c | c in codes[..n]) + {codes[n]};
    }
  }

  lemma {:induction false} CodesSize(rows: map<RowId, Row>)
    ensures |Codes(rows)| <= |rows|
    decreases |rows|
  {
    if rows != map[] {
      var id :| id in rows;
      var rest := rows - {id};
      assert rows.Keys == rest.Keys + {id};
      CodesSize(rest);
      assert Codes(rows) == Codes(rest) + {rows[id].code};
    }
  }

  /** A permutation check that counts names every row. */
  lemma EveryRowIsNamed(codes: seq<string>, rows: map<RowId, Row>, id: RowId)
    requires Permutes(codes, rows) && id in rows
    ensures rows[id].code in codes
  {
    DistinctSize(codes);
    CodesSize(rows);
    var named := set c | c in codes;
    assert named <= Codes(rows);
    assert |Codes(rows) - named| == |Codes(rows)| - |named|;
    assert Codes(rows) - named == {};
    assert rows[id].code in Codes(rows);
  }

  // ----- Every UPDATE passes

  lemma ShiftFindsItsRow(s: State, t: TxId, found: set<RowId>)
    requires Exact(s, t) && Enabled(s, Shift(t, found))
    ensures found != {}
  {
    var codes := s.txs[t].request.codes;
    var c := codes[|s.txs[t].phase.ids|];
    assert c in codes;
    var id :| id in s.txs[t].phase.locked && id in s.rows && s.rows[id].code == c;
    assert id in found;
  }

  /** A temporary key is negative, so nothing committed has it, and nobody else writes negative keys now. */
  lemma ShiftPasses(s: State, t: TxId, found: set<RowId>, id: RowId)
    requires Inv(s) && Enabled(s, Shift(t, found)) && id in found
    ensures !Collides(s, t, id, WrittenKey(0, |s.txs[t].phase.ids|))
  {
    var key := WrittenKey(0, |s.txs[t].phase.ids|);
    assert TxInv(s, t);
    forall u, other | u in s.txs && other != id && Writes(s.txs[u], other, key) ensures false {
      assert TxInv(s, u);
      if u != t && s.txs[u].phase.Renumbering? { OneRenumbersAtATime(s, t, u); }
    }
  }

  lemma LockedAreShifted(s: State, t: TxId, other: RowId)
    requires Inv(s) && Exact(s, t) && |s.txs[t].phase.ids| == |s.txs[t].request.codes|
    requires other in s.txs[t].phase.locked
    ensures other in s.txs[t].phase.ids
  {
    assert TxInv(s, t);
    var codes, ids := s.txs[t].request.codes, s.txs[t].phase.ids;
    var j :| 0 <= j < |codes| && codes[j] == s.rows[other].code;
    assert ids[j] == other;
  }

  /** A final key is below the number of requested rows; every other row and every concurrent Add is above. */
  lemma SettlePasses(s: State, t: TxId, found: set<RowId>, id: RowId)
    requires Inv(s) && Exact(s, t) && Enabled(s, Settle(t, found)) && id in found
    ensures !Collides(s, t, id, s.txs[t].phase.settled)
  {
    var p := s.txs[t].phase;
    assert TxInv(s, t);
    SettleFinds(s, t, found);
    LockedFitsRows(s, t);
    forall other | other in s.rows && other != id && !Owns(s.txs[t], other) ensures s.rows[other].key != p.settled {
      if other in p.locked { LockedAreShifted(s, t, other); }
    }
    forall u, other | u in s.txs && other != id && Writes(s.txs[u], other, p.settled) ensures false {
      assert TxInv(s, u);
      if u != t && s.txs[u].phase.Renumbering? { OneRenumbersAtATime(s, t, u); }
    }
  }

  // ----- Exactness lasts

  /** What the other transactions may do to the rows while t holds its locks. */
  ghost predicate Tolerates(rows: map<RowId, Row>, now: map<RowId, Row>, locked: set<RowId>, room: nat) {
    && (forall id | id in locked && id in rows :: id in now && now[id].code == rows[id].code)
    && (forall id | id in now && id !in locked :: room <= now[id].key)
  }

  lemma DeleteIsTolerated(s: State, t: TxId, u: TxId, found: set<RowId>)
    requires Inv(s) && Exact(s, t) && Enabled(s, Delete(u, found)) && u != t
    ensures Tolerates(s.rows, s.rows - found, s.txs[t].phase.locked, |s.txs[t].request.codes|)
  {
    assert TxInv(s, t);
  }

  lemma AddIsTolerated(s: State, t: TxId, u: TxId)
    requires Inv(s) && Exact(s, t) && Enabled(s, CommitAdd(u)) && u != t
    ensures var p := s.txs[u].phase;
            Tolerates(s.rows, s.rows[p.id := Row(s.txs[u].request.code, p.key)], s.txs[t].phase.locked, |s.txs[t].request.codes|)
  {
    assert TxInv(s, u);
    LockedFitsRows(s, t);
  }

  lemma ReorderIsTolerated(s: State, t: TxId, u: TxId)
    requires Inv(s) && Exact(s, t) && Enabled(s, CommitReorder(u)) && u != t
    ensures Tolerates(s.rows, Renumbered(s.rows, s.txs[u].phase.ids), s.txs[t].phase.locked, |s.txs[t].request.codes|)
  {
    CommitReorderFacts(s, u);
    OneRenumbersAtATime(s, t, u);
    if s.txs[u].phase.ids != [] { NoCodesNoRows(s, t); }
  }

  lemma NoCodesNoRows(s: State, t: TxId)
    requires Inv(s) && Exact(s, t) && s.txs[t].request.codes == []
    ensures s.txs[t].phase.locked == {}
  {
    assert TxInv(s, t);
  }

  lemma ToleratedStaysExact(s: State, s2: State, t: TxId)
    requires Exact(s, t) && t in s2.txs && s2.txs[t] == s.txs[t]
    requires Tolerates(s.rows, s2.rows, s.txs[t].phase.locked, |s.txs[t].request.codes|)
    ensures Exact(s2, t)
  {
    var codes := s.txs[t].request.codes;
    forall c | c in codes ensures exists id :: id in s2.txs[t].phase.locked && id in s2.rows && s2.rows[id].code == c {
      var id :| id in s.txs[t].phase.locked && id in s.rows && s.rows[id].code == c;
    }
  }

  lemma OnlyCommitsChangeRows(s: State, a: Action)
    requires Enabled(s, a) && !a.CommitAdd? && !a.CommitReorder? && !a.Delete?
    ensures Step(s, a).rows == s.rows
  {
  }

  lemma OtherTxsStay(s: State, t: TxId, a: Action)
    requires t in s.txs && Enabled(s, a) && a.t != t
    ensures t in Step(s, a).txs && Step(s, a).txs[t] == s.txs[t]
  {
  }

  lemma OthersKeepExact(s: State, t: TxId, a: Action)
    requires Inv(s) && Exact(s, t) && Enabled(s, a) && a.t != t
    ensures Exact(Step(s, a), t)
  {
    OtherTxsStay(s, t, a);
    match a {
      case CommitAdd(u) => AddIsTolerated(s, t, u);
      case CommitReorder(u) => ReorderIsTolerated(s, t, u);
      case Delete(u, found) => DeleteIsTolerated(s, t, u, found);
      case _ => OnlyCommitsChangeRows(s, a);
    }
    ToleratedStaysExact(s, Step(s, a), t);
  }

  ghost predicate OnCourse(s: State, t: TxId) {
    t in s.txs && (Exact(s, t) || s.txs[t].phase in {Ended(Done), Ended(Aborted)})
  }

  /** No step of anybody makes an exact Reorder fail its checks. */
  lemma StepStaysOnCourse(s: State, t: TxId, a: Action)
    requires Inv(s) && OnCourse(s, t) && Enabled(s, a)
    ensures OnCourse(Step(s, a), t)
  {
    if a.t == t {
      if Exact(s, t) { OwnStepStaysOnCourse(s, t, a); }
    } else if Exact(s, t) {
      OthersKeepExact(s, t, a);
    } else {
      OtherTxsStay(s, t, a);
    }
  }

  lemma OwnStepStaysOnCourse(s: State, t: TxId, a: Action)
    requires Inv(s) && Exact(s, t) && Enabled(s, a) && a.t == t
    ensures OnCourse(Step(s, a), t)
  {
    match a
    case Shift(u, found) =>
      ShiftFindsItsRow(s, t, found);
      forall id | id in found ensures !Collides(s, t, id, WrittenKey(0, |s.txs[t].phase.ids|)) { ShiftPasses(s, t, found, id); }
      forall id | id in found ensures Exact(Shifted(s, t, id), t) {}
    case Settle(u, found) =>
      SettleFinds(s, t, found);
      forall id | id in found ensures !Collides(s, t, id, s.txs[t].phase.settled) { SettlePasses(s, t, found, id); }
      assert Exact(Settled(s, t), t);
    case _ =>
  }

  /**
   * Once a Reorder is exact it can only commit or be aborted from outside: whatever is
   * added or removed meanwhile, no UPDATE meets the unique index or misses its row.
   */
  lemma {:induction false} ExactReordersNeverFail(run: seq<State>, i: nat, k: nat, t: TxId)
    requires Run(run) && i <= k < |run| && Exact(run[i], t)
    ensures OnCourse(run[k], t)
    decreases k
  {
    if i < k {
      ExactReordersNeverFail(run, i, k - 1, t);
      RunStaysOnCourse(run, k - 1, t);
    }
  }

  lemma RunStaysOnCourse(run: seq<State>, k: nat, t: TxId)
    requires Run(run) && k + 1 < |run| && OnCourse(run[k], t)
    ensures OnCourse(run[k + 1], t)
  {
    EveryRunKeepsKeysDistinct(run, k);
    assert NextAt(run, k);
    NextStaysOnCourse(run[k], run[k + 1], t);
  }

  lemma NextStaysOnCourse(s: State, s2: State, t: TxId)
    requires Inv(s) && OnCourse(s, t) && Next(s, s2)
    ensures OnCourse(s2, t)
  {
    var a :| Enabled(s, a) && s2 == Step(s, a);
    StepStaysOnCourse(s, t, a);
  }

  /** Some row has this code and this key. */
  predicate Stands(rows: map<RowId, Row>, code: string, key: int) {
    exists id :: id in rows && rows[id] == Row(code, key)
  }

  /**
   * Whatever ran beside it, a Reorder that commits leaves the requested codes at keys
   * 0, 1, 2, ... and every other row after them, and changes no code.
   */
  lemma CommitGivesRequestedOrder(s: State, t: TxId)
    requires Inv(s) && Enabled(s, CommitReorder(t))
    ensures var codes, now := s.txs[t].request.codes, Step(s, CommitReorder(t)).rows;
            && (forall j | 0 <= j < |codes| :: Stands(now, codes[j], j))
            && (forall id | id in now && now[id].code !in codes :: |codes| <= now[id].key)
            && now.Keys == s.rows.Keys && RowsInv(now)
            && (forall id | id in now :: now[id].code == s.rows[id].code)
  {
    CommitReorderFacts(s, t);
    CommitReorders(s, t);
    CommitReorderRows(s, t);
    NamedRows(s, t);
    OrderOfRenumbered(s.rows, Renumbered(s.rows, s.txs[t].phase.ids), s.txs[t].request.codes, s.txs[t].phase.ids);
  }

  lemma CommitReorderRows(s: State, t: TxId)
    requires Enabled(s, CommitReorder(t))
    ensures Step(s, CommitReorder(t)).rows == Renumbered(s.rows, s.txs[t].phase.ids)
  {
  }

  /** The index leaves the keys 0, 1, 2, ... to the renumbered rows alone. */
  lemma NamedRows(s: State, t: TxId)
    requires Inv(s) && Enabled(s, CommitReorder(t))
    ensures var codes, ids := s.txs[t].request.codes, s.txs[t].phase.ids;
            && (forall j | 0 <= j < |ids| :: ids[j] in s.rows && s.rows[ids[j]].code == codes[j])
            && (forall id | id in s.rows && id !in ids :: |codes| <= s.rows[id].key)
  {
    assert TxInv(s, t);
    var ids := s.txs[t].phase.ids;
    forall id | id in s.rows && id !in ids ensures |ids| <= s.rows[id].key {
      FinalKeysAreTaken(s, t, s.txs[t].request.codes, ids, id);
    }
  }

  lemma FinalKeysAreTaken(s: State, t: TxId, codes: seq<string>, ids: seq<RowId>, id: RowId)
    requires RowsInv(s.rows) && Renumbers(s, t, codes, ids, |ids|) && id in s.rows && id !in ids
    ensures |ids| <= s.rows[id].key
  {
    var j: nat := s.rows[id].key;
    assert WrittenKey(|ids|, j) == if j < |ids| then j else -(j + 1);
  }

  lemma OrderOfRenumbered(rows: map<RowId, Row>, now: map<RowId, Row>, codes: seq<string>, ids: seq<RowId>)
    requires |ids| == |codes| && now.Keys == rows.Keys
    requires forall j | 0 <= j < |ids| :: ids[j] in rows && rows[ids[j]].code == codes[j] && now[ids[j]] == rows[ids[j]].(key := j)
    requires forall id | id in rows && id !in ids :: now[id] == rows[id] && |codes| <= rows[id].key
    ensures forall j | 0 <= j < |codes| :: Stands(now, codes[j], j)
    ensures forall id | id in now && now[id].code !in codes :: |codes| <= now[id].key
  {
    forall j | 0 <= j < |codes| ensures Stands(now, codes[j], j) {
      var id := ids[j];
      assert id in now && now[id] == rows[id].(key := j);
      assert now[id] == Row(codes[j], j);
    }
    forall id | id in ids ensures now[id].code in codes {
      var j :| 0 <= j < |ids| && ids[j] == id;
      assert now[id].code == codes[j];
    }
  }

  // ----- What a row outside the locks can do

  /** A row outside the locks whose key is the next final one: the UPDATE fails and every key stays as it was. */
  lemma SmallerKeyFails(s: State, t: TxId, found: set<RowId>, other: RowId)
    requires Inv(s) && Enabled(s, Settle(t, found))
    requires other in s.rows && other !in s.txs[t].phase.ids && s.rows[other].key == s.txs[t].phase.settled
    ensures Step(s, Settle(t, found)) == End(s, t, s.rows, KeyCollision)
  {
    SettleFinds(s, t, found);
    assert TxInv(s, t);
    assert forall id | id in found :: id in s.txs[t].phase.ids;
  }
}
