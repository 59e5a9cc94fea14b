/**
 * How runs of the watchlist protocol go on: a Reorder that holds its locks is taken to the end of either phase or to
 * the UPDATE that fails, the holder of a row is aborted and the row removed, and whole transactions run undisturbed.
 * Each lemma extends a run by the steps of one such passage and says in which state the longer run ends; the
 * results on when a Reorder can fail put these passages together.
 */
module WatchlistContinuation {
  import opened WatchlistInvariant
  import opened WatchlistOrder
  import opened WatchlistProtocol
  import opened WatchlistSafety

  // ----- Locks belong to transactions that run

  predicate Holds(x: Tx, id: RowId) {
    match x.phase
    case Locking(snapshot, todo, got) => id in got
    case Renumbering(snapshot, locked, ids, settled) => id in locked || id in ids
    case _ => false
  }

  predicate Holder(s: State, id: RowId) {
    id in s.rowLocks ==> s.rowLocks[id] in s.txs && Holds(s.txs[s.rowLocks[id]], id)
  }

  ghost predicate LocksInv(s: State) {
    forall id {:trigger Holder(s, id)} :: Holder(s, id)
  }

  lemma EndKeepsHolder(s: State, t: TxId, rows: map<RowId, Row>, outcome: Outcome, id: RowId)
    requires t in s.txs && Holder(s, id)
    ensures Holder(End(s, t, rows, outcome), id)
  {
  }

  /** t goes from one phase to another and gets at most the lock of `got`. */
  lemma MoveKeepsHolder(s: State, s2: State, t: TxId, id: RowId, got: set<RowId>)
    requires t in s.txs && t in s2.txs && Holder(s, id) && s2.txs == s.txs[t := s2.txs[t]]
    requires forall x | x in s2.rowLocks :: if x in got then s2.rowLocks[x] == t else x in s.rowLocks && s2.rowLocks[x] == s.rowLocks[x]
    requires Holds(s.txs[t], id) || id in got ==> Holds(s2.txs[t], id)
    ensures Holder(s2, id)
  {
  }

  lemma RenumberingKeepsHolder(s: State, a: Action, id: RowId)
    requires Enabled(s, a) && Holder(s, id) && (a.Shift? || a.Settle?)
    ensures Holder(Step(s, a), id)
  {
    EndKeepsHolder(s, a.t, s.rows, Mismatch, id);
    EndKeepsHolder(s, a.t, s.rows, KeyCollision, id);
    if a.Shift? {
      forall row ensures Holder(Shifted(s, a.t, row), id) { MoveKeepsHolder(s, Shifted(s, a.t, row), a.t, id, {row}); }
    } else {
      MoveKeepsHolder(s, Settled(s, a.t), a.t, id, {});
    }
  }

  lemma LockingKeepsHolder(s: State, a: Action, id: RowId)
    requires Enabled(s, a) && Holder(s, id) && (a.List? || a.BeginLocking? || a.LockRow? || a.EndLocking?)
    ensures Holder(Step(s, a), id)
  {
    EndKeepsHolder(s, a.t, s.rows, Mismatch, id);
    if !Step(s, a).txs[a.t].phase.Ended? {
      MoveKeepsHolder(s, Step(s, a), a.t, id, if a.LockRow? && a.id in s.rows then {a.id} else {});
    }
  }

  lemma StepKeepsHolder(s: State, a: Action, id: RowId)
    requires Enabled(s, a) && Holder(s, id)
    ensures Holder(Step(s, a), id)
  {
    if a.Shift? || a.Settle? {
      RenumberingKeepsHolder(s, a, id);
    } else if a.List? || a.BeginLocking? || a.LockRow? || a.EndLocking? {
      LockingKeepsHolder(s, a, id);
    }
  }

  lemma {:induction false} RunKeepsLocks(run: seq<State>, i: nat)
    requires Run(run) && i < |run|
    ensures LocksInv(run[i])
    decreases i
  {
    if i > 0 {
      RunKeepsLocks(run, i - 1);
      assert NextAt(run, i - 1);
      var a :| Enabled(run[i - 1], a) && run[i] == Step(run[i - 1], a);
      forall id ensures Holder(run[i], id) {
        assert Holder(run[i - 1], id);
        StepKeepsHolder(run[i - 1], a, id);
      }
    }
  }

  // ----- Longer runs

  function Last(run: seq<State>): State
    requires run != []
  {
    run[|run| - 1]
  }

  /** What holds at the end of every run. */
  lemma LastIsSound(run: seq<State>)
    requires Run(run)
    ensures Inv(Last(run)) && LocksInv(Last(run))
  {
    EveryRunKeepsKeysDistinct(run, |run| - 1);
    RunKeepsLocks(run, |run| - 1);
  }

  lemma Extend(run: seq<State>, a: Action) returns (longer: seq<State>)
    requires Run(run) && Enabled(Last(run), a)
    ensures Run(longer) && run <= longer && Last(longer) == Step(Last(run), a)
  {
    longer := run + [Step(Last(run), a)];
    forall i: nat | i + 1 < |longer| ensures NextAt(longer, i) {
      if i + 1 < |run| { assert NextAt(run, i); }
    }
  }

  /** From s to s2 only t has moved, and nothing was committed. */
  ghost predicate OnlyMoves(s: State, s2: State, t: TxId) {
    && t in s.txs && s2.txs.Keys == s.txs.Keys && s2.rows == s.rows && s2.userLock == s.userLock
    && s2.txs[t].request == s.txs[t].request
    && forall u | u in s.txs && u != t :: s2.txs[u] == s.txs[u]
  }

  // ----- Undisturbed steps of a Reorder

  predicate InRenumbering(s: State, t: TxId) {
    t in s.txs && s.txs[t].request.Reorder? && s.txs[t].phase.Renumbering?
  }

  /** The last lock has just been granted. */
  predicate JustLocked(s: State, t: TxId) {
    InRenumbering(s, t) && s.txs[t].phase.ids == [] && s.txs[t].phase.settled == 0
  }

  predicate Fails(s: State, t: TxId) {
    t in s.txs && s.txs[t].phase in {Ended(Mismatch), Ended(KeyCollision)}
  }

  /** One of the locked rows has this code. */
  predicate Named(s: State, t: TxId, code: string)
    requires InRenumbering(s, t)
  {
    exists id :: id in s.txs[t].phase.locked && id in s.rows && s.rows[id].code == code
  }

  predicate NamedUpTo(s: State, t: TxId, k: nat)
    requires InRenumbering(s, t) && k <= |s.txs[t].request.codes|
  {
    forall j | 0 <= j < k :: Named(s, t, s.txs[t].request.codes[j])
  }

  /** Shifting a locked row passes. */
  lemma ShiftOne(run: seq<State>, t: TxId) returns (longer: seq<State>, id: RowId)
    requires Run(run) && InRenumbering(Last(run), t)
    requires |Last(run).txs[t].phase.ids| < |Last(run).txs[t].request.codes|
    requires Named(Last(run), t, Last(run).txs[t].request.codes[|Last(run).txs[t].phase.ids|])
    ensures Run(longer) && run <= longer && Last(longer) == Shifted(Last(run), t, id)
  {
    var s := Last(run);
    var p := s.txs[t].phase;
    var found := WithCode(s.rows, s.txs[t].request.codes[|p.ids|]);
    LastIsSound(run);
    assert TxInv(s, t);
    id :| id in p.locked && id in s.rows && s.rows[id].code == s.txs[t].request.codes[|p.ids|];
    assert found == {id};
    ShiftPasses(s, t, found, id);
    longer := Extend(run, Shift(t, found));
  }

  /** Locked rows can be shifted one after the other. */
  lemma {:induction false} ShiftUpTo(run: seq<State>, t: TxId, k: nat) returns (longer: seq<State>)
    requires Run(run) && InRenumbering(Last(run), t) && Last(run).txs[t].phase.settled == 0
    requires |Last(run).txs[t].phase.ids| <= k <= |Last(run).txs[t].request.codes| && NamedUpTo(Last(run), t, k)
    ensures Run(longer) && run <= longer && OnlyMoves(Last(run), Last(longer), t)
    ensures var p, q := Last(run).txs[t].phase, Last(longer).txs[t].phase;
            q.Renumbering? && |q.ids| == k && q == p.(ids := q.ids)
    decreases k - |Last(run).txs[t].phase.ids|
  {
    if |Last(run).txs[t].phase.ids| == k {
      longer := run;
    } else {
      var next, id := ShiftOne(run, t);
      assert forall j | 0 <= j < k :: Named(Last(run), t, Last(run).txs[t].request.codes[j]) ==> Named(Last(next), t, Last(run).txs[t].request.codes[j]);
      longer := ShiftUpTo(next, t, k);
    }
  }

  /** A row that is not there makes its UPDATE affect no row. */
  lemma MissingRowFails(run: seq<State>, t: TxId) returns (longer: seq<State>)
    requires Run(run) && InRenumbering(Last(run), t)
    requires |Last(run).txs[t].phase.ids| < |Last(run).txs[t].request.codes|
    requires WithCode(Last(run).rows, Last(run).txs[t].request.codes[|Last(run).txs[t].phase.ids|]) == {}
    ensures Run(longer) && run <= longer && Fails(Last(longer), t)
  {
    longer := Extend(run, Shift(t, {}));
  }

  /** The next final UPDATE either meets the index or passes. */
  lemma SettleOne(run: seq<State>, t: TxId) returns (longer: seq<State>)
    requires Run(run) && InRenumbering(Last(run), t)
    requires var x := Last(run).txs[t]; x.phase.settled < |x.phase.ids| == |x.request.codes|
    ensures Run(longer) && run <= longer
    ensures var s, p := Last(run), Last(run).txs[t].phase;
            Last(longer) == if Collides(s, t, p.ids[p.settled], p.settled) then End(s, t, s.rows, KeyCollision) else Settled(s, t)
  {
    var s := Last(run);
    var p := s.txs[t].phase;
    var found := WithCode(s.rows, s.txs[t].request.codes[p.settled]);
    LastIsSound(run);
    assert TxInv(s, t);
    assert found == {p.ids[p.settled]};
    longer := Extend(run, Settle(t, found));
  }

  lemma {:induction false} SettleUpTo(run: seq<State>, t: TxId, k: nat) returns (longer: seq<State>)
    requires Run(run) && InRenumbering(Last(run), t)
    requires var x := Last(run).txs[t]; x.phase.settled <= k <= |x.phase.ids| == |x.request.codes|
    ensures Run(longer) && run <= longer && t in Last(longer).txs
    ensures Last(longer).rows == Last(run).rows && Last(longer).txs[t].request == Last(run).txs[t].request
    ensures Last(longer).txs[t].phase != Ended(KeyCollision) ==>
            OnlyMoves(Last(run), Last(longer), t) && Last(longer).txs[t].phase == Last(run).txs[t].phase.(settled := k)
    decreases k - Last(run).txs[t].phase.settled
  {
    if Last(run).txs[t].phase.settled == k {
      longer := run;
    } else {
      longer := SettleOne(run, t);
      if Last(longer).txs[t].phase != Ended(KeyCollision) {
        longer := SettleUpTo(longer, t, k);
      }
    }
  }

  // ----- A Reorder that is not exact can fail

  /** Its rows are locked and complete, but another row has one of the keys it is going to give out. */
  lemma SmallKeyCollides(run: seq<State>, t: TxId, other: RowId) returns (longer: seq<State>)
    requires Run(run) && JustLocked(Last(run), t) && NamedUpTo(Last(run), t, |Last(run).txs[t].request.codes|)
    requires other in Last(run).rows && other !in Last(run).txs[t].phase.locked
    requires Last(run).rows[other].key < |Last(run).txs[t].request.codes|
    ensures Run(longer) && run <= longer && Last(longer).rows == Last(run).rows
    ensures t in Last(longer).txs && Last(longer).txs[t] == Last(run).txs[t].(phase := Ended(KeyCollision))
  {
    var s := Last(run);
    LastIsSound(run);
    var shifted := ShiftUpTo(run, t, |s.txs[t].request.codes|);
    assert other !in Last(shifted).txs[t].phase.ids by { OthersAreNotShifted(run, shifted, t, other); }
    longer := SettleUpTo(shifted, t, s.rows[other].key);
    if Last(longer).txs[t].phase != Ended(KeyCollision) {
      var u := Last(longer);
      LastIsSound(longer);
      var last := SettleOne(longer, t);
      assert Collides(u, t, u.txs[t].phase.ids[u.txs[t].phase.settled], u.txs[t].phase.settled) by {
        assert TxInv(u, t);
        assert other in u.rows && !Owns(u.txs[t], other) && u.rows[other].key == u.txs[t].phase.settled;
      }
      longer := last;
    }
  }

  lemma OthersAreNotShifted(run: seq<State>, shifted: seq<State>, t: TxId, other: RowId)
    requires Run(run) && Run(shifted) && InRenumbering(Last(run), t) && InRenumbering(Last(shifted), t)
    requires OnlyMoves(Last(run), Last(shifted), t) && NamedUpTo(Last(run), t, |Last(run).txs[t].request.codes|)
    requires other in Last(run).rows && other !in Last(run).txs[t].phase.locked
    ensures other !in Last(shifted).txs[t].phase.ids
  {
    var s, s2 := Last(run), Last(shifted);
    LastIsSound(run);
    LastIsSound(shifted);
    assert TxInv(s2, t);
    forall j | 0 <= j < |s2.txs[t].phase.ids| ensures s2.txs[t].phase.ids[j] != other {
      assert Named(s, t, s.txs[t].request.codes[j]);
    }
  }

  lemma SomeMember<T>(s: set<T>) returns (a: T)
    requires s != {}
    ensures a in s
  {
    a :| a in s;
  }

  lemma {:induction false} AllBelow(ids: set<nat>) returns (n: nat)
    ensures forall id | id in ids :: id < n
    decreases |ids|
  {
    if ids == {} {
      n := 0;
    } else {
      var id := SomeMember(ids);
      var m := AllBelow(ids - {id});
      n := if m <= id then id + 1 else m;
      forall x | x in ids ensures x < n {
        assert x == id || x in ids - {id};
      }
    }
  }

  /** s2 is s with t and its locked rows as they were. */
  ghost predicate Spares(s: State, s2: State, t: TxId)
    requires InRenumbering(s, t)
  {
    && t in s2.txs && s2.txs[t] == s.txs[t]
    && forall id | id in s.txs[t].phase.locked && id in s.rows :: id in s2.rows && s2.rows[id] == s.rows[id]
  }

  /** Whoever else holds a row can be aborted. */
  lemma RowIsFreed(run: seq<State>, t: TxId, id: RowId) returns (longer: seq<State>)
    requires Run(run) && JustLocked(Last(run), t) && id !in Last(run).txs[t].phase.locked
    ensures Run(longer) && run <= longer && Spares(Last(run), Last(longer), t) && Last(longer).rows == Last(run).rows
    ensures id !in Last(longer).rowLocks
  {
    var s := Last(run);
    LastIsSound(run);
    assert Holder(s, id);
    longer := run;
    if id in s.rowLocks {
      longer := Extend(run, Abort(s.rowLocks[id]));
    }
  }

  /** A row that t has not locked can be removed. */
  lemma RowIsRemoved(run: seq<State>, t: TxId, code: string) returns (longer: seq<State>)
    requires Run(run) && JustLocked(Last(run), t) && !Named(Last(run), t, code)
    ensures Run(longer) && run <= longer && Spares(Last(run), Last(longer), t)
    ensures WithCode(Last(longer).rows, code) == {}
  {
    var found := WithCode(Last(run).rows, code);
    longer := run;
    if id :| id in found {
      LastIsSound(run);
      assert found == {id};
      longer := RowIsFreed(run, t, id);
      var u := AllBelow(Last(longer).txs.Keys);
      longer := Extend(longer, Arrive(u, Remove(code)));
      longer := Extend(longer, Delete(u, found));
    }
  }

  lemma SparedStayNamed(s: State, s2: State, t: TxId, k: nat)
    requires InRenumbering(s, t) && Spares(s, s2, t) && k <= |s.txs[t].request.codes| && NamedUpTo(s, t, k)
    ensures NamedUpTo(s2, t, k)
  {
    forall j | 0 <= j < k ensures Named(s2, t, s.txs[t].request.codes[j]) {
      assert Named(s, t, s.txs[t].request.codes[j]);
    }
  }

  /** Its locks miss the row of the k-th code: a concurrent Remove of that row makes it fail. */
  lemma UnlockedRowMismatches(run: seq<State>, t: TxId, k: nat) returns (longer: seq<State>)
    requires Run(run) && JustLocked(Last(run), t) && k < |Last(run).txs[t].request.codes|
    requires NamedUpTo(Last(run), t, k) && !Named(Last(run), t, Last(run).txs[t].request.codes[k])
    ensures Run(longer) && run <= longer && Fails(Last(longer), t)
  {
    longer := RowIsRemoved(run, t, Last(run).txs[t].request.codes[k]);
    SparedStayNamed(Last(run), Last(longer), t, k);
    longer := ShiftUpTo(longer, t, k);
    longer := MissingRowFails(longer, t);
  }

  lemma {:induction false} FirstUnnamed(s: State, t: TxId, n: nat) returns (k: nat)
    requires InRenumbering(s, t) && n <= |s.txs[t].request.codes|
    ensures k <= n && NamedUpTo(s, t, k) && (k < n ==> !Named(s, t, s.txs[t].request.codes[k]))
    decreases n
  {
    k := 0;
    if n > 0 {
      k := FirstUnnamed(s, t, n - 1);
      if k == n - 1 && Named(s, t, s.txs[t].request.codes[k]) { k := n; }
    }
  }

  /** The lock statement counted its rows, so if every code has a locked row, every locked row has a code of the list. */
  lemma LockedAreTheCodes(s: State, t: TxId)
    requires Inv(s) && InRenumbering(s, t) && NamedUpTo(s, t, |s.txs[t].request.codes|)
    ensures forall id | id in s.txs[t].phase.locked :: id in s.rows && s.rows[id].code in s.txs[t].request.codes
    ensures forall c | c in s.txs[t].request.codes :: Named(s, t, c)
  {
    var codes, locked := s.txs[t].request.codes, s.txs[t].phase.locked;
    assert TxInv(s, t);
    var rows := s.rows - (s.rows.Keys - locked);
    assert rows.Keys == locked;
    assert |rows| == |rows.Keys|;
    forall c | c in codes ensures Named(s, t, c) && c in Codes(rows) {
      var j :| 0 <= j < |codes| && codes[j] == c;
      assert Named(s, t, codes[j]);
      var id :| id in locked && id in s.rows && s.rows[id].code == c;
      assert id in rows && rows[id] == s.rows[id];
    }
    forall id | id in locked ensures s.rows[id].code in codes {
      EveryRowIsNamed(codes, rows, id);
    }
  }

  // ----- Transactions that nobody disturbs

  /** No other transaction holds a row. */
  ghost predicate Alone(s: State, t: TxId) {
    forall u, id {:trigger Holds(s.txs[u], id)} | u in s.txs && u != t :: !Holds(s.txs[u], id)
  }

  lemma AllFree(run: seq<State>, t: TxId)
    requires Run(run) && Alone(Last(run), t)
    ensures forall id :: Free(Last(run), t, id)
  {
    LastIsSound(run);
    forall id ensures Free(Last(run), t, id) { assert Holder(Last(run), id); }
  }

  lemma {:induction false} LockAll(run: seq<State>, t: TxId) returns (longer: seq<State>)
    requires Run(run) && t in Last(run).txs && Last(run).txs[t].phase.Locking? && Alone(Last(run), t)
    requires Last(run).txs[t].phase.todo <= Last(run).rows.Keys
    ensures Run(longer) && run <= longer && OnlyMoves(Last(run), Last(longer), t)
    ensures var p := Last(run).txs[t].phase; Last(longer).txs[t].phase == Locking(p.snapshot, {}, p.got + p.todo)
    decreases |Last(run).txs[t].phase.todo|
  {
    var p := Last(run).txs[t].phase;
    longer := run;
    if id :| id in p.todo {
      AllFree(run, t);
      longer := Extend(run, LockRow(t, id));
      longer := LockAll(longer, t);
      assert p.got + {id} + (p.todo - {id}) == p.got + p.todo;
    } else {
      assert p.todo == {} && p.got + p.todo == p.got;
    }
  }

  /** The lock statement of a Reorder that nobody disturbs. */
  lemma LocksAreGranted(run: seq<State>, t: TxId) returns (longer: seq<State>)
    requires Run(run) && t in Last(run).txs && Last(run).txs[t].request.Reorder? && Alone(Last(run), t)
    requires var s, p := Last(run), Last(run).txs[t].phase;
             p.Locking? && p.got == {} && p.todo == p.snapshot <= s.rows.Keys && |p.snapshot| == |s.txs[t].request.codes|
    ensures Run(longer) && run <= longer && OnlyMoves(Last(run), Last(longer), t)
    ensures var p := Last(run).txs[t].phase; Last(longer).txs[t].phase == Renumbering(p.snapshot, p.snapshot, [], 0)
  {
    var locked := LockAll(run, t);
    longer := Extend(locked, EndLocking(t));
  }

  /** If it covers all rows, the Reorder is exact. */
  lemma AllLockedIsExact(run: seq<State>, t: TxId)
    requires Run(run) && JustLocked(Last(run), t) && Last(run).txs[t].phase.locked == Last(run).rows.Keys
    requires Permutes(Last(run).txs[t].request.codes, Last(run).rows)
    ensures Exact(Last(run), t)
  {
    var s := Last(run);
    var codes := s.txs[t].request.codes;
    forall id | id in s.rows ensures s.rows[id].code in codes { EveryRowIsNamed(codes, s.rows, id); }
    forall c | c in codes ensures exists id :: id in s.rows && s.rows[id].code == c { assert c in Codes(s.rows); }
  }

  lemma ListAndSnapshot(run: seq<State>, t: TxId, codes: seq<string>) returns (longer: seq<State>)
    requires Run(run) && t !in Last(run).txs && Permutes(codes, Last(run).rows)
    ensures Run(longer) && run <= longer
    ensures var s := Last(run); Last(longer) == s.(txs := s.txs[t := Tx(Reorder(codes), Locking(s.rows.Keys, s.rows.Keys, {}))])
  {
    longer := Extend(run, Arrive(t, Reorder(codes)));
    longer := Extend(longer, List(t));
    longer := Extend(longer, BeginLocking(t));
  }

  /** From s to s2 transaction t has come, done its work and gone. */
  ghost predicate Ran(s: State, s2: State, t: TxId, request: Request) {
    && s2.txs == s.txs[t := Tx(request, Ended(Done))] && s2.userLock == s.userLock - {t}
  }

  /** An exact Reorder that nobody disturbs gets through both phases. */
  lemma BothPhasesPass(run: seq<State>, t: TxId) returns (longer: seq<State>)
    requires Run(run) && JustLocked(Last(run), t) && Exact(Last(run), t)
    ensures Run(longer) && run <= longer && OnlyMoves(Last(run), Last(longer), t) && Enabled(Last(longer), CommitReorder(t))
  {
    var n := |Last(run).txs[t].request.codes|;
    assert forall j | 0 <= j < n :: Last(run).txs[t].request.codes[j] in Last(run).txs[t].request.codes;
    var shifted := ShiftUpTo(run, t, n);
    longer := SettleUpTo(shifted, t, n);
    assert longer[|run| - 1] == Last(run);
    ExactReordersNeverFail(longer, |run| - 1, |longer| - 1, t);
  }

  lemma RenumberAndCommit(run: seq<State>, t: TxId) returns (longer: seq<State>)
    requires Run(run) && JustLocked(Last(run), t) && Exact(Last(run), t)
    ensures Run(longer) && run <= longer && Ran(Last(run), Last(longer), t, Last(run).txs[t].request)
    ensures var codes, now := Last(run).txs[t].request.codes, Last(longer).rows;
            && (forall j | 0 <= j < |codes| :: Stands(now, codes[j], j))
            && now.Keys == Last(run).rows.Keys && forall id | id in now :: now[id].code == Last(run).rows[id].code
  {
    var settled := BothPhasesPass(run, t);
    LastIsSound(settled);
    longer := Extend(settled, CommitReorder(t));
    CommitGivesRequestedOrder(Last(settled), t);
    CommitRan(Last(run), Last(settled), t);
  }

  lemma CommitRan(s: State, settled: State, t: TxId)
    requires OnlyMoves(s, settled, t) && Enabled(settled, CommitReorder(t))
    ensures Ran(s, Step(settled, CommitReorder(t)), t, s.txs[t].request)
  {
    assert Step(settled, CommitReorder(t)).txs == s.txs[t := Tx(s.txs[t].request, Ended(Done))];
  }

  lemma MaxOfMore(rows: map<RowId, Row>, id: RowId, m: int)
    requires id in rows && IsMax(rows - {id}, m) && m >= -1 && 0 <= rows[id].key
    ensures IsMax(rows, if m <= rows[id].key then rows[id].key else m)
  {
    var max := if m <= rows[id].key then rows[id].key else m;
    forall x | x in rows ensures rows[x].key <= max {
      assert x == id || x in rows - {id};
    }
    if max == m && m != rows[id].key {
      var other :| other in rows - {id} && rows[other].key == m;
      assert other in rows && rows[other].key == max;
    } else {
      assert id in rows && rows[id].key == max;
    }
  }

  lemma {:induction false} SomeMax(rows: map<RowId, Row>) returns (max: int)
    requires forall id | id in rows :: 0 <= rows[id].key
    ensures IsMax(rows, max) && max >= -1
    decreases |rows|
  {
    max := -1;
    if id :| id in rows {
      var rest := rows - {id};
      assert rows.Keys == rest.Keys + {id};
      var m := SomeMax(rest);
      MaxOfMore(rows, id, m);
      max := if m <= rows[id].key then rows[id].key else m;
    }
  }

  lemma AddReadsMax(run: seq<State>, t: TxId, code: string) returns (longer: seq<State>, max: int)
    requires Run(run) && t !in Last(run).txs && Last(run).userLock == {}
    ensures Run(longer) && run <= longer
    ensures var s := Last(run); Last(longer) == s.(userLock := {t}, txs := s.txs[t := Tx(AddNext(code), KnowsMax(max))])
    ensures IsMax(Last(run).rows, max)
  {
    LastIsSound(run);
    max := SomeMax(Last(run).rows);
    longer := Extend(run, Arrive(t, AddNext(code)));
    longer := Extend(longer, LockUser(t));
    longer := Extend(longer, ReadMax(t, max));
  }

  lemma AddInserts(run: seq<State>, t: TxId, id: RowId) returns (longer: seq<State>)
    requires Run(run) && Enabled(Last(run), Insert(t, id)) && Last(run).txs[t].request.code !in Codes(Last(run).rows)
    ensures Run(longer) && run <= longer
    ensures var s := Last(run); Last(longer) == To(s.(used := s.used + {id}), t, Inserted(id, s.txs[t].phase.max + 1))
  {
    LastIsSound(run);
    AddNeverCollides(Last(run), t, id);
    longer := Extend(run, Insert(t, id));
  }

  /** An Add that finds the user row unlocked and the code new succeeds. */
  lemma UndisturbedAdd(run: seq<State>, t: TxId, code: string) returns (longer: seq<State>, id: RowId, row: Row)
    requires Run(run) && t !in Last(run).txs && Last(run).userLock == {} && code !in Codes(Last(run).rows)
    ensures Run(longer) && run <= longer && Ran(Last(run), Last(longer), t, AddNext(code))
    ensures id !in Last(run).rows && row.code == code && Last(longer).rows == Last(run).rows[id := row]
    ensures forall other | other in Last(run).rows :: Last(run).rows[other].key < row.key
    ensures if Last(run).rows == map[] then row.key == 0 else exists other :: other in Last(run).rows && row.key == Last(run).rows[other].key + 1
  {
    LastIsSound(run);
    id := AllBelow(Last(run).used);
    assert id !in Last(run).used;
    var max;
    longer, max := AddReadsMax(run, t, code);
    longer := AddInserts(longer, t, id);
    row := Row(code, max + 1);
    AddRan(Last(run), Last(longer), t, id, row);
    longer := Extend(longer, CommitAdd(t));
  }

  lemma AddRan(s: State, inserted: State, t: TxId, id: RowId, row: Row)
    requires t !in s.txs && inserted.txs == s.txs[t := Tx(AddNext(row.code), Inserted(id, row.key))]
    requires s.userLock == {} && inserted.userLock == {t} && inserted.rows == s.rows
    ensures Enabled(inserted, CommitAdd(t)) && Ran(s, Step(inserted, CommitAdd(t)), t, AddNext(row.code))
    ensures Step(inserted, CommitAdd(t)).rows == s.rows[id := row]
  {
    assert Step(inserted, CommitAdd(t)).txs == s.txs[t := Tx(AddNext(row.code), Ended(Done))];
  }
}
