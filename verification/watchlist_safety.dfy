/** What holds in every run of Add, Remove and Reorder. */
module WatchlistSafety {
  import opened WatchlistInvariant
  import opened WatchlistProtocol

  // ----- Runs

  ghost predicate Next(s: State, s2: State) {
    exists a :: Enabled(s, a) && s2 == Step(s, a)
  }

  /** An empty watchlist, or one with distinct non-negative keys, and nothing under way. */
  ghost predicate Initial(s: State) {
    RowsInv(s.rows) && s.used == s.rows.Keys && s.txs == map[] && s.userLock == {} && s.rowLocks == map[]
  }

  ghost predicate Run(run: seq<State>) {
    run != [] && Initial(run[0]) && forall i: nat {:trigger NextAt(run, i)} | i + 1 < |run| :: NextAt(run, i)
  }

  ghost predicate NextAt(run: seq<State>, i: nat)
    requires i + 1 < |run|
  {
    Next(run[i], run[i + 1])
  }

  lemma ArriveKeepsInv(s: State, t: TxId, request: Request)
    requires Inv(s) && Enabled(s, Arrive(t, request))
    ensures Inv(Step(s, Arrive(t, request)))
  {
    var s2 := Step(s, Arrive(t, request));
    forall u ensures PairInv(s2, t, u) && PairInv(s2, u, t) {
      assert PairInv(s, t, u) && PairInv(s, u, t);
    }
    MovesKeepInv(s, s2, t);
  }

  lemma StepKeepsInv(s: State, a: Action)
    requires Inv(s) && Enabled(s, a)
    ensures Inv(Step(s, a))
  {
    match a
    case Arrive(t, request) => ArriveKeepsInv(s, t, request);
    case LockUser(t) => LockUserKeepsInv(s, t);
    case ReadMax(t, max) => ReadMaxKeepsInv(s, t, max);
    case Insert(t, id) => InsertKeepsInv(s, t, id);
    case CommitAdd(t) => CommitAddKeepsInv(s, t);
    case Delete(t, found) => DeleteKeepsInv(s, t, found);
    case List(t) => ListKeepsInv(s, t);
    case BeginLocking(t) => BeginLockingKeepsInv(s, t);
    case LockRow(t, id) => LockRowKeepsInv(s, t, id);
    case EndLocking(t) => EndLockingKeepsInv(s, t);
    case Shift(t, found) => ShiftKeepsInv(s, t, found);
    case Settle(t, found) => SettleKeepsInv(s, t, found);
    case CommitReorder(t) => CommitReorderKeepsInv(s, t);
    case Abort(t) => EndMoves(s, t, Aborted);
  }

  /** In every reachable state the committed keys are distinct and non-negative, and so are the codes distinct. */
  lemma {:induction false} EveryRunKeepsKeysDistinct(run: seq<State>, i: nat)
    requires Run(run) && i < |run|
    ensures Inv(run[i]) && RowsInv(run[i].rows)
    decreases i
  {
    if i > 0 {
      EveryRunKeepsKeysDistinct(run, i - 1);
      assert NextAt(run, i - 1);
      var a :| Enabled(run[i - 1], a) && run[i] == Step(run[i - 1], a);
      StepKeepsInv(run[i - 1], a);
    }
  }

  /** In no run does an Add meet the unique index on sort keys, whatever Reorders are under way; its row sorts last. */
  lemma AddsNeverCollide(run: seq<State>, i: nat, t: TxId, id: RowId)
    requires Run(run) && i < |run| && Enabled(run[i], Insert(t, id))
    ensures !Collides(run[i], t, id, run[i].txs[t].phase.max + 1)
    ensures forall other | other in run[i].rows :: run[i].rows[other].key < run[i].txs[t].phase.max + 1
  {
    EveryRunKeepsKeysDistinct(run, i);
    AddNeverCollides(run[i], t, id);
  }

  /** In no run are two Reorders renumbering rows at the same time. */
  lemma ReordersExcludeEachOther(run: seq<State>, i: nat, t: TxId, u: TxId)
    requires Run(run) && i < |run| && t != u && t in run[i].txs && u in run[i].txs
    requires run[i].txs[t].phase.Renumbering? && run[i].txs[u].phase.Renumbering?
    ensures run[i].txs[t].phase.ids == [] || run[i].txs[u].phase.ids == []
  {
    EveryRunKeepsKeysDistinct(run, i);
    OneRenumbersAtATime(run[i], t, u);
  }

  /** What an Add inserts: its code under the key after the greatest, or 0; a code that is there already is refused. */
  lemma InsertMeans(run: seq<State>, i: nat, t: TxId, id: RowId)
    requires Run(run) && i < |run| && Enabled(run[i], Insert(t, id))
    ensures var s, s2, code := run[i], Step(run[i], Insert(t, id)), run[i].txs[t].request.code;
            && s2.rows == s.rows
            && (s2.txs[t].phase == if exists other :: other in s.rows && s.rows[other].code == code then Ended(AlreadyInWatchlist)
                                   else Inserted(id, s.txs[t].phase.max + 1))
  {
    AddsNeverCollide(run, i, t, id);
    var s, code := run[i], run[i].txs[t].request.code;
    assert code in Codes(s.rows) <==> exists other :: other in s.rows && s.rows[other].code == code;
  }

  /** The greatest key an Add reads is that of a committed row, or -1 on an empty list. */
  lemma MaxMeans(s: State, t: TxId, max: int)
    requires Enabled(s, ReadMax(t, max))
    ensures forall id | id in s.rows :: s.rows[id].key <= max
    ensures if s.rows == map[] then max == -1 else exists id :: id in s.rows && s.rows[id].key == max
    ensures Step(s, ReadMax(t, max)).txs[t].phase == KnowsMax(max) && Step(s, ReadMax(t, max)).rows == s.rows
  {
  }

  /** What an Add commits: one new row with its code, after all others. */
  lemma AddMeans(run: seq<State>, i: nat, t: TxId)
    requires Run(run) && i < |run| && Enabled(run[i], CommitAdd(t))
    ensures var s, s2, x := run[i], Step(run[i], CommitAdd(t)), run[i].txs[t];
            && x.phase.id !in s.rows && s2.rows == s.rows[x.phase.id := Row(x.request.code, x.phase.key)]
            && (forall id | id in s.rows :: s.rows[id].key < x.phase.key && s.rows[id].code != x.request.code)
            && s2.txs[t].phase == Ended(Done)
  {
    EveryRunKeepsKeysDistinct(run, i);
    assert TxInv(run[i], t);
  }

  /** What a Remove commits: the row with its code is gone, if there was one, and every other row stays. */
  lemma RemoveMeans(s: State, t: TxId, found: set<RowId>)
    requires Enabled(s, Delete(t, found))
    ensures var s2, code := Step(s, Delete(t, found)), s.txs[t].request.code;
            && (forall id :: id in s2.rows <==> id in s.rows && s.rows[id].code != code)
            && (forall id | id in s2.rows :: s2.rows[id] == s.rows[id])
            && (s2.txs[t].phase == Ended(if exists id :: id in s.rows && s.rows[id].code == code then Done else NotInWatchlist))
  {
    var code := s.txs[t].request.code;
    assert found == {} <==> !exists id :: id in s.rows && s.rows[id].code == code by {
      if id :| id in s.rows && s.rows[id].code == code { assert id in found; }
      if found != {} { var id :| id in found; assert id in s.rows && s.rows[id].code == code; }
    }
  }

  predicate HasCode(rows: map<RowId, Row>, code: string) {
    exists id :: id in rows && rows[id].code == code
  }

  /** Which requests the use case accepts: every code of the list once, and no other. */
  lemma ListMeans(s: State, t: TxId)
    requires Enabled(s, List(t))
    ensures var s2, codes := Step(s, List(t)), s.txs[t].request.codes;
            && s2.rows == s.rows
            && (s2.txs[t].phase == if |codes| == |s.rows| && (forall i, j | 0 <= i < j < |codes| :: codes[i] != codes[j])
                                      && (forall c | c in codes :: HasCode(s.rows, c))
                                   then Validated else Ended(Mismatch))
  {
    var codes := s.txs[t].request.codes;
    forall c ensures c in Codes(s.rows) <==> HasCode(s.rows, c) {
      assert c in Codes(s.rows) <==> exists id :: id in s.rows && s.rows[id].code == c;
    }
    assert (forall c | c in codes :: c in Codes(s.rows)) <==> (forall c | c in codes :: HasCode(s.rows, c));
  }

  /** The lock statement is checked by the number of rows it got. */
  lemma LocksAreCounted(s: State, t: TxId)
    requires Enabled(s, EndLocking(t))
    ensures var s2, got := Step(s, EndLocking(t)), s.txs[t].phase.got;
            && s2.rows == s.rows
            && (if |got| == |s.txs[t].request.codes| then s2.txs[t].phase.Renumbering? && s2.txs[t].phase.locked == got
                else s2.txs[t].phase == Ended(Mismatch))
  {
  }
}
