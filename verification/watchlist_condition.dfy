/** Exactly when a Reorder cannot fail. */
module WatchlistCondition {
  /*
   * A Reorder that has just locked its rows can fail exactly when it is not `Exact`. The failing run starts from any
   * watchlist that is not empty: the lock statement misses a row that is added after it began, and another Reorder
   * moves that row to the front before the locks are granted.
   */

  import opened WatchlistContinuation
  import opened WatchlistInvariant
  import opened WatchlistOrder
  import opened WatchlistProtocol
  import opened WatchlistSafety

  lemma InexactCanFail(run: seq<State>, t: TxId) returns (longer: seq<State>)
    requires Run(run) && JustLocked(Last(run), t) && !Exact(Last(run), t)
    ensures Run(longer) && run <= longer && Fails(Last(longer), t)
  {
    var s := Last(run);
    var codes := s.txs[t].request.codes;
    LastIsSound(run);
    var k := FirstUnnamed(s, t, |codes|);
    if k < |codes| {
      longer := UnlockedRowMismatches(run, t, k);
    } else {
      LockedAreTheCodes(s, t);
      var other :| other in s.rows && other !in s.txs[t].phase.locked && s.rows[other].key < |codes|;
      longer := SmallKeyCollides(run, t, other);
    }
  }

  /**
   * The exact condition. When its last lock is granted, a Reorder is safe from failing
   * its checks, whatever runs beside it, if and only if it holds exactly the rows of its
   * codes and no other row has a key among the first |codes|.
   */
  lemma SafeExactlyIfExact(run: seq<State>, t: TxId)
    requires Run(run) && JustLocked(Last(run), t)
    ensures Exact(Last(run), t) <==> forall longer | Run(longer) && run <= longer :: !Fails(Last(longer), t)
  {
    if Exact(Last(run), t) {
      forall longer | Run(longer) && run <= longer ensures !Fails(Last(longer), t) {
        assert longer[|run| - 1] == Last(run);
        ExactReordersNeverFail(longer, |run| - 1, |longer| - 1, t);
      }
    } else {
      var longer := InexactCanFail(run, t);
    }
  }

  /** A Reorder that nobody disturbs succeeds on every permutation of the user's codes. */
  lemma UndisturbedReorder(run: seq<State>, t: TxId, codes: seq<string>) returns (longer: seq<State>)
    requires Run(run) && t !in Last(run).txs && Alone(Last(run), t) && Permutes(codes, Last(run).rows)
    ensures Run(longer) && run <= longer && Ran(Last(run), Last(longer), t, Reorder(codes))
    ensures var now := Last(longer).rows;
            && (forall j | 0 <= j < |codes| :: Stands(now, codes[j], j))
            && now.Keys == Last(run).rows.Keys && forall id | id in now :: now[id].code == Last(run).rows[id].code
  {
    var listed := ListAndSnapshot(run, t, codes);
    assert |Last(run).rows.Keys| == |Last(run).rows|;
    var locked := LocksAreGranted(listed, t);
    AllLockedIsExact(locked, t);
    longer := RenumberAndCommit(locked, t);
    CameAndRan(Last(run), Last(listed), Last(locked), Last(longer), t, Reorder(codes));
  }

  lemma CameAndRan(s: State, listed: State, locked: State, end: State, t: TxId, request: Request)
    requires t in listed.txs && listed.txs == s.txs[t := listed.txs[t]] && listed.userLock == s.userLock
    requires OnlyMoves(listed, locked, t) && Ran(locked, end, t, request)
    ensures Ran(s, end, t, request)
  {
    assert end.txs == s.txs[t := Tx(request, Ended(Done))];
  }

  // ----- A run in which a Reorder fails

  /** With a new row in front, the list is a permutation again. */
  lemma FrontPermutes(codes: seq<string>, rows: map<RowId, Row>, id: RowId, row: Row)
    requires Permutes(codes, rows) && id !in rows && row.code !in Codes(rows)
    ensures Permutes([row.code] + codes, rows[id := row])
  {
    var more := rows[id := row];
    assert more.Keys == rows.Keys + {id};
    assert |more| == |more.Keys| && |rows| == |rows.Keys|;
    forall c | c in [row.code] + codes ensures c in Codes(more) {
      if c == row.code {
        assert more[id].code == c;
      } else {
        assert c in Codes(rows);
        var other :| other in rows && rows[other].code == c;
        assert more[other].code == c;
      }
    }
  }

  /** The Reorder has listed and its lock statement has begun; a row is added and moved to the front. */
  lemma RowMovesInFront(run: seq<State>, codes: seq<string>, c: string) returns (longer: seq<State>, other: RowId)
    requires Run(run) && Last(run).userLock == {} && c !in Codes(Last(run).rows) && Permutes(codes, Last(run).rows)
    requires var keys := Last(run).rows.Keys; Last(run).txs == map[0 := Tx(Reorder(codes), Locking(keys, keys, {}))]
    ensures Run(longer) && run <= longer
    ensures Last(longer).txs == Last(run).txs[1 := Tx(AddNext(c), Ended(Done))][2 := Tx(Reorder([c] + codes), Ended(Done))]
    ensures var rows, now := Last(run).rows, Last(longer).rows;
            && other !in rows && now.Keys == rows.Keys + {other} && now[other] == Row(c, 0)
            && forall id | id in rows :: now[id].code == rows[id].code
  {
    var rows, row := Last(run).rows, Row(c, 0);
    var added: seq<State>;
    added, other, row := UndisturbedAdd(run, 1, c);
    FrontPermutes(codes, rows, other, row);
    longer := UndisturbedReorder(added, 2, [c] + codes);
    var now := Last(longer).rows;
    assert Stands(now, ([c] + codes)[0], 0);
    forall id | id in rows ensures now[id].code != c {
      assert rows[id].code in Codes(rows);
    }
  }

  lemma LockedDespiteTheNewRow(run: seq<State>, codes: seq<string>, rows: map<RowId, Row>, other: RowId) returns (longer: seq<State>)
    requires Run(run) && Permutes(codes, rows) && rows != map[] && other !in rows
    requires var s := Last(run);
             && 0 in s.txs && s.txs[0] == Tx(Reorder(codes), Locking(rows.Keys, rows.Keys, {})) && Alone(s, 0)
             && s.rows.Keys == rows.Keys + {other} && s.rows[other].key == 0
             && forall id | id in rows :: s.rows[id].code == rows[id].code
    ensures Run(longer) && run <= longer && JustLocked(Last(longer), 0) && Last(longer).rows == Last(run).rows
    ensures Last(longer).txs[0].request == Reorder(codes) && other !in Last(longer).txs[0].phase.locked
    ensures NamedUpTo(Last(longer), 0, |codes|) && codes != []
  {
    assert |rows.Keys| == |rows|;
    longer := LocksAreGranted(run, 0);
    forall j | 0 <= j < |codes| ensures Named(Last(longer), 0, codes[j]) {
      assert codes[j] in Codes(rows);
      var id :| id in rows && rows[id].code == codes[j];
      assert id in Last(longer).txs[0].phase.locked && Last(longer).rows[id].code == codes[j];
    }
  }

  lemma NamedAreThere(s: State, t: TxId)
    requires InRenumbering(s, t) && NamedUpTo(s, t, |s.txs[t].request.codes|)
    ensures forall code | code in s.txs[t].request.codes :: WithCode(s.rows, code) != {}
  {
    forall code | code in s.txs[t].request.codes ensures WithCode(s.rows, code) != {} {
      var j :| 0 <= j < |s.txs[t].request.codes| && s.txs[t].request.codes[j] == code;
      assert Named(s, t, s.txs[t].request.codes[j]);
      var id :| id in s.txs[t].phase.locked && id in s.rows && s.rows[id].code == code;
      assert id in WithCode(s.rows, code);
    }
  }

  lemma ListedReorderFails(run: seq<State>, codes: seq<string>, c: string) returns (longer: seq<State>)
    requires Run(run) && Last(run).userLock == {} && c !in Codes(Last(run).rows) && Permutes(codes, Last(run).rows) && Last(run).rows != map[]
    requires var keys := Last(run).rows.Keys; Last(run).txs == map[0 := Tx(Reorder(codes), Locking(keys, keys, {}))]
    ensures Run(longer) && run <= longer
    ensures 0 in Last(longer).txs && Last(longer).txs[0] == Tx(Reorder(codes), Ended(KeyCollision))
    ensures forall code | code in codes :: WithCode(Last(longer).rows, code) != {}
  {
    var beside, other := RowMovesInFront(run, codes, c);
    var locked := LockedDespiteTheNewRow(beside, codes, Last(run).rows, other);
    longer := SmallKeyCollides(locked, 0, other);
    NamedAreThere(Last(locked), 0);
  }

  /**
   * Some Reorder fails, on every watchlist that is not empty, for every permutation of
   * its codes and every new code: the use case accepted the list, the lock statement
   * counted as many rows as the list has, no row of the list was removed, and still an
   * UPDATE meets the unique index.
   */
  lemma AcceptedReorderFails(rows: map<RowId, Row>, codes: seq<string>, c: string) returns (run: seq<State>)
    requires RowsInv(rows) && rows != map[] && Permutes(codes, rows) && c !in Codes(rows)
    ensures Run(run) && run[0].rows == rows
    ensures 0 in Last(run).txs && Last(run).txs[0] == Tx(Reorder(codes), Ended(KeyCollision))
    ensures forall code | code in codes :: WithCode(Last(run).rows, code) != {}
  {
    var start := State(rows, {}, map[], rows.Keys, map[]);
    run := ListAndSnapshot([start], 0, codes);
    run := ListedReorderFails(run, codes, c);
  }
}
