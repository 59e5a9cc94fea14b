/**
  What the family lock is for. A family is created and its first token exchanged for a second. Then the second is
  being exchanged while a Revoke presents the first. If it does not wait for the family, its UPDATE takes its
  snapshot too early to see the row the exchange is about to commit, and half of the family stays live. The lemmas
  follow this run step by step from the empty table.
*/
module RotationWithoutLock {
  import opened Common
  import opened SessionTable
  import opened RotationProtocol
  import opened RotationSafety

  const CREATOR: TxId := 0
  const FIRST_ROTATOR: TxId := 1
  const ROTATOR: TxId := 2
  const REVOKER: TxId := 3

  // Token 11 is exchanged for token 12, and that for token 13.
  const OLDEST: Session := Session(1, 7, 0, 11, 100, None, None, None)
  const NEWER: Session := Successor(OLDEST, Minted(2, 12, 100))
  const EXCHANGED: Session := Consumed(OLDEST, 0, 2)
  const NEWEST: Minted := Minted(3, 13, 100)

  // ---------------------------------------------------------------- building runs

  /** A run with the states it passes. */
  datatype Path = Path(states: seq<State>, actions: seq<Action>)

  ghost predicate MovesAt(p: Path, i: nat)
    requires i < |p.actions| && i + 1 < |p.states|
  {
    Enabled(p.states[i], p.actions[i]) && p.states[i + 1] == Step(p.states[i], p.actions[i])
  }

  ghost predicate Connects(p: Path, s: State, end: State) {
    && |p.states| == |p.actions| + 1 && p.states[0] == s && p.states[|p.actions|] == end
    && forall i: nat {:trigger MovesAt(p, i)} | i < |p.actions| :: MovesAt(p, i)
  }

  lemma Then(p: Path, s: State, mid: State, a: Action) returns (q: Path)
    requires Connects(p, s, mid) && Enabled(mid, a)
    ensures Connects(q, s, Step(mid, a))
  {
    q := Path(p.states + [Step(mid, a)], p.actions + [a]);
    forall i: nat | i < |q.actions| ensures MovesAt(q, i) {
      if i < |p.actions| { assert MovesAt(p, i); }
    }
  }

  lemma {:induction false} PathIsRun(p: Path, s: State, end: State)
    requires Connects(p, s, end)
    ensures Run(s, p.actions, end)
    decreases |p.actions|
  {
    if p.actions != [] {
      var rest := Path(p.states[1..], p.actions[1..]);
      assert MovesAt(p, 0);
      forall i: nat | i < |rest.actions| ensures MovesAt(rest, i) { assert MovesAt(p, i + 1); }
      PathIsRun(rest, Step(s, p.actions[0]), end);
    }
  }

  // ---------------------------------------------------------------- a rotation up to its commit

  /** s with a rotation of `row` by t that has executed all its statements. */
  function Rotating(s: State, t: TxId, now: Time, row: Session, m: Minted): State {
    s.(txs := s.txs[t := Tx(RotateReq(row.hash, now), Swapped(row, m), map[m.id := Successor(row, m)][row.id := Consumed(row, now, m.id)], {})],
       rowLocks := s.rowLocks[row.id := t][m.id := t], ids := s.ids[m.id := t], hashes := s.hashes[m.hash := t])
  }

  /** A token request up to where the family lock would be taken. */
  lemma RequestFinds(p: Path, start: State, s: State, t: TxId, req: Request, row: Session) returns (q: Path, end: State)
    requires Connects(p, start, s) && !s.locking && t !in s.txs && t !in s.outcomes
    requires TokenRequest(req) && Lookup(s.ledger.rows, req.hash) == Some(row)
    ensures Connects(q, start, end)
    ensures end == s.(txs := s.txs[t := Tx(req, Locked(row.family), map[], {})])
  {
    q := Then(p, start, s, Begin(t, req));
    end := Step(s, Begin(t, req));
    q := Then(q, start, end, Find(t));
    end := Step(end, Find(t));
    q := Then(q, start, end, LockFamily(t));
    end := Step(end, LockFamily(t));
  }

  lemma RotationReads(p: Path, start: State, s: State, t: TxId, now: Time, row: Session) returns (q: Path, end: State)
    requires Connects(p, start, s) && t in s.txs && s.txs[t] == Tx(RotateReq(row.hash, now), Locked(row.family), map[], {})
    requires Lookup(s.ledger.rows, row.hash) == Some(row) && RowFree(s, t, row.id) && Judge(row, now).Accept?
    ensures Connects(q, start, end)
    ensures end == s.(txs := s.txs[t := s.txs[t].(phase := Verified(row))], rowLocks := s.rowLocks[row.id := t])
  {
    q := Then(p, start, s, ReadRow(t));
    end := Step(s, ReadRow(t));
  }

  lemma RotationWrites(p: Path, start: State, s: State, t: TxId, now: Time, row: Session, m: Minted) returns (q: Path)
    requires Connects(p, start, s) && t in s.txs && s.txs[t] == Tx(RotateReq(row.hash, now), Verified(row), map[], {})
    requires m.id !in s.ids && m.hash !in s.hashes && row.id in s.rowLocks && s.rowLocks[row.id] == t
    ensures Connects(q, start, Rotating(s, t, now, row, m))
  {
    q := Then(p, start, s, Insert(t, m));
    var inserted := Step(s, Insert(t, m));
    q := Then(q, start, inserted, Consume(t));
    assert Step(inserted, Consume(t)) == Rotating(s, t, now, row, m);
  }

  lemma RotationRuns(p: Path, start: State, s: State, t: TxId, now: Time, row: Session, m: Minted) returns (q: Path)
    requires Connects(p, start, s) && !s.locking && t !in s.txs && t !in s.outcomes
    requires Lookup(s.ledger.rows, row.hash) == Some(row) && RowFree(s, t, row.id) && Judge(row, now).Accept?
    requires m.id !in s.ids && m.hash !in s.hashes
    ensures Connects(q, start, Rotating(s, t, now, row, m))
  {
    var found, read;
    q, found := RequestFinds(p, start, s, t, RotateReq(row.hash, now), row);
    q, read := RotationReads(q, start, found, t, now, row);
    q := RotationWrites(q, start, read, t, now, row, m);
    SameRotation(s, read, t, now, row, m);
  }

  lemma SameRotation(s: State, read: State, t: TxId, now: Time, row: Session, m: Minted)
    requires t in read.txs && read.txs == s.txs[t := read.txs[t]]
    requires read == s.(txs := read.txs, rowLocks := s.rowLocks[row.id := t])
    ensures Rotating(read, t, now, row, m) == Rotating(s, t, now, row, m)
  {
    assert Rotating(read, t, now, row, m).txs == Rotating(s, t, now, row, m).txs;
  }

  lemma RotationCommits(p: Path, start: State, s: State, t: TxId) returns (q: Path, end: State)
    requires Connects(p, start, s) && t in s.txs && s.txs[t].phase.Swapped?
    ensures Connects(q, start, end)
    ensures end.ledger.rows == CommitRows(s.ledger.rows, s.txs[t]) && end.txs == s.txs - {t}
    ensures end.outcomes == s.outcomes[t := Rotated] && end.rowLocks == s.rowLocks - (set id | id in s.rowLocks && s.rowLocks[id] == t)
    ensures end.ids == s.ids && end.hashes == s.hashes && end.locking == s.locking
  {
    q := Then(p, start, s, Commit(t));
    end := Step(s, Commit(t));
  }

  // ---------------------------------------------------------------- the family before the race

  /** Nothing under way, and nothing locked. */
  predicate Idle(s: State, outcomes: set<TxId>, ids: set<SessionId>, hashes: set<TokenHash>) {
    !s.locking && s.txs == map[] && s.rowLocks == map[] && s.outcomes.Keys == outcomes && s.ids.Keys == ids && s.hashes.Keys == hashes
  }

  lemma FirstRowIsWritten(clock: Time) returns (q: Path, end: State)
    ensures Connects(q, Initial(false, clock), end)
    ensures end == Initial(false, clock).(txs := map[CREATOR := Tx(CreateReq(OLDEST), Registering, map[1 := OLDEST], {})],
                                          rowLocks := map[1 := CREATOR], ids := map[1 := CREATOR], hashes := map[11 := CREATOR], families := map[7 := CREATOR])
  {
    var s := Initial(false, clock);
    q := Then(Path([s], []), s, s, Begin(CREATOR, CreateReq(OLDEST)));
    end := Step(s, Begin(CREATOR, CreateReq(OLDEST)));
    q := Then(q, s, end, InsertFirst(CREATOR));
    end := Step(end, InsertFirst(CREATOR));
  }

  lemma FamilyIsCreated(clock: Time) returns (q: Path, end: State)
    ensures Connects(q, Initial(false, clock), end)
    ensures Idle(end, {CREATOR}, {1}, {11}) && end.ledger.rows == map[1 := OLDEST]
  {
    var written;
    q, written := FirstRowIsWritten(clock);
    q := Then(q, Initial(false, clock), written, Commit(CREATOR));
    end := Step(written, Commit(CREATOR));
  }

  lemma FirstExchangeRuns(p: Path, start: State, s: State) returns (q: Path)
    requires Connects(p, start, s) && Idle(s, {CREATOR}, {1}, {11}) && s.ledger.rows == map[1 := OLDEST]
    ensures Connects(q, start, Rotating(s, FIRST_ROTATOR, 0, OLDEST, Minted(2, 12, 100)))
  {
    LookupFinds(s.ledger.rows, 1);
    q := RotationRuns(p, start, s, FIRST_ROTATOR, 0, OLDEST, Minted(2, 12, 100));
  }

  lemma FirstExchangeRows(x: Tx)
    requires x.writes == map[2 := NEWER][1 := EXCHANGED] && x.deletes == {}
    ensures CommitRows(map[1 := OLDEST], x) == map[1 := EXCHANGED, 2 := NEWER]
  {
  }

  lemma FirstExchangeCommits(p: Path, start: State, s: State) returns (q: Path, end: State)
    requires Connects(p, start, s) && Idle(s, {CREATOR}, {1}, {11}) && s.ledger.rows == map[1 := OLDEST]
    ensures Connects(q, start, end)
    ensures Idle(end, {CREATOR, FIRST_ROTATOR}, {1, 2}, {11, 12}) && end.ledger.rows == map[1 := EXCHANGED, 2 := NEWER]
  {
    var r := Rotating(s, FIRST_ROTATOR, 0, OLDEST, Minted(2, 12, 100));
    q := FirstExchangeRuns(p, start, s);
    q, end := RotationCommits(q, start, r, FIRST_ROTATOR);
    FirstExchangeRows(r.txs[FIRST_ROTATOR]);
    assert r.rowLocks.Keys == (set id | id in r.rowLocks && r.rowLocks[id] == FIRST_ROTATOR);
  }

  // ---------------------------------------------------------------- the race

  /** The second exchange has executed its statements and not committed yet. */
  predicate Exchanging(s: State) {
    && !s.locking && s.ledger.rows == map[1 := EXCHANGED, 2 := NEWER]
    && ROTATOR in s.txs
    && s.txs[ROTATOR] == Tx(RotateReq(12, 5), Swapped(NEWER, NEWEST), map[3 := Successor(NEWER, NEWEST), 2 := Consumed(NEWER, 5, 3)], {})
  }

  lemma ExchangeRows(x: Tx)
    requires x.writes == map[3 := Successor(NEWER, NEWEST), 2 := Consumed(NEWER, 5, 3)] && x.deletes == {}
    ensures CommitRows(map[1 := EXCHANGED, 2 := NEWER], x) == map[1 := EXCHANGED, 2 := Consumed(NEWER, 5, 3), 3 := Successor(NEWER, NEWEST)]
  {
  }

  lemma SecondExchangeRuns(p: Path, start: State, s: State) returns (q: Path, end: State)
    requires Connects(p, start, s) && s.ledger.rows == map[1 := EXCHANGED, 2 := NEWER]
    requires Idle(s, {CREATOR, FIRST_ROTATOR}, {1, 2}, {11, 12})
    ensures Connects(q, start, end) && Exchanging(end)
    ensures end.txs.Keys == {ROTATOR} && REVOKER !in end.outcomes && end.rowLocks == map[2 := ROTATOR, 3 := ROTATOR]
  {
    LookupFinds(s.ledger.rows, 2);
    q := RotationRuns(p, start, s, ROTATOR, 5, NEWER, NEWEST);
    end := Rotating(s, ROTATOR, 5, NEWER, NEWEST);
  }

  function Revocation(phase: Phase, writes: Table): Tx {
    Tx(RevokeReq(11, 6), phase, writes, {})
  }

  lemma RevokerFinds(p: Path, start: State, s: State) returns (q: Path, end: State)
    requires Connects(p, start, s) && Exchanging(s) && REVOKER !in s.txs && REVOKER !in s.outcomes
    ensures Connects(q, start, end) && Exchanging(end)
    ensures end == s.(txs := s.txs[REVOKER := Revocation(Locked(7), map[])])
  {
    LookupFinds(s.ledger.rows, 1);
    q, end := RequestFinds(p, start, s, REVOKER, RevokeReq(11, 6), EXCHANGED);
  }

  lemma RevokerReads(p: Path, start: State, s: State) returns (q: Path, end: State)
    requires Connects(p, start, s) && Exchanging(s) && RowFree(s, REVOKER, 1)
    requires REVOKER in s.txs && s.txs[REVOKER] == Revocation(Locked(7), map[])
    ensures Connects(q, start, end)
    ensures end == s.(txs := s.txs[REVOKER := Revocation(Condemned(EXCHANGED), map[])], rowLocks := s.rowLocks[1 := REVOKER])
  {
    LookupFinds(s.ledger.rows, 1);
    q := Then(p, start, s, ReadRow(REVOKER));
    end := Step(s, ReadRow(REVOKER));
  }

  /** The UPDATE's snapshot has rows 1 and 2. */
  lemma RevokerStarts(p: Path, start: State, s: State) returns (q: Path, end: State)
    requires Connects(p, start, s) && Exchanging(s)
    requires REVOKER in s.txs && s.txs[REVOKER] == Revocation(Condemned(EXCHANGED), map[])
    ensures Connects(q, start, end)
    ensures end == s.(txs := s.txs[REVOKER := Revocation(Revoking(EXCHANGED, {1, 2}), map[])])
  {
    q := Then(p, start, s, StartSweep(REVOKER));
    end := Step(s, StartSweep(REVOKER));
    assert (set id | id in s.ledger.rows && s.ledger.rows[id].family == 7 && s.ledger.rows[id].revoked.None?) == {1, 2};
    assert end.txs[REVOKER].phase == Revoking(EXCHANGED, {1, 2});
  }

  /** It revokes row 1 and then waits for row 2. */
  lemma RevokerSweepsFirst(p: Path, start: State, s: State) returns (q: Path, end: State)
    requires Connects(p, start, s) && Exchanging(s) && s.rowLocks == map[2 := ROTATOR, 3 := ROTATOR, 1 := REVOKER]
    requires REVOKER in s.txs && s.txs[REVOKER] == Revocation(Revoking(EXCHANGED, {1, 2}), map[])
    ensures Connects(q, start, end) && Exchanging(end) && end.rowLocks == s.rowLocks && REVOKER in end.txs
    ensures end.txs[REVOKER] == Revocation(Revoking(EXCHANGED, {2}), map[1 := EXCHANGED.(revoked := Some(6))])
    ensures !RowFree(end, REVOKER, 2)
  {
    q := Then(p, start, s, Sweep(REVOKER, 1));
    end := Step(s, Sweep(REVOKER, 1));
    assert {1, 2} - {1} == {2};
  }

  /** The exchange commits row 3, which the revoking UPDATE has no reason to visit. */
  lemma RotatorCommits(p: Path, start: State, s: State) returns (q: Path, end: State)
    requires Connects(p, start, s) && Exchanging(s) && REVOKER in s.txs && s.rowLocks == map[2 := ROTATOR, 3 := ROTATOR, 1 := REVOKER]
    ensures Connects(q, start, end) && REVOKER in end.txs && end.txs[REVOKER] == s.txs[REVOKER] && RowFree(end, REVOKER, 2)
    ensures end.ledger.rows == map[1 := EXCHANGED, 2 := Consumed(NEWER, 5, 3), 3 := Successor(NEWER, NEWEST)]
  {
    q, end := RotationCommits(p, start, s, ROTATOR);
    ExchangeRows(s.txs[ROTATOR]);
    assert 2 in (set id | id in s.rowLocks && s.rowLocks[id] == ROTATOR);
  }

  lemma RevokerSweepsSecond(p: Path, start: State, s: State) returns (q: Path, end: State)
    requires Connects(p, start, s)
    requires s.ledger.rows == map[1 := EXCHANGED, 2 := Consumed(NEWER, 5, 3), 3 := Successor(NEWER, NEWEST)]
    requires REVOKER in s.txs && RowFree(s, REVOKER, 2)
    requires s.txs[REVOKER] == Revocation(Revoking(EXCHANGED, {2}), map[1 := EXCHANGED.(revoked := Some(6))])
    ensures Connects(q, start, end) && end.ledger == s.ledger && REVOKER in end.txs
    ensures end.txs[REVOKER].phase == Revoking(EXCHANGED, {}) && end.txs[REVOKER].writes.Keys == {1, 2} && end.txs[REVOKER].deletes == {}
    ensures end.txs[REVOKER].writes[1] == EXCHANGED.(revoked := Some(6))
  {
    q := Then(p, start, s, Sweep(REVOKER, 2));
    end := Step(s, Sweep(REVOKER, 2));
    assert end.txs[REVOKER].phase == Revoking(EXCHANGED, {});
  }

  lemma RevokerCommits(p: Path, start: State, s: State) returns (q: Path, end: State)
    requires Connects(p, start, s) && REVOKER in s.txs && 3 in s.ledger.rows && s.ledger.rows[3] == Successor(NEWER, NEWEST)
    requires s.txs[REVOKER].phase == Revoking(EXCHANGED, {}) && s.txs[REVOKER].writes.Keys == {1, 2} && s.txs[REVOKER].deletes == {}
    requires s.txs[REVOKER].writes[1] == EXCHANGED.(revoked := Some(6))
    ensures Connects(q, start, end) && !Uniform(end.ledger.rows)
  {
    q := Then(p, start, s, Commit(REVOKER));
    end := Step(s, Commit(REVOKER));
    assert end.ledger.rows == CommitRows(s.ledger.rows, s.txs[REVOKER]);
    assert end.ledger.rows[1].revoked.Some? && end.ledger.rows[3].revoked.None?;
    assert end.ledger.rows[1].family == end.ledger.rows[3].family;
  }

  /** Without the lock a run from the empty table ends with one family half revoked, half live. */
  lemma HalfRevokedWithoutLock(clock: Time) returns (actions: seq<Action>, end: State)
    ensures Run(Initial(false, clock), actions, end) && !Uniform(end.ledger.rows)
  {
    var start := Initial(false, clock);
    var p;
    p, end := FamilyIsCreated(clock);
    p, end := FirstExchangeCommits(p, start, end);
    p, end := SecondExchangeRuns(p, start, end);
    p, end := RevokerFinds(p, start, end);
    p, end := RevokerReads(p, start, end);
    p, end := RevokerStarts(p, start, end);
    p, end := RevokerSweepsFirst(p, start, end);
    p, end := RotatorCommits(p, start, end);
    p, end := RevokerSweepsSecond(p, start, end);
    p, end := RevokerCommits(p, start, end);
    PathIsRun(p, start, end);
    actions := p.actions;
  }
}
