/** What Create, Revoke and DeleteExpired do when they run beside others. */
module RotationRequests {
  import opened Common
  import opened SessionTable
  import opened RotationProtocol
  import opened RotationRefinement
  import opened RotationSafety
  import opened RotationOutcomes

  // ---------------------------------------------------------------- Create

  lemma FirstRowIsNew(s: State, t: TxId)
    requires Inv(s) && Enabled(s, Commit(t)) && s.txs[t].req.CreateReq?
    ensures s.txs[t].phase.Registering? && s.txs[t].req.row.id !in s.ledger.rows
    ensures s.txs[t].writes == map[s.txs[t].req.row.id := s.txs[t].req.row] && s.txs[t].deletes == {}
  {
    assert TxInv(s, t);
    var id := s.txs[t].req.row.id;
    assert id in s.ledger.rows ==> RowInv(s.ledger, id);
  }

  /** A committed Create adds the requested row and nothing else. */
  lemma CreateMeans(s: State, t: TxId)
    requires Inv(s) && Enabled(s, Commit(t)) && s.txs[t].req.CreateReq?
    ensures var row, s' := s.txs[t].req.row, Step(s, Commit(t));
            row.id !in s.ledger.rows && s'.ledger.rows == s.ledger.rows[row.id := row] && s'.outcomes[t] == Created
  {
    FirstRowIsNew(s, t);
    assert CommitRows(s.ledger.rows, s.txs[t]) == s.ledger.rows[s.txs[t].req.row.id := s.txs[t].req.row];
  }

  // ---------------------------------------------------------------- Revoke

  /** The token was issued once, and its row is gone. */
  ghost predicate Gone(l: Ledger, h: TokenHash) {
    h in l.owner && forall id | id in l.rows :: l.rows[id].hash != h
  }

  /** A Revoke that is about to say that there is nothing to revoke is right. */
  ghost predicate NothingLeft(s: State, t: TxId) {
    t in s.txs && s.txs[t].phase.Ready? && s.txs[t].req.RevokeReq? ==> Gone(s.ledger, s.txs[t].req.hash)
  }

  ghost predicate NothingLeftForAny(s: State) {
    forall t {:trigger NothingLeft(s, t)} :: NothingLeft(s, t)
  }

  lemma GoneStaysGone(l: Ledger, op: TableOp, h: TokenHash)
    requires LedgerInv(l) && Allowed(l, op) && Gone(l, h)
    ensures Gone(ApplyOp(l, op), h)
  {
    if op.RotateOp? { LookupSound(l, op.hash); }
  }

  lemma StepKeepsGone(s: State, a: Action, h: TokenHash)
    requires Inv(s) && Enabled(s, a) && Gone(s.ledger, h)
    ensures Gone(Step(s, a).ledger, h)
  {
    if a.Commit? {
      CommitRefines(s, a.t);
      GoneStaysGone(s.ledger, OpOf(s, a.t), h);
    }
  }

  lemma ReadKeepsNothingLeft(s: State, t: TxId)
    requires Inv(s) && Enabled(s, ReadRow(t))
    ensures NothingLeft(Step(s, ReadRow(t)), t)
  {
    assert TxInv(s, t);
  }

  lemma OnlyReadsGetReady(s: State, a: Action)
    requires Enabled(s, a) && !a.Tick? && !a.ReadRow? && a.t in Step(s, a).txs && Step(s, a).txs[a.t].phase.Ready?
    ensures a.t in s.txs && s.txs[a.t] == Step(s, a).txs[a.t] && Step(s, a).ledger == s.ledger
  {
  }

  lemma OwnStepKeepsNothingLeft(s: State, a: Action)
    requires Inv(s) && Enabled(s, a) && !a.Tick? && NothingLeft(s, a.t)
    ensures NothingLeft(Step(s, a), a.t)
  {
    if a.ReadRow? {
      ReadKeepsNothingLeft(s, a.t);
    } else if a.t in Step(s, a).txs && Step(s, a).txs[a.t].phase.Ready? {
      OnlyReadsGetReady(s, a);
    }
  }

  lemma StepKeepsNothingLeft(s: State, a: Action, t: TxId)
    requires Inv(s) && Enabled(s, a) && NothingLeft(s, t)
    ensures NothingLeft(Step(s, a), t)
  {
    if !a.Tick? && a.t == t {
      OwnStepKeepsNothingLeft(s, a);
    } else if t in s.txs {
      StepUndisturbed(s, a, t);
      if s.txs[t].phase.Ready? && s.txs[t].req.RevokeReq? { StepKeepsGone(s, a, s.txs[t].req.hash); }
    } else {
      OutcomesStay(s, a, t);
    }
  }

  lemma {:induction false} RunKeepsNothingLeft(s: State, actions: seq<Action>, end: State)
    requires Inv(s) && NothingLeftForAny(s) && Run(s, actions, end)
    ensures Inv(end) && NothingLeftForAny(end)
    decreases |actions|
  {
    if actions != [] {
      var a := actions[0];
      forall t ensures NothingLeft(Step(s, a), t) {
        assert NothingLeft(s, t);
        StepKeepsNothingLeft(s, a, t);
      }
      StepKeepsInv(s, a);
      RunKeepsNothingLeft(Step(s, a), actions[1..], end);
    }
  }

  lemma UnknownTokenMeans(s: State, a: Action, t: TxId, o: Outcome)
    requires Inv(s) && NothingLeft(s, t) && Decides(s, a, t, o) && s.txs[t].req.RevokeReq? && !s.txs[t].phase.Revoking?
    ensures AnswersRevoke(s.ledger.rows, Step(s, a).ledger.rows, s.txs[t].req.hash, s.txs[t].req.now, o)
  {
    OnlyTheActorDecides(s, a, t, o);
    assert TxInv(s, t);
  }

  lemma RevokeMeans(s: State, a: Action, t: TxId, o: Outcome)
    requires Inv(s) && NothingLeft(s, t) && Decides(s, a, t, o) && s.txs[t].req.RevokeReq?
    ensures AnswersRevoke(s.ledger.rows, Step(s, a).ledger.rows, s.txs[t].req.hash, s.txs[t].req.now, o)
  {
    if s.txs[t].phase.Revoking? {
      OnlyTheActorDecides(s, a, t, o);
      RevokeIsAtomic(s, t);
    } else {
      UnknownTokenMeans(s, a, t, o);
    }
  }

  /** In every run a Revoke answers as the committed rows are at the step that decides its answer, and revokes the whole family. */
  lemma EveryRevokeMeans(clock: Time, actions: seq<Action>, s: State, a: Action, t: TxId, o: Outcome)
    requires Run(Initial(true, clock), actions, s) && Decides(s, a, t, o) && s.txs[t].req.RevokeReq?
    ensures AnswersRevoke(s.ledger.rows, Step(s, a).ledger.rows, s.txs[t].req.hash, s.txs[t].req.now, o)
  {
    InitialInv(clock);
    forall u ensures NothingLeft(Initial(true, clock), u) {}
    RunKeepsNothingLeft(Initial(true, clock), actions, s);
    assert NothingLeft(s, t);
    RevokeMeans(s, a, t, o);
  }

  // ---------------------------------------------------------------- DeleteExpired

  /** Of the rows `ids` every expired one is deleted already or still to come. */
  ghost predicate Sweeps(s: State, t: TxId, before: Time, ids: set<SessionId>) {
    && t in s.txs && s.txs[t].req == CleanupReq(before) && (s.txs[t].phase.Deleting? || s.txs[t].phase.Deleted?)
    && forall id | id in ids && id in s.ledger.rows && s.ledger.rows[id].expires < before ::
         id in s.txs[t].deletes || (s.txs[t].phase.Deleting? && id in s.txs[t].phase.todo)
  }

  lemma OpKeepsExpiry(l: Ledger, op: TableOp, id: SessionId)
    requires LedgerInv(l) && Allowed(l, op) && id in l.place && id in ApplyOp(l, op).rows
    ensures id in l.rows && ApplyOp(l, op).rows[id].expires == l.rows[id].expires
  {
    if op.RotateOp? { LookupSound(l, op.hash); }
  }

  lemma OwnStepKeepsSweeping(s: State, a: Action, before: Time, ids: set<SessionId>)
    requires Inv(s) && Enabled(s, a) && !a.Tick? && Sweeps(s, a.t, before, ids) && a.t in Step(s, a).txs
    ensures Sweeps(Step(s, a), a.t, before, ids)
  {
  }

  lemma OthersKeepSweeping(s: State, a: Action, t: TxId, before: Time, ids: set<SessionId>)
    requires Inv(s) && Enabled(s, a) && Actor(a) != Some(t) && Sweeps(s, t, before, ids) && ids <= s.ledger.place.Keys
    ensures Sweeps(Step(s, a), t, before, ids)
  {
    StepUndisturbed(s, a, t);
    if a.Commit? {
      CommitRefines(s, a.t);
      forall id | id in ids && id in Step(s, a).ledger.rows
        ensures id in s.ledger.rows && Step(s, a).ledger.rows[id].expires == s.ledger.rows[id].expires
      {
        OpKeepsExpiry(s.ledger, OpOf(s, a.t), id);
      }
    }
  }

  lemma PlacesStay(s: State, a: Action)
    requires Inv(s) && Enabled(s, a)
    ensures s.ledger.place.Keys <= Step(s, a).ledger.place.Keys
  {
    if a.Commit? { CommitRefines(s, a.t); }
  }

  lemma EndedStaysEnded(s: State, a: Action, t: TxId)
    requires Inv(s) && Enabled(s, a) && t in s.outcomes
    ensures t in Step(s, a).outcomes
  {
    OutcomesStay(s, a, t);
  }

  lemma {:induction false} RunKeepsEnded(s: State, actions: seq<Action>, end: State, t: TxId)
    requires Inv(s) && Run(s, actions, end) && t in s.outcomes
    ensures t !in end.txs
    decreases |actions|
  {
    if actions != [] {
      EndedStaysEnded(s, actions[0], t);
      StepKeepsInv(s, actions[0]);
      RunKeepsEnded(Step(s, actions[0]), actions[1..], end, t);
    }
  }

  lemma {:induction false} RunKeepsSweeping(s: State, actions: seq<Action>, end: State, t: TxId, before: Time, ids: set<SessionId>)
    requires Inv(s) && Run(s, actions, end) && Sweeps(s, t, before, ids) && ids <= s.ledger.place.Keys && t in end.txs
    ensures Inv(end) && Sweeps(end, t, before, ids)
    decreases |actions|
  {
    if actions != [] {
      var a := actions[0];
      StepKeepsInv(s, a);
      PlacesStay(s, a);
      if Actor(a) == Some(t) {
        if t !in Step(s, a).txs {
          RunKeepsEnded(Step(s, a), actions[1..], end, t);
        } else {
          OwnStepKeepsSweeping(s, a, before, ids);
        }
      } else {
        OthersKeepSweeping(s, a, t, before, ids);
      }
      if t in Step(s, a).txs { RunKeepsSweeping(Step(s, a), actions[1..], end, t, before, ids); }
    }
  }

  lemma DeleteRowsMeans(t: Table, gone: set<SessionId>)
    requires gone <= t.Keys
    ensures DeleteRows(t, gone).Keys == t.Keys - gone && t.Keys - (t.Keys - gone) == gone
    ensures forall id | id in t && id !in gone ::
              DeleteRows(t, gone)[id] == if t[id].replacedBy.Some? && t[id].replacedBy.value in gone then t[id].(replacedBy := None) else t[id]
  {
  }

  lemma CleanupCommits(s: State, t: TxId, before: Time, ids: set<SessionId>)
    requires Inv(s) && Enabled(s, Commit(t)) && Sweeps(s, t, before, ids)
    ensures var gone := s.txs[t].deletes;
            && Step(s, Commit(t)).ledger.rows == DeleteRows(s.ledger.rows, gone)
            && (forall id | id in gone :: id in s.ledger.rows && s.ledger.rows[id].expires < before)
            && (forall id | id in ids && id in s.ledger.rows && s.ledger.rows[id].expires < before :: id in gone)
  {
    CommitRefines(s, t);
    assert TxInv(s, t);
    assert OpOf(s, t) == DeleteOp(before, s.txs[t].deletes);
  }

  lemma StartSweeps(s: State, t: TxId)
    requires Inv(s) && Enabled(s, StartSweep(t)) && s.txs[t].req.CleanupReq?
    ensures s.ledger.rows.Keys <= s.ledger.place.Keys
    ensures Sweeps(Step(s, StartSweep(t)), t, s.txs[t].req.before, s.ledger.rows.Keys)
  {
    assert TxInv(s, t);
    forall id | id in s.ledger.rows ensures id in s.ledger.place { assert RowInv(s.ledger, id); }
  }

  /**
    A DeleteExpired that commits has deleted every row that was committed when its statement began, was then or
    is now expired, and was still there; it deleted no other, and cleared exactly the references to what it deleted.
  */
  lemma CleanupIsThorough(s: State, t: TxId, actions: seq<Action>, end: State)
    requires Inv(s) && Enabled(s, StartSweep(t)) && s.txs[t].req.CleanupReq?
    requires Run(Step(s, StartSweep(t)), actions, end) && Enabled(end, Commit(t))
    ensures var before, rows, rows' := s.txs[t].req.before, end.ledger.rows, Step(end, Commit(t)).ledger.rows;
            && rows'.Keys <= rows.Keys
            && (forall id | id in s.ledger.rows && id in rows && rows[id].expires < before :: id !in rows')
            && (forall id | id in rows && id !in rows' :: rows[id].expires < before)
            && (forall id | id in rows' ::
                  rows'[id] == if rows[id].replacedBy.Some? && rows[id].replacedBy.value in rows.Keys - rows'.Keys
                               then rows[id].(replacedBy := None) else rows[id])
  {
    var before, ids := s.txs[t].req.before, s.ledger.rows.Keys;
    StartSweeps(s, t);
    StepKeepsInv(s, StartSweep(t));
    RunKeepsSweeping(Step(s, StartSweep(t)), actions, end, t, before, ids);
    CleanupCommits(end, t, before, ids);
    DeleteRowsMeans(end.ledger.rows, end.txs[t].deletes);
  }
}
