/** What callers are told, and when it was true. */
module RotationOutcomes {
  import opened Common
  import opened SessionTable
  import opened RotationProtocol
  import opened RotationRefinement
  import opened RotationSafety

  // ---------------------------------------------------------------- the deciding step

  /** The answer a transaction will give or has given. */
  function Decided(s: State, t: TxId): Option<Outcome> {
    if t in s.outcomes then Some(s.outcomes[t])
    else if t in s.txs && s.txs[t].phase.RollingBack? then Some(s.txs[t].phase.outcome)
    else None
  }

  function FactoryResult(s: State, t: TxId): Option<Minted>
    requires t in s.txs
  {
    if s.txs[t].phase.Swapped? then Some(s.txs[t].phase.minted) else None
  }

  ghost predicate Decides(s: State, a: Action, t: TxId, o: Outcome) {
    && Enabled(s, a)
    && t in s.txs
    && Decided(s, t).None?
    && Decided(Step(s, a), t) == Some(o)
    && o != Unavailable
  }

  lemma OnlyTheActorDecides(s: State, a: Action, t: TxId, o: Outcome)
    requires Inv(s) && Decides(s, a, t, o)
    ensures Actor(a) == Some(t)
  {
    if Actor(a) != Some(t) {
      StepUndisturbed(s, a, t);
    }
  }

  /** The table as the deciding step sees it answers for the row that `t` has locked. */
  lemma LockedRowDecides(s: State, t: TxId, c: Session)
    requires Inv(s) && t in s.txs && s.txs[t].req.RotateReq? && Pinned(s, t, c)
    ensures Lookup(s.ledger.rows, s.txs[t].req.hash) == Some(c)
  {
    HashFinds(s.ledger, c.id);
  }

  lemma RotateCommitDecides(s: State, t: TxId)
    requires Inv(s) && Enabled(s, Commit(t)) && s.txs[t].req.RotateReq?
    ensures (Record(s.ledger, s.txs[t]).rows, CommitOutcome(s.txs[t]))
         == RotateTable(s.ledger.rows, s.txs[t].req.hash, s.txs[t].req.now, FactoryResult(s, t))
  {
    assert TxInv(s, t);
    LockedRowDecides(s, t, s.txs[t].phase.current);
    CommitRefines(s, t);
  }

  /**
    At the step that decides a Rotate, its answer and its whole effect on the committed table are those of
    one undisturbed Rotate on the table as it stands at that step.
  */
  lemma RotateIsAtomic(s: State, a: Action, t: TxId, o: Outcome)
    requires Inv(s) && Decides(s, a, t, o) && s.txs[t].req.RotateReq?
    ensures (Step(s, a).ledger.rows, o)
         == RotateTable(s.ledger.rows, s.txs[t].req.hash, s.txs[t].req.now, FactoryResult(s, t))
  {
    OnlyTheActorDecides(s, a, t, o);
    assert TxInv(s, t);
    if a.Commit? {
      RotateCommitDecides(s, t);
    } else if a.FactoryFails? {
      LockedRowDecides(s, t, s.txs[t].phase.current);
    }
  }

  lemma MintedIsFresh(s: State, t: TxId)
    requires Inv(s) && t in s.txs && s.txs[t].req.RotateReq? && s.txs[t].phase.Swapped?
    ensures Allowed(s.ledger, RotateOp(s.txs[t].req.hash, s.txs[t].req.now, s.txs[t].phase.minted))
    ensures s.txs[t].phase.minted.id !in s.ledger.rows
  {
    RotateAllowed(s, t);
    LockedRowDecides(s, t, s.txs[t].phase.current);
    var id := s.txs[t].phase.minted.id;
    assert id in s.ledger.rows ==> RowInv(s.ledger, id);
  }

  lemma TableIsKeyed(l: Ledger)
    requires LedgerInv(l)
    ensures WellKeyed(l.rows) && UniqueHashes(l.rows)
  {
    forall id | id in l.rows ensures l.rows[id].id == id { assert RowInv(l, id); }
    LedgerIsUniform(l);
  }

  /**
    What a deciding step of a Rotate does to the committed rows and answers, column by column: the conflict of
    30 seconds, the reuse after them, the refusals, and the row that takes over from an exchanged one.
  */
  lemma RotateMeans(s: State, a: Action, t: TxId, o: Outcome)
    requires Inv(s) && Decides(s, a, t, o) && s.txs[t].req.RotateReq?
    ensures AnswersRotate(s.ledger.rows, Step(s, a).ledger.rows, s.txs[t].req.hash, s.txs[t].req.now, FactoryResult(s, t), o)
  {
    RotateIsAtomic(s, a, t, o);
    TableIsKeyed(s.ledger);
    if s.txs[t].phase.Swapped? { MintedIsFresh(s, t); }
    RotateTableAnswers(s.ledger.rows, s.txs[t].req.hash, s.txs[t].req.now, FactoryResult(s, t));
  }

  lemma RevokeCommitDecides(s: State, t: TxId)
    requires Inv(s) && Enabled(s, Commit(t)) && s.txs[t].req.RevokeReq? && s.txs[t].phase.Revoking?
    ensures (Record(s.ledger, s.txs[t]).rows, Revoked) == RevokeTable(s.ledger.rows, s.txs[t].req.hash, s.txs[t].req.now)
  {
    assert TxInv(s, t);
    HashFinds(s.ledger, s.txs[t].phase.current.id);
    CommitRefines(s, t);
  }

  /** The same for a Revoke that found its token: it revokes the family as it stands when it commits. */
  lemma RevokeIsAtomic(s: State, t: TxId)
    requires Inv(s) && Enabled(s, Commit(t)) && s.txs[t].req.RevokeReq? && s.txs[t].phase.Revoking?
    ensures var s' := Step(s, Commit(t));
            && s'.outcomes[t] == Revoked
            && AnswersRevoke(s.ledger.rows, s'.ledger.rows, s.txs[t].req.hash, s.txs[t].req.now, Revoked)
            && s.txs[t].phase.current.family in s'.ledger.dead
            && forall id | id in s'.ledger.rows && s'.ledger.rows[id].family == s.txs[t].phase.current.family ::
                 s'.ledger.rows[id].revoked.Some?
  {
    RevokeCommitDecides(s, t);
    TableIsKeyed(s.ledger);
    RevokeTableAnswers(s.ledger.rows, s.txs[t].req.hash, s.txs[t].req.now);
    assert TxInv(s, t);
    StepKeepsLedger(s, Commit(t));
    var m := Record(s.ledger, s.txs[t]);
    forall id | id in m.rows && m.rows[id].family == s.txs[t].phase.current.family ensures m.rows[id].revoked.Some? {
      assert RowInv(m, id);
    }
  }

  /** Only refusals and a failing factory are decided before the commit, and then nothing is written. */
  lemma DecisionIsFinal(s: State, a: Action, t: TxId)
    requires Inv(s) && Enabled(s, a) && Decided(s, t).Some?
    ensures Decided(Step(s, a), t) == Decided(s, t)
    ensures Actor(a) == Some(t) ==> Step(s, a).ledger == s.ledger
  {
    if t in s.txs && Actor(a) != Some(t) {
      StepUndisturbed(s, a, t);
    }
  }

  // ---------------------------------------------------------------- whole runs

  ghost function StateAt(s: State, actions: seq<Action>, k: nat): State
    requires k <= |actions|
    decreases k
  {
    if k == 0 || !Enabled(s, actions[0]) then s else StateAt(Step(s, actions[0]), actions[1..], k - 1)
  }

  predicate BeginsOnly(actions: seq<Action>, t: TxId, req: Request) {
    forall i | 0 <= i < |actions| && actions[i].Begin? && actions[i].t == t :: actions[i].req == req
  }

  /** At one instant of the run, while it was in progress, the table answered `o` and changed accordingly. */
  ghost predicate TookEffect(s: State, actions: seq<Action>, k: nat, t: TxId, h: TokenHash, now: Time, o: Outcome, factory: Option<Minted>) {
    && k < |actions|
    && t in StateAt(s, actions, k).txs
    && (StateAt(s, actions, k + 1).ledger.rows, o) == RotateTable(StateAt(s, actions, k).ledger.rows, h, now, factory)
  }

  lemma DecidedNow(s: State, actions: seq<Action>, end: State, t: TxId, h: TokenHash, now: Time)
    requires Inv(s) && Run(s, actions, end) && actions != []
    requires Decided(s, t).None? && t in s.txs && s.txs[t].req == RotateReq(h, now)
    requires Decided(Step(s, actions[0]), t).Some? && t in end.outcomes && end.outcomes[t] != Unavailable
    ensures TookEffect(s, actions, 0, t, h, now, end.outcomes[t], FactoryResult(s, t))
  {
    var a := actions[0];
    StepKeepsInv(s, a);
    FinalForTheRun(Step(s, a), actions[1..], end, t);
    RotateIsAtomic(s, a, t, end.outcomes[t]);
    assert StateAt(s, actions, 1) == StateAt(Step(s, a), actions[1..], 0);
  }

  lemma DecidedLater(s: State, actions: seq<Action>, k: nat, t: TxId, h: TokenHash, now: Time, o: Outcome, factory: Option<Minted>)
    requires actions != [] && Enabled(s, actions[0])
    requires TookEffect(Step(s, actions[0]), actions[1..], k, t, h, now, o, factory)
    ensures TookEffect(s, actions, k + 1, t, h, now, o, factory)
  {
    assert StateAt(s, actions, k + 1) == StateAt(Step(s, actions[0]), actions[1..], k);
    assert StateAt(s, actions, k + 2) == StateAt(Step(s, actions[0]), actions[1..], k + 1);
  }

  lemma NotDecidedAtBegin(s: State, a: Action, t: TxId)
    requires Inv(s) && Enabled(s, a) && t !in s.txs && t !in s.outcomes
    ensures Decided(Step(s, a), t).None?
  {
    OutcomesStay(s, a, t);
  }

  /**
    Every Rotate that answers at all answers as one undisturbed Rotate on the committed table of some
    instant while it was running, and that instant is where its effect appears.
  */
  lemma {:induction false} RotateIsLinearizable(
      s: State, actions: seq<Action>, end: State, t: TxId, h: TokenHash, now: Time)
      returns (k: nat, factory: Option<Minted>)
    requires Inv(s) && Run(s, actions, end)
    requires Decided(s, t).None? && (t in s.txs ==> s.txs[t].req == RotateReq(h, now))
    requires BeginsOnly(actions, t, RotateReq(h, now))
    requires t in end.outcomes && end.outcomes[t] != Unavailable
    ensures TookEffect(s, actions, k, t, h, now, end.outcomes[t], factory)
    decreases |actions|
  {
    var a := actions[0];
    if t !in s.txs { NotDecidedAtBegin(s, a, t); }
    if Decided(Step(s, a), t).Some? {
      k, factory := 0, FactoryResult(s, t);
      DecidedNow(s, actions, end, t, h, now);
    } else {
      StepKeepsInv(s, a);
      RequestStays(s, a, t, RotateReq(h, now));
      var j: nat;
      j, factory := RotateIsLinearizable(Step(s, a), actions[1..], end, t, h, now);
      k := j + 1;
      DecidedLater(s, actions, j, t, h, now, end.outcomes[t], factory);
    }
  }

  lemma RequestStays(s: State, a: Action, t: TxId, req: Request)
    requires Inv(s) && Enabled(s, a) && (t in s.txs ==> s.txs[t].req == req)
    requires a.Begin? && a.t == t ==> a.req == req
    ensures t in Step(s, a).txs ==> Step(s, a).txs[t].req == req
  {
    if t in s.txs && Actor(a) != Some(t) {
      StepUndisturbed(s, a, t);
    }
  }

  lemma {:induction false} FinalForTheRun(s: State, actions: seq<Action>, end: State, t: TxId)
    requires Inv(s) && Run(s, actions, end) && Decided(s, t).Some?
    ensures Decided(end, t) == Decided(s, t)
    decreases |actions|
  {
    if actions != [] {
      DecisionIsFinal(s, actions[0], t);
      StepKeepsInv(s, actions[0]);
      FinalForTheRun(Step(s, actions[0]), actions[1..], end, t);
    }
  }

  // ---------------------------------------------------------------- a revoked family stays dead

  /** `t` presents a token of a dead family and has been told nothing but Invalid. */
  ghost predicate Rejected(s: State, t: TxId, h: TokenHash) {
    && (t in s.txs ==>
          && s.txs[t].req.RotateReq? && s.txs[t].req.hash == h
          && (|| s.txs[t].phase.Begun? || s.txs[t].phase.Found? || s.txs[t].phase.Locked?
              || s.txs[t].phase == RollingBack(Invalid)))
    && (t in s.outcomes ==> s.outcomes[t] == Invalid || s.outcomes[t] == Unavailable)
  }

  lemma DeadStaysDead(s: State, a: Action, f: FamilyId, h: TokenHash)
    requires Inv(s) && Enabled(s, a) && f in s.ledger.dead && KnownFamily(s, h, f)
    ensures f in Step(s, a).ledger.dead && KnownFamily(Step(s, a), h, f)
  {
    if a.Commit? {
      CommitRefines(s, a.t);
      assert Placed(s.ledger, s.ledger.owner[h]);
      if OpOf(s, a.t).RotateOp? { LookupSound(s.ledger, OpOf(s, a.t).hash); }
    }
  }

  lemma DeadRowReadsInvalid(s: State, t: TxId, f: FamilyId, h: TokenHash)
    requires Inv(s) && Enabled(s, ReadRow(t)) && f in s.ledger.dead && KnownFamily(s, h, f)
    requires s.txs[t].req.RotateReq? && s.txs[t].req.hash == h
    ensures ReadPhase(s.txs[t].req, Lookup(s.ledger.rows, h)) == RollingBack(Invalid)
  {
    if Lookup(s.ledger.rows, h).Some? { LookupSound(s.ledger, h); }
  }

  lemma OwnStepIsRejected(s: State, a: Action, f: FamilyId, h: TokenHash)
    requires Inv(s) && Enabled(s, a) && f in s.ledger.dead && KnownFamily(s, h, f)
    requires !a.Tick? && a.t in s.txs && Rejected(s, a.t, h)
    ensures Rejected(Step(s, a), a.t, h)
  {
    if a.ReadRow? { DeadRowReadsInvalid(s, a.t, f, h); }
  }

  lemma DeadTokenIsRejected(s: State, a: Action, f: FamilyId, t: TxId, h: TokenHash)
    requires Inv(s) && Enabled(s, a) && f in s.ledger.dead && KnownFamily(s, h, f)
    requires Rejected(s, t, h)
    requires a.Begin? && a.t == t ==> a.req.RotateReq? && a.req.hash == h
    ensures Rejected(Step(s, a), t, h)
  {
    if t in s.txs && Actor(a) == Some(t) {
      OwnStepIsRejected(s, a, f, h);
    } else if t in s.txs {
      StepUndisturbed(s, a, t);
      OutcomesStay(s, a, t);
    } else {
      OutcomesStay(s, a, t);
    }
  }

  lemma OutcomesStayAtEnd(s: State, a: Action, t: TxId)
    requires Settled(s) && Enabled(s, a) && (a.Commit? || a.Abort?) && (t in s.txs ==> Actor(a) != Some(t))
    ensures t in Step(s, a).outcomes <==> t in s.outcomes
    ensures t in s.outcomes ==> Step(s, a).outcomes[t] == s.outcomes[t]
    ensures t !in s.txs ==> t !in Step(s, a).txs
  {
  }

  lemma OnlyBeginAddsTxs(s: State, a: Action, t: TxId)
    requires Enabled(s, a) && !a.Commit? && !a.Abort? && t !in s.txs && t in Step(s, a).txs
    ensures a.Begin? && a.t == t && Step(s, a).txs[t] == Tx(a.req, Begun, map[], {})
  {
  }

  lemma OutcomesStay(s: State, a: Action, t: TxId)
    requires Settled(s) && Enabled(s, a) && (t in s.txs ==> Actor(a) != Some(t))
    ensures t in Step(s, a).outcomes <==> t in s.outcomes
    ensures t in s.outcomes ==> Step(s, a).outcomes[t] == s.outcomes[t]
    ensures t !in s.txs && t in Step(s, a).txs ==> a.Begin? && a.t == t && Step(s, a).txs[t] == Tx(a.req, Begun, map[], {})
  {
    if a.Commit? || a.Abort? {
      OutcomesStayAtEnd(s, a, t);
    } else if t !in s.txs && t in Step(s, a).txs {
      OnlyBeginAddsTxs(s, a, t);
    }
  }

  /**
    Once a revocation of a family has committed, no stored row of it is live, and every Rotate that begins
    later with any token ever issued to it answers Invalid (or fails and is rolled back).
  */
  lemma {:induction false} RevokedForever(
      s: State, actions: seq<Action>, end: State, f: FamilyId, t: TxId, h: TokenHash)
    requires Inv(s) && Run(s, actions, end)
    requires f in s.ledger.dead && KnownFamily(s, h, f) && Rejected(s, t, h)
    requires forall i | 0 <= i < |actions| && actions[i].Begin? && actions[i].t == t ::
               actions[i].req.RotateReq? && actions[i].req.hash == h
    ensures forall id | id in end.ledger.rows && end.ledger.rows[id].family == f :: end.ledger.rows[id].revoked.Some?
    ensures t in end.outcomes ==> end.outcomes[t] == Invalid || end.outcomes[t] == Unavailable
    decreases |actions|
  {
    if actions == [] {
      forall id | id in s.ledger.rows && s.ledger.rows[id].family == f ensures s.ledger.rows[id].revoked.Some? {
        assert RowInv(s.ledger, id);
      }
    } else {
      var a := actions[0];
      StepKeepsInv(s, a);
      DeadStaysDead(s, a, f, h);
      DeadTokenIsRejected(s, a, f, t, h);
      RevokedForever(Step(s, a), actions[1..], end, f, t, h);
    }
  }
}
