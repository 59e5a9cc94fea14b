/** What holds in every run of the rotation protocol. */
module RotationSafety {
  import opened Common
  import opened SessionTable
  import opened RotationProtocol
  import opened RotationRefinement

  // ---------------------------------------------------------------- the invariant holds in every run

  lemma OwnSweepKeepsInv(s: State, a: Action)
    requires Inv(s) && Enabled(s, a) && (a.StartSweep? || a.Sweep? || a.ClearReferences?)
    ensures TxInv(Step(s, a), a.t)
  {
    match a
    case StartSweep(t) => StartSweepKeepsOwn(s, t);
    case Sweep(t, id) => SweepKeepsOwn(s, t, id);
    case ClearReferences(t) => ClearKeepsOwn(s, t);
  }

  lemma OwnStepKeepsInv(s: State, a: Action)
    requires Inv(s) && Enabled(s, a) && !a.Tick? && a.t in Step(s, a).txs
    ensures TxInv(Step(s, a), a.t)
  {
    match a
    case Begin(t, req) => BeginKeepsOwn(s, t, req);
    case Find(t) => FindKeepsOwn(s, t);
    case LockFamily(t) => LockFamilyKeepsOwn(s, t);
    case ReadRow(t) => ReadKeepsOwn(s, t);
    case FactoryFails(t) =>
    case Insert(t, minted) => InsertKeepsOwn(s, t, minted);
    case Consume(t) => ConsumeKeepsOwn(s, t);
    case InsertFirst(t) => InsertFirstKeepsOwn(s, t);
    case Commit(t) =>
    case Abort(t) =>
    case _ => OwnSweepKeepsInv(s, a);
  }

  lemma LockKeepsMinting(s: State, a: Action)
    requires Inv(s) && Enabled(s, a) && (a.ReadRow? || a.Sweep? || a.ClearReferences?)
    ensures Minting(Step(s, a))
  {
    match a
    case ReadRow(t) =>
      var found := Lookup(s.ledger.rows, s.txs[t].req.hash);
      if found.Some? { LookupSound(s.ledger, s.txs[t].req.hash); }
    case Sweep(t, id) => assert id in s.ledger.rows ==> RowInv(s.ledger, id);
    case ClearReferences(t) =>
      forall id | id in Referrers(s.ledger.rows, s.txs[t].deletes) ensures id in s.ids { assert RowInv(s.ledger, id); }
  }

  lemma CommitKeepsMinting(s: State, t: TxId)
    requires Inv(s) && Enabled(s, Commit(t))
    ensures Minting(Step(s, Commit(t)))
  {
    assert TxInv(s, t);
    var phase := s.txs[t].phase;
    if phase.Swapped? { assert RowInv(s.ledger, phase.current.id); }
  }

  lemma StepKeepsMinting(s: State, a: Action)
    requires Inv(s) && Enabled(s, a)
    ensures Minting(Step(s, a))
  {
    if a.ReadRow? || a.Sweep? || a.ClearReferences? {
      LockKeepsMinting(s, a);
    } else if a.Commit? {
      CommitKeepsMinting(s, a.t);
    } else if a.InsertFirst? {
      assert TxInv(s, a.t);
    }
  }

  lemma StepKeepsLedger(s: State, a: Action)
    requires Inv(s) && Enabled(s, a)
    ensures LedgerInv(Step(s, a).ledger)
  {
    if a.Commit? {
      CommitRefines(s, a.t);
      OpKeepsInv(s.ledger, OpOf(s, a.t));
    }
  }

  lemma EndingKeepsSettled(s: State, a: Action)
    requires Settled(s) && Enabled(s, a) && (a.Commit? || a.Abort?)
    ensures Settled(Step(s, a))
  {
  }

  lemma SweepingKeepsTxs(s: State, a: Action)
    requires Enabled(s, a) && (a.StartSweep? || a.Sweep? || a.ClearReferences?)
    ensures Step(s, a).txs.Keys == s.txs.Keys
  {
  }

  lemma GoingOnKeepsTxs(s: State, a: Action)
    requires Enabled(s, a) && !a.Begin? && !a.Commit? && !a.Abort?
    ensures Step(s, a).txs.Keys == s.txs.Keys
  {
    if a.StartSweep? || a.Sweep? || a.ClearReferences? { SweepingKeepsTxs(s, a); }
  }

  lemma BeginKeepsSettled(s: State, t: TxId, req: Request)
    requires Settled(s) && Enabled(s, Begin(t, req))
    ensures Settled(Step(s, Begin(t, req)))
  {
  }

  lemma SameTxsSettled(s: State, s': State)
    requires Settled(s) && s'.txs.Keys == s.txs.Keys && s'.outcomes == s.outcomes
    ensures Settled(s')
  {
  }

  lemma GoingOnKeepsSettled(s: State, a: Action)
    requires Settled(s) && Enabled(s, a) && !a.Commit? && !a.Abort?
    ensures Settled(Step(s, a))
  {
    if a.Begin? {
      BeginKeepsSettled(s, a.t, a.req);
    } else {
      GoingOnKeepsTxs(s, a);
      SameTxsSettled(s, Step(s, a));
    }
  }

  lemma StepKeepsSettled(s: State, a: Action)
    requires Settled(s) && Enabled(s, a)
    ensures Settled(Step(s, a))
  {
    if a.Commit? || a.Abort? { EndingKeepsSettled(s, a); } else { GoingOnKeepsSettled(s, a); }
  }

  lemma StepKeepsInv(s: State, a: Action)
    requires Inv(s) && Enabled(s, a)
    ensures Inv(Step(s, a))
  {
    StepKeepsMinting(s, a);
    StepKeepsLedger(s, a);
    StepKeepsSettled(s, a);
    forall u | u in Step(s, a).txs ensures TxInv(Step(s, a), u) { TxsKeepInv(s, a, u); }
  }

  lemma TxsKeepInv(s: State, a: Action, u: TxId)
    requires Inv(s) && Enabled(s, a) && u in Step(s, a).txs
    ensures TxInv(Step(s, a), u)
  {
    if Actor(a) == Some(u) {
      OwnStepKeepsInv(s, a);
    } else {
      StepKeepsOthers(s, a, u);
    }
  }

  lemma {:induction false} RunKeepsInv(s: State, actions: seq<Action>, end: State)
    requires Inv(s) && Run(s, actions, end)
    ensures Inv(end)
    decreases |actions|
  {
    if actions != [] {
      StepKeepsInv(s, actions[0]);
      RunKeepsInv(Step(s, actions[0]), actions[1..], end);
    }
  }

  lemma InitialInv(clock: Time)
    ensures Inv(Initial(true, clock))
  {
  }

  // ---------------------------------------------------------------- the committed table

  /** Each family is wholly unrevoked or wholly revoked. */
  ghost predicate Uniform(rows: Table) {
    forall a, b | a in rows && b in rows && rows[a].family == rows[b].family ::
      rows[a].revoked.Some? == rows[b].revoked.Some?
  }

  /** At most one token of a family has not been consumed. */
  ghost predicate OneCurrent(rows: Table) {
    forall a, b | a in rows && b in rows && rows[a].family == rows[b].family && rows[a].consumed.None? && rows[b].consumed.None? ::
      a == b
  }

  /** `replaced_by` leads to a stored row of the same family, one place further on, and never joins two rows. */
  ghost predicate Linear(l: Ledger) {
    && (forall id | id in l.rows :: id in l.place)
    && (forall id | id in l.rows && l.rows[id].replacedBy.Some? ::
          var next := l.rows[id].replacedBy.value;
          && next in l.rows
          && l.rows[id].consumed.Some?
          && l.rows[next].family == l.rows[id].family
          && l.place[next].at == l.place[id].at + 1)
    && (forall a, b | a in l.rows && b in l.rows && l.rows[a].replacedBy.Some? && l.rows[a].replacedBy == l.rows[b].replacedBy ::
          a == b)
  }

  lemma LedgerIsUniform(l: Ledger)
    requires LedgerInv(l)
    ensures Uniform(l.rows) && OneCurrent(l.rows) && UniqueHashes(l.rows)
  {
    forall a, b | a in l.rows && b in l.rows
      ensures l.rows[a].family == l.rows[b].family ==> l.rows[a].revoked.Some? == l.rows[b].revoked.Some?
      ensures l.rows[a].family == l.rows[b].family && l.rows[a].consumed.None? && l.rows[b].consumed.None? ==> a == b
      ensures l.rows[a].hash == l.rows[b].hash ==> a == b
    {
      assert RowInv(l, a) && RowInv(l, b);
    }
  }

  lemma LedgerIsLinear(l: Ledger)
    requires LedgerInv(l)
    ensures Linear(l)
  {
    forall id | id in l.rows ensures RowInv(l, id) && id in l.place {
      assert RowInv(l, id);
    }
    forall id | id in l.rows && l.rows[id].replacedBy.Some?
      ensures l.rows[id].replacedBy.value in l.rows && Registered(l, l.rows[id].replacedBy.value)
    {
      assert RowInv(l, l.rows[id].replacedBy.value);
    }
  }

  /**
    In every interleaving of Rotate, Revoke, Create and DeleteExpired the committed table keeps every family
    wholly live or wholly revoked, with one current token at the end of one chain.
  */
  lemma EveryRunIsSafe(clock: Time, actions: seq<Action>, end: State)
    requires Run(Initial(true, clock), actions, end)
    ensures Uniform(end.ledger.rows) && OneCurrent(end.ledger.rows) && UniqueHashes(end.ledger.rows)
    ensures Linear(end.ledger)
  {
    InitialInv(clock);
    RunKeepsInv(Initial(true, clock), actions, end);
    LedgerIsUniform(end.ledger);
    LedgerIsLinear(end.ledger);
  }

  // ---------------------------------------------------------------- a family belongs to one user

  ghost predicate OneUser(rows: Table) {
    forall a, b | a in rows && b in rows && rows[a].family == rows[b].family :: rows[a].user == rows[b].user
  }

  lemma OpKeepsOneUser(l: Ledger, op: TableOp)
    requires LedgerInv(l) && Allowed(l, op) && OneUser(l.rows)
    ensures OneUser(ApplyOp(l, op).rows)
  {
    if op.CreateOp? {
      forall id | id in l.rows ensures l.rows[id].family != op.row.family { assert RowInv(l, id); }
    } else if op.RotateOp? {
      LookupSound(l, op.hash);
    }
  }

  lemma {:induction false} RunKeepsOneUser(s: State, actions: seq<Action>, end: State)
    requires Inv(s) && Run(s, actions, end) && OneUser(s.ledger.rows)
    ensures OneUser(end.ledger.rows)
    decreases |actions|
  {
    if actions != [] {
      var a := actions[0];
      if a.Commit? {
        CommitRefines(s, a.t);
        OpKeepsOneUser(s.ledger, OpOf(s, a.t));
      }
      StepKeepsInv(s, a);
      RunKeepsOneUser(Step(s, a), actions[1..], end);
    }
  }

  /** In every run all stored sessions of a family belong to one user. */
  lemma FamiliesHaveOneUser(clock: Time, actions: seq<Action>, end: State)
    requires Run(Initial(true, clock), actions, end)
    ensures OneUser(end.ledger.rows)
  {
    InitialInv(clock);
    RunKeepsOneUser(Initial(true, clock), actions, end);
  }

  /** Every step is one whole allowed operation on the committed table, or leaves it alone. */
  lemma EveryStepIsAtomic(s: State, a: Action)
    requires Inv(s) && Enabled(s, a)
    ensures exists op :: Allowed(s.ledger, op) && Step(s, a).ledger == ApplyOp(s.ledger, op)
  {
    if a.Commit? {
      CommitRefines(s, a.t);
    } else {
      assert Allowed(s.ledger, Keep) && Step(s, a).ledger == ApplyOp(s.ledger, Keep);
    }
  }

  // ---------------------------------------------------------------- a token is rotated at most once

  ghost predicate CommitsRotationOf(s: State, a: Action, h: TokenHash) {
    a.Commit? && a.t in s.txs && s.txs[a.t].phase.Swapped? && s.txs[a.t].req.RotateReq? && s.txs[a.t].req.hash == h
  }

  /** How many rotations of one token commit in a run. */
  ghost function Rotations(s: State, actions: seq<Action>, h: TokenHash): nat
    decreases |actions|
  {
    if actions == [] || !Enabled(s, actions[0]) then 0
    else (if CommitsRotationOf(s, actions[0], h) then 1 else 0) + Rotations(Step(s, actions[0]), actions[1..], h)
  }

  lemma StepCountsRotation(s: State, a: Action, h: TokenHash)
    requires Inv(s) && Enabled(s, a)
    ensures Step(s, a).ledger.rotated[h] == s.ledger.rotated[h] + if CommitsRotationOf(s, a, h) then 1 else 0
  {
    if a.Commit? { assert TxInv(s, a.t); }
  }

  lemma {:induction false} RotationsAreCounted(s: State, actions: seq<Action>, end: State, h: TokenHash)
    requires Inv(s) && Run(s, actions, end)
    ensures end.ledger.rotated[h] == s.ledger.rotated[h] + Rotations(s, actions, h)
    decreases |actions|
  {
    if actions != [] {
      StepCountsRotation(s, actions[0], h);
      StepKeepsInv(s, actions[0]);
      RotationsAreCounted(Step(s, actions[0]), actions[1..], end, h);
    }
  }

  /** Under any number of concurrent presenters a token is exchanged at most once in a whole run. */
  lemma RotatedAtMostOnce(clock: Time, actions: seq<Action>, end: State, h: TokenHash)
    requires Run(Initial(true, clock), actions, end)
    ensures Rotations(Initial(true, clock), actions, h) <= 1
  {
    InitialInv(clock);
    RunKeepsInv(Initial(true, clock), actions, end);
    RotationsAreCounted(Initial(true, clock), actions, end, h);
    assert h in end.ledger.rotated ==> HashInv(end.ledger, h);
  }
}
