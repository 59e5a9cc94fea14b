/** One token family as a small machine. */
module FamilyMachine {
  /*
    What one token family is, seen from outside: a small machine with a current token and past tokens, or
    dead.  The table operations, and with them every run of the protocol, simulate it.
  */

  import opened Common
  import opened SessionTable
  import opened RotationOutcomes
  import opened RotationProtocol
  import opened RotationRefinement
  import opened RotationSafety

  datatype Token = Token(hash: TokenHash, expires: Time)

  /** A live family remembers when each past token was exchanged, until cleanup forgets it. */
  datatype Family =
    | Live(current: Option<Token>, past: map<TokenHash, Time>)
    | Dead

  const UNKNOWN: Family := Live(None, map[])

  datatype Event =
    | Quiet
    | Born(token: Token)
    | Presented(hash: TokenHash, now: Time, next: Option<Token>)
    | Killed
    | Forgotten(hashes: set<TokenHash>)

  /** A token of the family is presented for exchange. */
  function Present(v: Family, h: TokenHash, now: Time, next: Option<Token>): (Family, Outcome) {
    if v.Dead? then (v, Invalid)
    else if h in v.past then
      if now <= v.past[h] + REUSE_GRACE_PERIOD then (v, Conflict) else (Dead, Reused)
    else if v.current.None? || v.current.value.hash != h then (v, Invalid)
    else if now >= v.current.value.expires then (v, Expired)
    else if next.None? then (v, FactoryFailed)
    else (Live(next, v.past[h := now]), Rotated)
  }

  function FamilyStep(v: Family, e: Event): Family {
    match e
    case Quiet => v
    case Born(token) => Live(Some(token), map[])
    case Presented(h, now, next) => Present(v, h, now, next).0
    case Killed => Dead
    case Forgotten(hashes) =>
      match v
      case Dead => Dead
      case Live(current, past) =>
        Live(if current.Some? && current.value.hash in hashes then None else current, past - hashes)
  }

  function After(events: seq<Event>): Family {
    if events == [] then UNKNOWN else FamilyStep(After(events[..|events| - 1]), events[|events| - 1])
  }

  // ---------------------------------------------------------------- abstraction

  predicate IsPast(t: Table, f: FamilyId, h: TokenHash, when: Time, id: SessionId) {
    id in t && t[id].family == f && t[id].hash == h && t[id].consumed == Some(when)
  }

  predicate IsCurrent(t: Table, f: FamilyId, token: Token, id: SessionId) {
    id in t && t[id].family == f && t[id].consumed.None? && Token(t[id].hash, t[id].expires) == token
  }

  predicate RowShown(row: Session, v: Family) {
    match v
    case Dead => row.revoked.Some?
    case Live(current, past) =>
      && row.revoked.None?
      && (row.consumed.None? ==> current == Some(Token(row.hash, row.expires)))
      && (row.consumed.Some? ==> row.hash in past && past[row.hash] == row.consumed.value)
  }

  /** `v` is exactly what the stored rows of family `f` say. */
  ghost predicate Represents(t: Table, f: FamilyId, v: Family) {
    && (forall id {:trigger t[id].family} | id in t && t[id].family == f :: RowShown(t[id], v))
    && (v.Live? ==>
          && (forall h | h in v.past :: exists id :: IsPast(t, f, h, v.past[h], id))
          && (v.current.Some? ==> exists id :: IsCurrent(t, f, v.current.value, id)))
  }

  function FreshToken(factory: Option<Minted>): Option<Token> {
    match factory
    case None => None
    case Some(m) => Some(Token(m.hash, m.expires))
  }

  /** An unknown token, or one of another family, means nothing to this family. */
  ghost predicate Concerns(t: Table, h: TokenHash, f: FamilyId) {
    var row := Lookup(t, h);
    row.None? || row.value.family == f
  }

  lemma PresentSeesTheRow(l: Ledger, f: FamilyId, v: Family, id: SessionId, now: Time, next: Option<Token>)
    requires LedgerInv(l) && Represents(l.rows, f, v) && id in l.rows && l.rows[id].family == f
    ensures var row, answer := l.rows[id], Present(v, l.rows[id].hash, now, next).1;
            match Judge(row, now)
            case Refuse(why) => answer == why
            case Condemn(_) => answer == Reused
            case Accept(_) => answer == if next.None? then FactoryFailed else Rotated
  {
    var row := l.rows[id];
    assert RowInv(l, id);
    if v.Live? && row.hash in v.past {
      var other :| IsPast(l.rows, f, row.hash, v.past[row.hash], other);
      assert RowInv(l, other);
    }
  }

  /** The answer of the table is the answer of the family machine. */
  lemma AnswersAgree(l: Ledger, f: FamilyId, v: Family, h: TokenHash, now: Time, factory: Option<Minted>)
    requires LedgerInv(l) && Represents(l.rows, f, v) && Concerns(l.rows, h, f)
    ensures RotateTable(l.rows, h, now, factory).1 == Present(v, h, now, FreshToken(factory)).1
  {
    if Lookup(l.rows, h).Some? {
      LookupSound(l, h);
      PresentSeesTheRow(l, f, v, Lookup(l.rows, h).value.id, now, FreshToken(factory));
    }
  }

  // ---------------------------------------------------------------- every operation is an event

  /** What a table operation is to family `f`. */
  ghost function EventOf(l: Ledger, op: TableOp, f: FamilyId): Event {
    match op
    case Keep => Quiet
    case CreateOp(row) => if row.family == f then Born(Token(row.hash, row.expires)) else Quiet
    case RotateOp(h, now, m) => if Concerns(l.rows, h, f) then Presented(h, now, FreshToken(Some(m))) else Quiet
    case RevokeOp(g, now) => if g == f then Killed else Quiet
    case DeleteOp(before, ids) => Forgotten(GoneHashes(l.rows, f, ids))
  }

  lemma CreateShown(l: Ledger, f: FamilyId, v: Family, row: Session)
    requires LedgerInv(l) && Represents(l.rows, f, v) && Allowed(l, CreateOp(row))
    ensures Represents(ApplyOp(l, CreateOp(row)).rows, f, FamilyStep(v, EventOf(l, CreateOp(row), f)))
  {
    var rows := l.rows[row.id := row];
    forall id | id in l.rows ensures id != row.id && l.rows[id].family != row.family {
      assert RowInv(l, id);
    }
    if row.family == f {
      assert IsCurrent(rows, f, Token(row.hash, row.expires), row.id);
    } else if v.Live? {
      StillShown(l.rows, rows, f, v);
    }
  }

  /** Rows of other families do not matter. */
  lemma StillShown(t: Table, t': Table, f: FamilyId, v: Family)
    requires Represents(t, f, v)
    requires forall id | id in t && t[id].family == f :: id in t' && t'[id] == t[id]
    requires forall id | id in t' && t'[id].family == f :: id in t && t[id].family == f
    ensures Represents(t', f, v)
  {
    forall id | id in t' && t'[id].family == f ensures RowShown(t'[id], v) { assert t[id].family == f; }
    if v.Live? {
      forall h | h in v.past ensures exists id :: IsPast(t', f, h, v.past[h], id) {
        var id :| IsPast(t, f, h, v.past[h], id);
        assert IsPast(t', f, h, v.past[h], id);
      }
      if v.current.Some? {
        var id :| IsCurrent(t, f, v.current.value, id);
        assert IsCurrent(t', f, v.current.value, id);
      }
    }
  }

  lemma RevokeShown(l: Ledger, f: FamilyId, v: Family, g: FamilyId, now: Time)
    requires LedgerInv(l) && Represents(l.rows, f, v)
    ensures Represents(RevokeRows(l.rows, g, now), f, if g == f then Dead else v)
  {
    if g != f { StillShown(l.rows, RevokeRows(l.rows, g, now), f, v); }
  }

  function GoneHashes(t: Table, f: FamilyId, ids: set<SessionId>): set<TokenHash> {
    set id | id in ids && id in t && t[id].family == f :: t[id].hash
  }

  /** A hash is forgotten exactly when its row is deleted. */
  lemma ForgottenWithItsRow(l: Ledger, f: FamilyId, ids: set<SessionId>, id: SessionId)
    requires LedgerInv(l) && (forall x | x in ids :: x in l.rows) && id in l.rows && l.rows[id].family == f
    ensures id in ids <==> l.rows[id].hash in GoneHashes(l.rows, f, ids)
  {
    assert RowInv(l, id);
    forall other | other in ids && l.rows[other].hash == l.rows[id].hash ensures other == id { assert RowInv(l, other); }
  }

  lemma DeleteShown(l: Ledger, f: FamilyId, v: Family, before: Time, ids: set<SessionId>)
    requires LedgerInv(l) && Represents(l.rows, f, v) && Allowed(l, DeleteOp(before, ids))
    ensures Represents(DeleteRows(l.rows, ids), f, FamilyStep(v, Forgotten(GoneHashes(l.rows, f, ids))))
  {
    var t, t' := l.rows, DeleteRows(l.rows, ids);
    var w := FamilyStep(v, Forgotten(GoneHashes(t, f, ids)));
    forall id | id in t' && t'[id].family == f ensures RowShown(t'[id], w) {
      ForgottenWithItsRow(l, f, ids, id);
      assert RowShown(t[id], v) by { assert t[id].family == f; }
    }
    if v.Live? {
      forall h | h in w.past ensures exists id :: IsPast(t', f, h, w.past[h], id) {
        var id :| IsPast(t, f, h, v.past[h], id);
        ForgottenWithItsRow(l, f, ids, id);
        assert IsPast(t', f, h, w.past[h], id);
      }
      if w.current.Some? {
        var id :| IsCurrent(t, f, v.current.value, id);
        ForgottenWithItsRow(l, f, ids, id);
        assert IsCurrent(t', f, w.current.value, id);
      }
    }
  }

  lemma RotateShown(l: Ledger, f: FamilyId, v: Family, h: TokenHash, now: Time, m: Minted)
    requires LedgerInv(l) && Represents(l.rows, f, v) && Allowed(l, RotateOp(h, now, m))
    ensures Represents(ApplyOp(l, RotateOp(h, now, m)).rows, f, FamilyStep(v, EventOf(l, RotateOp(h, now, m), f)))
  {
    LookupSound(l, h);
    var c := Decide(l.rows, h, now).row;
    var t' := RotateRows(l.rows, c, now, m);
    assert m.id !in l.rows by {
      assert m.id in l.rows ==> RowInv(l, m.id);
    }
    if c.family != f {
      StillShown(l.rows, t', f, v);
    } else {
      RotatedFamilyShown(l, v, c, now, m);
    }
  }

  lemma RotatedFamilyShown(l: Ledger, v: Family, c: Session, now: Time, m: Minted)
    requires LedgerInv(l) && Represents(l.rows, c.family, v)
    requires c.id in l.rows && l.rows[c.id] == c && Judge(c, now).Accept? && m.id !in l.rows
    ensures Represents(RotateRows(l.rows, c, now, m), c.family, Present(v, c.hash, now, Some(Token(m.hash, m.expires))).0)
  {
    var f, t, t' := c.family, l.rows, RotateRows(l.rows, c, now, m);
    PresentSeesTheRow(l, f, v, c.id, now, Some(Token(m.hash, m.expires)));
    var w := Present(v, c.hash, now, Some(Token(m.hash, m.expires))).0;
    assert IsCurrent(t', f, Token(m.hash, m.expires), m.id);
    forall id | id in t && t[id].family == f && id != c.id ensures t[id].consumed.Some? && t[id].hash != c.hash {
      assert RowInv(l, id) && RowInv(l, c.id);
    }
    forall h | h in w.past ensures exists id :: IsPast(t', f, h, w.past[h], id) {
      if h == c.hash {
        assert IsPast(t', f, h, w.past[h], c.id);
      } else {
        var id :| IsPast(t, f, h, v.past[h], id);
        assert IsPast(t', f, h, w.past[h], id);
      }
    }
  }

  lemma OpShown(l: Ledger, f: FamilyId, v: Family, op: TableOp)
    requires LedgerInv(l) && Represents(l.rows, f, v) && Allowed(l, op)
    ensures Represents(ApplyOp(l, op).rows, f, FamilyStep(v, EventOf(l, op, f)))
  {
    match op
    case Keep =>
    case CreateOp(row) => CreateShown(l, f, v, row);
    case RotateOp(h, now, m) => RotateShown(l, f, v, h, now, m);
    case RevokeOp(g, now) => RevokeShown(l, f, v, g, now);
    case DeleteOp(before, ids) => DeleteShown(l, f, v, before, ids);
  }

  lemma RotateElsewhere(l: Ledger, f: FamilyId, v: Family, h: TokenHash, now: Time, factory: Option<Minted>)
    requires LedgerInv(l) && Represents(l.rows, f, v) && !Concerns(l.rows, h, f)
    requires factory.Some? && Decide(l.rows, h, now).Accept? ==> Allowed(l, RotateOp(h, now, factory.value))
    ensures Represents(RotateTable(l.rows, h, now, factory).0, f, v)
  {
    match Decide(l.rows, h, now)
    case Refuse(why) =>
    case Condemn(row) => RevokeShown(l, f, v, row.family, now);
    case Accept(row) => if factory.Some? { RotateShown(l, f, v, h, now, factory.value); }
  }

  /**
    A whole Rotate of a token is its presentation to the token's family, whatever the answer: the answers are
    the same, and the table it leaves shows the state the machine goes to.
  */
  lemma RotateIsPresentation(l: Ledger, f: FamilyId, v: Family, h: TokenHash, now: Time, factory: Option<Minted>)
    requires LedgerInv(l) && Represents(l.rows, f, v) && Concerns(l.rows, h, f)
    requires factory.Some? && Decide(l.rows, h, now).Accept? ==> Allowed(l, RotateOp(h, now, factory.value))
    ensures RotateTable(l.rows, h, now, factory).1 == Present(v, h, now, FreshToken(factory)).1
    ensures Represents(RotateTable(l.rows, h, now, factory).0, f, Present(v, h, now, FreshToken(factory)).0)
  {
    AnswersAgree(l, f, v, h, now, factory);
    match Decide(l.rows, h, now)
    case Refuse(why) =>
    case Condemn(row) => RevokeShown(l, f, v, row.family, now);
    case Accept(row) => if factory.Some? { RotateShown(l, f, v, h, now, factory.value); }
  }

  // ---------------------------------------------------------------- runs

  /** The step after which the answer of a Rotate is certain. */
  ghost predicate Answers(s: State, a: Action) {
    && !a.Tick? && a.t in s.txs && s.txs[a.t].req.RotateReq?
    && exists o :: Decides(s, a, a.t, o)
  }

  /** What a step is to family `f`: a Rotate is one presentation of its token, at the step that decides its answer. */
  ghost function StepEvent(s: State, a: Action, f: FamilyId): Event
    requires Enabled(s, a)
  {
    if Answers(s, a) then
      var h, now := s.txs[a.t].req.hash, s.txs[a.t].req.now;
      if Concerns(s.ledger.rows, h, f) then Presented(h, now, FreshToken(FactoryResult(s, a.t))) else Quiet
    else if a.Commit? then EventOf(s.ledger, OpOf(s, a.t), f)
    else Quiet
  }

  /** The events of family `f` in a run, in order. */
  ghost function Trace(s: State, actions: seq<Action>, f: FamilyId): seq<Event>
    decreases |actions|
  {
    if actions == [] || !Enabled(s, actions[0]) then []
    else [StepEvent(s, actions[0], f)] + Trace(Step(s, actions[0]), actions[1..], f)
  }

  lemma RotateShows(l: Ledger, f: FamilyId, v: Family, h: TokenHash, now: Time, factory: Option<Minted>, event: Event)
    requires LedgerInv(l) && Represents(l.rows, f, v)
    requires factory.Some? && Decide(l.rows, h, now).Accept? ==> Allowed(l, RotateOp(h, now, factory.value))
    requires event == if Concerns(l.rows, h, f) then Presented(h, now, FreshToken(factory)) else Quiet
    ensures Represents(RotateTable(l.rows, h, now, factory).0, f, FamilyStep(v, event))
    ensures Concerns(l.rows, h, f) ==> RotateTable(l.rows, h, now, factory).1 == Present(v, h, now, FreshToken(factory)).1
  {
    if Concerns(l.rows, h, f) {
      RotateIsPresentation(l, f, v, h, now, factory);
    } else {
      RotateElsewhere(l, f, v, h, now, factory);
    }
  }

  /** A deciding step of a Rotate presents its token, and is answered as the machine answers. */
  lemma AnswerShown(s: State, a: Action, f: FamilyId, v: Family, o: Outcome)
    requires Inv(s) && Represents(s.ledger.rows, f, v)
    requires !a.Tick? && Decides(s, a, a.t, o) && s.txs[a.t].req.RotateReq?
    ensures Represents(Step(s, a).ledger.rows, f, FamilyStep(v, StepEvent(s, a, f)))
    ensures var r := s.txs[a.t].req;
            Concerns(s.ledger.rows, r.hash, f) ==> o == Present(v, r.hash, r.now, FreshToken(FactoryResult(s, a.t))).1
  {
    var r := s.txs[a.t].req;
    assert Answers(s, a);
    RotateIsAtomic(s, a, a.t, o);
    if s.txs[a.t].phase.Swapped? { MintedIsFresh(s, a.t); }
    RotateShows(s.ledger, f, v, r.hash, r.now, FactoryResult(s, a.t), StepEvent(s, a, f));
  }

  lemma StepShown(s: State, a: Action, f: FamilyId, v: Family)
    requires Inv(s) && Enabled(s, a) && Represents(s.ledger.rows, f, v)
    ensures Represents(Step(s, a).ledger.rows, f, FamilyStep(v, StepEvent(s, a, f)))
  {
    if Answers(s, a) {
      var o :| Decides(s, a, a.t, o);
      AnswerShown(s, a, f, v, o);
    } else if a.Commit? {
      CommitRefines(s, a.t);
      OpShown(s.ledger, f, v, OpOf(s, a.t));
    }
  }

  lemma {:induction false} RunSimulatesFamily(s: State, actions: seq<Action>, end: State, f: FamilyId, events: seq<Event>)
    requires Inv(s) && Run(s, actions, end) && Represents(s.ledger.rows, f, After(events))
    ensures Represents(end.ledger.rows, f, After(events + Trace(s, actions, f)))
    decreases |actions|
  {
    if actions == [] {
      assert events + [] == events;
    } else {
      var a := actions[0];
      var event, rest := StepEvent(s, a, f), Trace(Step(s, a), actions[1..], f);
      StepKeepsInv(s, a);
      StepShown(s, a, f, After(events));
      assert (events + [event])[..|events|] == events;
      RunSimulatesFamily(Step(s, a), actions[1..], end, f, events + [event]);
      assert events + ([event] + rest) == events + [event] + rest;
    }
  }

  /**
    Through every run of the interleaved protocol each family behaves like the small machine: the rows stored
    at the end show the state the family's events of that run lead to.
  */
  lemma EveryRunSimulatesFamilies(clock: Time, actions: seq<Action>, end: State, f: FamilyId)
    requires Run(Initial(true, clock), actions, end)
    ensures Represents(end.ledger.rows, f, After(Trace(Initial(true, clock), actions, f)))
  {
    var s := Initial(true, clock);
    InitialInv(clock);
    RunSimulatesFamily(s, actions, end, f, []);
    assert [] + Trace(s, actions, f) == Trace(s, actions, f);
  }

  lemma {:induction false} RunReaches(s: State, actions: seq<Action>, end: State, k: nat)
    requires Run(s, actions, end) && k < |actions|
    ensures Run(s, actions[..k], StateAt(s, actions, k)) && Enabled(StateAt(s, actions, k), actions[k])
    decreases k
  {
    if k > 0 {
      RunReaches(Step(s, actions[0]), actions[1..], end, k - 1);
      assert actions[..k][1..] == actions[1..][..k - 1];
    }
  }

  /**
    Every answer a Rotate gets in a run, conflicts, refusals and detected reuse included, is the answer of the
    family machine in the state to which the events before it have led.
  */
  lemma EveryAnswerIsTheFamilys(clock: Time, actions: seq<Action>, end: State, f: FamilyId, k: nat, o: Outcome)
    requires Run(Initial(true, clock), actions, end) && k < |actions| && !actions[k].Tick?
    requires var s, t := StateAt(Initial(true, clock), actions, k), actions[k].t;
             Decides(s, actions[k], t, o) && s.txs[t].req.RotateReq? && Concerns(s.ledger.rows, s.txs[t].req.hash, f)
    ensures var s, t := StateAt(Initial(true, clock), actions, k), actions[k].t;
            o == Present(After(Trace(Initial(true, clock), actions[..k], f)), s.txs[t].req.hash, s.txs[t].req.now,
                         FreshToken(FactoryResult(s, t))).1
  {
    var start := Initial(true, clock);
    var s := StateAt(start, actions, k);
    RunReaches(start, actions, end, k);
    InitialInv(clock);
    RunKeepsInv(start, actions[..k], s);
    EveryRunSimulatesFamilies(clock, actions[..k], s, f);
    AnswerShown(s, actions[k], f, After(Trace(start, actions[..k], f)), o);
  }

  // ---------------------------------------------------------------- born once, dead for good

  lemma FamiliesStay(s: State, a: Action, f: FamilyId)
    requires Inv(s) && Enabled(s, a) && f in s.ledger.chain
    ensures f in Step(s, a).ledger.chain && !StepEvent(s, a, f).Born?
  {
    if a.Commit? {
      CommitRefines(s, a.t);
    }
  }

  /** A family that exists is not born again. */
  lemma {:induction false} BornOnce(s: State, actions: seq<Action>, end: State, f: FamilyId)
    requires Inv(s) && Run(s, actions, end) && f in s.ledger.chain
    ensures forall e | e in Trace(s, actions, f) :: !e.Born?
    decreases |actions|
  {
    if actions != [] {
      FamiliesStay(s, actions[0], f);
      StepKeepsInv(s, actions[0]);
      BornOnce(Step(s, actions[0]), actions[1..], end, f);
    }
  }

  /** A dead family is dead for good: a family is born only once. */
  lemma {:induction false} DeadIsFinal(events: seq<Event>, more: seq<Event>)
    requires After(events) == Dead && forall e | e in more :: !e.Born?
    ensures After(events + more) == Dead
    decreases |more|
  {
    if more == [] {
      assert events + more == events;
    } else {
      var n := |more| - 1;
      DeadIsFinal(events, more[..n]);
      assert (events + more)[..|events| + n] == events + more[..n];
    }
  }
}
