/** The session repository and service. */
module SessionService {
  /*
    The session repository and the session service as the code writes them: one transaction's statements in
    order, the `committed` flag and the deferred rollback, and the factory closure that hands the new token
    pair back to Refresh (internal/feature/auth/session_repository.go:30-199, session.go:95-189).

    The methods run alone here; `RotationOutcomes` shows that interleaved transactions give the same answers.
  */

  import opened Common
  import opened SessionTable

  /** The statement at which the storage fails, if any. */
  datatype Fault = NoFault | AtBegin | AtFind | AtFamilyLock | AtRowLock | AtInsert | AtConsume | AtRevoke | AtCommit

  class SessionRepository {
    var rows: Table

    constructor ()
      ensures rows == map[]
    {
      rows := map[];
    }

    method SelectByTokenHash(h: TokenHash) returns (found: Option<Session>)
      requires UniqueHashes(rows)
      ensures found == Lookup(rows, h)
    {
      if id :| id in rows && rows[id].hash == h {
        LookupFinds(rows, id);
        found := Some(rows[id]);
      } else {
        found := None;
      }
    }

    /** The primary key and the unique hash are the only constraints an insert can violate. */
    predicate IsFree(id: SessionId, hash: TokenHash)
      reads this
    {
      id !in rows && forall other | other in rows :: rows[other].hash != hash
    }

    method Create(row: Session, fault: Fault) returns (outcome: Outcome)
      requires UniqueHashes(rows) && Unused(row)
      modifies this
      ensures outcome == Created <==> old(IsFree(row.id, row.hash)) && fault == NoFault
      ensures rows == if outcome == Created then old(rows)[row.id := row] else old(rows)
      ensures UniqueHashes(rows)
    {
      if fault != NoFault || !IsFree(row.id, row.hash) {
        return Unavailable;
      }
      rows := rows[row.id := row];
      outcome := Created;
    }

    /**
      `minted` is what the factory returns if it is called; `called` says whether it was.  Whatever happens
      the table is either as one whole Rotate leaves it or untouched.
    */
    method Rotate(h: TokenHash, now: Time, minted: Option<Minted>, fault: Fault)
      returns (outcome: Outcome, called: bool)
      requires UniqueHashes(rows) && WellKeyed(rows)
      modifies this
      ensures called <==> Decide(old(rows), h, now).Accept? && fault !in {AtBegin, AtFind, AtFamilyLock, AtRowLock}
      ensures outcome != Unavailable ==> AnswersRotate(old(rows), rows, h, now, minted, outcome)
      ensures outcome != Unavailable ==> (rows, outcome) == RotateTable(old(rows), h, now, minted)
      ensures outcome == Unavailable ==> rows == old(rows)
      ensures outcome == Unavailable ==> fault != NoFault || (called && minted.Some? && !old(IsFree(minted.value.id, minted.value.hash)))
      ensures outcome == Rotated ==> fault in {NoFault, AtRevoke} && old(IsFree(minted.value.id, minted.value.hash))
      ensures fault == AtRevoke && outcome == Unavailable && called ==> minted.Some? && !old(IsFree(minted.value.id, minted.value.hash))
      ensures UniqueHashes(rows) && WellKeyed(rows)
    {
      called := false;
      if fault == AtBegin { return Unavailable, called; }
      var before := rows;
      var committed := false;

      outcome, called, committed := RotateInTransaction(h, now, minted, fault);

      if !committed {
        rows := before;  // the deferred rollback
      }
      if outcome != Unavailable { RotateTableAnswers(before, h, now, minted); }
    }

    method RotateInTransaction(h: TokenHash, now: Time, minted: Option<Minted>, fault: Fault)
      returns (outcome: Outcome, called: bool, committed: bool)
      requires UniqueHashes(rows) && WellKeyed(rows)
      modifies this
      ensures called <==> Decide(old(rows), h, now).Accept? && fault !in {AtFind, AtFamilyLock, AtRowLock}
      ensures committed ==> (rows, outcome) == RotateTable(old(rows), h, now, minted) && outcome in {Rotated, Reused}
      ensures !committed && outcome != Unavailable ==> (old(rows), outcome) == RotateTable(old(rows), h, now, minted)
      ensures outcome == Unavailable ==> !committed
      ensures outcome == Unavailable ==> fault != NoFault || (called && minted.Some? && !old(IsFree(minted.value.id, minted.value.hash)))
      ensures outcome == Rotated ==> fault in {NoFault, AtRevoke, AtBegin} && old(IsFree(minted.value.id, minted.value.hash))
      ensures fault == AtRevoke && outcome == Unavailable && called ==> minted.Some? && !old(IsFree(minted.value.id, minted.value.hash))
      ensures committed ==> UniqueHashes(rows) && WellKeyed(rows)
    {
      called, committed := false, false;
      if fault == AtFind { return Unavailable, called, committed; }
      var family := SelectByTokenHash(h);
      if family.None? { return Invalid, called, committed; }
      if fault == AtFamilyLock || fault == AtRowLock { return Unavailable, called, committed; }
      var found := SelectByTokenHash(h);
      if found.None? { return Invalid, called, committed; }
      var current := found.value;

      if current.revoked.Some? { return Invalid, called, committed; }
      if current.consumed.Some? {
        if !(now > current.consumed.value + REUSE_GRACE_PERIOD) { return Conflict, called, committed; }
        if fault == AtRevoke { return Unavailable, called, committed; }
        rows := RevokeRows(rows, current.family, now);
        if fault == AtCommit { return Unavailable, called, committed; }
        committed := true;
        return Reused, called, committed;
      }
      if !(now < current.expires) { return Expired, called, committed; }

      called := true;
      if minted.None? { return FactoryFailed, called, committed; }
      var next := Successor(current, minted.value);
      if fault == AtInsert || !IsFree(next.id, next.hash) { return Unavailable, called, committed; }
      rows := rows[next.id := next];
      if fault == AtConsume { return Unavailable, called, committed; }
      rows := rows[current.id := Consumed(current, now, next.id)];
      if fault == AtCommit { return Unavailable, called, committed; }
      committed := true;
      outcome := Rotated;
    }

    method Revoke(h: TokenHash, now: Time, fault: Fault) returns (outcome: Outcome)
      requires UniqueHashes(rows)
      modifies this
      ensures outcome != Unavailable ==> AnswersRevoke(old(rows), rows, h, now, outcome)
      ensures outcome == Unavailable ==> rows == old(rows) && fault != NoFault
      ensures UniqueHashes(rows)
    {
      if fault == AtBegin || fault == AtFind { return Unavailable; }
      RevokeTableAnswers(rows, h, now);
      var family := SelectByTokenHash(h);
      if family.None? { return NothingToRevoke; }
      if fault == AtFamilyLock || fault == AtRowLock { return Unavailable; }
      var current := SelectByTokenHash(h);
      if current.None? { return NothingToRevoke; }
      if fault == AtRevoke || fault == AtCommit { return Unavailable; }
      rows := RevokeRows(rows, current.value.family, now);
      outcome := Revoked;
    }

    /** One statement: rows that had been replaced by a deleted one lose the reference. None is an error, and then nothing is deleted. */
    method DeleteExpired(before: Time, fails: bool) returns (deleted: Option<nat>)
      modifies this
      ensures deleted.None? <==> fails
      ensures deleted.None? ==> rows == old(rows)
      ensures deleted.Some? ==>
                && (forall id :: id in rows <==> id in old(rows) && before <= old(rows)[id].expires)
                && deleted.value == |old(rows)| - |rows|
                && forall id | id in rows ::
                     rows[id] == if old(rows)[id].replacedBy.Some? && old(rows)[id].replacedBy.value in old(rows).Keys - rows.Keys
                                 then old(rows)[id].(replacedBy := None) else old(rows)[id]
    {
      if fails { return None; }
      var expired := ExpiredIds(rows, before);
      DeleteRowsFacts(rows, expired);
      assert rows.Keys - (rows.Keys - expired) == expired;
      rows := DeleteRows(rows, expired);
      deleted := Some(|expired|);
    }
  }

  function ExpiredIds(t: Table, before: Time): set<SessionId> {
    set id | id in t && t[id].expires < before
  }

  lemma DeleteRowsFacts(t: Table, gone: set<SessionId>)
    requires gone <= t.Keys
    ensures DeleteRows(t, gone).Keys == t.Keys - gone
    ensures |gone| == |t| - |DeleteRows(t, gone)|
    ensures forall id | id in DeleteRows(t, gone) :: DeleteRows(t, gone)[id] == Unlink(t[id], gone)
  {
    var rest := DeleteRows(t, gone);
    assert rest.Keys == t.Keys - gone;
    assert |t.Keys| == |t| && |rest.Keys| == |rest|;
    assert |t.Keys - gone| == |t.Keys| - |gone|;
  }

  // ---------------------------------------------------------------- session.go

  datatype RawToken = Empty | Opaque(bits: nat)

  datatype TokenPair = TokenPair(access: nat, refresh: RawToken, expires: Time)

  /** Stands for SHA-256 of a random token: distinct tokens have distinct hashes. */
  function HashToken(raw: RawToken): TokenHash
    requires raw.Opaque?
  {
    raw.bits
  }

  lemma HashesTellTokensApart(a: RawToken, b: RawToken)
    requires a.Opaque? && b.Opaque? && HashToken(a) == HashToken(b)
    ensures a == b
  {
  }

  /** What the random source and the JWT signer return for one issue. */
  datatype Entropy = Entropy(id: Option<SessionId>, family: Option<FamilyId>, token: Option<RawToken>, access: Option<nat>)

  /** Every source a new session of an existing family needs. */
  predicate Delivers(e: Entropy) {
    e.id.Some? && e.token.Some? && e.token.value.Opaque? && e.access.Some?
  }

  /** A row of this token is live, unconsumed and not expired. */
  ghost predicate IsAccepted(t: Table, h: TokenHash, now: Time) {
    exists id :: id in t && t[id].hash == h && t[id].revoked.None? && t[id].consumed.None? && now < t[id].expires
  }

  predicate RowSays(row: Session, now: Time, v: Verdict) {
    if row.consumed.Some? then (if now <= row.consumed.value + 30_000_000_000 then v == Refuse(Conflict) else v.Condemn?)
    else if row.expires <= now then v == Refuse(Expired)
    else v.Accept?
  }

  /** What the row of a token that is not revoked says about the answer. */
  lemma RowDecides(t: Table, h: TokenHash, now: Time, id: SessionId)
    requires UniqueHashes(t) && id in t && t[id].hash == h && t[id].revoked.None?
    ensures RowSays(t[id], now, Decide(t, h, now))
  {
    LookupFinds(t, id);
  }

  lemma AcceptanceMeans(t: Table, h: TokenHash, now: Time)
    requires UniqueHashes(t)
    ensures Decide(t, h, now).Accept? <==> IsAccepted(t, h, now)
  {
    if id :| id in t && t[id].hash == h { LookupFinds(t, id); }
  }

  datatype ServiceError = RefreshRefused(why: Outcome) | IssueFailed | SessionUnavailable

  class SessionManager {
    const sessions: SessionRepository
    const refreshTTL: Time

    constructor (sessions: SessionRepository, refreshTTL: Time)
      ensures this.sessions == sessions && this.refreshTTL == refreshTTL
    {
      this.sessions, this.refreshTTL := sessions, refreshTTL;
    }

    /** The values newRefreshSession and the signer produce, if every source delivers. */
    function Draw(e: Entropy, now: Time, needFamily: bool): (r: Option<Minted>)
      ensures r.Some? <==> Delivers(e) && (needFamily ==> e.family.Some?)
      ensures r.Some? ==> r.value == Minted(e.id.value, HashToken(e.token.value), now + refreshTTL)
    {
      if e.id.Some? && (needFamily ==> e.family.Some?) && e.token.Some? && e.token.value.Opaque? && e.access.Some?
      then Some(Minted(e.id.value, HashToken(e.token.value), now + refreshTTL))
      else None
    }

    /** The token a caller receives is the hash of a live, unconsumed row; otherwise nothing was stored. */
    method Issue(user: int, now: Time, e: Entropy, fault: Fault) returns (r: Result<TokenPair, ServiceError>)
      requires UniqueHashes(sessions.rows)
      modifies sessions
      ensures UniqueHashes(sessions.rows)
      ensures r.Success? <==> Delivers(e) && e.family.Some? && fault == NoFault && old(sessions.IsFree(e.id.value, HashToken(e.token.value)))
      ensures r.Success? ==>
                && r.value == TokenPair(e.access.value, e.token.value, now + refreshTTL)
                && sessions.rows == old(sessions.rows)[e.id.value :=
                     Session(e.id.value, e.family.value, user, HashToken(e.token.value), now + refreshTTL, None, None, None)]
      ensures r.Failure? ==> sessions.rows == old(sessions.rows)
      ensures r.Failure? ==> r.error == if Delivers(e) && e.family.Some? then SessionUnavailable else IssueFailed
    {
      var minted := Draw(e, now, true);
      if minted.None? { return Failure(IssueFailed); }
      var m := minted.value;
      var row := Session(m.id, e.family.value, user, m.hash, m.expires, None, None, None);
      var outcome := sessions.Create(row, fault);
      if outcome != Created { return Failure(SessionUnavailable); }
      r := Success(TokenPair(e.access.value, e.token.value, m.expires));
    }

    /**
      A new pair is handed out exactly when the presented token is accepted, every source and every statement
      works and the new values are free; then the token was exchanged in its favour. Otherwise no row is added,
      the refusal is that of the stored row, and only a reuse outside the grace period changes any row.
    */
    method Refresh(token: RawToken, now: Time, e: Entropy, fault: Fault) returns (r: Result<TokenPair, ServiceError>)
      requires UniqueHashes(sessions.rows) && WellKeyed(sessions.rows)
      modifies sessions
      ensures UniqueHashes(sessions.rows) && WellKeyed(sessions.rows)
      ensures r.Success? <==>
                && token.Opaque? && IsAccepted(old(sessions.rows), HashToken(token), now)
                && Delivers(e) && fault in {NoFault, AtRevoke} && old(sessions.IsFree(e.id.value, HashToken(e.token.value)))
      ensures r.Success? ==>
                && r.value == TokenPair(e.access.value, e.token.value, now + refreshTTL)
                && exists id :: id in old(sessions.rows) && old(sessions.rows)[id].hash == HashToken(token)
                     && Exchanges(old(sessions.rows), sessions.rows, id, now, Minted(e.id.value, HashToken(e.token.value), now + refreshTTL))
      ensures r.Failure? && r.error != RefreshRefused(Reused) ==> sessions.rows == old(sessions.rows)
      ensures r == Failure(RefreshRefused(Reused)) ==>
                exists id :: id in old(sessions.rows) && RevokesFamily(old(sessions.rows), sessions.rows, old(sessions.rows)[id].family, now)
                          && token.Opaque? && old(sessions.rows)[id].hash == HashToken(token)
      // Why it fails when all statements work.
      ensures token.Empty? ==> r == Failure(RefreshRefused(Invalid))
      ensures token.Opaque? && fault == NoFault ==>
                && (r == Failure(RefreshRefused(Invalid)) <==>
                      forall id | id in old(sessions.rows) && old(sessions.rows)[id].hash == HashToken(token) :: old(sessions.rows)[id].revoked.Some?)
                && (forall id | id in old(sessions.rows) && old(sessions.rows)[id].hash == HashToken(token) && old(sessions.rows)[id].revoked.None? ::
                      var row := old(sessions.rows)[id];
                      if row.consumed.Some? then
                        r == Failure(RefreshRefused(if now <= row.consumed.value + 30_000_000_000 then Conflict else Reused))
                      else if row.expires <= now then r == Failure(RefreshRefused(Expired))
                      else if !Delivers(e) then r == Failure(IssueFailed)
                      else r.Failure? ==> r.error == SessionUnavailable)
      // And whatever fails.
      ensures token.Opaque? && r.Failure? && r.error.RefreshRefused? ==>
                AnswersRotate(old(sessions.rows), sessions.rows, HashToken(token), now, None, r.error.why)
      ensures r == Failure(IssueFailed) ==> token.Opaque? && IsAccepted(old(sessions.rows), HashToken(token), now) && !Delivers(e)
      ensures r == Failure(SessionUnavailable) ==>
                fault != NoFault || (Delivers(e) && !old(sessions.IsFree(e.id.value, HashToken(e.token.value))))
    {
      if token.Empty? { return Failure(RefreshRefused(Invalid)); }
      var minted := Draw(e, now, false);
      ghost var before, h := sessions.rows, HashToken(token);
      AcceptanceMeans(before, h, now);
      forall id | id in before && before[id].hash == h && before[id].revoked.None? ensures RowSays(before[id], now, Decide(before, h, now)) {
        RowDecides(before, h, now, id);
      }
      var outcome, called := sessions.Rotate(HashToken(token), now, minted, fault);
      // The closure's captured variables: set only when the repository called it.
      var issueErr := called && minted.None?;
      if issueErr { return Failure(IssueFailed); }
      match outcome {
        case Rotated => r := Success(TokenPair(e.access.value, e.token.value, minted.value.expires));
        case Unavailable => r := Failure(SessionUnavailable);
        case _ => r := Failure(RefreshRefused(outcome));
      }
    }

    /** Logging out is idempotent: an absent or unknown token succeeds. */
    method Revoke(token: RawToken, now: Time, fault: Fault) returns (r: Result<(), ServiceError>)
      requires UniqueHashes(sessions.rows)
      modifies sessions
      ensures UniqueHashes(sessions.rows)
      ensures r.Failure? ==> r.error == SessionUnavailable && sessions.rows == old(sessions.rows) && fault != NoFault
      ensures token.Empty? ==> r.Success? && sessions.rows == old(sessions.rows)
      ensures r.Success? && token.Opaque? && (forall id | id in old(sessions.rows) :: old(sessions.rows)[id].hash != HashToken(token)) ==>
                sessions.rows == old(sessions.rows)
      ensures r.Success? && token.Opaque? ==>
                forall id | id in old(sessions.rows) && old(sessions.rows)[id].hash == HashToken(token) ::
                  RevokesFamily(old(sessions.rows), sessions.rows, old(sessions.rows)[id].family, now)
    {
      if token.Empty? { return Success(()); }
      ghost var before := sessions.rows;
      var outcome := sessions.Revoke(HashToken(token), now, fault);
      if outcome == Unavailable { return Failure(SessionUnavailable); }
      forall id | id in before && before[id].hash == HashToken(token) ensures Lookup(before, HashToken(token)) == Some(before[id]) {
        LookupFinds(before, id);
      }
      r := Success(());
    }
  }
}
