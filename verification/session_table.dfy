/** The refresh session table. */
module SessionTable {
  /*
    The `refresh_sessions` table and the meaning of one whole auth operation on it
    (internal/feature/auth/session_repository.go, internal/feature/auth/sqlc/queries.sql.go).

    The functions here say what an operation does when nothing else is running.  `RotationProtocol`
    shows that interleaved Read Committed transactions still take effect one whole operation at a time.
  */

  import opened Common

  // Identifiers, families and token hashes are opaque: only their equality matters.
  type SessionId = nat
  type FamilyId = nat
  type TokenHash = nat
  type Time = int  // nanoseconds

  const SECOND: Time := 1_000_000_000
  const REUSE_GRACE_PERIOD: Time := 30 * SECOND

  datatype Session = Session(
    id: SessionId, family: FamilyId, user: int, hash: TokenHash, expires: Time,
    consumed: Option<Time>, revoked: Option<Time>, replacedBy: Option<SessionId>)

  type Table = map<SessionId, Session>

  /** What the caller's factory returns: a new id, the hash of a new token, and its expiry. */
  datatype Minted = Minted(id: SessionId, hash: TokenHash, expires: Time)

  datatype Outcome =
    | Rotated | Invalid | Conflict | Reused | Expired | FactoryFailed  // Rotate
    | Revoked | NothingToRevoke                                        // Revoke
    | Created | Cleaned                                                // Create, DeleteExpired
    | Unavailable                                                      // any storage error, rolled back

  /** What Rotate concludes from the row it has locked. */
  datatype Verdict = Refuse(why: Outcome) | Condemn(row: Session) | Accept(row: Session)

  // ---------------------------------------------------------------- single rows

  ghost function Lookup(t: Table, h: TokenHash): Option<Session> {
    if exists id :: id in t && t[id].hash == h then
      var id :| id in t && t[id].hash == h;
      Some(t[id])
    else
      None
  }

  ghost predicate WellKeyed(t: Table) {
    forall id | id in t :: t[id].id == id
  }

  ghost predicate UniqueHashes(t: Table) {
    forall a, b | a in t && b in t && t[a].hash == t[b].hash :: a == b
  }

  lemma LookupFinds(t: Table, id: SessionId)
    requires UniqueHashes(t) && id in t
    ensures Lookup(t, t[id].hash) == Some(t[id])
  {
  }

  function Judge(row: Session, now: Time): Verdict {
    if row.revoked.Some? then Refuse(Invalid)
    else if row.consumed.Some? then
      if now <= row.consumed.value + REUSE_GRACE_PERIOD then Refuse(Conflict) else Condemn(row)
    else if now >= row.expires then Refuse(Expired)
    else Accept(row)
  }

  ghost function Decide(t: Table, h: TokenHash, now: Time): Verdict {
    match Lookup(t, h)
    case None => Refuse(Invalid)
    case Some(row) => Judge(row, now)
  }

  function Successor(current: Session, minted: Minted): Session {
    Session(minted.id, current.family, current.user, minted.hash, minted.expires, None, None, None)
  }

  function Consumed(current: Session, now: Time, next: SessionId): Session {
    current.(consumed := Some(now), replacedBy := Some(next))
  }

  // ---------------------------------------------------------------- whole operations

  function RevokeRows(t: Table, f: FamilyId, now: Time): Table {
    map id | id in t :: if t[id].family == f && t[id].revoked.None? then t[id].(revoked := Some(now)) else t[id]
  }

  function RotateRows(t: Table, current: Session, now: Time, minted: Minted): Table {
    t[minted.id := Successor(current, minted)][current.id := Consumed(current, now, minted.id)]
  }

  /** `ON DELETE SET NULL` clears every reference to a deleted row. */
  function Unlink(row: Session, gone: set<SessionId>): Session {
    if row.replacedBy.Some? && row.replacedBy.value in gone then row.(replacedBy := None) else row
  }

  function DeleteRows(t: Table, gone: set<SessionId>): Table {
    (map id | id in t :: Unlink(t[id], gone)) - gone
  }

  /** One whole Rotate: the new table and what the caller is told. */
  ghost function RotateTable(t: Table, h: TokenHash, now: Time, factory: Option<Minted>): (Table, Outcome) {
    match Decide(t, h, now)
    case Refuse(why) => (t, why)
    case Condemn(row) => (RevokeRows(t, row.family, now), Reused)
    case Accept(row) =>
      match factory
      case None => (t, FactoryFailed)
      case Some(minted) => (RotateRows(t, row, now, minted), Rotated)
  }

  /** One whole Revoke; an unknown token succeeds without effect. */
  ghost function RevokeTable(t: Table, h: TokenHash, now: Time): (Table, Outcome) {
    match Lookup(t, h)
    case None => (t, NothingToRevoke)
    case Some(row) => (RevokeRows(t, row.family, now), Revoked)
  }

  // ---------------------------------------------------------------- what they mean, column by column

  /** The row `id` is exchanged for a new row: same family and user, minted id, hash and expiry, no other mark. */
  ghost predicate Exchanges(t: Table, t': Table, id: SessionId, now: Time, m: Minted) {
    && id in t && m.id !in t && t'.Keys == t.Keys + {m.id}
    && t'[m.id].id == m.id && t'[m.id].hash == m.hash && t'[m.id].expires == m.expires
    && t'[m.id].family == t[id].family && t'[m.id].user == t[id].user
    && t'[m.id].consumed.None? && t'[m.id].revoked.None? && t'[m.id].replacedBy.None?
    && t'[id] == t[id].(consumed := Some(now), replacedBy := Some(m.id))
    && forall other | other in t && other != id :: t'[other] == t[other]
  }

  /** Every live row of the family gets the time of its revocation; nothing else changes. */
  ghost predicate RevokesFamily(t: Table, t': Table, f: FamilyId, now: Time) {
    && t'.Keys == t.Keys
    && (forall id | id in t && t[id].family == f :: t'[id] == if t[id].revoked.Some? then t[id] else t[id].(revoked := Some(now)))
    && (forall id | id in t && t[id].family != f :: t'[id] == t[id])
  }

  /** Which answer a Rotate of the token gives, and what it leaves. The grace period is 30 seconds, in nanoseconds. */
  ghost predicate AnswersRotate(t: Table, t': Table, h: TokenHash, now: Time, factory: Option<Minted>, o: Outcome) {
    && o in {Invalid, Conflict, Reused, Expired, FactoryFailed, Rotated}
    && (o == Invalid <==> forall id | id in t && t[id].hash == h :: t[id].revoked.Some?)
    && (o == Conflict <==> exists id :: id in t && t[id].hash == h && t[id].revoked.None?
                                     && t[id].consumed.Some? && now <= t[id].consumed.value + 30_000_000_000)
    && (o == Reused <==> exists id :: id in t && t[id].hash == h && t[id].revoked.None?
                                   && t[id].consumed.Some? && t[id].consumed.value + 30_000_000_000 < now)
    && (o == Expired <==> exists id :: id in t && t[id].hash == h && t[id].revoked.None? && t[id].consumed.None? && t[id].expires <= now)
    && (o == Rotated || o == FactoryFailed <==>
          exists id :: id in t && t[id].hash == h && t[id].revoked.None? && t[id].consumed.None? && now < t[id].expires)
    && (o == Rotated ==> factory.Some? && exists id :: id in t && t[id].hash == h && Exchanges(t, t', id, now, factory.value))
    && (o == FactoryFailed ==> factory.None?)
    && (o == Reused ==> exists id :: id in t && t[id].hash == h && RevokesFamily(t, t', t[id].family, now))
    && (o != Rotated && o != Reused ==> t' == t)
  }

  lemma RotateTableAnswers(t: Table, h: TokenHash, now: Time, factory: Option<Minted>)
    requires WellKeyed(t) && UniqueHashes(t)
    requires factory.Some? && Decide(t, h, now).Accept? ==> factory.value.id !in t
    ensures var (t', o) := RotateTable(t, h, now, factory); AnswersRotate(t, t', h, now, factory, o)
  {
    if id :| id in t && t[id].hash == h {
      LookupFinds(t, id);
      assert t[id].id == id;
      forall other | other in t && t[other].hash == h ensures other == id {}
      if t[id].revoked.None? && t[id].consumed.None? && now < t[id].expires && factory.Some? {
        assert Exchanges(t, RotateTable(t, h, now, factory).0, id, now, factory.value);
      }
      assert RevokesFamily(t, RevokeRows(t, t[id].family, now), t[id].family, now);
    }
  }

  /** Which answer a Revoke of the token gives, and what it leaves. */
  ghost predicate AnswersRevoke(t: Table, t': Table, h: TokenHash, now: Time, o: Outcome) {
    && (o == NothingToRevoke || o == Revoked)
    && (o == Revoked <==> exists id :: id in t && t[id].hash == h)
    && (o == Revoked ==> exists id :: id in t && t[id].hash == h && RevokesFamily(t, t', t[id].family, now))
    && (o == NothingToRevoke ==> t' == t)
  }

  lemma RevokeTableAnswers(t: Table, h: TokenHash, now: Time)
    requires UniqueHashes(t)
    ensures var (t', o) := RevokeTable(t, h, now); AnswersRevoke(t, t', h, now, o)
  {
    if id :| id in t && t[id].hash == h {
      LookupFinds(t, id);
      assert RevokesFamily(t, RevokeRows(t, t[id].family, now), t[id].family, now);
    }
  }

  // ---------------------------------------------------------------- the table with its history

  /** Which family an id was issued to, and in which place of that family's chain. */
  datatype Place = Place(family: FamilyId, at: nat)

  /**
    The committed rows, and what has been committed so far: every family's chain of issued ids in order,
    the place of every id in it, the id every hash was issued to, the families a revocation has
    committed for, and the hashes rotated successfully.
  */
  datatype Ledger = Ledger(
    rows: Table,
    chain: map<FamilyId, seq<SessionId>>,
    place: map<SessionId, Place>,
    owner: map<TokenHash, SessionId>,
    dead: set<FamilyId>,
    rotated: multiset<TokenHash>)

  const EMPTY: Ledger := Ledger(map[], map[], map[], map[], {}, multiset{})

  datatype TableOp =
    | Keep
    | CreateOp(row: Session)
    | RotateOp(hash: TokenHash, now: Time, minted: Minted)
    | RevokeOp(family: FamilyId, now: Time)
    | DeleteOp(before: Time, ids: set<SessionId>)

  predicate Unused(row: Session) {
    row.consumed.None? && row.revoked.None? && row.replacedBy.None?
  }

  ghost predicate Allowed(l: Ledger, op: TableOp) {
    match op
    case Keep => true
    case CreateOp(row) => row.id !in l.place && row.family !in l.chain && row.hash !in l.owner && Unused(row)
    case RotateOp(h, now, minted) =>
      Decide(l.rows, h, now).Accept? && minted.id !in l.place && minted.hash !in l.owner
    case RevokeOp(f, now) => f in l.chain
    case DeleteOp(before, ids) => forall id | id in ids :: id in l.rows && l.rows[id].expires < before
  }

  ghost function ApplyOp(l: Ledger, op: TableOp): Ledger
    requires LedgerInv(l) && Allowed(l, op)
  {
    match op
    case Keep => l
    case CreateOp(row) =>
      Ledger(l.rows[row.id := row], l.chain[row.family := [row.id]], l.place[row.id := Place(row.family, 0)],
             l.owner[row.hash := row.id], l.dead, l.rotated)
    case RotateOp(h, now, minted) =>
      LookupSound(l, h);
      var current := Decide(l.rows, h, now).row;
      var f := current.family;
      Ledger(RotateRows(l.rows, current, now, minted),
             l.chain[f := l.chain[f] + [minted.id]],
             l.place[minted.id := Place(f, |l.chain[f]|)],
             l.owner[minted.hash := minted.id],
             l.dead,
             l.rotated + multiset{h})
    case RevokeOp(f, now) => l.(rows := RevokeRows(l.rows, f, now), dead := l.dead + {f})
    case DeleteOp(before, ids) => l.(rows := DeleteRows(l.rows, ids))
  }

  // ---------------------------------------------------------------- invariant

  ghost predicate Placed(l: Ledger, id: SessionId)
    requires id in l.place
  {
    var p := l.place[id];
    && p.family in l.chain
    && p.at < |l.chain[p.family]|
    && l.chain[p.family][p.at] == id
    && (p.at + 1 < |l.chain[p.family]| ==>
          var next := l.chain[p.family][p.at + 1];
          next in l.place && l.place[next] == Place(p.family, p.at + 1))
  }

  ghost predicate Registered(l: Ledger, id: SessionId)
    requires id in l.rows
  {
    var row := l.rows[id];
    && row.id == id
    && id in l.place
    && Placed(l, id)
    && l.place[id].family == row.family
    && row.hash in l.owner
    && l.owner[row.hash] == id
    && (row.revoked.Some? <==> row.family in l.dead)
  }

  /** The id issued right after this one, while its row is stored. */
  ghost function NextStored(l: Ledger, id: SessionId): Option<SessionId>
    requires id in l.place && Placed(l, id)
  {
    var p := l.place[id];
    var chain := l.chain[p.family];
    if p.at + 1 < |chain| && chain[p.at + 1] in l.rows then Some(chain[p.at + 1]) else None
  }

  /**
    A row of a family's chain: the last place is the unconsumed token, every earlier row is consumed
    and points at the row in the next place for as long as that is stored.
  */
  ghost predicate RowInv(l: Ledger, id: SessionId)
    requires id in l.rows
  {
    && Registered(l, id)
    && (l.rows[id].consumed.None? <==> l.place[id].at + 1 == |l.chain[l.rows[id].family]|)
    && l.rows[id].replacedBy == NextStored(l, id)
  }

  ghost predicate HashInv(l: Ledger, h: TokenHash) {
    && l.rotated[h] <= 1
    && (h in l.rotated ==> h in l.owner && (l.owner[h] in l.rows ==> l.rows[l.owner[h]].consumed.Some?))
  }

  ghost predicate LedgerInv(l: Ledger) {
    && (forall id {:trigger Placed(l, id)} | id in l.place :: Placed(l, id))
    && (forall id {:trigger RowInv(l, id)} | id in l.rows :: RowInv(l, id))
    && (forall h {:trigger HashInv(l, h)} | h in l.rotated :: HashInv(l, h))
    && (forall h | h in l.owner :: l.owner[h] in l.place)
    && l.dead <= l.chain.Keys
  }

  // ---------------------------------------------------------------- preservation

  lemma LookupSound(l: Ledger, h: TokenHash)
    requires LedgerInv(l) && Lookup(l.rows, h).Some?
    ensures var row := Lookup(l.rows, h).value;
            row.id in l.rows && l.rows[row.id] == row && row.hash == h && RowInv(l, row.id)
  {
    var id :| id in l.rows && l.rows[id].hash == h && l.rows[id] == Lookup(l.rows, h).value;
    assert RowInv(l, id);
  }

  lemma HashFinds(l: Ledger, id: SessionId)
    requires LedgerInv(l) && id in l.rows
    ensures Lookup(l.rows, l.rows[id].hash) == Some(l.rows[id])
  {
    forall other | other in l.rows && l.rows[other].hash == l.rows[id].hash ensures other == id {
      assert RowInv(l, other) && RowInv(l, id);
    }
  }

  /** Ids keep their place; an operation only adds one id at the end of one chain. */
  lemma OpKeepsPlaces(l: Ledger, op: TableOp, id: SessionId)
    requires LedgerInv(l) && Allowed(l, op) && id in ApplyOp(l, op).place
    ensures Placed(ApplyOp(l, op), id)
  {
    assert id in l.place ==> Placed(l, id);
    if op.RotateOp? {
      LookupSound(l, op.hash);
    }
  }

  lemma OpKeepsHashes(l: Ledger, op: TableOp, h: TokenHash)
    requires LedgerInv(l) && Allowed(l, op) && h in ApplyOp(l, op).rotated
    ensures HashInv(ApplyOp(l, op), h)
  {
    assert h in l.rotated ==> HashInv(l, h);
    if op.RotateOp? {
      LookupSound(l, op.hash);
    }
  }

  lemma CreateKeepsRow(l: Ledger, row: Session, id: SessionId)
    requires LedgerInv(l) && Allowed(l, CreateOp(row)) && id in ApplyOp(l, CreateOp(row)).rows
    ensures RowInv(ApplyOp(l, CreateOp(row)), id)
  {
    assert id != row.id ==> RowInv(l, id);
    OpKeepsPlaces(l, CreateOp(row), id);
  }

  lemma RevokeKeepsRow(l: Ledger, f: FamilyId, now: Time, id: SessionId)
    requires LedgerInv(l) && Allowed(l, RevokeOp(f, now)) && id in l.rows
    ensures RowInv(ApplyOp(l, RevokeOp(f, now)), id)
  {
    assert RowInv(l, id);
  }

  lemma DeleteKeepsRow(l: Ledger, before: Time, ids: set<SessionId>, id: SessionId)
    requires LedgerInv(l) && Allowed(l, DeleteOp(before, ids)) && id in l.rows && id !in ids
    ensures RowInv(ApplyOp(l, DeleteOp(before, ids)), id)
  {
    assert RowInv(l, id);
  }

  lemma RotateKeepsRow(l: Ledger, h: TokenHash, now: Time, minted: Minted, id: SessionId)
    requires LedgerInv(l) && Allowed(l, RotateOp(h, now, minted))
    requires id in ApplyOp(l, RotateOp(h, now, minted)).rows
    ensures RowInv(ApplyOp(l, RotateOp(h, now, minted)), id)
  {
    LookupSound(l, h);
    assert id != minted.id ==> RowInv(l, id);
    OpKeepsPlaces(l, RotateOp(h, now, minted), id);
  }

  lemma OpKeepsRow(l: Ledger, op: TableOp, id: SessionId)
    requires LedgerInv(l) && Allowed(l, op) && id in ApplyOp(l, op).rows
    ensures RowInv(ApplyOp(l, op), id)
  {
    match op
    case Keep =>
    case CreateOp(row) => CreateKeepsRow(l, row, id);
    case RotateOp(h, now, minted) => RotateKeepsRow(l, h, now, minted, id);
    case RevokeOp(f, now) => RevokeKeepsRow(l, f, now, id);
    case DeleteOp(before, ids) => DeleteKeepsRow(l, before, ids, id);
  }

  lemma OpKeepsInv(l: Ledger, op: TableOp)
    requires LedgerInv(l) && Allowed(l, op)
    ensures LedgerInv(ApplyOp(l, op))
  {
    var m := ApplyOp(l, op);
    forall id | id in m.place ensures Placed(m, id) { OpKeepsPlaces(l, op, id); }
    forall id | id in m.rows ensures RowInv(m, id) { OpKeepsRow(l, op, id); }
    forall h | h in m.rotated ensures HashInv(m, h) { OpKeepsHashes(l, op, h); }
    if op.RotateOp? {
      LookupSound(l, op.hash);
    }
  }
}
