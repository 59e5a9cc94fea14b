/** The watchlist repository and use case as the code writes them, one call at a time. */
module WatchlistRepository {
  import opened Common

  datatype Slot = Slot(user: int, code: string)

  datatype UserSymbol = UserSymbol(code: string, key: int)

  /** The table; its first unique index, on user and symbol, is the map's domain. */
  type Table = map<Slot, int>

  datatype Error = ReorderCodesMismatch | AlreadyInWatchlist | SymbolNotFound | NotInWatchlist | DatabaseError

  /** The second unique index, on user and sort key. */
  predicate UniqueKeys(t: Table) {
    forall a, b | a in t && b in t && a != b && a.user == b.user :: t[a] != t[b]
  }

  predicate NonNegative(t: Table, user: int) {
    forall a | a in t && a.user == user :: 0 <= t[a]
  }

  function CodesOf(t: Table, user: int): set<string> {
    set a | a in t && a.user == user :: a.code
  }

  function SlotsOf(t: Table, user: int): set<Slot> {
    set a | a in t && a.user == user
  }

  predicate Clashes(t: Table, slot: Slot, key: int) {
    exists a :: a in t && a != slot && a.user == slot.user && t[a] == key
  }

  predicate OthersUntouched(t: Table, u: Table, user: int) {
    u.Keys == t.Keys && forall a | a in t && a.user != user :: u[a] == t[a]
  }

  // ----- What a renumbering writes

  predicate Names(s: seq<UserSymbol>, code: string) {
    exists i :: 0 <= i < |s| && s[i].code == code
  }

  predicate DistinctEntries(entries: seq<UserSymbol>) {
    forall i, j | 0 <= i < j < |entries| :: entries[i].code != entries[j].code
  }

  /** The use case's entries: every code of the user once, keyed by its position. */
  predicate Validated(t: Table, user: int, entries: seq<UserSymbol>) {
    && DistinctEntries(entries)
    && (forall i | 0 <= i < |entries| :: Slot(user, entries[i].code) in t && entries[i].key == i)
    && |entries| == |SlotsOf(t, user)|
  }

  lemma {:induction false} EntriesCover(t: Table, user: int, entries: seq<UserSymbol>, slots: set<Slot>)
    requires DistinctEntries(entries) && forall i | 0 <= i < |entries| :: Slot(user, entries[i].code) in slots
    requires forall a | a in slots :: a.user == user
    requires |entries| == |slots|
    ensures forall a | a in slots :: Names(entries, a.code)
    decreases |entries|
  {
    if entries == [] {
      assert slots == {};
    } else {
      var n := |entries| - 1;
      var last := Slot(user, entries[n].code);
      EntriesCover(t, user, entries[..n], slots - {last});
      forall a | a in slots ensures Names(entries, a.code) {
        if a == last {
          assert entries[n].code == a.code;
        } else {
          var i :| 0 <= i < n && entries[..n][i].code == a.code;
          assert entries[i].code == a.code;
        }
      }
    }
  }

  /** Shifted to negative keys so far, then settled so far. */
  predicate Midway(t: Table, start: Table, user: int, entries: seq<UserSymbol>, shifted: nat, settled: nat)
  {
    && OthersUntouched(start, t, user) && settled <= shifted <= |entries|
    && (forall i | 0 <= i < |entries| :: Slot(user, entries[i].code) in t &&
         t[Slot(user, entries[i].code)] ==
         if i < settled then i else if i < shifted then -(i + 1) else start[Slot(user, entries[i].code)])
  }

  lemma MidwayIsFree(t: Table, start: Table, user: int, entries: seq<UserSymbol>, shifted: nat, settled: nat, i: nat, key: int)
    requires Validated(start, user, entries) && NonNegative(start, user) && Midway(t, start, user, entries, shifted, settled)
    requires i < |entries|
    requires (shifted == i && settled == 0 && key == -(i + 1)) || (shifted == |entries| && settled == i && key == i)
    ensures !Clashes(t, Slot(user, entries[i].code), key)
  {
    EntriesCover(start, user, entries, SlotsOf(start, user));
    forall a | a in t && a != Slot(user, entries[i].code) && a.user == user ensures t[a] != key {
      assert a in SlotsOf(start, user);
      var j :| 0 <= j < |entries| && entries[j].code == a.code;
      assert a == Slot(user, entries[j].code);
    }
  }

  lemma MidwayStep(t: Table, start: Table, user: int, entries: seq<UserSymbol>, shifted: nat, settled: nat, i: nat, key: int)
    requires Validated(start, user, entries) && Midway(t, start, user, entries, shifted, settled) && i < |entries|
    requires (shifted == i && settled == 0 && key == -(i + 1)) || (shifted == |entries| && settled == i && key == i)
    ensures var u := t[Slot(user, entries[i].code) := key];
            if key < 0 then Midway(u, start, user, entries, i + 1, 0) else Midway(u, start, user, entries, |entries|, i + 1)
  {
  }

  /** The first n entries have their final keys, if no code is named twice. */
  predicate Assigned(t: Table, user: int, entries: seq<UserSymbol>, n: nat) {
    n <= |entries| &&
    (DistinctEntries(entries) ==>
      forall j | 0 <= j < n :: Slot(user, entries[j].code) in t && t[Slot(user, entries[j].code)] == entries[j].key)
  }

  lemma AssignedStep(t: Table, user: int, entries: seq<UserSymbol>, n: nat)
    requires Assigned(t, user, entries, n) && n < |entries|
    ensures Assigned(t[Slot(user, entries[n].code) := entries[n].key], user, entries, n + 1)
  {
  }

  // ----- The repository

  datatype Update = Affected(rows: nat) | Violation | Broken

  /** An update that did not change exactly one row. */
  function Problem(u: Update): Error {
    if u.Affected? then ReorderCodesMismatch else DatabaseError
  }

  class Repository {
    var rows: Table
    const users: set<int>
    const symbols: set<string>

    constructor (users: set<int>, symbols: set<string>)
      ensures rows == map[] && this.users == users && this.symbols == symbols
    {
      rows := map[];
      this.users, this.symbols := users, symbols;
    }

    /** `UPDATE ... SET sort_key`: the index is checked at once, row by row. */
    method UpdateSortKey(user: int, code: string, key: int, broken: bool) returns (r: Update)
      requires UniqueKeys(rows)
      modifies `rows
      ensures UniqueKeys(rows)
      ensures var slot := Slot(user, code);
              && r == (if broken then Broken else if slot !in old(rows) then Affected(0)
                       else if Clashes(old(rows), slot, key) then Violation else Affected(1))
              && rows == if r == Affected(1) then old(rows)[slot := key] else old(rows)
    {
      if broken {
        return Broken;
      }
      var slot := Slot(user, code);
      if slot !in rows {
        return Affected(0);
      }
      if Clashes(rows, slot, key) {
        return Violation;
      }
      rows := rows[slot := key];
      return Affected(1);
    }

    /**
     * The transaction of `UpdateSortKeys`: one lock statement, two rounds of updates.
     * The statement numbered `failAt` fails, if there is one; a number past the last
     * update is the commit.
     */
    method UpdateSortKeys(user: int, entries: seq<UserSymbol>, failAt: Option<nat>) returns (r: Result<(), Error>)
      requires UniqueKeys(rows)
      modifies `rows
      ensures UniqueKeys(rows) && OthersUntouched(old(rows), rows, user)
      ensures r.Failure? ==> rows == old(rows)
      ensures r.Success? ==> Assigned(rows, user, entries, |entries|)
      ensures Validated(old(rows), user, entries) && NonNegative(old(rows), user) ==>
              (r.Success? <==> failAt.None? || failAt.value > 2 + 2 * |entries|)
      ensures r.Failure? ==> r.error in {DatabaseError, ReorderCodesMismatch}
      ensures |entries| != |SlotsOf(old(rows), user)| ==> r.Failure?
    {
      if failAt == Some(0) {
        return Failure(DatabaseError);
      }
      var before := rows;
      var committed := false;
      r, committed := UpdateInTransaction(user, entries, failAt);
      if !committed {
        rows := before;  // the deferred rollback
      }
    }

    method UpdateInTransaction(user: int, entries: seq<UserSymbol>, failAt: Option<nat>) returns (r: Result<(), Error>, committed: bool)
      requires UniqueKeys(rows) && failAt != Some(0)
      modifies `rows
      ensures committed <==> r.Success?
      ensures UniqueKeys(rows) && OthersUntouched(old(rows), rows, user)
      ensures committed ==> Assigned(rows, user, entries, |entries|)
      ensures Validated(old(rows), user, entries) && NonNegative(old(rows), user) ==>
              (r.Success? <==> failAt.None? || failAt.value > 2 + 2 * |entries|)
      ensures r.Failure? ==> r.error in {DatabaseError, ReorderCodesMismatch}
      ensures |entries| != |SlotsOf(old(rows), user)| ==> r.Failure?
    {
      if failAt == Some(1) {
        return Failure(DatabaseError), false;
      }
      var locked := SlotsOf(rows, user);
      if |locked| != |entries| {
        return Failure(ReorderCodesMismatch), false;
      }
      r := Shift(user, entries, failAt);
      if r.Failure? {
        return r, false;
      }
      r := Settle(user, entries, failAt, old(rows));
      if r.Failure? {
        return r, false;
      }
      if failAt == Some(2 + 2 * |entries|) {
        return Failure(DatabaseError), false;
      }
      return Success(()), true;
    }

    /** Phase 1: negative keys. The index holds after every single UPDATE. */
    method Shift(user: int, entries: seq<UserSymbol>, failAt: Option<nat>) returns (r: Result<(), Error>)
      requires UniqueKeys(rows) && (failAt.Some? ==> failAt.value >= 2)
      modifies `rows
      ensures UniqueKeys(rows) && OthersUntouched(old(rows), rows, user)
      ensures Validated(old(rows), user, entries) && NonNegative(old(rows), user) ==>
              && (r.Success? <==> failAt.None? || failAt.value >= 2 + |entries|)
              && (r.Success? ==> Midway(rows, old(rows), user, entries, |entries|, 0))
      ensures r.Failure? ==> r.error in {DatabaseError, ReorderCodesMismatch}
    {
      ghost var good := Validated(rows, user, entries) && NonNegative(rows, user);
      for i := 0 to |entries|
        invariant UniqueKeys(rows) && OthersUntouched(old(rows), rows, user)
        invariant good ==> Midway(rows, old(rows), user, entries, i, 0) && (failAt.Some? ==> failAt.value >= 2 + i)
      {
        if good {
          MidwayIsFree(rows, old(rows), user, entries, i, 0, i, -(i + 1));
          MidwayStep(rows, old(rows), user, entries, i, 0, i, -(i + 1));
        }
        var u := UpdateSortKey(user, entries[i].code, -(i + 1), failAt == Some(2 + i));
        if u != Affected(1) {
          return Failure(Problem(u));
        }
      }
      return Success(());
    }

    /** Phase 2: final keys. `start` is the table before phase 1. */
    method Settle(user: int, entries: seq<UserSymbol>, failAt: Option<nat>, ghost start: Table) returns (r: Result<(), Error>)
      requires UniqueKeys(rows)
      modifies `rows
      ensures UniqueKeys(rows) && OthersUntouched(old(rows), rows, user)
      ensures r.Success? ==> Assigned(rows, user, entries, |entries|)
      ensures Validated(start, user, entries) && NonNegative(start, user) && old(Midway(rows, start, user, entries, |entries|, 0))
              && (failAt.Some? ==> failAt.value >= 2 + |entries|) ==>
              (r.Success? <==> failAt.None? || failAt.value >= 2 + 2 * |entries|)
      ensures r.Failure? ==> r.error in {DatabaseError, ReorderCodesMismatch}
    {
      ghost var good := Validated(start, user, entries) && NonNegative(start, user) && Midway(rows, start, user, entries, |entries|, 0)
                        && (failAt.Some? ==> failAt.value >= 2 + |entries|);
      for i := 0 to |entries|
        invariant UniqueKeys(rows) && OthersUntouched(old(rows), rows, user)
        invariant good ==> Midway(rows, start, user, entries, |entries|, i) && (failAt.Some? ==> failAt.value >= 2 + |entries| + i)
        invariant Assigned(rows, user, entries, i)
      {
        AssignedStep(rows, user, entries, i);
        if good {
          MidwayIsFree(rows, start, user, entries, |entries|, i, i, i);
          MidwayStep(rows, start, user, entries, |entries|, i, i, i);
        }
        var u := UpdateSortKey(user, entries[i].code, entries[i].key, failAt == Some(2 + |entries| + i));
        if u != Affected(1) {
          return Failure(Problem(u));
        }
      }
      return Success(());
    }

    /** `InsertWatchlist` with `mapWatchlistPGErr`: symbol index first, then sort keys, then the foreign keys. */
    method Add(user: int, entry: UserSymbol, broken: bool) returns (r: Result<(), Error>)
      requires UniqueKeys(rows)
      modifies `rows
      ensures UniqueKeys(rows)
      ensures var slot := Slot(user, entry.code);
              && r == (if broken then Failure(DatabaseError) else if slot in old(rows) then Failure(AlreadyInWatchlist)
                       else if Clashes(old(rows), slot, entry.key) then Failure(DatabaseError)
                       else if user !in users || entry.code !in symbols then Failure(SymbolNotFound) else Success(()))
              && rows == if r.Success? then old(rows)[slot := entry.key] else old(rows)
    {
      var slot := Slot(user, entry.code);
      if broken {
        return Failure(DatabaseError);
      }
      if slot in rows {
        return Failure(AlreadyInWatchlist);
      }
      if Clashes(rows, slot, entry.key) {
        return Failure(DatabaseError);
      }
      if user !in users || entry.code !in symbols {
        return Failure(SymbolNotFound);
      }
      rows := rows[slot := entry.key];
      return Success(());
    }

    method Remove(user: int, code: string, broken: bool) returns (r: Result<(), Error>)
      requires UniqueKeys(rows)
      modifies `rows
      ensures UniqueKeys(rows)
      ensures r == if broken then Failure(DatabaseError) else if Slot(user, code) in old(rows) then Success(()) else Failure(NotInWatchlist)
      ensures rows == if broken then old(rows) else old(rows) - {Slot(user, code)}
    {
      if broken {
        return Failure(DatabaseError);
      }
      var rowsAffected := if Slot(user, code) in rows then 1 else 0;
      rows := rows - {Slot(user, code)};
      if rowsAffected == 0 {
        return Failure(NotInWatchlist);
      }
      return Success(());
    }

    /** `COALESCE(MAX(sort_key), -1)` */
    method MaxSortKey(user: int) returns (max: int)
      ensures forall a | a in rows && a.user == user :: rows[a] <= max
      ensures if CodesOf(rows, user) == {} then max == -1 else exists a :: a in rows && a.user == user && rows[a] == max
    {
      var todo := SlotsOf(rows, user);
      if todo == {} {
        assert forall a | a in rows && a.user == user :: a in SlotsOf(rows, user);
        return -1;
      }
      var first :| first in todo;
      assert first.code in CodesOf(rows, user);
      max := rows[first];
      while todo != {}
        invariant todo <= SlotsOf(rows, user)
        invariant forall a | a in SlotsOf(rows, user) && a !in todo :: rows[a] <= max
        invariant exists a :: a in rows && a.user == user && rows[a] == max
      {
        var a :| a in todo;
        if max < rows[a] {
          max := rows[a];
        }
        todo := todo - {a};
      }
      forall a | a in rows && a.user == user ensures rows[a] <= max { assert a in SlotsOf(rows, user); }
    }

    /** The new row sorts last, and the index on sort keys cannot object. */
    method AddWithNextSortKey(user: int, code: string, broken: bool) returns (r: Result<(), Error>)
      requires UniqueKeys(rows)
      modifies `rows
      ensures UniqueKeys(rows)
      ensures r.Success? <==> !broken && user in users && Slot(user, code) !in old(rows) && code in symbols
      ensures r.Failure? ==> rows == old(rows)
      ensures r.Success? ==>
              && rows.Keys == old(rows).Keys + {Slot(user, code)}
              && (forall a | a in old(rows) :: rows[a] == old(rows)[a])
              && (forall a | a in old(rows) && a.user == user :: rows[a] < rows[Slot(user, code)])
              && (if CodesOf(old(rows), user) == {} then rows[Slot(user, code)] == 0
                  else exists a :: a in old(rows) && a.user == user && rows[Slot(user, code)] == old(rows)[a] + 1)
      ensures broken || user !in users ==> r == Failure(DatabaseError)
      ensures !broken && user in users && Slot(user, code) in old(rows) ==> r == Failure(AlreadyInWatchlist)
      ensures !broken && user in users && Slot(user, code) !in old(rows) && code !in symbols ==> r == Failure(SymbolNotFound)
    {
      if user !in users {
        return Failure(DatabaseError);
      }
      var maxKey := MaxSortKey(user);
      r := Add(user, UserSymbol(code, maxKey + 1), broken);
    }

    /** `ListByUser`: in sort-key order. */
    method ListByUser(user: int, broken: bool) returns (r: Result<seq<UserSymbol>, Error>)
      requires UniqueKeys(rows)
      ensures r.Success? <==> !broken
      ensures r.Failure? ==> r.error == DatabaseError
      ensures r.Success? ==> Lists(rows, user, r.value)
    {
      if broken {
        return Failure(DatabaseError);
      }
      var todo := SlotsOf(rows, user);
      var out: seq<UserSymbol> := [];
      while todo != {}
        invariant ListsBelow(rows, user, out, todo)
      {
        LeastKeyExists(rows, user, todo);
        var a :| IsLeast(rows, todo, a);
        ListMore(rows, user, out, todo, a);
        out := out + [UserSymbol(a.code, rows[a])];
        todo := todo - {a};
      }
      return Success(out);
    }
  }

  /** Every row of the user once, in strictly ascending key order. */
  predicate Lists(t: Table, user: int, out: seq<UserSymbol>) {
    && (forall i, j | 0 <= i < j < |out| :: out[i].key < out[j].key)
    && (forall i | 0 <= i < |out| :: Slot(user, out[i].code) in t && t[Slot(user, out[i].code)] == out[i].key)
    && (forall a | a in SlotsOf(t, user) :: Names(out, a.code))
    && |out| == |SlotsOf(t, user)|
  }

  /** A listing of the user's rows but for `todo`, whose keys are all larger. */
  predicate ListsBelow(t: Table, user: int, out: seq<UserSymbol>, todo: set<Slot>) {
    && todo <= SlotsOf(t, user)
    && (forall i, j | 0 <= i < j < |out| :: out[i].key < out[j].key)
    && (forall i | 0 <= i < |out| :: Slot(user, out[i].code) in t && t[Slot(user, out[i].code)] == out[i].key)
    && (forall i, a | 0 <= i < |out| && a in todo :: a in t && out[i].key < t[a])
    && (forall a | a in SlotsOf(t, user) && a !in todo :: Names(out, a.code))
    && |out| + |todo| == |SlotsOf(t, user)|
  }

  lemma ListMore(t: Table, user: int, out: seq<UserSymbol>, todo: set<Slot>, a: Slot)
    requires UniqueKeys(t) && ListsBelow(t, user, out, todo) && IsLeast(t, todo, a)
    ensures ListsBelow(t, user, out + [UserSymbol(a.code, t[a])], todo - {a})
  {
    var more := out + [UserSymbol(a.code, t[a])];
    assert a in SlotsOf(t, user) && a == Slot(user, a.code);
    forall b | b in SlotsOf(t, user) && b !in todo - {a} ensures Names(more, b.code) {
      if b == a {
        assert more[|out|].code == b.code;
      } else {
        assert Names(out, b.code);
        var i :| 0 <= i < |out| && out[i].code == b.code;
        assert more[i].code == b.code;
      }
    }
    forall i, j | 0 <= i < j < |more| ensures more[i].key < more[j].key {
      assert j < |out| ==> more[i] == out[i] && more[j] == out[j];
    }
    forall i, b | 0 <= i < |more| && b in todo - {a} ensures more[i].key < t[b] {
      assert i < |out| ==> more[i] == out[i];
    }
  }

  predicate IsLeast(t: Table, slots: set<Slot>, a: Slot) {
    a in slots && a in t && forall b | b in slots && b in t && b != a :: t[a] < t[b]
  }

  lemma {:induction false} LeastKeyExists(t: Table, user: int, slots: set<Slot>)
    requires UniqueKeys(t) && slots != {} && slots <= SlotsOf(t, user)
    ensures exists a :: IsLeast(t, slots, a)
    decreases |slots|
  {
    var a :| a in slots;
    var rest := slots - {a};
    if rest == {} {
      assert slots == {a};
      assert IsLeast(t, slots, a);
    } else {
      LeastKeyExists(t, user, rest);
      var b :| IsLeast(t, rest, b);
      assert forall x | x in slots :: x == a || x in rest;
      if t[a] < t[b] { assert IsLeast(t, slots, a); } else { assert IsLeast(t, slots, b); }
    }
  }
}
