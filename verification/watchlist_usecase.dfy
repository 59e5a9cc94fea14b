/** The watchlist use case: reordering and the default symbols. */
module WatchlistUsecase {
  import opened Common
  import opened WatchlistRepository

  const DEFAULT_SYMBOLS := ["AAPL", "MSFT", "GOOGL"]

  predicate DistinctCodes(codes: seq<string>) {
    forall i, j | 0 <= i < j < |codes| :: codes[i] != codes[j]
  }

  /** The requested codes are the user's codes, each once. */
  predicate IsPermutation(t: Table, user: int, codes: seq<string>) {
    && DistinctCodes(codes)
    && (forall i | 0 <= i < |codes| :: Slot(user, codes[i]) in t)
    && |codes| == |SlotsOf(t, user)|
  }

  function Entries(codes: seq<string>): (e: seq<UserSymbol>)
    ensures |e| == |codes|
  {
    seq(|codes|, i requires 0 <= i < |codes| => UserSymbol(codes[i], i))
  }

  lemma ListedEntries(t: Table, user: int, codes: seq<string>, out: seq<UserSymbol>, j: nat)
    requires DistinctCodes(codes) && |codes| == |SlotsOf(t, user)| && Lists(t, user, out) && j < |out|
    requires forall i | 0 <= i < |codes| :: Slot(user, codes[i]) in t && t[Slot(user, codes[i])] == i
    ensures 0 <= out[j].key < |codes| && out[j].code == codes[out[j].key]
  {
    var entries := Entries(codes);
    assert DistinctEntries(entries);
    EntriesCover(t, user, entries, SlotsOf(t, user));
    assert Slot(user, out[j].code) in SlotsOf(t, user);
    var i :| 0 <= i < |entries| && entries[i].code == out[j].code;
  }

  /** Whatever reads the list after a successful reorder sees the requested order. */
  lemma ListingIsTheRequest(t: Table, user: int, codes: seq<string>, out: seq<UserSymbol>)
    requires DistinctCodes(codes) && |codes| == |SlotsOf(t, user)| && Lists(t, user, out)
    requires forall i | 0 <= i < |codes| :: Slot(user, codes[i]) in t && t[Slot(user, codes[i])] == i
    ensures |out| == |codes| && forall i | 0 <= i < |out| :: out[i].code == codes[i] && out[i].key == i
  {
    forall j | 0 <= j < |out| ensures 0 <= out[j].key < |codes| && out[j].code == codes[out[j].key] {
      ListedEntries(t, user, codes, out, j);
    }
    forall j | 0 <= j < |out| ensures out[j].key == j { KeysCountUp(out, |codes|, j); }
  }

  /** n strictly increasing keys below n are 0, 1, 2, ... */
  lemma {:induction false} KeysAtLeast(out: seq<UserSymbol>, j: nat)
    requires forall i, k | 0 <= i < k < |out| :: out[i].key < out[k].key
    requires forall i | 0 <= i < |out| :: 0 <= out[i].key
    requires j < |out|
    ensures j <= out[j].key
    decreases j
  {
    if j > 0 { KeysAtLeast(out, j - 1); }
  }

  lemma {:induction false} KeysAtMost(out: seq<UserSymbol>, n: nat, j: nat)
    requires forall i, k | 0 <= i < k < |out| :: out[i].key < out[k].key
    requires forall i | 0 <= i < |out| :: out[i].key < n
    requires j < |out| == n
    ensures out[j].key <= j
    decreases n - j
  {
    if j + 1 < n { KeysAtMost(out, n, j + 1); }
  }

  lemma KeysCountUp(out: seq<UserSymbol>, n: nat, j: nat)
    requires forall i, k | 0 <= i < k < |out| :: out[i].key < out[k].key
    requires forall i | 0 <= i < |out| :: 0 <= out[i].key < n
    requires j < |out| == n
    ensures out[j].key == j
  {
    KeysAtLeast(out, j);
    KeysAtMost(out, n, j);
  }

  class Usecase {
    const repo: Repository

    constructor (repo: Repository)
      ensures this.repo == repo
    {
      this.repo := repo;
    }

    /**
     * `ReorderSymbols`: succeeds exactly on permutations of the user's codes, if the
     * database works; then the codes stand at keys 0, 1, 2, ... in the requested order.
     */
    method ReorderSymbols(user: int, codes: seq<string>, broken: bool, failAt: Option<nat>) returns (r: Result<(), Error>)
      requires UniqueKeys(repo.rows) && NonNegative(repo.rows, user)
      modifies repo`rows
      ensures UniqueKeys(repo.rows) && NonNegative(repo.rows, user) && OthersUntouched(old(repo.rows), repo.rows, user)
      ensures r.Success? <==> !broken && IsPermutation(old(repo.rows), user, codes) && (failAt.None? || failAt.value > 2 + 2 * |codes|)
      ensures r.Success? ==> forall i | 0 <= i < |codes| :: Slot(user, codes[i]) in repo.rows && repo.rows[Slot(user, codes[i])] == i
      ensures r.Failure? ==> repo.rows == old(repo.rows)
      ensures broken ==> r == Failure(DatabaseError)
      ensures !broken && !IsPermutation(old(repo.rows), user, codes) ==> r == Failure(ReorderCodesMismatch)
    {
      var listed := repo.ListByUser(user, broken);
      if listed.Failure? {
        return Failure(listed.error);
      }
      var existing := listed.value;
      if |codes| != |existing| {
        return Failure(ReorderCodesMismatch);
      }
      var existingCodes := CodeSet(existing);
      var ok := EachOnce(codes, existingCodes);
      ListedCodes(repo.rows, user, existing, existingCodes, codes);
      if !ok {
        return Failure(ReorderCodesMismatch);
      }
      var entries := MakeEntries(codes);
      ValidatedEntries(repo.rows, user, codes);
      r := repo.UpdateSortKeys(user, entries, failAt);
      if r.Success? {
        AssignedKeysAreNonNegative(repo.rows, user, codes);
        AssignedSlots(repo.rows, user, codes);
      }
    }

    /**
     * `InitializeDefaults`, with the checks and inserts that fail. There is no
     * transaction: after an error the defaults before it stay.
     */
    method InitializeDefaults(user: int, failedChecks: set<int>, failedInserts: set<int>) returns (r: Result<(), Error>)
      requires UniqueKeys(repo.rows)
      modifies repo`rows
      ensures UniqueKeys(repo.rows)
      ensures r.Success? ==> HasDefaults(old(repo.rows), repo.rows, user, repo.symbols, 3)
      ensures r.Failure? ==> exists n: nat :: n < 3 && HasDefaults(old(repo.rows), repo.rows, user, repo.symbols, n)
      ensures SlotsOf(old(repo.rows), user) == {} && user in repo.users && failedChecks == {} && failedInserts == {} ==> r.Success?
    {
      for i := 0 to |DEFAULT_SYMBOLS|
        invariant UniqueKeys(repo.rows)
        invariant repo.rows == WithDefaults(old(repo.rows), user, repo.symbols, i)
      {
        assert |DEFAULT_SYMBOLS| == 3;
        DefaultsAreThere(old(repo.rows), user, repo.symbols, i);
        if i in failedChecks {
          return Failure(DatabaseError);
        }
        if DEFAULT_SYMBOLS[i] !in repo.symbols {
          continue;
        }
        if SlotsOf(old(repo.rows), user) == {} { DefaultsLeaveRoom(old(repo.rows), user, repo.symbols, i); }
        r := repo.Add(user, UserSymbol(DEFAULT_SYMBOLS[i], i), i in failedInserts);
        if r.Failure? {
          return;
        }
      }
      DefaultsAreThere(old(repo.rows), user, repo.symbols, 3);
      return Success(());
    }
  }

  /** Of AAPL, MSFT and GOOGL the first n that exist stand at keys 0, 1 and 2, and nothing else has changed. */
  predicate HasDefaults(t: Table, u: Table, user: int, symbols: set<string>, n: nat) {
    && (n > 0 && "AAPL" in symbols ==> Slot(user, "AAPL") in u && u[Slot(user, "AAPL")] == 0)
    && (n > 1 && "MSFT" in symbols ==> Slot(user, "MSFT") in u && u[Slot(user, "MSFT")] == 1)
    && (n > 2 && "GOOGL" in symbols ==> Slot(user, "GOOGL") in u && u[Slot(user, "GOOGL")] == 2)
    && (forall a | a in t && !(a.user == user && a.code in {"AAPL", "MSFT", "GOOGL"}) :: a in u && u[a] == t[a])
    && (forall a | a in u :: a in t || (a.user == user && a.code in {"AAPL", "MSFT", "GOOGL"} && a.code in symbols))
  }

  lemma DefaultsAreThere(t: Table, user: int, symbols: set<string>, n: nat)
    requires n <= 3
    ensures HasDefaults(t, WithDefaults(t, user, symbols, n), user, symbols, n)
  {
    assert "AAPL"[0] != "MSFT"[0] && "AAPL"[0] != "GOOGL"[0] && "MSFT"[0] != "GOOGL"[0];
    var none := WithDefaults(t, user, symbols, 0);
    if n > 0 { var one := WithDefaults(t, user, symbols, 1); }
    if n > 1 { var two := WithDefaults(t, user, symbols, 2); }
  }

  /** The first n default symbols that exist, at their positions: a missing one leaves a gap in the keys. */
  function WithDefaults(t: Table, user: int, symbols: set<string>, n: nat): Table
    requires n <= 3
  {
    if n == 0 then t else
      var before := WithDefaults(t, user, symbols, n - 1);
      if DEFAULT_SYMBOLS[n - 1] in symbols then before[Slot(user, DEFAULT_SYMBOLS[n - 1]) := n - 1] else before
  }

  lemma {:induction false} DefaultsLeaveRoom(t: Table, user: int, symbols: set<string>, n: nat)
    requires SlotsOf(t, user) == {} && n < 3
    ensures Slot(user, DEFAULT_SYMBOLS[n]) !in WithDefaults(t, user, symbols, n)
    ensures !Clashes(WithDefaults(t, user, symbols, n), Slot(user, DEFAULT_SYMBOLS[n]), n)
  {
    assert "AAPL"[0] != "MSFT"[0] && "AAPL"[0] != "GOOGL"[0] && "MSFT"[0] != "GOOGL"[0];
    forall a | a in t ensures a.user != user { assert a.user == user ==> a in SlotsOf(t, user); }
    DefaultKeys(t, user, symbols, n);
  }

  lemma {:induction false} DefaultKeys(t: Table, user: int, symbols: set<string>, n: nat)
    requires (forall a | a in t :: a.user != user) && n <= 3
    ensures forall a | a in WithDefaults(t, user, symbols, n) && a.user == user ::
              exists i :: 0 <= i < n && a.code == DEFAULT_SYMBOLS[i] && WithDefaults(t, user, symbols, n)[a] == i
    decreases n
  {
    if n > 0 { DefaultKeys(t, user, symbols, n - 1); }
  }

  method CodeSet(existing: seq<UserSymbol>) returns (codes: set<string>)
    ensures codes == set e | e in existing :: e.code
  {
    codes := {};
    for i := 0 to |existing|
      invariant codes == set e | e in existing[..i] :: e.code
    {
      assert existing[..i + 1] == existing[..i] + [existing[i]];
      codes := codes + {existing[i].code};
    }
    assert existing[..|existing|] == existing;
  }

  method EachOnce(codes: seq<string>, existing: set<string>) returns (ok: bool)
    ensures ok <==> DistinctCodes(codes) && forall i | 0 <= i < |codes| :: codes[i] in existing
  {
    var seen: set<string> := {};
    for i := 0 to |codes|
      invariant forall c :: c in seen <==> exists j :: 0 <= j < i && codes[j] == c
      invariant forall j, k | 0 <= j < k < i :: codes[j] != codes[k]
      invariant forall j | 0 <= j < i :: codes[j] in existing
    {
      if codes[i] in seen {
        return false;
      }
      if codes[i] !in existing {
        return false;
      }
      seen := seen + {codes[i]};
    }
    return true;
  }

  method MakeEntries(codes: seq<string>) returns (entries: seq<UserSymbol>)
    ensures entries == Entries(codes)
  {
    entries := [];
    for i := 0 to |codes|
      invariant entries == Entries(codes)[..i]
    {
      entries := entries + [UserSymbol(codes[i], i)];
    }
  }

  lemma ListedCodes(t: Table, user: int, existing: seq<UserSymbol>, existingCodes: set<string>, codes: seq<string>)
    requires Lists(t, user, existing) && existingCodes == (set e | e in existing :: e.code)
    ensures forall c :: c in existingCodes <==> Slot(user, c) in t
    ensures |codes| == |existing| ==>
            (IsPermutation(t, user, codes) <==> DistinctCodes(codes) && forall i | 0 <= i < |codes| :: codes[i] in existingCodes)
  {
    forall c ensures c in existingCodes <==> Slot(user, c) in t {
      if Slot(user, c) in t {
        assert Slot(user, c) in SlotsOf(t, user);
        var i :| 0 <= i < |existing| && existing[i].code == c;
        assert existing[i] in existing;
      }
    }
  }

  lemma ValidatedEntries(t: Table, user: int, codes: seq<string>)
    requires IsPermutation(t, user, codes)
    ensures Validated(t, user, Entries(codes))
  {
    forall i, j | 0 <= i < j < |codes| ensures Entries(codes)[i].code != Entries(codes)[j].code {
      assert codes[i] != codes[j];
    }
  }

  lemma AssignedSlots(t: Table, user: int, codes: seq<string>)
    requires DistinctCodes(codes) && Assigned(t, user, Entries(codes), |codes|)
    ensures forall i | 0 <= i < |codes| :: Slot(user, codes[i]) in t && t[Slot(user, codes[i])] == i
  {
    forall i | 0 <= i < |codes| ensures Slot(user, codes[i]) in t && t[Slot(user, codes[i])] == i {
      assert Entries(codes)[i] == UserSymbol(codes[i], i);
    }
  }

  lemma AssignedKeysAreNonNegative(t: Table, user: int, codes: seq<string>)
    requires IsPermutation(t, user, codes) && Assigned(t, user, Entries(codes), |codes|)
    ensures NonNegative(t, user)
  {
    EntriesCover(t, user, Entries(codes), SlotsOf(t, user));
    forall a | a in t && a.user == user ensures 0 <= t[a] {
      assert a in SlotsOf(t, user);
      var i :| 0 <= i < |codes| && Entries(codes)[i].code == a.code;
      assert a == Slot(user, codes[i]);
    }
  }
}
