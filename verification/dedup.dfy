/** `dedupCandles`: one bar per symbol, interval and second. */
module Dedup {
  import Decimal
  import Separators
  import opened Candles
  import opened CandleRepository

  /** `fmt.Sprintf("%s|%s|%d", symbol, interval, unix)` */
  function DedupKey(c: Candle): string {
    c.symbol + "|" + c.interval + "|" + Decimal.Format(c.time, 0)
  }

  function KeySet(s: seq<Candle>): set<string> {
    set c | c in s :: DedupKey(c)
  }

  function Deduped(s: seq<Candle>): seq<Candle>
    decreases |s|
  {
    if s == [] then [] else
      var n := |s| - 1;
      Deduped(s[..n]) + if DedupKey(s[n]) in KeySet(s[..n]) then [] else [s[n]]
  }

  method DedupCandles(candles: seq<Candle>) returns (out: seq<Candle>)
    ensures out == Deduped(candles)
  {
    var seen: set<string> := {};
    out := [];
    for i := 0 to |candles|
      invariant seen == KeySet(candles[..i])
      invariant out == Deduped(candles[..i])
    {
      var c := candles[i];
      var key := DedupKey(c);
      KeySetOfMore(candles[..i], c);
      assert candles[..i + 1] == candles[..i] + [c];
      assert (candles[..i] + [c])[..i] == candles[..i];
      if key !in seen {
        seen := seen + {key};
        out := out + [c];
      }
    }
    assert candles[..|candles|] == candles;
  }

  lemma KeySetOfMore(s: seq<Candle>, c: Candle)
    ensures KeySet(s + [c]) == KeySet(s) + {DedupKey(c)}
  {
    assert forall d :: d in s + [c] <==> d in s || d == c;
  }

  // ----- First occurrences

  predicate FirstOccurrence(s: seq<Candle>, i: nat)
    requires i < |s|
  {
    forall j | 0 <= j < i :: DedupKey(s[j]) != DedupKey(s[i])
  }

  /** The positions of the first occurrences, in order. */
  function Firsts(s: seq<Candle>, n: nat): (r: seq<nat>)
    requires n <= |s|
    ensures forall k | 0 <= k < |r| :: r[k] < n
  {
    if n == 0 then [] else Firsts(s, n - 1) + if FirstOccurrence(s, n - 1) then [n - 1] else []
  }

  lemma {:induction false} FirstsAreTheFirstOccurrences(s: seq<Candle>, n: nat)
    requires n <= |s|
    ensures forall i: nat | i < n :: i in Firsts(s, n) <==> FirstOccurrence(s, i)
    decreases n
  {
    if n > 0 { FirstsAreTheFirstOccurrences(s, n - 1); }
  }

  predicate Increasing(p: seq<nat>) {
    forall j, k | 0 <= j < k < |p| :: p[j] < p[k]
  }

  lemma {:induction false} FirstsIncrease(s: seq<Candle>, n: nat)
    requires n <= |s|
    ensures Increasing(Firsts(s, n))
    decreases n
  {
    if n > 0 {
      FirstsIncrease(s, n - 1);
      var before := Firsts(s, n - 1);
      assert forall k | 0 <= k < |before| :: before[k] < n - 1;
    }
  }

  lemma {:induction false} DedupedPicksFirsts(s: seq<Candle>, n: nat)
    requires n <= |s|
    ensures |Deduped(s[..n])| == |Firsts(s, n)|
    ensures forall k | 0 <= k < |Firsts(s, n)| :: Deduped(s[..n])[k] == s[Firsts(s, n)[k]]
    decreases n
  {
    if n > 0 {
      DedupedPicksFirsts(s, n - 1);
      var before := s[..n - 1];
      assert s[..n][..n - 1] == before;
      assert DedupKey(s[n - 1]) in KeySet(before) <==> !FirstOccurrence(s, n - 1) by {
        if j :| 0 <= j < n - 1 && DedupKey(s[j]) == DedupKey(s[n - 1]) {
          assert before[j] in before;
        }
      }
    }
  }

  /** The output is the first occurrences of the input's keys, in the input's order. */
  lemma KeepsFirstOccurrences(s: seq<Candle>)
    ensures |Deduped(s)| == |Firsts(s, |s|)|
    ensures forall k | 0 <= k < |Deduped(s)| :: Deduped(s)[k] == s[Firsts(s, |s|)[k]]
    ensures forall i: nat | i < |s| :: i in Firsts(s, |s|) <==> FirstOccurrence(s, i)
    ensures Increasing(Firsts(s, |s|))
  {
    assert s[..|s|] == s;
    FirstsIncrease(s, |s|);
    DedupedPicksFirsts(s, |s|);
    FirstsAreTheFirstOccurrences(s, |s|);
  }

  // ----- Distinct keys

  predicate DistinctDedupKeys(s: seq<Candle>) {
    forall i, j | 0 <= i < j < |s| :: DedupKey(s[i]) != DedupKey(s[j])
  }

  lemma {:induction false} DedupedKeys(s: seq<Candle>)
    ensures DistinctDedupKeys(Deduped(s))
    ensures KeySet(Deduped(s)) == KeySet(s)
    ensures forall c | c in Deduped(s) :: c in s
    decreases |s|
  {
    if s != [] {
      var n := |s| - 1;
      var before, c, d := s[..n], s[n], Deduped(s[..n]);
      DedupedKeys(before);
      assert s == before + [c];
      KeySetOfMore(before, c);
      KeySetOfMore(d, c);
      if DedupKey(c) !in KeySet(before) {
        forall i | 0 <= i < |d| ensures DedupKey(d[i]) != DedupKey(c) {
          assert d[i] in d;
        }
      }
    }
  }

  lemma {:induction false} DistinctIsFixed(s: seq<Candle>)
    requires DistinctDedupKeys(s)
    ensures Deduped(s) == s
    decreases |s|
  {
    if s != [] {
      var n := |s| - 1;
      DistinctIsFixed(s[..n]);
      assert s == s[..n] + [s[n]];
    }
  }

  /** Deduplicating twice is deduplicating once. */
  lemma DedupIsIdempotent(s: seq<Candle>)
    ensures Deduped(Deduped(s)) == Deduped(s)
  {
    DedupedKeys(s);
    DistinctIsFixed(Deduped(s));
  }

  // ----- The string key against the row key

  /** For intervals without a bar character the string key tells rows apart, whatever the symbols hold. */
  lemma DedupKeyIsRowKey(c: Candle, d: Candle)
    requires '|' !in c.interval && '|' !in d.interval
    ensures DedupKey(c) == DedupKey(d) <==> KeyOf(c) == KeyOf(d)
  {
    if DedupKey(c) == DedupKey(d) {
      var x, y := Decimal.Format(c.time, 0), Decimal.Format(d.time, 0);
      Decimal.FormatChars(c.time, 0);
      Decimal.FormatChars(d.time, 0);
      Separators.SplitAtLast(c.symbol + "|" + c.interval, d.symbol + "|" + d.interval, '|', x, y);
      Separators.SplitAtLast(c.symbol, d.symbol, '|', c.interval, d.interval);
      Decimal.ParseOfFormat(c.time, 0);
      Decimal.ParseOfFormat(d.time, 0);
    }
  }

  /** Without that condition it does not: two different rows, one key. */
  lemma BarCharactersCollide() returns (c: Candle, d: Candle)
    ensures KeyOf(c) != KeyOf(d) && DedupKey(c) == DedupKey(d)
  {
    c := Candle("A", "x|y", 0, "", 0.0, 0.0, 0.0, 0.0, 0);
    d := Candle("A|x", "y", 0, "", 0.0, 0.0, 0.0, 0.0, 0);
    assert "A" + "|" + "x|y" == "A|x" + "|" + "y";
  }
}
