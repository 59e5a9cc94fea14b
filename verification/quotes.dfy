/** Collecting quotes from concurrent workers: what the schedule cannot change. */
module Quotes {
  import opened Candles
  import opened Common

  datatype Quote = Quote(code: string, time: int, close: real, prevClose: real, change: real, changePercent: real,
                         closes: Option<seq<real>>)

  datatype Reason = FetchFailed | InsufficientData

  datatype QuoteFailure = QuoteFailure(code: string, reason: Reason)

  /** How one worker's Find ended; interrupted means that the request itself was over. */
  datatype FindOutcome = Found(bars: seq<Candle>) | FetchError | Interrupted

  /** A worker's slot: empty until the worker writes its quote or its failure. */
  datatype Attempt = Attempt(quote: Option<Quote>, failure: Option<QuoteFailure>)

  const EMPTY := Attempt(None, None)

  datatype Batch = Batch(quotes: seq<Quote>, failures: seq<QuoteFailure>)

  // ----- One quote

  function Least(a: nat, b: nat): nat {
    if a < b then a else b
  }

  /** Closes oldest first: the newest n bars, turned round. */
  function Chronological(cs: seq<Candle>, n: nat): (r: seq<real>)
    requires n <= |cs|
    ensures |r| == n
  {
    seq(n, i requires 0 <= i < n => cs[n - 1 - i].close)
  }

  function QuoteOf(code: string, cs: seq<Candle>, bars: int): Quote
    requires |cs| >= 2
  {
    var change := cs[0].close - cs[1].close;
    Quote(code, cs[0].time, cs[0].close, cs[1].close, change,
          if cs[1].close != 0.0 then change / cs[1].close * 100.0 else 0.0,
          if bars > 0 then Some(Chronological(cs, Least(bars, |cs|))) else None)
  }

  /**
   * The quote of newest-first bars: the newest close, how far and by how many percent it
   * is above the close before, and the newest closes from old to new.
   */
  predicate Describes(q: Quote, code: string, cs: seq<Candle>, bars: int) {
    && |cs| >= 2 && q.code == code && q.time == cs[0].time
    && q.close == cs[0].close && q.prevClose == cs[1].close && q.prevClose + q.change == q.close
    && (q.prevClose == 0.0 ==> q.changePercent == 0.0)
    && (q.prevClose != 0.0 ==> q.changePercent * q.prevClose == 100.0 * (q.close - q.prevClose))
    && (q.closes.Some? <==> bars > 0)
    && (q.closes.Some? ==>
          var closes := q.closes.value;
          && |closes| == (if bars < |cs| then bars else |cs|)
          && forall i | 0 <= i < |closes| :: closes[|closes| - 1 - i] == cs[i].close)
  }

  lemma QuoteDescribes(code: string, cs: seq<Candle>, bars: int)
    requires |cs| >= 2
    ensures Describes(QuoteOf(code, cs, bars), code, cs, bars)
  {
    var q := QuoteOf(code, cs, bars);
    if q.prevClose != 0.0 { Percent(q.change, q.prevClose); }
  }

  lemma Percent(change: real, base: real)
    requires base != 0.0
    ensures (change / base * 100.0) * base == 100.0 * change
  {
    assert change / base * base == change;
  }

  /** `buildQuote`: the closes are filled in by index. */
  method BuildQuote(code: string, cs: seq<Candle>, bars: int) returns (q: Option<Quote>)
    ensures q == if |cs| < 2 then None else Some(QuoteOf(code, cs, bars))
    ensures q.Some? <==> |cs| >= 2
    ensures q.Some? ==> Describes(q.value, code, cs, bars)
  {
    if |cs| >= 2 { QuoteDescribes(code, cs, bars); }
    if |cs| < 2 {
      return None;
    }
    var latest := cs[0];
    var prevClose := cs[1].close;
    var change := latest.close - prevClose;
    var changePercent := 0.0;
    if prevClose != 0.0 {
      changePercent := change / prevClose * 100.0;
    }
    var quote := Quote(code, latest.time, latest.close, prevClose, change, changePercent, None);
    if bars > 0 {
      var n := if bars < |cs| then bars else |cs|;
      var closes := new real[n];
      for i := 0 to n
        invariant forall j | 0 <= j < i :: closes[n - 1 - j] == cs[j].close
      {
        closes[n - 1 - i] := cs[i].close;
      }
      forall i | 0 <= i < n ensures closes[i] == Chronological(cs, n)[i] {
        assert closes[n - 1 - (n - 1 - i)] == cs[n - 1 - i].close;
      }
      assert closes[..] == Chronological(cs, n);
      quote := quote.(closes := Some(closes[..]));
    }
    return Some(quote);
  }

  // ----- One worker

  function AttemptOf(code: string, found: FindOutcome, bars: int): Attempt {
    match found
    case Found(cs) =>
      if |cs| < 2 then Attempt(None, Some(QuoteFailure(code, InsufficientData))) else Attempt(Some(QuoteOf(code, cs, bars)), None)
    case FetchError => Attempt(None, Some(QuoteFailure(code, FetchFailed)))
    case Interrupted => EMPTY
  }

  // ----- The batch, by input position

  function QuotesOf(attempts: seq<Attempt>): seq<Quote>
    decreases |attempts|
  {
    if attempts == [] then [] else
      var n := |attempts| - 1;
      QuotesOf(attempts[..n]) + if attempts[n].quote.Some? then [attempts[n].quote.value] else []
  }

  function FailuresOf(attempts: seq<Attempt>): seq<QuoteFailure>
    decreases |attempts|
  {
    if attempts == [] then [] else
      var n := |attempts| - 1;
      FailuresOf(attempts[..n]) + if attempts[n].failure.Some? then [attempts[n].failure.value] else []
  }

  function Attempts(codes: seq<string>, found: seq<FindOutcome>, bars: int): (a: seq<Attempt>)
    requires |found| == |codes|
    ensures |a| == |codes|
  {
    seq(|codes|, i requires 0 <= i < |codes| => AttemptOf(codes[i], found[i], bars))
  }

  /** A completion order: every worker finishes once. */
  ghost predicate Schedule(order: seq<nat>, n: nat) {
    && |order| == n
    && (forall k | 0 <= k < n :: order[k] < n)
    && (forall j, k | 0 <= j < k < n :: order[j] != order[k])
  }

  lemma EveryWorkerFinishes(order: seq<nat>, n: nat, i: nat)
    requires Schedule(order, n) && i < n
    ensures exists k :: 0 <= k < n && order[k] == i
  {
    FinishedSize(order, n);
    RangeFacts(n);
    assert |Range(n) - Finished(order, n)| == 0;
    assert Range(n) - Finished(order, n) == {};
    assert i in Range(n) && i !in Range(n) - Finished(order, n);
    assert i in Finished(order, n);
  }

  function Finished(order: seq<nat>, k: nat): set<nat>
    requires k <= |order|
  {
    set j | 0 <= j < k :: order[j]
  }

  lemma {:induction false} FinishedSize(order: seq<nat>, k: nat)
    requires k <= |order| && forall i, j | 0 <= i < j < |order| :: order[i] != order[j]
    ensures |Finished(order, k)| == k
    decreases k
  {
    if k > 0 {
      FinishedSize(order, k - 1);
      assert Finished(order, k) == Finished(order, k - 1) + {order[k - 1]};
    }
  }

  function Range(n: nat): set<nat> {
    if n == 0 then {} else Range(n - 1) + {n - 1}
  }

  lemma {:induction false} RangeFacts(n: nat)
    ensures |Range(n)| == n && forall i: nat :: i in Range(n) <==> i < n
    decreases n
  {
    if n > 0 { RangeFacts(n - 1); }
  }

  /**
   * `GetQuotes`: the workers finish in the order `order`, each writing its own slot, then
   * the slots are collected. The answer does not mention the order.
   */
  method GetQuotes(codes: seq<string>, found: seq<FindOutcome>, bars: int, order: seq<nat>) returns (r: Result<Batch, ()>)
    requires |found| == |codes| && Schedule(order, |codes|)
    ensures r.Failure? <==> exists i :: 0 <= i < |codes| && found[i] == Interrupted
    ensures r.Success? ==> r.value == Batch(QuotesOf(Attempts(codes, found, bars)), FailuresOf(Attempts(codes, found, bars)))
    ensures r.Success? ==> Answers(r.value, codes, found, bars)
  {
    var attempts := new Attempt[|codes|](i => EMPTY);
    var interrupted := false;
    for k := 0 to |order|
      invariant forall j | 0 <= j < k :: attempts[order[j]] == AttemptOf(codes[order[j]], found[order[j]], bars)
      invariant interrupted <==> exists j :: 0 <= j < k && found[order[j]] == Interrupted
      invariant forall i | 0 <= i < |codes| && (forall j | 0 <= j < k :: order[j] != i) :: attempts[i] == EMPTY
    {
      var i := order[k];
      var code := codes[i];
      match found[i] {
        case Interrupted => interrupted := true;
        case FetchError => attempts[i] := Attempt(None, Some(QuoteFailure(code, FetchFailed)));
        case Found(cs) =>
          var quote := BuildQuote(code, cs, bars);
          if quote.None? {
            attempts[i] := Attempt(None, Some(QuoteFailure(code, InsufficientData)));
          } else {
            attempts[i] := Attempt(quote, None);
          }
      }
    }
    forall i | 0 <= i < |codes| ensures attempts[i] == AttemptOf(codes[i], found[i], bars) {
      EveryWorkerFinishes(order, |codes|, i);
    }
    if interrupted {
      return Failure(());
    }
    forall i | 0 <= i < |codes| ensures found[i] != Interrupted { EveryWorkerFinishes(order, |codes|, i); }
    assert attempts[..] == Attempts(codes, found, bars);
    var quotes, failures := [], [];
    for i := 0 to attempts.Length
      invariant quotes == QuotesOf(attempts[..i])
      invariant failures == FailuresOf(attempts[..i])
    {
      assert attempts[..i + 1][..i] == attempts[..i];
      if attempts[i].quote.Some? {
        quotes := quotes + [attempts[i].quote.value];
      }
      if attempts[i].failure.Some? {
        failures := failures + [attempts[i].failure.value];
      }
    }
    assert attempts[..attempts.Length] == attempts[..];
    EachCodeLandsOnce(codes, found, bars);
    return Success(Batch(quotes, failures));
  }

  // ----- What the batch means

  /** The positions of the codes that got a quote, and of those that did not. */
  function Positions(codes: seq<string>, found: seq<FindOutcome>, quoted: bool): (p: seq<nat>)
    requires |found| == |codes|
    ensures forall k | 0 <= k < |p| :: p[k] < |codes|
    decreases |codes|
  {
    if codes == [] then [] else
      var n := |codes| - 1;
      Positions(codes[..n], found[..n], quoted) + if (found[n].Found? && |found[n].bars| >= 2) == quoted then [n] else []
  }

  predicate Increasing(p: seq<nat>) {
    forall j, k | 0 <= j < k < |p| :: p[j] < p[k]
  }

  /** Every position is in exactly one of the two lists; both are increasing. */
  lemma {:induction false} PositionsPartition(codes: seq<string>, found: seq<FindOutcome>)
    requires |found| == |codes|
    ensures |Positions(codes, found, true)| + |Positions(codes, found, false)| == |codes|
    ensures forall i: nat | i < |codes| :: (i in Positions(codes, found, true)) != (i in Positions(codes, found, false))
    decreases |codes|
  {
    if codes != [] {
      var n := |codes| - 1;
      PositionsPartition(codes[..n], found[..n]);
    }
  }

  lemma {:induction false} PositionsIncrease(codes: seq<string>, found: seq<FindOutcome>, quoted: bool)
    requires |found| == |codes|
    ensures Increasing(Positions(codes, found, quoted))
    decreases |codes|
  {
    if codes != [] {
      var n := |codes| - 1;
      var before := Positions(codes[..n], found[..n], quoted);
      PositionsIncrease(codes[..n], found[..n], quoted);
      assert forall k | 0 <= k < |before| :: before[k] < n;
    }
  }

  lemma {:induction false} SlotsAreCollected(codes: seq<string>, found: seq<FindOutcome>, bars: int)
    requires |found| == |codes| && forall i | 0 <= i < |codes| :: found[i] != Interrupted
    ensures var quotes, p := QuotesOf(Attempts(codes, found, bars)), Positions(codes, found, true);
            |quotes| == |p| && forall k | 0 <= k < |p| ::
              found[p[k]].Found? && |found[p[k]].bars| >= 2 && quotes[k] == QuoteOf(codes[p[k]], found[p[k]].bars, bars)
    ensures var failures, p := FailuresOf(Attempts(codes, found, bars)), Positions(codes, found, false);
            |failures| == |p| && forall k | 0 <= k < |p| ::
              failures[k] == QuoteFailure(codes[p[k]], if found[p[k]].FetchError? then FetchFailed else InsufficientData)
    decreases |codes|
  {
    if codes != [] {
      var n := |codes| - 1;
      SlotsAreCollected(codes[..n], found[..n], bars);
      assert Attempts(codes, found, bars)[..n] == Attempts(codes[..n], found[..n], bars);
    }
  }

  /** The answer of a batch: the quoted positions in order with their quotes, the failed ones in order with the reason. */
  ghost predicate Answers(r: Batch, codes: seq<string>, found: seq<FindOutcome>, bars: int)
    requires |found| == |codes|
  {
    && (var p := Positions(codes, found, true);
        |r.quotes| == |p| && forall k | 0 <= k < |p| ::
          found[p[k]].Found? && |found[p[k]].bars| >= 2 && Describes(r.quotes[k], codes[p[k]], found[p[k]].bars, bars))
    && (var p := Positions(codes, found, false);
        |r.failures| == |p| && forall k | 0 <= k < |p| ::
          r.failures[k].code == codes[p[k]] && r.failures[k].reason == if found[p[k]].FetchError? then FetchFailed else InsufficientData)
  }

  /** Each code lands in exactly one list, at its place in the input order, with its own bars. */
  lemma EachCodeLandsOnce(codes: seq<string>, found: seq<FindOutcome>, bars: int)
    requires |found| == |codes| && forall i | 0 <= i < |codes| :: found[i] != Interrupted
    ensures Answers(Batch(QuotesOf(Attempts(codes, found, bars)), FailuresOf(Attempts(codes, found, bars))), codes, found, bars)
  {
    SlotsAreCollected(codes, found, bars);
    var p := Positions(codes, found, true);
    forall k | 0 <= k < |p| ensures Describes(QuotesOf(Attempts(codes, found, bars))[k], codes[p[k]], found[p[k]].bars, bars) {
      QuoteDescribes(codes[p[k]], found[p[k]].bars, bars);
    }
  }

  /** The positions of the quoted codes are those with at least two bars. */
  lemma {:induction false} QuotedPositions(codes: seq<string>, found: seq<FindOutcome>, quoted: bool)
    requires |found| == |codes|
    ensures forall i: nat | i < |codes| :: i in Positions(codes, found, quoted) <==> (found[i].Found? && |found[i].bars| >= 2) == quoted
    decreases |codes|
  {
    if codes != [] { QuotedPositions(codes[..|codes| - 1], found[..|codes| - 1], quoted); }
  }

  /** The sparkline ends with the newest close and runs in time order if the bars are newest first. */
  lemma ClosesRunForward(code: string, cs: seq<Candle>, bars: int, i: nat, j: nat)
    requires |cs| >= 2 && bars > 0 && forall a, b | 0 <= a < b < |cs| :: cs[b].time < cs[a].time
    requires i < j < Least(bars, |cs|)
    ensures var n, closes := Least(bars, |cs|), QuoteOf(code, cs, bars).closes.value;
            && closes[i] == cs[n - 1 - i].close && closes[j] == cs[n - 1 - j].close && cs[n - 1 - i].time < cs[n - 1 - j].time
            && closes[n - 1] == QuoteOf(code, cs, bars).close
  {
  }
}
