/** The blocking rate limiter of the batch jobs. */
module FixedWindow {
  // A fixed window, a sleep, and a rollback on cancellation.

  import opened Common

  datatype Config = Config(limit: int, interval: int)

  datatype Counter = Counter(count: int, lastReset: int)

  /** One call: the clock at its start, and the clock when it woke up; None if it was cancelled while asleep. */
  datatype Call = Call(now: int, wake: Option<int>)

  // ----- One call as a function

  function AtEntry(c: Config, s: Counter, now: int): Counter {
    if now - s.lastReset >= c.interval then Counter(0, now) else s
  }

  predicate Waits(c: Config, s: Counter, now: int) {
    AtEntry(c, s, now).count + 1 > c.limit
  }

  function Sleep(c: Config, s: Counter, now: int): int {
    c.interval - (now - AtEntry(c, s, now).lastReset)
  }

  /** A sleeping call wakes no sooner than its timer allows; the clock does not go back. */
  predicate Timely(c: Config, s: Counter, call: Call) {
    && s.lastReset <= call.now
    && (call.wake.None? ==> Waits(c, s, call.now) && Sleep(c, s, call.now) > 0)
    && (call.wake.Some? && Waits(c, s, call.now) ==>
         call.now <= call.wake.value && call.now + Sleep(c, s, call.now) <= call.wake.value)
  }

  function After(c: Config, s: Counter, call: Call): Counter {
    var e := AtEntry(c, s, call.now);
    if !Waits(c, s, call.now) then e.(count := e.count + 1)
    else if call.wake.None? then e
    else Counter(1, call.wake.value)
  }

  /** When the call was granted, if it was. */
  function Granted(c: Config, s: Counter, call: Call): Option<int> {
    if !Waits(c, s, call.now) then Some(call.now) else call.wake
  }

  class RateLimiter {
    const limit: int
    const interval: int
    var count: int
    var lastReset: int

    constructor (limit: int, interval: int, now: int)
      ensures this.limit == limit && this.interval == interval && Value() == Counter(0, now)
    {
      this.limit, this.interval := limit, interval;
      count, lastReset := 0, now;
    }

    function Value(): Counter
      reads this
    {
      Counter(count, lastReset)
    }

    /** `now` and `wake` are the two clock readings; wake is None if the context ends during the sleep. */
    method WaitIfNeeded(now: int, wake: Option<int>) returns (ok: bool)
      requires Timely(Config(limit, interval), Value(), Call(now, wake))
      modifies `count, `lastReset
      ensures Value() == After(Config(limit, interval), old(Value()), Call(now, wake))
      ensures ok <==> Granted(Config(limit, interval), old(Value()), Call(now, wake)).Some?
      ensures !ok && limit >= 1 ==> Value() == old(Value())
      ensures limit >= 1 && old(lastReset) + interval <= now ==> ok && count == 1 && lastReset == now
      ensures limit >= 1 && now < old(lastReset) + interval && old(count) < limit ==>
              ok && count == old(count) + 1 && lastReset == old(lastReset)
      ensures limit >= 1 && now < old(lastReset) + interval && old(count) >= limit ==>
              && (ok <==> wake.Some?)
              && (wake.Some? ==> count == 1 && lastReset == wake.value && old(lastReset) + interval <= wake.value)
    {
      if now - lastReset >= interval {
        count := 0;
        lastReset := now;
      }
      count := count + 1;
      if count > limit {
        var sleep := interval - (now - lastReset);
        if sleep > 0 {
          if wake.None? {
            count := count - 1;
            return false;
          }
        }
        count := 1;
        lastReset := wake.value;
      }
      return true;
    }
  }

  // ----- Cancellation

  /** A cancelled wait restores the counter unless it began with a reset; with a limit of at least one it never does. */
  lemma CancellationRestores(c: Config, s: Counter, call: Call)
    requires Timely(c, s, call) && call.wake.None?
    ensures After(c, s, call) == s <==> call.now - s.lastReset < c.interval || s == Counter(0, call.now)
    ensures c.limit >= 1 ==> After(c, s, call) == s
  {
  }

  // ----- How long a call waits

  /**
   * A call that finds the window full is granted when the window ends, at the earliest,
   * and may be granted then: it sleeps neither too short nor too long.
   */
  lemma WaitsForTheWindowsEnd(c: Config, s: Counter, now: int, wake: int)
    requires s.lastReset <= now < s.lastReset + c.interval && s.count >= c.limit
    ensures Timely(c, s, Call(now, Some(wake))) <==> s.lastReset + c.interval <= wake
    ensures Granted(c, s, Call(now, Some(wake))) == Some(wake) && After(c, s, Call(now, Some(wake))) == Counter(1, wake)
    ensures Granted(c, s, Call(now, None)) == None && After(c, s, Call(now, None)) == s
  {
  }

  // ----- Runs

  datatype Grant = Grant(time: int, window: nat)

  /** `starts`: every value `lastReset` took; `clock`: the last clock reading. */
  datatype Trace = Trace(counter: Counter, starts: seq<int>, grants: seq<Grant>, clock: int)

  function Begin(now: int): Trace {
    Trace(Counter(0, now), [now], [], now)
  }

  function Starts(c: Config, t: Trace, call: Call): seq<int> {
    t.starts
    + (if call.now - t.counter.lastReset >= c.interval then [call.now] else [])
    + (if Waits(c, t.counter, call.now) && call.wake.Some? then [call.wake.value] else [])
  }

  function Next(c: Config, t: Trace, call: Call): Trace
    requires t.starts != []
  {
    var after := After(c, t.counter, call);
    var starts := Starts(c, t, call);
    var granted := Granted(c, t.counter, call);
    Trace(after, starts,
          if granted.Some? then t.grants + [Grant(granted.value, |starts| - 1)] else t.grants,
          if call.wake.Some? && Waits(c, t.counter, call.now) then call.wake.value else call.now)
  }

  function Run(c: Config, begin: int, calls: seq<Call>): (t: Trace)
    ensures t.starts != []
    decreases |calls|
  {
    if calls == [] then Begin(begin) else Next(c, Run(c, begin, calls[..|calls| - 1]), calls[|calls| - 1])
  }

  /** Every call is timely where it happens, and starts after the previous one ended. */
  ghost predicate TimelyRun(c: Config, begin: int, calls: seq<Call>) {
    forall n | 0 <= n < |calls| ::
      var t := Run(c, begin, calls[..n]);
      t.clock <= calls[n].now && Timely(c, t.counter, calls[n])
  }

  function InWindows(grants: seq<Grant>, lo: int, hi: int): nat
    decreases |grants|
  {
    if grants == [] then 0
    else InWindows(grants[..|grants| - 1], lo, hi) + if lo <= grants[|grants| - 1].window <= hi then 1 else 0
  }

  lemma InWindowsMore(grants: seq<Grant>, g: Grant, lo: int, hi: int)
    ensures InWindows(grants + [g], lo, hi) == InWindows(grants, lo, hi) + if lo <= g.window <= hi then 1 else 0
  {
    assert (grants + [g])[..|grants|] == grants;
  }

  predicate Spaced(starts: seq<int>, interval: int) {
    forall i | 0 <= i < |starts| - 1 :: starts[i] + interval <= starts[i + 1]
  }

  predicate InItsWindow(t: Trace, g: Grant) {
    && g.window < |t.starts| && t.starts[g.window] <= g.time <= t.clock
    && (g.window + 1 < |t.starts| ==> g.time <= t.starts[g.window + 1])
  }

  predicate Bounded(t: Trace, limit: int, w: int) {
    InWindows(t.grants, w, w) <= limit
  }

  ghost predicate Inv(c: Config, t: Trace) {
    && t.starts != [] && t.counter.lastReset == t.starts[|t.starts| - 1] <= t.clock
    && Spaced(t.starts, c.interval)
    && t.counter.count == InWindows(t.grants, |t.starts| - 1, |t.starts| - 1) <= c.limit
    && (forall w {:trigger Bounded(t, c.limit, w)} :: Bounded(t, c.limit, w))
    && (forall i | 0 <= i < |t.grants| :: InItsWindow(t, t.grants[i]))
  }

  lemma {:induction false} NoGrantsYet(grants: seq<Grant>, lo: int, hi: int)
    requires forall i | 0 <= i < |grants| :: grants[i].window < lo
    ensures InWindows(grants, lo, hi) == 0
    decreases |grants|
  {
    if grants != [] { NoGrantsYet(grants[..|grants| - 1], lo, hi); }
  }

  // A call opens a window, joins the current one, or is cancelled.

  function Open(t: Trace, at: int): Trace {
    Trace(Counter(1, at), t.starts + [at], t.grants + [Grant(at, |t.starts|)], at)
  }

  function Join(t: Trace, at: int): Trace
    requires t.starts != []
  {
    Trace(t.counter.(count := t.counter.count + 1), t.starts, t.grants + [Grant(at, |t.starts| - 1)], at)
  }

  lemma NextIs(c: Config, t: Trace, call: Call)
    requires c.limit >= 1 && t.starts != [] && Timely(c, t.counter, call)
    ensures Next(c, t, call) ==
            if call.now - t.counter.lastReset >= c.interval then Open(t, call.now)
            else if t.counter.count + 1 <= c.limit then Join(t, call.now)
            else if call.wake.None? then t.(clock := call.now)
            else Open(t, call.wake.value)
  {
    assert t.starts + [] == t.starts;
  }

  lemma OpenKeepsInv(c: Config, t: Trace, at: int)
    requires c.limit >= 1 && Inv(c, t) && t.clock <= at && t.counter.lastReset + c.interval <= at
    ensures Inv(c, Open(t, at))
  {
    var n := Open(t, at);
    var g := Grant(at, |t.starts|);
    forall i | 0 <= i < |t.grants| ensures t.grants[i].window < |t.starts| && InItsWindow(n, t.grants[i]) {
      assert InItsWindow(t, t.grants[i]);
    }
    NoGrantsYet(t.grants, |t.starts|, |t.starts|);
    InWindowsMore(t.grants, g, |t.starts|, |t.starts|);
    forall w ensures Bounded(n, c.limit, w) {
      assert Bounded(t, c.limit, w);
      InWindowsMore(t.grants, g, w, w);
    }
    assert InItsWindow(n, g);
  }

  lemma JoinKeepsInv(c: Config, t: Trace, at: int)
    requires Inv(c, t) && t.clock <= at && t.counter.count + 1 <= c.limit
    ensures Inv(c, Join(t, at))
  {
    var n := Join(t, at);
    var last := |t.starts| - 1;
    var g := Grant(at, last);
    InWindowsMore(t.grants, g, last, last);
    forall w ensures Bounded(n, c.limit, w) {
      assert Bounded(t, c.limit, w);
      InWindowsMore(t.grants, g, w, w);
    }
    forall i | 0 <= i < |t.grants| ensures InItsWindow(n, t.grants[i]) { assert InItsWindow(t, t.grants[i]); }
    assert InItsWindow(n, g);
  }

  lemma CancelKeepsInv(c: Config, t: Trace, at: int)
    requires Inv(c, t) && t.clock <= at
    ensures Inv(c, t.(clock := at))
  {
    var n := t.(clock := at);
    forall w ensures Bounded(n, c.limit, w) { assert Bounded(t, c.limit, w); }
    forall i | 0 <= i < |t.grants| ensures InItsWindow(n, t.grants[i]) { assert InItsWindow(t, t.grants[i]); }
  }

  lemma NextKeepsInv(c: Config, t: Trace, call: Call)
    requires c.limit >= 1 && Inv(c, t)
    requires t.clock <= call.now && Timely(c, t.counter, call)
    ensures Inv(c, Next(c, t, call))
  {
    NextIs(c, t, call);
    if call.now - t.counter.lastReset >= c.interval {
      OpenKeepsInv(c, t, call.now);
    } else if t.counter.count + 1 <= c.limit {
      JoinKeepsInv(c, t, call.now);
    } else if call.wake.None? {
      CancelKeepsInv(c, t, call.now);
    } else {
      OpenKeepsInv(c, t, call.wake.value);
    }
  }

  lemma {:induction false} RunKeepsInv(c: Config, begin: int, calls: seq<Call>)
    requires c.limit >= 1 && TimelyRun(c, begin, calls)
    ensures Inv(c, Run(c, begin, calls))
    decreases |calls|
  {
    if calls != [] {
      var n := |calls| - 1;
      assert forall i | 0 <= i < n :: calls[..n][..i] == calls[..i];
      RunKeepsInv(c, begin, calls[..n]);
      NextKeepsInv(c, Run(c, begin, calls[..n]), calls[n]);
    } else {
      forall w ensures Bounded(Begin(begin), c.limit, w) {}
    }
  }

  // ----- Main results

  /** Window starts are at least one interval apart, and no window grants more than `limit` calls. */
  lemma WindowsAreSpacedAndBounded(c: Config, begin: int, calls: seq<Call>, w: nat)
    requires c.limit >= 1 && TimelyRun(c, begin, calls)
    ensures Spaced(Run(c, begin, calls).starts, c.interval)
    ensures InWindows(Run(c, begin, calls).grants, w, w) <= c.limit
  {
    RunKeepsInv(c, begin, calls);
    assert Bounded(Run(c, begin, calls), c.limit, w);
  }

  /** Grants at or after `from` and before `to`. */
  function InSpan(grants: seq<Grant>, from: int, to: int): nat
    decreases |grants|
  {
    if grants == [] then 0
    else InSpan(grants[..|grants| - 1], from, to) + if from <= grants[|grants| - 1].time < to then 1 else 0
  }

  lemma {:induction false} SpanFitsWindows(grants: seq<Grant>, from: int, to: int, lo: int, hi: int)
    requires forall i | 0 <= i < |grants| && from <= grants[i].time < to :: lo <= grants[i].window <= hi
    ensures InSpan(grants, from, to) <= InWindows(grants, lo, hi)
    decreases |grants|
  {
    if grants != [] { SpanFitsWindows(grants[..|grants| - 1], from, to, lo, hi); }
  }

  lemma {:induction false} WindowsAddUp(grants: seq<Grant>, lo: int, hi: int)
    requires lo <= hi
    ensures InWindows(grants, lo, hi) == InWindows(grants, lo, hi - 1) + InWindows(grants, hi, hi)
    decreases |grants|
  {
    if grants != [] { WindowsAddUp(grants[..|grants| - 1], lo, hi); }
  }

  lemma {:induction false} ManyWindows(c: Config, t: Trace, lo: int, count: nat)
    requires c.limit >= 1 && Inv(c, t)
    ensures InWindows(t.grants, lo, lo + count) <= (count + 1) * c.limit
    decreases count
  {
    assert Bounded(t, c.limit, lo + count);
    if count > 0 {
      ManyWindows(c, t, lo, count - 1);
      WindowsAddUp(t.grants, lo, lo + count);
      assert (count + 1) * c.limit == count * c.limit + c.limit;
    }
  }

  lemma {:induction false} FarApart(starts: seq<int>, interval: int, a: nat, b: nat)
    requires Spaced(starts, interval) && a <= b < |starts|
    ensures starts[a] + (b - a) * interval <= starts[b]
    decreases b
  {
    if a < b {
      FarApart(starts, interval, a, b - 1);
      assert (b - a) * interval == (b - 1 - a) * interval + interval;
    }
  }

  /** The earliest window of a grant at or after `from`. */
  lemma {:induction false} EarliestWindow(t: Trace, n: nat, from: int, to: int) returns (first: nat)
    requires n <= |t.grants|
    ensures forall i | 0 <= i < n && from <= t.grants[i].time < to :: first <= t.grants[i].window
    ensures (exists i :: 0 <= i < n && from <= t.grants[i].time < to && t.grants[i].window == first) ||
            (forall i | 0 <= i < n :: !(from <= t.grants[i].time < to))
    decreases n
  {
    if n == 0 { return 0; }
    first := EarliestWindow(t, n - 1, from, to);
    var g := t.grants[n - 1];
    if from <= g.time < to {
      if g.window < first || (forall i | 0 <= i < n - 1 :: !(from <= t.grants[i].time < to)) {
        first := g.window;
      }
      assert exists i :: 0 <= i < n && from <= t.grants[i].time < to && t.grants[i].window == first;
    }
  }

  lemma WindowIsNear(c: Config, t: Trace, from: int, k: nat, first: Grant, g: Grant)
    requires c.interval >= 1 && Inv(c, t) && InItsWindow(t, first) && InItsWindow(t, g)
    requires from <= first.time && g.time < from + k * c.interval && first.window <= g.window
    ensures g.window <= first.window + k
  {
    if first.window + k < g.window {
      FarApart(t.starts, c.interval, first.window + 1, g.window);
      var d := g.window - first.window - 1;
      assert k <= d;
      Monotone(k, d, c.interval);
      assert false;
    }
  }

  lemma Monotone(k: int, d: int, interval: int)
    requires k <= d && interval >= 1
    ensures k * interval <= d * interval
  {
  }

  predicate InRange(t: Trace, i: nat, from: int, to: int) {
    i < |t.grants| && from <= t.grants[i].time < to
  }

  lemma SpanTouchesFewWindows(c: Config, t: Trace, from: int, k: nat, to: int) returns (first: nat)
    requires c.interval >= 1 && Inv(c, t) && to == from + k * c.interval
    ensures forall i: nat | InRange(t, i, from, to) :: first <= t.grants[i].window <= first + k
  {
    first := EarliestWindow(t, |t.grants|, from, to);
    forall i: nat | InRange(t, i, from, to) ensures first <= t.grants[i].window <= first + k {
      var j :| 0 <= j < |t.grants| && from <= t.grants[j].time < to && t.grants[j].window == first;
      WindowIsNear(c, t, from, k, t.grants[j], t.grants[i]);
    }
  }

  lemma SpanOfTrace(c: Config, t: Trace, from: int, k: nat, to: int)
    requires c.limit >= 1 && c.interval >= 1 && Inv(c, t) && to == from + k * c.interval
    ensures InSpan(t.grants, from, to) <= (k + 1) * c.limit
  {
    var first := SpanTouchesFewWindows(c, t, from, k, to);
    forall i | 0 <= i < |t.grants| && from <= t.grants[i].time < to ensures first <= t.grants[i].window <= first + k {
      assert InRange(t, i, from, to);
    }
    SpanFitsWindows(t.grants, from, to, first, first + k);
    ManyWindows(c, t, first, k);
  }

  /** Any span of k intervals holds at most (k + 1) * limit granted calls. */
  lemma SpansAreBounded(c: Config, begin: int, calls: seq<Call>, from: int, k: nat)
    requires c.limit >= 1 && c.interval >= 1 && TimelyRun(c, begin, calls)
    ensures InSpan(Run(c, begin, calls).grants, from, from + k * c.interval) <= (k + 1) * c.limit
  {
    RunKeepsInv(c, begin, calls);
    SpanOfTrace(c, Run(c, begin, calls), from, k, from + k * c.interval);
  }
}
