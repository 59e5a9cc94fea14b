/** The Redis sliding-window log behind the HTTP rate limiter. */
module SlidingWindow {
  import opened Common

  const SECOND := 1_000_000_000     // in nanoseconds
  const MILLISECOND := 1_000_000
  const MILLIS := 1000              // milliseconds in a second

  /** A timestamp with its random suffix; no two requests draw the same one. */
  datatype Member = Member(time: int, suffix: nat)

  /** A sorted set and its expiry in milliseconds. An absent key is an empty set without expiry. */
  datatype Log = Log(scores: map<Member, int>, expires: Option<int>)

  const ABSENT := Log(map[], None)

  datatype Request = Request(
    now: int,         // the caller's clock, in nanoseconds: score and window
    redisNow: int,    // Redis's clock when the script runs, in milliseconds: expiry
    member: Member)

  // ----- The script

  function TtlSeconds(window: int): int
    requires window >= 0
  {
    if window / SECOND > 1 then window / SECOND else 1
  }

  /** A key is gone once the clock is past its expiry, not at it. */
  function Expired(l: Log, redisNow: int): Log {
    if l.expires.Some? && l.expires.value < redisNow then ABSENT else l
  }

  /** `ZREMRANGEBYSCORE key -inf start`; a set that becomes empty is deleted. */
  function Trimmed(l: Log, start: int): Log {
    var scores := l.scores - (set m | m in l.scores && l.scores[m] <= start);
    if scores == map[] then ABSENT else Log(scores, l.expires)
  }

  function Script(l: Log, limit: int, window: int, r: Request): (Log, bool)
    requires window >= 0
  {
    var t := Trimmed(Expired(l, r.redisNow), r.now - window);
    if |t.scores| < limit then
      (Log(t.scores[r.member := r.now], Some(r.redisNow + TtlSeconds(window) * MILLIS)), true)
    else (t, false)
  }

  // ----- The admission history it stands for

  function Above(history: seq<int>, x: int): nat
    decreases |history|
  {
    if history == [] then 0
    else Above(history[..|history| - 1], x) + if history[|history| - 1] > x then 1 else 0
  }

  /** Admit iff fewer than `limit` earlier admissions lie in the window. */
  predicate Admits(history: seq<int>, limit: int, window: int, now: int) {
    Above(history, now - window) < limit
  }

  // ----- Runs

  datatype State = State(log: Log, history: seq<int>)

  function Next(s: State, limit: int, window: int, r: Request): State
    requires window >= 0
  {
    var (log, allowed) := Script(s.log, limit, window, r);
    State(log, if allowed then s.history + [r.now] else s.history)
  }

  function Run(limit: int, window: int, requests: seq<Request>): State
    requires window >= 0
    decreases |requests|
  {
    if requests == [] then State(ABSENT, [])
    else Next(Run(limit, window, requests[..|requests| - 1]), limit, window, requests[|requests| - 1])
  }

  /** Timestamps do not go back, and members are not drawn twice. */
  ghost predicate Ordered(requests: seq<Request>) {
    forall i, j | 0 <= i < j < |requests| :: requests[i].now <= requests[j].now && requests[i].member != requests[j].member
  }

  /** Between two requests Redis's clock gains at most `skew` nanoseconds on the callers' clock. */
  ghost predicate Skewed(requests: seq<Request>, skew: int) {
    forall i, j | 0 <= i < j < |requests| ::
      (requests[j].redisNow - requests[i].redisNow) * MILLISECOND - (requests[j].now - requests[i].now) <= skew
  }

  // ----- The log is the recent part of the history

  function Later(scores: map<Member, int>, x: int): set<Member> {
    set m | m in scores && scores[m] > x
  }

  /** From x on, the log and the history agree. */
  predicate AgreeAt(s: State, x: int) {
    |Later(s.log.scores, x)| == Above(s.history, x)
  }

  /** x is not before the last request's window. */
  predicate Reaches(seen: seq<Request>, window: int, x: int) {
    seen == [] || seen[|seen| - 1].now - window <= x
  }

  /** s is what the requests `seen` lead to: the log holds what the history has since the last window began. */
  ghost predicate Mirrors(s: State, seen: seq<Request>, window: int)
    requires window >= 0
  {
    && (forall m | m in s.log.scores :: m in Members(seen) && s.log.expires.Some?)
    && (forall j | 0 <= j < |s.history| :: seen != [] && s.history[j] <= seen[|seen| - 1].now)
    && (forall m | m in s.log.scores :: seen != [] && s.log.scores[m] <= seen[|seen| - 1].now)
    && (forall x {:trigger AgreeAt(s, x)} | Reaches(seen, window, x) :: AgreeAt(s, x))
    && (s.log.expires.Some? ==> exists i: nat :: LastAdmission(s, seen, window, i))
  }

  function Members(seen: seq<Request>): set<Member> {
    set r | r in seen :: r.member
  }

  /** The i-th request was the last one admitted, and set the expiry. */
  predicate LastAdmission(s: State, seen: seq<Request>, window: int, i: nat)
    requires window >= 0
  {
    && i < |seen| && s.log.expires == Some(seen[i].redisNow + TtlSeconds(window) * MILLIS)
    && (forall j | 0 <= j < |s.history| :: s.history[j] <= seen[i].now)
    && (forall m | m in s.log.scores :: s.log.scores[m] <= seen[i].now)
  }

  lemma {:induction false} NothingAbove(history: seq<int>, x: int)
    requires forall j | 0 <= j < |history| :: history[j] <= x
    ensures Above(history, x) == 0
    decreases |history|
  {
    if history != [] {
      NothingAbove(history[..|history| - 1], x);
    }
  }

  lemma AboveMore(history: seq<int>, t: int, x: int)
    ensures Above(history + [t], x) == Above(history, x) + if t > x then 1 else 0
  {
    assert (history + [t])[..|history|] == history;
  }

  /** The key outlives the window: it is gone a millisecond after its time at the earliest, less what Redis's clock gains. */
  predicate Covered(window: int, skew: int) {
    0 <= window && window + skew <= TtlSeconds(window) * SECOND + MILLISECOND
  }

  /** If the key has expired, the window holds no admission either. */
  lemma ExpiryOnlyDropsOld(s: State, seen: seq<Request>, window: int, skew: int, r: Request)
    requires Covered(window, skew) && Mirrors(s, seen, window) && Skewed(seen + [r], skew)
    requires s.log.expires.Some? && s.log.expires.value < r.redisNow
    ensures forall j | 0 <= j < |s.history| :: s.history[j] <= r.now - window
    ensures forall m | m in s.log.scores :: s.log.scores[m] <= r.now - window
  {
    var i: nat :| LastAdmission(s, seen, window, i);
    ClocksAgree(seen, r, i, skew);
  }

  lemma ClocksAgree(seen: seq<Request>, r: Request, i: nat, skew: int)
    requires Skewed(seen + [r], skew) && i < |seen|
    ensures (r.redisNow - seen[i].redisNow) * MILLISECOND - (r.now - seen[i].now) <= skew
  {
    var all := seen + [r];
    assert all[i] == seen[i];
    assert all[|seen|] == r;
  }

  lemma LastIsNotLater(seen: seq<Request>, r: Request)
    requires Ordered(seen + [r])
    ensures seen != [] ==> seen[|seen| - 1].now <= r.now
    ensures r.member !in Members(seen)
  {
    if seen != [] { assert (seen + [r])[|seen| - 1] == seen[|seen| - 1] && (seen + [r])[|seen|] == r; }
    forall q | q in seen ensures q.member != r.member {
      var i :| 0 <= i < |seen| && seen[i] == q;
      assert (seen + [r])[i] == q && (seen + [r])[|seen|] == r;
    }
  }

  function AtRequest(s: State, window: int, r: Request): Log {
    Trimmed(Expired(s.log, r.redisNow), r.now - window)
  }

  /** What the script counts is what the full history has in the window. */
  lemma TrimmedCounts(s: State, seen: seq<Request>, window: int, skew: int, r: Request)
    requires Covered(window, skew) && Mirrors(s, seen, window) && Ordered(seen + [r]) && Skewed(seen + [r], skew)
    ensures var t := AtRequest(s, window, r);
            && |t.scores| == Above(s.history, r.now - window)
            && (forall x | x >= r.now - window :: |Later(t.scores, x)| == Above(s.history, x))
            && (forall m | m in t.scores :: m in s.log.scores && t.scores[m] == s.log.scores[m])
  {
    var start := r.now - window;
    var t := AtRequest(s, window, r);
    LastIsNotLater(seen, r);
    if s.log.expires.Some? && s.log.expires.value < r.redisNow {
      ExpiryOnlyDropsOld(s, seen, window, skew, r);
      forall x | x >= start ensures |Later(t.scores, x)| == Above(s.history, x) {
        NothingAbove(s.history, x);
        assert Later(t.scores, x) == {};
      }
    } else {
      forall x | x >= start ensures |Later(t.scores, x)| == Above(s.history, x) {
        assert Reaches(seen, window, x);
        assert AgreeAt(s, x);
        TrimKeepsLater(s.log, start, x);
      }
    }
    TrimmedIsLater(Expired(s.log, r.redisNow), start);
  }

  lemma TrimKeepsLater(l: Log, start: int, x: int)
    requires start <= x
    ensures Later(Trimmed(l, start).scores, x) == Later(l.scores, x)
  {
  }

  lemma TrimmedIsLater(l: Log, start: int)
    ensures |Trimmed(l, start).scores| == |Later(Trimmed(l, start).scores, start)|
  {
    var t := Trimmed(l, start);
    assert t.scores.Keys == Later(t.scores, start);
    assert |t.scores.Keys| == |t.scores|;
  }

  lemma AdmissionAgrees(s: State, t: Log, member: Member, now: int, expires: int, x: int)
    requires |Later(t.scores, x)| == Above(s.history, x) && member !in t.scores
    ensures AgreeAt(State(Log(t.scores[member := now], Some(expires)), s.history + [now]), x)
  {
    AboveMore(s.history, now, x);
    assert Later(t.scores[member := now], x) == Later(t.scores, x) + if now > x then {member} else {};
  }

  lemma MembersOfMore(seen: seq<Request>, r: Request)
    ensures Members(seen + [r]) == Members(seen) + {r.member}
  {
    assert forall q :: q in seen + [r] <==> q in seen || q == r;
  }

  lemma AdmitMirrors(s: State, seen: seq<Request>, window: int, skew: int, r: Request)
    requires Covered(window, skew) && Mirrors(s, seen, window) && Ordered(seen + [r]) && Skewed(seen + [r], skew)
    ensures var log := Log(AtRequest(s, window, r).scores[r.member := r.now], Some(r.redisNow + TtlSeconds(window) * MILLIS));
            Mirrors(State(log, s.history + [r.now]), seen + [r], window)
  {
    var t := AtRequest(s, window, r);
    var n := State(Log(t.scores[r.member := r.now], Some(r.redisNow + TtlSeconds(window) * MILLIS)), s.history + [r.now]);
    TrimmedCounts(s, seen, window, skew, r);
    LastIsNotLater(seen, r);
    MembersOfMore(seen, r);
    forall x | Reaches(seen + [r], window, x) ensures AgreeAt(n, x) {
      AdmissionAgrees(s, t, r.member, r.now, r.redisNow + TtlSeconds(window) * SECOND, x);
    }
    assert LastAdmission(n, seen + [r], window, |seen|);
  }

  lemma AdmissionStaysLast(s: State, n: State, seen: seq<Request>, window: int, r: Request, i: nat)
    requires window >= 0 && LastAdmission(s, seen, window, i)
    requires n.history == s.history && n.log.expires == s.log.expires
    requires forall m | m in n.log.scores :: m in s.log.scores && n.log.scores[m] == s.log.scores[m]
    ensures LastAdmission(n, seen + [r], window, i)
  {
    assert (seen + [r])[i] == seen[i];
  }

  lemma RejectMirrors(s: State, seen: seq<Request>, window: int, skew: int, r: Request)
    requires Covered(window, skew) && Mirrors(s, seen, window) && Ordered(seen + [r]) && Skewed(seen + [r], skew)
    ensures Mirrors(State(AtRequest(s, window, r), s.history), seen + [r], window)
  {
    var n := State(AtRequest(s, window, r), s.history);
    TrimmedCounts(s, seen, window, skew, r);
    LastIsNotLater(seen, r);
    MembersOfMore(seen, r);
    forall x | Reaches(seen + [r], window, x) ensures AgreeAt(n, x) {
      assert |Later(n.log.scores, x)| == Above(s.history, x);
    }
    if n.log.expires.Some? {
      var i: nat :| LastAdmission(s, seen, window, i);
      AdmissionStaysLast(s, n, seen, window, r, i);
    }
  }

  lemma NextDecides(s: State, seen: seq<Request>, limit: int, window: int, skew: int, r: Request)
    requires Covered(window, skew) && Mirrors(s, seen, window) && Ordered(seen + [r]) && Skewed(seen + [r], skew)
    ensures Script(s.log, limit, window, r).1 <==> Admits(s.history, limit, window, r.now)
  {
    TrimmedCounts(s, seen, window, skew, r);
    assert Script(s.log, limit, window, r).1 <==> |AtRequest(s, window, r).scores| < limit;
  }

  lemma NextMirrors(s: State, seen: seq<Request>, limit: int, window: int, skew: int, r: Request)
    requires Covered(window, skew) && Mirrors(s, seen, window) && Ordered(seen + [r]) && Skewed(seen + [r], skew)
    ensures Mirrors(Next(s, limit, window, r), seen + [r], window)
  {
    NextIs(s, limit, window, r);
    if |AtRequest(s, window, r).scores| < limit {
      AdmitMirrors(s, seen, window, skew, r);
    } else {
      RejectMirrors(s, seen, window, skew, r);
    }
  }

  lemma NextIs(s: State, limit: int, window: int, r: Request)
    requires window >= 0
    ensures var t := AtRequest(s, window, r);
            Next(s, limit, window, r) ==
            if |t.scores| < limit then State(Log(t.scores[r.member := r.now], Some(r.redisNow + TtlSeconds(window) * MILLIS)), s.history + [r.now])
            else State(t, s.history)
  {
  }

  lemma {:induction false} RunMirrors(limit: int, window: int, skew: int, requests: seq<Request>)
    requires Covered(window, skew) && Ordered(requests) && Skewed(requests, skew)
    ensures Mirrors(Run(limit, window, requests), requests, window)
    decreases |requests|
  {
    if requests == [] {
      forall x ensures AgreeAt(State(ABSENT, []), x) { assert Later(ABSENT.scores, x) == {}; }
    } else {
      var before, last := requests[..|requests| - 1], requests[|requests| - 1];
      RunMirrors(limit, window, skew, before);
      assert requests == before + [last];
      NextMirrors(Run(limit, window, before), before, limit, window, skew, last);
    }
  }

  // ----- Main results

  /** The script decides like the full history, key expiry included, for every window the expiry covers. */
  lemma DecidesLikeHistory(limit: int, window: int, skew: int, requests: seq<Request>, r: Request)
    requires Covered(window, skew) && Ordered(requests + [r]) && Skewed(requests + [r], skew)
    ensures var s := Run(limit, window, requests);
            Script(s.log, limit, window, r).1 <==> Admits(s.history, limit, window, r.now)
  {
    assert forall i | 0 <= i < |requests| :: (requests + [r])[i] == requests[i];
    RunMirrors(limit, window, skew, requests);
    NextDecides(Run(limit, window, requests), requests, limit, window, skew, r);
  }

  /** Admissions in [from, to]. */
  function Within(history: seq<int>, from: int, to: int): nat
    decreases |history|
  {
    if history == [] then 0
    else Within(history[..|history| - 1], from, to) + if from <= history[|history| - 1] <= to then 1 else 0
  }

  lemma {:induction false} WithinIsAbove(history: seq<int>, from: int, to: int, x: int)
    requires x < from
    ensures Within(history, from, to) <= Above(history, x)
    decreases |history|
  {
    if history != [] { WithinIsAbove(history[..|history| - 1], from, to, x); }
  }

  /**
   * No half-open span of one window holds more than `limit` admissions, at either end:
   * [from, from + window) and (from - 1, from - 1 + window] are the same nanoseconds.
   */
  lemma {:induction false} NoWindowHoldsMore(limit: nat, window: int, skew: int, requests: seq<Request>, from: int)
    requires Covered(window, skew) && Ordered(requests) && Skewed(requests, skew)
    ensures Within(Run(limit, window, requests).history, from, from + window - 1) <= limit
    decreases |requests|
  {
    if requests != [] {
      var before, r := requests[..|requests| - 1], requests[|requests| - 1];
      assert requests == before + [r];
      NoWindowHoldsMore(limit, window, skew, before, from);
      DecidesLikeHistory(limit, window, skew, before, r);
      NextIs(Run(limit, window, before), limit, window, r);
      var history := Run(limit, window, before).history;
      assert Run(limit, window, requests).history == if Admits(history, limit, window, r.now) then history + [r.now] else history;
      if Admits(history, limit, window, r.now) { OneMoreFits(history, limit, window, r.now, from); }
    }
  }

  lemma OneMoreFits(history: seq<int>, limit: nat, window: int, now: int, from: int)
    requires Admits(history, limit, window, now) && Within(history, from, from + window - 1) <= limit
    ensures Within(history + [now], from, from + window - 1) <= limit
  {
    assert (history + [now])[..|history|] == history;
    if from <= now <= from + window - 1 { WithinIsAbove(history, from, from + window - 1, now - window); }
  }

  // ----- Which windows that is

  /** One clock, read in nanoseconds by the callers and in milliseconds by Redis. */
  ghost predicate OneClock(requests: seq<Request>) {
    forall i | 0 <= i < |requests| :: requests[i].redisNow == requests[i].now / MILLISECOND
  }

  lemma OneClockSkews(requests: seq<Request>)
    requires OneClock(requests)
    ensures Skewed(requests, 999_999)
  {
    forall i, j | 0 <= i < j < |requests|
      ensures (requests[j].redisNow - requests[i].redisNow) * MILLISECOND - (requests[j].now - requests[i].now) <= 999_999
    {
      assert requests[i].now < requests[i].redisNow * MILLISECOND + MILLISECOND;
      assert requests[j].redisNow * MILLISECOND <= requests[j].now;
    }
  }

  /** On one clock: up to one second, or whole seconds; a nanosecond more does no harm. */
  lemma CoveredWindows(window: int)
    requires window >= 0
    ensures Covered(window, 999_999) <==> window <= 1_000_000_000 || window % 1_000_000_000 <= 1
  {
    if window > SECOND {
      var n := window / SECOND;
      assert window == SECOND * n + window % SECOND;
      assert n == 1 ==> TtlSeconds(window) == 1;
    }
  }

  // ----- What happens to the other windows

  /** `limit` requests at one instant. */
  predicate IsBurst(burst: seq<Request>, limit: nat, at: int, redisAt: int) {
    |burst| == limit && forall i | 0 <= i < limit :: burst[i].now == at && burst[i].redisNow == redisAt
  }

  lemma OneMoreOfBurst(s: State, limit: int, window: int, r: Request)
    requires window > 0 && |s.log.scores| == |s.history| < limit && r.member !in s.log.scores
    requires forall m | m in s.log.scores :: s.log.scores[m] == r.now
    requires s.log == ABSENT || s.log.expires == Some(r.redisNow + TtlSeconds(window) * MILLIS)
    ensures var n := Next(s, limit, window, r);
            && n.history == s.history + [r.now] && n.log.scores == s.log.scores[r.member := r.now]
            && n.log.expires == Some(r.redisNow + TtlSeconds(window) * MILLIS)
  {
    var kept := s.log.scores - (set m | m in s.log.scores && s.log.scores[m] <= r.now - window);
    assert kept == s.log.scores;
  }

  /** The log and the history hold the burst, and nothing else. */
  predicate Recorded(s: State, burst: seq<Request>, at: int, expires: int) {
    && |s.history| == |burst| == |s.log.scores| && (forall i | 0 <= i < |s.history| :: s.history[i] == at)
    && s.log.scores.Keys == Members(burst) && (forall m | m in s.log.scores :: s.log.scores[m] == at)
    && (if burst == [] then s.log == ABSENT else s.log.expires == Some(expires))
  }

  lemma RecordedMore(s: State, n: State, burst: seq<Request>, r: Request, expires: int)
    requires Recorded(s, burst, r.now, expires) && r.member !in Members(burst)
    requires n == State(Log(s.log.scores[r.member := r.now], Some(expires)), s.history + [r.now])
    ensures Recorded(n, burst + [r], r.now, expires)
  {
    MembersOfMore(burst, r);
    assert n.log.scores.Keys == s.log.scores.Keys + {r.member};
    assert |n.log.scores| == |n.log.scores.Keys| && |s.log.scores| == |s.log.scores.Keys|;
  }

  lemma RunRecordsMore(limit: int, window: int, before: seq<Request>, r: Request, expires: int)
    requires window > 0 && |before| < limit && r.member !in Members(before) && expires == r.redisNow + TtlSeconds(window) * MILLIS
    requires Recorded(Run(limit, window, before), before, r.now, expires)
    ensures Recorded(Run(limit, window, before + [r]), before + [r], r.now, expires)
  {
    var s := Run(limit, window, before);
    OneMoreOfBurst(s, limit, window, r);
    RecordedMore(s, Next(s, limit, window, r), before, r, expires);
    assert (before + [r])[..|before|] == before;
  }

  lemma NothingRecorded(limit: int, window: int, at: int, expires: int)
    requires window >= 0
    ensures Recorded(Run(limit, window, []), [], at, expires)
  {
  }

  /** A burst of at most `limit` requests is let through as a whole. */
  lemma {:induction false} BurstIsAdmitted(limit: int, window: int, burst: seq<Request>, at: int, redisAt: int, expires: int)
    requires window > 0 && |burst| <= limit && IsBurst(burst, |burst|, at, redisAt) && Ordered(burst)
    requires expires == redisAt + TtlSeconds(window) * MILLIS
    ensures Recorded(Run(limit, window, burst), burst, at, expires)
    decreases |burst|
  {
    if burst == [] {
      NothingRecorded(limit, window, at, expires);
    } else {
      var before, r := burst[..|burst| - 1], burst[|burst| - 1];
      assert r.now == at && r.redisNow == redisAt;
      assert burst == before + [r];
      BurstIsAdmitted(limit, window, before, at, redisAt, expires);
      LastIsNotLater(before, r);
      RunRecordsMore(limit, window, before, r, expires);
    }
  }

  lemma {:induction false} AllAbove(history: seq<int>, x: int)
    requires forall j | 0 <= j < |history| :: history[j] > x
    ensures Above(history, x) == |history|
    decreases |history|
  {
    if history != [] { AllAbove(history[..|history| - 1], x); }
  }

  /** A request that finds the key expired is let through whatever the window holds. */
  lemma ExpiredIsAdmitted(s: State, limit: int, window: int, burst: seq<Request>, at: int, redisAt: int, late: Request)
    requires limit >= 1 && window > 0 && |burst| == limit && Recorded(s, burst, at, redisAt + TtlSeconds(window) * MILLIS)
    requires redisAt + TtlSeconds(window) * MILLIS < late.redisNow && late.now - window < at
    ensures Script(s.log, limit, window, late).1 && !Admits(s.history, limit, window, late.now)
  {
    AllAbove(s.history, late.now - window);
    assert Trimmed(Expired(s.log, late.redisNow), late.now - window) == ABSENT;
  }

  /**
   * After `limit` requests at one instant, every request of the same window that comes late
   * enough for the expiry is one too many.
   */
  lemma EarlyExpiryAdmitsMore(limit: int, window: int, burst: seq<Request>, at: int, redisAt: int, late: Request)
    requires limit >= 1 && window > 0 && IsBurst(burst, limit, at, redisAt) && Ordered(burst + [late])
    requires redisAt + TtlSeconds(window) * MILLIS < late.redisNow && late.now - window < at
    ensures Script(Run(limit, window, burst).log, limit, window, late).1
    ensures !Admits(Run(limit, window, burst).history, limit, window, late.now)
  {
    assert forall i | 0 <= i < |burst| :: (burst + [late])[i] == burst[i];
    BurstIsAdmitted(limit, window, burst, at, redisAt, redisAt + TtlSeconds(window) * MILLIS);
    ExpiredIsAdmitted(Run(limit, window, burst), limit, window, burst, at, redisAt, late);
  }

  function Burst(n: nat): (burst: seq<Request>)
    ensures |burst| == n
  {
    seq(n, i requires 0 <= i < n => Request(0, 0, Member(0, i)))
  }

  /** For a window the expiry does not cover there are requests that meet the assumptions and are decided wrongly. */
  lemma UncoveredWindowsFail(limit: int, window: int, skew: int) returns (requests: seq<Request>, r: Request)
    requires limit >= 1 && window > 0 && skew >= 0 && !Covered(window, skew)
    ensures Ordered(requests + [r]) && Skewed(requests + [r], skew)
    ensures var s := Run(limit, window, requests);
            Script(s.log, limit, window, r).1 && !Admits(s.history, limit, window, r.now)
  {
    var ttl := TtlSeconds(window);
    var earliest := ttl * SECOND + MILLISECOND - skew;
    requests := Burst(limit);
    r := Request(if earliest < 0 then 0 else earliest, ttl * MILLIS + 1, Member(0, limit));
    var all := requests + [r];
    forall i, j | 0 <= i < j < |all| ensures all[i].now <= all[j].now && all[i].member != all[j].member {}
    EarlyExpiryAdmitsMore(limit, window, requests, 0, 0, r);
  }

  ghost predicate AlwaysDecidesLikeHistory(limit: int, window: int, skew: int)
    requires window >= 0
  {
    forall requests, r | Ordered(requests + [r]) && Skewed(requests + [r], skew) ::
      Script(Run(limit, window, requests).log, limit, window, r).1 <==> Admits(Run(limit, window, requests).history, limit, window, r.now)
  }

  /** The script is exact for precisely the covered windows, whatever the limit. */
  lemma ExactExactlyIfCovered(limit: int, window: int, skew: int)
    requires limit >= 1 && window > 0 && skew >= 0
    ensures AlwaysDecidesLikeHistory(limit, window, skew) <==> Covered(window, skew)
  {
    if Covered(window, skew) {
      forall requests, r | Ordered(requests + [r]) && Skewed(requests + [r], skew)
        ensures Script(Run(limit, window, requests).log, limit, window, r).1 <==> Admits(Run(limit, window, requests).history, limit, window, r.now)
      {
        DecidesLikeHistory(limit, window, skew, requests, r);
      }
    } else {
      var requests, r := UncoveredWindowsFail(limit, window, skew);
    }
  }

  // ----- The limiter

  datatype Policy = FailClosed | FailOpen

  datatype Verdict = Verdict(allowed: bool, retryAfter: int, serviceUnavailable: bool)

  function LogOf(keys: map<string, Log>, key: string): Log {
    if key in keys then keys[key] else ABSENT
  }

  function Store(keys: map<string, Log>, key: string, l: Log): map<string, Log> {
    if l == ABSENT then keys - {key} else keys[key := l]
  }

  class Limiter {
    const hasRedis: bool
    var keys: map<string, Log>

    constructor (hasRedis: bool)
      ensures this.hasRedis == hasRedis && keys == map[]
    {
      this.hasRedis := hasRedis;
      keys := map[];
    }

    /** `Allow`; `fault` stands for an error of the script call. Without a verdict of Redis the policy decides and nothing is recorded. */
    method Allow(key: string, limit: int, window: int, policy: Policy, now: int, redisNow: int, suffix: nat, fault: bool) returns (v: Verdict)
      requires window >= 0
      modifies `keys
      ensures !hasRedis || fault ==> keys == old(keys) && v == Verdict(policy == FailOpen, 0, policy == FailClosed)
      ensures hasRedis && !fault ==>
              var (log, allowed) := Script(LogOf(old(keys), key), limit, window, Request(now, redisNow, Member(now, suffix)));
              && LogOf(keys, key) == log
              && (forall k | k != key :: LogOf(keys, k) == LogOf(old(keys), k))
              && v == Verdict(allowed, if allowed then 0 else window, false)
    {
      if !hasRedis {
        return Verdict(policy == FailOpen, 0, policy == FailClosed);
      }
      var windowStart := now - window;
      var member := Member(now, suffix);
      var ttlSeconds := if window / SECOND > 1 then window / SECOND else 1;
      if fault {
        return Verdict(policy == FailOpen, 0, policy == FailClosed);
      }
      var allowed := RunScript(key, windowStart, limit, now, member, ttlSeconds, redisNow);
      if allowed {
        return Verdict(true, 0, false);
      }
      return Verdict(false, window, false);
    }

    /** The Lua script, command by command. */
    method RunScript(key: string, start: int, limit: int, now: int, member: Member, ttlSeconds: int, redisNow: int) returns (allowed: bool)
      modifies `keys
      ensures var t := Trimmed(Expired(LogOf(old(keys), key), redisNow), start);
              && (allowed <==> |t.scores| < limit)
              && LogOf(keys, key) == (if allowed then Log(t.scores[member := now], Some(redisNow + ttlSeconds * MILLIS)) else t)
      ensures forall k | k != key :: LogOf(keys, k) == LogOf(old(keys), k)
    {
      Expire(key, redisNow);
      keys := Store(keys, key, Trimmed(LogOf(keys, key), start));
      var count := |LogOf(keys, key).scores|;
      if count < limit {
        var l := LogOf(keys, key);
        l := l.(scores := l.scores[member := now]);
        l := l.(expires := Some(redisNow + ttlSeconds * MILLIS));
        keys := keys[key := l];
        return true;
      }
      return false;
    }

    /** What Redis does before it runs a command on a key whose time is up. */
    method Expire(key: string, redisNow: int)
      modifies `keys
      ensures LogOf(keys, key) == Expired(LogOf(old(keys), key), redisNow)
      ensures forall k | k != key :: LogOf(keys, k) == LogOf(old(keys), k)
    {
      if key in keys && keys[key].expires.Some? && keys[key].expires.value < redisNow {
        keys := keys - {key};
      }
    }
  }
}
