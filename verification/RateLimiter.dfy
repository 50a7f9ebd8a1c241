/** The per-token request limiter (auth/rate-limiter.ts, checkRateLimit): a window opens with the
    first call after the last one ran out and admits up to the limit. */
module RateLimiter {
  import opened Options
  import opened Arithmetic

  /** WINDOW_MS: one minute. */
  const WINDOW := 60000

  datatype Window = Window(count: int, start: int)

  datatype Verdict = Verdict(allowed: bool, remaining: int, resetMs: int)

  // ---------------------------------------------------------------- one call

  /** A missing or zero limit means none. */
  predicate Limited(limit: Option<int>) { limit.Some? && limit.value != 0 }

  predicate Opens(entry: Option<Window>, now: int) { entry.None? || now - entry.value.start >= WINDOW }

  /** What a call is told, and the counter it leaves. */
  function Check(entry: Option<Window>, limit: int, now: int): (Verdict, Window) {
    if Opens(entry, now) then (Verdict(true, limit - 1, WINDOW), Window(1, now))
    else
      var w := entry.value;
      var resetMs := WINDOW - (now - w.start);
      if w.count >= limit then (Verdict(false, 0, resetMs), w)
      else (Verdict(true, limit - (w.count + 1), resetMs), Window(w.count + 1, w.start))
  }

  function EntryAt(counters: map<string, Window>, token: string): Option<Window> {
    if token in counters then Some(counters[token]) else None
  }

  class Counter {
    var count: int
    var windowStart: int

    constructor (now: int)
      ensures count == 1 && windowStart == now
    {
      count, windowStart := 1, now;
    }

    function View(): Window
      reads this
    {
      Window(count, windowStart)
    }
  }

  class RateLimiter {
    var windowCounters: map<string, Counter>

    /** Tokens do not share a counter. */
    ghost predicate Valid()
      reads this
    {
      forall s, t :: s in windowCounters && t in windowCounters && s != t ==> windowCounters[s] != windowCounters[t]
    }

    ghost function View(): map<string, Window>
      reads this, windowCounters.Values
    {
      map t | t in windowCounters :: windowCounters[t].View()
    }

    constructor ()
      ensures Valid() && View() == map[]
    {
      windowCounters := map[];
    }

    method CheckRateLimit(tokenId: string, rateLimit: Option<int>, now: int) returns (r: Verdict)
      requires Valid()
      modifies this, windowCounters.Values
      ensures Valid() && fresh(windowCounters.Values - old(windowCounters.Values))
      ensures if rateLimit == None || rateLimit == Some(0) then r == Verdict(true, -1, 0) && View() == old(View())
              else
                var (verdict, entry) := Check(EntryAt(old(View()), tokenId), rateLimit.value, now);
                r == verdict && View() == old(View())[tokenId := entry]
    {
      if !Limited(rateLimit) {
        return Verdict(true, -1, 0);
      }
      var limit := rateLimit.value;
      if tokenId !in windowCounters || now - windowCounters[tokenId].windowStart >= WINDOW {
        var renewed := new Counter(now);
        ghost var before := View();
        windowCounters := windowCounters[tokenId := renewed];
        assert View() == before[tokenId := renewed.View()];
        return Verdict(true, limit - 1, WINDOW);
      }
      var entry := windowCounters[tokenId];
      var resetMs := WINDOW - (now - entry.windowStart);
      if entry.count >= limit {
        return Verdict(false, 0, resetMs);
      }
      ghost var before := View();
      entry.count := entry.count + 1;
      assert forall t :: t in windowCounters && t != tokenId ==>
        windowCounters[t] != entry && windowCounters[t].View() == before[t];
      assert View() == before[tokenId := entry.View()];
      return Verdict(true, limit - entry.count, resetMs);
    }
  }

  // ---------------------------------------------------------------- tokens are independent

  datatype Call = Call(token: string, limit: Option<int>, now: int)

  function Counters(calls: seq<Call>): map<string, Window> {
    if calls == [] then map[]
    else
      var before, last := Counters(calls[..|calls| - 1]), calls[|calls| - 1];
      if Limited(last.limit) then before[last.token := Check(EntryAt(before, last.token), last.limit.value, last.now).1]
      else before
  }

  function Of(calls: seq<Call>, token: string): seq<Call> {
    if calls == [] then []
    else
      var last := calls[|calls| - 1];
      Of(calls[..|calls| - 1], token) + if last.token == token then [last] else []
  }

  /** A token's counter depends on its own calls alone. */
  lemma {:induction false} TokensIndependent(calls: seq<Call>, token: string)
    ensures EntryAt(Counters(calls), token) == EntryAt(Counters(Of(calls, token)), token)
  {
    if calls != [] {
      hide Check;
      var front, last := calls[..|calls| - 1], calls[|calls| - 1];
      var own := Of(calls, token);
      TokensIndependent(front, token);
      if last.token == token {
        assert own[..|own| - 1] == Of(front, token) && own[|own| - 1] == last;
      } else {
        assert own == Of(front, token) + [] == Of(front, token);
      }
    }
  }

  // ---------------------------------------------------------------- a run of one token

  predicate Ordered(times: seq<int>) { forall i, j :: 0 <= i < j < |times| ==> times[i] <= times[j] }

  /** The counter after a run of calls, starting from `entry`. */
  function After(entry: Option<Window>, limit: int, times: seq<int>): Option<Window> {
    if times == [] then entry
    else Some(Check(After(entry, limit, times[..|times| - 1]), limit, times[|times| - 1]).1)
  }

  /** How many calls are admitted at times in [from, to). */
  function Admitted(entry: Option<Window>, limit: int, times: seq<int>, from: int, to: int): nat {
    if times == [] then 0
    else
      var n := |times| - 1;
      Admitted(entry, limit, times[..n], from, to)
      + if from <= times[n] < to && Check(After(entry, limit, times[..n]), limit, times[n]).0.allowed then 1 else 0
  }

  /** Inside any minute: the current window's share, plus at most limit - 1 left from an earlier
      window whose opening call lies before the minute. */
  ghost predicate Bounded(entry: Option<Window>, limit: int, count: nat, from: int) {
    match entry
    case None => count == 0
    case Some(w) =>
      1 <= w.count <= limit
      && (w.start < from ==> count <= w.count - 1)
      && (from <= w.start < from + WINDOW ==> count <= limit - 1 + w.count)
      && count <= 2 * limit - 1
  }

  lemma {:induction false} RunBounded(limit: int, times: seq<int>, from: int)
    requires limit > 0 && Ordered(times)
    ensures Bounded(After(None, limit, times), limit, Admitted(None, limit, times, from, from + WINDOW), from)
    ensures times == [] || times[|times| - 1] < from ==> Admitted(None, limit, times, from, from + WINDOW) == 0
    ensures var w := After(None, limit, times); w.Some? ==> times != [] && w.value.start <= times[|times| - 1]
  {
    if times != [] {
      RunBounded(limit, times[..|times| - 1], from);
    }
  }

  /** Over any run with a non-decreasing clock, any half-open minute admits at most 2L - 1 calls. */
  lemma AnyMinuteBound(limit: int, times: seq<int>, from: int)
    requires limit > 0 && Ordered(times)
    ensures Admitted(None, limit, times, from, from + 60000) <= 2 * limit - 1
  {
    RunBounded(limit, times, from);
  }

  function CallsBefore(times: seq<int>, end: int): nat {
    if times == [] then 0 else CallsBefore(times[..|times| - 1], end) + if times[|times| - 1] < end then 1 else 0
  }

  /** A window admits exactly its first L calls: from a window with n calls counted, exactly the
      next min(L - n, calls before its end) are admitted. */
  lemma {:induction false} WindowAdmitsExactly(w: Window, limit: int, times: seq<int>)
    requires w.count <= limit && Ordered(times) && (times != [] ==> w.start <= times[0])
    ensures var end := w.start + 60000;
            Admitted(Some(w), limit, times, w.start, end) == Min(limit - w.count, CallsBefore(times, end))
    ensures var end := w.start + 60000;
            times == [] || times[|times| - 1] < end ==>
              After(Some(w), limit, times)
              == Some(Window(w.count + Admitted(Some(w), limit, times, w.start, end), w.start))
  {
    if times != [] {
      var n := |times| - 1;
      WindowAdmitsExactly(w, limit, times[..n]);
    }
  }

  // ---------------------------------------------------------------- the bound is reached

  function Repeat(t: int, n: nat): seq<int> { if n == 0 then [] else Repeat(t, n - 1) + [t] }

  lemma {:induction false} RepeatFacts(t: int, n: nat)
    ensures |Repeat(t, n)| == n && forall i :: 0 <= i < n ==> Repeat(t, n)[i] == t
  {
    if n > 0 { RepeatFacts(t, n - 1); }
  }

  /** n more calls at one moment inside an open window with room for them all are all admitted. */
  lemma {:induction false} Burst(entry: Option<Window>, limit: int, times: seq<int>, t: int, n: nat, from: int)
    requires var w := After(entry, limit, times);
             w.Some? && 0 <= t - w.value.start < WINDOW && w.value.count + n <= limit
    requires from <= t < from + WINDOW
    ensures var w := After(entry, limit, times).value;
            After(entry, limit, times + Repeat(t, n)) == Some(Window(w.count + n, w.start))
    ensures Admitted(entry, limit, times + Repeat(t, n), from, from + WINDOW)
            == Admitted(entry, limit, times, from, from + WINDOW) + n
  {
    hide After, Admitted;
    if n == 0 {
      assert times + Repeat(t, 0) == times;
    } else {
      Burst(entry, limit, times, t, n - 1, from);
      OneMore(entry, limit, times + Repeat(t, n - 1), t, from);
      assert times + Repeat(t, n) == times + Repeat(t, n - 1) + [t];
    }
  }

  /** One call, L - 1 more just before its window ends, L more just after: 2L - 1 in a millisecond. */
  function WorstRun(limit: nat): seq<int>
    requires limit > 0
  {
    [0] + Repeat(WINDOW - 1, limit - 1) + [WINDOW] + Repeat(WINDOW, limit - 1)
  }

  lemma OneMore(entry: Option<Window>, limit: int, times: seq<int>, t: int, from: int)
    ensures var (verdict, w) := Check(After(entry, limit, times), limit, t);
            After(entry, limit, times + [t]) == Some(w)
            && Admitted(entry, limit, times + [t], from, from + WINDOW)
               == Admitted(entry, limit, times, from, from + WINDOW)
                  + if from <= t < from + WINDOW && verdict.allowed then 1 else 0
  {
    hide Check;
    assert (times + [t])[..|times|] == times;
  }

  lemma WorstRunOrdered(limit: nat)
    requires limit > 0
    ensures Ordered(WorstRun(limit))
  {
    hide Repeat;
    RepeatFacts(WINDOW - 1, limit - 1);
    RepeatFacts(WINDOW, limit - 1);
  }

  lemma BoundIsReached(limit: nat)
    requires limit > 0
    ensures Ordered(WorstRun(limit))
    ensures Admitted(None, limit, WorstRun(limit), 59999, 59999 + 60000) == 2 * limit - 1
  {
    var from := WINDOW - 1;
    WorstRunOrdered(limit);
    assert After(None, limit, []) == None && Admitted(None, limit, [], from, from + WINDOW) == 0;
    hide Repeat, After, Admitted, Ordered;
    OneMore(None, limit, [], 0, from);
    assert [] + [0] == [0];
    Burst(None, limit, [0], WINDOW - 1, limit - 1, from);
    var b := [0] + Repeat(WINDOW - 1, limit - 1);
    OneMore(None, limit, b, WINDOW, from);
    Burst(None, limit, b + [WINDOW], WINDOW, limit - 1, from);
  }

  ghost predicate WithinLimit(limit: int, times: seq<int>, from: int) {
    Admitted(None, limit, times, from, from + 60000) <= limit
  }

  /** The limit holds of every minute of every run exactly when it is 1. */
  lemma EveryMinuteWithinLimitIff(limit: int)
    requires limit > 0
    ensures (forall times, from :: Ordered(times) ==> WithinLimit(limit, times, from)) <==> limit == 1
  {
    hide Admitted, Ordered;
    if limit == 1 {
      forall times, from | Ordered(times) ensures WithinLimit(limit, times, from) {
        AnyMinuteBound(limit, times, from);
      }
    } else {
      BoundIsReached(limit);
      assert !WithinLimit(limit, WorstRun(limit), WINDOW - 1);
    }
  }

  // ---------------------------------------------------------------- one token of a mixed run

  function Times(calls: seq<Call>): (r: seq<int>)
    ensures |r| == |calls|
  {
    seq(|calls|, i requires 0 <= i < |calls| => calls[i].now)
  }

  /** How many of a token's calls at times in [from, to) a mixed run admits. */
  function AdmittedOf(calls: seq<Call>, token: string, from: int, to: int): nat {
    if calls == [] then 0
    else
      var front, last := calls[..|calls| - 1], calls[|calls| - 1];
      AdmittedOf(front, token, from, to)
      + if last.token == token && from <= last.now < to
           && (Limited(last.limit) ==> Check(EntryAt(Counters(front), token), last.limit.value, last.now).0.allowed)
        then 1 else 0
  }

  ghost predicate LimitedTo(calls: seq<Call>, token: string, limit: int) {
    forall c :: c in calls && c.token == token ==> c.limit == Some(limit)
  }

  /** A token in a mixed run fares as it would alone. */
  lemma {:induction false} MixedAsAlone(calls: seq<Call>, token: string, limit: int, from: int, to: int)
    requires limit != 0 && LimitedTo(calls, token, limit)
    ensures EntryAt(Counters(calls), token) == After(None, limit, Times(Of(calls, token)))
    ensures AdmittedOf(calls, token, from, to) == Admitted(None, limit, Times(Of(calls, token)), from, to)
  {
    if calls != [] {
      hide Check;
      var front, last := calls[..|calls| - 1], calls[|calls| - 1];
      assert forall c :: c in front ==> c in calls;
      MixedAsAlone(front, token, limit, from, to);
      var before, own := Times(Of(front, token)), Times(Of(calls, token));
      if last.token == token {
        assert last in calls;
        assert own == before + [last.now];
        assert own[..|own| - 1] == before;
      } else {
        assert Of(calls, token) == Of(front, token) + [] == Of(front, token);
      }
    }
  }

  /** The bound per token in any mixed run, whatever other tokens do. */
  lemma AnyMinuteBoundOfToken(calls: seq<Call>, token: string, limit: int, from: int)
    requires limit > 0 && LimitedTo(calls, token, limit) && Ordered(Times(Of(calls, token)))
    ensures AdmittedOf(calls, token, from, from + 60000) <= 2 * limit - 1
  {
    MixedAsAlone(calls, token, limit, from, from + WINDOW);
    AnyMinuteBound(limit, Times(Of(calls, token)), from);
  }

  /** An admitted call is told exactly how many more its window admits, and when the window ends. */
  lemma RemainingIsExact(entry: Option<Window>, limit: int, now: int, times: seq<int>)
    requires limit > 0 && Check(entry, limit, now).0.allowed && (entry.Some? ==> entry.value.start <= now)
    requires Ordered(times) && forall t :: t in times ==> now <= t
    ensures var (verdict, w) := Check(entry, limit, now);
            w.start <= now < w.start + 60000 && verdict.resetMs == w.start + 60000 - now
            && Admitted(Some(w), limit, times, w.start, w.start + 60000)
               == Min(verdict.remaining, CallsBefore(times, w.start + 60000))
  {
    hide Admitted, CallsBefore;
    var (verdict, w) := Check(entry, limit, now);
    assert times != [] ==> times[0] in times;
    WindowAdmitsExactly(w, limit, times);
  }

  // ---------------------------------------------------------------- after a denial

  /** After a denial the next call, at any later time, is admitted exactly from resetMs on. */
  lemma ResetIsExact(entry: Option<Window>, limit: int, now: int, later: int)
    requires !Check(entry, limit, now).0.allowed && now <= later
    ensures var (verdict, entry') := Check(entry, limit, now);
            verdict.resetMs > 0 && verdict.remaining == 0
            && (Check(Some(entry'), limit, later).0.allowed <==> later >= now + verdict.resetMs)
  {
  }
}
