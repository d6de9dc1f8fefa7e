/** The sliding-window limiter of simulation requests
    (`AppState::check_simulation_rate`, crates/rieko-api/src/app.rs). */
module RateLimiter {
  const LIMIT: nat := 5
  // One second, in the nanoseconds that instants are counted in.
  const SECOND: int := 1_000_000_000

  function Filter(p: int -> bool, ts: seq<int>): seq<int> {
    if ts == [] then []
    else Filter(p, ts[..|ts| - 1]) + (if p(ts[|ts| - 1]) then [ts[|ts| - 1]] else [])
  }

  // `now - t < 1s`, on instants whose difference saturates at zero.
  function Recent(now: int): int -> bool {
    (t: int) => now - t < SECOND
  }

  // The span (end - 1s, end].
  function Span(end: int): int -> bool {
    (t: int) => end - SECOND < t <= end
  }

  // Where those less than a second old stand.
  function RecentAt(ts: seq<int>, now: int): set<nat> {
    set i: nat | 0 <= i < |ts| && now - ts[i] < 1_000_000_000
  }

  lemma RecentAtPush(ts: seq<int>, t: int, now: int)
    ensures RecentAt(ts + [t], now) == RecentAt(ts, now) + (if now - t < 1_000_000_000 then {|ts|} else {})
    ensures |ts| !in RecentAt(ts, now)
  {}

  lemma {:induction false} RecentCounts(ts: seq<int>, now: int)
    ensures |Filter(Recent(now), ts)| == |RecentAt(ts, now)|
  {
    if ts != [] {
      var init, last := ts[..|ts| - 1], ts[|ts| - 1];
      assert ts == init + [last];
      RecentCounts(init, now);
      RecentAtPush(init, last, now);
    }
  }

  class SimulationRate {
    var window: seq<int>

    constructor ()
      ensures window == []
    {
      window := [];
    }

    method Check(now: int) returns (ok: bool)
      modifies this
      ensures ok <==> |Filter(Recent(now), old(window))| < LIMIT
      ensures ok <==> |RecentAt(old(window), now)| < 5
      ensures window == Filter(Recent(now), old(window)) + (if ok then [now] else [])
    {
      var kept: seq<int> := [];
      for i := 0 to |window|
        invariant window == old(window) && kept == Filter(Recent(now), window[..i])
      {
        assert window[..i + 1][..i] == window[..i];
        if now - window[i] < SECOND {
          kept := kept + [window[i]];
        }
      }
      assert window[..|window|] == window;
      RecentCounts(window, now);
      window := kept;
      if |window| >= LIMIT {
        return false;
      }
      window := window + [now];
      ok := true;
    }
  }

  // ---- Whole runs ----

  // The limiter's vector and every request it ever accepted.
  datatype State = State(window: seq<int>, accepted: seq<int>)

  function Next(s: State, now: int): State {
    var kept := Filter(Recent(now), s.window);
    if |kept| < LIMIT then State(kept + [now], s.accepted + [now]) else State(kept, s.accepted)
  }

  function After(times: seq<int>): State {
    if times == [] then State([], []) else Next(After(times[..|times| - 1]), times[|times| - 1])
  }

  ghost predicate Ascending(ts: seq<int>) {
    forall i, j | 0 <= i < j < |ts| :: ts[i] <= ts[j]
  }

  lemma FilterPush(p: int -> bool, ts: seq<int>, t: int)
    ensures Filter(p, ts + [t]) == Filter(p, ts) + (if p(t) then [t] else [])
  {
    assert (ts + [t])[..|ts|] == ts;
  }

  // What an earlier purge dropped, a later one would drop as well.
  lemma {:induction false} FilterTwice(p: int -> bool, q: int -> bool, ts: seq<int>)
    requires forall t :: q(t) ==> p(t)
    ensures Filter(q, Filter(p, ts)) == Filter(q, ts)
  {
    if ts != [] {
      var init, last := ts[..|ts| - 1], ts[|ts| - 1];
      FilterTwice(p, q, init);
      if p(last) {
        FilterPush(q, Filter(p, init), last);
      } else {
        assert Filter(p, ts) == Filter(p, init);
      }
    }
  }

  lemma {:induction false} FilterWider(p: int -> bool, q: int -> bool, ts: seq<int>)
    requires forall t | t in ts :: p(t) ==> q(t)
    ensures |Filter(p, ts)| <= |Filter(q, ts)| <= |ts|
  {
    if ts != [] {
      var init, last := ts[..|ts| - 1], ts[|ts| - 1];
      assert last in ts && forall t | t in init :: t in ts;
      FilterWider(p, q, init);
    }
  }

  // Nothing accepted lies in the future, and the vector is the recent part of it.
  ghost predicate Agrees(s: State, now: int) {
    s.window == Filter(Recent(now), s.accepted) && |s.window| <= LIMIT && forall t | t in s.accepted :: t <= now
  }

  lemma StepAgrees(s: State, before: int, now: int)
    requires Agrees(s, before) && before <= now
    ensures Agrees(Next(s, now), now)
  {
    FilterTwice(Recent(before), Recent(now), s.accepted);
    FilterWider(Recent(now), Recent(now), s.window);
    FilterPush(Recent(now), s.accepted, now);
  }

  /** The vector always agrees with filtering everything ever accepted. */
  lemma {:induction false} WindowAgreesWithHistory(times: seq<int>)
    requires Ascending(times)
    ensures times == [] ==> After(times) == State([], [])
    ensures times != [] ==> Agrees(After(times), times[|times| - 1])
  {
    if times != [] {
      var n := |times| - 1;
      WindowAgreesWithHistory(times[..n]);
      var s := After(times[..n]);
      if n == 0 {
        assert Agrees(s, times[n]);
        StepAgrees(s, times[n], times[n]);
      } else {
        StepAgrees(s, times[n - 1], times[n]);
      }
    }
  }

  /** In timestamp order a request is accepted exactly if fewer than five were in
      the second before it. */
  lemma AcceptedIffBelowFive(times: seq<int>, now: int)
    requires Ascending(times + [now])
    ensures var before := After(times).accepted;
            After(times + [now]).accepted == if |RecentAt(before, now)| < 5 then before + [now] else before
  {
    var s := After(times);
    assert (times + [now])[..|times|] == times && (times + [now])[|times|] == now;
    assert Ascending(times) by {
      assert forall i | 0 <= i < |times| :: times[i] == (times + [now])[i];
    }
    WindowAgreesWithHistory(times);
    if times != [] {
      assert (times + [now])[|times| - 1] <= now;
      FilterTwice(Recent(times[|times| - 1]), Recent(now), s.accepted);
    }
    RecentCounts(s.accepted, now);
  }

  /** No one-second span (end - 1s, end] ever holds more than five accepted
      requests, when the limiter sees them in the order of their timestamps. */
  lemma {:induction false} AtMostFivePerSecond(times: seq<int>, end: int)
    requires Ascending(times)
    ensures |Filter(Span(end), After(times).accepted)| <= 5
  {
    if times != [] {
      var last := times[|times| - 1];
      AtMostFivePerSecond(times[..|times| - 1], end);
      WindowAgreesWithHistory(times);
      var before, after := After(times[..|times| - 1]).accepted, After(times).accepted;
      if last <= end {
        FilterWider(Span(end), Recent(last), after);
      } else if after != before {
        FilterPush(Span(end), before, last);
      }
    }
  }

  lemma {:induction false} FilterSame(p: int -> bool, ts: seq<int>, keep: bool)
    requires forall x | x in ts :: p(x) == keep
    ensures Filter(p, ts) == if keep then ts else []
  {
    if ts != [] {
      var init, last := ts[..|ts| - 1], ts[|ts| - 1];
      assert ts == init + [last];
      assert last in ts && forall x | x in init :: x in ts;
      FilterSame(p, init, keep);
    }
  }

  lemma BurstStep(ts: seq<int>, t: int)
    requires |ts| < LIMIT && forall x | x in ts :: x == t
    ensures Next(State(ts, ts), t) == State(ts + [t], ts + [t])
  {
    FilterSame(Recent(t), ts, true);
  }

  // Five requests at one instant are all let through.
  lemma {:induction false} BurstAccepted(ts: seq<int>, t: int)
    requires |ts| <= LIMIT && forall x | x in ts :: x == t
    ensures After(ts) == State(ts, ts)
  {
    if ts != [] {
      var init, last := ts[..|ts| - 1], ts[|ts| - 1];
      assert ts == init + [last];
      assert last in ts && forall x | x in init :: x in ts;
      BurstAccepted(init, t);
      BurstStep(init, t);
    }
  }

  // A request a second after the burst purges it from the vector.
  lemma PurgeAfterBurst(five: seq<int>, t: int)
    requires forall i | 0 <= i < |five| :: five[i] == t
    ensures Next(State(five, five), t + SECOND) == State([t + SECOND], five + [t + SECOND])
  {
    FilterSame(Recent(t + SECOND), five, false);
  }

  lemma LateIsAccepted(history: seq<int>, late: int)
    ensures Next(State([late + 1], history), late) == State([late + 1, late], history + [late])
  {
    FilterSame(Recent(late), [late + 1], true);
  }

  lemma SixInTheSpan(five: seq<int>, t: int)
    requires |five| == 5 && forall i | 0 <= i < |five| :: five[i] == t
    ensures |Filter(Span(t + SECOND - 1), five + [t + SECOND] + [t + SECOND - 1])| == 6
  {
    var late := t + SECOND - 1;
    FilterSame(Span(late), five, true);
    FilterPush(Span(late), five, t + SECOND);
    FilterPush(Span(late), five + [t + SECOND], late);
  }

  /** The order matters, for the timestamp is taken before the lock: after five
      requests at `t`, one a second later that purges them, and one stamped just
      before that but locked after it, six have passed within one second. */
  lemma LateLockExceedsTheLimit(t: int)
    ensures var late := t + SECOND - 1;
            |Filter(Span(late), After(seq(5, _ => t) + [t + SECOND] + [late]).accepted)| > LIMIT
  {
    var five, late := seq(5, _ => t), t + SECOND - 1;
    BurstAccepted(five, t);
    AfterPush(five, t + SECOND);
    AfterPush(five + [t + SECOND], late);
    PurgeAfterBurst(five, t);
    LateIsAccepted(five + [t + SECOND], late);
    SixInTheSpan(five, t);
  }

  lemma AfterPush(times: seq<int>, now: int)
    ensures After(times + [now]) == Next(After(times), now)
  {
    assert (times + [now])[..|times|] == times;
  }

  // ---- Calls in any order ----

  // The instants whose flag is `want`, in order.
  function Select(ts: seq<int>, flags: seq<bool>, want: bool): seq<int>
    requires |flags| == |ts|
  {
    if ts == [] then []
    else
      var n := |ts| - 1;
      Select(ts[..n], flags[..n], want) + (if flags[n] == want then [ts[n]] else [])
  }

  // Which accepted instants no purge has dropped yet.
  function Flags(times: seq<int>): (flags: seq<bool>)
    ensures |flags| == |After(times).accepted|
  {
    if times == [] then []
    else
      var init, now := times[..|times| - 1], times[|times| - 1];
      var s, flags := After(init), Flags(init);
      seq(|flags|, i requires 0 <= i < |flags| => flags[i] && Recent(now)(s.accepted[i])) +
      (if |Filter(Recent(now), s.window)| < LIMIT then [true] else [])
  }

  function Purged(times: seq<int>): seq<int> {
    Select(After(times).accepted, Flags(times), false)
  }

  lemma SelectPush(ts: seq<int>, flags: seq<bool>, t: int, flag: bool, want: bool)
    requires |flags| == |ts|
    ensures Select(ts + [t], flags + [flag], want) == Select(ts, flags, want) + (if flag == want then [t] else [])
  {
    assert (ts + [t])[..|ts|] == ts && (flags + [flag])[..|ts|] == flags;
  }

  lemma SelectInit(ts: seq<int>, flags: seq<bool>, want: bool)
    requires |flags| == |ts| > 0
    ensures var n := |ts| - 1;
            Select(ts, flags, want) ==
            if flags[n] == want then Select(ts[..n], flags[..n], want) + [ts[n]] else Select(ts[..n], flags[..n], want)
  {}

  lemma FilterInit(p: int -> bool, ts: seq<int>)
    requires ts != []
    ensures var n := |ts| - 1; Filter(p, ts) == if p(ts[n]) then Filter(p, ts[..n]) + [ts[n]] else Filter(p, ts[..n])
  {}

  lemma {:induction false} FilterOfSelected(p: int -> bool, ts: seq<int>, flags: seq<bool>, flags': seq<bool>)
    requires |flags| == |flags'| == |ts|
    requires forall i | 0 <= i < |ts| :: flags'[i] == (flags[i] && p(ts[i]))
    ensures Select(ts, flags', true) == Filter(p, Select(ts, flags, true))
  {
    if ts != [] {
      var n := |ts| - 1;
      SelectInit(ts, flags, true);
      SelectInit(ts, flags', true);
      FilterOfSelected(p, ts[..n], flags[..n], flags'[..n]);
      FilterPush(p, Select(ts[..n], flags[..n], true), ts[n]);
    }
  }

  /** The retained vector is what was accepted and never purged. */
  lemma {:induction false} WindowIsSelected(times: seq<int>)
    ensures After(times).window == Select(After(times).accepted, Flags(times), true)
  {
    if times != [] {
      var init, now := times[..|times| - 1], times[|times| - 1];
      var s, flags := After(init), Flags(init);
      var left := seq(|flags|, i requires 0 <= i < |flags| => flags[i] && Recent(now)(s.accepted[i]));
      WindowIsSelected(init);
      FilterOfSelected(Recent(now), s.accepted, flags, left);
      if |Filter(Recent(now), s.window)| < LIMIT {
        SelectPush(s.accepted, left, now, true, true);
      } else {
        assert Flags(times) == left;
      }
    }
  }

  lemma {:induction false} FilterSplits(q: int -> bool, ts: seq<int>, flags: seq<bool>)
    requires |flags| == |ts|
    ensures |Filter(q, ts)| == |Filter(q, Select(ts, flags, true))| + |Filter(q, Select(ts, flags, false))|
  {
    if ts != [] {
      var n := |ts| - 1;
      SelectInit(ts, flags, true);
      SelectInit(ts, flags, false);
      FilterInit(q, ts);
      FilterSplits(q, ts[..n], flags[..n]);
      FilterPush(q, Select(ts[..n], flags[..n], flags[n]), ts[n]);
    }
  }

  lemma {:induction false} FilterKeepsAll(q: int -> bool, ts: seq<int>, flags: seq<bool>)
    requires |flags| == |ts| && |Filter(q, Select(ts, flags, false))| == 0
    ensures Filter(q, Select(ts, flags, true)) == Filter(q, ts)
  {
    if ts != [] {
      var n := |ts| - 1;
      SelectInit(ts, flags, true);
      SelectInit(ts, flags, false);
      FilterInit(q, ts);
      FilterPush(q, Select(ts[..n], flags[..n], flags[n]), ts[n]);
      FilterKeepsAll(q, ts[..n], flags[..n]);
    }
  }

  lemma {:induction false} FilterEmptyIff(q: int -> bool, ts: seq<int>)
    ensures |Filter(q, ts)| == 0 <==> forall t | t in ts :: !q(t)
  {
    if ts != [] {
      var init, last := ts[..|ts| - 1], ts[|ts| - 1];
      FilterEmptyIff(q, init);
      assert ts == init + [last];
    }
  }

  /** Whatever the order of calls, the vector a call works with is the accepted
      history filtered to the last second exactly when no accepted instant of
      that second had been purged by an earlier call. */
  lemma RetainsHistoryIff(times: seq<int>, now: int)
    ensures Filter(Recent(now), After(times).window) == Filter(Recent(now), After(times).accepted) <==>
            forall t | t in Purged(times) :: now - t >= SECOND
  {
    var accepted, flags := After(times).accepted, Flags(times);
    WindowIsSelected(times);
    FilterSplits(Recent(now), accepted, flags);
    FilterEmptyIff(Recent(now), Purged(times));
    if |Filter(Recent(now), Purged(times))| == 0 {
      FilterKeepsAll(Recent(now), accepted, flags);
    }
  }

  // ---- When the limit can be exceeded ----

  ghost predicate WithinLimit(times: seq<int>) {
    forall end :: |Filter(Span(end), After(times).accepted)| <= LIMIT
  }

  // The call is admitted although the span already holds five, some of them purged.
  predicate Overfills(times: seq<int>, now: int, end: int) {
    var kept := Filter(Recent(now), After(times).window);
    && Span(end)(now) && |kept| < LIMIT
    && |Filter(Span(end), kept)| + |Filter(Span(end), Purged(times))| >= LIMIT
  }

  lemma AcceptedInSpan(times: seq<int>, now: int, end: int)
    requires Span(end)(now)
    ensures var kept := Filter(Recent(now), After(times).window);
            |Filter(Span(end), After(times).accepted)| ==
            |Filter(Span(end), kept)| + |Filter(Span(end), Purged(times))|
  {
    WindowIsSelected(times);
    FilterSplits(Span(end), After(times).accepted, Flags(times));
    FilterTwice(Recent(now), Span(end), After(times).window);
  }

  // One more call, for one span.
  lemma CallFillsSpan(times: seq<int>, now: int, end: int)
    ensures |Filter(Span(end), After(times + [now]).accepted)| > LIMIT <==>
            |Filter(Span(end), After(times).accepted)| > LIMIT || Overfills(times, now, end)
  {
    AfterPush(times, now);
    FilterPush(Span(end), After(times).accepted, now);
    if Span(end)(now) {
      AcceptedInSpan(times, now, end);
    }
  }

  lemma CallKeepsLimitIff(times: seq<int>, now: int)
    ensures WithinLimit(times + [now]) <==> WithinLimit(times) && forall end :: !Overfills(times, now, end)
  {
    forall end
      ensures |Filter(Span(end), After(times + [now]).accepted)| > LIMIT <==>
              |Filter(Span(end), After(times).accepted)| > LIMIT || Overfills(times, now, end)
    {
      CallFillsSpan(times, now, end);
    }
  }

  // No call overfills a span of which nothing was purged.
  lemma OverfillingNeedsPurged(times: seq<int>, now: int, end: int)
    requires Overfills(times, now, end)
    ensures exists t :: t in Purged(times) && Span(end)(t)
  {
    FilterWider(Span(end), Span(end), Filter(Recent(now), After(times).window));
    FilterEmptyIff(Span(end), Purged(times));
  }

  // A call admitted into a span that holds five, at least one of which the vector has lost.
  ghost predicate Overfilled(times: seq<int>, now: int) {
    exists end, t :: Overfills(times, now, end) && t in Purged(times) && Span(end)(t)
  }

  lemma OverfilledIff(times: seq<int>, now: int)
    ensures Overfilled(times, now) <==> exists end :: Overfills(times, now, end)
  {
    if end :| Overfills(times, now, end) {
      OverfillingNeedsPurged(times, now, end);
      var t :| t in Purged(times) && Span(end)(t);
      assert Overfills(times, now, end) && t in Purged(times) && Span(end)(t);
    }
  }

  ghost predicate OverfilledAt(times: seq<int>, i: nat) {
    i < |times| && Overfilled(times[..i], times[i])
  }

  lemma OverfilledInit(times: seq<int>, now: int, i: nat)
    ensures OverfilledAt(times + [now], i) <==>
            if i == |times| then Overfilled(times, now) else OverfilledAt(times, i)
  {
    var more := times + [now];
    if i < |times| {
      assert more[..i] == times[..i] && more[i] == times[i];
    } else if i == |times| {
      assert more[..i] == times && more[i] == now;
    }
  }

  /** Over any calls in any order, some one-second span holds more than five
      accepted requests exactly when some call was admitted into a span that
      already held five, one of which an earlier call had purged. */
  lemma {:induction false} LimitExceededIff(times: seq<int>)
    ensures !WithinLimit(times) <==> exists i: nat :: OverfilledAt(times, i)
  {
    if times != [] {
      var init, now := times[..|times| - 1], times[|times| - 1];
      assert times == init + [now];
      LimitExceededIff(init);
      CallKeepsLimitIff(init, now);
      OverfilledIff(init, now);
      forall i: nat
        ensures OverfilledAt(times, i) <==>
                if i == |init| then Overfilled(init, now) else OverfilledAt(init, i)
      {
        OverfilledInit(init, now, i);
      }
      if !WithinLimit(init) {
        var i: nat :| OverfilledAt(init, i);
        assert OverfilledAt(times, i);
      } else if !WithinLimit(times) {
        assert OverfilledAt(times, |init|);
      }
    }
  }
}
