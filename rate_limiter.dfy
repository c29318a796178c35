/** The client-side sliding-window rate limiter (services/rateLimiter.ts).
    The limiter keeps a log of the instants at which it admitted a request.
    Every query first drops the entries that have left the window; an entry
    recorded `RATE_LIMIT_WINDOW_MS` milliseconds ago or earlier has left it.
    A request is admitted while fewer than `MAX_REQUESTS_PER_WINDOW` entries
    remain, and its instant is then appended to the log. */
module RateLimiting {
  import opened Constants

  /** An entry recorded at `t` still counts at `now`. The window is half-open:
      an entry exactly one window old no longer counts. */
  predicate InWindow(t: int, now: int) {
    now - t < RATE_LIMIT_WINDOW_MS
  }

  /** The log is in chronological order. */
  predicate Sorted(ts: seq<int>) {
    forall i, j | 0 <= i < j < |ts| :: ts[i] <= ts[j]
  }

  /** No entry of the log lies after `now` (the clock has not gone back). */
  predicate NotAfter(ts: seq<int>, now: int) {
    forall t | t in ts :: t <= now
  }

  function Max(a: int, b: int): int {
    if a < b then b else a
  }

  /** The lazy purge `timestamps.filter(t => now - t < RATE_LIMIT_WINDOW_MS)`:
      the entries still inside the window, in their original order. */
  function Live(ts: seq<int>, now: int): (live: seq<int>)
    ensures |live| <= |ts|
    ensures forall t :: t in live <==> t in ts && InWindow(t, now)
    decreases |ts|
  {
    if ts == [] then []
    else
      var init, last := ts[..|ts| - 1], ts[|ts| - 1];
      assert ts == init + [last];
      if InWindow(last, now) then Live(init, now) + [last] else Live(init, now)
  }

  /** The positions of the log whose entries are still inside the window. */
  function LiveIndices(ts: seq<int>, now: int): set<int> {
    set k | 0 <= k < |ts| && InWindow(ts[k], now)
  }

  /** What one `checkLimit` call at `now` decides, and the log it leaves. */
  datatype Check = Check(admitted: bool, log: seq<int>)

  function Step(ts: seq<int>, now: int): Check {
    var live := Live(ts, now);
    if |live| >= MAX_REQUESTS_PER_WINDOW then Check(false, live) else Check(true, live + [now])
  }

  /** `getRemainingTime` on a log: zero for an empty log, otherwise the time left
      until the oldest entry leaves the window, never negative. */
  function RemainingTime(ts: seq<int>, now: int): (ms: int)
    ensures ms >= 0
    ensures ts == [] ==> ms == 0
    // waiting `ms` is enough for the oldest entry to leave the window ...
    ensures ts != [] ==> !InWindow(ts[0], now + ms)
    // ... and no shorter wait is
    ensures ts != [] && ms > 0 ==> InWindow(ts[0], now + ms - 1)
    ensures ts != [] && ts[0] <= now ==> ms <= RATE_LIMIT_WINDOW_MS
  {
    if |ts| == 0 then 0 else Max(0, RATE_LIMIT_WINDOW_MS - (now - ts[0]))
  }

  /** A sequence of `checkLimit` calls at the instants `times`, starting from the
      log `ts`: the decision of each call and the final log. */
  function Run(ts: seq<int>, times: seq<int>): (r: (seq<bool>, seq<int>))
    ensures |r.0| == |times|
    // a log within the maximum stays within it after every call
    ensures |ts| <= MAX_REQUESTS_PER_WINDOW ==> |r.1| <= MAX_REQUESTS_PER_WINDOW
    decreases |times|
  {
    if times == [] then ([], ts)
    else
      var c := Step(ts, times[0]);
      var rest := Run(c.log, times[1..]);
      ([c.admitted] + rest.0, rest.1)
  }

  /** The number of admitted calls among `outcomes`. */
  function Admissions(outcomes: seq<bool>): nat
    decreases |outcomes|
  {
    if outcomes == [] then 0 else (if outcomes[0] then 1 else 0) + Admissions(outcomes[1..])
  }

  /** The number of log entries recorded at or after `lo`. */
  function Since(ts: seq<int>, lo: int): (n: nat)
    ensures n <= |ts|
    decreases |ts|
  {
    if ts == [] then 0 else Since(ts[..|ts| - 1], lo) + (if ts[|ts| - 1] >= lo then 1 else 0)
  }

  /** Appending an instant no earlier than every entry keeps a log sorted. */
  lemma SortedAppend(ts: seq<int>, x: int)
    requires Sorted(ts) && forall t | t in ts :: t <= x
    ensures Sorted(ts + [x])
  {
    var r := ts + [x];
    forall i, j | 0 <= i < j < |r| ensures r[i] <= r[j] {
      if j == |ts| {
        assert r[i] == ts[i] && ts[i] in ts;
      }
    }
  }

  /** Extending the log by one entry adds its position exactly when the entry
      is inside the window. */
  lemma LiveIndicesSnoc(init: seq<int>, last: int, now: int)
    ensures LiveIndices(init + [last], now) ==
              LiveIndices(init, now) + (if InWindow(last, now) then {|init|} else {})
  {
    var ts := init + [last];
    assert forall k | 0 <= k < |init| :: ts[k] == init[k];
  }

  /** The purge keeps one entry per position inside the window: repeated
      instants are all kept, so the count compared with the maximum is the number
      of live positions. */
  lemma {:induction false} LiveCount(ts: seq<int>, now: int)
    ensures |Live(ts, now)| == |LiveIndices(ts, now)|
    decreases |ts|
  {
    if ts == [] {
      assert LiveIndices(ts, now) == {};
    } else {
      var init, last := ts[..|ts| - 1], ts[|ts| - 1];
      assert ts == init + [last];
      LiveCount(init, now);
      LiveIndicesSnoc(init, last, now);
      assert |init| !in LiveIndices(init, now);
    }
  }

  /** The purge keeps every copy of a value inside the window and no copy of a
      value outside it. */
  lemma {:induction false} LiveMultiplicity(ts: seq<int>, now: int)
    ensures forall t :: multiset(Live(ts, now))[t] == if InWindow(t, now) then multiset(ts)[t] else 0
    decreases |ts|
  {
    if ts != [] {
      var init, last := ts[..|ts| - 1], ts[|ts| - 1];
      assert ts == init + [last];
      LiveMultiplicity(init, now);
      assert multiset(ts) == multiset(init) + multiset{last};
      if InWindow(last, now) {
        assert multiset(Live(ts, now)) == multiset(Live(init, now)) + multiset{last};
      } else {
        assert Live(ts, now) == Live(init, now);
      }
    }
  }

  /** The purge keeps the entries in their original order: any two positions of
      the purged log hold entries found at positions of the log in the same
      order. */
  lemma {:induction false} LiveKeepsOrder(ts: seq<int>, now: int, i: int, j: int)
    requires 0 <= i < j < |Live(ts, now)|
    ensures exists a, b | 0 <= a < b < |ts| :: ts[a] == Live(ts, now)[i] && ts[b] == Live(ts, now)[j]
    decreases |ts|
  {
    var init, last := ts[..|ts| - 1], ts[|ts| - 1];
    assert ts == init + [last];
    var live, before := Live(ts, now), Live(init, now);
    if InWindow(last, now) && j == |before| {
      assert live == before + [last];
      assert live[i] == before[i] && before[i] in before;
      var a :| 0 <= a < |init| && init[a] == before[i];
      assert ts[a] == live[i] && ts[|ts| - 1] == live[j];
    } else {
      assert j < |before|;
      assert live[i] == before[i] && live[j] == before[j];
      LiveKeepsOrder(init, now, i, j);
      var a, b :| 0 <= a < b < |init| && init[a] == before[i] && init[b] == before[j];
      assert ts[a] == live[i] && ts[b] == live[j];
    }
  }

  /** Purging preserves chronological order: filter keeps the relative order. */
  lemma {:induction false} LiveSorted(ts: seq<int>, now: int)
    requires Sorted(ts)
    ensures Sorted(Live(ts, now))
    decreases |ts|
  {
    if ts != [] {
      var init, last := ts[..|ts| - 1], ts[|ts| - 1];
      LiveSorted(init, now);
      var live := Live(init, now);
      forall t | t in live ensures t <= last {
        var i :| 0 <= i < |init| && init[i] == t;
        assert ts[i] == t;
      }
      if InWindow(last, now) {
        SortedAppend(live, last);
      }
    }
  }

  /** Purging keeps every entry when all of them are inside the window. */
  lemma {:induction false} LiveKeepsAll(ts: seq<int>, now: int)
    requires forall k | 0 <= k < |ts| :: InWindow(ts[k], now)
    ensures Live(ts, now) == ts
    decreases |ts|
  {
    if ts != [] {
      LiveKeepsAll(ts[..|ts| - 1], now);
      assert ts == ts[..|ts| - 1] + [ts[|ts| - 1]];
    }
  }

  /** Purging empties the log when every entry has left the window. */
  lemma {:induction false} LiveDropsAll(ts: seq<int>, now: int)
    requires forall k | 0 <= k < |ts| :: !InWindow(ts[k], now)
    ensures Live(ts, now) == []
    decreases |ts|
  {
    if ts != [] {
      LiveDropsAll(ts[..|ts| - 1], now);
    }
  }

  /** Purging removes at least one entry when one of them has left the window. */
  lemma {:induction false} LiveDrops(ts: seq<int>, now: int, i: int)
    requires 0 <= i < |ts| && !InWindow(ts[i], now)
    ensures |Live(ts, now)| < |ts|
    decreases |ts|
  {
    if i < |ts| - 1 {
      LiveDrops(ts[..|ts| - 1], now, i);
    }
  }

  /** The entries recorded at or after `lo` all survive a purge made less than a
      window after `lo`. */
  lemma {:induction false} LiveKeepsRecent(ts: seq<int>, now: int, lo: int)
    requires now - lo < RATE_LIMIT_WINDOW_MS
    ensures Since(Live(ts, now), lo) == Since(ts, lo)
    decreases |ts|
  {
    if ts != [] {
      var init, last := ts[..|ts| - 1], ts[|ts| - 1];
      LiveKeepsRecent(init, now, lo);
      var live := Live(init, now);
      if InWindow(last, now) {
        assert (live + [last])[..|live|] == live;
      }
    }
  }

  /** One `checkLimit` call keeps the log chronological when the clock does not
      go back. */
  lemma StepSorted(ts: seq<int>, now: int)
    requires Sorted(ts) && NotAfter(ts, now)
    ensures Sorted(Step(ts, now).log) && NotAfter(Step(ts, now).log, now)
  {
    LiveSorted(ts, now);
    var live := Live(ts, now);
    if |live| < MAX_REQUESTS_PER_WINDOW {
      SortedAppend(live, now);
    }
  }

  /** With a non-decreasing clock, any sequence of `checkLimit` calls leaves the
      log sorted. */
  lemma {:induction false} RunSorted(ts: seq<int>, times: seq<int>)
    requires Sorted(ts)
    requires forall i, j | 0 <= i < j < |times| :: times[i] <= times[j]
    requires times != [] ==> NotAfter(ts, times[0])
    ensures Sorted(Run(ts, times).1)
    decreases |times|
  {
    if times != [] {
      StepSorted(ts, times[0]);
      var log := Step(ts, times[0]).log;
      if |times| > 1 {
        assert times[0] <= times[1];
      }
      RunSorted(log, times[1..]);
    }
  }

  /** Within any interval shorter than a window, the entries recorded since its
      start plus the calls admitted in it never exceed `MAX_REQUESTS_PER_WINDOW`. */
  lemma {:induction false} AdmissionsWithinWindow(ts: seq<int>, times: seq<int>, lo: int)
    requires forall k | 0 <= k < |times| :: lo <= times[k] < lo + RATE_LIMIT_WINDOW_MS
    requires Since(ts, lo) <= MAX_REQUESTS_PER_WINDOW
    ensures Since(Run(ts, times).1, lo) == Since(ts, lo) + Admissions(Run(ts, times).0)
    ensures Since(ts, lo) + Admissions(Run(ts, times).0) <= MAX_REQUESTS_PER_WINDOW
    decreases |times|
  {
    if times != [] {
      var now := times[0];
      var live := Live(ts, now);
      LiveKeepsRecent(ts, now, lo);
      var c := Step(ts, now);
      if c.admitted {
        assert (live + [now])[..|live|] == live;
      }
      AdmissionsWithinWindow(c.log, times[1..], lo);
    }
  }

  /** A fresh limiter admits at most `MAX_REQUESTS_PER_WINDOW` of any calls made
      within one interval shorter than the window. */
  lemma AtMostMaxPerWindow(times: seq<int>, lo: int)
    requires forall k | 0 <= k < |times| :: lo <= times[k] < lo + RATE_LIMIT_WINDOW_MS
    ensures Admissions(Run([], times).0) <= MAX_REQUESTS_PER_WINDOW
  {
    AdmissionsWithinWindow([], times, lo);
  }

  /** After a gap of at least one window since every recorded entry, the next call
      is admitted and the log holds only its instant. */
  lemma DrainedWindowAdmits(ts: seq<int>, now: int)
    requires forall k | 0 <= k < |ts| :: !InWindow(ts[k], now)
    ensures Step(ts, now) == Check(true, [now])
  {
    LiveDropsAll(ts, now);
  }

  /** Right after a denial, the reported wait is positive and at most one window. */
  lemma DenialWait(ts: seq<int>, now: int)
    requires NotAfter(ts, now)
    requires !Step(ts, now).admitted
    ensures 0 < RemainingTime(Step(ts, now).log, now) <= RATE_LIMIT_WINDOW_MS
  {
    var log := Step(ts, now).log;
    assert log[0] in log;
  }

  /** Waiting the reported time frees a slot: a call made then, or any later,
      is admitted. */
  lemma WaitIsEnough(ts: seq<int>, now: int, d: int)
    requires 0 < |ts| <= MAX_REQUESTS_PER_WINDOW
    requires d >= RemainingTime(ts, now)
    ensures Step(ts, now + d).admitted
  {
    LiveDrops(ts, now + d, 0);
  }

  /** A call is denied while `MAX_REQUESTS_PER_WINDOW` entries are all inside
      the window. */
  lemma FullWindowDenies(ts: seq<int>, now: int)
    requires |ts| >= MAX_REQUESTS_PER_WINDOW
    requires forall k | 0 <= k < |ts| :: InWindow(ts[k], now)
    ensures Step(ts, now) == Check(false, ts)
  {
    LiveKeepsAll(ts, now);
  }

  /** In a chronological log, every entry is in the window when the oldest is. */
  lemma OldestInWindow(ts: seq<int>, now: int)
    requires Sorted(ts) && ts != [] && InWindow(ts[0], now)
    ensures forall k | 0 <= k < |ts| :: InWindow(ts[k], now)
  {
    forall k | 0 <= k < |ts| ensures InWindow(ts[k], now) {
      if k > 0 {
        assert ts[0] <= ts[k];
      }
    }
  }

  /** On a full, chronological log every call made before the reported time has
      elapsed is denied. */
  lemma WaitIsNeeded(ts: seq<int>, now: int, d: int)
    requires Sorted(ts) && |ts| >= MAX_REQUESTS_PER_WINDOW
    requires 0 <= d < RemainingTime(ts, now)
    ensures !Step(ts, now + d).admitted
  {
    var later := now + d;
    var c := Step(ts, later);
    assert InWindow(ts[0], later);
    OldestInWindow(ts, later);
    FullWindowDenies(ts, later);
    assert c == Check(false, ts);
    assert !c.admitted;
  }

  /** The log after `k` admissions at the single instant `t`. */
  function Repeat(t: int, k: nat): seq<int> {
    seq(k, _ => t)
  }

  /** Calls at one instant: the first `MAX_REQUESTS_PER_WINDOW` are admitted, the
      next one is denied and records nothing, and a call one window later is
      admitted into an otherwise emptied log. */
  lemma SameInstantCalls(t: int, k: nat)
    requires k <= MAX_REQUESTS_PER_WINDOW
    ensures k < MAX_REQUESTS_PER_WINDOW ==> Step(Repeat(t, k), t) == Check(true, Repeat(t, k + 1))
    ensures k == MAX_REQUESTS_PER_WINDOW ==> Step(Repeat(t, k), t) == Check(false, Repeat(t, k))
    ensures Step(Repeat(t, k), t + RATE_LIMIT_WINDOW_MS) == Check(true, [t + RATE_LIMIT_WINDOW_MS])
  {
    LiveKeepsAll(Repeat(t, k), t);
    assert Repeat(t, k) + [t] == Repeat(t, k + 1);
    DrainedWindowAdmits(Repeat(t, k), t + RATE_LIMIT_WINDOW_MS);
  }

  /** The limiter object: the private `timestamps` log, reassigned by the purge and
      extended in place by `push`. */
  class RateLimiter {
    var timestamps: seq<int>

    /** The log never holds more than `MAX_REQUESTS_PER_WINDOW` entries. */
    ghost predicate Valid()
      reads this
    {
      |timestamps| <= MAX_REQUESTS_PER_WINDOW
    }

    constructor ()
      ensures Valid() && timestamps == []
    {
      timestamps := [];
    }

    /** `checkLimit` with the clock reading `now`. */
    method CheckLimit(now: int) returns (admitted: bool)
      requires Valid()
      modifies this
      ensures Valid()
      ensures Check(admitted, timestamps) == Step(old(timestamps), now)
      ensures admitted <==> |Live(old(timestamps), now)| < MAX_REQUESTS_PER_WINDOW
      ensures !admitted ==> timestamps == Live(old(timestamps), now)
      ensures admitted ==> timestamps == Live(old(timestamps), now) + [now]
      ensures Sorted(old(timestamps)) && NotAfter(old(timestamps), now) ==>
                Sorted(timestamps) && NotAfter(timestamps, now)
    {
      if Sorted(timestamps) && NotAfter(timestamps, now) {
        StepSorted(timestamps, now);
      }
      timestamps := Live(timestamps, now);
      if |timestamps| >= MAX_REQUESTS_PER_WINDOW {
        return false;
      }
      timestamps := timestamps + [now];
      return true;
    }

    /** `getRemainingTime` with the clock reading `now`; it reads the log without
        purging it. */
    method GetRemainingTime(now: int) returns (ms: int)
      ensures ms == RemainingTime(timestamps, now)
    {
      if |timestamps| == 0 {
        return 0;
      }
      var oldest := timestamps[0];
      var elapsed := now - oldest;
      return Max(0, RATE_LIMIT_WINDOW_MS - elapsed);
    }

    /** `getRemainingRequests` with the clock reading `now`: purges, then reports
        the free slots. */
    method GetRemainingRequests(now: int) returns (n: int)
      requires Valid()
      modifies this
      ensures Valid()
      ensures timestamps == Live(old(timestamps), now)
      ensures n == MAX_REQUESTS_PER_WINDOW - |timestamps|
      ensures 0 <= n <= MAX_REQUESTS_PER_WINDOW
      ensures n == MAX_REQUESTS_PER_WINDOW <==> timestamps == []
    {
      timestamps := Live(timestamps, now);
      return Max(0, MAX_REQUESTS_PER_WINDOW - |timestamps|);
    }
  }
}
