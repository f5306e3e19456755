// How many upgrade attempts the fixed-window limit lets through, over every run of the guard.
module RateBound {
  import opened AbuseGuard

  /** An attempt with its clock reading, in lock order, or the end of a connection. */
  datatype Event = Attempt(key: string, now: int) | Release(key: string)

  function Step(cfg: Config, g: Guard, event: Event): Guard {
    match event
    case Attempt(key, now) => Reserve(cfg, g, key, now)
    case Release(key) => Clear(g, key)
  }

  function Run(cfg: Config, g: Guard, events: seq<Event>): Guard
    decreases |events|
  {
    if events == [] then g else Run(cfg, Step(cfg, g, events[0]), events[1..])
  }

  predicate IsOwn(event: Event, key: string) { event.Attempt? && event.key == key }

  /** The times of the client's own attempts. */
  function OwnTimes(events: seq<Event>, key: string): seq<int> {
    if events == [] then []
    else (if IsOwn(events[0], key) then [events[0].now] else []) + OwnTimes(events[1..], key)
  }

  /** For each attempt of the client, whether the guard let it past the rate check. */
  function RateDecisions(cfg: Config, g: Guard, events: seq<Event>, key: string): seq<bool>
    decreases |events|
  {
    if events == [] then []
    else (if IsOwn(events[0], key) then [Judge(cfg, g, key, events[0].now) != RateExceeded] else [])
         + RateDecisions(cfg, Step(cfg, g, events[0]), events[1..], key)
  }

  /** The same from the client's window and its own times alone. */
  function OwnDecisions(cfg: Config, w: Window, times: seq<int>): seq<bool>
    decreases |times|
  {
    if times == [] then [] else [RateAllows(cfg, w, times[0])] + OwnDecisions(cfg, Count(cfg, w, times[0]), times[1..])
  }

  function OwnWindow(cfg: Config, w: Window, times: seq<int>): Window
    decreases |times|
  {
    if times == [] then w else OwnWindow(cfg, Count(cfg, w, times[0]), times[1..])
  }

  lemma StepOnOneWindow(cfg: Config, g: Guard, event: Event, key: string)
    ensures WindowOf(Step(cfg, g, event).windows, key) ==
      if IsOwn(event, key) then Count(cfg, WindowOf(g.windows, key), event.now) else WindowOf(g.windows, key)
  {
  }

  /** A client's window and rate decisions depend on its own attempts only, whatever other
      clients, releases and the connection caps do. */
  lemma {:induction false} RateIsPerClient(cfg: Config, g: Guard, events: seq<Event>, key: string)
    ensures RateDecisions(cfg, g, events, key) == OwnDecisions(cfg, WindowOf(g.windows, key), OwnTimes(events, key))
    ensures WindowOf(Run(cfg, g, events).windows, key)
         == OwnWindow(cfg, WindowOf(g.windows, key), OwnTimes(events, key))
    decreases |events|
  {
    if events != [] {
      StepOnOneWindow(cfg, g, events[0], key);
      RateIsPerClient(cfg, Step(cfg, g, events[0]), events[1..], key);
      var rest := OwnTimes(events[1..], key);
      if IsOwn(events[0], key) {
        assert OwnTimes(events, key)[1..] == rest;
      } else {
        assert OwnTimes(events, key) == rest;
      }
    }
  }

  /** A refused attempt changes nothing at all, and an attempt made a minute or more after the
      window began always passes the rate check. */
  lemma RefusedChangesNothing(cfg: Config, g: Guard, key: string, now: int)
    ensures Judge(cfg, g, key, now) == RateExceeded ==> Reserve(cfg, g, key, now) == g
    ensures now - WindowOf(g.windows, key).startedAt >= WINDOW ==> Judge(cfg, g, key, now) != RateExceeded
  {
  }

  // ---- The bound ----

  /** The clock condition: no attempt reads the zero time, and none reads a time more than lag
      before the start of the window it meets. Time is read before the guard's lock is taken, so
      attempts may meet the guard out of clock order. */
  predicate MeetsWindows(cfg: Config, w: Window, times: seq<int>, lag: nat)
    decreases |times|
  {
    times == [] ||
    (0 < times[0] && w.startedAt - lag <= times[0] && MeetsWindows(cfg, Count(cfg, w, times[0]), times[1..], lag))
  }

  /** How many of the decisions are passes at a time in [lo, hi). */
  function Passes(decisions: seq<bool>, times: seq<int>, lo: int, hi: int): nat
    requires |decisions| == |times|
  {
    if times == [] then 0
    else (if decisions[0] && lo <= times[0] < hi then 1 else 0) + Passes(decisions[1..], times[1..], lo, hi)
  }

  function Passed(cfg: Config, w: Window, times: seq<int>, lo: int, hi: int): nat
    decreases |times|
  {
    if times == [] then 0
    else (if RateAllows(cfg, w, times[0]) && lo <= times[0] < hi then 1 else 0)
         + Passed(cfg, Count(cfg, w, times[0]), times[1..], lo, hi)
  }

  lemma {:induction false} PassedCounts(cfg: Config, w: Window, times: seq<int>, lo: int, hi: int)
    ensures |OwnDecisions(cfg, w, times)| == |times|
    ensures Passes(OwnDecisions(cfg, w, times), times, lo, hi) == Passed(cfg, w, times, lo, hi)
    decreases |times|
  {
    if times != [] {
      PassedCounts(cfg, Count(cfg, w, times[0]), times[1..], lo, hi);
    }
  }

  /** How many windows can begin in an interval of the given length, each a minute after the
      one before: its length in minutes, rounded up. */
  function Starts(length: int): nat
    decreases if length > 0 then length else 0
  {
    if length <= 0 then 0 else 1 + Starts(length - WINDOW)
  }

  lemma {:induction false} StartsInMinutes(m: nat)
    ensures Starts(m * WINDOW) == m
  {
    if m > 0 {
      StartsInMinutes(m - 1);
    }
  }

  /** What windows that begin at from or later can let through in an interval that ends at hi: all
      of their limit if they begin before hi, all but the attempt that begins them if they begin
      behind it but within the lag. */
  function Later(max: nat, from: int, hi: int, lag: nat): nat
    requires max > 0
    decreases if from < hi + lag then hi + lag - from else 0
  {
    if from >= hi + lag then 0 else (if from < hi then max else max - 1) + Later(max, from + WINDOW, hi, lag)
  }

  lemma {:induction false} LaterMonotone(max: nat, a: int, b: int, hi: int, lag: nat)
    requires max > 0 && a <= b
    ensures Later(max, b, hi, lag) <= Later(max, a, hi, lag)
    decreases if b < hi + lag then hi + lag - b else 0
  {
    if b < hi + lag {
      LaterMonotone(max, a + WINDOW, b + WINDOW, hi, lag);
    }
  }

  lemma {:induction false} LaterBehind(max: nat, from: int, hi: int, lag: nat)
    requires max > 0 && from >= hi
    ensures Later(max, from, hi, lag) == (max - 1) * Starts(hi + lag - from)
    decreases if from < hi + lag then hi + lag - from else 0
  {
    if from < hi + lag {
      LaterBehind(max, from + WINDOW, hi, lag);
      assert (max - 1) * (1 + Starts(hi + lag - from - WINDOW))
          == (max - 1) + (max - 1) * Starts(hi + lag - from - WINDOW);
    }
  }

  lemma {:induction false} LaterInMinutes(max: nat, from: int, m: nat, lag: nat)
    requires max > 0
    ensures Later(max, from, from + m * WINDOW, lag) == m * max + (max - 1) * Starts(lag)
    decreases m
  {
    if m == 0 {
      LaterBehind(max, from, from, lag);
    } else {
      assert from + m * WINDOW == (from + WINDOW) + (m - 1) * WINDOW;
      LaterInMinutes(max, from + WINDOW, m - 1, lag);
      assert m * max == (m - 1) * max + max;
    }
  }

  /** A window that a run can have reached: it counted the attempt that began it. */
  predicate Sound(cfg: Config, w: Window) {
    w == NO_WINDOW || (w.startedAt > 0 && 1 <= w.count <= cfg.maxUpgrades)
  }

  /** What the current window still admits into [lo, hi). */
  function Rest(cfg: Config, w: Window, lo: int, hi: int, lag: nat): int {
    if w != NO_WINDOW && lo < w.startedAt + WINDOW && w.startedAt < hi + lag then cfg.maxUpgrades - w.count else 0
  }

  /** What windows that begin later can admit; the first of them may begin before lo. */
  function Future(cfg: Config, w: Window, lo: int, hi: int, lag: nat): nat
    requires cfg.maxUpgrades > 0
  {
    if w != NO_WINDOW && lo <= w.startedAt + WINDOW then Later(cfg.maxUpgrades, w.startedAt + WINDOW, hi, lag)
    else cfg.maxUpgrades - 1 + Later(cfg.maxUpgrades, lo, hi, lag)
  }

  /** An attempt that begins a window at its own time is paid for by what later windows admit. */
  lemma FreshWindowFits(cfg: Config, w: Window, now: int, lo: int, hi: int, lag: nat)
    requires cfg.maxUpgrades > 0 && Sound(cfg, w) && 0 < now && lo <= hi
    requires w == NO_WINDOW || now - w.startedAt >= WINDOW
    ensures var w' := Window(now, 1);
      (if lo <= now < hi then 1 else 0) + Rest(cfg, w', lo, hi, lag) + Future(cfg, w', lo, hi, lag)
        <= Future(cfg, w, lo, hi, lag)
  {
    var max := cfg.maxUpgrades;
    if lo <= now {
      var from := if w != NO_WINDOW && lo <= w.startedAt + WINDOW then w.startedAt + WINDOW else lo;
      LaterMonotone(max, from, now, hi, lag);
      assert now < hi + lag ==> Later(max, now, hi, lag) >= max - 1 + Later(max, now + WINDOW, hi, lag);
      if now >= hi + lag {
        LaterMonotone(max, now, now + WINDOW, hi, lag);
      }
    } else if lo <= now + WINDOW {
      LaterMonotone(max, lo, now + WINDOW, hi, lag);
    }
  }

  lemma {:induction false} PassedWithinBudget(cfg: Config, w: Window, times: seq<int>, lo: int, hi: int, lag: nat)
    requires cfg.maxUpgrades > 0 && Sound(cfg, w) && MeetsWindows(cfg, w, times, lag) && lo <= hi
    ensures Passed(cfg, w, times, lo, hi) <= Rest(cfg, w, lo, hi, lag) + Future(cfg, w, lo, hi, lag)
    decreases |times|
  {
    if times != [] {
      PassedWithinBudget(cfg, Count(cfg, w, times[0]), times[1..], lo, hi, lag);
      if w == NO_WINDOW || times[0] - w.startedAt >= WINDOW {
        FreshWindowFits(cfg, w, times[0], lo, hi, lag);
      }
    }
  }

  lemma PassedBound(cfg: Config, times: seq<int>, lo: int, m: nat, lag: nat)
    requires cfg.maxUpgrades > 0 && MeetsWindows(cfg, NO_WINDOW, times, lag)
    ensures Passed(cfg, NO_WINDOW, times, lo, lo + m * WINDOW)
      <= (m + 1) * cfg.maxUpgrades - 1 + (cfg.maxUpgrades - 1) * Starts(lag)
  {
    PassedWithinBudget(cfg, NO_WINDOW, times, lo, lo + m * WINDOW, lag);
    LaterInMinutes(cfg.maxUpgrades, lo, m, lag);
    assert (m + 1) * cfg.maxUpgrades == m * cfg.maxUpgrades + cfg.maxUpgrades;
  }

  /** Over every run of a new guard whose clock readings for this client, taken in lock order, are
      never the zero time and lie at most lag before the start of the window they meet: in any m
      minutes the rate check lets at most (m + 1) times the limit less one of the client's
      attempts through, and the limit less one more for each begun minute of lag. */
  lemma RateBoundHolds(cfg: Config, events: seq<Event>, key: string, lo: int, m: nat, lag: nat)
    requires cfg.maxUpgrades > 0 && MeetsWindows(cfg, NO_WINDOW, OwnTimes(events, key), lag)
    ensures |RateDecisions(cfg, EMPTY, events, key)| == |OwnTimes(events, key)|
    ensures Passes(RateDecisions(cfg, EMPTY, events, key), OwnTimes(events, key), lo, lo + m * WINDOW)
      <= (m + 1) * cfg.maxUpgrades - 1 + (cfg.maxUpgrades - 1) * Starts(lag)
  {
    RateIsPerClient(cfg, EMPTY, events, key);
    PassedCounts(cfg, NO_WINDOW, OwnTimes(events, key), lo, lo + m * WINDOW);
    PassedBound(cfg, OwnTimes(events, key), lo, m, lag);
  }

  // ---- Clocks that meet the condition ----

  /** No reading is more than lag before one that came earlier in lock order. */
  predicate LateByAtMost(times: seq<int>, lag: nat) {
    && (forall i :: 0 <= i < |times| ==> times[i] > 0)
    && (forall i, j :: 0 <= i < j < |times| ==> times[i] - lag <= times[j])
  }

  lemma {:induction false} LateClockMeetsWindows(cfg: Config, w: Window, times: seq<int>, lag: nat)
    requires LateByAtMost(times, lag) && forall i :: 0 <= i < |times| ==> w.startedAt - lag <= times[i]
    ensures MeetsWindows(cfg, w, times, lag)
    decreases |times|
  {
    if times != [] {
      LateClockMeetsWindows(cfg, Count(cfg, w, times[0]), times[1..], lag);
    }
  }

  /** For a clock whose readings come at most lag late in lock order, in particular with lag 0 for
      one that never goes back. */
  lemma RateBoundForLateClocks(cfg: Config, events: seq<Event>, key: string, lo: int, m: nat, lag: nat)
    requires cfg.maxUpgrades > 0 && LateByAtMost(OwnTimes(events, key), lag)
    ensures |RateDecisions(cfg, EMPTY, events, key)| == |OwnTimes(events, key)|
    ensures Passes(RateDecisions(cfg, EMPTY, events, key), OwnTimes(events, key), lo, lo + m * WINDOW)
      <= (m + 1) * cfg.maxUpgrades - 1 + (cfg.maxUpgrades - 1) * Starts(lag)
  {
    LateClockMeetsWindows(cfg, NO_WINDOW, OwnTimes(events, key), lag);
    RateBoundHolds(cfg, events, key, lo, m, lag);
  }

  // ---- The bound is attained ----

  function Repeat(t: int, n: nat): seq<int> { seq(n, _ => t) }

  function WindowStart(k: nat): int { 1 + k * WINDOW }

  /** One attempt that begins window k and as many more as it admits, all reading the same time. */
  function FillWindow(k: nat, max: nat, reading: int): seq<int>
    requires max > 0
  {
    [WindowStart(k)] + Repeat(reading, max - 1)
  }

  /** Windows from k on: those up to m are filled at their start, and the n behind them by readings
      from the last moment of window m. */
  function FillWindows(k: nat, m: nat, n: nat, max: nat): seq<int>
    requires max > 0 && k <= m + n + 1
    decreases m + n + 1 - k
  {
    if k == m + n + 1 then []
    else FillWindow(k, max, if k <= m then WindowStart(k) else (m + 1) * WINDOW - 1) + FillWindows(k + 1, m, n, max)
  }

  /** Window 0 begins just before [WINDOW, (m + 1) * WINDOW) and is filled inside it. */
  function Burst(m: nat, n: nat, max: nat): seq<int>
    requires max > 0
  {
    FillWindow(0, max, WINDOW) + FillWindows(1, m, n, max)
  }

  /** Attempts that a window still admits pass, whatever comes behind them. */
  lemma {:induction false} RepeatPasses(
    cfg: Config, w: Window, t: int, n: nat, rest: seq<int>, lo: int, hi: int, lag: nat)
    requires w.startedAt > 0 && t > 0 && w.startedAt - lag <= t < w.startedAt + WINDOW
    requires cfg.maxUpgrades > 0 && w.count + n <= cfg.maxUpgrades
    requires MeetsWindows(cfg, w.(count := w.count + n), rest, lag)
    ensures MeetsWindows(cfg, w, Repeat(t, n) + rest, lag)
    ensures Passed(cfg, w, Repeat(t, n) + rest, lo, hi)
      == (if lo <= t < hi then n else 0) + Passed(cfg, w.(count := w.count + n), rest, lo, hi)
    decreases n
  {
    if n == 0 {
      assert Repeat(t, n) + rest == rest;
    } else {
      var times := Repeat(t, n) + rest;
      assert times[0] == t && times[1..] == Repeat(t, n - 1) + rest;
      assert Count(cfg, w, t) == w.(count := w.count + 1);
      assert w.(count := w.count + 1).(count := w.count + 1 + (n - 1)) == w.(count := w.count + n);
      RepeatPasses(cfg, w.(count := w.count + 1), t, n - 1, rest, lo, hi, lag);
    }
  }

  lemma FillPasses(cfg: Config, w: Window, k: nat, reading: int, rest: seq<int>, lo: int, hi: int, lag: nat)
    requires cfg.maxUpgrades > 0 && (w == NO_WINDOW || WindowStart(k) - w.startedAt >= WINDOW)
    requires reading > 0 && WindowStart(k) - lag <= reading < WindowStart(k) + WINDOW
    requires MeetsWindows(cfg, Window(WindowStart(k), cfg.maxUpgrades), rest, lag)
    ensures MeetsWindows(cfg, w, FillWindow(k, cfg.maxUpgrades, reading) + rest, lag)
    ensures Passed(cfg, w, FillWindow(k, cfg.maxUpgrades, reading) + rest, lo, hi)
      == (if lo <= WindowStart(k) < hi then 1 else 0) + (if lo <= reading < hi then cfg.maxUpgrades - 1 else 0)
         + Passed(cfg, Window(WindowStart(k), cfg.maxUpgrades), rest, lo, hi)
  {
    var start, max := WindowStart(k), cfg.maxUpgrades;
    var times := FillWindow(k, max, reading) + rest;
    assert start > 0 && Count(cfg, w, start) == Window(start, 1);
    assert times[0] == start && times[1..] == Repeat(reading, max - 1) + rest;
    RepeatPasses(cfg, Window(start, 1), reading, max - 1, rest, lo, hi, lag);
  }

  /** How many of the attempts of windows k and later read a time inside the interval. */
  function Filled(k: nat, m: nat, n: nat, max: nat): nat
    requires max > 0 && k <= m + n + 1
    decreases m + n + 1 - k
  {
    if k == m + n + 1 then 0 else (if k <= m then max else max - 1) + Filled(k + 1, m, n, max)
  }

  lemma {:induction false} FilledBehind(k: nat, m: nat, n: nat, max: nat)
    requires max > 0 && m < k <= m + n + 1
    ensures Filled(k, m, n, max) == (m + n + 1 - k) * (max - 1)
    decreases m + n + 1 - k
  {
    if k < m + n + 1 {
      FilledBehind(k + 1, m, n, max);
      assert (m + n + 1 - k) * (max - 1) == (m + n - k) * (max - 1) + (max - 1);
    }
  }

  lemma {:induction false} FilledSum(k: nat, m: nat, n: nat, max: nat)
    requires max > 0 && k <= m + 1
    ensures Filled(k, m, n, max) == (m + 1 - k) * max + n * (max - 1)
    decreases m + 1 - k
  {
    if k == m + 1 {
      FilledBehind(k, m, n, max);
    } else {
      FilledSum(k + 1, m, n, max);
      assert (m + 1 - k) * max == (m - k) * max + max;
    }
  }

  lemma {:induction false} FillWindowsPass(cfg: Config, k: nat, m: nat, n: nat)
    requires cfg.maxUpgrades > 0 && m > 0 && 1 <= k <= m + n + 1
    ensures var w, times := Window(WindowStart(k - 1), cfg.maxUpgrades), FillWindows(k, m, n, cfg.maxUpgrades);
      && MeetsWindows(cfg, w, times, n * WINDOW)
      && Passed(cfg, w, times, WINDOW, (m + 1) * WINDOW) == Filled(k, m, n, cfg.maxUpgrades)
    decreases m + n + 1 - k
  {
    if k < m + n + 1 {
      var max, reading := cfg.maxUpgrades, if k <= m then WindowStart(k) else (m + 1) * WINDOW - 1;
      FillWindowsPass(cfg, k + 1, m, n);
      ReadingsFit(k, m, n);
      FillPasses(cfg, Window(WindowStart(k - 1), max), k, reading, FillWindows(k + 1, m, n, max),
        WINDOW, (m + 1) * WINDOW, n * WINDOW);
    }
  }

  lemma ReadingsFit(k: nat, m: nat, n: nat)
    requires m > 0 && 1 <= k < m + n + 1
    ensures WindowStart(k) - WindowStart(k - 1) == WINDOW
    ensures k <= m ==> WINDOW <= WindowStart(k) < (m + 1) * WINDOW
    ensures (m + 1) * WINDOW - 1 >= WINDOW
    ensures k > m ==> (m + 1) * WINDOW <= WindowStart(k) <= (m + 1) * WINDOW - 1 + n * WINDOW
  {
    assert k <= m ==> k * WINDOW <= m * WINDOW;
    assert k > m ==> (m + 1) * WINDOW <= k * WINDOW <= (m + n) * WINDOW;
  }

  lemma BurstSum(m: nat, n: nat, max: nat)
    requires max > 0 && m > 0
    ensures max - 1 + Filled(1, m, n, max) == (m + 1) * max - 1 + (max - 1) * Starts(n * WINDOW)
    ensures WindowStart(0) == 1 && (m + 1) * WINDOW == WINDOW + m * WINDOW > WINDOW
  {
    FilledSum(1, m, n, max);
    StartsInMinutes(n);
    assert (m + 1) * max == m * max + max;
  }

  /** The bound is attained, for every limit, every positive number of minutes and every number n
      of minutes of lag: every minute by which readings may be late costs the limit less one. */
  lemma RateBoundIsReached(cfg: Config, m: nat, n: nat)
    requires cfg.maxUpgrades > 0 && m > 0
    ensures var times := Burst(m, n, cfg.maxUpgrades);
      && MeetsWindows(cfg, NO_WINDOW, times, n * WINDOW)
      && Passed(cfg, NO_WINDOW, times, WINDOW, WINDOW + m * WINDOW)
         == (m + 1) * cfg.maxUpgrades - 1 + (cfg.maxUpgrades - 1) * Starts(n * WINDOW)
  {
    var max := cfg.maxUpgrades;
    var hi := WINDOW + m * WINDOW;
    FillWindowsPass(cfg, 1, m, n);
    BurstSum(m, n, max);
    FillPasses(cfg, NO_WINDOW, 0, WINDOW, FillWindows(1, m, n, max), WINDOW, hi, n * WINDOW);
  }

  /** The bound of a clock without lag, for one run whose readings are up to n minutes late. */
  predicate KeepsBound(cfg: Config, times: seq<int>, lo: int, m: nat, n: nat) {
    MeetsWindows(cfg, NO_WINDOW, times, n * WINDOW) ==>
      Passed(cfg, NO_WINDOW, times, lo, lo + m * WINDOW) <= (m + 1) * cfg.maxUpgrades - 1
  }

  /** Every run keeps that bound exactly if there is no lag or the limit is 1. */
  lemma LagBreaksBound(cfg: Config, m: nat, n: nat)
    requires cfg.maxUpgrades > 0 && m > 0
    ensures n == 0 || cfg.maxUpgrades == 1 <==> forall times, lo :: KeepsBound(cfg, times, lo, m, n)
  {
    StartsInMinutes(n);
    if n == 0 || cfg.maxUpgrades == 1 {
      forall times, lo
        ensures KeepsBound(cfg, times, lo, m, n)
      {
        if MeetsWindows(cfg, NO_WINDOW, times, n * WINDOW) {
          PassedBound(cfg, times, lo, m, n * WINDOW);
        }
      }
    } else {
      RateBoundIsReached(cfg, m, n);
      assert (cfg.maxUpgrades - 1) * n >= 1;
      assert !KeepsBound(cfg, Burst(m, n, cfg.maxUpgrades), WINDOW, m, n);
    }
  }

  /** The zero time has to be excluded: a window begun at it counts as never begun, so all
      attempts made then pass, whatever the limit. */
  lemma {:induction false} ZeroClockIsUnlimited(cfg: Config, w: Window, times: seq<int>)
    requires w.startedAt == 0 && forall i :: 0 <= i < |times| ==> times[i] == 0
    ensures Passed(cfg, w, times, 0, 1) == |times|
    decreases |times|
  {
    if times != [] {
      ZeroClockIsUnlimited(cfg, Count(cfg, w, 0), times[1..]);
    }
  }
}
