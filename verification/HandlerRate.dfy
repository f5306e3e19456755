// The rate bound of the guard, lifted to the requests of the handler: every run of concurrent
// requests is a run of guard events, so it bounds the requests that get a slot.
module HandlerRate {
  import opened Sequences
  import opened AbuseGuard
  import opened HandlerLifecycle
  import RateBound

  /** What the guard sees of the step from s to s' that request i takes at clock reading now. */
  function GuardEvent(s: System, i: nat, now: int, s': System): seq<RateBound.Event> {
    if i >= |s.handlers| || i >= |s'.handlers| then []
    else if s.handlers[i].stage.Reserving? then [RateBound.Attempt(s.handlers[i].key, now)]
    else if Holds(s.handlers[i], GuardSlot) && !Holds(s'.handlers[i], GuardSlot)
    then [RateBound.Release(s.handlers[i].key)]
    else []
  }

  /** The guard events of a run, in the order in which they take the guard's lock. */
  function Events(states: seq<System>, moves: seq<(nat, int)>): seq<RateBound.Event>
    decreases |moves|
  {
    if moves == [] || |states| < 2 then []
    else GuardEvent(states[0], moves[0].0, moves[0].1, states[1]) + Events(states[1..], moves[1..])
  }

  /** A request of the client passes the rate check at a time in [lo, hi). */
  predicate PassesRate(s: System, i: nat, now: int, key: string, lo: int, hi: int) {
    && i < |s.handlers| && s.handlers[i].stage.Reserving? && s.handlers[i].key == key && lo <= now < hi
    && Judge(s.cfg, s.shared.guard, key, now) != RateExceeded
  }

  /** A request of the client gets a slot then. */
  predicate GetsSlot(s: System, i: nat, now: int, s': System, key: string, lo: int, hi: int) {
    && i < |s.handlers| && i < |s'.handlers| && s.handlers[i].key == key && lo <= now < hi
    && !Holds(s.handlers[i], GuardSlot) && Holds(s'.handlers[i], GuardSlot)
  }

  /** How many requests of the client pass the rate check of a run at a time in [lo, hi). */
  function PassCount(states: seq<System>, moves: seq<(nat, int)>, key: string, lo: int, hi: int): nat
    decreases |moves|
  {
    if moves == [] || |states| < 2 then 0
    else One(PassesRate(states[0], moves[0].0, moves[0].1, key, lo, hi))
         + PassCount(states[1..], moves[1..], key, lo, hi)
  }

  /** How many of its requests get a slot then. */
  function SlotCount(states: seq<System>, moves: seq<(nat, int)>, key: string, lo: int, hi: int): nat
    decreases |moves|
  {
    if moves == [] || |states| < 2 then 0
    else One(GetsSlot(states[0], moves[0].0, moves[0].1, states[1], key, lo, hi))
         + SlotCount(states[1..], moves[1..], key, lo, hi)
  }

  /** How many of the client's attempts pass the rate check at a time in [lo, hi). */
  function EventPasses(cfg: Config, g: Guard, events: seq<RateBound.Event>, key: string, lo: int, hi: int): nat
  {
    RateBound.PassedCounts(cfg, WindowOf(g.windows, key), RateBound.OwnTimes(events, key), lo, hi);
    RateBound.RateIsPerClient(cfg, g, events, key);
    RateBound.Passes(RateBound.RateDecisions(cfg, g, events, key), RateBound.OwnTimes(events, key), lo, hi)
  }

  // ---- One step ----

  /** The guard moves by the event of the step, which passes the rate check if the request does; only
      a request that passes it gets a slot. */
  predicate IsGuardStep(s: System, i: nat, now: int, s': System, key: string, lo: int, hi: int) {
    var events := GuardEvent(s, i, now, s');
    && s'.cfg == s.cfg
    && (if events == [] then s'.shared.guard == s.shared.guard
        else |events| == 1 && s'.shared.guard == RateBound.Step(s.cfg, s.shared.guard, events[0]))
    && PassesRate(s, i, now, key, lo, hi) == IsPass(s.cfg, s.shared.guard, events, key, lo, hi)
    && (GetsSlot(s, i, now, s', key, lo, hi) ==> PassesRate(s, i, now, key, lo, hi))
  }

  lemma StepIsGuardEvent(s: System, i: nat, now: int, s': System, key: string, lo: int, hi: int)
    requires SystemOk(s) && Next(s, i, now, s')
    ensures IsGuardStep(s, i, now, s', key, lo, hi)
  {
    StepMovesGuard(s.cfg, s.observed, s.handlers[i], s.shared, now, s'.handlers[i], s'.shared);
  }

  predicate IsPass(cfg: Config, g: Guard, first: seq<RateBound.Event>, key: string, lo: int, hi: int) {
    && first != [] && RateBound.IsOwn(first[0], key) && lo <= first[0].now < hi
    && Judge(cfg, g, key, first[0].now) != RateExceeded
  }

  lemma ConsPasses(d: bool, decisions: seq<bool>, t: int, times: seq<int>, lo: int, hi: int)
    requires |decisions| == |times|
    ensures RateBound.Passes([d] + decisions, [t] + times, lo, hi)
         == One(d && lo <= t < hi) + RateBound.Passes(decisions, times, lo, hi)
  {
    assert ([d] + decisions)[1..] == decisions && ([t] + times)[1..] == times;
  }

  /** What the guard sees of one step, in front of what it sees of the others. */
  lemma PrependEvents(cfg: Config, g: Guard, g': Guard, first: seq<RateBound.Event>, rest: seq<RateBound.Event>,
                      key: string, lo: int, hi: int)
    requires (first == [] && g' == g) || (|first| == 1 && g' == RateBound.Step(cfg, g, first[0]))
    ensures RateBound.Run(cfg, g, first + rest) == RateBound.Run(cfg, g', rest)
    ensures EventPasses(cfg, g, first + rest, key, lo, hi)
         == One(IsPass(cfg, g, first, key, lo, hi)) + EventPasses(cfg, g', rest, key, lo, hi)
  {
    if first == [] {
      assert first + rest == rest;
    } else {
      var event := first[0];
      assert (first + rest)[0] == event && (first + rest)[1..] == rest;
      var decisions, times := RateBound.RateDecisions(cfg, g', rest, key), RateBound.OwnTimes(rest, key);
      RateBound.PassedCounts(cfg, WindowOf(g'.windows, key), times, lo, hi);
      RateBound.RateIsPerClient(cfg, g', rest, key);
      if RateBound.IsOwn(event, key) {
        ConsPasses(Judge(cfg, g, key, event.now) != RateExceeded, decisions, event.now, times, lo, hi);
      } else {
        assert [] + decisions == decisions && [] + times == times;
      }
    }
  }

  // ---- Runs ----

  ghost predicate IsGuardRun(states: seq<System>, moves: seq<(nat, int)>, key: string, lo: int, hi: int) {
    && |states| == |moves| + 1
    && forall k :: 0 <= k < |moves| ==>
         IsGuardStep(states[k], moves[k].0, moves[k].1, states[k + 1], key, lo, hi)
  }

  lemma RunsMoveGuard(states: seq<System>, moves: seq<(nat, int)>, key: string, lo: int, hi: int)
    requires IsRun(states, moves)
    ensures IsGuardRun(states, moves, key, lo, hi) && states[0].shared.guard == EMPTY
  {
    forall k | 0 <= k < |moves|
      ensures IsGuardStep(states[k], moves[k].0, moves[k].1, states[k + 1], key, lo, hi)
    {
      ReachableKeepsSystem(states, moves, k);
      StepIsGuardEvent(states[k], moves[k].0, moves[k].1, states[k + 1], key, lo, hi);
    }
  }

  lemma TailMovesGuard(states: seq<System>, moves: seq<(nat, int)>, key: string, lo: int, hi: int)
    requires IsGuardRun(states, moves, key, lo, hi) && moves != []
    ensures IsGuardRun(states[1..], moves[1..], key, lo, hi)
    ensures IsGuardStep(states[0], moves[0].0, moves[0].1, states[1], key, lo, hi)
  {
    forall k | 0 <= k < |moves[1..]|
      ensures IsGuardStep(states[1..][k], moves[1..][k].0, moves[1..][k].1, states[1..][k + 1], key, lo, hi)
    {
      assert IsGuardStep(states[k + 1], moves[k + 1].0, moves[k + 1].1, states[k + 1 + 1], key, lo, hi);
    }
  }

  lemma FirstStep(s: System, i: nat, now: int, s': System, rest: seq<RateBound.Event>, key: string, lo: int, hi: int)
    requires IsGuardStep(s, i, now, s', key, lo, hi)
    ensures var events := GuardEvent(s, i, now, s') + rest;
      && RateBound.Run(s.cfg, s.shared.guard, events) == RateBound.Run(s.cfg, s'.shared.guard, rest)
      && EventPasses(s.cfg, s.shared.guard, events, key, lo, hi)
         == One(PassesRate(s, i, now, key, lo, hi)) + EventPasses(s.cfg, s'.shared.guard, rest, key, lo, hi)
  {
    PrependEvents(s.cfg, s.shared.guard, s'.shared.guard, GuardEvent(s, i, now, s'), rest, key, lo, hi);
  }

  /** The guard of a run of requests moves as the guard of its events, the requests that pass the
      rate check are the passes of those events, and only requests that pass it get a slot. */
  lemma {:induction false} GuardRunOfEvents(
    states: seq<System>, moves: seq<(nat, int)>, key: string, lo: int, hi: int)
    requires IsGuardRun(states, moves, key, lo, hi)
    ensures var cfg, g, events := states[0].cfg, states[0].shared.guard, Events(states, moves);
      && states[|moves|].shared.guard == RateBound.Run(cfg, g, events)
      && PassCount(states, moves, key, lo, hi) == EventPasses(cfg, g, events, key, lo, hi)
      && SlotCount(states, moves, key, lo, hi) <= PassCount(states, moves, key, lo, hi)
    decreases |moves|
  {
    if moves != [] {
      TailMovesGuard(states, moves, key, lo, hi);
      GuardRunOfEvents(states[1..], moves[1..], key, lo, hi);
      FirstStep(states[0], moves[0].0, moves[0].1, states[1], Events(states[1..], moves[1..]), key, lo, hi);
    }
  }

  lemma RunIsGuardRun(states: seq<System>, moves: seq<(nat, int)>, key: string, lo: int, hi: int)
    requires IsRun(states, moves)
    ensures states[|moves|].shared.guard == RateBound.Run(states[0].cfg, EMPTY, Events(states, moves))
    ensures PassCount(states, moves, key, lo, hi)
         == EventPasses(states[0].cfg, EMPTY, Events(states, moves), key, lo, hi)
    ensures SlotCount(states, moves, key, lo, hi) <= PassCount(states, moves, key, lo, hi)
  {
    RunsMoveGuard(states, moves, key, lo, hi);
    GuardRunOfEvents(states, moves, key, lo, hi);
  }

  /** The bound of RateBound for m minutes. */
  function RateLimit(cfg: Config, m: nat, lag: nat): int {
    (m + 1) * cfg.maxUpgrades - 1 + (cfg.maxUpgrades - 1) * RateBound.Starts(lag)
  }

  lemma EventsKeepRateBound(cfg: Config, events: seq<RateBound.Event>, key: string, lo: int, m: nat, lag: nat)
    requires cfg.maxUpgrades > 0 && RateBound.MeetsWindows(cfg, NO_WINDOW, RateBound.OwnTimes(events, key), lag)
    ensures EventPasses(cfg, EMPTY, events, key, lo, lo + m * WINDOW) <= RateLimit(cfg, m, lag)
  {
    RateBound.RateBoundHolds(cfg, events, key, lo, m, lag);
  }

  /** Over every run of any number of concurrent requests: if the clock readings of a client's
      requests lie at most lag before the start of the window they meet, the requests of the client
      that pass the rate check in any m minutes, and so those that get a slot, are at most (m + 1)
      times the limit less one, and the limit less one more for each begun minute of lag. */
  lemma RequestsKeepRateBound(
    states: seq<System>, moves: seq<(nat, int)>, key: string, lo: int, m: nat, lag: nat)
    requires IsRun(states, moves) && states[0].cfg.maxUpgrades > 0
    requires RateBound.MeetsWindows(states[0].cfg, NO_WINDOW, RateBound.OwnTimes(Events(states, moves), key), lag)
    ensures SlotCount(states, moves, key, lo, lo + m * WINDOW) <= PassCount(states, moves, key, lo, lo + m * WINDOW)
    ensures PassCount(states, moves, key, lo, lo + m * WINDOW) <= RateLimit(states[0].cfg, m, lag)
  {
    RunIsGuardRun(states, moves, key, lo, lo + m * WINDOW);
    EventsKeepRateBound(states[0].cfg, Events(states, moves), key, lo, m, lag);
  }
}
