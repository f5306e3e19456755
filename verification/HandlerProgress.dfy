// Progress of the requests of a bridge handler: no request gets stuck, each finishes within a fixed
// number of its own steps, and every exit can happen.
module HandlerProgress {
  import opened Sequences
  import opened AbuseGuard
  import opened HandlerLifecycle

  // ---- How many steps are left ----

  const MAX_STEPS: nat := 29

  function StageRank(stage: Stage): nat {
    match stage
    case Arrived => 29 case SpanStarted => 28 case Reserving => 27 case SlotReserved => 26 case Upgrading => 25
    case Upgraded => 24 case GaugeRaised => 23 case Opening => 22 case SessionStarted => 21
    case LoggingUpgrade => 20 case SocketOpen => 19 case Configuring => 18 case KeepaliveRuns => 17
    case Connecting => 16 case LoggingConnect => 15 case Connected => 14 case Wrapping => 13 case Wrapped => 12
    case Serving => 11 case Rejected => 10 case UpgradeFailed => 10
    case Unwinding => 0 case Finished => 0
  }

  /** An upper bound on the steps a request still takes; once it has left, the exact number. */
  function StepsLeft(h: Handler): nat {
    if h.stage.Unwinding? then |h.stack| + 1 else StageRank(h.stage)
  }

  lemma DeferredAtMostEight(observed: bool, stage: Stage)
    requires Leaves(stage)
    ensures |DeferredAt(observed, stage)| <= 8
  {
  }

  lemma RunningCounts(cfg: Config, observed: bool, h: Handler, a: Shared, now: int, h': Handler, b: Shared)
    requires HandlerStep(cfg, observed, h, a, now, h', b) && !h.stage.Unwinding?
    ensures if h'.stage.Unwinding? then Leaves(h.stage) && h'.stack == h.stack
            else StageRank(h'.stage) < StageRank(h.stage)
  {
  }

  lemma LeavingCounts(cfg: Config, observed: bool, h: Handler, a: Shared, now: int, h': Handler, b: Shared)
    requires HandlerOk(observed, h) && HandlerStep(cfg, observed, h, a, now, h', b)
    requires !h.stage.Unwinding? && h'.stage.Unwinding?
    ensures StepsLeft(h') < StepsLeft(h)
  {
    RunningCounts(cfg, observed, h, a, now, h', b);
    DeferredAtMostEight(observed, h.stage);
  }

  lemma UnwindingCounts(h: Handler, a: Shared, h': Handler, b: Shared)
    requires h.stage.Unwinding? && UnwindStep(h, a, h', b)
    ensures CountsDown(h, h', true)
  {
  }

  lemma StepCounts(cfg: Config, observed: bool, h: Handler, a: Shared, now: int, h': Handler, b: Shared)
    requires HandlerOk(observed, h) && HandlerStep(cfg, observed, h, a, now, h', b)
    ensures CountsDown(h, h', true)
  {
    if h.stage.Unwinding? {
      UnwindingCounts(h, a, h', b);
    } else if h'.stage.Unwinding? {
      LeavingCounts(cfg, observed, h, a, now, h', b);
    } else {
      RunningCounts(cfg, observed, h, a, now, h', b);
    }
  }

  predicate Gone(h: Handler) { h.stage.Unwinding? || h.stage.Finished? }

  /** A step of this request or of another one: an own step lowers the steps left, by exactly one
      once the request has left. */
  predicate CountsDown(h: Handler, h': Handler, own: bool) {
    && StepsLeft(h') + One(own) <= StepsLeft(h)
    && (Gone(h) ==> Gone(h') && StepsLeft(h') + One(own) == StepsLeft(h))
  }

  function Left(): Handler -> nat { (h: Handler) => StepsLeft(h) }

  function OwnMoves(moves: seq<(nat, int)>, i: nat, k: nat): nat
    requires k <= |moves|
  {
    if k == 0 then 0 else OwnMoves(moves, i, k - 1) + One(moves[k - 1].0 == i)
  }

  lemma MoveCounts(states: seq<System>, moves: seq<(nat, int)>, k: nat, i: nat)
    requires IsRun(states, moves) && k < |moves| && i < |states[k].handlers|
    ensures |states[k + 1].handlers| == |states[k].handlers|
    ensures CountsDown(states[k].handlers[i], states[k + 1].handlers[i], moves[k].0 == i)
  {
    ReachableKeepsSystem(states, moves, k);
    var s, j, s' := states[k], moves[k].0, states[k + 1];
    assert Next(s, j, moves[k].1, s');
    StepCounts(s.cfg, s.observed, s.handlers[j], s.shared, moves[k].1, s'.handlers[j], s'.shared);
  }

  /** Request i is there throughout, and each of its own steps counts. */
  predicate IsCounted(states: seq<System>, moves: seq<(nat, int)>, i: nat) {
    && |states| == |moves| + 1
    && (forall k :: 0 <= k < |states| ==> i < |states[k].handlers|)
    && forall k :: 0 <= k < |moves| ==>
         CountsDown(states[k].handlers[i], states[k + 1].handlers[i], moves[k].0 == i)
  }

  lemma {:induction false} SameRequests(states: seq<System>, moves: seq<(nat, int)>, k: nat)
    requires IsRun(states, moves) && k < |states|
    ensures |states[k].handlers| == |states[0].handlers|
  {
    if k > 0 {
      SameRequests(states, moves, k - 1);
      assert Next(states[k - 1], moves[k - 1].0, moves[k - 1].1, states[k]);
    }
  }

  lemma RunIsCounted(states: seq<System>, moves: seq<(nat, int)>, i: nat)
    requires IsRun(states, moves) && i < |states[0].handlers|
    ensures IsCounted(states, moves, i)
  {
    forall k | 0 <= k < |states|
      ensures i < |states[k].handlers|
    {
      SameRequests(states, moves, k);
    }
    forall k | 0 <= k < |moves|
      ensures CountsDown(states[k].handlers[i], states[k + 1].handlers[i], moves[k].0 == i)
    {
      MoveCounts(states, moves, k, i);
    }
  }

  lemma {:induction false} StepsAddUp(states: seq<System>, moves: seq<(nat, int)>, i: nat, k: nat)
    requires IsCounted(states, moves, i) && k < |states|
    ensures OwnMoves(moves, i, k) + StepsLeft(states[k].handlers[i]) <= StepsLeft(states[0].handlers[i])
  {
    if k > 0 {
      StepsAddUp(states, moves, i, k - 1);
      assert CountsDown(states[k - 1].handlers[i], states[k - 1 + 1].handlers[i], moves[k - 1].0 == i);
    }
  }

  /** A request finishes within a fixed number of its own steps, whatever the others do. */
  lemma OwnStepsAreBounded(states: seq<System>, moves: seq<(nat, int)>, i: nat, k: nat)
    requires IsRun(states, moves) && k < |states| && i < |states[0].handlers|
    ensures i < |states[k].handlers|
    ensures OwnMoves(moves, i, k) + StepsLeft(states[k].handlers[i]) <= MAX_STEPS
  {
    RunIsCounted(states, moves, i);
    StepsAddUp(states, moves, i, k);
  }

  lemma {:induction false} GoneCounts(states: seq<System>, moves: seq<(nat, int)>, i: nat, j: nat, k: nat)
    requires IsCounted(states, moves, i) && j <= k < |states| && Gone(states[j].handlers[i])
    ensures Gone(states[k].handlers[i])
    ensures StepsLeft(states[k].handlers[i]) + OwnMoves(moves, i, k)
         == StepsLeft(states[j].handlers[i]) + OwnMoves(moves, i, j)
    decreases k
  {
    if j < k {
      GoneCounts(states, moves, i, j, k - 1);
      assert CountsDown(states[k - 1].handlers[i], states[k - 1 + 1].handlers[i], moves[k - 1].0 == i);
    }
  }

  lemma FinishedWhenNoneLeft(h: Handler, h': Handler, own: int)
    requires h.stage.Unwinding? && Gone(h') && StepsLeft(h') + own == StepsLeft(h)
    ensures h'.stage.Finished? <==> own == |h.stack| + 1
  {
  }

  /** A request that has left takes exactly one step for each deferred call, and one more to finish:
      it is finished exactly when it has taken as many own steps. */
  lemma LeavingTakesItsStack(states: seq<System>, moves: seq<(nat, int)>, i: nat, j: nat, k: nat)
    requires IsRun(states, moves) && j <= k < |states| && i < |states[0].handlers|
    requires i < |states[j].handlers| && states[j].handlers[i].stage.Unwinding?
    ensures i < |states[k].handlers|
    ensures states[k].handlers[i].stage.Finished? <==>
      OwnMoves(moves, i, k) - OwnMoves(moves, i, j) == |states[j].handlers[i].stack| + 1
  {
    RunIsCounted(states, moves, i);
    GoneCounts(states, moves, i, j, k);
    FinishedWhenNoneLeft(states[j].handlers[i], states[k].handlers[i], OwnMoves(moves, i, k) - OwnMoves(moves, i, j));
  }

  // ---- Whole runs ----

  lemma {:induction false} SumOfNew(handlers: seq<Handler>)
    requires forall i :: 0 <= i < |handlers| ==> handlers[i] == NewHandler(handlers[i].key)
    ensures SumBy(handlers, Left()) == MAX_STEPS * |handlers|
  {
    if handlers != [] {
      SumOfNew(handlers[1..]);
    }
  }

  /** Every run of n requests ends after at most n times as many steps. */
  lemma {:induction false} EveryRunIsBounded(states: seq<System>, moves: seq<(nat, int)>, k: nat)
    requires IsRun(states, moves) && k < |states|
    ensures k + SumBy(states[k].handlers, Left()) <= MAX_STEPS * |states[0].handlers|
  {
    if k == 0 {
      SumOfNew(states[0].handlers);
    } else {
      EveryRunIsBounded(states, moves, k - 1);
      ReachableKeepsSystem(states, moves, k - 1);
      var s, j, s' := states[k - 1], moves[k - 1].0, states[k];
      assert Next(s, j, moves[k - 1].1, s');
      StepCounts(s.cfg, s.observed, s.handlers[j], s.shared, moves[k - 1].1, s'.handlers[j], s'.shared);
      SumByUpdate(s.handlers, j, s'.handlers[j], Left());
    }
  }

  // ---- No request gets stuck, and every exit can happen ----

  /** The request is on its way to leave at the given stage, and to mute the disconnect hook or not. */
  predicate Toward(cfg: Config, h: Handler, a: Shared, now: int, left: Stage, mute: bool) {
    match h.stage
    case Unwinding => h.left == left && (h.mute == mute || (mute && DisconnectHook in h.stack))
    case Finished => h.left == left && h.mute == mute
    case _ =>
      && Leaves(left) && (mute ==> left.Serving?) && !h.mute
      && StageRank(h.stage) >= StageRank(left)
      && (h.stage.Rejected? ==> left.Rejected?) && (h.stage.UpgradeFailed? ==> left.UpgradeFailed?)
      && (if h.stage in {Arrived, SpanStarted, Reserving}
          then left.Rejected? == (Judge(cfg, a.guard, h.key, now) != Granted)
          else left.Rejected? ==> h.stage.Rejected?)
      && (left.UpgradeFailed? ==> StageRank(h.stage) >= StageRank(Upgrading) || h.stage.UpgradeFailed?)
  }

  // The step of a running request that goes on toward its exit.

  lemma RunOnEarly(cfg: Config, observed: bool, h: Handler, a: Shared, now: int, left: Stage, mute: bool)
    returns (h': Handler, b: Shared)
    requires h.stage in {Arrived, SpanStarted, Reserving, SlotReserved, Upgrading}
    requires Toward(cfg, h, a, now, left, mute) && h.stage != left
    ensures HandlerStep(cfg, observed, h, a, now, h', b) && Toward(cfg, h', b, now, left, mute)
  {
    b := a;
    match h.stage
    case Arrived => h' := if observed then Acquire(h, RequestSpan, SpanStarted) else h.(stage := Reserving);
    case SpanStarted => h' := Defer(h, RequestSpan, Reserving);
    case Reserving =>
      b := a.(guard := Reserve(cfg, a.guard, h.key, now));
      h' := if left.Rejected? then h.(stage := Rejected) else Acquire(h, GuardSlot, SlotReserved);
    case SlotReserved => h' := Defer(h, GuardSlot, Upgrading);
    case Upgrading => h' := if left.UpgradeFailed? then h.(stage := UpgradeFailed) else Acquire(h, Socket, Upgraded);
  }

  lemma RunOnUpgraded(cfg: Config, observed: bool, h: Handler, a: Shared, now: int, left: Stage, mute: bool)
    returns (h': Handler, b: Shared)
    requires h.stage in {Upgraded, GaugeRaised, Opening, SessionStarted, LoggingUpgrade, SocketOpen}
    requires Toward(cfg, h, a, now, left, mute) && h.stage != left
    ensures HandlerStep(cfg, observed, h, a, now, h', b) && Toward(cfg, h', b, now, left, mute)
  {
    b := a;
    match h.stage
    case Upgraded =>
      b := if observed then a.(gauge := a.gauge + 1, connections := a.connections + 1) else a;
      h' := (if observed then Acquire(h, Gauge, GaugeRaised) else h.(stage := LoggingUpgrade))
            .(decided := Connections);
    case GaugeRaised => h' := Defer(h, Gauge, Opening);
    case Opening => h' := Acquire(h, SessionSpan, SessionStarted);
    case SessionStarted => h' := Defer(h, SessionSpan, LoggingUpgrade);
    case LoggingUpgrade => h' := h.(stage := SocketOpen);
    case SocketOpen => h' := Defer(h, Socket, Configuring);
  }

  lemma RunOnLate(cfg: Config, observed: bool, h: Handler, a: Shared, now: int, left: Stage, mute: bool)
    returns (h': Handler, b: Shared)
    requires h.stage in {Configuring, KeepaliveRuns, Connecting, LoggingConnect, Connected, Wrapping, Wrapped}
    requires Toward(cfg, h, a, now, left, mute) && h.stage != left
    ensures HandlerStep(cfg, observed, h, a, now, h', b) && Toward(cfg, h', b, now, left, mute)
  {
    b := a;
    match h.stage
    case Configuring => h' := Acquire(h, Keepalive, KeepaliveRuns);
    case KeepaliveRuns => h' := Defer(h, Keepalive, Connecting);
    case Connecting => h' := Acquire(h, DisconnectHook, LoggingConnect);
    case LoggingConnect => h' := h.(stage := Connected);
    case Connected => h' := Defer(h, DisconnectHook, Wrapping);
    case Wrapping => h' := Acquire(h, Adapter, Wrapped);
    case Wrapped => h' := Defer(h, Adapter, Serving);
  }

  /** It leaves there. */
  lemma LeaveThere(cfg: Config, observed: bool, h: Handler, a: Shared, now: int, mute: bool)
    returns (h': Handler, b: Shared)
    requires HandlerOk(observed, h) && Toward(cfg, h, a, now, h.stage, mute) && Leaves(h.stage)
    ensures HandlerStep(cfg, observed, h, a, now, h', b) && Toward(cfg, h', b, now, h.stage, mute)
  {
    if h.stage.Rejected? || h.stage.UpgradeFailed? {
      h' := Leave(h).(decided := Failures);
      b := if observed then a.(failures := a.failures + 1) else a;
    } else {
      h', b := Leave(h), a;
    }
    assert mute ==> DeferredAt(observed, Serving)[|DeferredAt(observed, Serving)| - 2] == DisconnectHook;
  }

  /** It runs its deferred calls. */
  lemma UnwindThere(cfg: Config, observed: bool, h: Handler, a: Shared, now: int, mute: bool)
    returns (h': Handler, b: Shared)
    requires Toward(cfg, h, a, now, h.left, mute) && h.stage.Unwinding?
    ensures HandlerStep(cfg, observed, h, a, now, h', b) && Toward(cfg, h', b, now, h.left, mute)
  {
    if h.stack == [] {
      h', b := h.(stage := Finished), a;
    } else {
      var top, rest := h.stack[|h.stack| - 1], h.stack[..|h.stack| - 1];
      assert h.stack == rest + [top];
      if top == DisconnectHook && mute && !h.mute {
        h', b := h.(stack := rest, mute := true), a;
      } else {
        h' := h.(stack := rest, held := h.held - {top}, released := h.released + [top]);
        b := Release(a, h.key, top);
      }
    }
  }

  lemma RunOn(cfg: Config, observed: bool, h: Handler, a: Shared, now: int, left: Stage, mute: bool)
    returns (h': Handler, b: Shared)
    requires Toward(cfg, h, a, now, left, mute) && !Gone(h) && h.stage != left
    ensures HandlerStep(cfg, observed, h, a, now, h', b) && Toward(cfg, h', b, now, left, mute)
  {
    if h.stage in {Arrived, SpanStarted, Reserving, SlotReserved, Upgrading} {
      h', b := RunOnEarly(cfg, observed, h, a, now, left, mute);
    } else if h.stage in {Upgraded, GaugeRaised, Opening, SessionStarted, LoggingUpgrade, SocketOpen} {
      h', b := RunOnUpgraded(cfg, observed, h, a, now, left, mute);
    } else {
      h', b := RunOnLate(cfg, observed, h, a, now, left, mute);
    }
  }

  lemma StepToward(cfg: Config, observed: bool, h: Handler, a: Shared, now: int, left: Stage, mute: bool)
    returns (h': Handler, b: Shared)
    requires HandlerOk(observed, h) && Toward(cfg, h, a, now, left, mute) && !h.stage.Finished?
    ensures HandlerStep(cfg, observed, h, a, now, h', b) && Toward(cfg, h', b, now, left, mute)
  {
    if h.stage.Unwinding? {
      h', b := UnwindThere(cfg, observed, h, a, now, mute);
    } else if h.stage == left {
      h', b := LeaveThere(cfg, observed, h, a, now, mute);
    } else {
      h', b := RunOn(cfg, observed, h, a, now, left, mute);
    }
  }

  /** Some exit that a request can still take. */
  function AnExit(cfg: Config, h: Handler, a: Shared, now: int): Stage {
    if h.stage.Unwinding? then h.left
    else if h.stage in {Arrived, SpanStarted, Reserving} && Judge(cfg, a.guard, h.key, now) != Granted then Rejected
    else if h.stage.Rejected? || h.stage.UpgradeFailed? then h.stage
    else Serving
  }

  lemma AnExitIsAhead(cfg: Config, observed: bool, h: Handler, a: Shared, now: int)
    requires HandlerOk(observed, h) && !h.stage.Finished?
    ensures Toward(cfg, h, a, now, AnExit(cfg, h, a, now), h.mute)
  {
  }

  /** A run of steps of one request, from any state. */
  predicate IsSoloRun(states: seq<System>, i: nat, now: int) {
    |states| > 0 && forall k :: 0 <= k < |states| - 1 ==> Next(states[k], i, now, states[k + 1])
  }

  lemma SoloStep(s: System, i: nat, now: int, left: Stage, mute: bool) returns (s': System)
    requires i < |s.handlers| && HandlerOk(s.observed, s.handlers[i]) && !s.handlers[i].stage.Finished?
    requires Toward(s.cfg, s.handlers[i], s.shared, now, left, mute)
    ensures Next(s, i, now, s') && HandlerOk(s'.observed, s'.handlers[i])
    ensures Toward(s'.cfg, s'.handlers[i], s'.shared, now, left, mute)
    ensures StepsLeft(s'.handlers[i]) < StepsLeft(s.handlers[i])
  {
    var h := s.handlers[i];
    var h', b := StepToward(s.cfg, s.observed, h, s.shared, now, left, mute);
    s' := s.(handlers := s.handlers[i := h'], shared := b);
    StepCounts(s.cfg, s.observed, h, s.shared, now, h', b);
    StepKeepsHandler(s.cfg, s.observed, h, s.shared, now, h', b);
  }

  /** In every reachable state every request that has not finished has a step, whatever the clock. */
  lemma UnfinishedCanStep(states: seq<System>, moves: seq<(nat, int)>, k: nat, i: nat, now: int)
    requires IsRun(states, moves) && k < |states| && i < |states[k].handlers|
    requires !states[k].handlers[i].stage.Finished?
    ensures exists s' :: Next(states[k], i, now, s')
  {
    ReachableHandlerOk(states, moves, k, i);
    var s := states[k];
    var h := s.handlers[i];
    AnExitIsAhead(s.cfg, s.observed, h, s.shared, now);
    var s' := SoloStep(s, i, now, AnExit(s.cfg, h, s.shared, now), h.mute);
  }

  /** So a run that cannot go on has finished all its requests. */
  lemma StuckMeansFinished(states: seq<System>, moves: seq<(nat, int)>, k: nat)
    requires IsRun(states, moves) && k < |states|
    ensures (forall i, now, s' :: !Next(states[k], i, now, s')) <==>
      forall i :: 0 <= i < |states[k].handlers| ==> states[k].handlers[i].stage.Finished?
  {
    if !(forall i :: 0 <= i < |states[k].handlers| ==> states[k].handlers[i].stage.Finished?) {
      var i :| 0 <= i < |states[k].handlers| && !states[k].handlers[i].stage.Finished?;
      UnfinishedCanStep(states, moves, k, i, 0);
    }
  }

  /** The run is one of request i alone, begins in s, and ends with the request finished as given. */
  predicate Drives(states: seq<System>, s: System, i: nat, now: int, left: Stage, mute: bool) {
    IsSoloRun(states, i, now) && states[0] == s && EndsIn(states[|states| - 1], i, left, mute)
  }

  predicate EndsIn(s: System, i: nat, left: Stage, mute: bool) {
    i < |s.handlers| && s.handlers[i].stage.Finished? && s.handlers[i].left == left && s.handlers[i].mute == mute
  }

  lemma PrependSolo(s: System, s': System, rest: seq<System>, i: nat, now: int, left: Stage, mute: bool)
    requires Drives(rest, s', i, now, left, mute) && Next(s, i, now, s')
    ensures Drives([s] + rest, s, i, now, left, mute)
  {
    var states := [s] + rest;
    forall k | 0 <= k < |states| - 1
      ensures Next(states[k], i, now, states[k + 1])
    {
      assert k > 0 ==> Next(rest[k - 1], i, now, rest[k - 1 + 1]);
    }
    assert states[|states| - 1] == rest[|rest| - 1];
  }

  lemma {:induction false} DriveToward(s: System, i: nat, now: int, left: Stage, mute: bool)
    returns (states: seq<System>)
    requires i < |s.handlers| && HandlerOk(s.observed, s.handlers[i])
    requires Toward(s.cfg, s.handlers[i], s.shared, now, left, mute)
    ensures Drives(states, s, i, now, left, mute)
    decreases StepsLeft(s.handlers[i])
  {
    states := [s];
    if !s.handlers[i].stage.Finished? {
      var s' := SoloStep(s, i, now, left, mute);
      var rest := DriveToward(s', i, now, left, mute);
      PrependSolo(s, s', rest, i, now, left, mute);
      states := [s] + rest;
    }
  }

  /** Every exit can happen: a new request can be rejected exactly if the guard does not grant it a
      slot, and otherwise leave at every other place, served and muted included; and it finishes. */
  lemma EveryExitIsReachable(s: System, i: nat, now: int, left: Stage, mute: bool)
    requires i < |s.handlers| && s.handlers[i] == NewHandler(s.handlers[i].key)
    requires Leaves(left) && (mute ==> left.Serving?)
    requires left.Rejected? <==> Judge(s.cfg, s.shared.guard, s.handlers[i].key, now) != Granted
    ensures exists states :: Drives(states, s, i, now, left, mute)
  {
    var states := DriveToward(s, i, now, left, mute);
  }
}
