// Any number of concurrent requests through one bridge handler: each has a position, a stack of
// deferred releases and the items it holds, and all share the abuse guard and the counters.
// Acquiring an item and deferring its release are separate steps, and every call into code of the
// user (the origin check, the logger, both hooks, the gRPC handlers) may panic.
module HandlerLifecycle {
  import opened Sequences
  import opened AbuseGuard

  /** What a request acquires and its deferred calls release. A request owes the disconnect hook
      from the return of its connect hook on. */
  datatype Item = RequestSpan | GuardSlot | Socket | Gauge | SessionSpan | Keepalive | DisconnectHook | Adapter

  datatype Stage =
    | Arrived | SpanStarted | Reserving | Rejected | SlotReserved | Upgrading | UpgradeFailed
    | Upgraded | GaugeRaised | Opening | SessionStarted | LoggingUpgrade | SocketOpen
    | Configuring | KeepaliveRuns | Connecting | LoggingConnect | Connected | Wrapping | Wrapped | Serving
    | Unwinding | Finished

  /** The counter that a request went to. */
  datatype Counter = Undecided | Connections | Failures

  /** held are the items acquired and not yet released; the last item of stack is released first;
      left is the stage in which the request returned or panicked. mute is set when the log line
      in front of the disconnect hook panicked. */
  datatype Handler = Handler(
    key: string, stage: Stage, left: Stage, acquired: seq<Item>, held: set<Item>,
    stack: seq<Item>, released: seq<Item>, decided: Counter, mute: bool)

  datatype Shared = Shared(guard: Guard, gauge: int, connections: int, failures: int)

  /** observed is true for the grpctunnel handler, which keeps spans and metrics, and false
      for the bridge handler, which does not. */
  datatype System = System(cfg: Config, observed: bool, handlers: seq<Handler>, shared: Shared)

  function Acquire(h: Handler, item: Item, stage: Stage): Handler {
    h.(stage := stage, acquired := h.acquired + [item], held := h.held + {item})
  }

  function Defer(h: Handler, item: Item, stage: Stage): Handler {
    h.(stage := stage, stack := h.stack + [item])
  }

  /** The handler returns or panics; its deferred calls follow. */
  function Leave(h: Handler): Handler { h.(stage := Unwinding, left := h.stage) }

  function Release(a: Shared, key: string, item: Item): Shared {
    match item
    case GuardSlot => a.(guard := Clear(a.guard, key))
    case Gauge => a.(gauge := a.gauge - 1)
    case _ => a
  }

  /** A deferred call runs, and even if it panics the next one follows. The one for the disconnect
      hook logs first; if that panics, the hook is not called. */
  predicate UnwindStep(h: Handler, a: Shared, h': Handler, b: Shared) {
    if h.stack == [] then b == a && h' == h.(stage := Finished)
    else
      var top, rest := h.stack[|h.stack| - 1], h.stack[..|h.stack| - 1];
      || (b == Release(a, h.key, top)
          && h' == h.(stack := rest, held := h.held - {top}, released := h.released + [top]))
      || (top == DisconnectHook && b == a && h' == h.(stack := rest, mute := true))
  }

  /** One step of a request, from h and shared state a to h' and b, at clock reading now. */
  predicate HandlerStep(cfg: Config, observed: bool, h: Handler, a: Shared, now: int, h': Handler, b: Shared) {
    match h.stage
    case Arrived => b == a && h' == if observed then Acquire(h, RequestSpan, SpanStarted) else h.(stage := Reserving)
    case SpanStarted => b == a && h' == Defer(h, RequestSpan, Reserving)
    case Reserving =>
      && b == a.(guard := Reserve(cfg, a.guard, h.key, now))
      && h' == if Judge(cfg, a.guard, h.key, now) == Granted then Acquire(h, GuardSlot, SlotReserved)
               else h.(stage := Rejected)
    case Rejected =>
      b == (if observed then a.(failures := a.failures + 1) else a) && h' == Leave(h).(decided := Failures)
    case SlotReserved => b == a && h' == Defer(h, GuardSlot, Upgrading)
    case Upgrading =>  // the origin check inside may panic
      b == a && (h' == Acquire(h, Socket, Upgraded) || h' == h.(stage := UpgradeFailed) || h' == Leave(h))
    case UpgradeFailed =>
      b == (if observed then a.(failures := a.failures + 1) else a) && h' == Leave(h).(decided := Failures)
    case Upgraded =>
      && b == (if observed then a.(gauge := a.gauge + 1, connections := a.connections + 1) else a)
      && h' == (if observed then Acquire(h, Gauge, GaugeRaised) else h.(stage := LoggingUpgrade))
               .(decided := Connections)
    case GaugeRaised => b == a && h' == Defer(h, Gauge, Opening)
    case Opening => b == a && h' == Acquire(h, SessionSpan, SessionStarted)
    case SessionStarted => b == a && h' == Defer(h, SessionSpan, LoggingUpgrade)
    case LoggingUpgrade => b == a && (h' == h.(stage := SocketOpen) || h' == Leave(h))
    case SocketOpen => b == a && h' == Defer(h, Socket, Configuring)
    case Configuring => b == a && (h' == Acquire(h, Keepalive, KeepaliveRuns) || h' == Leave(h))
    case KeepaliveRuns => b == a && h' == Defer(h, Keepalive, Connecting)
    case Connecting =>  // the connect hook returns, or panics
      b == a && (h' == Acquire(h, DisconnectHook, LoggingConnect) || h' == Leave(h))
    case LoggingConnect => b == a && (h' == h.(stage := Connected) || h' == Leave(h))
    case Connected => b == a && h' == Defer(h, DisconnectHook, Wrapping)
    case Wrapping => b == a && h' == Acquire(h, Adapter, Wrapped)
    case Wrapped => b == a && h' == Defer(h, Adapter, Serving)
    case Serving => b == a && h' == Leave(h)  // ServeConn returns, or panics
    case Unwinding => UnwindStep(h, a, h', b)
    case Finished => false
  }

  function NewHandler(key: string): Handler {
    Handler(key, Arrived, Arrived, [], {}, [], [], Undecided, false)
  }

  predicate Init(s: System) {
    && s.shared == Shared(EMPTY, 0, 0, 0)
    && forall i :: 0 <= i < |s.handlers| ==> s.handlers[i] == NewHandler(s.handlers[i].key)
  }

  predicate Next(s: System, i: nat, now: int, s': System) {
    && i < |s.handlers| == |s'.handlers|
    && HandlerStep(s.cfg, s.observed, s.handlers[i], s.shared, now, s'.handlers[i], s'.shared)
    && s' == System(s.cfg, s.observed, s.handlers[i := s'.handlers[i]], s'.shared)
  }

  /** A run: moves[k] names the request that takes the step and the clock it reads. */
  predicate IsRun(states: seq<System>, moves: seq<(nat, int)>) {
    && |states| == |moves| + 1 && Init(states[0])
    && forall k :: 0 <= k < |moves| ==> Next(states[k], moves[k].0, moves[k].1, states[k + 1])
  }

  // ---- One handler ----

  function Front(observed: bool): seq<Item> { if observed then [RequestSpan] else [] }

  /** What a request has acquired when it reaches a stage. */
  function AcquiredAt(observed: bool, stage: Stage): seq<Item> {
    match stage
    case Arrived => []
    case SpanStarted | Reserving | Rejected => Front(observed)
    case SlotReserved | Upgrading | UpgradeFailed => Front(observed) + [GuardSlot]
    case Upgraded => Front(observed) + [GuardSlot, Socket]
    case GaugeRaised | Opening => [RequestSpan, GuardSlot, Socket, Gauge]
    case SessionStarted => [RequestSpan, GuardSlot, Socket, Gauge, SessionSpan]
    case LoggingUpgrade | SocketOpen | Configuring => Opened(observed)
    case KeepaliveRuns | Connecting => Opened(observed) + [Keepalive]
    case LoggingConnect | Connected | Wrapping => Opened(observed) + [Keepalive, DisconnectHook]
    case Wrapped | Serving => Opened(observed) + [Keepalive, DisconnectHook, Adapter]
    case _ => []
  }

  function Opened(observed: bool): seq<Item> {
    if observed then [RequestSpan, GuardSlot, Socket, Gauge, SessionSpan] else [GuardSlot, Socket]
  }

  /** What it has deferred by then. */
  function DeferredAt(observed: bool, stage: Stage): seq<Item> {
    match stage
    case Arrived | SpanStarted => []
    case Reserving | Rejected | SlotReserved => Front(observed)
    case Upgrading | UpgradeFailed | Upgraded | GaugeRaised => Front(observed) + [GuardSlot]
    case Opening | SessionStarted => [RequestSpan, GuardSlot, Gauge]
    case LoggingUpgrade | SocketOpen => Measured(observed)
    case Configuring | KeepaliveRuns => Measured(observed) + [Socket]
    case Connecting | LoggingConnect | Connected => Measured(observed) + [Socket, Keepalive]
    case Wrapping | Wrapped => Measured(observed) + [Socket, Keepalive, DisconnectHook]
    case Serving => Measured(observed) + [Socket, Keepalive, DisconnectHook, Adapter]
    case _ => []
  }

  function Measured(observed: bool): seq<Item> {
    if observed then [RequestSpan, GuardSlot, Gauge, SessionSpan] else [GuardSlot]
  }

  function DecidedAt(stage: Stage): Counter {
    if stage in {Arrived, SpanStarted, Reserving, Rejected, SlotReserved, Upgrading, UpgradeFailed, Upgraded}
    then Undecided else Connections
  }

  function Items(s: seq<Item>): set<Item> { set x | x in s }

  predicate NoRepeats(s: seq<Item>) {
    forall i, j :: 0 <= i < j < |s| ==> s[i] != s[j]
  }

  /** The stages in which a request can return or panic. */
  predicate Leaves(stage: Stage) {
    stage in {Rejected, Upgrading, UpgradeFailed, LoggingUpgrade, Configuring, Connecting, LoggingConnect, Serving}
  }

  /** What a request that left there never releases: the logger panicked after the socket was
      upgraded and before its close was deferred, or between the two hooks. */
  function Leaked(left: Stage, mute: bool): set<Item> {
    (if left.LoggingUpgrade? then {Socket} else {})
    + (if left.LoggingConnect? || mute then {DisconnectHook} else {})
  }

  /** The deferred calls above the first n, last first; a mute one is left out. */
  function Unwound(full: seq<Item>, n: nat, mute: bool): seq<Item>
    requires n <= |full|
    decreases |full| - n
  {
    if n == |full| then []
    else Unwound(full, n + 1, mute) + if mute && full[n] == DisconnectHook then [] else [full[n]]
  }

  /** Of the deferred calls, those above the stack have run, last first. */
  predicate Ran(full: seq<Item>, h: Handler) {
    && h.stack <= full
    && h.released == Unwound(full, |h.stack|, h.mute)
    && h.held == Items(h.stack) + Leaked(h.left, h.mute)
    && (h.mute ==> DisconnectHook in full && DisconnectHook !in h.stack)
  }

  predicate Left(observed: bool, h: Handler) {
    && Leaves(h.left) && Ran(DeferredAt(observed, h.left), h)
    && h.acquired == AcquiredAt(observed, h.left)
    && h.decided == if h.left in {Rejected, UpgradeFailed} then Failures else DecidedAt(h.left)
  }

  predicate HandlerOk(observed: bool, h: Handler) {
    match h.stage
    case Unwinding => Left(observed, h)
    case Finished => Left(observed, h) && h.stack == []
    case _ =>
      && h.acquired == AcquiredAt(observed, h.stage) && h.held == Items(h.acquired)
      && h.stack == DeferredAt(observed, h.stage) && h.released == []
      && h.decided == DecidedAt(h.stage) && !h.mute
      && (h.stage in {SpanStarted, GaugeRaised, Opening, SessionStarted} ==> observed)
  }

  function DeferOrder(observed: bool): seq<Item> {
    Measured(observed) + [Socket, Keepalive, DisconnectHook, Adapter]
  }

  lemma DeferredInOrder(observed: bool, stage: Stage)
    requires stage in {GaugeRaised, Opening, SessionStarted} ==> observed
    ensures DeferredAt(observed, stage) <= DeferOrder(observed)
  {
  }

  lemma DeferOrderOnce(observed: bool)
    ensures NoRepeats(DeferOrder(observed))
  {
  }

  lemma DeferredOnce(observed: bool, stage: Stage)
    requires Leaves(stage)
    ensures NoRepeats(DeferredAt(observed, stage))
  {
    DeferredInOrder(observed, stage);
    DeferOrderOnce(observed);
    var full, all := DeferredAt(observed, stage), DeferOrder(observed);
    assert forall i :: 0 <= i < |full| ==> full[i] == all[i];
  }

  /** What is deferred where a request leaves is what it has acquired, except for the leaks. */
  lemma DeferredOrLeaked(observed: bool, stage: Stage)
    requires Leaves(stage)
    ensures Items(AcquiredAt(observed, stage)) == Items(DeferredAt(observed, stage)) + Leaked(stage, false)
    ensures Items(DeferredAt(observed, stage)) !! Leaked(stage, false)
  {
    var acquired, full := AcquiredAt(observed, stage), DeferredAt(observed, stage);
    forall x: Item
      ensures x in acquired <==> x in full || x in Leaked(stage, false)
      ensures !(x in full && x in Leaked(stage, false))
    {
    }
  }

  lemma AcquireKeepsHeld(s: seq<Item>, item: Item)
    ensures Items(s + [item]) == Items(s) + {item}
  {
  }

  lemma LeaveKeepsHandler(observed: bool, h: Handler, decided: Counter)
    requires HandlerOk(observed, h) && Leaves(h.stage)
    requires decided == if h.stage in {Rejected, UpgradeFailed} then Failures else h.decided
    ensures HandlerOk(observed, Leave(h).(decided := decided))
  {
    DeferredOrLeaked(observed, h.stage);
  }

  lemma EarlyStepKeepsHandler(cfg: Config, observed: bool, h: Handler, a: Shared, now: int, h': Handler, b: Shared)
    requires h.stage in {Arrived, SpanStarted, Reserving, SlotReserved, Upgrading} && !h'.stage.Unwinding?
    requires HandlerOk(observed, h) && HandlerStep(cfg, observed, h, a, now, h', b)
    ensures HandlerOk(observed, h')
  {
    if h'.acquired != h.acquired {
      AcquireKeepsHeld(h.acquired, h'.acquired[|h.acquired|]);
    }
  }

  lemma UpgradeStepKeepsHandler(cfg: Config, observed: bool, h: Handler, a: Shared, now: int, h': Handler, b: Shared)
    requires h.stage in {Upgraded, GaugeRaised, Opening, SessionStarted, LoggingUpgrade, SocketOpen}
    requires !h'.stage.Unwinding?
    requires HandlerOk(observed, h) && HandlerStep(cfg, observed, h, a, now, h', b)
    ensures HandlerOk(observed, h')
  {
    if h'.acquired != h.acquired {
      AcquireKeepsHeld(h.acquired, h'.acquired[|h.acquired|]);
    }
  }

  lemma SetupStepKeepsHandler(cfg: Config, observed: bool, h: Handler, a: Shared, now: int, h': Handler, b: Shared)
    requires h.stage in {Configuring, KeepaliveRuns, Connecting} && !h'.stage.Unwinding?
    requires HandlerOk(observed, h) && HandlerStep(cfg, observed, h, a, now, h', b)
    ensures HandlerOk(observed, h')
  {
    if h'.acquired != h.acquired {
      AcquireKeepsHeld(h.acquired, h'.acquired[|h.acquired|]);
    }
  }

  lemma LateStepKeepsHandler(cfg: Config, observed: bool, h: Handler, a: Shared, now: int, h': Handler, b: Shared)
    requires h.stage in {LoggingConnect, Connected, Wrapping, Wrapped} && !h'.stage.Unwinding?
    requires HandlerOk(observed, h) && HandlerStep(cfg, observed, h, a, now, h', b)
    ensures HandlerOk(observed, h')
  {
    if h'.acquired != h.acquired {
      AcquireKeepsHeld(h.acquired, h'.acquired[|h.acquired|]);
    }
  }

  lemma {:induction false} MuteChangesNothingAbove(full: seq<Item>, n: nat)
    requires n <= |full| && DisconnectHook !in full[n..]
    ensures Unwound(full, n, true) == Unwound(full, n, false)
    decreases |full| - n
  {
    if n < |full| {
      assert full[n..][1..] == full[n + 1..] && full[n..][0] == full[n];
      MuteChangesNothingAbove(full, n + 1);
    }
  }

  lemma PopHeld(rest: seq<Item>, top: Item, leaked: set<Item>)
    requires top !in rest && top !in leaked
    ensures Items(rest + [top]) + leaked - {top} == Items(rest) + leaked
  {
  }

  /** Running one deferred call releases an item that is still held, and keeps the order. */
  lemma ReleaseKeepsRan(full: seq<Item>, h: Handler, a: Shared, h': Handler, b: Shared)
    requires NoRepeats(full) && Items(full) !! Leaked(h.left, false)
    requires Ran(full, h) && h.stack != [] && UnwindStep(h, a, h', b) && h'.mute == h.mute
    ensures Ran(full, h')
  {
    var rest, top := h'.stack, h.stack[|h.stack| - 1];
    assert h.stack == rest + [top] && top == full[|rest|] && top in Items(full);
    PopHeld(rest, top, Leaked(h.left, h.mute));
  }

  lemma MuteKeepsRan(full: seq<Item>, h: Handler, a: Shared, h': Handler, b: Shared)
    requires NoRepeats(full) && Ran(full, h) && h.stack != [] && UnwindStep(h, a, h', b) && h'.mute != h.mute
    ensures Ran(full, h')
  {
    var rest := h'.stack;
    assert h.stack == rest + [DisconnectHook] && full[|rest|] == DisconnectHook;
    MuteChangesNothingAbove(full, |rest| + 1);
    AcquireKeepsHeld(rest, DisconnectHook);
  }

  lemma UnwindStepKeepsHandler(observed: bool, h: Handler, a: Shared, h': Handler, b: Shared)
    requires Left(observed, h) && h.stage.Unwinding? && UnwindStep(h, a, h', b)
    ensures HandlerOk(observed, h')
  {
    if h.stack != [] {
      DeferredOnce(observed, h.left);
      DeferredOrLeaked(observed, h.left);
      if h'.mute == h.mute {
        ReleaseKeepsRan(DeferredAt(observed, h.left), h, a, h', b);
      } else {
        MuteKeepsRan(DeferredAt(observed, h.left), h, a, h', b);
      }
    }
  }

  lemma StepKeepsHandler(cfg: Config, observed: bool, h: Handler, a: Shared, now: int, h': Handler, b: Shared)
    requires HandlerOk(observed, h) && HandlerStep(cfg, observed, h, a, now, h', b)
    ensures HandlerOk(observed, h')
  {
    if h.stage.Unwinding? {
      UnwindStepKeepsHandler(observed, h, a, h', b);
    } else if h'.stage.Unwinding? {
      LeaveKeepsHandler(observed, h, h'.decided);
    } else if h.stage in {Arrived, SpanStarted, Reserving, SlotReserved, Upgrading} {
      EarlyStepKeepsHandler(cfg, observed, h, a, now, h', b);
    } else if h.stage in {Upgraded, GaugeRaised, Opening, SessionStarted, LoggingUpgrade, SocketOpen} {
      UpgradeStepKeepsHandler(cfg, observed, h, a, now, h', b);
    } else if h.stage in {Configuring, KeepaliveRuns, Connecting} {
      SetupStepKeepsHandler(cfg, observed, h, a, now, h', b);
    } else {
      LateStepKeepsHandler(cfg, observed, h, a, now, h', b);
    }
  }

  // ---- Counting over all handlers ----

  function One(b: bool): nat { if b then 1 else 0 }

  predicate Holds(h: Handler, item: Item) { item in h.held }

  function HoldWeight(item: Item): Handler -> nat { (h: Handler) => One(Holds(h, item)) }

  function DecidedWeight(observed: bool, counter: Counter): Handler -> nat {
    (h: Handler) => One(observed && h.decided == counter)
  }

  function Slot(h: Handler): multiset<string> {
    if Holds(h, GuardSlot) then multiset{h.key} else multiset{}
  }

  /** The keys of the requests that hold a guard slot. */
  function HeldKeys(handlers: seq<Handler>): multiset<string> {
    if handlers == [] then multiset{} else Slot(handlers[0]) + HeldKeys(handlers[1..])
  }

  lemma Exchange<T>(first: multiset<T>, rest: multiset<T>, rest': multiset<T>, x: multiset<T>, y: multiset<T>)
    requires rest' + x == rest + y
    ensures (first + rest') + x == (first + rest) + y
  {
    assert (first + rest') + x == first + (rest' + x);
    assert (first + rest) + y == first + (rest + y);
  }

  lemma Swap<T>(x: multiset<T>, rest: multiset<T>, y: multiset<T>)
    ensures (x + rest) + y == (y + rest) + x
  {
  }

  lemma Cancel<T>(a: multiset<T>, b: multiset<T>, x: multiset<T>)
    requires a + x == b + x
    ensures a == b
  {
    assert a == a + x - x;
  }

  lemma {:induction false} HeldKeysUpdate(handlers: seq<Handler>, i: nat, h: Handler)
    requires i < |handlers|
    ensures HeldKeys(handlers[i := h]) + Slot(handlers[i]) == HeldKeys(handlers) + Slot(h)
  {
    if i == 0 {
      assert handlers[i := h][1..] == handlers[1..];
      Swap(Slot(h), HeldKeys(handlers[1..]), Slot(handlers[0]));
    } else {
      assert handlers[i := h][1..] == handlers[1..][i - 1 := h];
      HeldKeysUpdate(handlers[1..], i - 1, h);
      Exchange(Slot(handlers[0]), HeldKeys(handlers[1..]), HeldKeys(handlers[1..][i - 1 := h]),
               Slot(handlers[i]), Slot(h));
    }
  }

  lemma {:induction false} HeldKeysCount(handlers: seq<Handler>)
    ensures |HeldKeys(handlers)| == SumBy(handlers, HoldWeight(GuardSlot))
  {
    if handlers != [] {
      HeldKeysCount(handlers[1..]);
    }
  }

  /** How the guard moves with the slot of the one request that takes a step. */
  predicate GuardMoves(cfg: Config, h: Handler, g: Guard, now: int, h': Handler, g': Guard) {
    || (g' == g && Holds(h', GuardSlot) == Holds(h, GuardSlot))
    || (g' == Clear(g, h.key) && Holds(h, GuardSlot) && !Holds(h', GuardSlot))
    || (g' == Reserve(cfg, g, h.key, now) && !Holds(h, GuardSlot)
        && Holds(h', GuardSlot) == (Judge(cfg, g, h.key, now) == Granted))
  }

  /** A deferred call moves only what its own item stands for, and that item was held. */
  lemma UnwindMoves(observed: bool, h: Handler, a: Shared, h': Handler, b: Shared)
    requires Left(observed, h) && h.stack != [] && UnwindStep(h, a, h', b)
    ensures var top := h.stack[|h.stack| - 1];
      && top in h.held
      && h'.held == (if h'.released == h.released then h.held else h.held - {top})
      && b == (if h'.released == h.released then a else Release(a, h.key, top))
      && (h'.released == h.released ==> top == DisconnectHook)
  {
    assert h.stack[|h.stack| - 1] in Items(h.stack);
  }

  lemma RunningKeepsSlot(cfg: Config, observed: bool, h: Handler, a: Shared, now: int, h': Handler, b: Shared)
    requires HandlerStep(cfg, observed, h, a, now, h', b) && !h.stage.Unwinding? && !h.stage.Reserving?
    ensures h'.key == h.key && b.guard == a.guard && Holds(h', GuardSlot) == Holds(h, GuardSlot)
  {
  }

  lemma ReservingMovesGuard(cfg: Config, observed: bool, h: Handler, a: Shared, now: int, h': Handler, b: Shared)
    requires HandlerOk(observed, h) && HandlerStep(cfg, observed, h, a, now, h', b) && h.stage.Reserving?
    ensures h'.key == h.key && !Holds(h, GuardSlot) && b.guard == Reserve(cfg, a.guard, h.key, now)
    ensures Holds(h', GuardSlot) == (Judge(cfg, a.guard, h.key, now) == Granted)
  {
  }

  lemma UnwindMovesGuard(cfg: Config, observed: bool, h: Handler, a: Shared, now: int, h': Handler, b: Shared)
    requires Left(observed, h) && h.stage.Unwinding? && UnwindStep(h, a, h', b)
    ensures h'.key == h.key && GuardMoves(cfg, h, a.guard, now, h', b.guard)
  {
    if h.stack != [] {
      UnwindMoves(observed, h, a, h', b);
    }
  }

  lemma StepMovesGuard(cfg: Config, observed: bool, h: Handler, a: Shared, now: int, h': Handler, b: Shared)
    requires HandlerOk(observed, h) && HandlerStep(cfg, observed, h, a, now, h', b)
    ensures h'.key == h.key && GuardMoves(cfg, h, a.guard, now, h', b.guard)
  {
    if h.stage.Unwinding? {
      UnwindMovesGuard(cfg, observed, h, a, now, h', b);
    } else if h.stage.Reserving? {
      ReservingMovesGuard(cfg, observed, h, a, now, h', b);
    } else {
      RunningKeepsSlot(cfg, observed, h, a, now, h', b);
    }
  }

  lemma StepMovesGauge(cfg: Config, observed: bool, h: Handler, a: Shared, now: int, h': Handler, b: Shared)
    requires HandlerOk(observed, h) && HandlerStep(cfg, observed, h, a, now, h', b)
    ensures b.gauge - a.gauge == One(Holds(h', Gauge)) - One(Holds(h, Gauge))
  {
    if h.stage.Unwinding? {
      if h.stack != [] {
        UnwindMoves(observed, h, a, h', b);
      }
    } else if h.stage.Upgraded? {
      assert !Holds(h, Gauge);
    } else {
      assert b.gauge == a.gauge;
    }
  }

  lemma StepMovesTotals(cfg: Config, observed: bool, h: Handler, a: Shared, now: int, h': Handler, b: Shared)
    requires HandlerOk(observed, h) && HandlerStep(cfg, observed, h, a, now, h', b)
    ensures b.connections - a.connections
         == DecidedWeight(observed, Connections)(h') - DecidedWeight(observed, Connections)(h)
    ensures b.failures - a.failures == DecidedWeight(observed, Failures)(h') - DecidedWeight(observed, Failures)(h)
  {
  }

  // ---- What holds in every reachable state ----

  predicate CountersOk(observed: bool, handlers: seq<Handler>, a: Shared) {
    && a.gauge == SumBy(handlers, HoldWeight(Gauge))
    && a.connections == SumBy(handlers, DecidedWeight(observed, Connections))
    && a.failures == SumBy(handlers, DecidedWeight(observed, Failures))
  }

  ghost predicate SystemOk(s: System) {
    && (forall i :: 0 <= i < |s.handlers| ==> HandlerOk(s.observed, s.handlers[i]))
    && Accounts(s.cfg, s.shared.guard, HeldKeys(s.handlers))
    && CountersOk(s.observed, s.handlers, s.shared)
  }

  lemma GuardMovesKeepAccounts(cfg: Config, h: Handler, g: Guard, now: int, h': Handler, g': Guard,
                               held: multiset<string>, held': multiset<string>)
    requires Accounts(cfg, g, held) && GuardMoves(cfg, h, g, now, h', g') && h'.key == h.key
    requires held' + Slot(h) == held + Slot(h')
    ensures Accounts(cfg, g', held')
  {
    if Holds(h, GuardSlot) == Holds(h', GuardSlot) {
      Cancel(held', held, Slot(h));
      ReserveKeepsAccounts(cfg, g, held, h.key, now);
    } else if Holds(h, GuardSlot) {
      assert held' + multiset{h.key} - multiset{h.key} == held';
      assert h.key in held' + multiset{h.key};
      ClearKeepsAccounts(cfg, g, held, h.key);
    } else {
      ReserveKeepsAccounts(cfg, g, held, h.key, now);
    }
  }

  lemma NextKeepsGuard(s: System, i: nat, now: int, s': System)
    requires i < |s.handlers| && HandlerOk(s.observed, s.handlers[i]) && Next(s, i, now, s')
    requires Accounts(s.cfg, s.shared.guard, HeldKeys(s.handlers))
    ensures Accounts(s.cfg, s'.shared.guard, HeldKeys(s'.handlers))
  {
    var h, h' := s.handlers[i], s'.handlers[i];
    StepMovesGuard(s.cfg, s.observed, h, s.shared, now, h', s'.shared);
    HeldKeysUpdate(s.handlers, i, h');
    GuardMovesKeepAccounts(s.cfg, h, s.shared.guard, now, h', s'.shared.guard,
      HeldKeys(s.handlers), HeldKeys(s'.handlers));
  }

  lemma NextKeepsCounters(s: System, i: nat, now: int, s': System)
    requires i < |s.handlers| && HandlerOk(s.observed, s.handlers[i]) && Next(s, i, now, s')
    requires CountersOk(s.observed, s.handlers, s.shared)
    ensures CountersOk(s.observed, s'.handlers, s'.shared)
  {
    var h' := s'.handlers[i];
    StepMovesGauge(s.cfg, s.observed, s.handlers[i], s.shared, now, h', s'.shared);
    StepMovesTotals(s.cfg, s.observed, s.handlers[i], s.shared, now, h', s'.shared);
    SumByUpdate(s.handlers, i, h', HoldWeight(Gauge));
    SumByUpdate(s.handlers, i, h', DecidedWeight(s.observed, Connections));
    SumByUpdate(s.handlers, i, h', DecidedWeight(s.observed, Failures));
  }

  lemma NextKeepsSystem(s: System, i: nat, now: int, s': System)
    requires SystemOk(s) && Next(s, i, now, s')
    ensures SystemOk(s')
  {
    StepKeepsHandler(s.cfg, s.observed, s.handlers[i], s.shared, now, s'.handlers[i], s'.shared);
    NextKeepsGuard(s, i, now, s');
    NextKeepsCounters(s, i, now, s');
  }

  lemma {:induction false} InitHoldsNothing(handlers: seq<Handler>)
    requires forall i :: 0 <= i < |handlers| ==> handlers[i] == NewHandler(handlers[i].key)
    ensures HeldKeys(handlers) == multiset{}
  {
    if handlers != [] {
      InitHoldsNothing(handlers[1..]);
    }
  }

  lemma InitialSystem(s: System)
    requires Init(s)
    ensures SystemOk(s)
  {
    InitHoldsNothing(s.handlers);
    SumByZero(s.handlers, HoldWeight(Gauge));
    SumByZero(s.handlers, DecidedWeight(s.observed, Connections));
    SumByZero(s.handlers, DecidedWeight(s.observed, Failures));
  }

  lemma {:induction false} ReachableKeepsSystem(states: seq<System>, moves: seq<(nat, int)>, k: nat)
    requires IsRun(states, moves) && k < |states|
    ensures SystemOk(states[k])
  {
    if k == 0 {
      InitialSystem(states[0]);
    } else {
      ReachableKeepsSystem(states, moves, k - 1);
      NextKeepsSystem(states[k - 1], moves[k - 1].0, moves[k - 1].1, states[k]);
    }
  }

  // ---- Results ----

  lemma ReachableHandlerOk(states: seq<System>, moves: seq<(nat, int)>, k: nat, i: nat)
    requires IsRun(states, moves) && k < |states| && i < |states[k].handlers|
    ensures HandlerOk(states[k].observed, states[k].handlers[i])
  {
    ReachableKeepsSystem(states, moves, k);
  }

  predicate IsReverse(s: seq<Item>, t: seq<Item>) {
    |s| == |t| && forall d :: 0 <= d < |s| ==> s[d] == t[|t| - 1 - d]
  }

  lemma {:induction false} UnwoundReverses(full: seq<Item>, n: nat)
    requires n <= |full|
    ensures IsReverse(Unwound(full, n, false), full[n..])
    decreases |full| - n
  {
    if n < |full| {
      UnwoundReverses(full, n + 1);
      assert full[n..] == [full[n]] + full[n + 1..];
    }
  }

  /** The released items are the deferred ones, each once, without a muted hook. */
  lemma {:induction false} UnwoundItems(full: seq<Item>, n: nat, mute: bool)
    requires n <= |full| && NoRepeats(full)
    ensures var ran := Unwound(full, n, mute);
      && NoRepeats(ran)
      && (forall x :: x in ran <==> x in full[n..] && !(mute && x == DisconnectHook))
      && |ran| == |full| - n - One(mute && DisconnectHook in full[n..])
    decreases |full| - n
  {
    if n < |full| {
      UnwoundItems(full, n + 1, mute);
      assert full[n] !in full[n + 1..];
      assert full[n..] == [full[n]] + full[n + 1..];
    }
  }

  /** Which items a request that has finished acquired, released and leaked. */
  lemma FinishedReleases(observed: bool, h: Handler)
    requires HandlerOk(observed, h) && h.stage.Finished?
    ensures h.held == Leaked(h.left, h.mute) && NoRepeats(h.released)
    ensures forall x :: x in h.released <==> x in h.acquired && x !in h.held
    ensures !h.mute ==> IsReverse(h.released, DeferredAt(observed, h.left))
    ensures |h.released| == |DeferredAt(observed, h.left)| - One(h.mute)
    ensures h.decided.Undecided? <==> h.left.Upgrading?
  {
    var full := DeferredAt(observed, h.left);
    DeferredOnce(observed, h.left);
    DeferredOrLeaked(observed, h.left);
    assert full[0..] == full;
    UnwoundItems(full, 0, h.mute);
    UnwoundReverses(full, 0);
    forall x
      ensures x in h.released <==> x in h.acquired && x !in h.held
    {
      assert x in Items(h.acquired) <==> x in Items(full) + Leaked(h.left, false);
      assert !(x in Items(full) && x in Leaked(h.left, false));
    }
  }

  lemma AcquiredCount(observed: bool, left: Stage)
    requires Leaves(left)
    ensures |AcquiredAt(observed, left)| == |DeferredAt(observed, left)| + |Leaked(left, false)|
  {
  }

  lemma AcquiredOrder(observed: bool, left: Stage)
    requires Leaves(left) && Leaked(left, false) == {}
    ensures var acquired, full := AcquiredAt(observed, left), DeferredAt(observed, left);
      if Gauge in acquired then 2 < |full| == |acquired| && acquired[2] != full[2] else acquired == full
  {
    assert Socket in Leaked(LoggingUpgrade, false) && DisconnectHook in Leaked(LoggingConnect, false);
  }

  /** The release order is the acquisition order reversed exactly if nothing leaks and there is no
      gauge: with one, the socket is upgraded before the gauge is raised but closed before it is
      lowered. */
  lemma ReleaseOrder(observed: bool, h: Handler)
    requires HandlerOk(observed, h) && h.stage.Finished?
    ensures IsReverse(h.released, h.acquired) <==> h.held == {} && Gauge !in h.acquired
  {
    FinishedReleases(observed, h);
    AcquiredCount(observed, h.left);
    if Leaked(h.left, false) == {} {
      AcquiredOrder(observed, h.left);
    }
    var full := DeferredAt(observed, h.left);
    if h.mute || Leaked(h.left, false) != {} {
      assert h.mute ==> DisconnectHook in Leaked(h.left, h.mute);
      assert h.mute ==> |h.released| < |full|;
      assert |h.released| < |h.acquired|;
    } else if Gauge in h.acquired {
      assert h.released[|full| - 1 - 2] == full[2];
    }
  }

  /** What every exit, by return or by panic of any user code, does: the request releases each item
      it acquired exactly once, except that it leaks the socket exactly if the logger panicked
      between the upgrade and the deferred close, and never calls the disconnect hook it owes
      exactly if the logger panicked on the way from one hook to the other. It went to no counter
      exactly if the origin check panicked. */
  lemma EveryExitReleases(states: seq<System>, moves: seq<(nat, int)>, k: nat, i: nat)
    requires IsRun(states, moves) && k < |states| && i < |states[k].handlers| && states[k].handlers[i].stage.Finished?
    ensures var h := states[k].handlers[i];
      && NoRepeats(h.released)
      && (forall x :: x in h.released <==> x in h.acquired && x !in h.held)
      && (Socket in h.held <==> h.left == LoggingUpgrade)
      && (DisconnectHook in h.held <==> h.left == LoggingConnect || h.mute)
      && (forall x :: x in h.held ==> x == Socket || x == DisconnectHook)
      && (IsReverse(h.released, h.acquired) <==> h.held == {} && Gauge !in h.acquired)
      && (h.decided.Undecided? <==> h.left == Upgrading)
  {
    ReachableHandlerOk(states, moves, k, i);
    FinishedReleases(states[k].observed, states[k].handlers[i]);
    ReleaseOrder(states[k].observed, states[k].handlers[i]);
  }

  lemma GaugeOverSlot(observed: bool, d: nat)
    requires d < |DeferOrder(observed)| && DeferOrder(observed)[d] == Gauge
    ensures d == 2 && DeferOrder(observed)[1] == GuardSlot
  {
  }

  lemma GaugeNeedsSlot(observed: bool, h: Handler)
    requires HandlerOk(observed, h) && Holds(h, Gauge)
    ensures Holds(h, GuardSlot)
  {
    if h.stage.Unwinding? || h.stage.Finished? {
      DeferredInOrder(observed, h.left);
      var d :| 0 <= d < |h.stack| && h.stack[d] == Gauge;
      GaugeOverSlot(observed, d);
      assert h.stack[1] == DeferOrder(observed)[1];
    }
  }

  /** In every reachable state of any number of concurrent requests: the guard counts exactly
      the slots held, client by client, within both caps; the gauge counts open connections
      and never exceeds the guard's count; and the totals count the decided requests. */
  lemma EveryStateConserves(states: seq<System>, moves: seq<(nat, int)>, k: nat)
    requires IsRun(states, moves) && k < |states|
    ensures var s := states[k];
      && Accounts(s.cfg, s.shared.guard, HeldKeys(s.handlers))
      && s.shared.guard.active == SumBy(s.handlers, HoldWeight(GuardSlot)) == TotalHeld(s.shared.guard.clients)
      && s.shared.gauge == SumBy(s.handlers, HoldWeight(Gauge)) <= s.shared.guard.active
      && s.shared.connections == SumBy(s.handlers, DecidedWeight(s.observed, Connections))
      && s.shared.failures == SumBy(s.handlers, DecidedWeight(s.observed, Failures))
  {
    ReachableKeepsSystem(states, moves, k);
    var s := states[k];
    HeldKeysCount(s.handlers);
    CountsAddUp(s.shared.guard.clients, HeldKeys(s.handlers));
    forall h | h in s.handlers
      ensures HoldWeight(Gauge)(h) <= HoldWeight(GuardSlot)(h)
    {
      if Holds(h, Gauge) {
        GaugeNeedsSlot(s.observed, h);
      }
    }
    SumByAtMost(s.handlers, HoldWeight(Gauge), HoldWeight(GuardSlot));
  }

  function PanickedWeight(): Handler -> nat { (h: Handler) => One(h.left == Upgrading) }

  lemma {:induction false} DecidedOrPanicked(handlers: seq<Handler>)
    requires forall i :: 0 <= i < |handlers| ==> (handlers[i].decided.Undecided? <==> handlers[i].left.Upgrading?)
    ensures SumBy(handlers, DecidedWeight(true, Connections)) + SumBy(handlers, DecidedWeight(true, Failures))
          + SumBy(handlers, PanickedWeight()) == |handlers|
  {
    if handlers != [] {
      var h := handlers[0];
      assert DecidedWeight(true, Connections)(h) + DecidedWeight(true, Failures)(h) + PanickedWeight()(h) == 1;
      DecidedOrPanicked(handlers[1..]);
    }
  }

  /** Once every request has finished, however it left, the guard is empty and the gauge is back
      at 0, and the two totals fall short of the requests by exactly those whose origin check
      panicked. */
  lemma QuietHandlerHoldsNothing(states: seq<System>, moves: seq<(nat, int)>, k: nat)
    requires IsRun(states, moves) && k < |states|
    requires forall i :: 0 <= i < |states[k].handlers| ==> states[k].handlers[i].stage.Finished?
    ensures var s := states[k];
      && s.shared.guard.active == 0 && s.shared.guard.clients == map[] && s.shared.gauge == 0
      && (s.observed ==>
            s.shared.connections + s.shared.failures + SumBy(s.handlers, PanickedWeight()) == |s.handlers|)
  {
    ReachableKeepsSystem(states, moves, k);
    var s := states[k];
    EveryStateConserves(states, moves, k);
    forall i | 0 <= i < |s.handlers|
      ensures !Holds(s.handlers[i], GuardSlot)
      ensures s.handlers[i].decided.Undecided? <==> s.handlers[i].left.Upgrading?
    {
      FinishedReleases(s.observed, s.handlers[i]);
    }
    SumByZero(s.handlers, HoldWeight(GuardSlot));
    HeldKeysCount(s.handlers);
    if s.observed {
      DecidedOrPanicked(s.handlers);
    }
  }

  lemma {:induction false} HolderIsCounted(handlers: seq<Handler>, i: nat)
    requires i < |handlers| && Holds(handlers[i], GuardSlot)
    ensures handlers[i].key in HeldKeys(handlers)
  {
    if i > 0 {
      HolderIsCounted(handlers[1..], i - 1);
    }
  }

  /** The release of a slot never meets an empty guard: neither saturating branch runs. */
  lemma SlotReleaseIsExact(states: seq<System>, moves: seq<(nat, int)>, k: nat)
    requires IsRun(states, moves) && k < |moves| && moves[k].0 < |states[k].handlers|
    requires var h := states[k].handlers[moves[k].0];
      h.stage.Unwinding? && h.stack != [] && h.stack[|h.stack| - 1] == GuardSlot
    ensures var key := states[k].handlers[moves[k].0].key;
      && states[k + 1].shared.guard.active == states[k].shared.guard.active - 1 >= 0
      && ClientCount(states[k].shared.guard, key) >= 1
      && ClientCount(states[k + 1].shared.guard, key) == ClientCount(states[k].shared.guard, key) - 1
  {
    ReachableKeepsSystem(states, moves, k);
    var s, i := states[k], moves[k].0;
    var h := s.handlers[i];
    assert GuardSlot in Items(h.stack);
    HolderIsCounted(s.handlers, i);
    ClearKeepsAccounts(s.cfg, s.shared.guard, HeldKeys(s.handlers), h.key);
    assert Next(s, i, moves[k].1, states[k + 1]);
  }
}
