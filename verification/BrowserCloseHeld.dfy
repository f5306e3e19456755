// What a closed browser connection still holds: when its queue and its tail are empty for ever, and
// a run in which they are not.
module BrowserCloseHeld {
  import opened Sequences
  import opened BrowserStream
  import opened BrowserSteps
  import opened BrowserCloseOrder
  import opened BrowserCloseGap

  // ---- The queue ----

  /** A store past its closed check with a message that an emptied queue takes. */
  predicate Lands(p: Pc) { Appending(p) && |p.m| <= MAX_QUEUED_BYTES }

  predicate SomeLands(pcs: seq<Pc>) {
    exists t :: 0 <= t < |pcs| && Lands(pcs[t])
  }

  /** The queue was cleared, and nothing can land in it any more. */
  predicate QueueGone(s: State) {
    s.shared.cut.Some? && s.shared.queue == [] && !SomeLands(s.pcs)
  }

  lemma StepKeepsQueueGone(p: Pc, a: Shared, t: nat, q: Pc, b: Shared)
    requires ThreadStep(p, a, t, q, b) && a.closed && p != Closing(CloseClear)
    requires HoldsAsPlaced(p, a, t) && PlacedWell(p, a)
    requires !Lands(p) && a.queue == []
    ensures !Lands(q) && b.queue == [] && b.cut == a.cut
  {
    match p
    case Storing(at, m) => StoreAfterClear(at, m, a, t, q, b);
    case Reporting(at, e, c) => ReportAfterClear(at, e, c, a, t, q, b);
    case Closing(at) => CloseAfterClear(at, a, t, q, b);
    case Reading(at, n, l) => ReadAfterClear(at, n, l, a, t, q, b);
  }

  lemma NextKeepsQueueGone(s: State, move: Move, s': State)
    requires BrowserSteps.Invariant(s) && QueueGone(s) && Next(s, move, s')
    ensures QueueGone(s')
  {
    var t := move.t;
    NotClearTwice(s, t);
    assert !Lands(s.pcs[t]) && HoldsAsPlaced(s.pcs[t], s.shared, t) && PlacedWell(s.pcs[t], s.shared);
    if move.Act? {
      StepKeepsQueueGone(s.pcs[t], s.shared, t, move.next, s'.shared);
    }
    assert forall u :: 0 <= u < |s'.pcs| && u != t ==> s'.pcs[u] == s.pcs[u];
  }

  lemma {:induction false} QueueGoneAlong(states: seq<State>, moves: seq<Move>, j: nat)
    requires IsRun(states, moves) && BrowserSteps.Invariant(states[0]) && QueueGone(states[0]) && j < |states|
    ensures BrowserSteps.Invariant(states[j]) && QueueGone(states[j])
  {
    if j > 0 {
      QueueGoneAlong(states, moves, j - 1);
      NextKeepsInvariant(states[j - 1], moves[j - 1], states[j]);
      NextKeepsQueueGone(states[j - 1], moves[j - 1], states[j]);
    }
  }

  lemma ClearEmptiesQueue(s: State, move: Move, s': State)
    requires BrowserSteps.Invariant(s) && Next(s, move, s') && Clears(s, move) && !SomeLands(s.pcs)
    ensures QueueGone(s')
  {
    assert forall u :: 0 <= u < |s'.pcs| && u != move.t ==> s'.pcs[u] == s.pcs[u];
  }

  lemma LandingFillsQueue(s: State, move: Move, s': State) returns (s2: State)
    requires BrowserSteps.Invariant(s) && Next(s, move, s') && Clears(s, move) && SomeLands(s.pcs)
    ensures Leads(s', s2) && s2.shared.queue != []
  {
    var t := move.t;
    var u :| 0 <= u < |s.pcs| && Lands(s.pcs[u]);
    assert HoldsAsPlaced(s.pcs[t], s.shared, t) && HoldsAsPlaced(s.pcs[u], s.shared, u);
    LeadsNowhere(s');
    s2 := StoreLands(s', s', u, s.pcs[u].m);
  }

  /** The cleared queue is empty in every continuation exactly if, when it was cleared, no store
      was past its closed check with a message that fits an empty queue. */
  lemma QueueStaysEmptyExactly(states: seq<State>, moves: seq<Move>, i: nat)
    requires IsRun(states, moves) && Init(states[0]) && i < |moves| && Clears(states[i], moves[i])
    ensures !SomeLands(states[i].pcs) <==> forall s :: Leads(states[i + 1], s) ==> s.shared.queue == []
  {
    ReachableKeepsInvariant(states, moves, i);
    ReachableKeepsInvariant(states, moves, i + 1);
    if SomeLands(states[i].pcs) {
      var s := LandingFillsQueue(states[i], moves[i], states[i + 1]);
    } else {
      ClearEmptiesQueue(states[i], moves[i], states[i + 1]);
      forall s | Leads(states[i + 1], s)
        ensures s.shared.queue == []
      {
        var later, rest :| IsRun(later, rest) && later[0] == states[i + 1] && later[|rest|] == s;
        QueueGoneAlong(later, rest, |rest|);
      }
    }
  }

  // ---- The tail ----

  predicate SomeDelivers(pcs: seq<Pc>) {
    exists t :: 0 <= t < |pcs| && Delivers(pcs[t])
  }

  /** After the clear there is no tail, and no read is past its closed check to leave one. */
  predicate TailGone(s: State) {
    s.shared.cut.Some? && s.shared.tail == [] && !SomeDelivers(s.pcs)
  }

  lemma StepKeepsTailGone(p: Pc, a: Shared, t: nat, q: Pc, b: Shared)
    requires ThreadStep(p, a, t, q, b) && a.closed && p != Closing(CloseClear)
    requires HoldsAsPlaced(p, a, t) && !Delivers(p)
    ensures !Delivers(q) && b.cut == a.cut && (b.tail == a.tail || b.tail == [])
  {
    match p
    case Storing(at, m) => StoreAfterClear(at, m, a, t, q, b);
    case Reporting(at, e, c) => ReportAfterClear(at, e, c, a, t, q, b);
    case Closing(at) => CloseAfterClear(at, a, t, q, b);
    case Reading(at, n, l) =>
  }

  lemma NextKeepsTailGone(s: State, move: Move, s': State)
    requires BrowserSteps.Invariant(s) && TailGone(s) && Next(s, move, s')
    ensures TailGone(s')
  {
    var t := move.t;
    NotClearTwice(s, t);
    assert !Delivers(s.pcs[t]) && HoldsAsPlaced(s.pcs[t], s.shared, t);
    if move.Act? {
      StepKeepsTailGone(s.pcs[t], s.shared, t, move.next, s'.shared);
    }
    assert forall u :: 0 <= u < |s'.pcs| && u != t ==> s'.pcs[u] == s.pcs[u];
  }

  lemma {:induction false} TailGoneAlong(states: seq<State>, moves: seq<Move>, j: nat)
    requires IsRun(states, moves) && BrowserSteps.Invariant(states[0]) && TailGone(states[0]) && j < |states|
    ensures BrowserSteps.Invariant(states[j]) && TailGone(states[j])
  {
    if j > 0 {
      TailGoneAlong(states, moves, j - 1);
      NextKeepsInvariant(states[j - 1], moves[j - 1], states[j]);
      NextKeepsTailGone(states[j - 1], moves[j - 1], states[j]);
    }
  }

  /** The move in which a close that won TryLock drops the tail. */
  predicate DropsTail(s: State, move: Move) {
    move.Act? && move.t < |s.pcs| && s.pcs[move.t] == Closing(CloseTail)
  }

  lemma DropEmptiesTail(s: State, move: Move, s': State)
    requires BrowserSteps.Invariant(s) && Next(s, move, s') && DropsTail(s, move)
    ensures TailGone(s')
  {
    var t := move.t;
    assert HoldsAsPlaced(s.pcs[t], s.shared, t);
    forall u | 0 <= u < |s'.pcs|
      ensures !Delivers(s'.pcs[u])
    {
      assert u != t ==> s'.pcs[u] == s.pcs[u] && HoldsAsPlaced(s.pcs[u], s.shared, u);
    }
  }

  // ---- Both ----

  /** From a state in which nothing can land in the queue and no tail can appear, a closed
      connection holds nothing for ever. */
  lemma GoneHoldsNothing(states: seq<State>, moves: seq<Move>, k: nat, j: nat)
    requires IsRun(states, moves) && Init(states[0]) && k <= j < |states|
    requires QueueGone(states[k]) && TailGone(states[k])
    ensures states[j].shared.queue == [] && states[j].shared.tail == []
  {
    ReachableKeepsInvariant(states, moves, k);
    RunFrom(states, moves, k);
    QueueGoneAlong(states[k..], moves[k..], j - k);
    TailGoneAlong(states[k..], moves[k..], j - k);
  }

  lemma QueueGoneLater(states: seq<State>, moves: seq<Move>, i: nat, k: nat)
    requires IsRun(states, moves) && Init(states[0]) && i < |moves| && i < k < |states|
    requires Clears(states[i], moves[i]) && !SomeLands(states[i].pcs)
    ensures QueueGone(states[k])
  {
    ReachableKeepsInvariant(states, moves, i);
    ReachableKeepsInvariant(states, moves, i + 1);
    ClearEmptiesQueue(states[i], moves[i], states[i + 1]);
    RunFrom(states, moves, i + 1);
    QueueGoneAlong(states[i + 1..], moves[i + 1..], k - i - 1);
  }

  /** A close drops everything for ever: if nothing could land in the queue when it was cleared, and
      then either the close won TryLock and dropped the tail, or at some time there was no tail and
      no read past its closed check, the connection holds nothing from there on. */
  lemma CloseDropsAll(states: seq<State>, moves: seq<Move>, i: nat, k: nat, j: nat)
    requires IsRun(states, moves) && Init(states[0]) && i < k <= j < |states|
    requires Clears(states[i], moves[i]) && !SomeLands(states[i].pcs)
    requires DropsTail(states[k - 1], moves[k - 1])
      || (states[k].shared.tail == [] && !SomeDelivers(states[k].pcs))
    ensures states[j].shared.queue == [] && states[j].shared.tail == []
  {
    QueueGoneLater(states, moves, i, k);
    if DropsTail(states[k - 1], moves[k - 1]) {
      ReachableKeepsInvariant(states, moves, k - 1);
      assert Next(states[k - 1], moves[k - 1], states[k]);
      DropEmptiesTail(states[k - 1], moves[k - 1], states[k]);
    }
    GoneHoldsNothing(states, moves, k, j);
  }

  // ---- At rest ----

  /** The close has returned, and no store and no read that overlapped it is still past its check. */
  predicate Settled(s: State) {
    s.shared.once.Done? && !SomeAppending(s.pcs) && !SomeDelivers(s.pcs)
  }

  lemma StepKeepsSettled(p: Pc, a: Shared, t: nat, q: Pc, b: Shared)
    requires ThreadStep(p, a, t, q, b) && a.closed && a.once.Done? && HoldsAsPlaced(p, a, t)
    requires !Appending(p) && !Delivers(p)
    ensures !Appending(q) && !Delivers(q) && b.once == a.once && b.queue == a.queue && b.tail == a.tail
  {
    match p
    case Storing(at, m) =>
    case Reporting(at, e, c) =>
    case Closing(at) =>
    case Reading(at, n, l) =>
  }

  lemma NextKeepsSettled(s: State, move: Move, s': State)
    requires BrowserSteps.Invariant(s) && Settled(s) && Next(s, move, s')
    ensures Settled(s') && s'.shared.queue == s.shared.queue && s'.shared.tail == s.shared.tail
  {
    var t := move.t;
    assert !Appending(s.pcs[t]) && !Delivers(s.pcs[t]) && HoldsAsPlaced(s.pcs[t], s.shared, t);
    if move.Act? {
      StepKeepsSettled(s.pcs[t], s.shared, t, move.next, s'.shared);
    }
    assert forall u :: 0 <= u < |s'.pcs| && u != t ==> s'.pcs[u] == s.pcs[u];
  }

  lemma {:induction false} SettledAlong(states: seq<State>, moves: seq<Move>, j: nat)
    requires IsRun(states, moves) && BrowserSteps.Invariant(states[0]) && Settled(states[0]) && j < |states|
    ensures BrowserSteps.Invariant(states[j]) && Settled(states[j])
    ensures states[j].shared.queue == states[0].shared.queue && states[j].shared.tail == states[0].shared.tail
  {
    if j > 0 {
      SettledAlong(states, moves, j - 1);
      NextKeepsInvariant(states[j - 1], moves[j - 1], states[j]);
      NextKeepsSettled(states[j - 1], moves[j - 1], states[j]);
    }
  }

  /** What a closed connection holds once it has settled, it holds for ever: so it holds nothing for
      ever exactly if it holds nothing then. */
  lemma SettledHoldsForEver(states: seq<State>, moves: seq<Move>, k: nat, j: nat)
    requires IsRun(states, moves) && Init(states[0]) && k <= j < |states| && Settled(states[k])
    ensures states[j].shared.queue == states[k].shared.queue && states[j].shared.tail == states[k].shared.tail
  {
    ReachableKeepsInvariant(states, moves, k);
    RunFrom(states, moves, k);
    SettledAlong(states[k..], moves[k..], j - k);
  }

  // ---- A tail that stays ----

  const TWO_BYTES: Shared := UNUSED.(accepted := [1, 2], token := true, readMu := Some(1))

  /** A read into a buffer of one byte has popped [1, 2]. */
  lemma ReadPopsTwoBytes() returns (s: State)
    ensures s == State([Idle, Reading(ReadSplit([1, 2]), 1, false), Idle, Idle], TWO_BYTES)
    ensures Leads(FOUR_IDLE, s)
  {
    var m: Message := [1, 2];
    LeadsNowhere(FOUR_IDLE);
    s := LeadsByBegin(FOUR_IDLE, FOUR_IDLE, 0, Storing(StoreCheck, m));
    s := LeadsByAct(FOUR_IDLE, s, 0, Storing(StoreLock, m), UNUSED);
    s := StoreLands(FOUR_IDLE, s, 0, m);
    s := LeadsByBegin(FOUR_IDLE, s, 1, Reading(ReadLock, 1, false));
    var a := TWO_BYTES.(queue := [m]);
    s := LeadsByAct(FOUR_IDLE, s, 1, Reading(ReadCheck, 1, false), a);
    s := LeadsByAct(FOUR_IDLE, s, 1, Reading(ReadTail, 1, false), a);
    s := LeadsByAct(FOUR_IDLE, s, 1, Reading(ReadLockQueue, 1, false), a);
    s := LeadsByAct(FOUR_IDLE, s, 1, Reading(ReadPop, 1, false), a.(queueMu := Some(1)));
    s := LeadsByAct(FOUR_IDLE, s, 1, Reading(ReadSplit(m), 1, false), TWO_BYTES);
  }

  const CLEARED: Shared := TWO_BYTES.(closed := true, cut := Some(Cut(2, 2)), once := Running(3))

  /** A close beside it clears the queue, and its TryLock fails. */
  lemma CloseLosesTryLock() returns (s: State)
    ensures s == State([Idle, Reading(ReadSplit([1, 2]), 1, false), Idle, Closing(CloseLockErr)], CLEARED)
    ensures Leads(FOUR_IDLE, s)
  {
    s := ReadPopsTwoBytes();
    var a := TWO_BYTES.(once := Running(3));
    s := LeadsByBegin(FOUR_IDLE, s, 3, Closing(CloseEnter));
    s := LeadsByAct(FOUR_IDLE, s, 3, Closing(CloseFlag), a);
    s := LeadsByAct(FOUR_IDLE, s, 3, Closing(CloseLockQueue), a.(closed := true));
    s := LeadsByAct(FOUR_IDLE, s, 3, Closing(CloseClear), a.(closed := true, queueMu := Some(3)));
    s := LeadsByAct(FOUR_IDLE, s, 3, Closing(CloseTry), CLEARED);
    s := LeadsByAct(FOUR_IDLE, s, 3, Closing(CloseLockErr), CLEARED);
  }

  /** It goes on to return. */
  lemma CloseBesideRead() returns (s: State)
    ensures s == State([Idle, Reading(ReadSplit([1, 2]), 1, false), Idle, Idle],
                       CLEARED.(errorsClosed := true, once := Done))
    ensures Leads(FOUR_IDLE, s)
  {
    s := CloseLosesTryLock();
    var c, d := CLEARED.(errWriter := Some(3)), CLEARED.(errorsClosed := true);
    s := LeadsByAct(FOUR_IDLE, s, 3, Closing(CloseAwaitReaders), c);
    s := LeadsByAct(FOUR_IDLE, s, 3, Closing(CloseChannel), c);
    s := LeadsByAct(FOUR_IDLE, s, 3, Closing(CloseUnlockErr), d.(errWriter := Some(3)));
    s := LeadsByAct(FOUR_IDLE, s, 3, Closing(CloseDone), d);
    s := LeadsByAct(FOUR_IDLE, s, 3, Idle, d.(once := Done));
  }

  /** A close that loses TryLock to a read can keep a tail for ever: all calls have returned, and
      the closed connection still holds [2]. */
  lemma CloseCanKeepTail()
    ensures Init(FOUR_IDLE)
    ensures exists s :: Leads(FOUR_IDLE, s) && s.pcs == FOUR_IDLE.pcs && Settled(s) && s.shared.tail == [2]
  {
    var s := CloseBesideRead();
    var a := s.shared.(delivered := [1], tail := [2]);
    s := LeadsByAct(FOUR_IDLE, s, 1, Reading(ReadUnlock, 1, false), a);
    s := LeadsByAct(FOUR_IDLE, s, 1, Idle, a.(readMu := None));
    assert s.pcs == FOUR_IDLE.pcs;
  }
}
