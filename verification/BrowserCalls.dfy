// What the calls of the interleaved browser connection do for their callers: reported errors reach
// the readers, arriving messages reach the queue, and reads fill their buffers. What was reported,
// stored and returned is read off the moves of a run.
module BrowserCalls {
  import opened Sequences
  import opened BrowserStream
  import opened BrowserSteps

  // ---- Errors ----

  predicate Acts(s: State, move: Move, p: Pc) {
    move.Act? && move.t < |s.pcs| && s.pcs[move.t] == p
  }

  /** The error that a move sends while the channel is open and has room. */
  function ReportOf(s: State, move: Move): seq<Error> {
    if move.Act? && move.t < |s.pcs| && s.pcs[move.t].Reporting? && s.pcs[move.t].report.ErrSend?
       && !s.shared.errorsClosed && |s.shared.errors| < ERROR_CAPACITY
    then [s.pcs[move.t].e] else []
  }

  /** The error with which a read leaves its select. */
  function ReturnOf(s: State, move: Move): seq<Error> {
    if move.Act? && move.t < |s.pcs| && Selects(s.pcs[move.t]) && move.next == s.pcs[move.t].(read := ReadUnlock)
       && s.shared.errors != []
    then [s.shared.errors[0]] else []
  }

  function Reports(states: seq<State>, moves: seq<Move>, i: nat): seq<Error>
    requires i <= |moves| <= |states|
  {
    if i == 0 then [] else Reports(states, moves, i - 1) + ReportOf(states[i - 1], moves[i - 1])
  }

  function Returns(states: seq<State>, moves: seq<Move>, i: nat): seq<Error>
    requires i <= |moves| <= |states|
  {
    if i == 0 then [] else Returns(states, moves, i - 1) + ReturnOf(states[i - 1], moves[i - 1])
  }

  lemma StoreMovesNoError(at: StoreAt, m: Message, a: Shared, t: nat, q: Pc, b: Shared)
    requires StoreStep(at, m, a, t, q, b)
    ensures b.errors == a.errors
  {
  }

  lemma ReportMovesErrors(at: ReportAt, e: Error, c: bool, a: Shared, t: nat, q: Pc, b: Shared)
    requires ReportStep(at, e, c, a, t, q, b)
    ensures b.errors ==
      a.errors + if at.ErrSend? && !a.errorsClosed && |a.errors| < ERROR_CAPACITY then [e] else []
  {
  }

  lemma CloseMovesNoError(at: CloseAt, a: Shared, t: nat, q: Pc, b: Shared)
    requires CloseStep(at, a, t, q, b)
    ensures b.errors == a.errors
  {
  }

  lemma ReadMovesErrors(at: ReadAt, n: nat, l: bool, a: Shared, t: nat, q: Pc, b: Shared)
    requires ReadStep(at, n, l, a, t, q, b)
    ensures a.errors ==
      (if at.ReadSelect? && q == Reading(ReadUnlock, n, l) && a.errors != [] then [a.errors[0]] else []) + b.errors
  {
  }

  lemma MoveMovesErrors(s: State, move: Move, s': State)
    requires Next(s, move, s')
    ensures ReturnOf(s, move) + s'.shared.errors == s.shared.errors + ReportOf(s, move)
  {
    if move.Act? {
      match s.pcs[move.t]
      case Storing(at, m) => StoreMovesNoError(at, m, s.shared, move.t, move.next, s'.shared);
      case Reporting(at, e, c) => ReportMovesErrors(at, e, c, s.shared, move.t, move.next, s'.shared);
      case Closing(at) => CloseMovesNoError(at, s.shared, move.t, move.next, s'.shared);
      case Reading(at, n, l) => ReadMovesErrors(at, n, l, s.shared, move.t, move.next, s'.shared);
    }
  }

  lemma PassOn(returned: seq<Error>, r: seq<Error>, after: seq<Error>, before: seq<Error>, e: seq<Error>)
    requires r + after == before + e
    ensures (returned + r) + after == (returned + before) + e
  {
    assert (returned + r) + after == returned + (r + after);
    assert returned + (before + e) == (returned + before) + e;
  }

  /** In every interleaving, also across a close: the errors that reads returned and those still
      waiting are the ones sent, in order. */
  lemma {:induction false} ErrorsArriveInOrder(states: seq<State>, moves: seq<Move>, i: nat)
    requires IsRun(states, moves) && Init(states[0]) && i < |states|
    ensures Returns(states, moves, i) + states[i].shared.errors == Reports(states, moves, i)
  {
    if i > 0 {
      ErrorsArriveInOrder(states, moves, i - 1);
      MoveMovesErrors(states[i - 1], moves[i - 1], states[i]);
      PassOn(Returns(states, moves, i - 1), ReturnOf(states[i - 1], moves[i - 1]), states[i].shared.errors,
        states[i - 1].shared.errors, ReportOf(states[i - 1], moves[i - 1]));
    }
  }

  /** While a report is not returned, a read waiting in its select can return the oldest one. */
  lemma UnreturnedReportWakesRead(states: seq<State>, moves: seq<Move>, i: nat, r: nat)
    requires IsRun(states, moves) && Init(states[0]) && i < |states|
    requires r < |states[i].pcs| && Selects(states[i].pcs[r])
    requires |Returns(states, moves, i)| < |Reports(states, moves, i)|
    ensures exists s' ::
      && Next(states[i], Act(r, states[i].pcs[r].(read := ReadUnlock)), s')
      && Returns(states, moves, i) + ReturnOf(states[i], Act(r, states[i].pcs[r].(read := ReadUnlock)))
         == Reports(states, moves, i)[..|Returns(states, moves, i)| + 1]
  {
    ErrorsArriveInOrder(states, moves, i);
    var s, q := states[i], states[i].pcs[r].(read := ReadUnlock);
    assert Next(s, Act(r, q), State(s.pcs[r := q], s.shared.(errors := s.shared.errors[1..])));
  }

  // ---- A closed flag stays ----

  lemma StepKeepsClosed(s: State, move: Move, s': State)
    requires BrowserSteps.Invariant(s) && Next(s, move, s') && s.shared.closed
    ensures s'.shared.closed
  {
    if move.Act? {
      match s.pcs[move.t] {
        case Storing(_, _) => StoreStepIsLocal(s, move.t, move.next, s'.shared);
        case Reporting(_, _, _) => ReportStepIsLocal(s, move.t, move.next, s'.shared);
        case Closing(_) => CloseStepIsLocal(s, move.t, move.next, s'.shared);
        case Reading(_, _, _) => ReadStepIsLocal(s, move.t, move.next, s'.shared);
      }
    }
  }

  lemma {:induction false} OpenBefore(states: seq<State>, moves: seq<Move>, k: nat, j: nat)
    requires IsRun(states, moves) && Init(states[0]) && k <= j < |states| && !states[j].shared.closed
    ensures !states[k].shared.closed
    decreases j - k
  {
    if k < j {
      OpenBefore(states, moves, k + 1, j);
      ReachableKeepsInvariant(states, moves, k);
      assert Next(states[k], moves[k], states[k + 1]);
      if states[k].shared.closed {
        StepKeepsClosed(states[k], moves[k], states[k + 1]);
      }
    }
  }

  predicate StaysOpen(states: seq<State>, j: nat)
    requires j < |states|
  {
    forall k :: 0 <= k <= j ==> !states[k].shared.closed
  }

  lemma OpenSoFar(states: seq<State>, moves: seq<Move>, j: nat)
    requires IsRun(states, moves) && Init(states[0]) && j < |states| && !states[j].shared.closed
    ensures StaysOpen(states, j)
  {
    forall k | 0 <= k <= j
      ensures !states[k].shared.closed
    {
      OpenBefore(states, moves, k, j);
    }
  }

  // ---- Whole reports ----

  /** Some move between i and j is the send of e by thread t. */
  predicate Sent(states: seq<State>, moves: seq<Move>, i: nat, j: nat, t: nat, e: Error, c: bool) {
    exists k :: i <= k < j && k < |moves| && k < |states| && Acts(states[k], moves[k], Reporting(ErrSend, e, c))
      && moves[k].t == t
  }

  lemma SentLater(states: seq<State>, moves: seq<Move>, i: nat, j: nat, t: nat, e: Error, c: bool)
    requires Sent(states, moves, i, j, t, e, c)
    ensures Sent(states, moves, i, j + 1, t, e, c)
  {
    var k :| i <= k < j && k < |moves| && k < |states| && Acts(states[k], moves[k], Reporting(ErrSend, e, c))
      && moves[k].t == t;
    assert Acts(states[k], moves[k], Reporting(ErrSend, e, c));
  }

  predicate OnItsWay(p: Pc, e: Error, c: bool) {
    p.Reporting? && p.e == e && p.thenClose == c && !p.report.ErrUnlock?
  }

  lemma ReportGoesOn(at: ReportAt, e: Error, c: bool, a: Shared, t: nat, q: Pc, b: Shared)
    requires ReportStep(at, e, c, a, t, q, b) && !a.closed && !at.ErrSend? && !at.ErrUnlock?
    ensures OnItsWay(q, e, c)
  {
  }

  /** The report of e by thread t has sent it or is still on its way. */
  predicate ReportGoesWell(states: seq<State>, moves: seq<Move>, i: nat, j: nat, t: nat, e: Error, c: bool)
    requires j < |states|
  {
    t < |states[j].pcs| && (Sent(states, moves, i, j, t, e, c) || OnItsWay(states[j].pcs[t], e, c))
  }

  lemma MoveKeepsReport(states: seq<State>, moves: seq<Move>, i: nat, j: nat, t: nat, e: Error, c: bool)
    requires i <= j < |moves| && j + 1 < |states|
    requires Next(states[j], moves[j], states[j + 1]) && !states[j].shared.closed
    requires ReportGoesWell(states, moves, i, j, t, e, c)
    ensures ReportGoesWell(states, moves, i, j + 1, t, e, c)
  {
    var s, move := states[j], moves[j];
    if Sent(states, moves, i, j, t, e, c) {
      SentLater(states, moves, i, j, t, e, c);
    } else if move.t == t {
      if s.pcs[t].report.ErrSend? {
        assert Acts(states[j], moves[j], Reporting(ErrSend, e, c));
      } else {
        ReportGoesOn(s.pcs[t].report, e, c, s.shared, t, move.next, states[j + 1].shared);
      }
    }
  }

  lemma {:induction false} Upto(holds: nat -> bool, i: nat, j: nat)
    requires i <= j && holds(i) && (forall k :: i <= k < j && holds(k) ==> holds(k + 1))
    ensures holds(j)
    decreases j
  {
    if i < j {
      Upto(holds, i, j - 1);
      assert holds(j - 1 + 1);
    }
  }

  lemma ReportAlong(
    states: seq<State>, moves: seq<Move>, i: nat, j: nat, t: nat, e: Error, c: bool)
    requires IsRun(states, moves) && i <= j < |states| && StaysOpen(states, j)
    requires t < |states[i].pcs| && states[i].pcs[t] == Reporting(ErrCheck, e, c)
    ensures ReportGoesWell(states, moves, i, j, t, e, c)
  {
    var well := (k: nat) => k < |states| && ReportGoesWell(states, moves, i, k, t, e, c);
    forall k | i <= k < j && well(k)
      ensures well(k + 1)
    {
      assert Next(states[k], moves[k], states[k + 1]) && !states[k].shared.closed;
      MoveKeepsReport(states, moves, i, k, t, e, c);
    }
    Upto(well, i, j);
  }

  /** A report is dropped only by a closed connection or a full channel: one that has ended while
      the connection is open did send its error. */
  lemma OpenReportIsSent(states: seq<State>, moves: seq<Move>, i: nat, j: nat, t: nat, e: Error, c: bool)
    requires IsRun(states, moves) && Init(states[0]) && i <= j < |states| && !states[j].shared.closed
    requires t < |states[i].pcs| && states[i].pcs[t] == Reporting(ErrCheck, e, c)
    requires t < |states[j].pcs| && !states[j].pcs[t].Reporting?
    ensures Sent(states, moves, i, j, t, e, c)
  {
    OpenSoFar(states, moves, j);
    ReportAlong(states, moves, i, j, t, e, c);
  }

  // ---- Whole stores ----

  /** The locked section of a store queues the message exactly when both limits hold with it; else
      the queue stays and the sizes that were too large are reported. */
  lemma StoreQueuesOrReports(states: seq<State>, moves: seq<Move>, k: nat, m: Message)
    requires IsRun(states, moves) && k < |moves| && Acts(states[k], moves[k], Storing(StoreHold, m))
    ensures var a, b, q := states[k].shared, states[k + 1].shared, moves[k].next;
      && (WithinLimits(a.queue + [m]) ==>
            b.queue == a.queue + [m] && b.accepted == a.accepted + m && q == Storing(StoreSignal, m))
      && (!WithinLimits(a.queue + [m]) ==>
            && b.queue == a.queue && b.accepted == a.accepted
            && q == Reporting(ErrCheck, Overflow(|a.queue + [m]|, TotalLength(a.queue + [m])), true))
  {
    assert Next(states[k], moves[k], states[k + 1]);
    FitsExactly(states[k].shared.queue, m);
    TotalLengthAppend(states[k].shared.queue, m);
  }

  /** Some move between i and j queues m for thread t. */
  predicate Queued(states: seq<State>, moves: seq<Move>, i: nat, j: nat, t: nat, m: Message) {
    exists k :: i <= k < j && k < |moves| && k + 1 < |states| && Acts(states[k], moves[k], Storing(StoreHold, m))
      && moves[k].t == t && states[k + 1].shared.queue == states[k].shared.queue + [m]
  }

  lemma QueuedLater(states: seq<State>, moves: seq<Move>, i: nat, j: nat, t: nat, m: Message)
    requires Queued(states, moves, i, j, t, m)
    ensures Queued(states, moves, i, j + 1, t, m)
  {
    var k :| i <= k < j && k < |moves| && k + 1 < |states| && Acts(states[k], moves[k], Storing(StoreHold, m))
      && moves[k].t == t && states[k + 1].shared.queue == states[k].shared.queue + [m];
    assert Acts(states[k], moves[k], Storing(StoreHold, m));
  }

  lemma StoreGoesOn(at: StoreAt, m: Message, a: Shared, t: nat, q: Pc, b: Shared)
    requires StoreStep(at, m, a, t, q, b) && !a.closed && q != Reporting(ErrCheck, OverflowError(a.queue, m), true)
    ensures at.StoreSignal? ==> q == Idle && b.token
    ensures !at.StoreSignal? ==> q.Storing? && q.m == m && (q.store.StoreSignal? <==> at.StoreHold?)
    ensures at.StoreHold? ==> b.queue == a.queue + [m]
  {
  }

  /** Thread t is inside its store of m, which is queued by the time it signals. */
  predicate Stores(states: seq<State>, moves: seq<Move>, i: nat, j: nat, t: nat, m: Message)
    requires j < |states|
  {
    && t < |states[j].pcs| && states[j].pcs[t].Storing? && states[j].pcs[t].m == m
    && (states[j].pcs[t].store.StoreSignal? ==> Queued(states, moves, i, j, t, m))
  }

  lemma MoveKeepsStores(states: seq<State>, moves: seq<Move>, i: nat, j: nat, t: nat, m: Message)
    requires i <= j < |moves| && j + 1 < |states|
    requires Next(states[j], moves[j], states[j + 1]) && !states[j].shared.closed
    requires Stores(states, moves, i, j, t, m) && states[j + 1].pcs[t].Storing?
    ensures Stores(states, moves, i, j + 1, t, m)
  {
    var s, move := states[j], moves[j];
    if move.t == t {
      StoreGoesOn(s.pcs[t].store, m, s.shared, t, move.next, states[j + 1].shared);
      assert s.pcs[t].store.StoreHold? ==> Acts(states[j], moves[j], Storing(StoreHold, m));
    } else if s.pcs[t].store.StoreSignal? {
      QueuedLater(states, moves, i, j, t, m);
    }
  }

  lemma {:induction false} StoresAlong(
    states: seq<State>, moves: seq<Move>, i: nat, j: nat, t: nat, m: Message)
    requires IsRun(states, moves) && i <= j < |states| && StaysOpen(states, j)
    requires t < |states[i].pcs| && states[i].pcs[t] == Storing(StoreCheck, m)
    requires forall k :: i <= k <= j ==> t < |states[k].pcs| && states[k].pcs[t].Storing?
    ensures Stores(states, moves, i, j, t, m)
    decreases j
  {
    if i < j {
      StoresAlong(states, moves, i, j - 1, t, m);
      assert !states[j - 1].shared.closed && states[j].pcs[t].Storing?;
      MoveKeepsStores(states, moves, i, j - 1, t, m);
    }
  }

  /** An arrival that returns while the connection is open, without reporting an overflow, has
      queued its message, and leaves a token behind. */
  lemma OpenStoreIsQueued(states: seq<State>, moves: seq<Move>, i: nat, j: nat, t: nat, m: Message)
    requires IsRun(states, moves) && Init(states[0]) && i < j < |states| && !states[j].shared.closed
    requires t < |states[i].pcs| && states[i].pcs[t] == Storing(StoreCheck, m)
    requires forall k :: i <= k < j ==> t < |states[k].pcs| && states[k].pcs[t].Storing?
    requires t < |states[j].pcs| && states[j].pcs[t] == Idle
    ensures Queued(states, moves, i, j, t, m) && states[j].shared.token
  {
    OpenSoFar(states, moves, j);
    StoresAlong(states, moves, i, j - 1, t, m);
    assert !states[j - 1].shared.closed;
    var s, move := states[j - 1], moves[j - 1];
    assert Next(s, move, states[j]);
    StoreGoesOn(s.pcs[t].store, m, s.shared, t, move.next, states[j].shared);
    QueuedLater(states, moves, i, j - 1, t, m);
  }

  // ---- Reads and closes ----

  /** The bytes that the position of a read hands out in its next step. */
  function Source(p: Pc, a: Shared): Message {
    if p.Reading? && p.read.ReadTail? then a.tail else Popped(p)
  }

  lemma ReadFillsBuffer(at: ReadAt, n: nat, l: bool, a: Shared, t: nat, q: Pc, b: Shared)
    requires ReadStep(at, n, l, a, t, q, b) && PlacedWell(Reading(at, n, l), a)
    ensures var from := Source(Reading(at, n, l), a); var k := if n < |from| then n else |from|;
      && b.delivered == a.delivered + from[..k]
      && (from != [] ==> b.tail == from[k..] && q == Reading(ReadUnlock, n, l))
      && (from == [] ==> b.tail == a.tail)
  {
  }

  /** A read hands out the tail or the popped message in one step, from its start: as many bytes as
      the buffer holds, or all of them if it holds more. The rest becomes the tail, the read then
      returns, and no other step hands out anything. */
  lemma ReadsFillTheirBuffers(states: seq<State>, moves: seq<Move>, k: nat)
    requires IsRun(states, moves) && Init(states[0]) && k < |moves|
    ensures var a, b := states[k].shared, states[k + 1].shared;
      if moves[k].Act? && moves[k].t < |states[k].pcs| && states[k].pcs[moves[k].t].Reading?
      then
        var p := states[k].pcs[moves[k].t];
        var from := Source(p, a);
        var n := if p.size < |from| then p.size else |from|;
        && b.delivered == a.delivered + from[..n]
        && (from != [] ==> b.tail == from[n..] && moves[k].next == p.(read := ReadUnlock))
      else b.delivered == a.delivered
  {
    ReachableKeepsInvariant(states, moves, k);
    var s, move := states[k], moves[k];
    assert Next(s, move, states[k + 1]);
    if move.Act? {
      var p := s.pcs[move.t];
      assert PlacedWell(p, s.shared);
      match p {
        case Storing(at, m) => StoreDeliversNothing(at, m, s.shared, move.t, move.next, states[k + 1].shared);
        case Reporting(at, e, c) => ReportDeliversNothing(at, e, c, s.shared, move.t, move.next, states[k + 1].shared);
        case Closing(at) => CloseDeliversNothing(at, s.shared, move.t, move.next, states[k + 1].shared);
        case Reading(at, n, l) => ReadFillsBuffer(at, n, l, s.shared, move.t, move.next, states[k + 1].shared);
      }
    }
  }

  lemma StoreDeliversNothing(at: StoreAt, m: Message, a: Shared, t: nat, q: Pc, b: Shared)
    requires StoreStep(at, m, a, t, q, b)
    ensures b.delivered == a.delivered
  {
  }

  lemma ReportDeliversNothing(at: ReportAt, e: Error, c: bool, a: Shared, t: nat, q: Pc, b: Shared)
    requires ReportStep(at, e, c, a, t, q, b)
    ensures b.delivered == a.delivered
  {
  }

  lemma CloseDeliversNothing(at: CloseAt, a: Shared, t: nat, q: Pc, b: Shared)
    requires CloseStep(at, a, t, q, b)
    ensures b.delivered == a.delivered
  {
  }

  /** When a close returns, the flag is set, the queue was cleared and the error channel is closed. */
  lemma CloseReturnsClosed(states: seq<State>, moves: seq<Move>, k: nat)
    requires IsRun(states, moves) && Init(states[0]) && k < |moves| && moves[k].Act? && moves[k].next == Idle
    requires moves[k].t < |states[k].pcs| && states[k].pcs[moves[k].t].Closing?
    ensures var b := states[k + 1].shared; b.closed && b.cut.Some? && b.errorsClosed
  {
    ReachableKeepsInvariant(states, moves, k);
    ReachableKeepsInvariant(states, moves, k + 1);
    assert Next(states[k], moves[k], states[k + 1]);
    assert HoldsAsPlaced(states[k].pcs[moves[k].t], states[k].shared, moves[k].t);
  }

  /** A close that finds the read lock free can win it, and then drops the tail. */
  lemma FreeReadLockCanBeWon(s: State, t: nat)
    requires t < |s.pcs| && s.pcs[t] == Closing(CloseTry) && s.shared.readMu == None
    ensures exists s1, s2 ::
      Next(s, Act(t, Closing(CloseTail)), s1) && Next(s1, Act(t, Closing(CloseLockErr)), s2) && s2.shared.tail == []
  {
    var s1 := State(s.pcs[t := Closing(CloseTail)], s.shared.(readMu := Some(t)));
    var s2 := State(s1.pcs[t := Closing(CloseLockErr)], s.shared.(tail := []));
    assert Next(s, Act(t, Closing(CloseTail)), s1) && Next(s1, Act(t, Closing(CloseLockErr)), s2);
  }
}
