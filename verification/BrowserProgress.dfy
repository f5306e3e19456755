// Progress of the interleaved browser connection: every run is bounded by the calls begun in
// it, and the only states without a next step are harmless.
module BrowserProgress {
  import opened Sequences
  import opened BrowserStream
  import opened BrowserSteps

  function CloseRank(at: CloseAt): nat {
    match at
    case CloseEnter => 11 case CloseFlag => 10 case CloseLockQueue => 9 case CloseClear => 8
    case CloseTry => 7 case CloseTail => 6 case CloseLockErr => 5 case CloseAwaitReaders => 4
    case CloseChannel => 3 case CloseUnlockErr => 2 case CloseDone => 1
  }

  /** An upper bound on the steps left to a call, a wake-up paid for by its token. */
  function Rank(p: Pc): nat {
    match p
    case Idle => 0
    case Storing(at, _) =>
      (match at case StoreCheck => 19 case StoreLock => 18 case StoreHold => 17 case StoreSignal => 4)
    case Reporting(at, _, thenClose) =>
      (match at case ErrCheck => 5 case ErrLock => 4 case ErrRecheck => 3 case ErrSend => 2 case ErrUnlock => 1)
      + (if thenClose then CloseRank(CloseEnter) else 0)
    case Closing(at) => CloseRank(at)
    case Reading(at, _, _) =>
      match at
      case ReadLock => 7 case ReadCheck => 6 case ReadTail => 5 case ReadLockQueue => 4 case ReadPop => 3
      case ReadSplit(_) => 2 case ReadSelect => 2 case ReadUnlock => 1
  }

  const CALL_STEPS: nat := 19

  function TokenRank(a: Shared): nat { if a.token then 3 else 0 }

  function Work(s: State): nat { SumBy(s.pcs, Rank) + TokenRank(s.shared) }

  lemma StoreUsesRank(at: StoreAt, m: Message, a: Shared, t: nat, q: Pc, b: Shared)
    requires StoreStep(at, m, a, t, q, b)
    ensures Rank(q) + TokenRank(b) < Rank(Storing(at, m)) + TokenRank(a)
  {
  }

  lemma ReportUsesRank(at: ReportAt, e: Error, c: bool, a: Shared, t: nat, q: Pc, b: Shared)
    requires ReportStep(at, e, c, a, t, q, b)
    ensures Rank(q) + TokenRank(b) < Rank(Reporting(at, e, c)) + TokenRank(a)
  {
  }

  lemma CloseUsesRank(at: CloseAt, a: Shared, t: nat, q: Pc, b: Shared)
    requires CloseStep(at, a, t, q, b)
    ensures Rank(q) + TokenRank(b) < Rank(Closing(at)) + TokenRank(a)
  {
  }

  lemma ReadUsesRank(at: ReadAt, n: nat, l: bool, a: Shared, t: nat, q: Pc, b: Shared)
    requires ReadStep(at, n, l, a, t, q, b)
    ensures Rank(q) + TokenRank(b) < Rank(Reading(at, n, l)) + TokenRank(a)
  {
  }

  /** Every step uses up rank, except that a token put in for a reader is paid for by its sender. */
  lemma StepUsesRank(p: Pc, a: Shared, t: nat, q: Pc, b: Shared)
    requires ThreadStep(p, a, t, q, b)
    ensures Rank(q) + TokenRank(b) < Rank(p) + TokenRank(a)
  {
    match p
    case Storing(at, m) => StoreUsesRank(at, m, a, t, q, b);
    case Reporting(at, e, c) => ReportUsesRank(at, e, c, a, t, q, b);
    case Closing(at) => CloseUsesRank(at, a, t, q, b);
    case Reading(at, n, l) => ReadUsesRank(at, n, l, a, t, q, b);
  }

  function Begins(moves: seq<Move>): nat {
    if moves == [] then 0 else (if moves[0].Begin? then 1 else 0) + Begins(moves[1..])
  }

  /** In every run, from any state, the steps taken are bounded by the work at its start and
      the number of calls begun: no call loops or waits in a loop for ever. */
  lemma {:induction false} EveryRunIsBounded(states: seq<State>, moves: seq<Move>)
    requires IsRun(states, moves)
    ensures |moves| - Begins(moves) + Work(states[|moves|]) <= Work(states[0]) + CALL_STEPS * Begins(moves)
  {
    if moves != [] {
      var move := moves[0];
      assert Next(states[0], move, states[1]);
      RunFrom(states, moves, 1);
      EveryRunIsBounded(states[1..], moves[1..]);
      if move.Begin? {
        SumByUpdate(states[0].pcs, move.t, move.entry, Rank);
      } else {
        SumByUpdate(states[0].pcs, move.t, move.next, Rank);
        StepUsesRank(states[0].pcs[move.t], states[0].shared, move.t, move.next, states[1].shared);
      }
    }
  }

  predicate CanAct(p: Pc, a: Shared) {
    match p
    case Idle => false
    case Storing(at, _) => at.StoreLock? ==> a.queueMu == None
    case Reporting(at, _, _) => at.ErrLock? ==> a.errWriter == None
    case Closing(at) =>
      && (at.CloseEnter? ==> !a.once.Running?)
      && (at.CloseLockQueue? ==> a.queueMu == None)
      && (at.CloseLockErr? ==> a.errWriter == None)
      && (at.CloseAwaitReaders? ==> a.errReaders == {})
    case Reading(at, _, _) =>
      && (at.ReadLock? ==> a.readMu == None)
      && (at.ReadLockQueue? ==> a.queueMu == None)
      && (at.ReadSelect? ==> a.errors != [] || a.errorsClosed || a.token)
  }

  lemma CanActTakesStep(p: Pc, a: Shared, t: nat) returns (q: Pc, b: Shared)
    requires CanAct(p, a)
    ensures ThreadStep(p, a, t, q, b)
  {
    match p
    case Storing(at, m) =>
      match at {
        case StoreCheck => q, b := if a.closed then Idle else Storing(StoreLock, m), a;
        case StoreLock => q, b := Storing(StoreHold, m), a.(queueMu := Some(t));
        case StoreHold =>
          if Fits(a.queue, m) {
            q, b := Storing(StoreSignal, m), a.(queue := a.queue + [m], accepted := a.accepted + m, queueMu := None);
          } else {
            q, b := Reporting(ErrCheck, OverflowError(a.queue, m), true), a.(queueMu := None);
          }
        case StoreSignal => q, b := Idle, a.(token := true);
      }
    case Reporting(at, e, c) =>
      match at {
        case ErrCheck => q, b := if a.closed then AfterReport(c) else Reporting(ErrLock, e, c), a;
        case ErrLock => q, b := Reporting(ErrRecheck, e, c), a.(errReaders := a.errReaders + {t});
        case ErrRecheck => q, b := Reporting(if a.closed then ErrUnlock else ErrSend, e, c), a;
        case ErrSend =>
          q := Reporting(ErrUnlock, e, c);
          b := if a.errorsClosed then a.(panicked := true)
               else if |a.errors| < ERROR_CAPACITY then a.(errors := a.errors + [e]) else a;
        case ErrUnlock => q, b := AfterReport(c), a.(errReaders := a.errReaders - {t});
      }
    case Closing(at) => q, b := CloseCanAct(at, a, t);
    case Reading(at, n, l) => q, b := ReadCanAct(at, n, l, a, t);
  }

  lemma CloseCanAct(at: CloseAt, a: Shared, t: nat) returns (q: Pc, b: Shared)
    requires CanAct(Closing(at), a)
    ensures CloseStep(at, a, t, q, b)
  {
    match at
    case CloseEnter =>
      if a.once.Done? { q, b := Idle, a; } else { q, b := Closing(CloseFlag), a.(once := Running(t)); }
    case CloseFlag => q, b := Closing(CloseLockQueue), a.(closed := true);
    case CloseLockQueue => q, b := Closing(CloseClear), a.(queueMu := Some(t));
    case CloseClear => q, b := Closing(CloseTry), a.(queue := [], queueMu := None, cut := Some(ClearedCut(a)));
    case CloseTry => q, b := Closing(CloseLockErr), a;
    case CloseTail => q, b := Closing(CloseLockErr), a.(tail := [], readMu := None);
    case CloseLockErr => q, b := Closing(CloseAwaitReaders), a.(errWriter := Some(t));
    case CloseAwaitReaders => q, b := Closing(CloseChannel), a;
    case CloseChannel =>
      q, b := Closing(CloseUnlockErr), if a.errorsClosed then a.(panicked := true) else a.(errorsClosed := true);
    case CloseUnlockErr => q, b := Closing(CloseDone), a.(errWriter := None);
    case CloseDone => q, b := Idle, a.(once := Done);
  }

  lemma ReadCanAct(at: ReadAt, n: nat, l: bool, a: Shared, t: nat) returns (q: Pc, b: Shared)
    requires CanAct(Reading(at, n, l), a)
    ensures ReadStep(at, n, l, a, t, q, b)
  {
    q := Reading(ReadUnlock, n, l);
    match at
    case ReadLock => q, b := Reading(ReadCheck, n, l), a.(readMu := Some(t));
    case ReadCheck => q, b := Reading(if a.closed then ReadUnlock else ReadTail, n, l), a;
    case ReadTail =>
      if a.tail == [] {
        q, b := Reading(ReadLockQueue, n, l), a;
      } else {
        var k := Min(n, |a.tail|);
        b := a.(delivered := a.delivered + a.tail[..k], tail := a.tail[k..]);
      }
    case ReadLockQueue => q, b := Reading(ReadPop, n, l), a.(queueMu := Some(t));
    case ReadPop =>
      if a.queue == [] {
        q, b := Reading(ReadSelect, n, l), a.(queueMu := None);
      } else {
        q, b := Reading(ReadSplit(a.queue[0]), n, l), a.(queue := a.queue[1..], queueMu := None);
      }
    case ReadSplit(m) =>
      var k := Min(n, |m|);
      b := a.(delivered := a.delivered + m[..k], tail := if k < |m| then m[k..] else a.tail);
    case ReadSelect =>
      if a.errors != [] {
        b := a.(errors := a.errors[1..]);
      } else if a.errorsClosed {
        b := a;
      } else {
        q, b := Reading(ReadLockQueue, n, l), a.(token := false);
      }
    case ReadUnlock => q, b := Idle, a.(readMu := None);
  }

  lemma StepNeedsCanAct(p: Pc, a: Shared, t: nat, q: Pc, b: Shared)
    requires ThreadStep(p, a, t, q, b)
    ensures CanAct(p, a)
  {
  }

  /** No thread is at a position that can go on. */
  predicate Stuck(s: State) {
    forall t :: 0 <= t < |s.pcs| ==> !CanAct(s.pcs[t], s.shared)
  }

  /** No thread can take a step. */
  ghost predicate NoStep(s: State) {
    forall t, q, s' :: !Next(s, Act(t, q), s')
  }

  lemma StuckMeansNoStep(s: State)
    ensures Stuck(s) <==> NoStep(s)
  {
    if !NoStep(s) {
      var t: nat, q, s' :| Next(s, Act(t, q), s');
      StepNeedsCanAct(s.pcs[t], s.shared, t, q, s'.shared);
    }
    if !Stuck(s) {
      var t :| 0 <= t < |s.pcs| && CanAct(s.pcs[t], s.shared);
      var q, b := CanActTakesStep(s.pcs[t], s.shared, t);
      assert Next(s, Act(t, q), State(s.pcs[t := q], b));
    }
  }

  predicate AllIdle(s: State) {
    forall t :: 0 <= t < |s.pcs| ==> s.pcs[t] == Idle
  }

  /** An open connection with nothing to read: one read is parked in its select, and every
      other call is a read queued behind it. */
  predicate OnlyParkedReads(s: State) {
    && !s.shared.closed && s.shared.queue == [] && s.shared.errors == [] && !s.shared.token
    && (exists r :: 0 <= r < |s.pcs| && Selects(s.pcs[r]))
    && forall t :: 0 <= t < |s.pcs| ==>
         s.pcs[t] == Idle || Selects(s.pcs[t]) || (s.pcs[t].Reading? && s.pcs[t].read.ReadLock?)
  }

  /** In a stuck state nobody holds the queue lock, the error channel lock or the once, so
      only reads are left. */
  lemma StuckLeavesReads(s: State)
    requires BrowserSteps.Invariant(s) && Stuck(s)
    ensures !s.shared.once.Running?
    ensures forall t :: 0 <= t < |s.pcs| ==>
      s.pcs[t] == Idle || Selects(s.pcs[t]) || (s.pcs[t].Reading? && s.pcs[t].read.ReadLock?)
  {
    var a := s.shared;
    assert a.queueMu.Some? ==> HoldsAsPlaced(s.pcs[a.queueMu.value], a, a.queueMu.value);
    assert forall u :: u in a.errReaders ==> HoldsAsPlaced(s.pcs[u], a, u);
    assert a.errWriter.Some? ==> HoldsAsPlaced(s.pcs[a.errWriter.value], a, a.errWriter.value);
    assert a.once.Running? ==> HoldsAsPlaced(s.pcs[a.once.t], a, a.once.t);
  }

  lemma StuckIsAllIdleOrParked(s: State)
    requires BrowserSteps.Invariant(s)
    ensures Stuck(s) <==> AllIdle(s) || OnlyParkedReads(s)
  {
    if Stuck(s) {
      StuckLeavesReads(s);
      if s.shared.readMu.Some? {
        var r := s.shared.readMu.value;
        assert HoldsAsPlaced(s.pcs[r], s.shared, r);
      } else {
        forall t | 0 <= t < |s.pcs|
          ensures s.pcs[t] == Idle
        {
          assert HoldsAsPlaced(s.pcs[t], s.shared, t) && !CanAct(s.pcs[t], s.shared);
        }
      }
    }
  }

  /** In every reachable state: no thread can take a step exactly when every call has returned or
      an open, empty connection has only reads waiting for data. */
  lemma StuckExactlyWhenNothingToRead(states: seq<State>, moves: seq<Move>, i: nat)
    requires IsRun(states, moves) && Init(states[0]) && i < |states|
    ensures (forall t, q, s' :: !Next(states[i], Act(t, q), s')) <==> AllIdle(states[i]) || OnlyParkedReads(states[i])
  {
    ReachableKeepsInvariant(states, moves, i);
    StuckMeansNoStep(states[i]);
    StuckIsAllIdleOrParked(states[i]);
    assert NoStep(states[i]) <==> forall t, q, s' :: !Next(states[i], Act(t, q), s');
  }

  /** Once the connection is closed, or while any thread is inside closeChannels, some thread
      can always take a step until every call has returned; with EveryRunIsBounded, every
      close completes and every parked read returns. */
  lemma CloseAlwaysProgresses(states: seq<State>, moves: seq<Move>, i: nat)
    requires IsRun(states, moves) && Init(states[0]) && i < |states| && !AllIdle(states[i])
    requires states[i].shared.closed || exists t :: 0 <= t < |states[i].pcs| && states[i].pcs[t].Closing?
    ensures exists t, q, s' :: Next(states[i], Act(t, q), s')
  {
    StuckExactlyWhenNothingToRead(states, moves, i);
    assert !OnlyParkedReads(states[i]);
  }
}
