// The debounced persister: any number of mutating calls and one background worker share the
// store under a read-write lock and a signal channel of capacity 1.
module TodoPersist {
  import opened Sequences
  import opened TodoItems

  datatype CallAt = Idle | Wanting | Holding | Changed | Unlocking

  datatype WorkerAt = Waiting | Debouncing | Locking | Copying | Saving

  /** loaded is what the store began with, saved the last snapshot taken, if any, and stale
      whether a call has changed the store since that snapshot or, without one, since loading. */
  datatype State = State(
    calls: seq<CallAt>, worker: WorkerAt, writer: Option<nat>, signal: bool,
    items: seq<Item>, loaded: seq<Item>, saved: Option<seq<Item>>, stale: bool)

  /** A step of call t or of the worker. */
  datatype Move = Begin(t: nat) | Step(t: nat, op: Op) | Work(timerFires: bool)

  predicate Init(s: State) {
    && (forall t :: 0 <= t < |s.calls| ==> s.calls[t] == Idle)
    && s.worker == Waiting && s.writer == None && !s.signal && !s.stale
    && s.saved == None && s.loaded == s.items && Indexed(s.items)
  }

  /** An update or delete of an unknown identifier changes nothing; uuid.New is taken to give
      new identifiers. */
  predicate Succeeds(items: seq<Item>, op: Op) {
    match op
    case CreateOp(id, _) => true
    case UpdateOp(id, _, _) => Has(items, id)
    case DeleteOp(id) => Has(items, id)
  }

  function At(s: State, t: nat, at: CallAt): State
    requires t < |s.calls|
  {
    s.(calls := s.calls[t := at])
  }

  predicate CallStep(s: State, t: nat, op: Op, s': State)
    requires t < |s.calls|
  {
    match s.calls[t]
    case Idle => false
    case Wanting => s.writer == None && !s.worker.Copying? && s' == At(s.(writer := Some(t)), t, Holding)
    case Holding =>
      && (op.CreateOp? ==> op.id != "" && !Has(s.items, op.id))
      && s' == if Succeeds(s.items, op) then At(s.(items := Apply(s.items, op), stale := true), t, Changed)
               else At(s, t, Unlocking)
    case Changed => s' == At(s.(signal := true), t, Unlocking)
    case Unlocking => s' == At(s.(writer := None), t, Idle)
  }

  predicate WorkerStep(s: State, timerFires: bool, s': State) {
    match s.worker
    case Waiting => s.signal && s' == s.(signal := false, worker := Debouncing)
    case Debouncing =>
      if timerFires then s' == s.(worker := Locking)
      else s.signal && s' == s.(signal := false)  // the timer starts again
    case Locking => s.writer == None && s' == s.(worker := Copying)
    case Copying => s' == s.(saved := Some(s.items), stale := false, worker := Saving)
    case Saving => s' == s.(worker := Waiting)  // a failed save is only logged
  }

  predicate Next(s: State, move: Move, s': State) {
    match move
    case Begin(t) => t < |s.calls| && s.calls[t] == Idle && s' == At(s, t, Wanting)
    case Step(t, op) => t < |s.calls| && CallStep(s, t, op, s')
    case Work(timerFires) => WorkerStep(s, timerFires, s')
  }

  predicate IsRun(states: seq<State>, moves: seq<Move>) {
    && |states| == |moves| + 1
    && forall k :: 0 <= k < |moves| ==> Next(states[k], moves[k], states[k + 1])
  }

  // ---- What holds in every reachable state ----

  predicate HoldsLock(at: CallAt) { at.Holding? || at.Changed? || at.Unlocking? }

  predicate LockAgrees(s: State) {
    && (s.writer.Some? ==> s.writer.value < |s.calls|)
    && (s.worker.Copying? ==> s.writer == None)
    && forall t :: 0 <= t < |s.calls| ==> (HoldsLock(s.calls[t]) <==> s.writer == Some(t))
  }

  /** Whoever changed the store and has not signalled yet. */
  predicate SignalDue(s: State) {
    s.writer.Some? && s.writer.value < |s.calls| && s.calls[s.writer.value].Changed?
  }

  /** The last snapshot is the store; without one, the store is as it was loaded. */
  predicate UpToDate(s: State) {
    s.items == if s.saved.Some? then s.saved.value else s.loaded
  }

  /** A change since the last snapshot is never forgotten. */
  predicate ChangeKept(s: State) {
    && (s.stale ==> s.signal || s.worker.Debouncing? || s.worker.Locking? || s.worker.Copying? || SignalDue(s))
    && (!s.stale ==> UpToDate(s))
  }

  predicate Invariant(s: State) {
    LockAgrees(s) && ChangeKept(s) && Indexed(s.items)
  }

  lemma CallKeepsInvariant(s: State, t: nat, op: Op, s': State)
    requires Invariant(s) && t < |s.calls| && CallStep(s, t, op, s')
    ensures Invariant(s')
  {
    assert HoldsLock(s.calls[t]) <==> s.writer == Some(t);
    if s.calls[t].Holding? {
      ApplyKeepsIndexed(s.items, op);
    }
  }

  lemma NextKeepsInvariant(s: State, move: Move, s': State)
    requires Invariant(s) && Next(s, move, s')
    ensures Invariant(s')
  {
    match move
    case Begin(t) => assert HoldsLock(s.calls[t]) <==> s.writer == Some(t);
    case Step(t, op) => CallKeepsInvariant(s, t, op, s');
    case Work(timerFires) =>
  }

  lemma {:induction false} ReachableKeepsInvariant(states: seq<State>, moves: seq<Move>, k: nat)
    requires IsRun(states, moves) && Init(states[0]) && k < |states|
    ensures Invariant(states[k])
  {
    if k > 0 {
      ReachableKeepsInvariant(states, moves, k - 1);
      NextKeepsInvariant(states[k - 1], moves[k - 1], states[k]);
    }
  }

  /** No mutation is missed: in every interleaving, after a change since the last snapshot a
      signal is queued, or the worker is between taking one and its snapshot, or the call that
      made the change still holds the lock and is about to signal. So whenever the worker waits
      on an empty channel and no call holds the lock, the last snapshot is the store, or there is
      none and the store is as it was loaded. */
  lemma NoChangeIsLost(states: seq<State>, moves: seq<Move>, k: nat)
    requires IsRun(states, moves) && Init(states[0]) && k < |states|
    ensures var s := states[k];
      && (s.stale ==> s.signal || s.worker.Debouncing? || s.worker.Locking? || s.worker.Copying? || SignalDue(s))
      && (s.worker.Waiting? && !s.signal && s.writer == None ==> UpToDate(s))
      && Indexed(s.items)
  {
    ReachableKeepsInvariant(states, moves, k);
  }

  /** A snapshot is taken between whole calls: nobody holds the lock, and it is the store. */
  lemma SnapshotsAreWhole(states: seq<State>, moves: seq<Move>, k: nat)
    requires IsRun(states, moves) && Init(states[0]) && k < |moves| && moves[k].Work? && states[k].worker.Copying?
    ensures states[k + 1].saved == Some(states[k].items) && Indexed(states[k].items)
    ensures forall t :: 0 <= t < |states[k].calls| ==> !HoldsLock(states[k].calls[t])
  {
    ReachableKeepsInvariant(states, moves, k);
    assert Next(states[k], moves[k], states[k + 1]);
  }

  // ---- What the store holds ----

  /** The operations of the calls, in the order in which they hold the lock. */
  function Done(states: seq<State>, moves: seq<Move>, k: nat): seq<Op>
    requires k <= |moves| <= |states|
  {
    if k == 0 then []
    else
      var s, move := states[k - 1], moves[k - 1];
      Done(states, moves, k - 1)
      + if Performs(s, move) then [move.op] else []
  }

  lemma {:induction false} RunAppend(items: seq<Item>, ops: seq<Op>, op: Op)
    ensures TodoItems.Run(items, ops + [op]) == Apply(TodoItems.Run(items, ops), op)
    decreases |ops|
  {
    if ops == [] {
      assert ops + [op] == [op] && [op][1..] == [];
    } else {
      assert (ops + [op])[1..] == ops[1..] + [op];
      RunAppend(Apply(items, ops[0]), ops[1..], op);
    }
  }

  lemma UnknownChangesNothing(items: seq<Item>, op: Op)
    requires !Succeeds(items, op)
    ensures Apply(items, op) == items
  {
    if op.DeleteOp? {
      DeletedAbsent(items, op.id);
    } else {
      assert forall i :: 0 <= i < |items| ==> items[i].id != op.id;
    }
  }

  predicate Performs(s: State, move: Move) {
    move.Step? && move.t < |s.calls| && s.calls[move.t].Holding?
  }

  predicate ItemsMove(s: State, move: Move, s': State) {
    s'.items == if Performs(s, move) then Apply(s.items, move.op) else s.items
  }

  lemma MoveChangesItems(s: State, move: Move, s': State)
    requires Next(s, move, s')
    ensures ItemsMove(s, move, s')
  {
    if Performs(s, move) && !Succeeds(s.items, move.op) {
      UnknownChangesNothing(s.items, move.op);
    }
  }

  predicate ItemsFollow(states: seq<State>, moves: seq<Move>) {
    && |states| == |moves| + 1
    && forall k :: 0 <= k < |moves| ==> ItemsMove(states[k], moves[k], states[k + 1])
  }

  lemma DoneMove(before: seq<Item>, done: seq<Op>, s: State, move: Move, s': State)
    requires ItemsMove(s, move, s') && s.items == TodoItems.Run(before, done)
    ensures s'.items == TodoItems.Run(before, done + if Performs(s, move) then [move.op] else [])
  {
    if Performs(s, move) {
      RunAppend(before, done, move.op);
    } else {
      assert done + [] == done;
    }
  }

  lemma {:induction false} ItemsAddUp(states: seq<State>, moves: seq<Move>, k: nat)
    requires ItemsFollow(states, moves) && k < |states|
    ensures states[k].items == TodoItems.Run(states[0].items, Done(states, moves, k))
  {
    if k > 0 {
      ItemsAddUp(states, moves, k - 1);
      assert ItemsMove(states[k - 1], moves[k - 1], states[k - 1 + 1]);
      DoneMove(states[0].items, Done(states, moves, k - 1), states[k - 1], moves[k - 1], states[k]);
    }
  }

  /** In every interleaving the store is what the operations of the calls, one after the other in
      lock order, make of what was loaded. */
  lemma StoreIsWhatWasDone(states: seq<State>, moves: seq<Move>, k: nat)
    requires IsRun(states, moves) && k < |states|
    ensures states[k].items == TodoItems.Run(states[0].items, Done(states, moves, k))
  {
    forall j | 0 <= j < |moves|
      ensures ItemsMove(states[j], moves[j], states[j + 1])
    {
      MoveChangesItems(states[j], moves[j], states[j + 1]);
    }
    ItemsAddUp(states, moves, k);
  }

  // ---- Coming to rest ----

  function CallRank(at: CallAt): nat {
    match at case Idle => 0 case Wanting => 9 case Holding => 8 case Changed => 7 case Unlocking => 1
  }

  function WorkerRank(at: WorkerAt): nat {
    match at case Waiting => 0 case Debouncing => 4 case Locking => 3 case Copying => 2 case Saving => 1
  }

  /** An upper bound on the steps left before everything rests, if no call begins. */
  function WorkLeft(s: State): nat {
    SumBy(s.calls, CallRank) + WorkerRank(s.worker) + (if s.signal then 5 else 0)
  }

  lemma CallUsesWork(s: State, t: nat, op: Op, s': State)
    requires t < |s.calls| && CallStep(s, t, op, s')
    ensures WorkLeft(s') < WorkLeft(s)
  {
    var q := match s.calls[t]
      case Idle => Idle
      case Wanting => Holding
      case Holding => if Succeeds(s.items, op) then Changed else Unlocking
      case Changed => Unlocking
      case Unlocking => Idle;
    assert s'.calls == s.calls[t := q] && s'.worker == s.worker;
    SumByUpdate(s.calls, t, q, CallRank);
  }

  lemma StepUsesWork(s: State, move: Move, s': State)
    requires Next(s, move, s')
    ensures if move.Begin? then WorkLeft(s') == WorkLeft(s) + CallRank(Wanting) else WorkLeft(s') < WorkLeft(s)
  {
    match move
    case Begin(t) => SumByUpdate(s.calls, t, Wanting, CallRank);
    case Step(t, op) => CallUsesWork(s, t, op, s');
    case Work(timerFires) =>
  }

  function Begins(moves: seq<Move>): nat {
    if moves == [] then 0 else (if moves[0].Begin? then 1 else 0) + Begins(moves[1..])
  }

  /** Every run comes to rest unless calls keep beginning. */
  lemma {:induction false} EveryRunIsBounded(states: seq<State>, moves: seq<Move>)
    requires IsRun(states, moves)
    ensures |moves| - Begins(moves) + WorkLeft(states[|moves|])
         <= WorkLeft(states[0]) + CallRank(Wanting) * Begins(moves)
  {
    if moves != [] {
      assert Next(states[0], moves[0], states[1]);
      StepUsesWork(states[0], moves[0], states[1]);
      var later, rest := states[1..], moves[1..];
      forall k | 0 <= k < |rest|
        ensures Next(later[k], rest[k], later[k + 1])
      {
        assert Next(states[k + 1], moves[k + 1], states[k + 2]);
      }
      EveryRunIsBounded(later, rest);
    }
  }

  /** Nothing but the beginning of a call can happen. */
  ghost predicate AtRest(s: State) {
    forall move, s' :: Next(s, move, s') ==> move.Begin?
  }

  lemma RestNeedsQuiet(s: State)
    requires Invariant(s) && AtRest(s)
    ensures s.worker.Waiting? && !s.signal && s.writer == None
    ensures forall t :: 0 <= t < |s.calls| ==> s.calls[t] == Idle
  {
    var nop := DeleteOp("");
    if s.writer.Some? {
      var t := s.writer.value;
      assert HoldsLock(s.calls[t]);
      var s' := if s.calls[t].Changed? then At(s.(signal := true), t, Unlocking)
                else if s.calls[t].Unlocking? then At(s.(writer := None), t, Idle)
                else if Succeeds(s.items, nop) then At(s.(items := Apply(s.items, nop), stale := true), t, Changed)
                else At(s, t, Unlocking);
      assert Next(s, Step(t, nop), s');
    } else {
      var s' := match s.worker
        case Waiting => s.(signal := false, worker := Debouncing)
        case Debouncing => s.(worker := Locking)
        case Locking => s.(worker := Copying)
        case Copying => s.(saved := Some(s.items), stale := false, worker := Saving)
        case Saving => s.(worker := Waiting);
      if !s.worker.Waiting? || s.signal {
        assert Next(s, Work(true), s');
      }
      forall t | 0 <= t < |s.calls|
        ensures s.calls[t] == Idle
      {
        assert HoldsLock(s.calls[t]) <==> s.writer == Some(t);
        if s.calls[t].Wanting? {
          assert Next(s, Step(t, nop), At(s.(writer := Some(t)), t, Holding));
        }
      }
    }
  }

  /** A signal that comes while the worker waits for its timer can start the wait again. */
  lemma BurstsCollapse(s: State)
    requires s.worker.Debouncing? && s.signal
    ensures exists s' :: Next(s, Work(false), s') && s'.worker.Debouncing? && !s'.signal && s'.items == s.items
  {
    assert Next(s, Work(false), s.(signal := false));
  }

  /** Whenever everything has come to rest, the last snapshot is the store, or there is none and
      the store is as it was loaded. */
  lemma AtRestAllIsSaved(states: seq<State>, moves: seq<Move>, k: nat)
    requires IsRun(states, moves) && Init(states[0]) && k < |states| && AtRest(states[k])
    ensures UpToDate(states[k])
  {
    ReachableKeepsInvariant(states, moves, k);
    RestNeedsQuiet(states[k]);
  }
}
