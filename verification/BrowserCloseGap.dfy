// The converse of BrowserCloseOrder: when a gap may open after a close, some run opens it. And a
// run from the start that gets there.
module BrowserCloseGap {
  import opened Sequences
  import opened BrowserStream
  import opened BrowserSteps
  import opened BrowserCloseOrder

  /** Some run goes from s to s'. */
  ghost predicate Leads(s: State, s': State) {
    exists states, moves :: IsRun(states, moves) && states[0] == s && states[|moves|] == s'
  }

  lemma LeadsNowhere(s: State)
    ensures Leads(s, s)
  {
    var states, moves: seq<Move> := [s], [];
    assert IsRun(states, moves) && states[|moves|] == s;
  }

  lemma LeadsOneMore(s: State, s1: State, move: Move, s2: State)
    requires Leads(s, s1) && Next(s1, move, s2)
    ensures Leads(s, s2)
  {
    var states, moves :| IsRun(states, moves) && states[0] == s && states[|moves|] == s1;
    var longer, more := states + [s2], moves + [move];
    forall i | 0 <= i < |more|
      ensures Next(longer[i], more[i], longer[i + 1])
    {
      assert i < |moves| ==> Next(states[i], moves[i], states[i + 1]);
    }
    assert IsRun(longer, more) && longer[|more|] == s2;
  }

  /** Thread t, whose position is p, acts in a run from s that has reached s1. */
  lemma LeadsByAct(s: State, s1: State, t: nat, q: Pc, b: Shared) returns (s2: State)
    requires Leads(s, s1) && t < |s1.pcs| && ThreadStep(s1.pcs[t], s1.shared, t, q, b)
    ensures s2 == State(s1.pcs[t := q], b) && Leads(s, s2)
  {
    s2 := State(s1.pcs[t := q], b);
    LeadsOneMore(s, s1, Act(t, q), s2);
  }

  lemma LeadsByBegin(s: State, s1: State, t: nat, q: Pc) returns (s2: State)
    requires Leads(s, s1) && t < |s1.pcs| && s1.pcs[t] == Idle && IsEntry(q, s1.shared.closed)
    ensures s2 == State(s1.pcs[t := q], s1.shared) && Leads(s, s2)
  {
    s2 := State(s1.pcs[t := q], s1.shared);
    LeadsOneMore(s, s1, Begin(t, q), s2);
  }

  const FOUR_IDLE: State := State([Idle, Idle, Idle, Idle], UNUSED)

  /** A read of up to 8 bytes parks in its select. */
  lemma ReadParks() returns (s: State)
    ensures s == State([Reading(ReadSelect, 8, false), Idle, Idle, Idle], UNUSED.(readMu := Some(0)))
    ensures Leads(FOUR_IDLE, s)
  {
    var a := UNUSED.(readMu := Some(0));
    LeadsNowhere(FOUR_IDLE);
    s := LeadsByBegin(FOUR_IDLE, FOUR_IDLE, 0, Reading(ReadLock, 8, false));
    s := LeadsByAct(FOUR_IDLE, s, 0, Reading(ReadCheck, 8, false), a);
    s := LeadsByAct(FOUR_IDLE, s, 0, Reading(ReadTail, 8, false), a);
    s := LeadsByAct(FOUR_IDLE, s, 0, Reading(ReadLockQueue, 8, false), a);
    s := LeadsByAct(FOUR_IDLE, s, 0, Reading(ReadPop, 8, false), a.(queueMu := Some(0)));
    s := LeadsByAct(FOUR_IDLE, s, 0, Reading(ReadSelect, 8, false), a);
  }

  /** Thread 2 passes the closed check with [2]; thread 1 queues [1] and signals. */
  lemma OneMessageQueued() returns (s: State)
    ensures s == State([Reading(ReadSelect, 8, false), Idle, Storing(StoreLock, [2]), Idle],
                       UNUSED.(readMu := Some(0), queue := [[1]], accepted := [1], token := true))
    ensures Leads(FOUR_IDLE, s)
  {
    s := ReadParks();
    var a := s.shared;
    s := LeadsByBegin(FOUR_IDLE, s, 2, Storing(StoreCheck, [2]));
    s := LeadsByAct(FOUR_IDLE, s, 2, Storing(StoreLock, [2]), a);
    s := LeadsByBegin(FOUR_IDLE, s, 1, Storing(StoreCheck, [1]));
    s := LeadsByAct(FOUR_IDLE, s, 1, Storing(StoreLock, [1]), a);
    s := LeadsByAct(FOUR_IDLE, s, 1, Storing(StoreHold, [1]), a.(queueMu := Some(1)));
    s := LeadsByAct(FOUR_IDLE, s, 1, Storing(StoreSignal, [1]), a.(queue := [[1]], accepted := [1]));
    s := LeadsByAct(FOUR_IDLE, s, 1, Idle, a.(queue := [[1]], accepted := [1], token := true));
  }

  /** Thread 3 closes and clears the queue; thread 2 then appends its message. */
  lemma LateAppend() returns (s: State)
    ensures s == State([Reading(ReadSelect, 8, false), Idle, Storing(StoreSignal, [2]), Closing(CloseTry)],
                       UNUSED.(readMu := Some(0), queue := [[2]], accepted := [1, 2], token := true,
                               closed := true, once := Running(3), cut := Some(Cut(0, 1))))
    ensures Leads(FOUR_IDLE, s)
  {
    s := OneMessageQueued();
    var a := s.shared.(once := Running(3));
    s := LeadsByBegin(FOUR_IDLE, s, 3, Closing(CloseEnter));
    s := LeadsByAct(FOUR_IDLE, s, 3, Closing(CloseFlag), a);
    var b := a.(closed := true);
    s := LeadsByAct(FOUR_IDLE, s, 3, Closing(CloseLockQueue), b);
    s := LeadsByAct(FOUR_IDLE, s, 3, Closing(CloseClear), b.(queueMu := Some(3)));
    assert Flatten([[1 as bv8]]) == [1];
    var c := b.(queue := [], cut := Some(Cut(0, 1)));
    s := LeadsByAct(FOUR_IDLE, s, 3, Closing(CloseTry), c);
    s := LeadsByAct(FOUR_IDLE, s, 2, Storing(StoreHold, [2]), c.(queueMu := Some(2)));
    s := LeadsByAct(FOUR_IDLE, s, 2, Storing(StoreSignal, [2]), c.(queue := [[2]], accepted := [1, 2]));
  }

  /** From the start, a close can leave a gap: the parked read delivers [2] although [1], accepted
      before it, was dropped. */
  lemma CloseCanLeaveGap()
    ensures Init(FOUR_IDLE)
    ensures exists s :: Leads(FOUR_IDLE, s) && Gap(s.shared) && s.shared.accepted == [1, 2] && s.shared.delivered == [2]
  {
    var s := LateAppend();
    s := TakerReachesQueue(FOUR_IDLE, s, 0);
    s := TakesQueued(FOUR_IDLE, s, 0, [2]);
    assert s.shared.delivered == [2];
  }

  // ---- Every gap that may open opens in some run ----

  /** A store past its closed check puts its message into the emptied queue. */
  lemma StoreLands(s0: State, s: State, u: nat, m: Message) returns (s': State)
    requires Leads(s0, s) && u < |s.pcs| && s.pcs[u] == Storing(StoreLock, m)
    requires s.shared.queueMu == None && s.shared.queue == [] && |m| <= MAX_QUEUED_BYTES
    ensures Leads(s0, s')
    ensures s' == State(s.pcs[u := Idle], s.shared.(queue := [m], accepted := s.shared.accepted + m, token := true))
  {
    var a := s.shared;
    s' := LeadsByAct(s0, s, u, Storing(StoreHold, m), a.(queueMu := Some(u)));
    s' := LeadsByAct(s0, s', u, Storing(StoreSignal, m), a.(queue := [m], accepted := a.accepted + m));
    s' := LeadsByAct(s0, s', u, Idle, a.(queue := [m], accepted := a.accepted + m, token := true));
  }

  /** A read on its way to the queue gets there once there is a token. */
  lemma TakerReachesQueue(s0: State, s: State, r: nat) returns (s': State)
    requires Leads(s0, s) && r < |s.pcs| && LateTaker(s.pcs[r], s.shared) && !s.pcs[r].read.ReadPop? && s.shared.token
    ensures Leads(s0, s') && r < |s'.pcs| && s'.pcs[r] == s.pcs[r].(read := ReadLockQueue)
    ensures s'.shared == s.shared || s'.shared == s.shared.(token := false)
  {
    s' := s;
    var p := s.pcs[r];
    if p.read.ReadTail? {
      s' := LeadsByAct(s0, s, r, p.(read := ReadLockQueue), s.shared);
    } else if p.read.ReadSelect? {
      s' := LeadsByAct(s0, s, r, p.(read := ReadLockQueue), s.shared.(token := false));
    }
  }

  /** There it takes the one message and hands out what fits. */
  lemma TakesQueued(s0: State, s: State, r: nat, m: Message) returns (s': State)
    requires Leads(s0, s) && r < |s.pcs| && s.pcs[r].Reading? && s.pcs[r].read.ReadLockQueue?
    requires s.shared.queue == [m] && s.shared.queueMu == None
    ensures Leads(s0, s') && s'.shared.cut == s.shared.cut && s'.shared.accepted == s.shared.accepted
    ensures s'.shared.closed == s.shared.closed
    ensures s'.shared.delivered == s.shared.delivered + m[..Min(s.pcs[r].size, |m|)]
  {
    var p, a := s.pcs[r], s.shared;
    var k := Min(p.size, |m|);
    s' := LeadsByAct(s0, s, r, p.(read := ReadPop), a.(queueMu := Some(r)));
    s' := LeadsByAct(s0, s', r, p.(read := ReadSplit(m)), a.(queue := []));
    s' := LeadsByAct(s0, s', r, p.(read := ReadUnlock),
      a.(queue := [], delivered := a.delivered + m[..k], tail := if k < |m| then m[k..] else a.tail));
  }

  /** What the state before the clear says about the store and the read that are on their way:
      both still have to get the queue lock, and all bytes that survive are delivered. */
  lemma OnTheirWay(s: State, t: nat, u: nat, r: nat)
    requires BrowserSteps.Invariant(s) && t < |s.pcs| && s.pcs[t] == Closing(CloseClear)
    requires u < |s.pcs| && LateStore(s.pcs[u]) && r < |s.pcs| && LateTaker(s.pcs[r], s.shared)
    ensures s.pcs[u] == Storing(StoreLock, s.pcs[u].m) && !s.pcs[r].read.ReadPop?
    ensures |s.shared.delivered| == |s.shared.accepted| - |Flatten(s.shared.queue)|
  {
    assert HoldsAsPlaced(s.pcs[t], s.shared, t) && HoldsAsPlaced(s.pcs[u], s.shared, u);
    assert HoldsAsPlaced(s.pcs[r], s.shared, r) && PlacedWell(s.pcs[r], s.shared);
    assert s.shared.cut == None;
  }

  lemma GapOpens(s: State, move: Move, s': State) returns (s2: State)
    requires BrowserSteps.Invariant(s) && Next(s, move, s') && Clears(s, move) && MayLeaveGap(s)
    ensures Leads(s', s2) && Gap(s2.shared)
  {
    var u :| 0 <= u < |s.pcs| && LateStore(s.pcs[u]);
    var r :| 0 <= r < |s.pcs| && LateTaker(s.pcs[r], s.shared);
    OnTheirWay(s, move.t, u, r);
    var m := s.pcs[u].m;
    LeadsNowhere(s');
    s2 := StoreLands(s', s', u, m);
    s2 := TakerReachesQueue(s', s2, r);
    s2 := TakesQueued(s', s2, r, m);
  }

  /** Exactly when a gap can open. Of a run whose move i clears the queue: some continuation
      delivers a byte accepted behind the dropped ones if and only if, in the state the clear
      meets, the queue holds bytes, a store with bytes that fit an empty queue is past its closed
      check, and a read into a non-empty buffer is past its own and on its way to the queue. */
  lemma GapIsExact(states: seq<State>, moves: seq<Move>, i: nat)
    requires IsRun(states, moves) && Init(states[0]) && i < |moves| && Clears(states[i], moves[i])
    ensures MayLeaveGap(states[i]) <==> exists s :: Leads(states[i + 1], s) && Gap(s.shared)
  {
    ReachableKeepsInvariant(states, moves, i);
    ReachableKeepsInvariant(states, moves, i + 1);
    if MayLeaveGap(states[i]) {
      var s := GapOpens(states[i], moves[i], states[i + 1]);
    } else {
      ClearLeavesNoGapAhead(states[i], moves[i], states[i + 1]);
      forall s | Leads(states[i + 1], s)
        ensures !Gap(s.shared)
      {
        var later, rest :| IsRun(later, rest) && later[0] == states[i + 1] && later[|rest|] == s;
        NoGapAlong(later, rest, |rest|);
        SameThreads(later, rest, |rest|);
        NoGapAheadMeansNone(s);
      }
    }
  }

  lemma {:induction false} SameThreads(states: seq<State>, moves: seq<Move>, j: nat)
    requires IsRun(states, moves) && j < |states|
    ensures |states[j].pcs| == |states[0].pcs|
  {
    if j > 0 {
      SameThreads(states, moves, j - 1);
      assert Next(states[j - 1], moves[j - 1], states[j]);
    }
  }
}
