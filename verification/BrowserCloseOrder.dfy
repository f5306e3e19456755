// What a close leaves of the stream order of the interleaved browser connection, for every run:
// when order survives, and the one kind of gap that can open when it does not.
module BrowserCloseOrder {
  import opened Sequences
  import opened BrowserStream
  import opened BrowserSteps

  /** The move in which closeChannels clears the queue. */
  predicate Clears(s: State, move: Move) {
    move.Act? && move.t < |s.pcs| && s.pcs[move.t] == Closing(CloseClear)
  }

  predicate Appending(p: Pc) { p.Storing? && (p.store.StoreLock? || p.store.StoreHold?) }

  predicate SomeAppending(pcs: seq<Pc>) {
    exists t :: 0 <= t < |pcs| && Appending(pcs[t])
  }

  /** A byte accepted after those that the clear cut out was delivered. */
  predicate Gap(a: Shared) {
    a.cut.Some? && a.cut.value.from < a.cut.value.to && |a.delivered| > a.cut.value.from
  }

  /** A store past its closed check with bytes that fit into an emptied queue. */
  predicate LateStore(p: Pc) { Appending(p) && p.m != [] && |p.m| <= MAX_QUEUED_BYTES }

  /** A read into a non-empty buffer that is past its closed check and has found no tail and no
      message so far. */
  predicate LateTaker(p: Pc, a: Shared) {
    && p.Reading? && p.size > 0
    && ((p.read.ReadTail? && a.tail == []) || p.read.ReadLockQueue? || p.read.ReadPop? || p.read.ReadSelect?)
  }

  predicate SomeLateStore(pcs: seq<Pc>) {
    exists t :: 0 <= t < |pcs| && LateStore(pcs[t])
  }

  predicate SomeLateTaker(s: State) {
    exists t :: 0 <= t < |s.pcs| && LateTaker(s.pcs[t], s.shared)
  }

  /** What has to come together when the queue is cleared: it holds bytes, a store is on its way
      into it, and a read is on its way to it. */
  predicate MayLeaveGap(s: State) {
    Flatten(s.shared.queue) != [] && SomeLateStore(s.pcs) && SomeLateTaker(s)
  }

  /** How many bytes a read may still hand out without going to the queue. */
  function Due(p: Pc, a: Shared): nat {
    if !p.Reading? then 0
    else match p.read
      case ReadTail => Min(p.size, |a.tail|)
      case ReadSplit(m) => Min(p.size, |m|)
      case _ => 0
  }

  // ---- What a step can still do once the queue was cleared ----

  /** Nothing happens to the stream, and the thread is not inside a store or a read. */
  predicate LeavesStream(a: Shared, q: Pc, b: Shared) {
    && b.cut == a.cut && b.accepted == a.accepted && b.queue == a.queue && b.delivered == a.delivered
    && !q.Storing? && !q.Reading?
  }

  lemma ReportAfterClear(at: ReportAt, e: Error, c: bool, a: Shared, t: nat, q: Pc, b: Shared)
    requires ReportStep(at, e, c, a, t, q, b)
    ensures LeavesStream(a, q, b) && b.tail == a.tail
  {
  }

  lemma CloseAfterClear(at: CloseAt, a: Shared, t: nat, q: Pc, b: Shared)
    requires CloseStep(at, a, t, q, b) && !at.CloseClear? && HoldsAsPlaced(Closing(at), a, t)
    ensures LeavesStream(a, q, b) && (b.tail == a.tail || (b.tail == [] && a.readMu == Some(t)))
  {
  }

  /** Only a store that had passed its closed check before can append. */
  lemma StoreAfterClear(at: StoreAt, m: Message, a: Shared, t: nat, q: Pc, b: Shared)
    requires StoreStep(at, m, a, t, q, b) && a.closed
    ensures b.cut == a.cut && b.delivered == a.delivered && b.tail == a.tail && !q.Reading?
    ensures Appending(q) ==> q.m == m && Appending(Storing(at, m))
    ensures || (b.queue == a.queue && b.accepted == a.accepted)
            || (Appending(Storing(at, m)) && |m| <= MAX_QUEUED_BYTES && b.queue == a.queue + [m])
  {
  }

  /** A read hands out no more than it holds, and goes to the queue only if it was on its way. */
  lemma ReadAfterClear(at: ReadAt, n: nat, l: bool, a: Shared, t: nat, q: Pc, b: Shared)
    requires ReadStep(at, n, l, a, t, q, b) && a.closed
    requires HoldsAsPlaced(Reading(at, n, l), a, t) && PlacedWell(Reading(at, n, l), a)
    ensures b.cut == a.cut && b.accepted == a.accepted && !q.Storing?
    ensures b.queue == a.queue || (a.queue != [] && b.queue == a.queue[1..])
    ensures b.delivered != a.delivered || b.tail != a.tail ==> a.readMu == Some(t)
    ensures !LateTaker(Reading(at, n, l), a) ==>
      !LateTaker(q, b) && |b.delivered| + Due(q, b) <= |a.delivered| + Due(Reading(at, n, l), a)
  {
  }

  lemma ReadKeepsHeld(at: ReadAt, n: nat, l: bool, a: Shared, t: nat, q: Pc, b: Shared)
    requires ReadStep(at, n, l, a, t, q, b) && PlacedWell(Reading(at, n, l), a) && Flatten(a.queue) == []
    ensures |b.delivered| + |Popped(q)| + |b.tail| <= |a.delivered| + |Popped(Reading(at, n, l))| + |a.tail|
  {
  }

  lemma NotClearTwice(s: State, t: nat)
    requires BrowserSteps.Invariant(s) && s.shared.cut.Some? && t < |s.pcs|
    ensures s.shared.closed && s.pcs[t] != Closing(CloseClear)
  {
    assert HoldsAsPlaced(s.pcs[t], s.shared, t);
  }

  // ---- No store between its closed check and its append ----

  /** The queue was cleared and nothing can enter it any more. */
  predicate Sealed(s: State) {
    && s.shared.cut.Some? && s.shared.cut.value.to == |s.shared.accepted|
    && s.shared.queue == []
    && !SomeAppending(s.pcs)
  }

  lemma StepKeepsSealed(p: Pc, a: Shared, t: nat, q: Pc, b: Shared)
    requires ThreadStep(p, a, t, q, b) && a.closed && p != Closing(CloseClear)
    requires HoldsAsPlaced(p, a, t) && PlacedWell(p, a)
    requires !Appending(p) && a.queue == []
    ensures !Appending(q) && b.queue == [] && b.accepted == a.accepted && b.cut == a.cut
  {
    match p
    case Storing(at, m) => StoreAfterClear(at, m, a, t, q, b);
    case Reporting(at, e, c) => ReportAfterClear(at, e, c, a, t, q, b);
    case Closing(at) => CloseAfterClear(at, a, t, q, b);
    case Reading(at, n, l) => ReadAfterClear(at, n, l, a, t, q, b);
  }

  lemma NextKeepsSealed(s: State, move: Move, s': State)
    requires BrowserSteps.Invariant(s) && Sealed(s) && Next(s, move, s')
    ensures Sealed(s')
  {
    var t := move.t;
    NotClearTwice(s, t);
    assert !Appending(s.pcs[t]) && HoldsAsPlaced(s.pcs[t], s.shared, t) && PlacedWell(s.pcs[t], s.shared);
    if move.Act? {
      StepKeepsSealed(s.pcs[t], s.shared, t, move.next, s'.shared);
    }
    assert forall u :: 0 <= u < |s'.pcs| && u != t ==> s'.pcs[u] == s.pcs[u];
  }

  lemma ClearSeals(s: State, move: Move, s': State)
    requires BrowserSteps.Invariant(s) && Next(s, move, s') && Clears(s, move) && !SomeAppending(s.pcs)
    ensures Sealed(s')
  {
    assert forall u :: 0 <= u < |s'.pcs| && u != move.t ==> s'.pcs[u] == s.pcs[u];
  }

  lemma {:induction false} SealedAlong(states: seq<State>, moves: seq<Move>, j: nat)
    requires IsRun(states, moves) && BrowserSteps.Invariant(states[0]) && Sealed(states[0]) && j < |states|
    ensures BrowserSteps.Invariant(states[j]) && Sealed(states[j])
  {
    if j > 0 {
      SealedAlong(states, moves, j - 1);
      NextKeepsInvariant(states[j - 1], moves[j - 1], states[j]);
      NextKeepsSealed(states[j - 1], moves[j - 1], states[j]);
    }
  }

  /** If no store is between its closed check and its append when a close clears the queue, order
      survives the close: in that state and every later one the queue is empty and the bytes
      delivered, popped and kept as tail are a prefix of the accepted ones. */
  lemma QuietClearKeepsOrder(states: seq<State>, moves: seq<Move>, i: nat, j: nat)
    requires IsRun(states, moves) && Init(states[0]) && i < |moves| && i < j < |states|
    requires Clears(states[i], moves[i]) && !SomeAppending(states[i].pcs)
    ensures var a := states[j].shared;
      a.queue == [] && a.delivered + Popped(Reader(states[j])) + a.tail <= a.accepted
  {
    ReachableKeepsInvariant(states, moves, i);
    ReachableKeepsInvariant(states, moves, i + 1);
    ClearSeals(states[i], moves[i], states[i + 1]);
    RunFrom(states, moves, i + 1);
    SealedAlong(states[i + 1..], moves[i + 1..], j - i - 1);
    EveryRunIsSafe(states, moves, j);
    var a := states[j].shared;
    assert Surviving(a) == a.accepted[..a.cut.value.from];
  }

  // ---- A gap is all that can happen ----

  /** Without a gap the delivered bytes are a prefix of the accepted ones; with one they continue,
      behind the stretch cut out, at the position where it ends. */
  predicate OrderedUpToGap(a: Shared)
    requires CutOk(a)
  {
    if !Gap(a) then a.delivered <= a.accepted
    else
      var from, to, n := a.cut.value.from, a.cut.value.to, |a.delivered|;
      to + (n - from) <= |a.accepted| && a.delivered == a.accepted[..from] + a.accepted[to..to + (n - from)]
  }

  lemma PrefixBehindCut(d: Message, accepted: Message, from: nat, to: nat)
    requires from <= to <= |accepted| && d <= accepted[..from] + accepted[to..]
    ensures from == to || |d| <= from ==> d <= accepted
    ensures |d| > from ==> to + (|d| - from) <= |accepted|
    ensures |d| > from ==> d == accepted[..from] + accepted[to..to + (|d| - from)]
  {
    var all := accepted[..from] + accepted[to..];
    assert d == all[..|d|];
    if from == to {
      assert all == accepted;
    } else if |d| <= from {
      assert all[..|d|] == accepted[..|d|];
    } else {
      assert all[..|d|] == accepted[..from] + accepted[to..][..|d| - from];
      assert accepted[to..][..|d| - from] == accepted[to..to + (|d| - from)];
    }
  }

  lemma KeptUpToGap(reader: Pc, a: Shared)
    requires StreamKept(reader, a)
    ensures OrderedUpToGap(a)
  {
    KeptInOrder(reader, a);
    assert a.delivered <= a.delivered + Popped(reader) + a.tail;
    if a.cut.Some? {
      PrefixBehindCut(a.delivered, a.accepted, a.cut.value.from, a.cut.value.to);
    }
  }

  /** In every reachable state, open or closed, a gap is all that can happen to the order. */
  lemma OrderUnlessGap(states: seq<State>, moves: seq<Move>, i: nat)
    requires IsRun(states, moves) && Init(states[0]) && i < |states|
    ensures CutOk(states[i].shared) && OrderedUpToGap(states[i].shared)
  {
    ReachableKeepsInvariant(states, moves, i);
    KeptUpToGap(Reader(states[i]), states[i].shared);
  }

  // ---- Without these three no gap opens ----

  /** No byte can enter the queue any more, and what is held besides it lies before the cut. */
  predicate NoLateBytes(s: State)
    requires s.shared.cut.Some?
  {
    && !SomeLateStore(s.pcs)
    && Flatten(s.shared.queue) == []
    && forall t :: 0 <= t < |s.pcs| ==>
         |s.shared.delivered| + |Popped(s.pcs[t])| + |s.shared.tail| <= s.shared.cut.value.from
  }

  /** No read into a non-empty buffer is on its way to the queue. */
  predicate NoLateReads(s: State)
    requires s.shared.cut.Some?
  {
    && !SomeLateTaker(s)
    && forall t :: 0 <= t < |s.pcs| ==> |s.shared.delivered| + Due(s.pcs[t], s.shared) <= s.shared.cut.value.from
  }

  predicate NoGapAhead(s: State) {
    s.shared.cut.Some? && (s.shared.cut.value.from == s.shared.cut.value.to || NoLateBytes(s) || NoLateReads(s))
  }

  lemma StepAddsNoLateBytes(p: Pc, a: Shared, t: nat, q: Pc, b: Shared)
    requires ThreadStep(p, a, t, q, b) && a.closed && p != Closing(CloseClear)
    requires HoldsAsPlaced(p, a, t) && PlacedWell(p, a) && !LateStore(p) && Flatten(a.queue) == []
    ensures !LateStore(q) && Flatten(b.queue) == [] && b.cut == a.cut
    ensures |b.delivered| + |Popped(q)| + |b.tail| <= |a.delivered| + |Popped(p)| + |a.tail|
    ensures b.delivered != a.delivered || b.tail != a.tail ==> a.readMu == Some(t)
  {
    match p
    case Storing(at, m) =>
      StoreAfterClear(at, m, a, t, q, b);
      FlattenAppend(a.queue, m);
    case Reporting(at, e, c) => ReportAfterClear(at, e, c, a, t, q, b);
    case Closing(at) => CloseAfterClear(at, a, t, q, b);
    case Reading(at, n, l) =>
      ReadAfterClear(at, n, l, a, t, q, b);
      ReadKeepsHeld(at, n, l, a, t, q, b);
  }

  lemma NextKeepsNoLateBytes(s: State, move: Move, s': State)
    requires BrowserSteps.Invariant(s) && Next(s, move, s') && s.shared.cut.Some? && NoLateBytes(s)
    ensures s'.shared.cut == s.shared.cut && NoLateBytes(s')
  {
    var t := move.t;
    NotClearTwice(s, t);
    assert !LateStore(s.pcs[t]) && PlacedWell(s.pcs[t], s.shared) && HoldsAsPlaced(s.pcs[t], s.shared, t);
    if move.Act? {
      StepAddsNoLateBytes(s.pcs[t], s.shared, t, move.next, s'.shared);
    }
    forall u | 0 <= u < |s'.pcs|
      ensures !LateStore(s'.pcs[u])
      ensures |s'.shared.delivered| + |Popped(s'.pcs[u])| + |s'.shared.tail| <= s.shared.cut.value.from
    {
      if u != t {
        assert s'.pcs[u] == s.pcs[u] && HoldsAsPlaced(s.pcs[u], s.shared, u) && !LateStore(s.pcs[u]);
      }
    }
  }

  lemma StepAddsNoLateReads(p: Pc, a: Shared, t: nat, q: Pc, b: Shared)
    requires ThreadStep(p, a, t, q, b) && a.closed && p != Closing(CloseClear)
    requires PlacedWell(p, a) && HoldsAsPlaced(p, a, t) && !LateTaker(p, a)
    ensures !LateTaker(q, b) && b.cut == a.cut
    ensures |b.delivered| + Due(q, b) <= |a.delivered| + Due(p, a)
    ensures b.delivered != a.delivered || b.tail != a.tail ==> a.readMu == Some(t)
  {
    match p
    case Storing(at, m) => StoreAfterClear(at, m, a, t, q, b);
    case Reporting(at, e, c) => ReportAfterClear(at, e, c, a, t, q, b);
    case Closing(at) => CloseAfterClear(at, a, t, q, b);
    case Reading(at, n, l) => ReadAfterClear(at, n, l, a, t, q, b);
  }

  lemma NextKeepsNoLateReads(s: State, move: Move, s': State)
    requires BrowserSteps.Invariant(s) && Next(s, move, s') && s.shared.cut.Some? && NoLateReads(s)
    ensures s'.shared.cut == s.shared.cut && NoLateReads(s')
  {
    var t := move.t;
    NotClearTwice(s, t);
    assert !LateTaker(s.pcs[t], s.shared) && PlacedWell(s.pcs[t], s.shared) && HoldsAsPlaced(s.pcs[t], s.shared, t);
    if move.Act? {
      StepAddsNoLateReads(s.pcs[t], s.shared, t, move.next, s'.shared);
    }
    forall u | 0 <= u < |s'.pcs|
      ensures !LateTaker(s'.pcs[u], s'.shared)
      ensures |s'.shared.delivered| + Due(s'.pcs[u], s'.shared) <= s.shared.cut.value.from
    {
      if u != t {
        assert s'.pcs[u] == s.pcs[u] && HoldsAsPlaced(s.pcs[u], s.shared, u) && !LateTaker(s.pcs[u], s.shared);
      }
    }
  }

  lemma NextKeepsNoGapAhead(s: State, move: Move, s': State)
    requires BrowserSteps.Invariant(s) && Next(s, move, s') && NoGapAhead(s)
    ensures NoGapAhead(s')
  {
    if NoLateBytes(s) {
      NextKeepsNoLateBytes(s, move, s');
    } else if NoLateReads(s) {
      NextKeepsNoLateReads(s, move, s');
    } else {
      NotClearTwice(s, move.t);
      assert s'.shared.cut == s.shared.cut;
    }
  }

  lemma HeldBeforeClear(s: State, u: nat)
    requires BrowserSteps.Invariant(s) && s.shared.cut == None && u < |s.pcs|
    ensures var a := s.shared;
      && |a.delivered| + |Popped(s.pcs[u])| + |a.tail| <= |a.accepted| - |Flatten(a.queue)|
      && Due(s.pcs[u], a) <= |Popped(s.pcs[u])| + |a.tail|
  {
    assert HoldsAsPlaced(s.pcs[u], s.shared, u);
  }

  /** The step of the clear itself. */
  lemma ClearLeavesNoGapAhead(s: State, move: Move, s': State)
    requires BrowserSteps.Invariant(s) && Next(s, move, s') && Clears(s, move) && !MayLeaveGap(s)
    ensures NoGapAhead(s')
  {
    var t := move.t;
    assert HoldsAsPlaced(s.pcs[t], s.shared, t);
    forall u | 0 <= u < |s.pcs|
      ensures |s.shared.delivered| + |Popped(s.pcs[u])| + |s.shared.tail| <= s'.shared.cut.value.from
      ensures Due(s.pcs[u], s.shared) <= |Popped(s.pcs[u])| + |s.shared.tail|
    {
      HeldBeforeClear(s, u);
    }
    assert s'.pcs[t] == Closing(CloseTry) && forall u :: 0 <= u < |s'.pcs| && u != t ==> s'.pcs[u] == s.pcs[u];
  }

  lemma {:induction false} NoGapAlong(states: seq<State>, moves: seq<Move>, j: nat)
    requires IsRun(states, moves) && BrowserSteps.Invariant(states[0]) && NoGapAhead(states[0]) && j < |states|
    ensures BrowserSteps.Invariant(states[j]) && NoGapAhead(states[j])
  {
    if j > 0 {
      NoGapAlong(states, moves, j - 1);
      NextKeepsInvariant(states[j - 1], moves[j - 1], states[j]);
      NextKeepsNoGapAhead(states[j - 1], moves[j - 1], states[j]);
    }
  }

  lemma NoGapAheadMeansNone(s: State)
    requires NoGapAhead(s) && |s.pcs| > 0
    ensures !Gap(s.shared)
  {
    assert NoLateBytes(s) ==> |s.shared.delivered| + |Popped(s.pcs[0])| + |s.shared.tail| <= s.shared.cut.value.from;
    assert NoLateReads(s) ==> |s.shared.delivered| + Due(s.pcs[0], s.shared) <= s.shared.cut.value.from;
  }
}
