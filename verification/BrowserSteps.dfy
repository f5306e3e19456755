// The browser connection step by step: any number of threads, each inside one call, share
// the queue, the tail, the two channels and three locks. One step is one atomic access or
// one critical section's body together with its unlock.
module BrowserSteps {
  import opened Sequences
  import opened BrowserStream

  // Where a thread is inside storeIncomingMessage, storeConnectionError, closeChannels, Read.
  datatype StoreAt = StoreCheck | StoreLock | StoreHold | StoreSignal
  datatype ReportAt = ErrCheck | ErrLock | ErrRecheck | ErrSend | ErrUnlock
  datatype CloseAt =
    | CloseEnter | CloseFlag | CloseLockQueue | CloseClear | CloseTry | CloseTail
    | CloseLockErr | CloseAwaitReaders | CloseChannel | CloseUnlockErr | CloseDone
  datatype ReadAt =
    | ReadLock | ReadCheck | ReadTail | ReadLockQueue | ReadPop | ReadSplit(m: Message) | ReadSelect | ReadUnlock

  /** The call a thread is inside. An error report made by the overflow handling closes the
      connection next; a read is late if it began after the closed flag was set. */
  datatype Pc =
    | Idle
    | Storing(store: StoreAt, m: Message)
    | Reporting(report: ReportAt, e: Error, thenClose: bool)
    | Closing(close: CloseAt)
    | Reading(read: ReadAt, size: nat, late: bool)

  datatype Once = NotStarted | Running(t: nat) | Done

  /** The accepted bytes at positions from (inclusive) to to (exclusive) were in the queue when a
      close cleared it. */
  datatype Cut = Cut(from: int, to: int)

  /** Everything the threads share, with the bytes accepted and delivered so far and what the
      close has cut out of them. */
  datatype Shared = Shared(
    closed: bool, queue: seq<Message>, tail: Message, token: bool,
    errors: seq<Error>, errorsClosed: bool, panicked: bool,
    queueMu: Option<nat>, readMu: Option<nat>, errReaders: set<nat>, errWriter: Option<nat>, once: Once,
    accepted: Message, delivered: Message, cut: Option<Cut>)

  datatype State = State(pcs: seq<Pc>, shared: Shared)

  const UNUSED: Shared :=
    Shared(false, [], [], false, [], false, false, None, None, {}, None, NotStarted, [], [], None)

  predicate HoldsQueue(p: Pc) {
    (p.Storing? && p.store.StoreHold?) || (p.Closing? && p.close.CloseClear?) || (p.Reading? && p.read.ReadPop?)
  }

  predicate HoldsRead(p: Pc) {
    (p.Closing? && p.close.CloseTail?) || (p.Reading? && !p.read.ReadLock?)
  }

  predicate HoldsErrRead(p: Pc) {
    p.Reporting? && (p.report.ErrRecheck? || p.report.ErrSend? || p.report.ErrUnlock?)
  }

  predicate HoldsErrWrite(p: Pc) {
    p.Closing? && (p.close.CloseAwaitReaders? || p.close.CloseChannel? || p.close.CloseUnlockErr?)
  }

  predicate InOnce(p: Pc) { p.Closing? && !p.close.CloseEnter? }

  function AfterReport(thenClose: bool): Pc { if thenClose then Closing(CloseEnter) else Idle }

  /** The positions an idle thread may enter: a message arrives, an error is reported, the
      connection is closed, or a read begins. */
  predicate IsEntry(p: Pc, closed: bool) {
    match p
    case Idle => false
    case Storing(at, _) => at.StoreCheck?
    case Reporting(at, _, thenClose) => at.ErrCheck? && !thenClose
    case Closing(at) => at.CloseEnter?
    case Reading(at, _, late) => at.ReadLock? && late == closed
  }

  // ---- Steps of thread t: from a place in a call and shared state a to position q and state b ----

  predicate StoreStep(at: StoreAt, m: Message, a: Shared, t: nat, q: Pc, b: Shared) {
    match at
    case StoreCheck => b == a && q == if a.closed then Idle else Storing(StoreLock, m)
    case StoreLock => a.queueMu == None && b == a.(queueMu := Some(t)) && q == Storing(StoreHold, m)
    case StoreHold =>
      if Fits(a.queue, m)
      then b == a.(queue := a.queue + [m], accepted := a.accepted + m, queueMu := None) && q == Storing(StoreSignal, m)
      else b == a.(queueMu := None) && q == Reporting(ErrCheck, OverflowError(a.queue, m), true)
    case StoreSignal => b == a.(token := true) && q == Idle
  }

  predicate ReportStep(at: ReportAt, e: Error, c: bool, a: Shared, t: nat, q: Pc, b: Shared) {
    match at
    case ErrCheck => b == a && q == if a.closed then AfterReport(c) else Reporting(ErrLock, e, c)
    case ErrLock =>
      a.errWriter == None && b == a.(errReaders := a.errReaders + {t}) && q == Reporting(ErrRecheck, e, c)
    case ErrRecheck => b == a && q == Reporting(if a.closed then ErrUnlock else ErrSend, e, c)
    case ErrSend =>
      && b == (if a.errorsClosed then a.(panicked := true)
               else if |a.errors| < ERROR_CAPACITY then a.(errors := a.errors + [e]) else a)
      && q == Reporting(ErrUnlock, e, c)
    case ErrUnlock => b == a.(errReaders := a.errReaders - {t}) && q == AfterReport(c)
  }

  function ClearedCut(a: Shared): Cut { Cut(|a.accepted| - |Flatten(a.queue)|, |a.accepted|) }

  predicate CloseStep(at: CloseAt, a: Shared, t: nat, q: Pc, b: Shared) {
    match at
    case CloseEnter =>
      || (a.once.NotStarted? && b == a.(once := Running(t)) && q == Closing(CloseFlag))
      || (a.once.Done? && b == a && q == Idle)
    case CloseFlag => b == a.(closed := true) && q == Closing(CloseLockQueue)
    case CloseLockQueue => a.queueMu == None && b == a.(queueMu := Some(t)) && q == Closing(CloseClear)
    case CloseClear => b == a.(queue := [], queueMu := None, cut := Some(ClearedCut(a))) && q == Closing(CloseTry)
    case CloseTry =>  // TryLock never waits; it may also fail when the lock is free
      || (b == a && q == Closing(CloseLockErr))
      || (a.readMu == None && b == a.(readMu := Some(t)) && q == Closing(CloseTail))
    case CloseTail => b == a.(tail := [], readMu := None) && q == Closing(CloseLockErr)
    case CloseLockErr => a.errWriter == None && b == a.(errWriter := Some(t)) && q == Closing(CloseAwaitReaders)
    case CloseAwaitReaders => a.errReaders == {} && b == a && q == Closing(CloseChannel)
    case CloseChannel =>
      && b == (if a.errorsClosed then a.(panicked := true) else a.(errorsClosed := true))
      && q == Closing(CloseUnlockErr)
    case CloseUnlockErr => b == a.(errWriter := None) && q == Closing(CloseDone)
    case CloseDone => b == a.(once := Done) && q == Idle
  }

  predicate ReadStep(at: ReadAt, n: nat, l: bool, a: Shared, t: nat, q: Pc, b: Shared) {
    match at
    case ReadLock => a.readMu == None && b == a.(readMu := Some(t)) && q == Reading(ReadCheck, n, l)
    case ReadCheck => b == a && q == Reading(if a.closed then ReadUnlock else ReadTail, n, l)
    case ReadTail =>
      if a.tail == [] then b == a && q == Reading(ReadLockQueue, n, l)
      else var k := Min(n, |a.tail|);
           b == a.(delivered := a.delivered + a.tail[..k], tail := a.tail[k..]) && q == Reading(ReadUnlock, n, l)
    case ReadLockQueue => a.queueMu == None && b == a.(queueMu := Some(t)) && q == Reading(ReadPop, n, l)
    case ReadPop =>
      if a.queue == [] then b == a.(queueMu := None) && q == Reading(ReadSelect, n, l)
      else b == a.(queue := a.queue[1..], queueMu := None) && q == Reading(ReadSplit(a.queue[0]), n, l)
    case ReadSplit(m) =>
      var k := Min(n, |m|);
      && b == a.(delivered := a.delivered + m[..k], tail := if k < |m| then m[k..] else a.tail)
      && q == Reading(ReadUnlock, n, l)
    case ReadSelect =>
      || (a.errors != [] && b == a.(errors := a.errors[1..]) && q == Reading(ReadUnlock, n, l))
      || (a.errors == [] && a.errorsClosed && b == a && q == Reading(ReadUnlock, n, l))
      || (a.token && b == a.(token := false) && q == Reading(ReadLockQueue, n, l))
    case ReadUnlock => b == a.(readMu := None) && q == Idle
  }

  predicate ThreadStep(p: Pc, a: Shared, t: nat, q: Pc, b: Shared) {
    match p
    case Idle => false
    case Storing(at, m) => StoreStep(at, m, a, t, q, b)
    case Reporting(at, e, thenClose) => ReportStep(at, e, thenClose, a, t, q, b)
    case Closing(at) => CloseStep(at, a, t, q, b)
    case Reading(at, size, late) => ReadStep(at, size, late, a, t, q, b)
  }

  // ---- Runs ----

  datatype Move = Begin(t: nat, entry: Pc) | Act(t: nat, next: Pc)

  predicate Init(s: State) {
    s.shared == UNUSED && forall t :: 0 <= t < |s.pcs| ==> s.pcs[t] == Idle
  }

  /** An idle thread begins a call, or a thread inside one takes a step. */
  predicate Next(s: State, move: Move, s': State) {
    && move.t < |s.pcs|
    && match move
       case Begin(t, entry) =>
         s.pcs[t] == Idle && IsEntry(entry, s.shared.closed) && s' == State(s.pcs[t := entry], s.shared)
       case Act(t, next) =>
         s'.pcs == s.pcs[t := next] && ThreadStep(s.pcs[t], s.shared, t, next, s'.shared)
  }

  /** A run from any state: states[i] moves to states[i + 1] by moves[i]. */
  predicate IsRun(states: seq<State>, moves: seq<Move>) {
    && |states| == |moves| + 1
    && forall i :: 0 <= i < |moves| ==> Next(states[i], moves[i], states[i + 1])
  }

  lemma RunFrom(states: seq<State>, moves: seq<Move>, i: nat)
    requires IsRun(states, moves) && i < |states|
    ensures IsRun(states[i..], moves[i..])
  {
    forall k | 0 <= k < |moves[i..]|
      ensures Next(states[i..][k], moves[i..][k], states[i..][k + 1])
    {
      assert Next(states[i + k], moves[i + k], states[i + k + 1]);
    }
  }

  // ---- What holds in every reachable state ----

  /** The locks and the once agree with position p of thread t about what t holds. */
  predicate HoldsAsPlaced(p: Pc, a: Shared, t: nat) {
    && (HoldsQueue(p) <==> a.queueMu == Some(t))
    && (HoldsRead(p) <==> a.readMu == Some(t))
    && (HoldsErrRead(p) <==> t in a.errReaders)
    && (HoldsErrWrite(p) <==> a.errWriter == Some(t))
    && (InOnce(p) <==> a.once == Running(t))
  }

  predicate LocksAgree(s: State) {
    && (s.shared.queueMu.Some? ==> s.shared.queueMu.value < |s.pcs|)
    && (s.shared.readMu.Some? ==> s.shared.readMu.value < |s.pcs|)
    && (forall t :: t in s.shared.errReaders ==> t < |s.pcs|)
    && (s.shared.errWriter.Some? ==> s.shared.errWriter.value < |s.pcs|)
    && (s.shared.once.Running? ==> s.shared.once.t < |s.pcs|)
    && (forall t :: 0 <= t < |s.pcs| ==> HoldsAsPlaced(s.pcs[t], s.shared, t))
  }

  /** Where the one thread inside the once is. */
  function Closer(s: State): Pc {
    if s.shared.once.Running? && s.shared.once.t < |s.pcs| then s.pcs[s.shared.once.t] else Idle
  }

  predicate PastClear(at: CloseAt) {
    !at.CloseEnter? && !at.CloseFlag? && !at.CloseLockQueue? && !at.CloseClear?
  }

  /** The closed flag, the clear, the once and the error channel move together. */
  predicate ClosingAgrees(closer: Pc, a: Shared) {
    && a.closed == (a.once.Done? || (closer.Closing? && !closer.close.CloseFlag?))
    && a.errorsClosed ==
         (a.once.Done? || (closer.Closing? && (closer.close.CloseUnlockErr? || closer.close.CloseDone?)))
    && a.cut.Some? == (a.once.Done? || (closer.Closing? && PastClear(closer.close)))
    && (closer.Closing? && closer.close.CloseChannel? ==> a.errReaders == {})
    && !a.panicked
  }

  predicate PastTail(at: ReadAt) { at.ReadLockQueue? || at.ReadPop? || at.ReadSplit? || at.ReadSelect? }

  /** What the position of a thread says about the shared state: a send finds the error
      channel open, a read past its tail check finds the tail empty, and a read that began after
      the close can only fail. */
  predicate PlacedWell(p: Pc, a: Shared) {
    match p
    case Reporting(at, _, _) => at.ErrSend? ==> !a.errorsClosed
    case Reading(at, _, late) =>
      && (PastTail(at) ==> a.tail == [])
      && (late ==> a.closed && (at.ReadLock? || at.ReadCheck? || at.ReadUnlock?))
    case _ => true
  }

  predicate AllPlacedWell(s: State) {
    forall t :: 0 <= t < |s.pcs| ==> PlacedWell(s.pcs[t], s.shared)
  }

  predicate Signals(p: Pc) { p.Storing? && p.store.StoreSignal? }

  predicate Selects(p: Pc) { p.Reading? && p.read.ReadSelect? }

  predicate SomeSignaller(pcs: seq<Pc>) {
    exists t :: 0 <= t < |pcs| && Signals(pcs[t])
  }

  /** No wake-up is lost: a read never waits on a non-empty queue without a token, unless a
      producer is about to send one. */
  predicate WakeUpsKept(s: State) {
    (exists r :: 0 <= r < |s.pcs| && Selects(s.pcs[r])) && s.shared.queue != [] ==>
      s.shared.token || SomeSignaller(s.pcs)
  }

  /** Where the read in progress is, if any. */
  function Reader(s: State): Pc {
    if s.shared.readMu.Some? && s.shared.readMu.value < |s.pcs| then s.pcs[s.shared.readMu.value] else Idle
  }

  /** The message that a reader has popped and not yet split. */
  function Popped(reader: Pc): Message {
    if reader.Reading? && reader.read.ReadSplit? then reader.read.m else []
  }

  /** Whether a read has passed its closed check and may still hand out bytes. */
  predicate Delivers(reader: Pc) {
    reader.Reading? && (reader.read.ReadTail? || PastTail(reader.read))
  }

  predicate CutOk(a: Shared) {
    a.cut.Some? ==> 0 <= a.cut.value.from <= a.cut.value.to <= |a.accepted|
  }

  /** The accepted bytes without those that a close has cut out. */
  function Surviving(a: Shared): Message
    requires CutOk(a)
  {
    if a.cut == None then a.accepted else a.accepted[..a.cut.value.from] + a.accepted[a.cut.value.to..]
  }

  /** Both limits hold, and the delivered bytes and the bytes still held are the surviving ones,
      in order; once the close has dropped the tail as well, no read hands out bytes any more. */
  predicate StreamKept(reader: Pc, a: Shared) {
    && WithinLimits(a.queue)
    && |a.errors| <= ERROR_CAPACITY
    && CutOk(a)
    && (|| a.delivered + (Popped(reader) + (a.tail + Flatten(a.queue))) == Surviving(a)
        || (a.cut.Some? && !Delivers(reader) && a.tail == [] && a.delivered <= Surviving(a)))
  }

  predicate Invariant(s: State) {
    && LocksAgree(s)
    && ClosingAgrees(Closer(s), s.shared)
    && AllPlacedWell(s)
    && WakeUpsKept(s)
    && StreamKept(Reader(s), s.shared)
  }

  // ---- Locks ----

  function Moved(owner: Option<nat>, t: nat, holds: bool): Option<nat> {
    if holds then Some(t) else if owner == Some(t) then None else owner
  }

  /** What thread t holds changed with its position q, and nobody else lost anything. */
  predicate Relocked(a: Shared, t: nat, q: Pc, b: Shared) {
    RelockedData(a, t, q, b) && RelockedErrors(a, t, q, b)
  }

  predicate RelockedData(a: Shared, t: nat, q: Pc, b: Shared) {
    && b.queueMu == Moved(a.queueMu, t, HoldsQueue(q))
    && (HoldsQueue(q) ==> a.queueMu == None || a.queueMu == Some(t))
    && b.readMu == Moved(a.readMu, t, HoldsRead(q))
    && (HoldsRead(q) ==> a.readMu == None || a.readMu == Some(t))
  }

  predicate RelockedErrors(a: Shared, t: nat, q: Pc, b: Shared) {
    && b.errReaders == (if HoldsErrRead(q) then a.errReaders + {t} else a.errReaders - {t})
    && b.errWriter == Moved(a.errWriter, t, HoldsErrWrite(q))
    && (HoldsErrWrite(q) ==> a.errWriter == None || a.errWriter == Some(t))
    && (if InOnce(q) then b.once == Running(t) && (a.once == NotStarted || a.once == Running(t))
        else b.once == (if a.once == Running(t) then Done else a.once))
  }

  lemma StoreRelocks(at: StoreAt, m: Message, a: Shared, t: nat, q: Pc, b: Shared)
    requires HoldsAsPlaced(Storing(at, m), a, t) && StoreStep(at, m, a, t, q, b)
    ensures Relocked(a, t, q, b)
  {
  }

  lemma ReportRelocks(at: ReportAt, e: Error, c: bool, a: Shared, t: nat, q: Pc, b: Shared)
    requires HoldsAsPlaced(Reporting(at, e, c), a, t) && ReportStep(at, e, c, a, t, q, b)
    ensures Relocked(a, t, q, b)
  {
  }

  lemma CloseRelocksData(at: CloseAt, a: Shared, t: nat, q: Pc, b: Shared)
    requires HoldsAsPlaced(Closing(at), a, t) && CloseStep(at, a, t, q, b)
    ensures RelockedData(a, t, q, b)
  {
  }

  lemma CloseRelocksErrors(at: CloseAt, a: Shared, t: nat, q: Pc, b: Shared)
    requires HoldsAsPlaced(Closing(at), a, t) && CloseStep(at, a, t, q, b)
    ensures RelockedErrors(a, t, q, b)
  {
  }

  lemma CloseRelocks(at: CloseAt, a: Shared, t: nat, q: Pc, b: Shared)
    requires HoldsAsPlaced(Closing(at), a, t) && CloseStep(at, a, t, q, b)
    ensures Relocked(a, t, q, b)
  {
    CloseRelocksData(at, a, t, q, b);
    CloseRelocksErrors(at, a, t, q, b);
  }

  lemma ReadRelocksData(at: ReadAt, n: nat, l: bool, a: Shared, t: nat, q: Pc, b: Shared)
    requires HoldsAsPlaced(Reading(at, n, l), a, t) && ReadStep(at, n, l, a, t, q, b)
    ensures RelockedData(a, t, q, b)
  {
  }

  lemma ReadRelocksErrors(at: ReadAt, n: nat, l: bool, a: Shared, t: nat, q: Pc, b: Shared)
    requires HoldsAsPlaced(Reading(at, n, l), a, t) && ReadStep(at, n, l, a, t, q, b)
    ensures RelockedErrors(a, t, q, b)
  {
  }

  lemma ReadRelocks(at: ReadAt, n: nat, l: bool, a: Shared, t: nat, q: Pc, b: Shared)
    requires HoldsAsPlaced(Reading(at, n, l), a, t) && ReadStep(at, n, l, a, t, q, b)
    ensures Relocked(a, t, q, b)
  {
    ReadRelocksData(at, n, l, a, t, q, b);
    ReadRelocksErrors(at, n, l, a, t, q, b);
  }

  lemma RelockedKeepsLocks(s: State, t: nat, q: Pc, b: Shared)
    requires LocksAgree(s) && t < |s.pcs| && Relocked(s.shared, t, q, b)
    ensures LocksAgree(State(s.pcs[t := q], b))
  {
    var pcs := s.pcs[t := q];
    forall u | 0 <= u < |pcs|
      ensures HoldsAsPlaced(pcs[u], b, u)
    {
      assert HoldsAsPlaced(s.pcs[u], s.shared, u);
    }
  }

  // ---- What one step does to the facts other threads rely on ----

  /** The closed flag stays set, the error channel is closed only when no reporter holds its
      lock, and only the holder of the read lock changes the tail. */
  predicate Guarded(a: Shared, t: nat, b: Shared) {
    && (a.closed ==> b.closed)
    && (b.errorsClosed && !a.errorsClosed ==> a.errReaders == {})
    && (b.tail != a.tail ==> a.readMu == Some(t))
  }

  /** Whoever makes the queue non-empty is about to signal, and a token disappears only when
      a select takes it. */
  predicate Wakes(p: Pc, a: Shared, q: Pc, b: Shared) {
    && (b.queue != [] ==> a.queue != [] || Signals(q))
    && (a.token ==> b.token || Selects(p))
    && (Signals(p) ==> b.token)
    && (Selects(q) ==> b.queue == [])
  }

  lemma StoreIsGuarded(at: StoreAt, m: Message, a: Shared, t: nat, q: Pc, b: Shared)
    requires StoreStep(at, m, a, t, q, b)
    ensures Guarded(a, t, b) && PlacedWell(q, b) && Wakes(Storing(at, m), a, q, b)
  {
  }

  lemma ReportIsGuarded(at: ReportAt, e: Error, c: bool, closer: Pc, a: Shared, t: nat, q: Pc, b: Shared)
    requires ReportStep(at, e, c, a, t, q, b) && ClosingAgrees(closer, a)
    ensures Guarded(a, t, b) && PlacedWell(q, b) && Wakes(Reporting(at, e, c), a, q, b)
  {
  }

  lemma CloseIsGuarded(at: CloseAt, closer: Pc, a: Shared, t: nat, q: Pc, b: Shared)
    requires CloseStep(at, a, t, q, b) && ClosingAgrees(closer, a) && (!at.CloseEnter? ==> closer == Closing(at))
    requires HoldsAsPlaced(Closing(at), a, t)
    ensures Guarded(a, t, b) && PlacedWell(q, b) && Wakes(Closing(at), a, q, b)
  {
  }

  lemma ReadIsGuarded(at: ReadAt, n: nat, l: bool, a: Shared, t: nat, q: Pc, b: Shared)
    requires ReadStep(at, n, l, a, t, q, b) && PlacedWell(Reading(at, n, l), a)
    requires HoldsAsPlaced(Reading(at, n, l), a, t)
    ensures Guarded(a, t, b) && PlacedWell(q, b) && Wakes(Reading(at, n, l), a, q, b)
  {
  }

  lemma GuardedKeepsPlacement(s: State, t: nat, q: Pc, b: Shared)
    requires LocksAgree(s) && AllPlacedWell(s)
    requires t < |s.pcs| && Guarded(s.shared, t, b) && PlacedWell(q, b)
    ensures AllPlacedWell(State(s.pcs[t := q], b))
  {
    var pcs := s.pcs[t := q];
    forall u | 0 <= u < |pcs|
      ensures PlacedWell(pcs[u], b)
    {
      assert HoldsAsPlaced(s.pcs[u], s.shared, u) && PlacedWell(s.pcs[u], s.shared);
    }
  }

  lemma WakesKeepsWakeUps(s: State, t: nat, q: Pc, b: Shared)
    requires LocksAgree(s) && WakeUpsKept(s)
    requires t < |s.pcs| && Wakes(s.pcs[t], s.shared, q, b)
    ensures WakeUpsKept(State(s.pcs[t := q], b))
  {
    var pcs := s.pcs[t := q];
    if r :| 0 <= r < |pcs| && Selects(pcs[r]) && b.queue != [] {
      assert r != t && Selects(s.pcs[r]);
      assert HoldsAsPlaced(s.pcs[r], s.shared, r) && HoldsAsPlaced(s.pcs[t], s.shared, t);
      assert pcs[t] == q;
      if SomeSignaller(s.pcs) {
        var p :| 0 <= p < |s.pcs| && Signals(s.pcs[p]);
        assert p == t || Signals(pcs[p]);
      }
    }
  }

  lemma CloseKeepsClosing(at: CloseAt, closer: Pc, a: Shared, t: nat, q: Pc, b: Shared)
    requires CloseStep(at, a, t, q, b) && ClosingAgrees(closer, a)
    requires if at.CloseEnter? then a.once != Running(t) && (!a.once.Running? ==> closer == Idle)
             else a.once == Running(t) && closer == Closing(at)
    ensures ClosingAgrees(if b.once == Running(t) then q else Idle, b)
  {
  }

  lemma ReportKeepsClosing(at: ReportAt, e: Error, c: bool, closer: Pc, a: Shared, t: nat, q: Pc, b: Shared)
    requires ReportStep(at, e, c, a, t, q, b) && ClosingAgrees(closer, a) && PlacedWell(Reporting(at, e, c), a)
    requires HoldsErrWrite(closer) ==> a.errWriter != None
    ensures ClosingAgrees(closer, b)
  {
  }

  lemma ReadKeepsClosing(at: ReadAt, n: nat, l: bool, closer: Pc, a: Shared, t: nat, q: Pc, b: Shared)
    requires ReadStep(at, n, l, a, t, q, b) && ClosingAgrees(closer, a)
    ensures ClosingAgrees(closer, b) && b.once == a.once
  {
  }

  lemma AppendStream(d: Message, p: Message, tail: Message, queued: Message, m: Message)
    ensures d + (p + (tail + (queued + m))) == d + (p + (tail + queued)) + m
  {
  }

  lemma AcceptSurvives(a: Shared, m: Message, b: Shared)
    requires CutOk(a) && b.cut == a.cut && b.accepted == a.accepted + m
    ensures CutOk(b) && Surviving(b) == Surviving(a) + m
  {
  }

  lemma AppendKeepsStream(m: Message, reader: Pc, a: Shared, t: nat, q: Pc, b: Shared)
    requires StoreStep(StoreHold, m, a, t, q, b) && Fits(a.queue, m) && StreamKept(reader, a)
    ensures StreamKept(reader, b)
  {
    FitsExactly(a.queue, m);
    FlattenAppend(a.queue, m);
    AcceptSurvives(a, m, b);
    AppendStream(a.delivered, Popped(reader), a.tail, Flatten(a.queue), m);
  }

  lemma StoreKeepsStream(at: StoreAt, m: Message, reader: Pc, a: Shared, t: nat, q: Pc, b: Shared)
    requires StoreStep(at, m, a, t, q, b) && StreamKept(reader, a)
    ensures StreamKept(reader, b)
  {
    if at.StoreHold? && Fits(a.queue, m) {
      AppendKeepsStream(m, reader, a, t, q, b);
    }
  }

  lemma SplitStream(d: Message, m: Message, k: nat, rest: Message)
    requires k <= |m|
    ensures (d + m[..k]) + ([] + (m[k..] + rest)) == d + ([] + (m + rest)) == d + (m + ([] + rest))
  {
    assert m == m[..k] + m[k..];
  }

  lemma TailKeepsStream(n: nat, l: bool, a: Shared, t: nat, q: Pc, b: Shared)
    requires ReadStep(ReadTail, n, l, a, t, q, b) && StreamKept(Reading(ReadTail, n, l), a)
    ensures StreamKept(q, b)
  {
    SplitStream(a.delivered, a.tail, Min(n, |a.tail|), Flatten(a.queue));
  }

  lemma SplitKeepsStream(m: Message, n: nat, l: bool, a: Shared, t: nat, q: Pc, b: Shared)
    requires ReadStep(ReadSplit(m), n, l, a, t, q, b) && StreamKept(Reading(ReadSplit(m), n, l), a)
    requires a.tail == []
    ensures StreamKept(q, b)
  {
    var k := Min(n, |m|);
    SplitStream(a.delivered, m, k, Flatten(a.queue));
    assert b.tail == m[k..];
  }

  lemma PopKeepsStream(n: nat, l: bool, a: Shared, t: nat, q: Pc, b: Shared)
    requires ReadStep(ReadPop, n, l, a, t, q, b) && StreamKept(Reading(ReadPop, n, l), a) && a.tail == []
    ensures StreamKept(q, b)
  {
    if a.queue != [] {
      SplitStream(a.delivered, a.queue[0], 0, Flatten(a.queue[1..]));
    }
  }

  lemma ReadKeepsStream(at: ReadAt, n: nat, l: bool, reader: Pc, a: Shared, t: nat, q: Pc, b: Shared)
    requires ReadStep(at, n, l, a, t, q, b) && StreamKept(reader, a) && PlacedWell(Reading(at, n, l), a)
    requires reader == (if at.ReadLock? then Idle else Reading(at, n, l)) && (a.cut.Some? ==> a.closed)
    ensures StreamKept(q, b)
  {
    match at
    case ReadTail => TailKeepsStream(n, l, a, t, q, b);
    case ReadSplit(m) => SplitKeepsStream(m, n, l, a, t, q, b);
    case ReadPop => PopKeepsStream(n, l, a, t, q, b);
    case _ =>
  }

  lemma ClearKeepsStream(reader: Pc, a: Shared, t: nat, q: Pc, b: Shared)
    requires CloseStep(CloseClear, a, t, q, b) && StreamKept(reader, a) && a.cut == None
    ensures StreamKept(reader, b)
  {
    var held := a.delivered + (Popped(reader) + (a.tail + []));
    assert held + Flatten(a.queue) == a.accepted;
    assert Surviving(b) == held;
  }

  lemma DropTailKeepsStream(reader: Pc, a: Shared, t: nat, q: Pc, b: Shared)
    requires CloseStep(CloseTail, a, t, q, b) && StreamKept(reader, a) && a.cut.Some? && !reader.Reading?
    ensures StreamKept(Idle, b)
  {
  }

  lemma CloseKeepsStream(at: CloseAt, closer: Pc, reader: Pc, a: Shared, t: nat, q: Pc, b: Shared, r: Pc)
    requires CloseStep(at, a, t, q, b) && StreamKept(reader, a)
    requires ClosingAgrees(closer, a) && (!at.CloseEnter? ==> a.once == Running(t) && closer == Closing(at))
    requires r == reader || (!r.Reading? && !reader.Reading?)
    requires at.CloseTail? ==> !reader.Reading? && r == Idle
    ensures StreamKept(r, b)
  {
    if at.CloseClear? {
      ClearKeepsStream(reader, a, t, q, b);
    } else if at.CloseTail? {
      DropTailKeepsStream(reader, a, t, q, b);
    }
  }

  // ---- Every step keeps the invariant ----

  /** What thread t does to the others is limited: it relocks, guards and wakes properly, and
      keeps the facts about the closer and the reader. */
  predicate IsLocal(s: State, t: nat, q: Pc, b: Shared)
    requires t < |s.pcs|
  {
    && Relocked(s.shared, t, q, b) && Guarded(s.shared, t, b) && PlacedWell(q, b) && Wakes(s.pcs[t], s.shared, q, b)
    && ClosingAgrees(if b.once == Running(t) then q else Closer(s), b)
    && StreamKept(if b.readMu == Some(t) then q else if s.shared.readMu == Some(t) then Idle else Reader(s), b)
  }

  lemma LocalStepKeepsInvariant(s: State, t: nat, q: Pc, b: Shared)
    requires Invariant(s) && t < |s.pcs| && IsLocal(s, t, q, b)
    ensures Invariant(State(s.pcs[t := q], b))
  {
    RelockedKeepsLocks(s, t, q, b);
    GuardedKeepsPlacement(s, t, q, b);
    WakesKeepsWakeUps(s, t, q, b);
  }

  lemma StoreStepIsLocal(s: State, t: nat, q: Pc, b: Shared)
    requires Invariant(s) && t < |s.pcs| && s.pcs[t].Storing?
    requires StoreStep(s.pcs[t].store, s.pcs[t].m, s.shared, t, q, b)
    ensures IsLocal(s, t, q, b)
  {
    var p, a := s.pcs[t], s.shared;
    assert HoldsAsPlaced(p, a, t);
    StoreRelocks(p.store, p.m, a, t, q, b);
    StoreIsGuarded(p.store, p.m, a, t, q, b);
    StoreKeepsStream(p.store, p.m, Reader(s), a, t, q, b);
  }

  lemma ReportStepIsLocal(s: State, t: nat, q: Pc, b: Shared)
    requires Invariant(s) && t < |s.pcs| && s.pcs[t].Reporting?
    requires ReportStep(s.pcs[t].report, s.pcs[t].e, s.pcs[t].thenClose, s.shared, t, q, b)
    ensures IsLocal(s, t, q, b)
  {
    var p, a := s.pcs[t], s.shared;
    assert HoldsAsPlaced(p, a, t) && PlacedWell(p, a);
    if a.once.Running? {
      assert HoldsAsPlaced(Closer(s), a, a.once.t);
    }
    ReportRelocks(p.report, p.e, p.thenClose, a, t, q, b);
    ReportIsGuarded(p.report, p.e, p.thenClose, Closer(s), a, t, q, b);
    ReportKeepsClosing(p.report, p.e, p.thenClose, Closer(s), a, t, q, b);
  }

  lemma CloseStepIsLocal(s: State, t: nat, q: Pc, b: Shared)
    requires Invariant(s) && t < |s.pcs| && s.pcs[t].Closing?
    requires CloseStep(s.pcs[t].close, s.shared, t, q, b)
    ensures IsLocal(s, t, q, b)
  {
    var p, a := s.pcs[t], s.shared;
    assert HoldsAsPlaced(p, a, t);
    CloseRelocks(p.close, a, t, q, b);
    CloseIsGuarded(p.close, Closer(s), a, t, q, b);
    CloseKeepsClosing(p.close, Closer(s), a, t, q, b);
    CloseKeepsStream(p.close, Closer(s), Reader(s), a, t, q, b,
      if b.readMu == Some(t) then q else if a.readMu == Some(t) then Idle else Reader(s));
  }

  lemma ReadStepIsLocal(s: State, t: nat, q: Pc, b: Shared)
    requires Invariant(s) && t < |s.pcs| && s.pcs[t].Reading?
    requires ReadStep(s.pcs[t].read, s.pcs[t].size, s.pcs[t].late, s.shared, t, q, b)
    ensures IsLocal(s, t, q, b)
  {
    var p, a := s.pcs[t], s.shared;
    assert HoldsAsPlaced(p, a, t) && PlacedWell(p, a);
    ReadKeepsClosing(p.read, p.size, p.late, Closer(s), a, t, q, b);
    ReadRelocks(p.read, p.size, p.late, a, t, q, b);
    ReadIsGuarded(p.read, p.size, p.late, a, t, q, b);
    ReadKeepsStream(p.read, p.size, p.late, Reader(s), a, t, q, b);
  }

  lemma BeginKeepsInvariant(s: State, t: nat, entry: Pc)
    requires Invariant(s) && t < |s.pcs| && s.pcs[t] == Idle && IsEntry(entry, s.shared.closed)
    ensures Invariant(State(s.pcs[t := entry], s.shared))
  {
    assert HoldsAsPlaced(s.pcs[t], s.shared, t);
    LocalStepKeepsInvariant(s, t, entry, s.shared);
  }

  lemma NextKeepsInvariant(s: State, move: Move, s': State)
    requires Invariant(s) && Next(s, move, s')
    ensures Invariant(s')
  {
    match move
    case Begin(t, entry) => BeginKeepsInvariant(s, t, entry);
    case Act(t, q) =>
      match s.pcs[t] {
      case Storing(_, _) => StoreStepIsLocal(s, t, q, s'.shared);
      case Reporting(_, _, _) => ReportStepIsLocal(s, t, q, s'.shared);
      case Closing(_) => CloseStepIsLocal(s, t, q, s'.shared);
      case Reading(_, _, _) => ReadStepIsLocal(s, t, q, s'.shared);
      }
      LocalStepKeepsInvariant(s, t, q, s'.shared);
  }

  lemma {:induction false} ReachableKeepsInvariant(states: seq<State>, moves: seq<Move>, i: nat)
    requires IsRun(states, moves) && Init(states[0]) && i < |states|
    ensures Invariant(states[i])
  {
    if i == 0 {
    } else {
      ReachableKeepsInvariant(states, moves, i - 1);
      NextKeepsInvariant(states[i - 1], moves[i - 1], states[i]);
    }
  }

  // ---- Safety over every run ----

  lemma KeptInOrder(reader: Pc, a: Shared)
    requires StreamKept(reader, a)
    ensures a.cut == None ==> a.delivered + Popped(reader) + a.tail + Flatten(a.queue) == a.accepted
    ensures a.delivered + Popped(reader) + a.tail <= Surviving(a)
  {
    var held := Popped(reader);
    assert a.delivered + held + a.tail + Flatten(a.queue) == a.delivered + (held + (a.tail + Flatten(a.queue)));
  }

  /** In every reachable state: nothing was ever sent on the closed error channel and it was
      not closed twice; both queue limits hold; no wake-up is lost; until a close clears the
      queue the bytes delivered, popped, kept as tail and queued are the accepted ones; and for
      ever after the delivered bytes are a prefix of the accepted ones without the one stretch
      that the clear has cut out. */
  lemma EveryRunIsSafe(states: seq<State>, moves: seq<Move>, i: nat)
    requires IsRun(states, moves) && Init(states[0]) && i < |states|
    ensures var a := states[i].shared;
      && !a.panicked
      && WithinLimits(a.queue) && |a.errors| <= ERROR_CAPACITY
      && (!a.closed ==> a.cut == None)
      && (a.cut == None ==> a.delivered + Popped(Reader(states[i])) + a.tail + Flatten(a.queue) == a.accepted)
      && CutOk(a) && a.delivered + Popped(Reader(states[i])) + a.tail <= Surviving(a)
      && (forall r :: 0 <= r < |states[i].pcs| && Selects(states[i].pcs[r]) && a.queue != [] ==>
            a.token || SomeSignaller(states[i].pcs))
  {
    ReachableKeepsInvariant(states, moves, i);
    KeptInOrder(Reader(states[i]), states[i].shared);
  }

  /** Critical sections exclude each other: two threads never hold the queue lock, the read
      lock or the once together, and no reporter holds its lock while the channel is closed. */
  lemma LocksExclude(states: seq<State>, moves: seq<Move>, i: nat, t: nat, u: nat)
    requires IsRun(states, moves) && Init(states[0]) && i < |states|
    requires t < |states[i].pcs| && u < |states[i].pcs| && t != u
    ensures var p, q := states[i].pcs[t], states[i].pcs[u];
      && !(HoldsQueue(p) && HoldsQueue(q)) && !(HoldsRead(p) && HoldsRead(q)) && !(InOnce(p) && InOnce(q))
      && !(p == Closing(CloseChannel) && HoldsErrRead(q))
  {
    ReachableKeepsInvariant(states, moves, i);
    var s := states[i];
    assert HoldsAsPlaced(s.pcs[t], s.shared, t) && HoldsAsPlaced(s.pcs[u], s.shared, u);
  }

  predicate WantsOnce(p: Pc) { p.Closing? && p.close.CloseEnter? }

  predicate WantsRead(p: Pc) { p.Reading? && p.read.ReadLock? }

  predicate WantsErr(p: Pc) { (p.Reporting? && p.report.ErrLock?) || (p.Closing? && p.close.CloseLockErr?) }

  predicate WantsQueue(p: Pc) {
    || (p.Storing? && p.store.StoreLock?)
    || (p.Closing? && p.close.CloseLockQueue?)
    || (p.Reading? && p.read.ReadLockQueue?)
  }

  /** Locks nest one way only, and nobody asks for one it holds: with the queue lock or the error
      channel lock a thread asks for nothing more, with the read lock only for the queue lock, and
      inside the once only for the queue lock and the error channel lock. */
  lemma LocksNest(states: seq<State>, moves: seq<Move>, i: nat, t: nat)
    requires IsRun(states, moves) && Init(states[0]) && i < |states| && t < |states[i].pcs|
    ensures var p, a := states[i].pcs[t], states[i].shared;
      && (a.queueMu == Some(t) || t in a.errReaders || a.errWriter == Some(t) ==>
            !WantsOnce(p) && !WantsRead(p) && !WantsErr(p) && !WantsQueue(p))
      && (a.readMu == Some(t) ==> !WantsOnce(p) && !WantsRead(p) && !WantsErr(p))
      && (a.once == Running(t) ==> !WantsOnce(p) && !WantsRead(p))
  {
    ReachableKeepsInvariant(states, moves, i);
    assert HoldsAsPlaced(states[i].pcs[t], states[i].shared, t);
  }

  /** A read that began after the connection was closed delivers nothing, and takes and changes
      nothing: of all that the threads share, its steps touch only the read lock. */
  lemma LateReadDeliversNothing(states: seq<State>, moves: seq<Move>, i: nat)
    requires IsRun(states, moves) && Init(states[0]) && i < |moves| && moves[i].Act?
    requires moves[i].t < |states[i].pcs| && states[i].pcs[moves[i].t].Reading? && states[i].pcs[moves[i].t].late
    ensures states[i].shared.closed
    ensures states[i + 1].shared == states[i].shared.(readMu := states[i + 1].shared.readMu)
  {
    ReachableKeepsInvariant(states, moves, i);
    assert Next(states[i], moves[i], states[i + 1]);
    assert PlacedWell(states[i].pcs[moves[i].t], states[i].shared);
  }
}
