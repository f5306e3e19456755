// The browser connection as a value: a bounded queue of messages and an unread tail.
// Calls do not overlap here: each one runs to its end before the next begins. BrowserConn refines
// it over a real backing array; BrowserSteps takes the same calls apart and interleaves them,
// and says what holds when a close overlaps an arrival.
module BrowserStream {
  import opened Sequences

  type Message = seq<bv8>

  const MAX_QUEUED_MESSAGES: nat := 256
  const MAX_QUEUED_BYTES: nat := 16 * 1024 * 1024
  const ERROR_CAPACITY: nat := 4

  datatype Error = NetClosed | UnsupportedData | Overflow(messages: nat, bytes: nat)

  datatype Conn = Conn(closed: bool, queue: seq<Message>, tail: Message, token: bool, errors: seq<Error>)

  datatype Outcome = Data(bytes: Message) | Failed(error: Error) | Parked

  const FRESH: Conn := Conn(false, [], [], false, [])

  predicate WithinLimits(queue: seq<Message>) {
    |queue| <= MAX_QUEUED_MESSAGES && TotalLength(queue) <= MAX_QUEUED_BYTES
  }

  predicate Fits(queue: seq<Message>, m: Message) {
    |queue| < MAX_QUEUED_MESSAGES && TotalLength(queue) + |m| <= MAX_QUEUED_BYTES
  }

  /** A message fits exactly when both limits hold once it is queued. */
  lemma FitsExactly(queue: seq<Message>, m: Message)
    ensures Fits(queue, m) <==> WithinLimits(queue + [m])
  {
    TotalLengthAppend(queue, m);
  }

  function OverflowError(queue: seq<Message>, m: Message): Error {
    Overflow(|queue| + 1, TotalLength(queue) + |m|)
  }

  function Report(c: Conn, e: Error): Conn {
    if c.closed || |c.errors| >= ERROR_CAPACITY then c else c.(errors := c.errors + [e])
  }

  /** readFree tells whether TryLock gets the read lock; only then is the tail dropped. */
  function Close(c: Conn, readFree: bool): Conn {
    if c.closed then c else c.(closed := true, queue := [], tail := if readFree then [] else c.tail)
  }

  function Store(c: Conn, m: Message, readFree: bool): Conn {
    if c.closed then c
    else if Fits(c.queue, m) then c.(queue := c.queue + [m], token := true)
    else Close(Report(c, OverflowError(c.queue, m)), readFree)
  }

  /** An arrival closes an open connection exactly when a limit would not hold with it, and the
      error left for a parked read then names the sizes that were too large. */
  lemma OverflowAborts(c: Conn, m: Message, readFree: bool)
    requires !c.closed
    ensures Store(c, m, readFree).closed <==> !WithinLimits(c.queue + [m])
    ensures !WithinLimits(c.queue + [m]) && |c.errors| < ERROR_CAPACITY ==>
      Store(c, m, readFree).errors == c.errors + [Overflow(|c.queue + [m]|, TotalLength(c.queue + [m]))]
  {
    TotalLengthAppend(c.queue, m);
  }

  /** What the select of Read does on an empty queue; errorFirst settles its random choice. */
  function Select(c: Conn, errorFirst: bool): (Conn, Outcome) {
    var woken := if errorFirst && c.errors != [] then c else c.(token := false);
    if woken.errors != [] then (woken.(errors := woken.errors[1..]), Failed(woken.errors[0]))
    else (woken, Parked)
  }

  function Read(c: Conn, size: nat, errorFirst: bool): (Conn, Outcome) {
    if c.closed then (c, Failed(NetClosed))
    else if c.tail != [] then
      var n := Min(size, |c.tail|);
      (c.(tail := c.tail[n..]), Data(c.tail[..n]))
    else if c.queue != [] then
      var n := Min(size, |c.queue[0]|);
      (c.(queue := c.queue[1..], tail := c.queue[0][n..]), Data(c.queue[0][..n]))
    else Select(c, errorFirst)
  }

  /** What a read of an open connection returns: from the tail or else the oldest message, as many
      bytes as its buffer holds, or all of them if it holds more; without either, the oldest error;
      without any of them it waits, and no token is left. */
  lemma ReadAnswers(c: Conn, size: nat, errorFirst: bool)
    requires !c.closed
    ensures var (c', outcome) := Read(c, size, errorFirst);
      var from := if c.tail != [] || c.queue == [] then c.tail else c.queue[0];
      var n := if size < |from| then size else |from|;
      if c.tail != [] || c.queue != []
      then outcome == Data(from[..n]) && c'.tail == from[n..] && c'.errors == c.errors
        && c'.queue == if c.tail != [] then c.queue else c.queue[1..]
      else if c.errors != [] then outcome == Failed(c.errors[0]) && c'.errors == c.errors[1..]
      else outcome == Parked && !c'.token
  {
  }

  /** What a close leaves: a closed connection whose reads fail, an empty queue, no tail if it gets
      the read lock, and the waiting errors and token as they were. */
  lemma CloseLeaves(c: Conn, readFree: bool, size: nat, errorFirst: bool)
    requires !c.closed
    ensures var c' := Close(c, readFree);
      && c'.closed && c'.queue == [] && c'.tail == (if readFree then [] else c.tail)
      && c'.errors == c.errors && c'.token == c.token
      && Read(c', size, errorFirst) == (c', Failed(NetClosed))
  {
  }

  // ---- Runs ----

  datatype Call =
    | Arrive(m: Message, readFree: bool)
    | Fail(e: Error)
    | Shut(readFree: bool)
    | Recv(size: nat, errorFirst: bool)

  /** A connection with the messages it accepted, the bytes it handed to its readers, the
      errors reported to it while it had room for them, and those its reads returned. */
  datatype Session = Session(
    conn: Conn, accepted: seq<Message>, delivered: Message, reported: seq<Error>, returned: seq<Error>)

  const START: Session := Session(FRESH, [], [], [], [])

  /** The error, if an open connection with room for it is told. */
  function Told(c: Conn, e: Error): seq<Error> {
    if !c.closed && |c.errors| < ERROR_CAPACITY then [e] else []
  }

  function Perform(s: Session, call: Call): Session {
    match call
    case Arrive(m, readFree) =>
      if !s.conn.closed && Fits(s.conn.queue, m)
      then s.(conn := Store(s.conn, m, readFree), accepted := s.accepted + [m])
      else s.(conn := Store(s.conn, m, readFree), reported := s.reported + Told(s.conn, OverflowError(s.conn.queue, m)))
    case Fail(e) => s.(conn := Report(s.conn, e), reported := s.reported + Told(s.conn, e))
    case Shut(readFree) => s.(conn := Close(s.conn, readFree))
    case Recv(size, errorFirst) =>
      var (conn, outcome) := Read(s.conn, size, errorFirst);
      s.(conn := conn,
         delivered := if outcome.Data? then s.delivered + outcome.bytes else s.delivered,
         returned := if outcome.Failed? && !s.conn.closed then s.returned + [outcome.error] else s.returned)
  }

  function Run(s: Session, calls: seq<Call>): Session
    decreases |calls|
  {
    if calls == [] then s else Run(Perform(s, calls[0]), calls[1..])
  }

  /** Bytes the connection still holds. */
  function Pending(c: Conn): Message {
    c.tail + Flatten(c.queue)
  }

  predicate Invariant(s: Session) {
    && WithinLimits(s.conn.queue)
    && |s.conn.errors| <= ERROR_CAPACITY
    && s.delivered + s.conn.tail <= Flatten(s.accepted)
    && (!s.conn.closed ==> s.delivered + Pending(s.conn) == Flatten(s.accepted))
    && (s.conn.closed ==> s.conn.queue == [])
    && (s.conn.queue != [] ==> s.conn.token)
  }

  lemma ReadSplitsPending(c: Conn, size: nat, errorFirst: bool)
    ensures var (c', outcome) := Read(c, size, errorFirst);
            && c'.closed == c.closed
            && (!c.closed ==> (if outcome.Data? then outcome.bytes else []) + Pending(c') == Pending(c))
  {
    if !c.closed && c.tail == [] && c.queue != [] {
      var n := Min(size, |c.queue[0]|);
      assert c.queue[0] == c.queue[0][..n] + c.queue[0][n..];
      assert c.queue[0][..n] + (c.queue[0][n..] + Flatten(c.queue[1..])) == c.queue[0] + Flatten(c.queue[1..]);
    } else if !c.closed && c.tail != [] {
      var n := Min(size, |c.tail|);
      assert c.tail[..n] + (c.tail[n..] + Flatten(c.queue)) == c.tail + Flatten(c.queue);
    }
  }

  lemma ArriveKeepsInvariant(s: Session, m: Message, readFree: bool)
    requires Invariant(s)
    ensures Invariant(Perform(s, Arrive(m, readFree)))
  {
    if !s.conn.closed && Fits(s.conn.queue, m) {
      FitsExactly(s.conn.queue, m);
      FlattenAppend(s.conn.queue, m);
      FlattenAppend(s.accepted, m);
      assert s.delivered + (s.conn.tail + (Flatten(s.conn.queue) + m)) == Flatten(s.accepted) + m;
    }
  }

  lemma RecvKeepsInvariant(s: Session, size: nat, errorFirst: bool)
    requires Invariant(s)
    ensures Invariant(Perform(s, Recv(size, errorFirst)))
  {
    var (conn, outcome) := Read(s.conn, size, errorFirst);
    ReadSplitsPending(s.conn, size, errorFirst);
    if outcome.Data? {
      assert (s.delivered + outcome.bytes) + Pending(conn) == s.delivered + (outcome.bytes + Pending(conn));
    } else {
      assert [] + Pending(conn) == Pending(conn);
    }
  }

  lemma PerformKeepsInvariant(s: Session, call: Call)
    requires Invariant(s)
    ensures Invariant(Perform(s, call))
  {
    match call
    case Arrive(m, readFree) => ArriveKeepsInvariant(s, m, readFree);
    case Recv(size, errorFirst) => RecvKeepsInvariant(s, size, errorFirst);
    case Fail(e) =>
    case Shut(readFree) =>
  }

  /** Holds after every sequence of calls that do not overlap: what was delivered and what is
      still held make up exactly what was accepted while the connection is open. */
  lemma {:induction false} RunKeepsInvariant(s: Session, calls: seq<Call>)
    requires Invariant(s)
    ensures Invariant(Run(s, calls))
    decreases |calls|
  {
    if calls != [] {
      PerformKeepsInvariant(s, calls[0]);
      RunKeepsInvariant(Perform(s, calls[0]), calls[1..]);
    }
  }

  /** The stream of a connection whose calls do not overlap. */
  lemma StreamRefinement(calls: seq<Call>)
    ensures var s := Run(START, calls);
            && s.delivered + s.conn.tail <= Flatten(s.accepted)
            && WithinLimits(s.conn.queue)
            && (!s.conn.closed ==> s.delivered + s.conn.tail + Flatten(s.conn.queue) == Flatten(s.accepted))
            && (s.conn.closed ==> s.conn.queue == [])
            && (s.conn.queue != [] ==> s.conn.token)
  {
    RunKeepsInvariant(START, calls);
    var s := Run(START, calls);
    assert s.delivered + s.conn.tail + Flatten(s.conn.queue) == s.delivered + Pending(s.conn);
  }

  /** Whatever data is queued beside them, and also across a close: the errors returned by reads
      and those still waiting are the reported ones, in order. */
  lemma {:induction false} ErrorsStayInOrder(s: Session, calls: seq<Call>)
    requires s.returned + s.conn.errors == s.reported
    ensures Run(s, calls).returned + Run(s, calls).conn.errors == Run(s, calls).reported
    decreases |calls|
  {
    if calls != [] {
      PerformKeepsErrors(s, calls[0]);
      ErrorsStayInOrder(Perform(s, calls[0]), calls[1..]);
    }
  }

  lemma PerformKeepsErrors(s: Session, call: Call)
    requires s.returned + s.conn.errors == s.reported
    ensures Perform(s, call).returned + Perform(s, call).conn.errors == Perform(s, call).reported
  {
    match call
    case Arrive(m, readFree) =>
    case Fail(e) =>
    case Shut(readFree) =>
    case Recv(size, errorFirst) =>
      if s.conn.errors != [] {
        assert s.conn.errors == [s.conn.errors[0]] + s.conn.errors[1..];
      }
  }

  /** After a close that no other call overlaps, calls change nothing and deliver nothing. */
  lemma {:induction false} ClosedIsFinal(s: Session, calls: seq<Call>)
    requires s.conn.closed
    ensures Run(s, calls) == s
    decreases |calls|
  {
    if calls != [] {
      ClosedIsFinal(Perform(s, calls[0]), calls[1..]);
    }
  }

  function Sizes(calls: seq<Call>): nat {
    if calls == [] then 0 else (if calls[0].Recv? then calls[0].size else 0) + Sizes(calls[1..])
  }

  /** Reads deliver no more than their buffers hold. */
  lemma {:induction false} DeliveredFitsBuffers(s: Session, calls: seq<Call>)
    ensures |Run(s, calls).delivered| <= |s.delivered| + Sizes(calls)
    decreases |calls|
  {
    if calls != [] {
      if calls[0].Recv? && !s.conn.closed {
        ReadAnswers(s.conn, calls[0].size, calls[0].errorFirst);
      }
      DeliveredFitsBuffers(Perform(s, calls[0]), calls[1..]);
    }
  }

  // ---- Draining ----

  /** How many reads into non-empty buffers certainly empty the connection. */
  function ReadsNeeded(c: Conn): nat {
    |c.tail| + |c.queue| + TotalLength(c.queue)
  }

  lemma ReadMakesProgress(s: Session, size: nat, errorFirst: bool)
    requires !s.conn.closed && size > 0
    ensures var s' := Perform(s, Recv(size, errorFirst));
            && !s'.conn.closed && s'.accepted == s.accepted
            && (ReadsNeeded(s.conn) > 0 ==> ReadsNeeded(s'.conn) < ReadsNeeded(s.conn))
            && (ReadsNeeded(s.conn) == 0 ==> ReadsNeeded(s'.conn) == 0)
  {
  }

  /** An open connection hands over everything it accepted to enough reads into non-empty
      buffers, whatever errors are queued beside the data. */
  lemma {:induction false} DrainDeliversAll(s: Session, calls: seq<Call>)
    requires Invariant(s) && !s.conn.closed
    requires forall c :: c in calls ==> c.Recv? && c.size > 0
    requires |calls| >= ReadsNeeded(s.conn)
    ensures Run(s, calls).delivered == Flatten(s.accepted)
    ensures !Run(s, calls).conn.closed
    decreases |calls|
  {
    if calls == [] {
      assert Pending(s.conn) == [];
    } else {
      assert calls[0] in calls;
      ReadMakesProgress(s, calls[0].size, calls[0].errorFirst);
      PerformKeepsInvariant(s, calls[0]);
      DrainDeliversAll(Perform(s, calls[0]), calls[1..]);
    }
  }
}
