// What native reads hand out: exactly what the answering message reader stored, and, with readers
// that make progress, everything. Then the tunnel delivers all it carries.
module NativeDrain {
  import opened Sequences
  import opened NativeConn
  import T = Tunnel

  // ---- One read ----

  /** A read that ends with an answer of a message reader returns exactly the bytes stored. */
  predicate ReturnsAnswer(reader: Reader, tick: nat, rest: Bytes, size: nat, c': Conn, outcome: Outcome) {
    var answer := reader(tick, rest, size);
    && answer.count <= |rest|
    && BytesOf(outcome) == rest[..answer.count]
    && (answer.status.More? ==> outcome.Data? && c'.current == Some(rest[answer.count..]))
    && (answer.status.Broken? ==>
          outcome == Failed(rest[..answer.count], Transport(answer.status.code))
          && c'.current == Some(rest[answer.count..]))
    && (answer.status.AtEnd? && answer.count > 0 ==> outcome.Data? && c'.current == None)
  }

  /** The last answer a read got, to some rest of a message, is what it returns; a read that asked no
      message reader returns no bytes. */
  lemma {:induction false} ReadReturnsStored(f: Flavour, reader: Reader, c: Conn, size: nat) returns (rest: Bytes)
    requires IsReader(reader)
    ensures var (c', outcome) := ReadLoop(f, reader, c, size);
      && c.tick <= c'.tick
      && (c'.tick == c.tick ==> !outcome.Data? && BytesOf(outcome) == [])
      && (c'.tick > c.tick ==> ReturnsAnswer(reader, c'.tick - 1, rest, size, c', outcome))
    decreases Rounds(c)
  {
    if c.current == None {
      rest := [];
      if c.wire != [] && c.wire[0].kind.Binary? {
        rest := ReadReturnsStored(f, reader, c.(wire := c.wire[1..], current := Some(c.wire[0].payload)), size);
      }
    } else {
      rest := c.current.value;
      var answer := reader(c.tick, rest, size);
      assert Honours(answer, rest, size);
      if answer.status.AtEnd? && answer.count == 0 {
        var next := c.(current := None, tick := c.tick + 1);
        var later := ReadReturnsStored(f, reader, next, size);
        rest := if ReadLoop(f, reader, next, size).0.tick == next.tick then rest else later;
      }
    }
  }

  /** The errors the adapters generate, and those they pass on. */
  lemma ErrorsOfReads(reader: Reader, c: Conn, size: nat, payload: Bytes)
    requires IsReader(reader)
    ensures c.closed || !c.hasSocket ==>
      && Read(Bridge, reader, c, size) == (c, Failed([], NetClosed))
      && Read(Tunnel, reader, c, size) == (c, Failed([], EndOfFile))
      && Write(Bridge, c, payload, true) == (c, 0, Some(NetClosed))
      && Write(Tunnel, c, payload, true) == (c, 0, Some(ClosedPipe))
    ensures !c.closed && c.hasSocket && c.current == None && c.wire != [] && c.wire[0].kind.Text? ==>
      && Read(Bridge, reader, c, size) == (c.(wire := c.wire[1..]), Failed([], NetClosed))
      && Read(Tunnel, reader, c, size) == (c.(wire := c.wire[1..]), Failed([], EndOfFile))
    ensures !c.closed && c.hasSocket && c.current == None && c.wire == [] ==> forall f ::
      Read(f, reader, c, size) == (c, if c.broken.Some? then Failed([], Transport(c.broken.value)) else Parked)
  {
  }

  /** The first close of an open socket reports what the socket reports. */
  lemma FirstCloseReports(c: Conn, failure: Option<Error>)
    requires !c.closed && c.hasSocket
    ensures Shut(c, failure) == (c.(closed := true), failure)
  {
  }

  // ---- Draining ----

  /** Message readers that make progress: they store at least one byte of a non-empty rest into a
      non-empty buffer, say when nothing is left, and do not break. */
  ghost predicate IsEager(reader: Reader) {
    && IsReader(reader)
    && forall tick, rest, size :: Progresses(reader(tick, rest, size), rest, size)
  }

  predicate Progresses(answer: Answer, rest: Bytes, size: nat) {
    && !answer.status.Broken?
    && (rest == [] ==> answer.status.AtEnd?)
    && (rest != [] && size > 0 ==> answer.count > 0)
  }

  function Texts(wire: seq<Frame>): nat {
    if wire == [] then 0 else (if wire[0].kind.Text? then 1 else 0) + Texts(wire[1..])
  }

  /** A read into a non-empty buffer returns bytes, or refuses one text message, or finds nothing. */
  lemma {:induction false} EagerLoop(f: Flavour, reader: Reader, c: Conn, size: nat)
    requires IsEager(reader) && size > 0
    ensures var (c', outcome) := ReadLoop(f, reader, c, size);
      && (outcome.Data? ==> outcome.bytes != [] && Texts(c'.wire) == Texts(c.wire))
      && (outcome == Failed([], TextError(f)) ==> Texts(c'.wire) + 1 == Texts(c.wire) && Ahead(c) == [])
      && (!outcome.Data? && outcome != Failed([], TextError(f)) ==>
            Remaining(c) == [] && c'.wire == [] && c'.current == None)
    decreases Rounds(c)
  {
    if c.current == None {
      if c.wire != [] && c.wire[0].kind.Binary? {
        EagerLoop(f, reader, c.(wire := c.wire[1..], current := Some(c.wire[0].payload)), size);
      }
    } else {
      var rest := c.current.value;
      var answer := reader(c.tick, rest, size);
      assert Honours(answer, rest, size) && Progresses(answer, rest, size);
      if answer.status.AtEnd? && answer.count == 0 {
        EagerLoop(f, reader, c.(current := None, tick := c.tick + 1), size);
      }
    }
  }

  /** How many reads certainly empty the adapter. */
  function ReadsNeeded(c: Conn): nat { |Remaining(c)| + Texts(c.wire) }

  predicate IsOpen(c: Conn) { !c.closed && c.hasSocket }

  /** Enough reads into non-empty buffers return every binary byte, across refused text messages. */
  lemma {:induction false} DrainReturnsAll(f: Flavour, reader: Reader, c: Conn, sizes: seq<nat>)
    requires IsEager(reader) && IsOpen(c) && (forall i :: 0 <= i < |sizes| ==> sizes[i] > 0)
    requires |sizes| >= ReadsNeeded(c)
    ensures ReadOn(f, reader, c, sizes).1 == Remaining(c)
    decreases |sizes|
  {
    if sizes != [] {
      var (c', outcome) := Read(f, reader, c, sizes[0]);
      EagerLoop(f, reader, c, sizes[0]);
      LoopSplitsRemaining(f, reader, c, sizes[0]);
      LoopEnds(f, reader, c, sizes[0]);
      DrainReturnsAll(f, reader, c', sizes[1..]);
    }
  }

  /** Enough reads into non-empty buffers return all bytes before the first text message or the end
      without an error between them. */
  lemma {:induction false} DrainReturnsAhead(f: Flavour, reader: Reader, c: Conn, sizes: seq<nat>)
    requires IsEager(reader) && IsOpen(c) && (forall i :: 0 <= i < |sizes| ==> sizes[i] > 0)
    requires |sizes| >= |Ahead(c)|
    ensures ReadAll(f, reader, c, sizes).1 == Ahead(c)
    decreases |sizes|
  {
    if Ahead(c) == [] {
      ReadsRefineStream(f, reader, c, sizes);
    } else {
      var (c', outcome) := Read(f, reader, c, sizes[0]);
      EagerLoop(f, reader, c, sizes[0]);
      LoopSplitsAhead(f, reader, c, sizes[0]);
      LoopEnds(f, reader, c, sizes[0]);
      RemainingIsAheadAndBehind(c);
      DrainReturnsAhead(f, reader, c', sizes[1..]);
    }
  }

  // ---- The tunnel ----

  function Carries(n: nat): seq<T.Event> { if n == 0 then [] else [T.Carry] + Carries(n - 1) }

  function Recvs(sizes: seq<nat>): seq<T.Event> {
    if sizes == [] then [] else [T.Recv(sizes[0])] + Recvs(sizes[1..])
  }

  lemma {:induction false} RunOn(
    from: Flavour, to: Flavour, reader: Reader, l: T.Link, first: seq<T.Event>, rest: seq<T.Event>)
    requires IsReader(reader)
    ensures T.Run(from, to, reader, l, first + rest)
         == T.Run(from, to, reader, T.Run(from, to, reader, l, first), rest)
    decreases |first|
  {
    if first == [] {
      assert first + rest == rest;
    } else {
      assert (first + rest)[1..] == first[1..] + rest;
      RunOn(from, to, reader, T.Step(from, to, reader, l, first[0]), first[1..], rest);
    }
  }

  lemma {:induction false} CarriesEmptyWire(from: Flavour, to: Flavour, reader: Reader, l: T.Link)
    requires IsReader(reader)
    ensures var l' := T.Run(from, to, reader, l, Carries(|l.sender.out|));
      && l'.sender.out == [] && l'.sent == l.sent
      && l'.receiver.closed == l.receiver.closed && l'.receiver.hasSocket == l.receiver.hasSocket
    decreases |l.sender.out|
  {
    if l.sender.out != [] {
      assert Carries(|l.sender.out|)[1..] == Carries(|l.sender.out| - 1);
      CarriesEmptyWire(from, to, reader, T.Step(from, to, reader, l, T.Carry));
    }
  }

  lemma Regroup(x: Bytes, y: Bytes, z: Bytes)
    ensures (x + y) + z == x + (y + z)
  {
  }

  lemma {:induction false} RecvsReadOn(from: Flavour, to: Flavour, reader: Reader, l: T.Link, sizes: seq<nat>)
    requires IsReader(reader)
    ensures var l' := T.Run(from, to, reader, l, Recvs(sizes));
      l'.read == l.read + ReadOn(to, reader, l.receiver, sizes).1 && l'.sent == l.sent
    decreases |sizes|
  {
    if sizes == [] {
      assert l.read + [] == l.read;
    } else {
      assert Recvs(sizes)[1..] == Recvs(sizes[1..]);
      var next := T.Step(from, to, reader, l, T.Recv(sizes[0]));
      RecvsReadOn(from, to, reader, next, sizes[1..]);
      Regroup(l.read, BytesOf(Read(to, reader, l.receiver, sizes[0]).1),
        ReadOn(to, reader, next.receiver, sizes[1..]).1);
    }
  }

  lemma {:induction false} NoTexts(wire: seq<Frame>)
    requires T.AllBinary(wire)
    ensures Texts(wire) == 0 && AllBytes(wire) == BinaryBytes(wire)
  {
    if wire != [] {
      NoTexts(wire[1..]);
    }
  }

  /** After any run of the tunnel that leaves the receiver open: once the wire has carried what was
      written, enough reads into non-empty buffers make the bytes read exactly those written. */
  lemma TunnelDelivers(
    from: Flavour, to: Flavour, reader: Reader, events: seq<T.Event>, sizes: seq<nat>)
    requires IsEager(reader) && (forall i :: 0 <= i < |sizes| ==> sizes[i] > 0)
    requires var l := T.Run(from, to, reader, T.FRESH_LINK, events);
      IsOpen(l.receiver) && |sizes| >= |l.sent| - |l.read|
    ensures var l := T.Run(from, to, reader, T.FRESH_LINK, events);
      var l' := T.Run(from, to, reader, l, Carries(|l.sender.out|) + Recvs(sizes));
      l'.read == l'.sent == l.sent
  {
    var l := T.Run(from, to, reader, T.FRESH_LINK, events);
    T.RunKeepsLink(from, to, reader, T.FRESH_LINK, events);
    var carried := T.Run(from, to, reader, l, Carries(|l.sender.out|));
    T.RunKeepsLink(from, to, reader, l, Carries(|l.sender.out|));
    CarriesEmptyWire(from, to, reader, l);
    CarriesReadNothing(from, to, reader, l, |l.sender.out|);
    CarriedIsAllRead(from, to, reader, carried, sizes);
    RunOn(from, to, reader, l, Carries(|l.sender.out|), Recvs(sizes));
  }

  lemma {:induction false} CarriesReadNothing(from: Flavour, to: Flavour, reader: Reader, l: T.Link, n: nat)
    requires IsReader(reader)
    ensures T.Run(from, to, reader, l, Carries(n)).read == l.read
    decreases n
  {
    if n > 0 {
      assert Carries(n)[1..] == Carries(n - 1);
      CarriesReadNothing(from, to, reader, T.Step(from, to, reader, l, T.Carry), n - 1);
    }
  }

  lemma CarriedIsAllRead(from: Flavour, to: Flavour, reader: Reader, l: T.Link, sizes: seq<nat>)
    requires IsEager(reader) && (forall i :: 0 <= i < |sizes| ==> sizes[i] > 0)
    requires T.LinkOk(l) && l.sender.out == [] && IsOpen(l.receiver) && |sizes| >= |l.sent| - |l.read|
    ensures var l' := T.Run(from, to, reader, l, Recvs(sizes)); l'.read == l'.sent == l.sent
  {
    NoTexts(l.receiver.wire);
    assert Remaining(l.receiver) == Ahead(l.receiver);
    assert l.read + (Ahead(l.receiver) + []) == l.read + Ahead(l.receiver) == l.sent;
    DrainReturnsAll(to, reader, l.receiver, sizes);
    RecvsReadOn(from, to, reader, l, sizes);
  }
}
