// The native adapters: WebSocket messages in, a byte stream out. pkg/bridge and pkg/grpctunnel
// hold the same loop and differ in the error values they generate.
module NativeConn {
  import opened Sequences

  type Bytes = seq<bv8>

  /** Data messages of section 5.6 of RFC 6455. */
  datatype Kind = Text | Binary
  datatype Frame = Frame(kind: Kind, payload: Bytes)

  datatype Flavour = Bridge | Tunnel

  datatype Error = NetClosed | EndOfFile | ClosedPipe | Transport(code: nat)

  function ReadClosedError(f: Flavour): Error { if f.Bridge? then NetClosed else EndOfFile }

  function TextError(f: Flavour): Error { if f.Bridge? then NetClosed else EndOfFile }

  function WriteClosedError(f: Flavour): Error { if f.Bridge? then NetClosed else ClosedPipe }

  /** What the reader of one message answers: how many bytes it stored, and with what. */
  datatype Status = More | AtEnd | Broken(code: nat)
  datatype Answer = Answer(count: nat, status: Status)

  /** The answers of message readers: by how many answers came before, the unread rest of the
      message and the buffer size. */
  type Reader = (nat, Bytes, nat) -> Answer

  /** The io.Reader contract: no more than fits or is there, and the end only after the last
      byte, possibly together with it. */
  predicate Honours(answer: Answer, rest: Bytes, size: nat) {
    answer.count <= Min(size, |rest|) && (answer.status.AtEnd? ==> answer.count == |rest|)
  }

  ghost predicate IsReader(reader: Reader) {
    forall tick, rest, size :: Honours(reader(tick, rest, size), rest, size)
  }

  /** The adapter with its socket: current is the unread rest of the message being read,
      wire the messages not yet begun, broken the error that follows them if the peer is gone,
      out the messages written. */
  datatype Conn = Conn(
    closed: bool, hasSocket: bool, current: Option<Bytes>, wire: seq<Frame>, broken: Option<nat>, tick: nat,
    out: seq<Frame>)

  /** Parked stands for a read that would wait for the peer. */
  datatype Outcome = Data(bytes: Bytes) | Failed(bytes: Bytes, error: Error) | Parked

  function BytesOf(outcome: Outcome): Bytes {
    match outcome case Data(bytes) => bytes case Failed(bytes, _) => bytes case Parked => []
  }

  /** How many more times the read loop can go round. */
  function Rounds(c: Conn): nat { 2 * |c.wire| + (if c.current.Some? then 1 else 0) }

  function ReadLoop(f: Flavour, reader: Reader, c: Conn, size: nat): (Conn, Outcome)
    requires IsReader(reader)
    decreases Rounds(c)
  {
    if c.current == None then
      if c.wire == [] then (c, if c.broken.Some? then Failed([], Transport(c.broken.value)) else Parked)
      else
        var c' := c.(wire := c.wire[1..]);
        if c.wire[0].kind.Text? then (c', Failed([], TextError(f)))
        else ReadLoop(f, reader, c'.(current := Some(c.wire[0].payload)), size)
    else
      var rest := c.current.value;
      var answer := reader(c.tick, rest, size);
      assert Honours(answer, rest, size);
      var c' := c.(current := Some(rest[answer.count..]), tick := c.tick + 1);
      match answer.status
      case More => (c', Data(rest[..answer.count]))
      case Broken(code) => (c', Failed(rest[..answer.count], Transport(code)))
      case AtEnd =>
        if answer.count > 0 then (c'.(current := None), Data(rest[..answer.count]))
        else ReadLoop(f, reader, c'.(current := None), size)
  }

  function Read(f: Flavour, reader: Reader, c: Conn, size: nat): (Conn, Outcome)
    requires IsReader(reader)
  {
    if c.closed || !c.hasSocket then (c, Failed([], ReadClosedError(f))) else ReadLoop(f, reader, c, size)
  }

  /** A write of one payload; sent tells whether the socket took the whole message. */
  function Write(f: Flavour, c: Conn, payload: Bytes, sent: bool): (Conn, nat, Option<Error>) {
    if c.closed || !c.hasSocket then (c, 0, Some(WriteClosedError(f)))
    else if !sent then (c, 0, Some(Transport(0)))
    else (c.(out := c.out + [Frame(Binary, payload)]), |payload|, None)
  }

  /** A close; failure is what the close of the socket itself would report. */
  function Shut(c: Conn, failure: Option<Error>): (Conn, Option<Error>) {
    (c.(closed := true), if c.closed || !c.hasSocket then None else failure)
  }

  /** The adapter as it is stored. */
  class Adapter {
    const flavour: Flavour
    const reader: Reader
    var closed: bool
    var hasSocket: bool
    var current: Option<Bytes>
    var wire: seq<Frame>
    var broken: Option<nat>
    var tick: nat
    var out: seq<Frame>

    function Value(): Conn
      reads this
    {
      Conn(closed, hasSocket, current, wire, broken, tick, out)
    }

    constructor (flavour: Flavour, reader: Reader, hasSocket: bool)
      ensures this.flavour == flavour && this.reader == reader
      ensures Value() == Conn(flavour.Bridge? && !hasSocket, hasSocket, None, [], None, 0, [])
    {
      this.flavour, this.reader, this.hasSocket := flavour, reader, hasSocket;
      closed := flavour.Bridge? && !hasSocket;
      current, wire, broken, tick, out := None, [], None, 0, [];
    }

    method Receive(size: nat) returns (outcome: Outcome)
      requires IsReader(reader)
      modifies this
      ensures (Value(), outcome) == Read(flavour, reader, old(Value()), size)
    {
      if closed || !hasSocket {
        return Failed([], ReadClosedError(flavour));
      }
      while true
        invariant ReadLoop(flavour, reader, Value(), size) == ReadLoop(flavour, reader, old(Value()), size)
        decreases Rounds(Value())
      {
        if current == None {
          if wire == [] {
            return if broken.Some? then Failed([], Transport(broken.value)) else Parked;
          }
          var frame := wire[0];
          wire := wire[1..];
          if frame.kind != Binary {
            return Failed([], TextError(flavour));
          }
          current := Some(frame.payload);
        }
        var rest := current.value;
        var answer := reader(tick, rest, size);
        assert Honours(answer, rest, size);
        tick := tick + 1;
        var bytes := rest[..answer.count];
        if answer.status.AtEnd? {
          current := None;
          if answer.count > 0 {
            return Data(bytes);
          }
        } else {
          current := Some(rest[answer.count..]);
          return if answer.status.More? then Data(bytes) else Failed(bytes, Transport(answer.status.code));
        }
      }
    }

    method Send(payload: Bytes, sent: bool) returns (count: nat, error: Option<Error>)
      modifies this`out
      ensures (Value(), count, error) == Write(flavour, old(Value()), payload, sent)
    {
      if closed || !hasSocket {
        return 0, Some(WriteClosedError(flavour));
      }
      if !sent {
        return 0, Some(Transport(0));
      }
      out := out + [Frame(Binary, payload)];
      return |payload|, None;
    }

    method Close(failure: Option<Error>) returns (error: Option<Error>)
      modifies this`closed
      ensures (Value(), error) == Shut(old(Value()), failure)
    {
      error := if closed || !hasSocket then None else failure;
      closed := true;
    }
  }

  // ---- The byte stream ----

  /** The payload bytes of the messages before the first text message. */
  function BinaryBytes(wire: seq<Frame>): Bytes {
    if wire == [] || wire[0].kind.Text? then [] else wire[0].payload + BinaryBytes(wire[1..])
  }

  /** The bytes that reads can still return before a text message or the end. */
  function Ahead(c: Conn): Bytes {
    (if c.current.Some? then c.current.value else []) + BinaryBytes(c.wire)
  }

  /** The payload bytes of all binary messages, with the text messages left out. */
  function AllBytes(wire: seq<Frame>): Bytes {
    if wire == [] then []
    else (if wire[0].kind.Text? then [] else wire[0].payload) + AllBytes(wire[1..])
  }

  /** Those behind the first text message. */
  function Behind(wire: seq<Frame>): Bytes {
    if wire == [] then [] else if wire[0].kind.Text? then AllBytes(wire[1..]) else Behind(wire[1..])
  }

  lemma {:induction false} BinaryThenBehind(wire: seq<Frame>)
    ensures AllBytes(wire) == BinaryBytes(wire) + Behind(wire)
  {
    if wire != [] && wire[0].kind.Binary? {
      BinaryThenBehind(wire[1..]);
    }
  }

  /** The bytes that reads can still return if they go on after refused text messages. */
  function Remaining(c: Conn): Bytes {
    (if c.current.Some? then c.current.value else []) + AllBytes(c.wire)
  }

  /** A read takes a prefix of the remaining bytes, also when it refuses a text message, and does
      not get behind one without refusing it. */
  lemma {:induction false} LoopSplitsRemaining(f: Flavour, reader: Reader, c: Conn, size: nat)
    requires IsReader(reader)
    ensures var (c', outcome) := ReadLoop(f, reader, c, size);
      && |BytesOf(outcome)| <= size
      && BytesOf(outcome) + Remaining(c') == Remaining(c)
      && (outcome == Failed([], TextError(f)) || Behind(c'.wire) == Behind(c.wire))
    decreases Rounds(c)
  {
    if c.current == None {
      if c.wire != [] && c.wire[0].kind.Binary? {
        LoopSplitsRemaining(f, reader, c.(wire := c.wire[1..], current := Some(c.wire[0].payload)), size);
      }
    } else {
      var rest := c.current.value;
      var answer := reader(c.tick, rest, size);
      assert Honours(answer, rest, size);
      assert rest[..answer.count] + (rest[answer.count..] + AllBytes(c.wire)) == rest + AllBytes(c.wire);
      if answer.status.AtEnd? && answer.count == 0 {
        LoopSplitsRemaining(f, reader, c.(current := None, tick := c.tick + 1), size);
      }
    }
  }

  /** How a read ends and what it leaves alone. */
  lemma {:induction false} LoopEnds(f: Flavour, reader: Reader, c: Conn, size: nat)
    requires IsReader(reader)
    ensures var (c', outcome) := ReadLoop(f, reader, c, size);
      && (!outcome.Data? && c'.current == None ==> BytesOf(outcome) == [] && Ahead(c) == [])
      && (outcome.Parked? ==> c'.wire == [] && c'.current == None && c.broken == None)
      && (outcome.Failed? && !outcome.error.Transport? ==> outcome == Failed([], TextError(f)) && c'.current == None)
      && c'.broken == c.broken && c'.out == c.out && c'.closed == c.closed && c'.hasSocket == c.hasSocket
    decreases Rounds(c)
  {
    if c.current == None {
      if c.wire != [] && c.wire[0].kind.Binary? {
        LoopEnds(f, reader, c.(wire := c.wire[1..], current := Some(c.wire[0].payload)), size);
      }
    } else {
      var answer := reader(c.tick, c.current.value, size);
      assert Honours(answer, c.current.value, size);
      if answer.status.AtEnd? && answer.count == 0 {
        LoopEnds(f, reader, c.(current := None, tick := c.tick + 1), size);
      }
    }
  }

  lemma CancelSuffix(first: Bytes, left: Bytes, all: Bytes, suffix: Bytes)
    requires first + (left + suffix) == all + suffix
    ensures first + left == all
  {
    assert first + (left + suffix) == (first + left) + suffix;
    assert first + left == ((first + left) + suffix)[..|first + left|] && all == (all + suffix)[..|all|];
  }

  lemma RemainingIsAheadAndBehind(c: Conn)
    ensures Remaining(c) == Ahead(c) + Behind(c.wire)
  {
    BinaryThenBehind(c.wire);
  }

  /** So a read that does not refuse a text message takes a prefix of the bytes before the first. */
  lemma LoopSplitsAhead(f: Flavour, reader: Reader, c: Conn, size: nat)
    requires IsReader(reader)
    ensures var (c', outcome) := ReadLoop(f, reader, c, size);
      && |BytesOf(outcome)| <= size
      && (outcome == Failed([], TextError(f)) || BytesOf(outcome) + Ahead(c') == Ahead(c))
  {
    var (c', outcome) := ReadLoop(f, reader, c, size);
    LoopSplitsRemaining(f, reader, c, size);
    if outcome != Failed([], TextError(f)) {
      RemainingIsAheadAndBehind(c);
      RemainingIsAheadAndBehind(c');
      CancelSuffix(BytesOf(outcome), Ahead(c'), Ahead(c), Behind(c.wire));
    }
  }

  // ---- Runs of reads that go on after errors ----

  /** Reads into buffers of the given sizes, whatever they return. */
  function ReadOn(f: Flavour, reader: Reader, c: Conn, sizes: seq<nat>): (Conn, Bytes)
    requires IsReader(reader)
    decreases |sizes|
  {
    if sizes == [] then (c, [])
    else
      var (c', outcome) := Read(f, reader, c, sizes[0]);
      var (last, bytes) := ReadOn(f, reader, c', sizes[1..]);
      (last, BytesOf(outcome) + bytes)
  }

  /** The law of any reads, across refused text messages and errors: the bytes read and the bytes
      remaining are all binary payloads in order, without the text messages. */
  lemma {:induction false} ReadsSkipText(f: Flavour, reader: Reader, c: Conn, sizes: seq<nat>)
    requires IsReader(reader)
    ensures var (c', bytes) := ReadOn(f, reader, c, sizes); bytes + Remaining(c') == Remaining(c)
    decreases |sizes|
  {
    if sizes == [] {
      assert [] + Remaining(c) == Remaining(c);
    } else {
      var (c', outcome) := Read(f, reader, c, sizes[0]);
      if c.closed || !c.hasSocket {
        assert BytesOf(outcome) + Remaining(c') == Remaining(c);
      } else {
        LoopSplitsRemaining(f, reader, c, sizes[0]);
      }
      ReadsSkipText(f, reader, c', sizes[1..]);
      var (last, bytes) := ReadOn(f, reader, c', sizes[1..]);
      assert (BytesOf(outcome) + bytes) + Remaining(last) == BytesOf(outcome) + (bytes + Remaining(last));
    }
  }

  // ---- Runs of reads up to the first error ----

  /** Reads into buffers of the given sizes until one fails or would wait. */
  function ReadAll(f: Flavour, reader: Reader, c: Conn, sizes: seq<nat>): (Conn, Bytes, Outcome)
    requires IsReader(reader)
    decreases |sizes|
  {
    if sizes == [] then (c, [], Data([]))
    else
      var (c', outcome) := Read(f, reader, c, sizes[0]);
      if outcome.Data? then
        var (last, bytes, end) := ReadAll(f, reader, c', sizes[1..]);
        (last, outcome.bytes + bytes, end)
      else (c', BytesOf(outcome), outcome)
  }

  lemma AppendPrefix(first: Bytes, bytes: Bytes, later: Bytes, ahead: Bytes, left: Bytes)
    requires bytes <= later && first + later == ahead
    ensures first + bytes <= ahead
    ensures bytes == later ==> first + bytes == ahead
    ensures bytes + left == later ==> (first + bytes) + left == ahead
  {
    assert (first + bytes) + left == first + (bytes + left);
  }

  /** Whatever the messages, the answers of their readers and the buffer sizes: the bytes read
      up to the first error are a prefix of the binary payload before the first text message,
      and all of it when the error comes between messages. */
  lemma {:induction false} ReadsRefineStream(f: Flavour, reader: Reader, c: Conn, sizes: seq<nat>)
    requires IsReader(reader) && !c.closed && c.hasSocket
    ensures var (c', bytes, end) := ReadAll(f, reader, c, sizes);
      && bytes <= Ahead(c)
      && (end.Data? ==> bytes + Ahead(c') == Ahead(c))
      && (!end.Data? && c'.current == None ==> bytes == Ahead(c))
      && (end.Parked? || (end.Failed? && !end.error.Transport?) ==> c'.current == None)
    decreases |sizes|
  {
    if sizes == [] {
      assert [] + Ahead(c) == Ahead(c);
    } else {
      var (c', outcome) := Read(f, reader, c, sizes[0]);
      LoopSplitsAhead(f, reader, c, sizes[0]);
      LoopEnds(f, reader, c, sizes[0]);
      if outcome.Data? {
        ReadsRefineStream(f, reader, c', sizes[1..]);
        var (last, bytes, end) := ReadAll(f, reader, c', sizes[1..]);
        AppendPrefix(outcome.bytes, bytes, Ahead(c'), Ahead(c), Ahead(last));
      }
    }
  }

  // ---- Writes and closes ----

  /** A write adds to the stream of the other side exactly the bytes it counts: the whole payload
      or nothing, and the whole payload exactly if it returns no error. */
  lemma WriteIsAllOrNothing(f: Flavour, c: Conn, payload: Bytes, sent: bool)
    ensures var (c', count, error) := Write(f, c, payload, sent);
      && count <= |payload| && AllBytes(c'.out) == AllBytes(c.out) + payload[..count]
      && (error == None ==> count == |payload|) && (error != None ==> count == 0)
      && (error == None <==> !c.closed && c.hasSocket && sent)
      && c' == c.(out := c'.out)
  {
    assert AllBytes(c.out) + [] == AllBytes(c.out);
    AllBytesAppend(c.out, Frame(Binary, payload));
  }

  lemma {:induction false} AllBytesAppend(wire: seq<Frame>, frame: Frame)
    requires frame.kind.Binary?
    ensures AllBytes(wire + [frame]) == AllBytes(wire) + frame.payload
  {
    if wire == [] {
      assert wire + [frame] == [frame] && [frame][1..] == [];
    } else {
      assert (wire + [frame])[1..] == wire[1..] + [frame];
      AllBytesAppend(wire[1..], frame);
    }
  }

  datatype Op = ReadOp(size: nat) | WriteOp(payload: Bytes, sent: bool) | CloseOp(failure: Option<Error>)

  datatype Reply =
    | ReadReply(outcome: Outcome)
    | WriteReply(count: nat, error: Option<Error>)
    | CloseReply(error: Option<Error>)

  function Do(f: Flavour, reader: Reader, c: Conn, op: Op): (Conn, Reply)
    requires IsReader(reader)
  {
    match op
    case ReadOp(size) => var (c', outcome) := Read(f, reader, c, size); (c', ReadReply(outcome))
    case WriteOp(payload, sent) => var (c', count, error) := Write(f, c, payload, sent); (c', WriteReply(count, error))
    case CloseOp(failure) => var (c', error) := Shut(c, failure); (c', CloseReply(error))
  }

  function Replies(f: Flavour, reader: Reader, c: Conn, ops: seq<Op>): (replies: seq<Reply>)
    requires IsReader(reader)
    ensures |replies| == |ops|
    decreases |ops|
  {
    if ops == [] then []
    else var (c', reply) := Do(f, reader, c, ops[0]); [reply] + Replies(f, reader, c', ops[1..])
  }

  function ClosedReply(f: Flavour, op: Op): Reply {
    match op
    case ReadOp(_) => ReadReply(Failed([], ReadClosedError(f)))
    case WriteOp(_, _) => WriteReply(0, Some(WriteClosedError(f)))
    case CloseOp(_) => CloseReply(None)
  }

  lemma {:induction false} ClosedRefuses(f: Flavour, reader: Reader, c: Conn, ops: seq<Op>, j: nat)
    requires IsReader(reader) && c.closed && j < |ops|
    ensures Replies(f, reader, c, ops)[j] == ClosedReply(f, ops[j])
    decreases |ops|
  {
    if j > 0 {
      ClosedRefuses(f, reader, c, ops[1..], j - 1);
    }
  }

  /** After a close every read and write is refused, and no later close reports an error again. */
  lemma {:induction false} NothingAfterClose(f: Flavour, reader: Reader, c: Conn, ops: seq<Op>, i: nat, j: nat)
    requires IsReader(reader) && i < j < |ops| && ops[i].CloseOp?
    ensures Replies(f, reader, c, ops)[j] == ClosedReply(f, ops[j])
    decreases |ops|
  {
    var later := Do(f, reader, c, ops[0]).0;
    if i == 0 {
      ClosedRefuses(f, reader, later, ops[1..], j - 1);
    } else {
      NothingAfterClose(f, reader, later, ops[1..], i - 1, j - 1);
    }
  }

  // ---- The two adapters ----

  /** The grpctunnel form of an outcome of the bridge adapter on an open socket. */
  function AsTunnel(outcome: Outcome): Outcome {
    if outcome == Failed([], NetClosed) then Failed([], EndOfFile) else outcome
  }

  lemma {:induction false} LoopsAgree(reader: Reader, c: Conn, size: nat)
    requires IsReader(reader)
    ensures ReadLoop(Tunnel, reader, c, size) ==
      (ReadLoop(Bridge, reader, c, size).0, AsTunnel(ReadLoop(Bridge, reader, c, size).1))
    decreases Rounds(c)
  {
    if c.current == None {
      if c.wire != [] && c.wire[0].kind.Binary? {
        LoopsAgree(reader, c.(wire := c.wire[1..], current := Some(c.wire[0].payload)), size);
      }
    } else {
      var answer := reader(c.tick, c.current.value, size);
      assert Honours(answer, c.current.value, size);
      if answer.status.AtEnd? && answer.count == 0 {
        LoopsAgree(reader, c.(current := None, tick := c.tick + 1), size);
      }
    }
  }

  lemma ReadsAgree(reader: Reader, c: Conn, size: nat)
    requires IsReader(reader)
    ensures Read(Tunnel, reader, c, size)
         == (Read(Bridge, reader, c, size).0, AsTunnel(Read(Bridge, reader, c, size).1))
  {
    LoopsAgree(reader, c, size);
  }

  /** What each of the reads returns, whatever those before it returned. */
  function Outcomes(f: Flavour, reader: Reader, c: Conn, sizes: seq<nat>): (outcomes: seq<Outcome>)
    requires IsReader(reader)
    ensures |outcomes| == |sizes|
    decreases |sizes|
  {
    if sizes == [] then []
    else var (c', outcome) := Read(f, reader, c, sizes[0]); [outcome] + Outcomes(f, reader, c', sizes[1..])
  }

  /** Over any reads, also after errors, the adapters return the same bytes and end in the same
      state; only the error they generate themselves differs. */
  lemma {:induction false} AdaptersAgree(reader: Reader, c: Conn, sizes: seq<nat>)
    requires IsReader(reader)
    ensures ReadOn(Tunnel, reader, c, sizes) == ReadOn(Bridge, reader, c, sizes)
    ensures forall i :: 0 <= i < |sizes| ==>
      Outcomes(Tunnel, reader, c, sizes)[i] == AsTunnel(Outcomes(Bridge, reader, c, sizes)[i])
    decreases |sizes|
  {
    if sizes != [] {
      ReadsAgree(reader, c, sizes[0]);
      AdaptersAgree(reader, Read(Bridge, reader, c, sizes[0]).0, sizes[1..]);
    }
  }

  /** The same of reads up to the first error. */
  lemma {:induction false} AdaptersAgreeUpToError(reader: Reader, c: Conn, sizes: seq<nat>)
    requires IsReader(reader)
    ensures var (cb, bytesb, endb) := ReadAll(Bridge, reader, c, sizes);
            ReadAll(Tunnel, reader, c, sizes) == (cb, bytesb, AsTunnel(endb))
    decreases |sizes|
  {
    if sizes != [] {
      ReadsAgree(reader, c, sizes[0]);
      var (c', outcome) := Read(Bridge, reader, c, sizes[0]);
      if outcome.Data? {
        AdaptersAgreeUpToError(reader, c', sizes[1..]);
      }
    }
  }

  /** The refusal of a text message is not sticky: the next read goes on behind it. */
  lemma TextRefusalIsNotSticky(f: Flavour, reader: Reader, rest: seq<Frame>, text: Bytes, size: nat)
    requires IsReader(reader)
    ensures var c := Conn(false, true, None, [Frame(Text, text)] + rest, None, 0, []);
      && Read(f, reader, c, size) == (c.(wire := rest), Failed([], TextError(f)))
      && Ahead(c) == [] && Ahead(c.(wire := rest)) == BinaryBytes(rest)
  {
    var wire := [Frame(Text, text)] + rest;
    assert wire[1..] == rest;
    assert [] + BinaryBytes(rest) == BinaryBytes(rest);
  }
}
