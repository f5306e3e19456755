// The tunnel between two native adapters: writes on one side, reads on the other.
module Tunnel {
  import opened Sequences
  import opened NativeConn

  predicate AllBinary(wire: seq<Frame>) {
    forall i :: 0 <= i < |wire| ==> wire[i].kind.Binary?
  }

  lemma {:induction false} BinaryBytesAppend(wire: seq<Frame>, f: Frame)
    requires AllBinary(wire) && f.kind.Binary?
    ensures BinaryBytes(wire + [f]) == BinaryBytes(wire) + f.payload
  {
    if wire == [] {
      assert wire + [f] == [f];
      assert [f][1..] == [];
      assert f.payload + [] == f.payload;
    } else {
      assert (wire + [f])[1..] == wire[1..] + [f];
      BinaryBytesAppend(wire[1..], f);
    }
  }

  lemma {:induction false} LoopOnBinary(f: Flavour, reader: Reader, c: Conn, size: nat)
    requires IsReader(reader) && AllBinary(c.wire)
    ensures var (c', outcome) := ReadLoop(f, reader, c, size);
      AllBinary(c'.wire) && (outcome.Failed? ==> outcome.error.Transport?)
    decreases Rounds(c)
  {
    if c.current == None {
      if c.wire != [] {
        LoopOnBinary(f, reader, c.(wire := c.wire[1..], current := Some(c.wire[0].payload)), size);
      }
    } else {
      var answer := reader(c.tick, c.current.value, size);
      assert Honours(answer, c.current.value, size);
      if answer.status.AtEnd? && answer.count == 0 {
        LoopOnBinary(f, reader, c.(current := None, tick := c.tick + 1), size);
      }
    }
  }

  // ---- Native to native ----

  /** What happens on a link: a write, one message crossing the wire, a read, the loss of the
      peer, or a close at either end. */
  datatype Event =
    Send(payload: Bytes, ok: bool) | Carry | Recv(size: nat) | HangUp(code: nat) | CloseSender | CloseReceiver

  /** Both ends, with the payloads of all successful writes and the bytes of all reads. */
  datatype Link = Link(sender: Conn, receiver: Conn, sent: Bytes, read: Bytes)

  const OPENED: Conn := Conn(false, true, None, [], None, 0, [])

  const FRESH_LINK: Link := Link(OPENED, OPENED, [], [])

  function Step(from: Flavour, to: Flavour, reader: Reader, l: Link, event: Event): Link
    requires IsReader(reader)
  {
    match event
    case Send(payload, ok) =>
      var (sender, count, error) := Write(from, l.sender, payload, ok);
      l.(sender := sender, sent := if error == None then l.sent + payload else l.sent)
    case Carry =>
      if l.sender.out == [] then l
      else l.(sender := l.sender.(out := l.sender.out[1..]),
              receiver := l.receiver.(wire := l.receiver.wire + [l.sender.out[0]]))
    case Recv(size) =>
      var (receiver, outcome) := Read(to, reader, l.receiver, size);
      l.(receiver := receiver, read := l.read + BytesOf(outcome))
    case HangUp(code) => l.(receiver := l.receiver.(broken := Some(code)))
    case CloseSender => l.(sender := l.sender.(closed := true))
    case CloseReceiver => l.(receiver := l.receiver.(closed := true))
  }

  function Run(from: Flavour, to: Flavour, reader: Reader, l: Link, events: seq<Event>): Link
    requires IsReader(reader)
    decreases |events|
  {
    if events == [] then l else Run(from, to, reader, Step(from, to, reader, l, events[0]), events[1..])
  }

  predicate LinkOk(l: Link) {
    && AllBinary(l.sender.out) && AllBinary(l.receiver.wire)
    && l.read + (Ahead(l.receiver) + BinaryBytes(l.sender.out)) == l.sent
  }

  lemma SendKeepsLink(from: Flavour, to: Flavour, reader: Reader, l: Link, payload: Bytes, ok: bool)
    requires IsReader(reader) && LinkOk(l)
    ensures LinkOk(Step(from, to, reader, l, Send(payload, ok)))
  {
    BinaryBytesAppend(l.sender.out, Frame(Binary, payload));
    assert l.read + (Ahead(l.receiver) + (BinaryBytes(l.sender.out) + payload))
        == l.read + (Ahead(l.receiver) + BinaryBytes(l.sender.out)) + payload;
  }

  lemma CarryKeepsLink(from: Flavour, to: Flavour, reader: Reader, l: Link)
    requires IsReader(reader) && LinkOk(l)
    ensures LinkOk(Step(from, to, reader, l, Carry))
  {
    if l.sender.out != [] {
      var f, held := l.sender.out[0], if l.receiver.current.Some? then l.receiver.current.value else [];
      BinaryBytesAppend(l.receiver.wire, f);
      assert held + (BinaryBytes(l.receiver.wire) + f.payload) + BinaryBytes(l.sender.out[1..])
          == held + BinaryBytes(l.receiver.wire) + (f.payload + BinaryBytes(l.sender.out[1..]));
    }
  }

  lemma ShiftBytes(read: Bytes, bytes: Bytes, left: Bytes, ahead: Bytes, queued: Bytes)
    requires bytes + left == ahead
    ensures (read + bytes) + (left + queued) == read + (ahead + queued)
  {
  }

  lemma RecvKeepsLink(from: Flavour, to: Flavour, reader: Reader, l: Link, size: nat)
    requires IsReader(reader) && LinkOk(l)
    ensures LinkOk(Step(from, to, reader, l, Recv(size)))
  {
    var (receiver, outcome) := Read(to, reader, l.receiver, size);
    if l.receiver.closed || !l.receiver.hasSocket {
      assert l.read + [] == l.read;
    } else {
      LoopSplitsAhead(to, reader, l.receiver, size);
      LoopOnBinary(to, reader, l.receiver, size);
      ShiftBytes(l.read, BytesOf(outcome), Ahead(receiver), Ahead(l.receiver), BinaryBytes(l.sender.out));
    }
  }

  lemma {:induction false} RunKeepsLink(from: Flavour, to: Flavour, reader: Reader, l: Link, events: seq<Event>)
    requires IsReader(reader) && LinkOk(l)
    ensures LinkOk(Run(from, to, reader, l, events))
    decreases |events|
  {
    if events != [] {
      match events[0] {
        case Send(payload, ok) => SendKeepsLink(from, to, reader, l, payload, ok);
        case Carry => CarryKeepsLink(from, to, reader, l);
        case Recv(size) => RecvKeepsLink(from, to, reader, l, size);
        case _ =>
      }
      RunKeepsLink(from, to, reader, Step(from, to, reader, l, events[0]), events[1..]);
    }
  }

  /** Native to native, for every interleaving of writes, deliveries, reads, hang-ups and
      closes and all four pairings of the adapters: the bytes read and those in flight are the
      payloads written, in wire order; so the bytes read are a prefix of them, and all of them
      once nothing is in flight. */
  lemma NativeTunnelKeepsStream(from: Flavour, to: Flavour, reader: Reader, events: seq<Event>)
    requires IsReader(reader)
    ensures var l := Run(from, to, reader, FRESH_LINK, events);
      && l.read + Ahead(l.receiver) + BinaryBytes(l.sender.out) == l.sent
      && l.read <= l.sent
      && (l.sender.out == [] && l.receiver.wire == [] && l.receiver.current == None ==> l.read == l.sent)
  {
    RunKeepsLink(from, to, reader, FRESH_LINK, events);
    var l := Run(from, to, reader, FRESH_LINK, events);
    assert l.read + Ahead(l.receiver) + BinaryBytes(l.sender.out) == l.sent;
  }
}
