// The tunnel from a native adapter to a browser: its receiver is the interleaved connection of
// BrowserSteps, with any number of threads.
module BrowserTunnel {
  import opened Sequences
  import opened BrowserStream
  import opened BrowserSteps
  import BrowserCloseOrder
  import NativeConn
  import Tunnel

  /** The writing adapter, the receiving connection, the payloads of all successful writes, and
      the payloads that the browser side refused when they arrived. The browser calls back one
      message at a time: arrivals are the calls of thread 0, which may make other calls too. */
  datatype Link = Link(sender: NativeConn.Conn, receiver: State, sent: Message, refused: Message)

  datatype Event =
    | Write(payload: Message, ok: bool)
    | CloseWriter
    | Arrive
    | Other(move: Move, next: State)

  predicate IsArrival(move: Move) { move.Begin? && move.entry.Storing? }

  function ArrivingPc(s: State): Pc { if s.pcs == [] then Idle else s.pcs[0] }

  /** The message that has arrived and is neither accepted nor refused yet. */
  function InFlight(p: Pc): Message {
    if p.Storing? && !p.store.StoreSignal? then p.m else []
  }

  /** What thread 0 refuses in a step from p to q: a message that meets a closed connection or
      that does not fit. */
  function RefusedBy(p: Pc, q: Pc): Message {
    if p.Storing? && !p.store.StoreSignal? && !q.Storing? then p.m else []
  }

  predicate Next(from: NativeConn.Flavour, l: Link, event: Event, l': Link) {
    match event
    case Write(payload, ok) =>
      var (sender, count, error) := NativeConn.Write(from, l.sender, payload, ok);
      l' == l.(sender := sender, sent := if error == None then l.sent + payload else l.sent)
    case CloseWriter => l' == l.(sender := l.sender.(closed := true))
    case Arrive =>  // the next message on the wire starts its callback
      && l.sender.out != [] && l.receiver.pcs != [] && l.receiver.pcs[0] == Idle
      && var entry := Storing(StoreCheck, l.sender.out[0].payload);
         l' == l.(sender := l.sender.(out := l.sender.out[1..]),
                  receiver := State(l.receiver.pcs[0 := entry], l.receiver.shared))
    case Other(move, next) =>  // any other move of the receiving side
      && !IsArrival(move) && BrowserSteps.Next(l.receiver, move, next)
      && l' == l.(receiver := next,
                  refused := l.refused + RefusedBy(ArrivingPc(l.receiver), ArrivingPc(next)))
  }

  predicate Init(l: Link) {
    l == Link(Tunnel.OPENED, l.receiver, [], []) && BrowserSteps.Init(l.receiver)
  }

  predicate IsRun(from: NativeConn.Flavour, links: seq<Link>, events: seq<Event>) {
    && |links| == |events| + 1 && Init(links[0])
    && forall i :: 0 <= i < |events| ==> Next(from, links[i], events[i], links[i + 1])
  }

  // ---- What holds in every reachable link ----

  /** Thread 0 is on its way from a message that does not fit to the closed flag. */
  predicate Aborts(p: Pc) {
    || (p.Reporting? && p.thenClose)
    || (p.Closing? && (p.close.CloseEnter? || p.close.CloseFlag?))
  }

  /** Nothing is accepted behind a refused message. */
  predicate RefusedIsLast(p: Pc, closed: bool, refused: Message) {
    refused != [] ==> Aborts(p) || (closed && !(p.Storing? && !p.store.StoreCheck?))
  }

  predicate OnlyThreadZeroStores(s: State) {
    forall t :: 0 < t < |s.pcs| ==> !s.pcs[t].Storing?
  }

  predicate LinkOk(l: Link) {
    && Tunnel.AllBinary(l.sender.out)
    && BrowserSteps.Invariant(l.receiver) && OnlyThreadZeroStores(l.receiver)
    && RefusedIsLast(ArrivingPc(l.receiver), l.receiver.shared.closed, l.refused)
    && var underWay := InFlight(ArrivingPc(l.receiver)) + NativeConn.BinaryBytes(l.sender.out);
       l.receiver.shared.accepted + (l.refused + underWay) == l.sent
  }

  predicate AcceptsNothing(a: Shared, q: Pc, b: Shared) {
    b.accepted == a.accepted && !q.Storing? && (a.closed ==> b.closed)
  }

  lemma ReportAcceptsNothing(at: ReportAt, e: Error, c: bool, a: Shared, t: nat, q: Pc, b: Shared)
    requires ReportStep(at, e, c, a, t, q, b)
    ensures AcceptsNothing(a, q, b)
  {
  }

  lemma CloseAcceptsNothing(at: CloseAt, a: Shared, t: nat, q: Pc, b: Shared)
    requires CloseStep(at, a, t, q, b)
    ensures AcceptsNothing(a, q, b)
  {
  }

  lemma ReadAcceptsNothing(at: ReadAt, n: nat, l: bool, a: Shared, t: nat, q: Pc, b: Shared)
    requires ReadStep(at, n, l, a, t, q, b)
    ensures AcceptsNothing(a, q, b)
  {
  }

  lemma OnlyStoresAccept(p: Pc, a: Shared, t: nat, q: Pc, b: Shared)
    requires ThreadStep(p, a, t, q, b) && !p.Storing?
    ensures AcceptsNothing(a, q, b)
  {
    match p
    case Reporting(at, e, c) => ReportAcceptsNothing(at, e, c, a, t, q, b);
    case Closing(at) => CloseAcceptsNothing(at, a, t, q, b);
    case Reading(at, n, l) => ReadAcceptsNothing(at, n, l, a, t, q, b);
  }

  lemma ShiftRefused(accepted: Message, refused: Message, m: Message, wire: Message)
    ensures accepted + ((refused + m) + ([] + wire)) == accepted + (refused + (m + wire))
    ensures refused == [] ==> (accepted + m) + (refused + ([] + wire)) == accepted + (refused + (m + wire))
  {
  }

  /** A step of thread 0 inside a store. */
  lemma StoreKeepsLink(at: StoreAt, m: Message, a: Shared, q: Pc, b: Shared, refused: Message, wire: Message)
    requires StoreStep(at, m, a, 0, q, b) && RefusedIsLast(Storing(at, m), a.closed, refused)
    ensures var refused' := refused + RefusedBy(Storing(at, m), q);
      && RefusedIsLast(q, b.closed, refused')
      && b.accepted + (refused' + (InFlight(q) + wire)) == a.accepted + (refused + (InFlight(Storing(at, m)) + wire))
  {
    ShiftRefused(a.accepted, refused, m, wire);
    assert refused + [] == refused;
  }

  /** A step of thread 0 inside any other call: an abort goes on until the connection is closed. */
  lemma OtherCallKeepsRefused(p: Pc, a: Shared, q: Pc, b: Shared, refused: Message)
    requires ThreadStep(p, a, 0, q, b) && !p.Storing? && RefusedIsLast(p, a.closed, refused)
    requires a.once.Done? ==> a.closed
    ensures RefusedIsLast(q, b.closed, refused)
  {
  }

  lemma ActKeepsLink(l: Link, t: nat, q: Pc, next: State)
    requires LinkOk(l) && BrowserSteps.Next(l.receiver, Act(t, q), next)
    ensures LinkOk(l.(receiver := next, refused := l.refused + RefusedBy(ArrivingPc(l.receiver), ArrivingPc(next))))
  {
    var s, wire := l.receiver, NativeConn.BinaryBytes(l.sender.out);
    BrowserSteps.NextKeepsInvariant(s, Act(t, q), next);
    var p := s.pcs[t];
    if p.Storing? {
      StoreKeepsLink(p.store, p.m, s.shared, q, next.shared, l.refused, wire);
    } else {
      OnlyStoresAccept(p, s.shared, t, q, next.shared);
      assert l.refused + [] == l.refused;
      if t == 0 {
        OtherCallKeepsRefused(p, s.shared, q, next.shared, l.refused);
      }
    }
  }

  lemma BeginKeepsLink(l: Link, t: nat, entry: Pc, next: State)
    requires LinkOk(l) && BrowserSteps.Next(l.receiver, Begin(t, entry), next) && !entry.Storing?
    ensures LinkOk(l.(receiver := next, refused := l.refused + RefusedBy(ArrivingPc(l.receiver), ArrivingPc(next))))
  {
    BrowserSteps.NextKeepsInvariant(l.receiver, Begin(t, entry), next);
    assert l.refused + [] == l.refused;
  }

  lemma ArriveKeepsLink(from: NativeConn.Flavour, l: Link, l': Link)
    requires LinkOk(l) && Next(from, l, Event.Arrive, l')
    ensures LinkOk(l')
  {
    var m := l.sender.out[0].payload;
    BrowserSteps.NextKeepsInvariant(l.receiver, Begin(0, Storing(StoreCheck, m)), l'.receiver);
    assert [] + NativeConn.BinaryBytes(l.sender.out) == m + NativeConn.BinaryBytes(l'.sender.out);
  }

  lemma AppendAll(x: Message, y: Message, z: Message, w: Message, payload: Message)
    ensures x + (y + (z + (w + payload))) == x + (y + (z + w)) + payload
  {
  }

  lemma WriteKeepsLink(from: NativeConn.Flavour, l: Link, payload: Message, ok: bool, l': Link)
    requires LinkOk(l) && Next(from, l, Write(payload, ok), l')
    ensures LinkOk(l')
  {
    Tunnel.BinaryBytesAppend(l.sender.out, NativeConn.Frame(NativeConn.Binary, payload));
    AppendAll(l.receiver.shared.accepted, l.refused, InFlight(ArrivingPc(l.receiver)),
      NativeConn.BinaryBytes(l.sender.out), payload);
  }

  lemma NextKeepsLink(from: NativeConn.Flavour, l: Link, event: Event, l': Link)
    requires LinkOk(l) && Next(from, l, event, l')
    ensures LinkOk(l')
  {
    match event
    case Write(payload, ok) => WriteKeepsLink(from, l, payload, ok, l');
    case CloseWriter =>
    case Arrive => ArriveKeepsLink(from, l, l');
    case Other(move, next) =>
      if move.Act? {
        ActKeepsLink(l, move.t, move.next, next);
      } else {
        BeginKeepsLink(l, move.t, move.entry, next);
      }
  }

  lemma InitialLink(l: Link)
    requires Init(l)
    ensures LinkOk(l)
  {
    assert l.receiver.pcs != [] ==> l.receiver.pcs[0] == Idle;
  }

  lemma {:induction false} ReachableLink(from: NativeConn.Flavour, links: seq<Link>, events: seq<Event>, i: nat)
    requires IsRun(from, links, events) && i < |links|
    ensures LinkOk(links[i])
  {
    if i == 0 {
      InitialLink(links[0]);
    } else {
      ReachableLink(from, links, events, i - 1);
      NextKeepsLink(from, links[i - 1], events[i - 1], links[i]);
    }
  }

  // ---- Results ----

  lemma Regroup(x: Message, y: Message, z: Message, w: Message)
    ensures x + (y + z + w) == x + y + z + w && x + (y + z) == x + y + z
  {
  }

  /** Native to browser, for every interleaving of writes, arrivals, reads, error reports and
      closes of any threads, open or closed: the payloads written are, in wire order, those
      accepted, then those refused, then what is under way. As long as no close has cleared the
      queue, the bytes delivered and held by the connection are the accepted ones, so the bytes
      delivered are a prefix of those written, and all of them once nothing is held, refused or
      under way. Bytes are refused only by a connection that is closed or about to close. */
  lemma TunnelKeepsStream(from: NativeConn.Flavour, links: seq<Link>, events: seq<Event>, i: nat)
    requires IsRun(from, links, events) && i < |links|
    ensures var l, a := links[i], links[i].receiver.shared;
      var underWay := InFlight(ArrivingPc(l.receiver)) + NativeConn.BinaryBytes(l.sender.out);
      var held := Popped(Reader(l.receiver)) + a.tail + Flatten(a.queue);
      && a.accepted + l.refused + underWay == l.sent
      && (l.refused != [] ==> a.closed || Aborts(ArrivingPc(l.receiver)))
      && (!a.closed ==> a.cut == None)
      && (a.cut == None ==>
            && a.delivered + held == a.accepted
            && a.delivered <= l.sent
            && (held == [] && l.refused == [] && underWay == [] ==> a.delivered == l.sent))
  {
    ReachableLink(from, links, events, i);
    var l, a := links[i], links[i].receiver.shared;
    KeptInOrder(Reader(l.receiver), a);
    Regroup(a.accepted, l.refused, InFlight(ArrivingPc(l.receiver)) + NativeConn.BinaryBytes(l.sender.out), []);
    Regroup(a.delivered, Popped(Reader(l.receiver)), a.tail, Flatten(a.queue));
  }

  /** What is on the wire can arrive whenever thread 0 is idle, open or closed. */
  lemma WireCanArrive(from: NativeConn.Flavour, l: Link)
    requires l.sender.out != [] && l.receiver.pcs != [] && l.receiver.pcs[0] == Idle
    ensures exists l' ::
      && Next(from, l, Event.Arrive, l')
      && InFlight(ArrivingPc(l'.receiver)) == l.sender.out[0].payload && l'.sender.out == l.sender.out[1..]
  {
    var entry := Storing(StoreCheck, l.sender.out[0].payload);
    var l' := l.(sender := l.sender.(out := l.sender.out[1..]),
                 receiver := State(l.receiver.pcs[0 := entry], l.receiver.shared));
    assert Next(from, l, Event.Arrive, l');
  }

  /** Also after a close the bytes delivered are a prefix of those written, unless there is a gap. */
  lemma TunnelKeepsOrder(from: NativeConn.Flavour, links: seq<Link>, events: seq<Event>, i: nat)
    requires IsRun(from, links, events) && i < |links|
    ensures !BrowserCloseOrder.Gap(links[i].receiver.shared) ==> links[i].receiver.shared.delivered <= links[i].sent
  {
    ReachableLink(from, links, events, i);
    BrowserCloseOrder.KeptUpToGap(Reader(links[i].receiver), links[i].receiver.shared);
    assert links[i].receiver.shared.accepted <= links[i].sent;
  }

  lemma NoGapAheadOfLink(from: NativeConn.Flavour, l: Link, event: Event, l': Link)
    requires LinkOk(l) && Next(from, l, event, l') && BrowserCloseOrder.NoGapAhead(l.receiver)
    ensures BrowserCloseOrder.NoGapAhead(l'.receiver)
  {
    match event
    case Arrive =>
      var entry := Storing(StoreCheck, l.sender.out[0].payload);
      BrowserCloseOrder.NextKeepsNoGapAhead(l.receiver, Begin(0, entry), l'.receiver);
    case Other(move, next) => BrowserCloseOrder.NextKeepsNoGapAhead(l.receiver, move, next);
    case _ =>
  }

  lemma NextKeepsNoGapAhead(from: NativeConn.Flavour, links: seq<Link>, events: seq<Event>, i: nat)
    requires IsRun(from, links, events) && i < |events| && BrowserCloseOrder.NoGapAhead(links[i].receiver)
    ensures BrowserCloseOrder.NoGapAhead(links[i + 1].receiver)
  {
    ReachableLink(from, links, events, i);
    NoGapAheadOfLink(from, links[i], events[i], links[i + 1]);
  }

  lemma {:induction false} NoGapAlongLinks(
    from: NativeConn.Flavour, links: seq<Link>, events: seq<Event>, i: nat, j: nat)
    requires IsRun(from, links, events) && i <= j < |links| && BrowserCloseOrder.NoGapAhead(links[i].receiver)
    ensures BrowserCloseOrder.NoGapAhead(links[j].receiver)
    decreases j - i
  {
    if i < j {
      NextKeepsNoGapAhead(from, links, events, i);
      NoGapAlongLinks(from, links, events, i + 1, j);
    }
  }

  /** A close that clears the queue when no gap may open keeps the order of the tunnel for ever. */
  lemma CloseKeepsTunnelOrder(from: NativeConn.Flavour, links: seq<Link>, events: seq<Event>, i: nat, j: nat)
    requires IsRun(from, links, events) && i < |events| && i < j < |links|
    requires events[i].Other? && BrowserCloseOrder.Clears(links[i].receiver, events[i].move)
    requires !BrowserCloseOrder.MayLeaveGap(links[i].receiver)
    ensures links[j].receiver.shared.delivered <= links[j].sent
  {
    ReachableLink(from, links, events, i);
    assert Next(from, links[i], events[i], links[i + 1]);
    BrowserCloseOrder.ClearLeavesNoGapAhead(links[i].receiver, events[i].move, links[i + 1].receiver);
    NoGapAlongLinks(from, links, events, i + 1, j);
    SameThreads(from, links, events, i, j);
    BrowserCloseOrder.NoGapAheadMeansNone(links[j].receiver);
    TunnelKeepsOrder(from, links, events, j);
  }

  lemma {:induction false} SameThreads(
    from: NativeConn.Flavour, links: seq<Link>, events: seq<Event>, i: nat, j: nat)
    requires IsRun(from, links, events) && i <= j < |links|
    ensures |links[j].receiver.pcs| == |links[i].receiver.pcs|
    decreases j
  {
    if i < j {
      SameThreads(from, links, events, i, j - 1);
      assert Next(from, links[j - 1], events[j - 1], links[j]);
    }
  }
}
