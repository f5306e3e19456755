// The browser connection as it is stored: queued messages live in a slice (backing array,
// length, moving head) that is compacted in place, beside a running byte count.
// Every method is proved against the value-level functions of BrowserStream.
module BrowserConn {
  import opened Sequences
  import opened BrowserStream

  /** A slot of the backing array; a consumed or unused slot holds no message. */
  datatype Slot = Nil | Held(m: Message)

  /** Capacities that append can produce: 8 doubled up to 256, or 1 doubled once close
      has dropped the first array. */
  predicate IsCapacity(n: nat) {
    n == 0 || n == 1 || n == 2 || n == 4 || n == 8 || n == 16 || n == 32 || n == 64 || n == 128 || n == 256
  }

  function Grown(capacity: nat): nat {
    if capacity == 0 then 1 else 2 * capacity
  }

  function Payload(slot: Slot): Message {
    if slot.Held? then slot.m else []
  }

  function Payloads(slots: seq<Slot>): (ms: seq<Message>)
    ensures |ms| == |slots| && forall i :: 0 <= i < |ms| ==> ms[i] == Payload(slots[i])
  {
    seq(|slots|, i requires 0 <= i < |slots| => Payload(slots[i]))
  }

  lemma GrownIsCapacity(n: nat)
    requires IsCapacity(n) && n < MAX_QUEUED_MESSAGES
    ensures IsCapacity(Grown(n))
  {
  }

  class Connection {
    var slots: array<Slot>
    var length: nat
    var head: nat
    var queuedBytes: int
    var tail: Message
    var token: bool
    var errors: seq<Error>
    var errorsClosed: bool
    var isClosed: bool

    /** The slice and its head: consumed space is below half of the slice, and exactly the
        live slots hold a message, so nothing already read is retained. */
    ghost predicate QueueShape()
      reads this, slots
    {
      && head <= length <= slots.Length
      && (head == 0 || head < length / 2)
      && IsCapacity(slots.Length)
      && forall i :: 0 <= i < slots.Length ==> (slots[i].Held? <==> head <= i < length)
    }

    ghost function Queue(): (q: seq<Message>)
      requires head <= length <= slots.Length
      reads this, slots
      ensures |q| == length - head
    {
      Payloads(slots[head..length])
    }

    /** What the queue lock protects. It holds between the closed flag and the close of the error
        channel as well, when a late append or a late pop can happen. */
    ghost predicate QueueValid()
      reads this, slots
    {
      QueueShape() && WithinLimits(Queue()) && queuedBytes == TotalLength(Queue())
    }

    ghost predicate Valid()
      reads this, slots
    {
      QueueValid() && |errors| <= ERROR_CAPACITY && errorsClosed == isClosed
    }

    ghost function Value(): Conn
      requires head <= length <= slots.Length
      reads this, slots
    {
      Conn(isClosed, Queue(), tail, token, errors)
    }

    constructor ()
      ensures Valid() && Value() == FRESH
      ensures slots.Length == 8 && fresh(slots)
    {
      slots := new Slot[8](_ => Nil);
      length, head, queuedBytes := 0, 0, 0;
      tail, token, errors := [], false, [];
      errorsClosed, isClosed := false, false;
    }

    /** Compacts the slice when its consumed head is large; afterwards either the head is 0
        or an append fits without moving the array. */
    method ClearQueuedMessagesHead()
      requires head <= length <= slots.Length
      requires forall i :: 0 <= i < slots.Length ==> (slots[i].Held? <==> head <= i < length)
      modifies this`length, this`head, slots
      ensures head <= length <= slots.Length
      ensures forall i :: 0 <= i < slots.Length ==> (slots[i].Held? <==> head <= i < length)
      ensures Queue() == old(Queue())
      ensures head == 0 || (head < length / 2 && length < slots.Length)
      ensures old(head) > 0 ==> length < slots.Length
      ensures old(head) == 0 ==> head == 0 && length == old(length) && slots[..] == old(slots[..])
    {
      if head == 0 {
        return;
      }
      if head < length / 2 && length < slots.Length {
        return;
      }
      var keep := length - head;
      forall i | 0 <= i < keep {
        slots[i] := slots[head + i];
      }
      var i := keep;
      while i < length
        modifies slots
        invariant keep <= i <= length <= slots.Length
        invariant forall j :: 0 <= j < keep ==> slots[j] == old(slots[head + j])
        invariant forall j :: keep <= j < i ==> slots[j].Nil?
        invariant forall j :: length <= j < slots.Length ==> slots[j].Nil?
      {
        slots[i] := Nil;
        i := i + 1;
      }
      assert slots[..keep] == old(slots[head..length]);
      assert forall j :: 0 <= j < keep ==> slots[j].Held?;
      length := keep;
      head := 0;
    }

    /** The slice append of one message: in place while there is room, else into an array
        of twice the capacity. */
    method Append(m: Message)
      requires head <= length <= slots.Length
      requires forall i :: 0 <= i < slots.Length ==> (slots[i].Held? <==> head <= i < length)
      modifies this`length, this`slots, slots
      ensures head <= length <= slots.Length && length == old(length) + 1
      ensures forall i :: 0 <= i < slots.Length ==> (slots[i].Held? <==> head <= i < length)
      ensures Queue() == old(Queue()) + [m]
      ensures if old(length) < old(slots).Length then slots == old(slots)
              else fresh(slots) && slots.Length == Grown(old(slots).Length)
    {
      if length == slots.Length {
        var larger := new Slot[Grown(slots.Length)](_ => Nil);
        forall i | 0 <= i < length {
          larger[i] := slots[i];
        }
        slots := larger;
      }
      slots[length] := Held(m);
      length := length + 1;
      assert slots[head..length] == old(slots[head..length]) + [Held(m)];
    }

    /** Makes room and appends; the array moves only when nothing is consumed and it is full. */
    method CompactAndAppend(m: Message)
      requires QueueShape() && length - head < MAX_QUEUED_MESSAGES
      modifies this`length, this`head, this`slots, slots
      ensures QueueShape() && Queue() == old(Queue()) + [m]
      ensures slots != old(slots) ==> fresh(slots) && old(head == 0 && length == slots.Length)
    {
      ClearQueuedMessagesHead();
      if length == slots.Length {
        GrownIsCapacity(slots.Length);
      }
      Append(m);
    }

    /** The locked part of storing a message: it is queued exactly when both limits still
        hold with it. */
    method Enqueue(m: Message) returns (fits: bool)
      requires QueueValid()
      modifies this`length, this`head, this`slots, this`queuedBytes, slots
      ensures QueueValid()
      ensures fits <==> Fits(old(Queue()), m)
      ensures Value() == if fits then old(Value()).(queue := old(Queue()) + [m]) else old(Value())
      ensures slots != old(slots) ==> fresh(slots) && old(head == 0 && length == slots.Length)
    {
      FitsExactly(Queue(), m);
      TotalLengthAppend(Queue(), m);
      var depth := length - head;
      var available := MAX_QUEUED_BYTES - |m|;
      if depth >= MAX_QUEUED_MESSAGES || available < 0 || queuedBytes > available {
        return false;
      }
      CompactAndAppend(m);
      queuedBytes := queuedBytes + |m|;
      return true;
    }

    /** Pops the oldest message, if any, and forgets it in the array. */
    method ShiftQueuedMessage() returns (m: Message, ok: bool)
      requires QueueValid()
      modifies this`length, this`head, this`queuedBytes, slots
      ensures QueueValid()
      ensures ok <==> old(Queue()) != []
      ensures ok ==> m == old(Queue())[0] && Value() == old(Value()).(queue := old(Queue())[1..])
      ensures !ok ==> Value() == old(Value())
    {
      if head >= length {
        return [], false;
      }
      m := Payload(slots[head]);
      slots[head] := Nil;
      queuedBytes := queuedBytes - |m|;
      if queuedBytes < 0 {
        assert false;
      }
      head := head + 1;
      assert Queue() == old(Queue())[1..];
      if head >= length {
        length := 0;
        head := 0;
      } else {
        ClearQueuedMessagesHead();
      }
      return m, true;
    }

    /** Queues an error for readers, unless the connection is closed or four are waiting;
        in particular never on the closed channel. */
    method StoreConnectionError(e: Error)
      requires Valid()
      modifies this`errors
      ensures Valid() && Value() == Report(old(Value()), e)
    {
      if isClosed {
        return;
      }
      assert !errorsClosed;
      if |errors| < ERROR_CAPACITY {
        errors := errors + [e];
      }
    }

    /** Empties every slot of the array the queue lived in and lets go of it. */
    method DropQueuedMessages()
      requires QueueShape()
      modifies this`slots, this`length, this`head, this`queuedBytes, slots
      ensures QueueShape() && Queue() == [] && queuedBytes == 0
      ensures forall i :: 0 <= i < old(slots).Length ==> old(slots)[i].Nil?
      ensures fresh(slots) && slots.Length == 0
    {
      var i := 0;
      while i < length
        modifies slots
        invariant 0 <= i <= length <= slots.Length
        invariant forall j :: 0 <= j < i ==> slots[j].Nil?
        invariant forall j :: length <= j < slots.Length ==> slots[j].Nil?
      {
        slots[i] := Nil;
        i := i + 1;
      }
      slots := new Slot[0];
      length, head, queuedBytes := 0, 0, 0;
    }

    /** Closes once and empties every slot of the array. The tail is dropped only if TryLock
        gets the read lock: while a read is in progress it stays reachable. */
    method CloseChannels(readFree: bool)
      requires Valid()
      modifies this, slots
      ensures Valid() && Value() == Close(old(Value()), readFree)
      ensures !old(isClosed) ==> forall i :: 0 <= i < old(slots).Length ==> old(slots)[i].Nil?
      ensures slots == old(slots) || (fresh(slots) && slots.Length == 0)
    {
      if isClosed {
        return;
      }
      isClosed := true;
      DropQueuedMessages();
      if readFree {
        tail := [];
      }
      errorsClosed := true;
    }

    /** Aborts the connection when inbound buffering would exceed a limit. */
    method HandleQueueOverflow(depth: nat, bytes: nat, incoming: nat, readFree: bool)
      requires Valid()
      modifies this, slots
      ensures Valid() && Value() == Close(Report(old(Value()), Overflow(depth + 1, bytes + incoming)), readFree)
      ensures slots == old(slots) || fresh(slots)
    {
      StoreConnectionError(Overflow(depth + 1, bytes + incoming));
      CloseChannels(readFree);
    }

    /** One token is enough to wake a reader, however many messages are queued. */
    method SignalReaders()
      requires Valid()
      modifies this`token
      ensures Valid() && Value() == old(Value()).(token := true)
    {
      token := true;
    }

    method StoreIncomingMessage(m: Message, readFree: bool)
      requires Valid()
      modifies this, slots
      ensures Valid() && Value() == Store(old(Value()), m, readFree)
      ensures slots == old(slots) || fresh(slots)
    {
      if isClosed {
        return;
      }
      ghost var before := Value();
      var depth, bytes := length - head, queuedBytes;
      assert Overflow(depth + 1, bytes + |m|) == OverflowError(before.queue, m);
      var fits := Enqueue(m);
      if !fits {
        HandleQueueOverflow(depth, bytes, |m|, readFree);
        assert Value() == Close(Report(before, OverflowError(before.queue, m)), readFree) == Store(before, m, readFree);
        return;
      }
      SignalReaders();
      assert Value() == Store(before, m, readFree);
    }

    /** Waits in the select of a read on an empty queue: an error, a wake-up after which the
        queue is tried again, or neither. */
    method AwaitSignal(errorFirst: bool) returns (outcome: Option<Outcome>)
      modifies this`token, this`errors
      ensures outcome == if old(errors) != [] && (errorFirst || !old(token)) then Some(Failed(old(errors)[0]))
                         else if old(token) then None else Some(Parked)
      ensures token == (old(token) && outcome.Some?)
      ensures errors == if outcome.Some? && outcome.value.Failed? then old(errors)[1..] else old(errors)
    {
      if errors != [] && (errorFirst || !token) {
        outcome := Some(Failed(errors[0]));
        errors := errors[1..];
      } else if token {
        token := false;
        outcome := None;
      } else {
        outcome := Some(Parked);
      }
    }

    /** Takes the next message if there is one: as much as fits, keeping the rest as tail. */
    method TakeMessage(size: nat) returns (bytes: Message, ok: bool)
      requires QueueValid() && tail == []
      modifies this`length, this`head, this`queuedBytes, this`tail, slots
      ensures QueueValid() && (ok <==> old(Queue()) != [])
      ensures ok ==> var n := Min(size, |old(Queue())[0]|);
        && bytes == old(Queue())[0][..n]
        && tail == old(Queue())[0][n..]
        && Queue() == old(Queue())[1..]
      ensures !ok ==> tail == [] && Queue() == []
    {
      var m;
      m, ok := ShiftQueuedMessage();
      var n := Min(size, |m|);
      bytes := m[..n];
      if ok && n < |m| {
        tail := m[n..];
      }
    }

    /** One read into a buffer of the given size. Parked means that the select would block;
        errorFirst settles its choice when both of its channels are ready. */
    method Receive(size: nat, errorFirst: bool) returns (outcome: Outcome)
      requires Valid()
      modifies this, slots
      ensures Valid() && (Value(), outcome) == Read(old(Value()), size, errorFirst)
      ensures slots == old(slots)
    {
      if isClosed {
        return Failed(NetClosed);
      }
      if |tail| > 0 {
        var n := Min(size, |tail|);
        outcome := Data(tail[..n]);
        tail := tail[n..];
        return;
      }
      ghost var before := Value();
      while true
        invariant Valid() && slots == old(slots) && tail == []
        invariant Value() == before ||
          (before.queue == [] && !(errorFirst && before.errors != []) && Value() == before.(token := false))
        decreases token
      {
        var bytes, ok := TakeMessage(size);
        if ok {
          return Data(bytes);
        }
        var signal := AwaitSignal(errorFirst);
        if signal.Some? {
          return signal.value;
        }
      }
    }
  }
}
