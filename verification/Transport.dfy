/** src/transport.c on the heap: a fixed input buffer, a linked output queue and a pool of free buffers. */
module Transport {
  import opened Base
  import opened Framing

  const MAX_POOLED_BUFFERS: nat := 4
  const OUTPUT_BUFFER_SIZE: nat := 8192

  /** The bytes stored inside a transport buffer. */
  type Storage = s: seq<Byte> | |s| == OUTPUT_BUFFER_SIZE witness seq(OUTPUT_BUFFER_SIZE, _ => 0)

  /** rl_transport_buf_t. */
  class TransportBuf {
    var buffer: Storage
    var usedSize: nat
    var remaining: nat
    var next: TransportBuf?

    constructor ()
      ensures usedSize == 0 && remaining == 0 && next == null
    {
      buffer := seq(OUTPUT_BUFFER_SIZE, _ => 0);
      usedSize, remaining, next := 0, 0, null;
    }

    /** This node holds the queued message v. */
    ghost predicate Shows(v: OutBuffer)
      reads this`buffer, this`usedSize, this`remaining
    {
      remaining == v.remaining <= usedSize <= OUTPUT_BUFFER_SIZE && buffer[..usedSize] == v.bytes
    }
  }

  datatype UpdateStatus = TransportError | TransportDisconnected | TransportOk(needOutput: bool)

  /** How a turn of the delivery loop ends. */
  datatype Delivery = Delivered(frame: seq<Byte>) | Refused | Waiting

  type Nodes = seq<TransportBuf>

  ghost predicate Distinct(s: Nodes) {
    forall i, j :: 0 <= i < j < |s| ==> s[i] != s[j]
  }

  ghost function After(s: Nodes, i: nat, end: TransportBuf?): TransportBuf? {
    if i + 1 < |s| then s[i + 1] else end
  }

  /** The nodes of s, in order and without repetition, lead from start to end. */
  ghost predicate Segment(start: TransportBuf?, s: Nodes, end: TransportBuf?)
    reads s`next
  {
    && (if s == [] then start == end else start == s[0])
    && (forall i :: 0 <= i < |s| ==> s[i].next == After(s, i, end))
    && Distinct(s)
  }

  /** The nodes of s form the whole list that starts at head: it is acyclic. */
  ghost predicate Linked(head: TransportBuf?, s: Nodes)
    reads s`next
  {
    Segment(head, s, null)
  }

  ghost predicate Showing(s: Nodes, views: seq<OutBuffer>)
    reads s`buffer, s`usedSize, s`remaining
  {
    |s| == |views| && forall i :: 0 <= i < |s| ==> s[i].Shows(views[i])
  }

  lemma EmptyList(head: TransportBuf?, s: Nodes)
    requires Linked(head, s)
    ensures head == null <==> s == []
  {
  }

  lemma LinkedTail(head: TransportBuf?, s: Nodes)
    requires Linked(head, s) && s != []
    ensures head == s[0] && Linked(s[0].next, s[1..]) && s[0] !in s[1..]
  {
    assert s[0].next == After(s, 0, null);
    forall i | 0 <= i < |s[1..]|
      ensures s[1..][i].next == After(s[1..], i, null)
    {
      assert s[i + 1].next == After(s, i + 1, null);
    }
  }

  lemma LinkedCons(head: TransportBuf?, s: Nodes, b: TransportBuf)
    requires Linked(head, s) && b !in s && b.next == head
    ensures Linked(b, [b] + s)
  {
    var t := [b] + s;
    forall i | 0 <= i < |t|
      ensures t[i].next == After(t, i, null)
    {
      if i > 0 {
        assert s[i - 1].next == After(s, i - 1, null);
      }
    }
  }

  lemma SplitLast(head: TransportBuf?, s: Nodes)
    requires Linked(head, s) && s != []
    ensures var front, last := s[..|s| - 1], s[|s| - 1];
      Segment(head, front, last) && last !in front
  {
    var front, last := s[..|s| - 1], s[|s| - 1];
    forall i | 0 <= i < |front|
      ensures front[i].next == After(front, i, last)
    {
      assert s[i].next == After(s, i, null);
    }
  }

  lemma JoinTwo(head: TransportBuf?, front: Nodes, last: TransportBuf, b: TransportBuf)
    requires Segment(head, front, last) && last !in front && last.next == b
    requires b !in front && b != last && b.next == null
    ensures Linked(head, front + [last] + [b])
  {
    var t := front + [last] + [b];
    forall i | 0 <= i < |t|
      ensures t[i].next == After(t, i, null)
    {
      if i < |front| {
        assert front[i].next == After(front, i, last);
      }
    }
  }

  lemma LinkedSingle(b: TransportBuf)
    requires b.next == null
    ensures Linked(b, [b])
  {
  }

  lemma ShowingTail(s: Nodes, views: seq<OutBuffer>)
    requires Showing(s, views) && s != []
    ensures s[0].Shows(views[0]) && Showing(s[1..], views[1..])
  {
  }

  lemma ShowingSnoc(s: Nodes, views: seq<OutBuffer>, b: TransportBuf, v: OutBuffer)
    requires Showing(s, views) && b.Shows(v)
    ensures Showing(s + [b], views + [v])
  {
  }

  lemma ShowingCons(b: TransportBuf, v: OutBuffer, s: Nodes, views: seq<OutBuffer>)
    requires Showing(s, views) && b.Shows(v)
    ensures Showing([b] + s, [v] + views)
  {
  }

  ghost function Elements(s: Nodes): set<TransportBuf> {
    set b | b in s
  }

  method Detach(b: TransportBuf, ghost head: TransportBuf?, ghost rest: Nodes)
    requires Linked(head, rest) && b !in rest
    modifies b`next
    ensures b.next == null && Linked(head, rest)
  {
    b.next := null;
  }

  class Transport {
    const inbuf: array<Byte>
    const accepts: seq<Byte> -> bool
    var readCursor: nat
    var writeCursor: nat
    var outQueue: TransportBuf?
    var outTail: TransportBuf?
    var nextFree: TransportBuf?
    var numFree: nat
    var error: bool
    var disconnect: bool

    // Which nodes the two lists are made of, the messages in the queue, and
    // every buffer taken from the heap and not given back.
    ghost var queue: Nodes
    ghost var pool: Nodes
    ghost var views: seq<OutBuffer>
    ghost var live: set<TransportBuf>

    // What has passed through.
    ghost var received: seq<Byte>
    ghost var delivered: seq<seq<Byte>>
    ghost var sent: seq<Byte>
    ghost var enqueued: seq<Byte>

    ghost predicate ValidInput()
      reads this`readCursor, this`writeCursor
    {
      readCursor <= writeCursor <= inbuf.Length && 4 <= inbuf.Length
    }

    ghost predicate ValidQueue()
      reads this`outQueue, this`outTail, this`queue, this`views, queue
    {
      && Linked(outQueue, queue)
      && (queue != [] ==> outTail == queue[|queue| - 1])
      && |queue| == |views|
      && Showing(queue, views)
    }

    ghost predicate ValidPool()
      reads this`nextFree, this`numFree, this`pool, pool
    {
      Linked(nextFree, pool) && numFree == |pool| <= MAX_POOLED_BUFFERS
    }

    /** Queue and pool have no node in common, and all of both is memory in use. */
    ghost predicate Apart()
      reads this`queue, this`pool, this`live
    {
      && (forall i, j :: 0 <= i < |queue| && 0 <= j < |pool| ==> queue[i] != pool[j])
      && (forall i :: 0 <= i < |queue| ==> queue[i] in live)
      && (forall i :: 0 <= i < |pool| ==> pool[i] in live)
    }

    ghost predicate ValidOutput()
      reads this`outQueue, this`outTail, this`queue, this`views
      reads this`nextFree, this`numFree, this`pool, this`live, queue, pool
    {
      ValidQueue() && ValidPool() && Apart()
    }

    ghost predicate Valid()
      reads this, queue, pool
    {
      ValidInput() && ValidOutput()
    }

    ghost function In(): Inbound
      requires ValidInput()
      reads this, inbuf
    {
      Inbound(received, inbuf[readCursor..writeCursor], delivered, error, disconnect)
    }

    ghost function Out(): Outbound
      reads this
    {
      Outbound(views, sent, enqueued, error)
    }

    /** A buffer that a caller of alloc_buffer holds. */
    ghost predicate Held(b: TransportBuf)
      reads this
    {
      b in live && b !in queue && b !in pool
    }

    constructor (size: nat, accepts: seq<Byte> -> bool)
      requires size >= 4
      ensures Valid() && fresh(inbuf) && inbuf.Length == size && this.accepts == accepts
      ensures In() == NOTHING && Out() == Outbound([], [], [], false)
      ensures queue == [] && pool == [] && live == {}
    {
      inbuf := new Byte[size];
      this.accepts := accepts;
      readCursor, writeCursor := 0, 0;
      outQueue, outTail, nextFree, numFree := null, null, null, 0;
      error, disconnect := false, false;
      queue, pool, views, live := [], [], [], {};
      received, delivered, sent, enqueued := [], [], [], [];
    }

    // ---------- buffers ----------

    /** rl_transport_alloc_buffer; memory says whether the heap has room for a new buffer. */
    method AllocBuffer(memory: bool) returns (result: TransportBuf?)
      requires ValidOutput()
      modifies this`nextFree, this`numFree, this`pool, this`live, pool
      ensures ValidOutput()
      ensures result == null <==> old(pool) == [] && !memory
      ensures result != null ==> Held(result) && result.next == null
      ensures old(pool) != [] ==> result == old(pool[0]) && pool == old(pool)[1..] && live == old(live)
      ensures old(pool) == [] ==> pool == [] && live == if memory then old(live) + {result} else old(live)
      ensures old(pool) == [] && memory ==> fresh(result)
    {
      hide Linked, Segment, Showing;
      if numFree > 0 {
        numFree := numFree - 1;
        LinkedTail(nextFree, pool);
        result := nextFree;
        nextFree := result.next;
        pool := pool[1..];
        Detach(result, nextFree, pool);
      } else if memory {
        result := new TransportBuf();
        live := live + {result};
      } else {
        result := null;
      }
    }

    /** rl_transport_free_buffer: to the pool while it has room, else back to the heap. */
    method FreeBuffer(buf: TransportBuf)
      requires ValidOutput() && Held(buf)
      modifies this`nextFree, this`numFree, this`pool, this`live, buf`next
      ensures ValidOutput()
      ensures if |old(pool)| < MAX_POOLED_BUFFERS
              then pool == [buf] + old(pool) && live == old(live)
              else pool == old(pool) && live == old(live) - {buf}
    {
      hide Linked, Segment, Showing;
      if numFree >= MAX_POOLED_BUFFERS {
        live := live - {buf};
      } else {
        buf.next := nextFree;
        LinkedCons(nextFree, pool, buf);
        nextFree := buf;
        numFree := numFree + 1;
        pool := [buf] + pool;
      }
    }

    // ---------- output ----------

    /** The pointer part of rl_transport_add_output_message. */
    method LinkLast(buf: TransportBuf)
      requires Linked(outQueue, queue) && (queue != [] ==> outTail == queue[|queue| - 1])
      requires buf !in queue && buf.next == null
      modifies this`outQueue, this`outTail, queue`next
      ensures Linked(outQueue, queue + [buf]) && outTail == buf
    {
      hide Linked, Segment;
      EmptyList(outQueue, queue);
      if outQueue == null {
        outQueue := buf;
        outTail := buf;
        LinkedSingle(buf);
        assert queue + [buf] == [buf];
      } else {
        SplitLast(outQueue, queue);
        outTail.next := buf;
        JoinTwo(outQueue, queue[..|queue| - 1], outTail, buf);
        assert queue[..|queue| - 1] + [outTail] == queue;
        outTail := buf;
      }
    }

    /** rl_transport_add_output_message. */
    method AddOutputMessage(buf: TransportBuf)
      requires ValidOutput() && Held(buf) && buf.next == null && buf.usedSize <= OUTPUT_BUFFER_SIZE
      modifies this`outQueue, this`outTail, this`queue, this`views, this`enqueued, buf`remaining, queue`next
      ensures ValidOutput()
      ensures queue == old(queue) + [buf]
      ensures Out() == Enqueue(old(Out()), old(buf.buffer[..buf.usedSize]))
    {
      hide Linked, Segment, Showing;
      buf.remaining := buf.usedSize;
      LinkLast(buf);
      ghost var v := OutBuffer(buf.buffer[..buf.usedSize], buf.usedSize);
      ShowingSnoc(queue, views, buf, v);
      enqueued := enqueued + v.bytes;
      queue, views := queue + [buf], views + [v];
    }

    /** The first message is fully sent: unlink it and give its buffer back. */
    method DropFirst()
      requires ValidOutput() && queue != []
      modifies this, queue
      ensures ValidOutput()
      ensures queue == old(queue)[1..] && views == old(views)[1..]
      ensures live - Elements(pool) - Elements(queue) == old(live - Elements(pool) - Elements(queue))
      ensures sent == old(sent) && enqueued == old(enqueued) && error == old(error)
      ensures unchanged(this`received, this`delivered, this`disconnect, this`readCursor, this`writeCursor)
    {
      hide Linked, Segment, Showing;
      var msg := outQueue;
      LinkedTail(outQueue, queue);
      ShowingTail(queue, views);
      outQueue := msg.next;
      queue, views := queue[1..], views[1..];
      FreeBuffer(msg);
    }

    /** send took k bytes of the first message. */
    method TakeSome(k: nat)
      requires ValidOutput() && queue != [] && 0 < k <= views[0].remaining
      modifies this`sent, this`views, queue`remaining
      ensures ValidOutput()
      ensures var v := old(views[0]);
        && views == [v.(remaining := v.remaining - k)] + old(views)[1..]
        && sent == old(sent) + Unsent(v)[..Min(k, |Unsent(v)|)]
    {
      hide Linked, Segment, Showing;
      LinkedTail(outQueue, queue);
      ShowingTail(queue, views);
      var msg := outQueue;
      ghost var v := views[0];
      var start := msg.usedSize - msg.remaining;
      SliceUnsent(msg, v, k);
      hide Unsent;
      sent := sent + msg.buffer[start..start + k];
      msg.remaining := msg.remaining - k;
      ghost var left := v.(remaining := v.remaining - k);
      ShowingCons(msg, left, queue[1..], views[1..]);
      views := [left] + views[1..];
      assert [msg] + queue[1..] == queue;
    }

    /** The bytes that send is given are the first that the message has not sent. */
    lemma SliceUnsent(msg: TransportBuf, v: OutBuffer, k: nat)
      requires msg.Shows(v) && 0 < k <= v.remaining
      ensures msg.remaining == v.remaining <= msg.usedSize <= OUTPUT_BUFFER_SIZE && k <= |Unsent(v)|
      ensures msg.buffer[msg.usedSize - msg.remaining..msg.usedSize - msg.remaining + k] == Unsent(v)[..k]
      ensures Unsent(v)[..Min(k, |Unsent(v)|)] == Unsent(v)[..k]
    {
    }

    /** One send of the output loop. */
    method SendFirst(r: SendResult) returns (more: bool)
      requires ValidOutput() && queue != []
      modifies this, queue
      ensures ValidOutput()
      ensures (Out(), more) == SendOnce(old(Out()), r)
      ensures queue == old(queue) || queue == old(queue)[1..]
      ensures unchanged(this`received, this`delivered, this`disconnect, this`readCursor, this`writeCursor)
    {
      hide Linked, Segment, Showing, Unsent;
      FirstNode();
      match r
      case SendFailed =>
        error := true;
        more := false;
      case SendWouldBlock =>
        more := false;
      case Took(n) =>
        var k := Min(n, outQueue.remaining);
        if k == 0 {
          return false;
        }
        TakeSome(k);
        FirstNode();
        if outQueue.remaining == 0 {
          DropFirst();
        }
        more := true;
    }

    lemma FirstNode()
      requires ValidQueue() && queue != []
      ensures outQueue != null && outQueue in queue && outQueue.remaining == views[0].remaining
    {
    }

    /** rl_transport_on_output_possible. */
    method OnOutputPossible(sends: seq<SendResult>)
      requires ValidOutput()
      modifies this, queue
      ensures ValidOutput()
      ensures Out() == Flush(old(Out()), sends)
      ensures unchanged(this`received, this`delivered, this`disconnect, this`readCursor, this`writeCursor)
    {
      hide Linked, Segment, Showing, SendOnce;
      var i := 0;
      var more := true;
      EmptyList(outQueue, queue);
      while outQueue != null && i < |sends| && more
        invariant 0 <= i <= |sends|
        invariant ValidOutput()
        invariant outQueue == null <==> queue == []
        invariant forall k :: 0 <= k < |queue| ==> queue[k] in old(queue)
        invariant Flush(old(Out()), sends) == if more then Flush(Out(), sends[i..]) else Out()
        invariant unchanged(this`received, this`delivered, this`disconnect, this`readCursor, this`writeCursor)
        decreases |sends| - i
      {
        assert sends[i..][1..] == sends[i + 1..];
        more := SendFirst(sends[i]);
        EmptyList(outQueue, queue);
        i := i + 1;
      }
    }

    // ---------- input ----------

    /** rl_transport_on_input_arrived. */
    method OnInputArrived(r: RecvResult)
      requires ValidInput()
      modifies this`writeCursor, this`error, this`disconnect, this`received, inbuf
      ensures ValidInput()
      ensures In() == Arrive(old(In()), r, inbuf.Length - readCursor)
      ensures disconnect <==>
        old(disconnect) || ReadsAsEnd(old(inbuf[readCursor..writeCursor]), r, inbuf.Length - readCursor)
      ensures error <==> old(error) || r == RecvFailed
    {
      match r
      case Arrived(bytes) =>
        var n := Min(|bytes|, inbuf.Length - writeCursor);
        if n == 0 {
          disconnect := true;
        } else {
          CopyBytes(inbuf, writeCursor, bytes[..n]);
          writeCursor := writeCursor + n;
          received := received + bytes[..n];
          assert inbuf[readCursor..writeCursor] == old(inbuf[readCursor..writeCursor]) + bytes[..n];
        }
      case Closed =>
        disconnect := true;
      case WouldBlock =>
      case RecvFailed =>
        error := true;
    }

    /** One turn of the delivery loop. */
    method DeliverOne() returns (outcome: Delivery)
      requires ValidInput() && readCursor < writeCursor
      modifies this`readCursor, this`delivered
      ensures ValidInput()
      ensures outcome.Delivered? ==> old(readCursor) < readCursor
      ensures
        var p, q := ParseStream(old(inbuf[readCursor..writeCursor]), inbuf.Length, accepts),
                    ParseStream(inbuf[readCursor..writeCursor], inbuf.Length, accepts);
        match outcome
        case Delivered(frame) => delivered == old(delivered) + [frame] && p == q.(frames := [frame] + q.frames)
        case Refused => unchanged(this) && p == Parsed([], inbuf[readCursor..writeCursor], true)
        case Waiting => unchanged(this) && p == Parsed([], inbuf[readCursor..writeCursor], false)
    {
      ghost var content := inbuf[readCursor..writeCursor];
      var size := PeekIncoming(inbuf[readCursor..writeCursor]);
      if size == 0 {
        return Waiting;
      }
      if size > inbuf.Length {
        return Refused;
      }
      if writeCursor - readCursor < size {
        return Waiting;
      }
      var frame := inbuf[readCursor..readCursor + size];
      assert frame == content[..size];
      if !accepts(frame) {
        return Refused;
      }
      delivered := delivered + [frame];
      readCursor := readCursor + size;
      assert inbuf[readCursor..writeCursor] == content[size..];
      outcome := Delivered(frame);
    }

    lemma ParseEmpty()
      ensures ParseStream([], inbuf.Length, accepts) == Parsed([], [], false)
    {
    }

    /** The delivery loop of rl_transport_update; ok is false where it gives up with an error. */
    method DeliverAll() returns (ok: bool)
      requires ValidInput()
      modifies this`readCursor, this`delivered, this`error
      ensures ValidInput()
      ensures var p := ParseStream(old(inbuf[readCursor..writeCursor]), inbuf.Length, accepts);
        && ok == !p.failed && inbuf[readCursor..writeCursor] == p.rest
        && delivered == old(delivered) + p.frames
        && error == (old(error) || p.failed)
    {
      hide ParseStream;
      ParseEmpty();
      ghost var whole := ParseStream(inbuf[readCursor..writeCursor], inbuf.Length, accepts);
      ghost var done: seq<seq<Byte>> := [];
      ok := true;
      var outcome := Waiting;
      while readCursor < writeCursor
        invariant readCursor <= writeCursor
        invariant delivered == old(delivered) + done && error == old(error)
        invariant var q := ParseStream(inbuf[readCursor..writeCursor], inbuf.Length, accepts);
          whole == q.(frames := done + q.frames)
        decreases writeCursor - readCursor
      {
        outcome := DeliverOne();
        match outcome {
          case Delivered(frame) =>
            Associative(done, [frame], ParseStream(inbuf[readCursor..writeCursor], inbuf.Length, accepts).frames);
            done := done + [frame];
          case Refused =>
            error := true;
            ok := false;
            return;
          case Waiting =>
            break;
        }
      }
    }

    /** The tail of rl_transport_update: partial data moves to the front of the buffer. */
    method Compact()
      requires ValidInput()
      modifies this`readCursor, this`writeCursor, inbuf
      ensures ValidInput() && readCursor == 0
      ensures inbuf[readCursor..writeCursor] == old(inbuf[readCursor..writeCursor])
    {
      if readCursor != 0 {
        var trim := writeCursor - readCursor;
        if trim > 0 {
          MoveBytes(inbuf, 0, readCursor, trim);
        }
        readCursor := 0;
        writeCursor := trim;
      }
    }

    /** rl_transport_update. */
    method Update() returns (status: UpdateStatus)
      requires Valid()
      modifies this`readCursor, this`writeCursor, this`delivered, this`error, inbuf
      ensures Valid()
      ensures In() == Deliver(old(In()), inbuf.Length, accepts)
      ensures old(readCursor) == 0 && !error ==> readCursor == 0
      ensures status ==
        if error then TransportError
        else if disconnect then TransportDisconnected
        else TransportOk(queue != [])
      ensures status == TransportDisconnected <==> old(disconnect) && !old(error)
      ensures
        var refused := ParseStream(old(inbuf[readCursor..writeCursor]), inbuf.Length, accepts).failed;
        status == TransportError <==> old(error) || (!old(disconnect) && refused)
    {
      hide ParseStream, ValidQueue, ValidPool, Apart;
      QueueShown();
      if error {
        return TransportError;
      }
      if disconnect {
        return TransportDisconnected;
      }
      var ok := DeliverAll();
      if !ok {
        return TransportError;
      }
      Compact();
      status := TransportOk(outQueue != null);
    }

    lemma QueueShown()
      requires ValidQueue()
      ensures outQueue == null <==> queue == []
    {
    }

    // ---------- the end ----------

    /** rl_free_sized: a buffer can be given back only once. */
    method FreeSized(b: TransportBuf)
      requires b in live
      modifies this`live
      ensures live == old(live) - {b}
    {
      live := live - {b};
    }

    /**
     The first loop of rl_transport_destroy: what is still queued goes to the
     pool, or to the heap when that is full.
     */
    method ReleaseQueue()
      requires ValidOutput()
      modifies this, queue
      ensures ValidOutput() && queue == []
      ensures live - Elements(pool) == old(live - Elements(pool) - Elements(queue))
    {
      hide Linked, Segment, Showing;
      EmptyList(outQueue, queue);
      while outQueue != null
        invariant ValidOutput()
        invariant outQueue == null <==> queue == []
        invariant forall k :: 0 <= k < |queue| ==> queue[k] in old(queue)
        invariant live - Elements(pool) - Elements(queue) == old(live - Elements(pool) - Elements(queue))
        decreases |queue|
      {
        DropFirst();
        EmptyList(outQueue, queue);
      }
    }

    /** rl_transport_destroy: afterwards only buffers that a caller still holds are in use. */
    method Destroy()
      requires ValidOutput()
      modifies this, queue
      ensures live == old(live - Elements(pool) - Elements(queue))
    {
      hide Linked, Segment, Showing;
      ReleaseQueue();
      ghost var rest := pool;
      var msg := nextFree;
      EmptyList(msg, rest);
      while msg != null
        invariant Linked(msg, rest)
        invariant msg == null <==> rest == []
        invariant forall k :: 0 <= k < |rest| ==> rest[k] in live
        invariant live - Elements(rest) == old(live - Elements(pool) - Elements(queue))
        decreases |rest|
      {
        LinkedTail(msg, rest);
        var next := msg.next;
        FreeSized(msg);
        msg := next;
        rest := rest[1..];
        EmptyList(msg, rest);
      }
    }
  }
}
