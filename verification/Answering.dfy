/**
 rl_transport_update as src/peer.c uses it: the delivery of a message may
 enqueue answers on the same transport while the loop is still under way.
 */
module Answering {
  import opened Base
  import opened Framing
  import opened Transport

  function EnqueueAll(o: Outbound, messages: seq<seq<Byte>>): Outbound
    decreases |messages|
  {
    if messages == [] then o else EnqueueAll(Enqueue(o, messages[0]), messages[1..])
  }

  /** All the answers that delivering these frames enqueues, in order. */
  function Replies(frames: seq<seq<Byte>>, answers: seq<Byte> -> seq<seq<Byte>>): seq<seq<Byte>> {
    if frames == [] then [] else answers(frames[0]) + Replies(frames[1..], answers)
  }

  predicate Fit(messages: seq<seq<Byte>>) {
    forall i :: 0 <= i < |messages| ==> |messages[i]| <= OUTPUT_BUFFER_SIZE
  }

  lemma {:induction false} EnqueueAllAppend(o: Outbound, xs: seq<seq<Byte>>, ys: seq<seq<Byte>>)
    ensures EnqueueAll(o, xs + ys) == EnqueueAll(EnqueueAll(o, xs), ys)
    decreases |xs|
  {
    if xs == [] {
      assert xs + ys == ys;
    } else {
      assert (xs + ys)[1..] == xs[1..] + ys;
      EnqueueAllAppend(Enqueue(o, xs[0]), xs[1..], ys);
    }
  }

  /** One answer is stored in a buffer of its own and queued; it is lost where there is no memory for it. */
  method AnswerOne(t: Transport, message: seq<Byte>, memory: bool)
    requires t.ValidOutput() && |message| <= OUTPUT_BUFFER_SIZE
    modifies t`nextFree, t`numFree, t`pool, t`live, t`outQueue, t`outTail, t`queue, t`views, t`enqueued, t.live
    ensures t.ValidOutput() && fresh(t.live - old(t.live))
    ensures memory ==> t.Out() == Enqueue(old(t.Out()), message)
  {
    hide Linked, Segment, Showing;
    var buf := t.AllocBuffer(memory);
    if buf == null {
      return;
    }
    Store(t, buf, message);
    t.AddOutputMessage(buf);
  }

  method Store(t: Transport, buf: TransportBuf, message: seq<Byte>)
    requires t.ValidOutput() && t.Held(buf) && |message| <= OUTPUT_BUFFER_SIZE
    modifies buf`buffer, buf`usedSize
    ensures t.ValidOutput() && buf.usedSize == |message| && buf.buffer[..buf.usedSize] == message
  {
    hide Linked, Segment, Showing;
    buf.buffer := Splice(buf.buffer, 0, message);
    buf.usedSize := |message|;
  }

  /** What the callback enqueues while it handles one frame. */
  method AnswerFrame(t: Transport, messages: seq<seq<Byte>>, memory: bool)
    requires t.ValidOutput() && Fit(messages)
    modifies t`nextFree, t`numFree, t`pool, t`live, t`outQueue, t`outTail, t`queue, t`views, t`enqueued, t.live
    ensures t.ValidOutput() && fresh(t.live - old(t.live))
    ensures memory ==> t.Out() == EnqueueAll(old(t.Out()), messages)
  {
    hide EnqueueAll;
    ghost var before := t.Out();
    ListedNothing(before, messages);
    for i := 0 to |messages|
      invariant t.ValidOutput() && fresh(t.live - old(t.live))
      invariant memory ==> t.Out() == EnqueueAll(before, messages[..i])
      invariant t.sent == old(t.sent) && t.error == old(t.error)
    {
      AnswerOne(t, messages[i], memory);
      ListedMore(before, messages, i);
    }
    assert messages[..|messages|] == messages;
  }

  lemma ListedNothing(o: Outbound, messages: seq<seq<Byte>>)
    ensures EnqueueAll(o, messages[..0]) == o
  {
  }

  lemma ListedMore(o: Outbound, messages: seq<seq<Byte>>, i: nat)
    requires i < |messages|
    ensures EnqueueAll(o, messages[..i + 1]) == Enqueue(EnqueueAll(o, messages[..i]), messages[i])
  {
    assert messages[..i + 1] == messages[..i] + [messages[i]];
    EnqueueAllAppend(o, messages[..i], [messages[i]]);
    assert EnqueueAll(EnqueueAll(o, messages[..i]), [messages[i]])
        == EnqueueAll(Enqueue(EnqueueAll(o, messages[..i]), messages[i]), []);
  }

  lemma RepliesFirst(frame: seq<Byte>, frames: seq<seq<Byte>>, answers: seq<Byte> -> seq<seq<Byte>>)
    ensures Replies([frame] + frames, answers) == answers(frame) + Replies(frames, answers)
  {
    assert ([frame] + frames)[1..] == frames;
  }

  /** What is still to be delivered. */
  ghost function Rest(t: Transport): Parsed
    requires t.ValidInput()
    reads t, t.inbuf
  {
    ParseStream(t.inbuf[t.readCursor..t.writeCursor], t.inbuf.Length, t.accepts)
  }

  /** The queue once the rest has been delivered and answered. */
  ghost function Promised(t: Transport, answers: seq<Byte> -> seq<seq<Byte>>): Outbound
    requires t.ValidInput()
    reads t, t.inbuf
  {
    EnqueueAll(t.Out(), Replies(Rest(t).frames, answers))
  }

  /** One turn of the delivery loop, with the answers that it enqueues. */
  method Turn(t: Transport, answers: seq<Byte> -> seq<seq<Byte>>, memory: bool) returns (outcome: Delivery)
    requires t.Valid() && t.readCursor < t.writeCursor && forall frame :: Fit(answers(frame))
    modifies t`readCursor, t`delivered, t`nextFree, t`numFree, t`pool, t`live, t`outQueue, t`outTail, t`queue
    modifies t`views, t`enqueued, t.live
    ensures t.Valid() && fresh(t.live - old(t.live))
    ensures outcome.Delivered? ==>
      && old(t.readCursor) < t.readCursor
      && t.delivered == old(t.delivered) + [outcome.frame]
      && old(Rest(t)) == Rest(t).(frames := [outcome.frame] + Rest(t).frames)
      && (memory ==> Promised(t, answers) == old(Promised(t, answers)))
    ensures !outcome.Delivered? ==>
      && t.readCursor == old(t.readCursor) && t.delivered == old(t.delivered)
      && t.Out() == old(t.Out())
      && old(Rest(t)) == Parsed([], t.inbuf[t.readCursor..t.writeCursor], outcome.Refused?)
  {
    hide ParseStream, EnqueueAll, Replies;
    outcome := t.DeliverOne();
    if outcome.Delivered? {
      ghost var q := Rest(t);
      RepliesFirst(outcome.frame, q.frames, answers);
      EnqueueAllAppend(t.Out(), answers(outcome.frame), Replies(q.frames, answers));
      AnswerFrame(t, answers(outcome.frame), memory);
    }
  }

  /** The delivery loop. */
  method DeliverAnswering(t: Transport, answers: seq<Byte> -> seq<seq<Byte>>, memory: bool) returns (ok: bool)
    requires t.Valid() && forall frame :: Fit(answers(frame))
    modifies t, t.live
    ensures t.Valid() && fresh(t.live - old(t.live))
    ensures var p := old(Rest(t));
      && ok == !p.failed && t.inbuf[t.readCursor..t.writeCursor] == p.rest
      && t.delivered == old(t.delivered) + p.frames
      && t.error == (old(t.error) || p.failed)
      && (memory ==> t.Out() == old(Promised(t, answers)).(error := t.error))
    ensures t.received == old(t.received) && t.disconnect == old(t.disconnect)
  {
    hide ParseStream, EnqueueAll, Replies, Transport.ValidQueue, Transport.ValidPool, Transport.Apart;
    ghost var done: seq<seq<Byte>> := [];
    ok := true;
    while t.readCursor < t.writeCursor
      invariant t.Valid() && fresh(t.live - old(t.live))
      invariant t.delivered == old(t.delivered) + done && t.error == old(t.error)
      invariant t.received == old(t.received) && t.disconnect == old(t.disconnect)
      invariant old(Rest(t)) == Rest(t).(frames := done + Rest(t).frames)
      invariant memory ==> Promised(t, answers) == old(Promised(t, answers))
      decreases t.writeCursor - t.readCursor
    {
      var outcome := Turn(t, answers, memory);
      match outcome {
        case Delivered(frame) =>
          Associative(done, [frame], Rest(t).frames);
          done := done + [frame];
        case Refused =>
          PromisedNow(t, answers);
          t.error := true;
          ok := false;
          return;
        case Waiting =>
          PromisedNow(t, answers);
          return;
      }
    }
    ParsedNothing(t);
    PromisedNow(t, answers);
  }

  lemma ParsedNothing(t: Transport)
    requires t.ValidInput()
    ensures t.readCursor == t.writeCursor ==> Rest(t) == Parsed([], [], false)
  {
  }

  /** With no frame left, all has been enqueued. */
  lemma PromisedNow(t: Transport, answers: seq<Byte> -> seq<seq<Byte>>)
    requires t.ValidInput() && Rest(t).frames == []
    ensures Promised(t, answers) == t.Out()
  {
  }

  lemma AnswerNothing(o: Outbound, answers: seq<Byte> -> seq<seq<Byte>>)
    ensures EnqueueAll(o, Replies([], answers)) == o
  {
  }

  /**
   rl_transport_update where the callback answers: the input half does what
   Deliver says, and the output queue has gained all answers to what was
   delivered, in order, if the memory lasts.
   */
  method UpdateAnswering(t: Transport,
                         answers: seq<Byte> -> seq<seq<Byte>>, memory: bool) returns (status: UpdateStatus)
    requires t.Valid() && forall frame :: Fit(answers(frame))
    modifies t, t.live, t.inbuf
    ensures t.Valid()
    ensures t.In() == Deliver(old(t.In()), t.inbuf.Length, t.accepts)
    ensures var frames := if old(t.error || t.disconnect) then [] else old(Rest(t)).frames;
      memory ==> t.Out() == EnqueueAll(old(t.Out()), Replies(frames, answers)).(error := t.error)
    ensures status ==
      if t.error then TransportError
      else if t.disconnect then TransportDisconnected
      else TransportOk(t.queue != [])
  {
    AnswerNothing(t.Out(), answers);
    hide ParseStream, EnqueueAll, Replies;
    t.QueueShown();
    if t.error {
      return TransportError;
    }
    if t.disconnect {
      return TransportDisconnected;
    }
    var ok := DeliverAnswering(t, answers, memory);
    if !ok {
      return TransportError;
    }
    t.Compact();
    t.QueueShown();
    status := TransportOk(t.outQueue != null);
  }
}
