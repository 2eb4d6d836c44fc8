/**
 The layers put together: messages encoded into output buffers, sent in pieces,
 received in other pieces, cut into frames and decoded.
 */
module EndToEnd {
  import opened Base
  import opened Schema
  import opened Codec
  import opened RoundTrip
  import opened Framing
  import opened Transport

  const INPUT_BUFFER_SIZE: nat := 32768

  // ---------- parsing a stream of whole messages ----------

  /** A message as it should arrive: declared length right, whatever follows it, and acceptable. */
  ghost predicate GoodFrame(w: seq<Byte>, cap: nat, accepts: seq<Byte> -> bool) {
    && 4 <= |w| <= cap
    && accepts(w)
    && forall suf :: PeekIncoming(w + suf) == |w|
  }

  lemma PeekPrefix(p: seq<Byte>, q: seq<Byte>)
    requires 4 <= |p| && p <= q
    ensures PeekIncoming(p) == PeekIncoming(q)
  {
  }

  /** Cutting any prefix of a stream of good frames gives a prefix of the frames, and no error. */
  lemma {:induction false} ParseGoodFrames(ws: seq<seq<Byte>>, p: seq<Byte>, cap: nat, accepts: seq<Byte> -> bool)
    requires forall i :: 0 <= i < |ws| ==> GoodFrame(ws[i], cap, accepts)
    requires p <= Flatten(ws)
    requires cap > 0
    ensures var q := ParseStream(p, cap, accepts); !q.failed && q.frames <= ws && |q.rest| < cap
    ensures p == Flatten(ws) ==> ParseStream(p, cap, accepts) == Parsed(ws, [], false)
    decreases ws
  {
    if ws == [] {
    } else {
      var w, rest := ws[0], ws[1..];
      assert GoodFrame(w, cap, accepts);
      var stream := Flatten(ws);
      assert stream == w + Flatten(rest);
      if |w| <= |p| {
        var p' := p[|w|..];
        assert p == w + p';
        assert PeekIncoming(p) == |w|;
        assert p[..|w|] == w;
        assert p' <= Flatten(rest);
        assert forall i :: 0 <= i < |rest| ==> rest[i] == ws[i + 1];
        ParseGoodFrames(rest, p', cap, accepts);
        assert ws == [w] + rest;
      } else if |p| >= 4 {
        PeekPrefix(p, w);
        assert w + [] == w;
      }
    }
  }

  // ---------- one direction of a connection ----------

  function Accepts(schema: seq<Layout>): seq<Byte> -> bool {
    (frame: seq<Byte>) => Decode(schema, frame, |frame|).Decoded?
  }

  /** messages: those whose enqueueing succeeded, in order. */
  datatype Link = Link(messages: seq<Record>, out: Outbound, inbound: Inbound)

  const IDLE := Link([], Outbound([], [], [], false), NOTHING)

  /**
   Everything that can happen, in any order: the sender's application enqueues a
   message, the sender's socket takes bytes, the receiver's socket offers at
   most n of the bytes under way, the receiver runs its update.
   */
  datatype LinkEvent = Send(r: Record) | Flushing(sends: seq<SendResult>) | Receive(n: nat) | Updating

  function Underway(l: Link): (s: seq<Byte>) {
    if |l.inbound.received| <= |l.out.sent| then l.out.sent[|l.inbound.received|..] else []
  }

  function LinkStep(schema: seq<Layout>, l: Link, e: LinkEvent): (l': Link)
    requires |l.inbound.content| <= INPUT_BUFFER_SIZE
    ensures |l'.inbound.content| <= INPUT_BUFFER_SIZE
  {
    match e
    case Send(r) =>
      if Sendable(schema, r, OUTPUT_BUFFER_SIZE)
      then l.(messages := l.messages + [r], out := Enqueue(l.out, MessageWire(schema, r)))
      else l
    case Flushing(sends) => l.(out := Flush(l.out, sends))
    case Receive(n) =>
      var offered := Underway(l)[..Min(n, |Underway(l)|)];
      l.(inbound := Arrive(l.inbound, if offered == [] then WouldBlock else Arrived(offered), INPUT_BUFFER_SIZE))
    case Updating =>
      ParsePartitions(l.inbound.content, INPUT_BUFFER_SIZE, Accepts(schema));
      l.(inbound := Deliver(l.inbound, INPUT_BUFFER_SIZE, Accepts(schema)))
  }

  function LinkRun(schema: seq<Layout>, events: seq<LinkEvent>): (l: Link)
    ensures |l.inbound.content| <= INPUT_BUFFER_SIZE
  {
    if events == [] then IDLE
    else LinkStep(schema, LinkRun(schema, events[..|events| - 1]), events[|events| - 1])
  }

  function Wires(schema: seq<Layout>, messages: seq<Record>): (ws: seq<seq<Byte>>)
    ensures |ws| == |messages|
    ensures forall i :: 0 <= i < |ws| ==> ws[i] == MessageWire(schema, messages[i])
  {
    seq(|messages|, i requires 0 <= i < |messages| => MessageWire(schema, messages[i]))
  }

  lemma WireIsGood(schema: seq<Layout>, r: Record)
    requires Sendable(schema, r, OUTPUT_BUFFER_SIZE)
    ensures GoodFrame(MessageWire(schema, r), INPUT_BUFFER_SIZE, Accepts(schema))
  {
    var fields := schema[r[HDR_TYPE].n].fields;
    HeaderAgreement(fields, r);
    CodecRoundTrip(schema, r, OUTPUT_BUFFER_SIZE, []);
    var w := MessageWire(schema, r);
    assert w + [] == w;
    assert Accepts(schema)(w);
    assert |w| == WireLength(fields, r) <= OUTPUT_BUFFER_SIZE;
  }

  ghost predicate LinkInv(schema: seq<Layout>, l: Link) {
    && (forall i :: 0 <= i < |l.messages| ==> Sendable(schema, l.messages[i], OUTPUT_BUFFER_SIZE))
    && l.out.enqueued == Flatten(Wires(schema, l.messages))
    && Conserved(l.out)
    && l.inbound.received <= l.out.sent
    && InStep(l.inbound, INPUT_BUFFER_SIZE, Accepts(schema))
    && !l.inbound.error
  }

  lemma SendInv(schema: seq<Layout>, l: Link, r: Record)
    requires LinkInv(schema, l) && Sendable(schema, r, OUTPUT_BUFFER_SIZE)
    ensures LinkInv(schema, LinkStep(schema, l, Send(r)))
  {
    hide Sendable, Conserved, InStep, MessageWire;
    var w := MessageWire(schema, r);
    EnqueueConserves(l.out, w);
    FlattenSnoc(Wires(schema, l.messages), w);
    assert Wires(schema, l.messages + [r]) == Wires(schema, l.messages) + [w];
  }

  lemma {:induction false} FlushKeeps(o: Outbound, sends: seq<SendResult>)
    ensures Flush(o, sends).enqueued == o.enqueued && o.sent <= Flush(o, sends).sent
    decreases |sends|
  {
    if o.queue == [] || sends == [] {
    } else {
      var (o', more) := SendOnce(o, sends[0]);
      if more {
        FlushKeeps(o', sends[1..]);
      }
    }
  }

  /** What has been received is a prefix of the messages' bytes, so it parses without error. */
  lemma ReceivedParses(schema: seq<Layout>, l: Link)
    requires LinkInv(schema, l)
    ensures
      var q := ParseStream(l.inbound.received, INPUT_BUFFER_SIZE, Accepts(schema));
      && !q.failed && q.frames <= Wires(schema, l.messages) && |q.rest| < INPUT_BUFFER_SIZE
      && (l.inbound.received == l.out.enqueued ==> q == Parsed(Wires(schema, l.messages), [], false))
  {
    var ws := Wires(schema, l.messages);
    forall i | 0 <= i < |ws|
      ensures GoodFrame(ws[i], INPUT_BUFFER_SIZE, Accepts(schema))
    {
      WireIsGood(schema, l.messages[i]);
    }
    ParseGoodFrames(ws, l.inbound.received, INPUT_BUFFER_SIZE, Accepts(schema));
  }

  lemma UpdatingInv(schema: seq<Layout>, l: Link)
    requires LinkInv(schema, l)
    ensures LinkInv(schema, LinkStep(schema, l, Updating))
  {
    hide Sendable, Conserved, ParseStream, Incomplete;
    ReceivedParses(schema, l);
    DeliverInStep(l.inbound, INPUT_BUFFER_SIZE, Accepts(schema));
  }

  /** What has been received stays a prefix of what has been sent. */
  lemma ReceivedPrefix(l: Link, n: nat)
    requires l.inbound.received <= l.out.sent && |l.inbound.content| <= INPUT_BUFFER_SIZE
    ensures var offered := Underway(l)[..Min(n, |Underway(l)|)];
      var i := Arrive(l.inbound, if offered == [] then WouldBlock else Arrived(offered), INPUT_BUFFER_SIZE);
      i.received <= l.out.sent && i.error == l.inbound.error
  {
    var sent, from := l.out.sent, |l.inbound.received|;
    var offered := sent[from..][..Min(n, |sent| - from)];
    forall k: nat | k <= |offered|
      ensures l.inbound.received + offered[..k] <= sent
    {
      assert l.inbound.received + offered[..k] == sent[..from + k];
    }
  }

  lemma ReceiveInv(schema: seq<Layout>, l: Link, n: nat)
    requires LinkInv(schema, l)
    ensures LinkInv(schema, LinkStep(schema, l, Receive(n)))
  {
    assert |l.inbound.content| <= INPUT_BUFFER_SIZE;
    hide Sendable, Conserved, InStep, ParseStream, Underway, Arrive;
    var offered := Underway(l)[..Min(n, |Underway(l)|)];
    var r := if offered == [] then WouldBlock else Arrived(offered);
    ArriveInStep(l.inbound, r, INPUT_BUFFER_SIZE, Accepts(schema));
    ReceivedPrefix(l, n);
  }

  lemma LinkStepInv(schema: seq<Layout>, l: Link, e: LinkEvent)
    requires LinkInv(schema, l)
    ensures LinkInv(schema, LinkStep(schema, l, e))
  {
    match e
    case Send(r) =>
      if Sendable(schema, r, OUTPUT_BUFFER_SIZE) {
        SendInv(schema, l, r);
      }
    case Flushing(sends) =>
      FlushConserves(l.out, sends);
      FlushKeeps(l.out, sends);
    case Receive(n) => ReceiveInv(schema, l, n);
    case Updating => UpdatingInv(schema, l);
  }

  /** What a step does to the messages enqueued and to the frames delivered. */
  lemma LinkStepAdds(schema: seq<Layout>, l: Link, e: LinkEvent)
    requires |l.inbound.content| <= INPUT_BUFFER_SIZE
    ensures var l' := LinkStep(schema, l, e);
      && l'.messages ==
         (if e.Send? && Sendable(schema, e.r, OUTPUT_BUFFER_SIZE) then l.messages + [e.r] else l.messages)
      && |l.inbound.delivered| <= |l'.inbound.delivered|
  {
    hide Sendable, ParseStream, Flush, MessageWire;
  }

  lemma IdleInv(schema: seq<Layout>)
    ensures LinkInv(schema, IDLE)
  {
    assert Wires(schema, []) == [];
  }

  lemma {:induction false} LinkRunInv(schema: seq<Layout>, events: seq<LinkEvent>)
    ensures LinkInv(schema, LinkRun(schema, events))
  {
    if events == [] {
      IdleInv(schema);
    } else {
      LinkRunInv(schema, events[..|events| - 1]);
      LinkStepInv(schema, LinkRun(schema, events[..|events| - 1]), events[|events| - 1]);
    }
  }

  /** What the receiver makes of frame: the record r with its length field filled in. */
  predicate Carries(schema: seq<Layout>, frame: seq<Byte>, r: Record) {
    Decode(schema, frame, |frame|) == Decoded(r[HDR_LENGTH := Num(|frame|)], |frame|, 0)
  }

  /** What has been delivered decodes to the first of the messages enqueued. */
  lemma DeliveredCarries(schema: seq<Layout>, l: Link)
    requires LinkInv(schema, l)
    ensures |l.inbound.delivered| <= |l.messages|
    ensures forall i :: 0 <= i < |l.inbound.delivered| ==> Carries(schema, l.inbound.delivered[i], l.messages[i])
  {
    ReceivedParses(schema, l);
    var ws := Wires(schema, l.messages);
    assert l.inbound.delivered <= ws;
    assert forall i :: 0 <= i < |l.messages| ==> Sendable(schema, l.messages[i], OUTPUT_BUFFER_SIZE);
    hide *;
    forall i | 0 <= i < |l.inbound.delivered|
      ensures Carries(schema, l.inbound.delivered[i], l.messages[i])
    {
      assert l.inbound.delivered[i] == ws[i];
      WireCarries(schema, l.messages[i]);
    }
  }

  /**
   End to end, for every schema and every interleaving of enqueueing, partial
   sends, receives of any size and updates: what has been delivered decodes to a
   prefix of the messages that were enqueued, in order, each once, unchanged but
   for the length field; the receiver never reports an error.
   */
  lemma DeliveredIsPrefix(schema: seq<Layout>, events: seq<LinkEvent>)
    ensures
      var l := LinkRun(schema, events);
      && |l.inbound.delivered| <= |l.messages|
      && !l.inbound.error
      && forall i :: 0 <= i < |l.inbound.delivered| ==> Carries(schema, l.inbound.delivered[i], l.messages[i])
  {
    var l := LinkRun(schema, events);
    LinkRunInv(schema, events);
    assert !l.inbound.error;
    hide LinkInv, LinkRun, Carries;
    DeliveredCarries(schema, l);
  }

  lemma WireCarries(schema: seq<Layout>, r: Record)
    requires Sendable(schema, r, OUTPUT_BUFFER_SIZE)
    ensures Carries(schema, MessageWire(schema, r), r)
  {
    hide Sendable, MessageWire, Decode;
    CodecRoundTrip(schema, r, OUTPUT_BUFFER_SIZE, []);
    assert MessageWire(schema, r) + [] == MessageWire(schema, r);
  }

  /** Nothing stays behind: once every byte has arrived, an update leaves every message delivered. */
  lemma AllDelivered(schema: seq<Layout>, events: seq<LinkEvent>)
    requires events != [] && events[|events| - 1] == Updating
    requires var l := LinkRun(schema, events); l.inbound.received == l.out.enqueued && !l.inbound.disconnect
    ensures var l := LinkRun(schema, events); |l.inbound.delivered| == |l.messages| && l.inbound.content == []
  {
    var l, before := LinkRun(schema, events), LinkRun(schema, events[..|events| - 1]);
    LinkRunInv(schema, events);
    ReceivedParses(schema, l);
    ParsePartitions(before.inbound.content, INPUT_BUFFER_SIZE, Accepts(schema));
    assert ParseStream(l.inbound.content, INPUT_BUFFER_SIZE, Accepts(schema)) == Parsed([], l.inbound.content, false);
  }

  /** An update always leaves room for more input, so the connection is never mistaken for a closed one. */
  lemma RoomAfterEveryUpdate(schema: seq<Layout>, events: seq<LinkEvent>)
    requires events != [] && events[|events| - 1] == Updating
    requires !LinkRun(schema, events).inbound.disconnect
    ensures |LinkRun(schema, events).inbound.content| < INPUT_BUFFER_SIZE
  {
    var l, before := LinkRun(schema, events), LinkRun(schema, events[..|events| - 1]);
    LinkRunInv(schema, events);
    ReceivedParses(schema, l);
    ParsePartitions(before.inbound.content, INPUT_BUFFER_SIZE, Accepts(schema));
    assert ParseStream(l.inbound.content, INPUT_BUFFER_SIZE, Accepts(schema)) == Parsed([], l.inbound.content, false);
  }
}
