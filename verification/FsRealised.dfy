/**
 The converse of FsJoint: every run of client and server over ideal channels can
 happen over the two links, because what is sent can always be brought across.
 */
module FsRealised {
  import opened Base
  import opened RemoteFs
  import opened FsSystem
  import opened FsMatching
  import opened FsWire
  import opened FsTravel
  import opened Reference
  import opened RlNet
  import opened Codec
  import opened RoundTrip
  import opened Framing
  import opened EndToEnd
  import opened FsJoint
  import Transport

  // ---------- progress of a link ----------

  /** Everything that was sent has been delivered, and nothing has gone wrong. */
  ghost predicate Settled(l: Link) {
    && LinkInv(RlNetSchema(), l) && l.out.queue == [] && !l.out.error
    && l.inbound.received == l.out.sent && l.inbound.content == [] && !l.inbound.disconnect
    && |l.inbound.delivered| == |l.messages|
  }

  lemma FlushOne(o: Outbound, w: seq<Byte>)
    requires o.queue == [] && w != []
    ensures Flush(Enqueue(o, w), [Took(|w|)]) == Outbound([], o.sent + w, o.enqueued + w, o.error)
  {
    var o' := Enqueue(o, w);
    assert o'.queue == [OutBuffer(w, |w|)] && Unsent(o'.queue[0]) == w && w[..|w|] == w;
    assert Flush(SendOnce(o', Took(|w|)).0, [Took(|w|)][1..]) == SendOnce(o', Took(|w|)).0;
  }

  /** The bytes of one message arrive in an empty buffer. */
  lemma ArriveOne(l: Link, before: seq<Byte>, w: seq<Byte>)
    requires l.out.sent == before + w && l.inbound.received == before && l.inbound.content == []
    requires w != [] && |w| <= INPUT_BUFFER_SIZE
    ensures LinkStep(RlNetSchema(), l, Receive(|w|)) ==
      l.(inbound := l.inbound.(received := before + w, content := w))
  {
    hide RlNetSchema;
    assert Underway(l) == w && w[..|w|] == w && [] + w == w;
  }

  /** An update delivers a buffer that holds whole frames. */
  lemma DeliversFrames(i: Inbound, frames: seq<seq<Byte>>, cap: nat, accepts: seq<Byte> -> bool)
    requires InStep(i, cap, accepts) && !i.error && !i.disconnect
    requires ParseStream(i.received, cap, accepts) == Parsed(frames, [], false)
    ensures Deliver(i, cap, accepts) == i.(content := [], delivered := frames)
  {
    hide ParseStream;
  }

  /** An update delivers all that has arrived. */
  lemma DeliverAll(l: Link)
    requires LinkInv(RlNetSchema(), l) && l.inbound.received == l.out.enqueued && !l.inbound.disconnect
    ensures var l' := LinkStep(RlNetSchema(), l, Updating);
      && l'.out == l.out && l'.messages == l.messages && l'.inbound.received == l.inbound.received
      && l'.inbound.content == [] && !l'.inbound.disconnect && |l'.inbound.delivered| == |l.messages|
  {
    hide RlNetSchema, ParseStream, Sendable, Conserved, InStep, Deliver;
    ReceivedParses(RlNetSchema(), l);
    TakenBounds(l);
    DeliversFrames(l.inbound, Wires(RlNetSchema(), l.messages), INPUT_BUFFER_SIZE, EndToEnd.Accepts(RlNetSchema()));
  }

  lemma EnqueuedIsSent(l: Link)
    requires LinkInv(RlNetSchema(), l) && l.out.queue == []
    ensures l.out.enqueued == l.out.sent
  {
    hide RlNetSchema;
    assert PendingBytes([]) == [] && l.out.sent + [] == l.out.sent;
  }

  /** A message is enqueued and sent. */
  lemma SendsOne(l: Link, r: Record) returns (l0: Link, l1: Link)
    requires Settled(l) && Sendable(RlNetSchema(), r, Transport.OUTPUT_BUFFER_SIZE)
    ensures l0 == LinkStep(RlNetSchema(), l, Send(r)) && |l0.inbound.content| <= INPUT_BUFFER_SIZE
    ensures var w := MessageWire(RlNetSchema(), r);
      && l1 == LinkStep(RlNetSchema(), l0, Flushing([Took(|w|)])) && LinkInv(RlNetSchema(), l1)
      && l1 == Link(l.messages + [r], Outbound([], l.out.sent + w, l.out.enqueued + w, false), l.inbound)
  {
    hide RlNetSchema, MessageWire, LinkInv, Flush, Sendable;
    var w := MessageWire(RlNetSchema(), r);
    WireSize(r);
    l0 := LinkStep(RlNetSchema(), l, Send(r));
    LinkStepInv(RlNetSchema(), l, Send(r));
    FlushOne(l.out, w);
    l1 := LinkStep(RlNetSchema(), l0, Flushing([Took(|w|)]));
    LinkStepInv(RlNetSchema(), l0, Flushing([Took(|w|)]));
  }

  /** A message that is sent on a settled link is brought across by three steps. */
  lemma Crosses(l: Link, r: Record) returns (events: seq<LinkEvent>, links: seq<Link>)
    requires Settled(l) && Sendable(RlNetSchema(), r, Transport.OUTPUT_BUFFER_SIZE)
    ensures |events| == 3 && |links| == 4 && links[0] == LinkStep(RlNetSchema(), l, Send(r))
    ensures forall i :: 0 <= i < 3 ==>
      && !events[i].Send? && |links[i].inbound.content| <= INPUT_BUFFER_SIZE
      && links[i + 1] == LinkStep(RlNetSchema(), links[i], events[i])
    ensures Settled(links[3]) && links[3].messages == l.messages + [r]
  {
    hide RlNetSchema, MessageWire, Sendable, LinkInv, LinkStep;
    var w := MessageWire(RlNetSchema(), r);
    WireSize(r);
    EnqueuedIsSent(l);
    var l0, l1 := SendsOne(l, r);
    ArriveOne(l1, l.out.sent, w);
    var l2 := LinkStep(RlNetSchema(), l1, Receive(|w|));
    LinkStepInv(RlNetSchema(), l1, Receive(|w|));
    DeliverAll(l2);
    LinkStepInv(RlNetSchema(), l2, Updating);
    var l3 := LinkStep(RlNetSchema(), l2, Updating);
    events, links := [Flushing([Took(|w|)]), Receive(|w|), Updating], [l0, l1, l2, l3];
  }

  lemma WireSize(r: Record)
    requires Sendable(RlNetSchema(), r, Transport.OUTPUT_BUFFER_SIZE)
    ensures 0 < |MessageWire(RlNetSchema(), r)| <= INPUT_BUFFER_SIZE
  {
    HeaderAgreement(RlNetSchema()[r[HDR_TYPE].n].fields, r);
    hide RlNetSchema, Wire;
  }

  // ---------- steps ----------

  ghost predicate JointChain(w: World, events: seq<JointEvent>, joints: seq<Joint>) {
    && |joints| == |events| + 1
    && forall i :: 0 <= i < |events| ==> JointNext(joints[i], w, events[i], joints[i + 1])
  }

  lemma JoinedChain(w: World, es: seq<JointEvent>, js: seq<Joint>, es': seq<JointEvent>, js': seq<Joint>)
    requires JointChain(w, es, js) && JointChain(w, es', js') && js'[0] == js[|es|]
    ensures JointChain(w, es + es', js + js'[1..])
  {
    hide JointNext;
    var events, joints := es + es', js + js'[1..];
    forall i | 0 <= i < |events|
      ensures JointNext(joints[i], w, events[i], joints[i + 1])
    {
      if i < |es| {
        assert JointNext(js[i], w, es[i], js[i + 1]);
      } else {
        assert JointNext(js'[i - |es|], w, es'[i - |es|], js'[i - |es| + 1]);
      }
    }
  }

  /** Only file messages have been sent over the link. */
  ghost predicate OnlyFiles(l: Link) {
    forall i :: 0 <= i < |l.messages| ==> FromRecord(l.messages[i]).Some?
  }

  ghost predicate LinkRests(l: Link) {
    Settled(l) && OnlyFiles(l)
  }

  ghost predicate Rests(j: Joint) {
    JointInv(j) && LinkRests(j.up) && LinkRests(j.down)
  }

  /** What was sent on a link at rest can be brought across, until the link rests again. */
  lemma Brought(l: Link, ms: seq<Msg>, l': Link) returns (events: seq<LinkEvent>, links: seq<Link>)
    requires LinkRests(l) && Sends(l, ms, l') && forall i :: 0 <= i < |ms| ==> Travels(ms[i])
    ensures |links| == |events| + 1 && links[0] == l' && LinkRests(links[|events|])
    ensures links[|events|].messages == l'.messages
    ensures forall i :: 0 <= i < |events| ==> LinkMoves(links[i], events[i], links[i + 1])
  {
    hide RlNetSchema, LinkStep, FromRecord, ToRecord, Travels, Sendable, Settled;
    if ms == [] {
      events, links := [], [l];
    } else {
      var r := ToRecord(ms[0]);
      MessageTravels(ms[0]);
      RecordIsMessage(ms[0]);
      ContentFits(l);
      events, links := Crosses(l, r);
      LinkStepAdds(RlNetSchema(), l, Send(r));
    }
  }

  lemma ContentFits(l: Link)
    requires Settled(l)
    ensures |l.inbound.content| <= INPUT_BUFFER_SIZE && |l.inbound.delivered| == |l.messages|
  {
  }

  /** The moves of the link up are moves of the joint system. */
  lemma MovesUp(w: World, j: Joint, events: seq<LinkEvent>, links: seq<Link>)
    returns (es: seq<JointEvent>, js: seq<Joint>)
    requires |links| == |events| + 1 && links[0] == j.up
    requires forall i :: 0 <= i < |events| ==> LinkMoves(links[i], events[i], links[i + 1])
    ensures JointChain(w, es, js) && js[0] == j && js[|es|] == j.(up := links[|events|])
    ensures forall e <- es :: e.UpLink?
  {
    hide LinkMoves;
    es := seq(|events|, i requires 0 <= i < |events| => UpLink(events[i]));
    js := seq(|links|, i requires 0 <= i < |links| => j.(up := links[i]));
  }

  lemma MovesDown(w: World, j: Joint, events: seq<LinkEvent>, links: seq<Link>)
    returns (es: seq<JointEvent>, js: seq<Joint>)
    requires |links| == |events| + 1 && links[0] == j.down
    requires forall i :: 0 <= i < |events| ==> LinkMoves(links[i], events[i], links[i + 1])
    ensures JointChain(w, es, js) && js[0] == j && js[|es|] == j.(down := links[|events|])
    ensures forall e <- es :: e.DownLink?
  {
    hide LinkMoves;
    es := seq(|events|, i requires 0 <= i < |events| => DownLink(events[i]));
    js := seq(|links|, i requires 0 <= i < |links| => j.(down := links[i]));
  }

  /** On a link at rest the next frame holds the next message. */
  lemma HeadFrame(l: Link, k: nat) returns (m: Msg, rest: seq<Msg>)
    requires LinkRests(l) && k <= |l.inbound.delivered| && Unread(l, k) != []
    ensures k < |l.inbound.delivered| && FrameMsg(l, k) == Some(m)
    ensures Unread(l, k) == [m] + rest && Unread(l, k + 1) == rest
  {
    hide RlNetSchema, LinkInv, FrameMsg, FromRecord;
    FrameIs(l, k);
    NextFrame(l, k);
    m, rest := Unread(l, k)[0], Unread(l, k + 1);
  }

  lemma SameUnread(l: Link, l': Link, k: nat)
    requires l'.messages == l.messages
    ensures Unread(l', k) == Unread(l, k)
  {
  }

  /** A packet sends one request at most, an answer too. */
  lemma PostsOne(c: Client, packet: nat, p: RemoteFs.Packet, m: Msg)
    requires c.out == []
    ensures Acceptable(c, p) ==> |ProcessPacket(c, packet, p).out| <= 1
    ensures AllLive(c) ==> |ProcessAnswer(c, m).0.out| <= 1
  {
    hide BufferOverlap, SeekOffset, Normalize, AfterColon, LastSlash, Truncate, TakeData, NextChunk, TranslateError;
    var f := FindPending(c.pending, m.seqno);
    if AllLive(c) && f.Some? {
      assert Live(c, c.pending[f.value].detail);
    }
  }

  lemma Deterministic(s: State, w: World, e: Event, s': State, t: State)
    requires Next(s, w, e, s') && Next(s, w, e, t)
    ensures s' == t
  {
    hide Step, Enabled;
  }

  /** The same step without the channels' contents. */
  lemma BarePacket(s: State, w: World, p: RemoteFs.Packet, out: seq<Msg>, answers: seq<Msg>, s': State)
    returns (t: State)
    requires s.client.out == [] && s.answers == [] && AllRequests(out)
    requires Next(WithOut(s, out).(answers := answers), w, TakePacket(p), s')
    ensures Next(s, w, TakePacket(p), t) && s' == WithOut(t, out + t.client.out).(answers := answers)
    ensures |t.client.out| <= 1 && t.answers == []
  {
    hide ProcessPacket, Serve, ProcessAnswer;
    var a := WithOut(s, out).(answers := answers);
    assert AllLive(s.client) by {
      forall i | 0 <= i < |s.client.pending|
        ensures Live(s.client, s.client.pending[i].detail)
      {
        assert Live(a.client, a.client.pending[i].detail);
      }
    }
    PacketOut(a.client.(out := []), s.taken, p, out);
    SameAcceptable(s.client, out, p);
    t := Step(s, w, TakePacket(p));
    PostsOne(s.client, s.taken, p, OpenRequest(0, ""));
    hide AllLive, Acceptable, Blocked;
    PacketAbs(s, w, p, t, out, answers);
    Deterministic(a, w, TakePacket(p), s', WithOut(t, out + t.client.out).(answers := answers));
  }

  lemma SameAcceptable(c: Client, out: seq<Msg>, p: RemoteFs.Packet)
    ensures Acceptable(c.(out := out), p) == Acceptable(c, p) && Blocked(c.(out := out), p) == Blocked(c, p)
  {
  }

  /** These events bring the joint system from j to rest in a state that is s' of FsSystem. */
  ghost predicate Realises(w: World, es: seq<JointEvent>, js: seq<Joint>, j: Joint, s': State) {
    && JointChain(w, es, js) && js[0] == j && Rests(js[|es|]) && Abs(js[|es|]) == s'
    && forall e <- es :: JointEventOk(e)
  }

  /** After an event the link up is brought to rest. */
  lemma SettlesUp(j: Joint, j': Joint, w: World, e: JointEvent, ms: seq<Msg>)
    returns (es: seq<JointEvent>, js: seq<Joint>)
    requires Rests(j) && JointNext(j, w, e, j') && JointEventOk(e)
    requires Sends(j.up, ms, j'.up) && j'.down == j.down && forall i :: 0 <= i < |ms| ==> Travels(ms[i])
    requires j'.core.client.out == [] && j'.core.answers == []
    requires j'.upTaken <= |j.up.messages| && j'.downTaken <= |j.down.messages|
    ensures Realises(w, es, js, j, Abs(j'))
  {
    hide JointNext, RlNetSchema, Unread, Sends, Settled, OnlyFiles, LinkInv, Travels;
    var moves, links := Brought(j.up, ms, j'.up);
    var es1, js1 := MovesUp(w, j', moves, links);
    JoinedChain(w, [e], [j, j'], es1, js1);
    es, js := [e] + es1, [j, j'] + js1[1..];
    var k := js1[|es1|];
    assert js[|es|] == k;
    SameUnread(j'.up, k.up, j'.upTaken);
    SentGrowsLink(j.up, ms, j'.up);
    RestsAgain(j, k);
  }

  lemma SettlesDown(j: Joint, j': Joint, w: World, e: JointEvent, ms: seq<Msg>)
    returns (es: seq<JointEvent>, js: seq<Joint>)
    requires Rests(j) && JointNext(j, w, e, j') && JointEventOk(e)
    requires Sends(j.down, ms, j'.down) && j'.up == j.up && forall i :: 0 <= i < |ms| ==> Travels(ms[i])
    requires j'.core.client.out == [] && j'.core.answers == []
    requires j'.upTaken <= |j.up.messages| && j'.downTaken <= |j.down.messages|
    ensures Realises(w, es, js, j, Abs(j'))
  {
    hide JointNext, RlNetSchema, Unread, Sends, Settled, OnlyFiles, LinkInv, Travels;
    var moves, links := Brought(j.down, ms, j'.down);
    var es1, js1 := MovesDown(w, j', moves, links);
    JoinedChain(w, [e], [j, j'], es1, js1);
    es, js := [e] + es1, [j, j'] + js1[1..];
    var k := js1[|es1|];
    assert js[|es|] == k;
    SameUnread(j'.down, k.down, j'.downTaken);
    SentGrowsLink(j.down, ms, j'.down);
    RestsAgain(j, k);
  }

  lemma SentGrowsLink(l: Link, ms: seq<Msg>, l': Link)
    requires Sends(l, ms, l')
    ensures |l.messages| <= |l'.messages|
  {
    hide RlNetSchema, LinkStep, ToRecord;
    if ms != [] {
      LinkStepAdds(RlNetSchema(), l, Send(ToRecord(ms[0])));
    }
  }

  lemma RealisePacket(j: Joint, w: World, p: RemoteFs.Packet, s': State)
    returns (es: seq<JointEvent>, js: seq<Joint>)
    requires Rests(j) && Next(Abs(j), w, TakePacket(p), s') && Fine(Abs(j), w) && PacketOk(p)
    ensures Realises(w, es, js, j, s')
  {
    hide Next, Fine, LinkInv, RlNetSchema, Unread, LinkStep, Settled, OnlyFiles, ToRecord, Realises, Travels;
    var out, answers := Unread(j.up, j.upTaken), Unread(j.down, j.downTaken);
    ContentFits(j.up);
    ContentFits(j.down);
    FineAllows(Abs(j), w);
    var t := BarePacket(j.core, w, p, out, answers, s');
    FineStep(Abs(j), w, TakePacket(p), s');
    TailTravels(out, t.client.out);
    var j' := j.(core := WithOut(t, []), up := SentOn(j.up, t.client.out));
    SentBehind(j.up, t.client.out, j'.up, j.upTaken);
    assert JointNext(j, w, Packet(p), j') && Abs(j') == s';
    hide Abs, JointNext;
    es, js := SettlesUp(j, j', w, Packet(p), t.client.out);
  }

  /** The link after at most one message. */
  function SentOn(l: Link, ms: seq<Msg>): Link
    requires |l.inbound.content| <= INPUT_BUFFER_SIZE
  {
    if ms == [] then l else LinkStep(RlNetSchema(), l, Send(ToRecord(ms[0])))
  }

  lemma RestsAgain(j: Joint, k: Joint)
    requires Rests(j) && LinkRests(k.up) && LinkRests(k.down) && k.core.client.out == [] && k.core.answers == []
    requires k.upTaken <= |k.up.messages| && k.downTaken <= |k.down.messages|
    ensures Rests(k)
  {
    hide LinkInv;
  }

  /** The server's step without the channels' other contents. */
  lemma BareServe(s: State, w: World, m: Msg, os: OsResult, rest: seq<Msg>, answers: seq<Msg>, s': State)
    returns (t: State)
    requires s.client.out == [] && s.answers == [] && AllRequests([m] + rest)
    requires Next(WithOut(s, [m] + rest).(answers := answers), w, ServeNext(os), s')
    ensures Next(WithOut(s, [m]), w, ServeNext(os), t) && t.client.out == [] && |t.answers| <= 1
    ensures s' == WithOut(t, rest).(answers := answers + t.answers)
  {
    hide ProcessPacket, Serve, ProcessAnswer;
    var a, b := WithOut(s, [m] + rest).(answers := answers), WithOut(s, [m]);
    assert AllLive(b.client) by {
      forall i | 0 <= i < |s.client.pending|
        ensures Live(b.client, s.client.pending[i].detail)
      {
        assert Live(a.client, a.client.pending[i].detail);
      }
    }
    t := Step(b, w, ServeNext(os));
    ServeAbs(s, w, m, os, t, rest, answers);
    Deterministic(a, w, ServeNext(os), s', WithOut(t, rest).(answers := answers + t.answers));
  }

  lemma RestFacts(j: Joint)
    requires Rests(j)
    ensures LinkRests(j.up) && LinkRests(j.down) && LinkInv(RlNetSchema(), j.up) && LinkInv(RlNetSchema(), j.down)
    ensures j.upTaken <= |j.up.inbound.delivered| == |j.up.messages|
    ensures j.downTaken <= |j.down.inbound.delivered| == |j.down.messages|
    ensures |j.up.inbound.content| <= INPUT_BUFFER_SIZE && |j.down.inbound.content| <= INPUT_BUFFER_SIZE
    ensures j.core.client.out == [] && j.core.answers == []
  {
    hide LinkInv, RlNetSchema, OnlyFiles;
    ContentFits(j.up);
    ContentFits(j.down);
  }

  /** The request that the server takes next is in the next frame. */
  lemma HeadRequest(j: Joint, w: World, os: OsResult, s': State) returns (m: Msg, rest: seq<Msg>)
    requires Rests(j) && Next(Abs(j), w, ServeNext(os), s')
    ensures j.upTaken < |j.up.inbound.delivered| == |j.up.messages| && FrameMsg(j.up, j.upTaken) == Some(m)
    ensures Unread(j.up, j.upTaken) == [m] + rest && Unread(j.up, j.upTaken + 1) == rest
    ensures j.downTaken <= |j.down.inbound.delivered| == |j.down.messages|
    ensures |j.down.inbound.content| <= INPUT_BUFFER_SIZE && LinkInv(RlNetSchema(), j.down)
    ensures j.core.client.out == [] && j.core.answers == []
  {
    HasRequest(j, w, os, s');
    hide Next, LinkInv, RlNetSchema, Unread, FrameMsg, Rests, LinkRests;
    RestFacts(j);
    m, rest := HeadFrame(j.up, j.upTaken);
  }

  lemma RealiseServe(j: Joint, w: World, os: OsResult, s': State) returns (es: seq<JointEvent>, js: seq<Joint>)
    requires Rests(j) && Next(Abs(j), w, ServeNext(os), s') && Fine(Abs(j), w)
    ensures Realises(w, es, js, j, s')
  {
    hide Next, Fine, LinkInv, RlNetSchema, Unread, LinkStep, Rests, ToRecord, FrameMsg, Realises, Travels;
    var m, rest := HeadRequest(j, w, os, s');
    var answers := Unread(j.down, j.downTaken);
    FineAllows(Abs(j), w);
    var t := BareServe(j.core, w, m, os, rest, answers, s');
    FineStep(Abs(j), w, ServeNext(os), s');
    TailTravels(answers, t.answers);
    var j' := j.(core := t.(answers := []), down := SentOn(j.down, t.answers), upTaken := j.upTaken + 1);
    SentBehind(j.down, t.answers, j'.down, j.downTaken);
    assert JointNext(j, w, ServeFrame(os), j') && Abs(j') == s';
    hide Abs, JointNext;
    es, js := SettlesDown(j, j', w, ServeFrame(os), t.answers);
  }

  lemma HasRequest(j: Joint, w: World, os: OsResult, s': State)
    requires Next(Abs(j), w, ServeNext(os), s')
    ensures Unread(j.up, j.upTaken) != []
  {
  }

  lemma HasAnswer(j: Joint, w: World, s': State)
    requires Next(Abs(j), w, TakeAnswer, s')
    ensures Unread(j.down, j.downTaken) != []
  {
  }

  /** The client's step on an answer without the channels' other contents. */
  lemma BareTake(s: State, w: World, m: Msg, out: seq<Msg>, rest: seq<Msg>, s': State) returns (t: State)
    requires s.client.out == [] && s.answers == [] && AllRequests(out)
    requires Next(WithOut(s, out).(answers := [m] + rest), w, TakeAnswer, s')
    ensures Next(s.(answers := [m]), w, TakeAnswer, t) && t.answers == [] && |t.client.out| <= 1
    ensures s' == WithOut(t, out + t.client.out).(answers := rest)
  {
    hide ProcessPacket, Serve, ProcessAnswer;
    var a, b := WithOut(s, out).(answers := [m] + rest), s.(answers := [m]);
    assert AllLive(b.client) by {
      forall i | 0 <= i < |s.client.pending|
        ensures Live(b.client, s.client.pending[i].detail)
      {
        assert Live(a.client, a.client.pending[i].detail);
      }
    }
    t := Step(b, w, TakeAnswer);
    PostsOne(s.client, 0, RemoteFs.Die, m);
    hide AllLive;
    TakeAbs(s, w, m, t, out, rest);
    Deterministic(a, w, TakeAnswer, s', WithOut(t, out + t.client.out).(answers := rest));
  }

  /** The answer that the client takes next is in the next frame. */
  lemma HeadAnswer(j: Joint, w: World, s': State) returns (m: Msg, rest: seq<Msg>)
    requires Rests(j) && Next(Abs(j), w, TakeAnswer, s')
    ensures j.downTaken < |j.down.inbound.delivered| == |j.down.messages| && FrameMsg(j.down, j.downTaken) == Some(m)
    ensures Unread(j.down, j.downTaken) == [m] + rest && Unread(j.down, j.downTaken + 1) == rest
    ensures j.upTaken <= |j.up.inbound.delivered| == |j.up.messages|
    ensures |j.up.inbound.content| <= INPUT_BUFFER_SIZE && LinkInv(RlNetSchema(), j.up)
    ensures j.core.client.out == [] && j.core.answers == []
  {
    HasAnswer(j, w, s');
    hide Next, LinkInv, RlNetSchema, Unread, FrameMsg, Rests, LinkRests;
    RestFacts(j);
    m, rest := HeadFrame(j.down, j.downTaken);
  }

  lemma RealiseTake(j: Joint, w: World, s': State) returns (es: seq<JointEvent>, js: seq<Joint>)
    requires Rests(j) && Next(Abs(j), w, TakeAnswer, s') && Fine(Abs(j), w)
    ensures Realises(w, es, js, j, s')
  {
    hide Next, Fine, LinkInv, RlNetSchema, Unread, LinkStep, Rests, ToRecord, FrameMsg, Realises, Travels;
    var m, rest := HeadAnswer(j, w, s');
    var out := Unread(j.up, j.upTaken);
    FineAllows(Abs(j), w);
    var t := BareTake(j.core, w, m, out, rest, s');
    FineStep(Abs(j), w, TakeAnswer, s');
    TailTravels(out, t.client.out);
    var j' := j.(core := WithOut(t, []), up := SentOn(j.up, t.client.out), downTaken := j.downTaken + 1);
    SentBehind(j.up, t.client.out, j'.up, j.upTaken);
    assert JointNext(j, w, TakeFrame, j') && Abs(j') == s';
    hide Abs, JointNext;
    es, js := SettlesUp(j, j', w, TakeFrame, t.client.out);
  }

  // ---------- runs ----------

  lemma StartRests(device: string)
    ensures Rests(StartJoint(device)) && Abs(StartJoint(device)) == StartState(device)
  {
    StartSim(device);
    hide RlNetSchema;
  }

  lemma RealisesMore(w: World, es: seq<JointEvent>, js: seq<Joint>, j: Joint, s: State,
                     es': seq<JointEvent>, js': seq<Joint>, s': State)
    requires Realises(w, es, js, j, s) && Realises(w, es', js', js[|es|], s')
    ensures Realises(w, es + es', js + js'[1..], j, s')
  {
    hide JointNext, Rests, Abs, JointEventOk;
    JoinedChain(w, es, js, es', js');
    assert (js + js'[1..])[|es + es'|] == js'[|es'|];
  }

  lemma RealisesEnd(w: World, es: seq<JointEvent>, js: seq<Joint>, j: Joint, s': State)
    requires Realises(w, es, js, j, s')
    ensures |js| == |es| + 1 && Abs(js[|es|]) == s' && Rests(js[|es|])
  {
    hide JointNext, Rests, Abs, JointEventOk;
  }

  lemma {:induction false} RunRealised(device: string, w: World, events: seq<Event>, states: seq<State>, n: nat)
    returns (es: seq<JointEvent>, js: seq<Joint>)
    requires IsRun(device, w, events, states) && n < |states| && NoWrap(states[n])
    requires WorldOk(w) && NamesOk(w) && ShortText(device) && forall i :: 0 <= i < n ==> EventOk(events[i])
    ensures Realises(w, es, js, StartJoint(device), states[n])
  {
    hide Next, Rests, WorldOk, NamesOk, Abs, JointNext, JointEventOk, Structure, RepliesConserved, StateFits, EventOk,
      Realises;
    if n == 0 {
      es, js := StartRealised(device, w);
    } else {
      var s, e := states[n - 1], events[n - 1];
      assert Next(s, w, e, states[n]) && EventOk(e);
      SentGrows(s, w, e, states[n]);
      var es0, js0 := RunRealised(device, w, events, states, n - 1);
      RealisesEnd(w, es0, js0, StartJoint(device), s);
      RunMatching(device, w, events, states, n - 1);
      RunFits(device, w, events, states, n - 1);
      var es1, js1 := Realise(js0[|es0|], w, e, states[n]);
      RealisesEnd(w, es1, js1, js0[|es0|], states[n]);
      RealisesMore(w, es0, js0, StartJoint(device), s, es1, js1, states[n]);
      es, js := es0 + es1, js0 + js1[1..];
    }
  }

  lemma StartRealised(device: string, w: World) returns (es: seq<JointEvent>, js: seq<Joint>)
    ensures Realises(w, es, js, StartJoint(device), StartState(device))
  {
    StartRests(device);
    es, js := [], [StartJoint(device)];
    hide JointNext, Rests;
  }

  /**
   Every run over ideal channels is what a run over the two links comes to: the
   same packets, the same choices of the operating system, the same replies.
   */
  lemma EveryRunIsJoint(device: string, w: World, events: seq<Event>, states: seq<State>, n: nat)
    returns (es: seq<JointEvent>, js: seq<Joint>)
    requires IsRun(device, w, events, states) && n < |states| && NoWrap(states[n])
    requires WorldOk(w) && NamesOk(w) && ShortText(device) && forall i :: 0 <= i < n ==> EventOk(events[i])
    ensures IsJointRun(device, w, es, js) && (forall e <- es :: JointEventOk(e))
    ensures Abs(js[|es|]) == states[n] && js[|es|].core.client.log == states[n].client.log
  {
    es, js := RunRealised(device, w, events, states, n);
    hide IsRun, WorldOk, NamesOk, JointEventOk, JointNext, Rests, StartJoint, NoWrap, EventOk;
    SameLog(js[|es|]);
  }

  lemma SameLog(j: Joint)
    ensures Abs(j).client.log == j.core.client.log
  {
  }

  lemma Realise(j: Joint, w: World, e: Event, s': State) returns (es: seq<JointEvent>, js: seq<Joint>)
    requires Rests(j) && Next(Abs(j), w, e, s') && Fine(Abs(j), w) && EventOk(e)
    ensures Realises(w, es, js, j, s')
  {
    hide Next, Rests, Fine, Abs;
    match e
    case TakePacket(p) => es, js := RealisePacket(j, w, p, s');
    case ServeNext(os) => es, js := RealiseServe(j, w, os, s');
    case TakeAnswer => es, js := RealiseTake(j, w, s');
  }
}
