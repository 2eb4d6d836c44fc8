/**
 The file system over the connection: client and server exchange their messages
 through two links, each with codec, output queue, partial sends, framing and
 whatever else the peers say to each other. What they do is a run of FsSystem.
 */
module FsJoint {
  import opened Base
  import opened RemoteFs
  import opened FsSystem
  import opened FsMatching
  import opened Reference
  import opened FsWire
  import opened FsTravel
  import opened RlNet
  import opened Codec
  import opened RoundTrip
  import opened EndToEnd
  import FsRefinement
  import opened FsRoot
  import Transport

  // ---------- file messages among the others ----------

  /** The file messages among the records, in order; pings, handshakes and others are none. */
  function Files(records: seq<Record>): seq<Msg> {
    if records == [] then []
    else
      match FromRecord(records[0])
      case None => Files(records[1..])
      case Some(m) => [m] + Files(records[1..])
  }

  lemma {:induction false} FilesAppend(x: seq<Record>, y: seq<Record>)
    ensures Files(x + y) == Files(x) + Files(y)
  {
    hide FromRecord;
    if x == [] {
      assert x + y == y;
    } else {
      FilesAppend(x[1..], y);
      assert (x + y)[1..] == x[1..] + y && (x + y)[0] == x[0];
    }
  }

  lemma FilesOne(r: Record)
    ensures Files([r]) == match FromRecord(r) case None => [] case Some(m) => [m]
  {
    hide FromRecord;
    assert [r][1..] == [];
  }

  lemma FilesFirst(records: seq<Record>, k: nat)
    requires k < |records|
    ensures Files(records[k..]) ==
      match FromRecord(records[k])
      case None => Files(records[k + 1..])
      case Some(m) => [m] + Files(records[k + 1..])
  {
    hide FromRecord;
    assert records[k..][1..] == records[k + 1..];
  }

  /** The length field, which the encoder fills in, makes no difference to what a record is. */
  lemma LengthIsNoMatter(r: Record, n: nat)
    requires HasKind(RlNetSchema(), r) && IsMessage(RlNetSchema()[r[HDR_TYPE].n].fields, r)
    ensures FromRecord(r[HDR_LENGTH := Num(n)]) == FromRecord(r)
  {
    hide RlNetSchema;
    var fields := RlNetSchema()[r[HDR_TYPE].n].fields;
    var r' := r[HDR_LENGTH := Num(n)];
    assert fields[0].name == HDR_TYPE && fields[2].name == HDR_LENGTH;
    assert r'[HDR_TYPE] == r[HDR_TYPE];
    var vs, vs' := Values(fields, r), Values(fields, r');
    forall i | 0 <= i < |fields| && i != 2
      ensures vs'[i] == vs[i]
    {
      assert fields[i].name != fields[2].name;
    }
    assert |vs| >= 4 ==> vs'[4..] == vs[4..];
  }

  // ---------- the joint system ----------

  /**
   core is client and server without channels; up and down are the links from
   client to server and back; upTaken and downTaken count the frames that the
   receivers have looked at.
   */
  datatype Joint = Joint(core: State, up: Link, down: Link, upTaken: nat, downTaken: nat)

  datatype JointEvent =
    | Packet(p: RemoteFs.Packet)
    | ServeFrame(os: OsResult)
    | TakeFrame
    | UpLink(e: LinkEvent)
    | DownLink(e: LinkEvent)

  /** At most one message is encoded and enqueued on a link. */
  predicate Sends(l: Link, ms: seq<Msg>, l': Link) {
    && |l.inbound.content| <= INPUT_BUFFER_SIZE
    && (if ms == [] then l' == l
        else |ms| == 1 && l' == LinkStep(RlNetSchema(), l, Send(ToRecord(ms[0]))))
  }

  /** What the receiver finds in the frame at place k. */
  function FrameMsg(l: Link, k: nat): Option<Msg>
    requires k < |l.inbound.delivered|
  {
    var frame := l.inbound.delivered[k];
    var d := Decode(RlNetSchema(), frame, |frame|);
    if d.Decoded? then FromRecord(d.record) else None
  }

  /** Whatever the link does, and whatever is sent over it besides the file system's messages. */
  predicate LinkMoves(l: Link, e: LinkEvent, l': Link) {
    && |l.inbound.content| <= INPUT_BUFFER_SIZE
    && (e.Send? ==> FromRecord(e.r) == None)
    && l' == LinkStep(RlNetSchema(), l, e)
  }

  function WithOut(s: State, out: seq<Msg>): State {
    s.(client := s.client.(out := out))
  }

  ghost predicate JointNext(j: Joint, w: World, e: JointEvent, j': Joint) {
    match e
    case Packet(p) =>
      exists s' :: Next(j.core, w, TakePacket(p), s') && Sends(j.up, s'.client.out, j'.up)
                   && j' == j.(core := WithOut(s', []), up := j'.up)
    case ServeFrame(os) =>
      && j.upTaken < |j.up.inbound.delivered|
      && (match FrameMsg(j.up, j.upTaken)
          case None => j' == j.(upTaken := j.upTaken + 1)
          case Some(m) =>
            exists s' :: Next(WithOut(j.core, [m]), w, ServeNext(os), s') && Sends(j.down, s'.answers, j'.down)
                         && j' == j.(core := s'.(answers := []), down := j'.down, upTaken := j.upTaken + 1))
    case TakeFrame =>
      && j.downTaken < |j.down.inbound.delivered|
      && (match FrameMsg(j.down, j.downTaken)
          case None => j' == j.(downTaken := j.downTaken + 1)
          case Some(m) =>
            exists s' :: Next(j.core.(answers := [m]), w, TakeAnswer, s') && Sends(j.up, s'.client.out, j'.up)
                         && j' == j.(core := WithOut(s', []), up := j'.up, downTaken := j.downTaken + 1))
    case UpLink(le) => LinkMoves(j.up, le, j'.up) && j' == j.(up := j'.up)
    case DownLink(le) => LinkMoves(j.down, le, j'.down) && j' == j.(down := j'.down)
  }

  function StartJoint(device: string): Joint {
    Joint(StartState(device), IDLE, IDLE, 0, 0)
  }

  ghost predicate IsJointRun(device: string, w: World, events: seq<JointEvent>, joints: seq<Joint>) {
    && |joints| == |events| + 1
    && joints[0] == StartJoint(device)
    && forall i :: 0 <= i < |events| ==> JointNext(joints[i], w, events[i], joints[i + 1])
  }

  /** The state of FsSystem: the channels hold the file messages that the receivers have not looked at. */
  function Abs(j: Joint): State {
    var up, down := Unread(j.up, j.upTaken), Unread(j.down, j.downTaken);
    WithOut(j.core, up).(answers := down)
  }

  function Unread(l: Link, k: nat): seq<Msg> {
    if k <= |l.messages| then Files(l.messages[k..]) else []
  }

  ghost predicate JointInv(j: Joint) {
    && j.core.client.out == [] && j.core.answers == []
    && LinkInv(RlNetSchema(), j.up) && LinkInv(RlNetSchema(), j.down)
    && j.upTaken <= |j.up.inbound.delivered| && j.downTaken <= |j.down.inbound.delivered|
  }

  // ---------- links ----------

  /** A frame that has been delivered is read as the message that was enqueued in its place. */
  lemma FrameIs(l: Link, k: nat)
    requires LinkInv(RlNetSchema(), l) && k < |l.inbound.delivered|
    ensures k < |l.messages| && FrameMsg(l, k) == FromRecord(l.messages[k])
  {
    DeliveredCarries(RlNetSchema(), l);
    var r, frame := l.messages[k], l.inbound.delivered[k];
    assert Carries(RlNetSchema(), frame, r);
    assert Sendable(RlNetSchema(), r, Transport.OUTPUT_BUFFER_SIZE);
    hide RlNetSchema, Decode, FromRecord, LinkInv;
    LengthIsNoMatter(r, |frame|);
  }

  lemma TakenBounds(l: Link)
    requires LinkInv(RlNetSchema(), l)
    ensures |l.inbound.delivered| <= |l.messages| && |l.inbound.content| <= INPUT_BUFFER_SIZE
  {
    DeliveredCarries(RlNetSchema(), l);
  }

  /** The next frame holds the next file message, or none. */
  lemma NextFrame(l: Link, k: nat)
    requires LinkInv(RlNetSchema(), l) && k < |l.inbound.delivered|
    ensures Unread(l, k) ==
      match FrameMsg(l, k)
      case None => Unread(l, k + 1)
      case Some(m) => [m] + Unread(l, k + 1)
  {
    hide RlNetSchema, LinkInv, FrameMsg, FromRecord;
    FrameIs(l, k);
    FilesFirst(l.messages, k);
  }

  /** One record more behind those not looked at. */
  lemma OneBehind(l: Link, r: Record, l': Link, k: nat)
    requires l'.messages == l.messages + [r] && k <= |l.messages|
    ensures Unread(l', k) == Unread(l, k) + match FromRecord(r) case None => [] case Some(m) => [m]
  {
    hide FromRecord;
    assert l'.messages[k..] == l.messages[k..] + [r];
    FilesAppend(l.messages[k..], [r]);
    FilesOne(r);
  }

  /** A file message that is sent comes behind the others. */
  lemma SentBehind(l: Link, ms: seq<Msg>, l': Link, k: nat)
    requires LinkInv(RlNetSchema(), l) && Sends(l, ms, l') && k <= |l.inbound.delivered|
    requires forall i :: 0 <= i < |ms| ==> Travels(ms[i])
    ensures LinkInv(RlNetSchema(), l') && k <= |l'.inbound.delivered|
    ensures Unread(l', k) == Unread(l, k) + ms
  {
    hide RlNetSchema, LinkInv, LinkStep, ToRecord, FromRecord, Travels, Unread, Sendable;
    TakenBounds(l);
    if ms == [] {
      assert Unread(l, k) + [] == Unread(l, k);
    } else {
      var r := ToRecord(ms[0]);
      MessageTravels(ms[0]);
      RecordIsMessage(ms[0]);
      LinkStepInv(RlNetSchema(), l, Send(r));
      LinkStepAdds(RlNetSchema(), l, Send(r));
      OneBehind(l, r, l', k);
      assert ms == [ms[0]];
    }
  }

  /** The record of a message is read as the message, before and after its length is filled in. */
  lemma RecordIsMessage(m: Msg)
    requires Travels(m)
    ensures FromRecord(ToRecord(m)) == Some(m)
  {
    MessageTravels(m);
    RecordRoundTrip(m, 0);
    hide RlNetSchema, FromRecord, ToRecord, Travels;
    LengthIsNoMatter(ToRecord(m), 0);
  }

  /** The link moves, or something else is sent: the file messages are the same. */
  lemma MovedLink(l: Link, e: LinkEvent, l': Link, k: nat)
    requires LinkInv(RlNetSchema(), l) && LinkMoves(l, e, l') && k <= |l.inbound.delivered|
    ensures LinkInv(RlNetSchema(), l') && k <= |l'.inbound.delivered| && Unread(l', k) == Unread(l, k)
  {
    hide RlNetSchema, LinkInv, LinkStep, FromRecord, Sendable;
    TakenBounds(l);
    LinkStepInv(RlNetSchema(), l, e);
    LinkStepAdds(RlNetSchema(), l, e);
    if l'.messages != l.messages {
      OneBehind(l, e.r, l', k);
      assert Unread(l, k) + [] == Unread(l, k);
    }
  }

  // ---------- the simulation ----------

  /** What the client does does not depend on the requests that it has not sent yet. */
  lemma PacketOut(c: Client, packet: nat, p: RemoteFs.Packet, out: seq<Msg>)
    requires Acceptable(c, p)
    ensures Acceptable(c.(out := out), p)
    ensures var d := ProcessPacket(c, packet, p);
      c.out == [] ==> ProcessPacket(c.(out := out), packet, p) == d.(out := out + d.out)
  {
    hide BufferOverlap, SeekOffset, Normalize, AfterColon, LastSlash, Truncate;
    assert out + [] == out;
  }

  lemma CompletionsOut(c: Client, i: nat, m: Msg, out: seq<Msg>)
    requires c.out == [] && i < |c.pending| && Live(c, c.pending[i].detail)
    ensures c.pending[i].detail.Reading? && m.ReadAnswer? ==>
      var d := CompleteRead(c, i, m.data); CompleteRead(c.(out := out), i, m.data) == d.(out := out + d.out)
    ensures c.pending[i].detail.Writing? ==>
      var d := CompleteWrite(c, i); CompleteWrite(c.(out := out), i) == d.(out := out + d.out)
    ensures c.pending[i].detail.OpeningFile? && m.OpenAnswer? ==>
      var d := CompleteFindInput(c, i, m); CompleteFindInput(c.(out := out), i, m) == d.(out := out + d.out)
  {
    hide TakeData, NextChunk, Truncate;
    assert out + [] == out;
    assert forall x: Msg :: out + ([] + [x]) == out + [x];
  }

  lemma AnswerOut(c: Client, m: Msg, out: seq<Msg>)
    requires AllLive(c)
    ensures AllLive(c.(out := out))
    ensures var (d, broken) := ProcessAnswer(c, m);
      c.out == [] ==> ProcessAnswer(c.(out := out), m) == (d.(out := out + d.out), broken)
  {
    hide CompleteRead, CompleteWrite, CompleteFindInput, Truncate, TranslateError;
    forall i | 0 <= i < |c.pending|
      ensures Live(c.(out := out), c.pending[i].detail)
    {
      assert Live(c, c.pending[i].detail);
    }
    match FindPending(c.pending, m.seqno)
    case None =>
      assert out + [] == out;
    case Some(i) =>
      assert Live(c, c.pending[i].detail);
      if c.out == [] {
        CompletionsOut(c, i, m, out);
        assert out + [] == out;
      }
  }

  lemma TailTravels(x: seq<Msg>, y: seq<Msg>)
    requires AllTravel(x + y)
    ensures forall i :: 0 <= i < |y| ==> Travels(y[i])
  {
    forall i | 0 <= i < |y|
      ensures Travels(y[i])
    {
      assert (x + y)[|x| + i] == y[i];
    }
  }

  /** The bounds that FsTravel keeps, and the channels' directions. */
  ghost predicate Fine(s: State, w: World) {
    StateFits(s) && Structure(s) && WorldOk(w) && NamesOk(w)
  }

  lemma FineStep(s: State, w: World, e: Event, s': State)
    requires Fine(s, w) && EventOk(e) && Next(s, w, e, s')
    ensures AllTravel(s'.client.out) && AllTravel(s'.answers)
  {
    hide Structure, Next, WorldOk, NamesOk, EventOk;
    StepFits(s, w, e, s');
    hide HandlesFit, PendingFits;
  }

  lemma FineAllows(s: State, w: World)
    requires Fine(s, w)
    ensures AllLive(s.client) && AllRequests(s.client.out)
  {
  }

  /** The step of FsSystem that a packet comes to. */
  lemma PacketAbs(s: State, w: World, p: RemoteFs.Packet, s': State, out: seq<Msg>, answers: seq<Msg>)
    requires s.client.out == [] && Next(s, w, TakePacket(p), s') && AllRequests(out)
    ensures Next(WithOut(s, out).(answers := answers), w, TakePacket(p),
                 WithOut(s', out + s'.client.out).(answers := answers))
  {
    hide ProcessPacket, Serve, ProcessAnswer;
    PacketOut(s.client, s.taken, p, out);
    var a := WithOut(s, out).(answers := answers);
    assert AllLive(a.client) by {
      forall i | 0 <= i < |a.client.pending|
        ensures Live(a.client, a.client.pending[i].detail)
      {
        assert Live(s.client, s.client.pending[i].detail);
      }
    }
    SameBusy(s.client, a.client);
    hide AllLive, Acceptable;
  }

  lemma SameBusy(c: Client, d: Client)
    requires d.pending == c.pending
    ensures forall h :: Busy(d, h) <==> Busy(c, h)
  {
  }

  lemma SimPacket(j: Joint, w: World, p: RemoteFs.Packet, j': Joint)
    requires JointInv(j) && JointNext(j, w, Packet(p), j') && Fine(Abs(j), w) && PacketOk(p)
    ensures JointInv(j') && Next(Abs(j), w, TakePacket(p), Abs(j'))
  {
    hide Next, Fine, LinkInv, RlNetSchema, Sends, Unread;
    var s' :| Next(j.core, w, TakePacket(p), s') && Sends(j.up, s'.client.out, j'.up)
      && j' == j.(core := WithOut(s', []), up := j'.up);
    var out, answers := Unread(j.up, j.upTaken), Unread(j.down, j.downTaken);
    FineAllows(Abs(j), w);
    PacketAbs(j.core, w, p, s', out, answers);
    PacketKeepsAnswers(j.core, w, p, s');
    var a' := WithOut(s', out + s'.client.out).(answers := answers);
    FineStep(Abs(j), w, TakePacket(p), a');
    TailTravels(out, s'.client.out);
    SentBehind(j.up, s'.client.out, j'.up, j.upTaken);
    assert Abs(j') == a';
  }

  lemma PacketKeepsAnswers(s: State, w: World, p: RemoteFs.Packet, s': State)
    requires Next(s, w, TakePacket(p), s')
    ensures s'.answers == s.answers
  {
    hide ProcessPacket;
  }

  /** The step of FsSystem that a served frame comes to. */
  lemma ServeAbs(s: State, w: World, m: Msg, os: OsResult, s': State, rest: seq<Msg>, answers: seq<Msg>)
    requires s.client.out == [] && s.answers == [] && Next(WithOut(s, [m]), w, ServeNext(os), s')
    requires AllRequests([m] + rest)
    ensures s'.client.out == []
    ensures Next(WithOut(s, [m] + rest).(answers := answers), w, ServeNext(os),
                 WithOut(s', rest).(answers := answers + s'.answers))
  {
    hide ProcessPacket, Serve, ProcessAnswer;
    var a := WithOut(s, [m] + rest).(answers := answers);
    assert a.client.out[0] == m && a.client.out[1..] == rest && answers + [] == answers;
    assert AllLive(a.client) by {
      forall i | 0 <= i < |a.client.pending|
        ensures Live(a.client, a.client.pending[i].detail)
      {
        assert Live(WithOut(s, [m]).client, s.client.pending[i].detail);
      }
    }
    var (server, answer) := Serve(s.server, w, m, os);
    if answer.Some? {
      assert [] + [answer.value] == [answer.value];
    }
  }

  lemma SimServe(j: Joint, w: World, os: OsResult, j': Joint)
    requires JointInv(j) && JointNext(j, w, ServeFrame(os), j') && Fine(Abs(j), w)
    ensures JointInv(j') && (Abs(j') == Abs(j) || Next(Abs(j), w, ServeNext(os), Abs(j')))
  {
    hide Next, Fine, LinkInv, RlNetSchema, Sends, Unread, FrameMsg;
    NextFrame(j.up, j.upTaken);
    match FrameMsg(j.up, j.upTaken)
    case None =>
    case Some(m) =>
      var s' :| Next(WithOut(j.core, [m]), w, ServeNext(os), s') && Sends(j.down, s'.answers, j'.down)
        && j' == j.(core := s'.(answers := []), down := j'.down, upTaken := j.upTaken + 1);
      var rest, answers := Unread(j.up, j.upTaken + 1), Unread(j.down, j.downTaken);
      FineAllows(Abs(j), w);
      ServeAbs(j.core, w, m, os, s', rest, answers);
      var a' := WithOut(s', rest).(answers := answers + s'.answers);
      FineStep(Abs(j), w, ServeNext(os), a');
      TailTravels(answers, s'.answers);
      SentBehind(j.down, s'.answers, j'.down, j.downTaken);
      assert Abs(j') == a';
  }

  /** The step of FsSystem that a taken frame comes to. */
  lemma TakeAbs(s: State, w: World, m: Msg, s': State, out: seq<Msg>, rest: seq<Msg>)
    requires s.client.out == [] && s.answers == [] && Next(s.(answers := [m]), w, TakeAnswer, s') && AllRequests(out)
    ensures s'.answers == []
    ensures Next(WithOut(s, out).(answers := [m] + rest), w, TakeAnswer,
                 WithOut(s', out + s'.client.out).(answers := rest))
  {
    hide ProcessPacket, Serve, ProcessAnswer;
    AnswerOut(s.client, m, out);
    var a := WithOut(s, out).(answers := [m] + rest);
    assert a.answers[0] == m && a.answers[1..] == rest && [m][1..] == [];
    hide AllLive;
  }

  lemma SimTake(j: Joint, w: World, j': Joint)
    requires JointInv(j) && JointNext(j, w, TakeFrame, j') && Fine(Abs(j), w)
    ensures JointInv(j') && (Abs(j') == Abs(j) || Next(Abs(j), w, TakeAnswer, Abs(j')))
  {
    hide Next, Fine, LinkInv, RlNetSchema, Sends, Unread, FrameMsg;
    NextFrame(j.down, j.downTaken);
    match FrameMsg(j.down, j.downTaken)
    case None =>
    case Some(m) =>
      var s' :| Next(j.core.(answers := [m]), w, TakeAnswer, s') && Sends(j.up, s'.client.out, j'.up)
        && j' == j.(core := WithOut(s', []), up := j'.up, downTaken := j.downTaken + 1);
      var out, rest := Unread(j.up, j.upTaken), Unread(j.down, j.downTaken + 1);
      FineAllows(Abs(j), w);
      TakeAbs(j.core, w, m, s', out, rest);
      var a' := WithOut(s', out + s'.client.out).(answers := rest);
      FineStep(Abs(j), w, TakeAnswer, a');
      TailTravels(out, s'.client.out);
      SentBehind(j.up, s'.client.out, j'.up, j.upTaken);
      assert Abs(j') == a';
  }

  lemma SimLinks(j: Joint, w: World, e: JointEvent, j': Joint)
    requires JointInv(j) && JointNext(j, w, e, j') && (e.UpLink? || e.DownLink?)
    ensures JointInv(j') && Abs(j') == Abs(j)
  {
    hide LinkInv, RlNetSchema, LinkMoves, Unread;
    if e.UpLink? {
      MovedLink(j.up, e.e, j'.up, j.upTaken);
    } else {
      MovedLink(j.down, e.e, j'.down, j.downTaken);
    }
  }

  // ---------- runs ----------

  /** The event of FsSystem that an event of the joint system is, if it is one. */
  function CoreEvent(e: JointEvent): Option<Event> {
    match e
    case Packet(p) => Some(TakePacket(p))
    case ServeFrame(os) => Some(ServeNext(os))
    case TakeFrame => Some(TakeAnswer)
    case UpLink(_) => None
    case DownLink(_) => None
  }

  predicate JointEventOk(e: JointEvent) {
    e.Packet? ==> PacketOk(e.p)
  }

  lemma SimStep(j: Joint, w: World, e: JointEvent, j': Joint)
    requires JointInv(j) && JointNext(j, w, e, j') && Fine(Abs(j), w) && JointEventOk(e)
    ensures JointInv(j')
    ensures || Abs(j') == Abs(j)
            || (CoreEvent(e).Some? && EventOk(CoreEvent(e).value) && Next(Abs(j), w, CoreEvent(e).value, Abs(j')))
  {
    hide JointInv, JointNext, Fine, Next;
    match e
    case Packet(p) => SimPacket(j, w, p, j');
    case ServeFrame(os) => SimServe(j, w, os, j');
    case TakeFrame => SimTake(j, w, j');
    case UpLink(_) => SimLinks(j, w, e, j');
    case DownLink(_) => SimLinks(j, w, e, j');
  }

  lemma StartSim(device: string)
    ensures JointInv(StartJoint(device)) && Abs(StartJoint(device)) == StartState(device)
  {
    IdleInv(RlNetSchema());
    hide RlNetSchema, LinkInv;
  }

  /** A run with one event more. */
  lemma RunSnoc(device: string, w: World, events: seq<Event>, states: seq<State>, e: Event, s: State)
    requires IsRun(device, w, events, states) && Next(states[|events|], w, e, s)
    ensures IsRun(device, w, events + [e], states + [s])
  {
    hide Next;
    var es, ss := events + [e], states + [s];
    forall i | 0 <= i < |es|
      ensures Next(ss[i], w, es[i], ss[i + 1])
    {
      if i < |events| {
        assert Next(states[i], w, events[i], states[i + 1]);
      }
    }
  }

  /** Requests are numbered without a wrap-around. */
  predicate JointNoWrap(j: Joint) {
    NoWrap(j.core)
  }

  /** The callers that share handle 0 list it one at a time. */
  predicate JointTakesTurns(j: Joint, e: JointEvent) {
    CoreEvent(e).Some? ==> TakesTurns(Abs(j), CoreEvent(e).value)
  }

  ghost predicate JointInTurn(events: seq<JointEvent>, joints: seq<Joint>, n: nat) {
    n <= |events| && n < |joints| && forall i :: 0 <= i < n ==> JointTakesTurns(joints[i], events[i])
  }

  lemma TurnKept(j: Joint, e: JointEvent)
    requires CoreEvent(e).Some? && JointTakesTurns(j, e)
    ensures TakesTurns(Abs(j), CoreEvent(e).value)
  {
  }

  /** What client and server do over the links is a run of FsSystem. */
  lemma {:induction false} JointIsRun(device: string, w: World, events: seq<JointEvent>, joints: seq<Joint>, n: nat)
    returns (es: seq<Event>, ss: seq<State>)
    requires IsJointRun(device, w, events, joints) && n < |joints|
    requires JointNoWrap(joints[n])
    requires WorldOk(w) && NamesOk(w) && ShortText(device) && forall i :: 0 <= i < n ==> JointEventOk(events[i])
    ensures IsRun(device, w, es, ss) && ss[|es|] == Abs(joints[n]) && JointInv(joints[n])
    ensures forall i :: 0 <= i < |es| ==> EventOk(es[i])
    ensures JointInTurn(events, joints, n) ==> InTurn(es, ss, |es|)
  {
    hide Next, JointNext, JointInv, WorldOk, NamesOk, Abs, JointEventOk, EventOk, JointTakesTurns, TakesTurns;
    if n == 0 {
      StartSim(device);
      es, ss := [], [StartState(device)];
    } else {
      var j, e := joints[n - 1], events[n - 1];
      assert JointNext(j, w, e, joints[n]) && JointEventOk(e);
      JointSentGrows(j, w, e, joints[n]);
      es, ss := JointIsRun(device, w, events, joints, n - 1);
      AbsNoWrap(j);
      RunFine(device, w, es, ss);
      SimStep(j, w, e, joints[n]);
      if Abs(joints[n]) != Abs(j) {
        if JointTakesTurns(j, e) {
          TurnKept(j, e);
        }
        RunSnoc(device, w, es, ss, CoreEvent(e).value, Abs(joints[n]));
        es, ss := es + [CoreEvent(e).value], ss + [Abs(joints[n])];
      }
    }
  }

  lemma JointSentGrows(j: Joint, w: World, e: JointEvent, j': Joint)
    requires JointNext(j, w, e, j')
    ensures j.core.sent <= j'.core.sent
  {
    hide Next, Sends, FrameMsg, LinkMoves;
    match e
    case Packet(p) =>
      var s' :| Next(j.core, w, TakePacket(p), s') && Sends(j.up, s'.client.out, j'.up)
        && j' == j.(core := WithOut(s', []), up := j'.up);
      SentGrows(j.core, w, TakePacket(p), s');
    case ServeFrame(os) =>
      match FrameMsg(j.up, j.upTaken) {
        case None =>
        case Some(m) =>
          var s' :| Next(WithOut(j.core, [m]), w, ServeNext(os), s') && Sends(j.down, s'.answers, j'.down)
            && j' == j.(core := s'.(answers := []), down := j'.down, upTaken := j.upTaken + 1);
          SentGrows(WithOut(j.core, [m]), w, ServeNext(os), s');
      }
    case TakeFrame =>
      match FrameMsg(j.down, j.downTaken) {
        case None =>
        case Some(m) =>
          var s' :| Next(j.core.(answers := [m]), w, TakeAnswer, s') && Sends(j.up, s'.client.out, j'.up)
            && j' == j.(core := WithOut(s', []), up := j'.up, downTaken := j.downTaken + 1);
          SentGrows(j.core.(answers := [m]), w, TakeAnswer, s');
      }
    case UpLink(_) =>
    case DownLink(_) =>
  }

  lemma AbsNoWrap(j: Joint)
    ensures JointNoWrap(j) <==> NoWrap(Abs(j))
    ensures Abs(j).client.log == j.core.client.log
  {
  }

  lemma RunFine(device: string, w: World, es: seq<Event>, ss: seq<State>)
    requires IsRun(device, w, es, ss) && NoWrap(ss[|es|]) && WorldOk(w) && NamesOk(w) && ShortText(device)
    requires forall i :: 0 <= i < |es| ==> EventOk(es[i])
    ensures Fine(ss[|es|], w)
  {
    hide IsRun, WorldOk, NamesOk, Structure, StateFits, RepliesConserved;
    RunLength(device, w, es, ss);
    RunMatching(device, w, es, ss, |es|);
    RunFits(device, w, es, ss, |es|);
  }

  lemma RunLength(device: string, w: World, es: seq<Event>, ss: seq<State>)
    requires IsRun(device, w, es, ss)
    ensures |ss| == |es| + 1
  {
  }

  /**
   The whole stack: a client and a server that talk through codec, output
   queues, partial sends, arbitrary arrival and framing, on connections that
   carry other messages too, tell their callers what the plain file system would.
   */
  lemma JointRefinement(device: string, w: World, events: seq<JointEvent>, joints: seq<Joint>, n: nat, k: nat)
    requires IsJointRun(device, w, events, joints) && n < |joints|
    requires JointNoWrap(joints[n])
    requires WorldOk(w) && NamesOk(w) && ShortText(device) && forall i :: 0 <= i < n ==> JointEventOk(events[i])
    requires k < |joints[n].core.client.log|
    ensures var log := joints[n].core.client.log;
      Replay(w, log[..k]).Some? && Told(w, Replay(w, log[..k]).value, log[k])
  {
    var es, ss := JointIsRun(device, w, events, joints, n);
    AbsNoWrap(joints[n]);
    hide IsRun, IsJointRun, Abs, WorldOk, NamesOk, JointEventOk, JointInTurn, InTurn, Replay, Told;
    RunLength(device, w, es, ss);
    FsRefinement.Refinement(device, w, es, ss, |es|, k);
  }

  /** The same for the root, where its callers take turns. */
  lemma JointRootRefinement(device: string, w: World, events: seq<JointEvent>, joints: seq<Joint>, n: nat, k: nat)
    requires IsJointRun(device, w, events, joints) && n < |joints| && JointInTurn(events, joints, n)
    requires JointNoWrap(joints[n]) && RootIsDir(w)
    requires WorldOk(w) && NamesOk(w) && ShortText(device) && forall i :: 0 <= i < n ==> JointEventOk(events[i])
    requires k < |joints[n].core.client.log|
    ensures var log := joints[n].core.client.log;
      RootReplay(w, log[..k]).Some? && ToldRoot(w, RootReplay(w, log[..k]).value, log[k])
  {
    var es, ss := JointIsRun(device, w, events, joints, n);
    AbsNoWrap(joints[n]);
    hide IsRun, IsJointRun, Abs, WorldOk, NamesOk, JointEventOk, JointInTurn, InTurn, RootReplay, ToldRoot;
    RunLength(device, w, es, ss);
    RootRefinement(device, w, es, ss, |es|, k);
  }
}
