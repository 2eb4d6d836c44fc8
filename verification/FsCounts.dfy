/**
 How many requests a read takes, and what chunks a write sends, whatever other
 operations are under way meanwhile.
 */
module FsCounts {
  import opened Base
  import opened RemoteFs
  import opened FsSystem
  import opened FsMatching
  import opened FsOwnership
  import opened Reference
  import opened FsContent
  import opened FsRefinement
  import opened ReadCount

  // ---------- the operation of a packet ----------

  function OpOf(pending: seq<Op>, packet: nat): Option<Op> {
    if pending == [] then None
    else if pending[0].packet == packet then Some(pending[0])
    else OpOf(pending[1..], packet)
  }

  lemma {:induction false} OpOfWithout(pending: seq<Op>, i: nat, packet: nat)
    requires i < |pending| && pending[i].packet != packet
    ensures OpOf(pending[..i] + pending[i + 1..], packet) == OpOf(pending, packet)
  {
    if i == 0 {
      assert pending[..0] + pending[1..] == pending[1..];
    } else {
      OpOfWithout(pending[1..], i - 1, packet);
      assert (pending[..i] + pending[i + 1..])[1..] == pending[1..][..i - 1] + pending[1..][i..];
    }
  }

  lemma {:induction false} OpOfReplaced(pending: seq<Op>, i: nat, op: Op, packet: nat)
    requires i < |pending| && pending[i].packet != packet && op.packet != packet
    ensures OpOf(pending[i := op], packet) == OpOf(pending, packet)
  {
    if i == 0 {
      assert pending[0 := op][1..] == pending[1..];
    } else {
      OpOfReplaced(pending[1..], i - 1, op, packet);
      assert pending[i := op][1..] == pending[1..][i - 1 := op];
    }
  }

  predicate PacketsDiffer(pending: seq<Op>) {
    forall i, j :: 0 <= i < j < |pending| ==> pending[i].packet != pending[j].packet
  }

  lemma {:induction false} OpOfNone(pending: seq<Op>, packet: nat)
    requires forall i :: 0 <= i < |pending| ==> pending[i].packet != packet
    ensures OpOf(pending, packet) == None
  {
    if pending == [] {
    } else {
      OpOfNone(pending[1..], packet);
    }
  }

  lemma {:induction false} OpOfAt(pending: seq<Op>, packet: nat) returns (i: nat)
    requires OpOf(pending, packet).Some?
    ensures i < |pending| && pending[i] == OpOf(pending, packet).value && pending[i].packet == packet
  {
    if pending[0].packet == packet {
      i := 0;
    } else {
      i := OpOfAt(pending[1..], packet);
      i := i + 1;
    }
  }

  lemma {:induction false} OpOfIs(pending: seq<Op>, i: nat)
    requires PacketsDiffer(pending) && i < |pending|
    ensures OpOf(pending, pending[i].packet) == Some(pending[i])
  {
    if i == 0 {
    } else {
      var rest := pending[1..];
      assert forall j :: 0 <= j < |rest| ==> rest[j] == pending[j + 1];
      OpOfIs(rest, i - 1);
    }
  }

  /** The operation at place i is over, or goes on as op. */
  lemma OpOfSelf(pending: seq<Op>, i: nat, op: Op)
    requires PacketsDiffer(pending) && i < |pending| && op.packet == pending[i].packet
    ensures OpOf(pending[..i] + pending[i + 1..], op.packet) == None
    ensures OpOf(pending[i := op], op.packet) == Some(op)
  {
    var rest, changed := pending[..i] + pending[i + 1..], pending[i := op];
    forall j | 0 <= j < |rest|
      ensures rest[j].packet != op.packet
    {
      assert rest[j] == pending[if j < i then j else j + 1];
    }
    OpOfNone(rest, op.packet);
    assert forall j :: 0 <= j < |changed| ==> changed[j].packet == pending[j].packet;
    OpOfIs(changed, i);
  }

  lemma PacketsTaken(s: State)
    requires RepliesConserved(s)
    ensures PacketsDiffer(s.client.pending)
    ensures forall i :: 0 <= i < |s.client.pending| ==> s.client.pending[i].packet < s.taken
  {
    var ps := PendingPackets(s.client.pending);
    forall x: nat
      ensures multiset(ps)[x] <= if x < s.taken then 1 else 0
    {
      UptoOnce(s.taken, x);
    }
    forall i, j | 0 <= i < j < |ps|
      ensures ps[i] != ps[j]
    {
      if ps[i] == ps[j] {
        MultiplicityTwo(ps, i, j);
      }
    }
    forall i | 0 <= i < |ps|
      ensures ps[i] < s.taken
    {
      assert ps[i] in multiset(ps);
    }
  }

  // ---------- requests of a packet ----------

  /** The step sends a request for the operation of the packet. */
  predicate SendsFor(s: State, s': State, packet: nat) {
    && s'.sent == s.sent + 1
    && OpOf(s'.client.pending, packet).Some? && OpOf(s'.client.pending, packet).value.seqno == s.sent
  }

  /** How many requests the first n steps have sent for the packet. */
  function SentFor(states: seq<State>, n: nat, packet: nat): nat
    requires n < |states|
  {
    if n == 0 then 0
    else SentFor(states, n - 1, packet) + if SendsFor(states[n - 1], states[n], packet) then 1 else 0
  }

  /** Before a packet is taken, nothing is sent for it. */
  lemma {:induction false} NothingBefore(device: string, w: World, events: seq<Event>,
                                         states: seq<State>, n: nat, packet: nat)
    requires IsRun(device, w, events, states) && n < |states| && NoWrap(states[n]) && states[n].taken <= packet
    ensures SentFor(states, n, packet) == 0
  {
    hide Next, Structure, RepliesConserved;
    if n == 0 {
    } else {
      assert Next(states[n - 1], w, events[n - 1], states[n]);
      SentGrows(states[n - 1], w, events[n - 1], states[n]);
      TakenGrows(states[n - 1], w, events[n - 1], states[n]);
      NothingBefore(device, w, events, states, n - 1, packet);
      RunMatching(device, w, events, states, n);
      PacketsTaken(states[n]);
      OpOfNone(states[n].client.pending, packet);
    }
  }

  lemma TakenGrows(s: State, w: World, e: Event, s': State)
    requires Next(s, w, e, s')
    ensures s.taken <= s'.taken
  {
    hide Serve, ProcessPacket, ProcessAnswer;
  }

  // ---------- reads ----------

  /** The server reads all that the file has, or a whole buffer. */
  predicate FullEvent(e: Event) {
    e.ServeNext? ==> !e.os.fails && e.os.count >= BUFFER_SIZE
  }

  /** Operation op reads handle h, a file, and lacks what is left of it. */
  predicate ReadGoing(c: Client, w: World, op: Op, h: nat, count: nat, target: string) {
    && op.detail.Reading? && op.detail.h == h && op.detail.count == count && |op.detail.got| <= count
    && h in c.handles && c.handles[h].kind == FileKind && c.handles[h].id < MAX_FILE_HANDLES
    && c.handles[h].target == target && target in w && w[target].FileNode?
    && c.handles[h].offset <= |w[target].data| < 0x8000_0000
  }

  /** The requests sent so far and those that the rest needs are together as many as for the whole read. */
  ghost predicate ReadInv(s: State, w: World, packet: nat, h: nat, count: nat, target: string, sofar: nat, total: nat) {
    OpInv(s.client, s.answers, w, OpOf(s.client.pending, packet), h, count, target, sofar, total)
  }

  ghost predicate OpInv(c: Client, answers: seq<Msg>, w: World, o: Option<Op>, h: nat, count: nat, target: string,
                        sofar: nat, total: nat) {
    match o
    case None => sofar == total
    case Some(op) =>
      && ReadGoing(c, w, op, h, count, target)
      && var hd, file := c.handles[h], w[target].data;
      && sofar + ReadLoop(hd, file, count - |op.detail.got|).2 == total + 1
      && forall k :: 0 <= k < |answers| && answers[k].seqno == op.seqno ==>
           answers[k] == ReadAnswer(op.seqno, FullAnswer(file, hd.offset))
  }

  /** A packet that does not use handle h leaves it as it is. */
  lemma PacketKeeps(c: Client, packet: nat, p: Packet, h: nat)
    requires Acceptable(c, p) && h in c.handles && h < c.next && Uses(p) != Some(h)
    ensures var d := ProcessPacket(c, packet, p); h in d.handles && d.handles[h] == c.handles[h]
  {
    hide BufferOverlap, SeekOffset, Normalize, AfterColon, LastSlash, Truncate;
  }

  /** It begins at most one operation, for itself. */
  lemma PacketBegins(c: Client, packet: nat, p: Packet)
    requires Acceptable(c, p)
    ensures var d := ProcessPacket(c, packet, p);
      || d.pending == c.pending
      || (d.pending != [] && d.pending == [d.pending[0]] + c.pending && d.pending[0].packet == packet)
  {
    hide BufferOverlap, SeekOffset, Normalize, AfterColon, LastSlash, Truncate;
  }

  lemma OpOfPushed(pending: seq<Op>, pending': seq<Op>, packet: nat)
    requires
      || pending' == pending
      || (pending' != [] && pending' == [pending'[0]] + pending && pending'[0].packet != packet)
    ensures OpOf(pending', packet) == OpOf(pending, packet)
  {
    if pending' != pending {
      assert pending'[1..] == pending;
    }
  }

  /** Operations of a state have numbers that were given before. */
  lemma NumbersBelow(s: State)
    requires Structure(s)
    ensures s.client.seqno == s.sent && AllLive(s.client) && KnownHandles(s.client) && OnePerHandle(s.client.pending)
    ensures forall i :: 0 <= i < |s.client.pending| ==> s.client.pending[i].seqno < s.sent
    ensures forall k :: 0 <= k < |s.answers| ==> s.answers[k].seqno < s.sent
  {
    forall k | 0 <= k < |s.answers|
      ensures s.answers[k].seqno < s.sent
    {
      assert Flight(s)[k] == s.answers[k];
    }
  }

  lemma PacketKeepsOp(s: State, w: World, p: Packet, packet: nat)
    requires Structure(s) && RepliesConserved(s) && Enabled(s, TakePacket(p)) && packet < s.taken
    ensures var s' := Step(s, w, TakePacket(p));
      && OpOf(s'.client.pending, packet) == OpOf(s.client.pending, packet)
      && s'.answers == s.answers && !SendsFor(s, s', packet)
  {
    var s' := Step(s, w, TakePacket(p));
    NumbersBelow(s);
    PacketBegins(s.client, s.taken, p);
    hide ProcessPacket, Structure, RepliesConserved;
    OpOfPushed(s.client.pending, s'.client.pending, packet);
    if OpOf(s.client.pending, packet).Some? {
      var i := OpOfAt(s.client.pending, packet);
    }
  }

  lemma PacketKeepsRead(s: State, w: World, p: Packet, packet: nat, h: nat,
                        count: nat, target: string, sofar: nat, total: nat)
    requires Structure(s) && RepliesConserved(s) && Enabled(s, TakePacket(p)) && packet < s.taken
    requires ReadInv(s, w, packet, h, count, target, sofar, total)
    ensures ReadInv(Step(s, w, TakePacket(p)), w, packet, h, count, target, sofar, total)
  {
    var s' := Step(s, w, TakePacket(p));
    assert s'.client == ProcessPacket(s.client, s.taken, p);
    PacketKeepsOp(s, w, p, packet);
    NumbersBelow(s);
    if OpOf(s.client.pending, packet).Some? {
      var i := OpOfAt(s.client.pending, packet);
      assert Busy(s.client, h);
      assert Uses(p) != Some(h);
      hide Step, Structure, RepliesConserved, ProcessPacket, ReadLoop, FullAnswer;
      PacketKeeps(s.client, s.taken, p, h);
    }
  }

  // ---------- the server ----------

  lemma ServeKeepsOp(s: State, w: World, os: OsResult, packet: nat)
    requires Structure(s) && Enabled(s, ServeNext(os))
    ensures var s' := Step(s, w, ServeNext(os));
      s'.client == s.client.(out := s.client.out[1..]) && !SendsFor(s, s', packet)
  {
    hide Serve, ProcessPacket, ProcessAnswer, Structure;
  }

  /** The slot of an open file shows the file. */
  lemma SlotShows(s: State, w: World, h: nat)
    requires Structure(s) && Content(s, w) && h in s.client.handles && s.client.handles[h].id < MAX_FILE_HANDLES
    requires s.client.handles[h].kind == FileKind
    ensures var hd := s.client.handles[h];
      |s.server.slots| == MAX_FILE_HANDLES && Shows(s.server.slots[hd.id], w, false, hd.target) && FileFits(hd, w)
  {
    ContentAt(s, w, h);
    assert |s.server.slots| == MAX_FILE_HANDLES;
    hide Content, Good, WorkOn, Structure;
  }

  predicate FileFits(hd: Handle, w: World) {
    hd.target in w && w[hd.target].FileNode? && Within(hd, w[hd.target].data)
  }

  predicate Within(hd: Handle, file: seq<Byte>) {
    hd.offset <= |file| && hd.bufferStart + |hd.buffer| <= |file|
  }

  lemma ServeKeepsRead(s: State, w: World, os: OsResult, packet: nat, h: nat,
                       count: nat, target: string, sofar: nat, total: nat)
    requires Structure(s) && Content(s, w) && Enabled(s, ServeNext(os)) && FullEvent(ServeNext(os))
    requires ReadInv(s, w, packet, h, count, target, sofar, total)
    ensures ReadInv(Step(s, w, ServeNext(os)), w, packet, h, count, target, sofar, total)
  {
    hide ReadLoop, FullAnswer, Serve, ProcessPacket, ProcessAnswer, Step, Structure, Content, Shows;
    ServedOne(s, w, os);
    CanStep(s);
    var s', c, m, n := Step(s, w, ServeNext(os)), s.client, s.client.out[0], |s.answers|;
    if OpOf(c.pending, packet).Some? {
      var i := OpOfAt(c.pending, packet);
      var op, file, hd := c.pending[i], w[target].data, c.handles[h];
      SlotShows(s, w, h);
      if m.seqno == op.seqno && !m.CloseRequest? {
        assert Flight(s)[n] == m;
        RequestFitsNow(s, i, n);
        assert m.ReadRequest? && m.handle == hd.id && m.offset == hd.offset;
        ReadIsFull(s.server, w, m, os, target);
      }
    }
  }

  lemma ReadIsFull(s: Server, w: World, m: Msg, os: OsResult, target: string)
    requires m.ReadRequest? && m.handle < |s.slots| == MAX_FILE_HANDLES && Shows(s.slots[m.handle], w, false, target)
    requires !os.fails && os.count >= BUFFER_SIZE
    ensures Serve(s, w, m, os).1 == Some(ReadAnswer(m.seqno, FullAnswer(w[target].data, m.offset)))
  {
    FullAnswerIsServed(s, w, m, os);
    hide ServeRead, FullAnswer;
  }

  // ---------- the client takes an answer ----------

  function OneIf(b: bool): nat {
    if b then 1 else 0
  }

  /** An answer leaves other handles as they are. */
  lemma AnswerKeeps(c: Client, m: Msg, i: nat, h: nat)
    requires AllLive(c) && FindPending(c.pending, m.seqno) == Some(i) && HandleOf(c.pending[i].detail) != Some(h)
    requires h in c.handles && h < c.next
    ensures var d := ProcessAnswer(c, m).0; h in d.handles && d.handles[h] == c.handles[h]
  {
    assert Live(c, c.pending[i].detail);
    hide TakeData, NextChunk, Truncate, AllLive, TranslateError;
  }

  /** An answer of another packet. */
  lemma AnswerKeepsOp(s: State, w: World, i: nat, packet: nat)
    requires Structure(s) && RepliesConserved(s) && s.answers != [] && s.sent + 1 < UINT32
    requires FindPending(s.client.pending, s.answers[0].seqno) == Some(i) && s.client.pending[i].packet != packet
    ensures var s' := Step(s, w, TakeAnswer);
      && OpOf(s'.client.pending, packet) == OpOf(s.client.pending, packet)
      && s'.answers == s.answers[1..] && !SendsFor(s, s', packet)
  {
    hide ProcessPacket, Serve;
    var s', c := Step(s, w, TakeAnswer), s.client;
    var d := s'.client;
    AnswerFits(s);
    NumbersBelow(s);
    AnswerIsPlaced(c, s.answers[0], i);
    assert d == ProcessAnswer(c, s.answers[0]).0;
    hide ProcessAnswer, Structure, RepliesConserved;
    if d.pending == c.pending[..i] + c.pending[i + 1..] {
      OpOfWithout(c.pending, i, packet);
    } else {
      OpOfReplaced(c.pending, i, d.pending[i], packet);
    }
    if OpOf(c.pending, packet).Some? {
      var j := OpOfAt(c.pending, packet);
    }
  }

  lemma OtherAnswerRead(s: State, w: World, i: nat, packet: nat, h: nat,
                        count: nat, target: string, sofar: nat, total: nat)
    requires Structure(s) && RepliesConserved(s) && s.answers != [] && s.sent + 1 < UINT32
    requires FindPending(s.client.pending, s.answers[0].seqno) == Some(i) && s.client.pending[i].packet != packet
    requires ReadInv(s, w, packet, h, count, target, sofar, total)
    ensures ReadInv(Step(s, w, TakeAnswer), w, packet, h, count, target, sofar, total)
  {
    hide ProcessPacket, Serve, ProcessAnswer, ReadLoop, FullAnswer;
    var s', c := Step(s, w, TakeAnswer), s.client;
    AnswerKeepsOp(s, w, i, packet);
    NumbersBelow(s);
    AnswerFits(s);
    if OpOf(c.pending, packet).Some? {
      var j := OpOfAt(c.pending, packet);
      SameOrOther(c.pending, i, j, h);
      assert s'.client == ProcessAnswer(c, s.answers[0]).0;
      AnswerKeeps(c, s.answers[0], i, h);
      hide Structure, RepliesConserved, Step;
    }
  }

  lemma SameOrOther(pending: seq<Op>, i: nat, j: nat, h: nat)
    requires OnePerHandle(pending) && i < |pending| && j < |pending| && i != j && HandleOf(pending[j].detail) == Some(h)
    requires !pending[j].detail.Enumerating?
    ensures HandleOf(pending[i].detail) != Some(h)
  {
    assert !SameHandle(pending[i].detail, pending[j].detail) && !SameHandle(pending[j].detail, pending[i].detail);
  }

  /** What the answer of the packet itself does. */
  lemma OwnAnswer(s: State, w: World, i: nat, packet: nat, h: nat, count: nat, target: string, sofar: nat, total: nat)
    requires Structure(s) && RepliesConserved(s) && s.answers != [] && s.sent + 1 < UINT32
    requires FindPending(s.client.pending, s.answers[0].seqno) == Some(i) && s.client.pending[i].packet == packet
    requires ReadInv(s, w, packet, h, count, target, sofar, total)
    ensures var s', c, op := Step(s, w, TakeAnswer), s.client, s.client.pending[i];
      && PacketsDiffer(c.pending) && ReadGoing(c, w, op, h, count, target)
      && sofar + ReadLoop(c.handles[h], w[target].data, count - |op.detail.got|).2 == total + 1
      && s'.client == CompleteRead(c, i, FullAnswer(w[target].data, c.handles[h].offset))
      && s'.answers == s.answers[1..] && s'.sent == s.sent + Grown(c, s'.client) && c.seqno == s.sent
      && (forall k :: 0 <= k < |s.answers| ==> s.answers[k].seqno < s.sent)
  {
    hide ReadLoop, FullAnswer, RepliesConserved, CompleteRead, CompleteWrite, ProcessPacket, Serve;
    PacketsTaken(s);
    OpOfIs(s.client.pending, i);
    NumbersBelow(s);
    hide Structure;
    var op, hd := s.client.pending[i], s.client.handles[h];
    assert s.answers[0] == ReadAnswer(op.seqno, FullAnswer(w[target].data, hd.offset));
  }

  /** The operation after such an answer, where it is not over. */
  function Onward(c: Client, i: nat, more: seq<Byte>): Op
    requires i < |c.pending| && c.pending[i].detail.Reading?
  {
    var op := c.pending[i];
    Op(c.seqno, op.packet, Reading(op.detail.h, op.detail.count, op.detail.got + more))
  }

  /** CompleteRead, in the terms of the read loop. */
  lemma CompleteReadStep(c: Client, w: World, i: nat, h: nat, count: nat, target: string)
    requires i < |c.pending| && ReadGoing(c, w, c.pending[i], h, count, target) && PacketsDiffer(c.pending)
    ensures var op, hd, file := c.pending[i], c.handles[h], w[target].data;
      var left := count - |op.detail.got|;
      var (hd', more, done) := TakeData(hd, left, FullAnswer(file, hd.offset));
      var d := CompleteRead(c, i, FullAnswer(file, hd.offset));
      && d.handles == c.handles[h := hd']
      && (if done then OpOf(d.pending, op.packet) == None && d.out == c.out
          else OpOf(d.pending, op.packet) == Some(Onward(c, i, more)) && |d.out| == |c.out| + 1)
  {
    var op, hd, file := c.pending[i], c.handles[h], w[target].data;
    assert Min(|op.detail.got|, count) == |op.detail.got|;
    var (hd', more, done) := TakeData(hd, count - |op.detail.got|, FullAnswer(file, hd.offset));
    hide TakeData, FullAnswer;
    OpOfSelf(c.pending, i, Onward(c, i, more));
  }

  /** One round of the read loop keeps the sum. */
  lemma OwnRound(c: Client, d: Client, answers: seq<Msg>, w: World, op: Op, o: Option<Op>, h: nat, count: nat,
                 target: string, sofar: nat, total: nat)
    requires ReadGoing(c, w, op, h, count, target)
    requires sofar + ReadLoop(c.handles[h], w[target].data, count - |op.detail.got|).2 == total + 1
    requires var (hd', more, done) := TakeData(c.handles[h], count - |op.detail.got|,
                                               FullAnswer(w[target].data, c.handles[h].offset));
      && d.handles == c.handles[h := hd']
      && o == if done then None else Some(Op(c.seqno, op.packet, Reading(h, count, op.detail.got + more)))
    requires forall k :: 0 <= k < |answers| ==> answers[k].seqno < c.seqno
    ensures OpInv(d, answers, w, o, h, count, target, sofar + OneIf(o.Some?), total)
  {
    var hd, file, left := c.handles[h], w[target].data, count - |op.detail.got|;
    hide ReadLoop, FullAnswer, TakeData;
    OneRound(hd, file, left);
    LoopStep(hd, file, left);
    TakeDataSame(hd, left, FullAnswer(file, hd.offset));
  }

  /** From an operation that goes on, or is over, to the invariant. */
  lemma OwnRoundIs(s: State, s': State, w: World, i: nat, packet: nat, h: nat, count: nat, target: string, sofar: nat,
                   total: nat)
    requires i < |s.client.pending| && s.client.pending[i].packet == packet && PacketsDiffer(s.client.pending)
    requires ReadGoing(s.client, w, s.client.pending[i], h, count, target) && s.client.seqno == s.sent
    requires sofar + ReadLoop(s.client.handles[h], w[target].data, count - |s.client.pending[i].detail.got|).2
      == total + 1
    requires s'.client == CompleteRead(s.client, i, FullAnswer(w[target].data, s.client.handles[h].offset))
    requires s'.sent == s.sent + Grown(s.client, s'.client)
    requires forall k :: 0 <= k < |s'.answers| ==> s'.answers[k].seqno < s.sent
    ensures ReadInv(s', w, packet, h, count, target, sofar + OneIf(SendsFor(s, s', packet)), total)
  {
    hide ReadLoop, FullAnswer, TakeData, CompleteRead, OpOf;
    var c, op := s.client, s.client.pending[i];
    GoingDetail(c, w, op, h, count, target);
    hide ReadGoing;
    CompleteReadStep(c, w, i, h, count, target);
    hide PacketsDiffer;
    var o := OpOf(s'.client.pending, packet);
    OwnRound(c, s'.client, s'.answers, w, op, o, h, count, target, sofar, total);
    assert SendsFor(s, s', packet) == o.Some?;
    ReadInvIs(s', w, packet, h, count, target, sofar + OneIf(o.Some?), total);
  }

  lemma OwnAnswerRead(s: State, w: World, i: nat, packet: nat, h: nat,
                      count: nat, target: string, sofar: nat, total: nat)
    requires Structure(s) && RepliesConserved(s) && s.answers != [] && s.sent + 1 < UINT32
    requires FindPending(s.client.pending, s.answers[0].seqno) == Some(i) && s.client.pending[i].packet == packet
    requires ReadInv(s, w, packet, h, count, target, sofar, total)
    ensures var s' := Step(s, w, TakeAnswer);
      ReadInv(s', w, packet, h, count, target, sofar + OneIf(SendsFor(s, s', packet)), total)
  {
    hide Structure, RepliesConserved, Step, ProcessAnswer, ReadLoop, FullAnswer, TakeData, CompleteRead, OpOf, ReadInv,
      PacketsDiffer, SendsFor, ReadGoing, FindPending, AllLive, AllRequests;
    CanStep(s);
    OwnAnswer(s, w, i, packet, h, count, target, sofar, total);
    OwnRoundIs(s, Step(s, w, TakeAnswer), w, i, packet, h, count, target, sofar, total);
  }

  lemma ReadInvIs(s: State, w: World, packet: nat, h: nat, count: nat, target: string, sofar: nat, total: nat)
    requires OpInv(s.client, s.answers, w, OpOf(s.client.pending, packet), h, count, target, sofar, total)
    ensures ReadInv(s, w, packet, h, count, target, sofar, total)
  {
  }

  lemma GoingDetail(c: Client, w: World, op: Op, h: nat, count: nat, target: string)
    requires ReadGoing(c, w, op, h, count, target)
    ensures op.detail == Reading(h, count, op.detail.got) && h in c.handles && |op.detail.got| <= count
    ensures target in w && w[target].FileNode? && c.handles[h].offset <= |w[target].data| < 0x8000_0000
  {
  }

  lemma TakeDataSame(hd: Handle, left: nat, data: seq<Byte>)
    ensures var hd' := TakeData(hd, left, data).0; hd'.kind == hd.kind && hd'.id == hd.id && hd'.target == hd.target
  {
  }

  lemma CanStep(s: State)
    requires Structure(s)
    ensures AllLive(s.client) && AllRequests(s.client.out)
  {
  }

  /** A step keeps the sum, as long as the server reads all it can. */
  lemma StepRead(s: State, w: World, e: Event, s': State, packet: nat, h: nat,
                 count: nat, target: string, sofar: nat, total: nat)
    requires Structure(s) && RepliesConserved(s) && Content(s, w) && NoWrap(s) && Next(s, w, e, s')
    requires FullEvent(e) && packet < s.taken && ReadInv(s, w, packet, h, count, target, sofar, total)
    ensures ReadInv(s', w, packet, h, count, target, sofar + OneIf(SendsFor(s, s', packet)), total)
  {
    hide Structure, RepliesConserved, Content, ReadInv, SendsFor, Step;
    match e
    case TakePacket(p) =>
      PacketKeepsOp(s, w, p, packet);
      PacketKeepsRead(s, w, p, packet, h, count, target, sofar, total);
    case ServeNext(os) =>
      ServeKeepsOp(s, w, os, packet);
      ServeKeepsRead(s, w, os, packet, h, count, target, sofar, total);
    case TakeAnswer =>
      AnswerFits(s);
      var i := FindPending(s.client.pending, s.answers[0].seqno).value;
      if s.client.pending[i].packet == packet {
        OwnAnswerRead(s, w, i, packet, h, count, target, sofar, total);
      } else {
        AnswerKeepsOp(s, w, i, packet);
        OtherAnswerRead(s, w, i, packet, h, count, target, sofar, total);
      }
  }

  /** A read is taken by action_read. */
  lemma ReadTaken(s: State, w: World, h: nat, count: nat, s': State)
    requires Structure(s) && Next(s, w, TakePacket(Read(h, count)), s')
    ensures h in s.client.handles && s.client.seqno == s.sent
    ensures s'.client == ActionRead(s.client, s.taken, h, count) && s'.answers == s.answers
    ensures s'.sent == s.sent + Grown(s.client, s'.client)
  {
    hide Channels, Matched, Kinds, Known, OnePerHandle, ActionRead;
  }

  lemma ReadStarts(s: State, w: World, h: nat, count: nat, s': State)
    requires Structure(s) && RepliesConserved(s) && Content(s, w) && WorldOk(w) && NoWrap(s)
    requires Next(s, w, TakePacket(Read(h, count)), s') && s.client.handles[h].kind == FileKind
    requires s.client.handles[h].id < MAX_FILE_HANDLES
    ensures var hd := s.client.handles[h];
      && FileFits(hd, w) && Fits(hd, w[hd.target].data)
      && ReadInv(s', w, s.taken, h, count, hd.target, OneIf(SendsFor(s, s', s.taken)),
                 WholeRead(hd, w[hd.target].data, count).2)
  {
    hide Structure, RepliesConserved, Content, Next, Step, WorldOk, ProcessPacket, ReadLoop, FullAnswer,
      ServeFromBuffer;
    ReadTaken(s, w, h, count, s');
    SlotShows(s, w, h);
    PacketsTaken(s);
    NumbersBelow(s);
    var c, hd := s.client, s.client.handles[h];
    SmallFile(w, hd.target);
    var (hd1, got, all) := BufferRead(hd, w[hd.target].data, count);
    OpOfNone(c.pending, s.taken);
    if !all {
      assert s'.client.pending[0] == Op(s.sent, s.taken, Reading(h, count, got));
      assert OpOf(s'.client.pending, s.taken) == Some(s'.client.pending[0]);
    }
  }

  /** The whole read of handle h that is taken in state s. */
  function ReadNeeds(s: State, w: World, h: nat, count: nat): nat {
    if h in s.client.handles && FileFits(s.client.handles[h], w)
       && Fits(s.client.handles[h], w[s.client.handles[h].target].data)
    then WholeRead(s.client.handles[h], w[s.client.handles[h].target].data, count).2
    else 0
  }

  lemma {:induction false} ReadProgress(device: string, w: World, events: seq<Event>,
                                        states: seq<State>, t: nat, n: nat, h: nat, count: nat)
    requires IsRun(device, w, events, states) && t < n < |states| && NoWrap(states[n]) && WorldOk(w)
    requires events[t] == TakePacket(Read(h, count)) && h in states[t].client.handles
    requires states[t].client.handles[h].kind == FileKind && states[t].client.handles[h].id < MAX_FILE_HANDLES
    requires forall i :: t < i < n ==> FullEvent(events[i])
    ensures states[t].taken < states[n].taken
    ensures ReadInv(states[n], w, states[t].taken, h, count, states[t].client.handles[h].target,
                    SentFor(states, n, states[t].taken), ReadNeeds(states[t], w, h, count))
  {
    hide Next, Structure, RepliesConserved, Content, Ownership, ReadInv, WorldOk, SendsFor, FullEvent, WholeRead,
      FileFits;
    var s, packet := states[n - 1], states[t].taken;
    assert Next(s, w, events[n - 1], states[n]);
    SentGrows(s, w, events[n - 1], states[n]);
    TakenGrows(s, w, events[n - 1], states[n]);
    RunMatching(device, w, events, states, n - 1);
    RunContent(device, w, events, states, n - 1);
    if n - 1 == t {
      NothingBefore(device, w, events, states, t, packet);
      ReadStarts(s, w, h, count, states[n]);
      PacketCounts(s, w, Read(h, count), states[n]);
    } else {
      ReadProgress(device, w, events, states, t, n - 1, h, count);
      StepRead(s, w, events[n - 1], states[n], packet, h, count, states[t].client.handles[h].target,
               SentFor(states, n - 1, packet), ReadNeeds(states[t], w, h, count));
    }
  }

  lemma PacketCounts(s: State, w: World, p: Packet, s': State)
    requires Next(s, w, TakePacket(p), s')
    ensures s'.taken == s.taken + 1
  {
    hide ProcessPacket;
  }

  /** What is replied to is no operation any more. */
  lemma RepliedIsOver(s: State, packet: nat)
    requires RepliesConserved(s) && packet in LogPackets(s.client.log)
    ensures OpOf(s.client.pending, packet) == None
  {
    var ps, ls := PendingPackets(s.client.pending), LogPackets(s.client.log);
    UptoOnce(s.taken, packet);
    assert packet in multiset(ls);
    forall i | 0 <= i < |s.client.pending|
      ensures s.client.pending[i].packet != packet
    {
      assert ps[i] in multiset(ps);
    }
    OpOfNone(s.client.pending, packet);
  }

  /**
   Whatever else is under way: while the server reads all it can, a read never
   sends more requests than a read alone would take, and once it is replied to
   it has sent exactly as many.
   */
  lemma ReadRequestsInRun(device: string, w: World, events: seq<Event>,
                          states: seq<State>, t: nat, n: nat, h: nat, count: nat)
    requires IsRun(device, w, events, states) && t < n < |states| && NoWrap(states[n]) && WorldOk(w)
    requires events[t] == TakePacket(Read(h, count)) && h in states[t].client.handles
    requires states[t].client.handles[h].kind == FileKind && states[t].client.handles[h].id < MAX_FILE_HANDLES
    requires forall i :: t < i < n ==> FullEvent(events[i])
    ensures var sofar, total := SentFor(states, n, states[t].taken), ReadNeeds(states[t], w, h, count);
      sofar <= total && (states[t].taken in LogPackets(states[n].client.log) ==> sofar == total)
    ensures FileFits(states[t].client.handles[h], w)
    ensures var hd := states[t].client.handles[h];
      var file := w[hd.target].data;
      var (hd1, got, all) := ServeFromBuffer(hd, count);
      && |got| <= count && hd1.offset <= |file|
      && ReadNeeds(states[t], w, h, count) == if all then 0 else RequestsFor(count - |got|, |file| - hd1.offset)
  {
    hide Next, Structure, RepliesConserved, Content, FullEvent, ReadLoop, WorldOk, WholeRead, SentFor, ServeFromBuffer;
    SentGrowsOver(device, w, events, states, t, n);
    RunMatching(device, w, events, states, t);
    RunContent(device, w, events, states, t);
    SlotShows(states[t], w, h);
    SmallFile(w, states[t].client.handles[h].target);
    WholeReadRequests(states[t].client.handles[h], w[states[t].client.handles[h].target].data, count);
    ReadProgress(device, w, events, states, t, n, h, count);
    RunMatching(device, w, events, states, n);
    if states[t].taken in LogPackets(states[n].client.log) {
      RepliedIsOver(states[n], states[t].taken);
    }
    hide LogPackets;
  }

  lemma SmallFile(w: World, target: string)
    requires WorldOk(w) && target in w && w[target].FileNode?
    ensures |w[target].data| < 0x8000_0000
  {
  }

  lemma {:induction false} SentGrowsOver(device: string, w: World, events: seq<Event>, states: seq<State>,
                                         t: nat, n: nat)
    requires IsRun(device, w, events, states) && t <= n < |states|
    ensures states[t].sent <= states[n].sent
  {
    hide Next;
    if t == n {
    } else {
      SentGrowsOver(device, w, events, states, t, n - 1);
      assert Next(states[n - 1], w, events[n - 1], states[n]);
      SentGrows(states[n - 1], w, events[n - 1], states[n]);
    }
  }

  // ---------- writes ----------

  /** The chunk that a step sends, if it is one for the packet. */
  function ChunkSent(s: State, s': State, packet: nat): seq<seq<Byte>> {
    if SendsFor(s, s', packet) && s'.client.out != [] && s'.client.out[|s'.client.out| - 1].WriteRequest?
    then [s'.client.out[|s'.client.out| - 1].data] else []
  }

  function ChunksSent(states: seq<State>, n: nat, packet: nat): seq<seq<Byte>>
    requires n < |states|
  {
    if n == 0 then [] else ChunksSent(states, n - 1, packet) + ChunkSent(states[n - 1], states[n], packet)
  }

  /** The chunks that follow the one at source. */
  function LaterChunks(data: seq<Byte>, source: nat, length: nat): seq<seq<Byte>>
    requires source + length <= |data|
  {
    match NextChunk(data, source, length)
    case None => []
    case Some((at, n)) => Chunks(data, at, n)
  }

  /** The chunks sent so far, followed by those to come, are the chunks of the data. */
  ghost predicate WriteInv(s: State, packet: nat, data: seq<Byte>, sofar: seq<seq<Byte>>) {
    var whole := Chunks(data, 0, Min(|data|, BUFFER_SIZE));
    match OpOf(s.client.pending, packet)
    case None => sofar == whole
    case Some(op) =>
      && op.detail.Writing? && op.detail.data == data && op.detail.source + op.detail.length <= |data|
      && sofar + LaterChunks(data, op.detail.source, op.detail.length) == whole
  }

  lemma SameOpWrite(s: State, s': State, packet: nat, data: seq<Byte>, sofar: seq<seq<Byte>>)
    requires WriteInv(s, packet, data, sofar) && OpOf(s'.client.pending, packet) == OpOf(s.client.pending, packet)
    requires !SendsFor(s, s', packet)
    ensures WriteInv(s', packet, data, sofar + ChunkSent(s, s', packet))
  {
    assert sofar + [] == sofar;
  }

  lemma NoWriteError(s: State, w: World, i: nat)
    requires Structure(s) && Content(s, w) && s.answers != []
    requires FindPending(s.client.pending, s.answers[0].seqno) == Some(i) && s.client.pending[i].detail.Writing?
    ensures s.answers[0].WriteAnswer?
  {
    AnswerFits(s);
    AnswerAt(s, w, i);
    hide Structure, Content;
  }

  /** The answer to a write request goes to complete_write. */
  lemma WriteAnswerTaken(s: State, w: World, i: nat)
    requires Structure(s) && s.answers != [] && s.answers[0].WriteAnswer?
    requires FindPending(s.client.pending, s.answers[0].seqno) == Some(i) && s.client.pending[i].detail.Writing?
    ensures AllLive(s.client) && AllRequests(s.client.out) && Enabled(s, TakeAnswer)
    ensures s.client.pending[i].detail.h in s.client.handles && s.client.seqno == s.sent
    ensures var s' := Step(s, w, TakeAnswer);
      s'.client == CompleteWrite(s.client, i) && s'.sent == s.sent + Grown(s.client, s'.client)
  {
    hide Matched, Kinds, Known, OnePerHandle, CompleteWrite, CompleteRead, CompleteFindInput, CompleteLocate,
      CompleteExamineNext;
    assert Live(s.client, s.client.pending[i].detail);
  }

  lemma OwnAnswerWrite(s: State, w: World, i: nat, packet: nat, data: seq<Byte>, sofar: seq<seq<Byte>>)
    requires Structure(s) && RepliesConserved(s) && Content(s, w) && s.answers != [] && s.sent + 1 < UINT32
    requires FindPending(s.client.pending, s.answers[0].seqno) == Some(i) && s.client.pending[i].packet == packet
    requires WriteInv(s, packet, data, sofar)
    ensures var s' := Step(s, w, TakeAnswer); WriteInv(s', packet, data, sofar + ChunkSent(s, s', packet))
  {
    hide Structure, RepliesConserved, Content, Step, ProcessAnswer, CompleteRead, ProcessPacket, Serve, Chunks;
    var c, op := s.client, s.client.pending[i];
    PacketsTaken(s);
    OpOfIs(c.pending, i);
    NumbersBelow(s);
    NoWriteError(s, w, i);
    WriteAnswerTaken(s, w, i);
    var s' := Step(s, w, TakeAnswer);
    match NextChunk(data, op.detail.source, op.detail.length)
    case None =>
      OpOfSelf(c.pending, i, op);
      assert sofar + [] == sofar;
    case Some((at, n)) =>
      OpOfSelf(c.pending, i, Op(c.seqno, packet, Writing(op.detail.h, data, at, n)));
      ChunksFirst(data, at, n);
      Associative(sofar, [data[at..at + n]], LaterChunks(data, at, n));
  }

  lemma ChunksFirst(data: seq<Byte>, source: nat, length: nat)
    requires source + length <= |data|
    ensures Chunks(data, source, length) == [data[source..source + length]] + LaterChunks(data, source, length)
  {
  }

  lemma StepWrite(s: State, w: World, e: Event, s': State, packet: nat, data: seq<Byte>, sofar: seq<seq<Byte>>)
    requires Structure(s) && RepliesConserved(s) && Content(s, w) && NoWrap(s) && Next(s, w, e, s')
    requires packet < s.taken && WriteInv(s, packet, data, sofar)
    ensures WriteInv(s', packet, data, sofar + ChunkSent(s, s', packet))
  {
    hide Structure, RepliesConserved, Content, WriteInv, SendsFor, Step, ChunkSent;
    match e
    case TakePacket(p) =>
      PacketKeepsOp(s, w, p, packet);
      SameOpWrite(s, s', packet, data, sofar);
    case ServeNext(os) =>
      ServeKeepsOp(s, w, os, packet);
      SameOpWrite(s, s', packet, data, sofar);
    case TakeAnswer =>
      AnswerFits(s);
      var i := FindPending(s.client.pending, s.answers[0].seqno).value;
      if s.client.pending[i].packet == packet {
        OwnAnswerWrite(s, w, i, packet, data, sofar);
      } else {
        AnswerKeepsOp(s, w, i, packet);
        SameOpWrite(s, s', packet, data, sofar);
      }
  }

  lemma WriteStarts(s: State, w: World, h: nat, data: seq<Byte>, s': State)
    requires Structure(s) && RepliesConserved(s) && NoWrap(s) && Next(s, w, TakePacket(Write(h, data)), s')
    ensures WriteInv(s', s.taken, data, ChunkSent(s, s', s.taken))
  {
    PacketsTaken(s);
    NumbersBelow(s);
    var n := Min(|data|, BUFFER_SIZE);
    OpOfNone(s.client.pending, s.taken);
    assert s'.client.pending[0] == Op(s.sent, s.taken, Writing(h, data, 0, n)) && s'.sent == s.sent + 1;
    assert OpOf(s'.client.pending, s.taken) == Some(s'.client.pending[0]);
    hide Structure, RepliesConserved, Step;
    ChunksFirst(data, 0, n);
    assert data[0..n] == data[..n];
  }

  lemma {:induction false} WriteProgress(device: string, w: World,
                                         events: seq<Event>, states: seq<State>,
                                         t: nat, n: nat, h: nat, data: seq<Byte>)
    requires IsRun(device, w, events, states) && t < n < |states| && NoWrap(states[n]) && WorldOk(w)
    requires events[t] == TakePacket(Write(h, data))
    ensures states[t].taken < states[n].taken
    ensures WriteInv(states[n], states[t].taken, data, ChunksSent(states, n, states[t].taken))
  {
    hide Next, Structure, RepliesConserved, Content, WriteInv, WorldOk, ChunkSent;
    var s, packet := states[n - 1], states[t].taken;
    assert Next(s, w, events[n - 1], states[n]);
    SentGrows(s, w, events[n - 1], states[n]);
    TakenGrows(s, w, events[n - 1], states[n]);
    RunMatching(device, w, events, states, n - 1);
    RunContent(device, w, events, states, n - 1);
    if n - 1 == t {
      NoChunksBefore(device, w, events, states, t, packet);
      WriteStarts(s, w, h, data, states[n]);
      PacketCounts(s, w, Write(h, data), states[n]);
      assert [] + ChunkSent(s, states[n], packet) == ChunkSent(s, states[n], packet);
    } else {
      WriteProgress(device, w, events, states, t, n - 1, h, data);
      StepWrite(s, w, events[n - 1], states[n], packet, data, ChunksSent(states, n - 1, packet));
    }
  }

  lemma {:induction false} NoChunksBefore(device: string, w: World, events: seq<Event>,
                                          states: seq<State>, n: nat, packet: nat)
    requires IsRun(device, w, events, states) && n < |states| && NoWrap(states[n]) && states[n].taken <= packet
    ensures ChunksSent(states, n, packet) == []
  {
    hide Next, Structure, RepliesConserved;
    if n == 0 {
    } else {
      assert Next(states[n - 1], w, events[n - 1], states[n]);
      SentGrows(states[n - 1], w, events[n - 1], states[n]);
      TakenGrows(states[n - 1], w, events[n - 1], states[n]);
      NoChunksBefore(device, w, events, states, n - 1, packet);
      RunMatching(device, w, events, states, n);
      PacketsTaken(states[n]);
      OpOfNone(states[n].client.pending, packet);
    }
  }

  /**
   Whatever else is under way: once a write is replied to, the chunks that have
   been sent for it are those of its data, at most 4096 bytes each, together the
   data in order, and no more than needed.
   */
  lemma WriteChunksInRun(device: string, w: World,
                         events: seq<Event>, states: seq<State>,
                         t: nat, n: nat, h: nat, data: seq<Byte>)
    requires IsRun(device, w, events, states) && t < n < |states| && NoWrap(states[n]) && WorldOk(w)
    requires events[t] == TakePacket(Write(h, data)) && states[t].taken in LogPackets(states[n].client.log)
    ensures var chunks := ChunksSent(states, n, states[t].taken);
      && (forall i :: 0 <= i < |chunks| ==> |chunks[i]| <= BUFFER_SIZE)
      && Flatten(chunks) == data
      && |chunks| == if data == [] then 1 else CeilDiv(|data|, BUFFER_SIZE)
  {
    hide Next, Structure, RepliesConserved, WorldOk;
    WriteProgress(device, w, events, states, t, n, h, data);
    RunMatching(device, w, events, states, n);
    RepliedIsOver(states[n], states[t].taken);
    ChunksAre(data, 0, Min(|data|, BUFFER_SIZE));
    assert data[0..] == data;
  }
}
