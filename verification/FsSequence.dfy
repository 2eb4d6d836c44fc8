/**
 Reads of a file one after the other, with the operations of other handles
 between them in any order: together they take as many requests as one read of
 all their bytes.
 */
module FsSequence {
  import opened Base
  import opened RemoteFs
  import opened FsSystem
  import opened FsMatching
  import opened FsOwnership
  import opened Reference
  import opened FsContent
  import opened FsRefinement
  import opened ReadCount
  import opened FsCounts
  import FsLocks
  import FsRoot

  // ---------- what is asked and sent ----------

  predicate OnHandle(op: Op, h: nat) {
    HandleOf(op.detail) == Some(h)
  }

  /** The step sends a request for a read of handle h. */
  ghost predicate SendsOn(s: State, s': State, h: nat) {
    && s'.sent == s.sent + 1
    && exists op :: op in s'.client.pending && OnHandle(op, h) && op.seqno == s.sent
  }

  ghost function SentOn(states: seq<State>, t: nat, n: nat, h: nat): nat
    requires t <= n < |states|
  {
    if n == t then 0 else SentOn(states, t, n - 1, h) + if SendsOn(states[n - 1], states[n], h) then 1 else 0
  }

  /** How many bytes the packet asks of handle h. */
  function Asks(e: Event, h: nat): nat {
    if e.TakePacket? && e.p.Read? && e.p.h == h then e.p.count else 0
  }

  function Asked(events: seq<Event>, t: nat, n: nat, h: nat): nat
    requires t <= n <= |events|
  {
    if n == t then 0 else Asked(events, t, n - 1, h) + Asks(events[n - 1], h)
  }

  /** Handle h is used for reads of positive length only. */
  predicate OnlyReads(e: Event, h: nat) {
    e.TakePacket? && Uses(e.p) == Some(h) ==> e.p.Read? && e.p.count > 0
  }

  // ---------- the invariant ----------

  /** Handle h is open on the file at target. */
  predicate OpenOn(c: Client, w: World, h: nat, target: string) {
    && h in c.handles && c.handles[h].kind == FileKind && c.handles[h].id < MAX_FILE_HANDLES
    && c.handles[h].target == target && target in w && w[target].FileNode?
    && c.handles[h].offset <= |w[target].data| < 0x8000_0000
  }

  /** When it is over, the read will have brought handle h to what has been asked, with as few requests. */
  ghost predicate Brings(s: State, w: World, op: Op, h: nat, target: string, asked: nat, sofar: nat)
    requires OpenOn(s.client, w, h, target)
  {
    && op.detail.Reading? && |op.detail.got| <= op.detail.count
    && var file := w[target].data;
    var (hd, _, n) := ReadLoop(s.client.handles[h], file, op.detail.count - |op.detail.got|);
    && sofar > 0 && hd.offset == asked && Ahead(hd, file, sofar - 1 + n)
    && ReadInv(s, w, op.packet, h, op.detail.count, target, sofar, sofar - 1 + n)
  }

  ghost predicate Sequence(s: State, w: World, h: nat, target: string, asked: nat, sofar: nat) {
    var c := s.client;
    && OpenOn(c, w, h, target) && asked <= |w[target].data|
    && (forall op <- c.pending :: OnHandle(op, h) ==> Brings(s, w, op, h, target, asked, sofar))
    && ((forall op <- c.pending :: !OnHandle(op, h)) ==>
          c.handles[h].offset == asked && Ahead(c.handles[h], w[target].data, sofar))
  }

  /** Nothing about handle h has changed. */
  lemma StillSequence(s: State, s': State, w: World, h: nat, target: string, asked: nat, sofar: nat)
    requires Sequence(s, w, h, target, asked, sofar)
    requires h in s'.client.handles && s'.client.handles[h] == s.client.handles[h]
    requires forall op <- s'.client.pending :: OnHandle(op, h) ==> op in s.client.pending && op.seqno < s.sent
    requires forall op <- s.client.pending :: OnHandle(op, h) ==> op in s'.client.pending
    requires forall op <- s'.client.pending, total: nat ::
      OnHandle(op, h) && op.detail.Reading? && ReadInv(s, w, op.packet, h, op.detail.count, target, sofar, total) ==>
        ReadInv(s', w, op.packet, h, op.detail.count, target, sofar, total)
    ensures Sequence(s', w, h, target, asked, sofar) && !SendsOn(s, s', h)
  {
    hide ReadInv, ReadLoop, Ahead;
  }

  /** A sum of requests may start anywhere. */
  lemma Shifted(s: State, w: World, packet: nat, h: nat, count: nat, target: string, sofar: nat, total: nat,
                before: nat)
    requires ReadInv(s, w, packet, h, count, target, sofar, total)
    ensures ReadInv(s, w, packet, h, count, target, before + sofar, before + total)
  {
    hide ReadLoop, FullAnswer;
  }

  // ---------- packets ----------

  /** A packet that does not use handle h. */
  lemma PacketSequence(s: State, w: World, p: Packet, h: nat, target: string, asked: nat, sofar: nat)
    requires Structure(s) && RepliesConserved(s) && Enabled(s, TakePacket(p)) && Uses(p) != Some(h)
    requires s.sent + 1 < UINT32
    requires Sequence(s, w, h, target, asked, sofar)
    ensures var s' := Step(s, w, TakePacket(p));
      Sequence(s', w, h, target, asked, sofar) && !SendsOn(s, s', h)
  {
    hide ProcessPacket, Serve, ProcessAnswer, Sequence, ReadInv;
    var s', c := Step(s, w, TakePacket(p)), s.client;
    var d := s'.client;
    assert d == ProcessPacket(c, s.taken, p) && OpenOn(c, w, h, target) by {
      OpenNow(s, w, h, target, asked, sofar);
    }
    NumbersBelow(s);
    PacketsTaken(s);
    PacketKeeps(c, s.taken, p, h);
    PacketBegins(c, s.taken, p);
    NewOnOther(c, s.taken, p, h);
    forall op <- c.pending, total: nat | OnHandle(op, h) && op.detail.Reading?
      && ReadInv(s, w, op.packet, h, op.detail.count, target, sofar, total)
      ensures ReadInv(s', w, op.packet, h, op.detail.count, target, sofar, total)
    {
      PacketKeepsRead(s, w, p, op.packet, h, op.detail.count, target, sofar, total);
    }
    hide Structure, RepliesConserved, Enabled, Step;
    assert forall op <- c.pending :: op in d.pending;
    StillSequence(s, s', w, h, target, asked, sofar);
  }

  lemma OpenNow(s: State, w: World, h: nat, target: string, asked: nat, sofar: nat)
    requires Sequence(s, w, h, target, asked, sofar)
    ensures OpenOn(s.client, w, h, target)
  {
  }

  lemma NewOnOther(c: Client, packet: nat, p: Packet, h: nat)
    requires Acceptable(c, p) && Uses(p) != Some(h)
    ensures var d := ProcessPacket(c, packet, p);
      forall op <- d.pending :: OnHandle(op, h) ==> op in c.pending
  {
    hide BufferOverlap, SeekOffset, Normalize, AfterColon, LastSlash, Truncate;
  }

  /** No operation on handle h is under way when a packet that reads it is taken. */
  lemma NoOther(c: Client, h: nat, count: nat)
    requires !Blocked(c, Read(h, count))
    ensures forall op <- c.pending :: !OnHandle(op, h)
  {
    BusyOrJoins(c, Read(h, count));
  }

  /** What action_read leaves of the operations on handle h: one, or none if the buffer gave all. */
  lemma ReadBegins(c: Client, packet: nat, h: nat, count: nat)
    requires h in c.handles && forall op <- c.pending :: !OnHandle(op, h)
    ensures var d, (hd, got, all) := ActionRead(c, packet, h, count), ServeFromBuffer(c.handles[h], count);
      && h in d.handles && d.handles[h] == hd
      && (forall op <- d.pending :: OnHandle(op, h) ==> !all && op == Op(c.seqno, packet, Reading(h, count, got)))
      && (!all ==> Op(c.seqno, packet, Reading(h, count, got)) in d.pending)
      && Grown(c, d) == if all then 0 else 1
  {
    hide ServeFromBuffer;
  }

  /** For the packet of an operation on the handle, the two ways to count are one. */
  lemma Sent(s: State, s': State, op: Op)
    requires op in s'.client.pending && op.seqno == s.sent && s'.sent == s.sent + 1
    requires PacketsDiffer(s'.client.pending)
    ensures SendsFor(s, s', op.packet)
  {
    var i :| 0 <= i < |s'.client.pending| && s'.client.pending[i] == op;
    OpOfIs(s'.client.pending, i);
  }

  /** A read begins, whose request, if it needs one, is the first of as many as the whole read takes. */
  lemma ReadGoes(s: State, s': State, w: World, h: nat, count: nat, target: string, asked: nat, sofar: nat)
    requires Sequence(s, w, h, target, asked, sofar) && count > 0 && asked + count <= |w[target].data|
    requires (forall op <- s.client.pending :: !OnHandle(op, h)) && Fits(s.client.handles[h], w[target].data)
    requires s'.client == ActionRead(s.client, s.taken, h, count) && s'.sent == s.sent + Grown(s.client, s'.client)
    requires s.client.seqno == s.sent && PacketsDiffer(s'.client.pending)
    requires ReadInv(s', w, s.taken, h, count, target, OneIf(SendsFor(s, s', s.taken)),
                     WholeRead(s.client.handles[h], w[target].data, count).2)
    ensures Sequence(s', w, h, target, asked + count, sofar + OneIf(SendsOn(s, s', h)))
  {
    hide ReadInv, ReadLoop, ServeFromBuffer, Ahead, WholeRead, ActionRead, SendsFor, PacketsDiffer;
    var hd, file, d := s.client.handles[h], w[target].data, s'.client;
    ReadStaysAhead(hd, file, sofar, count);
    WholeReadStep(hd, file, count);
    ReadBegins(s.client, s.taken, h, count);
    var (hd1, got, all) := BufferRead(hd, file, count);
    if !all {
      var op := Op(s.sent, s.taken, Reading(h, count, got));
      assert op in d.pending && OnHandle(op, h) && SendsOn(s, s', h);
      Sent(s, s', op);
      Shifted(s', w, s.taken, h, count, target, 1, WholeRead(hd, file, count).2, sofar);
    }
  }

  lemma ReadSequence(s: State, w: World, h: nat, count: nat, s': State, target: string, asked: nat, sofar: nat)
    requires Structure(s) && RepliesConserved(s) && RepliesConserved(s') && Content(s, w) && WorldOk(w) && NoWrap(s)
    requires Next(s, w, TakePacket(Read(h, count)), s') && Sequence(s, w, h, target, asked, sofar)
    requires count > 0 && asked + count <= |w[target].data|
    ensures Sequence(s', w, h, target, asked + count, sofar + OneIf(SendsOn(s, s', h)))
  {
    NoOther(s.client, h, count);
    hide Structure, RepliesConserved, Content, WorldOk, Next, Step, ReadInv, ReadLoop, ServeFromBuffer, WholeRead,
      Sequence, Blocked, ActionRead;
    OpenNow(s, w, h, target, asked, sofar);
    ReadTaken(s, w, h, count, s');
    ReadStarts(s, w, h, count, s');
    PacketsTaken(s');
    ReadGoes(s, s', w, h, count, target, asked, sofar);
  }

  // ---------- the server ----------

  lemma ServeSequence(s: State, w: World, os: OsResult, h: nat, target: string, asked: nat, sofar: nat)
    requires Structure(s) && Content(s, w) && Enabled(s, ServeNext(os)) && FullEvent(ServeNext(os))
    requires Sequence(s, w, h, target, asked, sofar)
    ensures var s' := Step(s, w, ServeNext(os)); Sequence(s', w, h, target, asked, sofar) && !SendsOn(s, s', h)
  {
    hide ProcessPacket, Serve, ProcessAnswer, Sequence, ReadInv;
    var s', c := Step(s, w, ServeNext(os)), s.client;
    ServeKeepsOp(s, w, os, 0);
    OpenNow(s, w, h, target, asked, sofar);
    NumbersBelow(s);
    forall op <- c.pending, total: nat | OnHandle(op, h) && op.detail.Reading?
      && ReadInv(s, w, op.packet, h, op.detail.count, target, sofar, total)
      ensures ReadInv(s', w, op.packet, h, op.detail.count, target, sofar, total)
    {
      ServeKeepsRead(s, w, os, op.packet, h, op.detail.count, target, sofar, total);
    }
    hide Structure, Content, Enabled, Step;
    StillSequence(s, s', w, h, target, asked, sofar);
  }

  // ---------- answers ----------

  lemma LeftOn(c: Client, d: Client, i: nat, h: nat)
    requires FsRoot.Taken(c, d, i) && !OnHandle(c.pending[i], h)
    ensures forall op <- d.pending :: OnHandle(op, h) ==> op in c.pending
    ensures forall op <- c.pending :: OnHandle(op, h) ==> op in d.pending
  {
    forall op <- c.pending | OnHandle(op, h)
      ensures op in d.pending
    {
      var k :| 0 <= k < |c.pending| && c.pending[k] == op;
      if d.pending == c.pending[..i] + c.pending[i + 1..] {
        assert d.pending[if k < i then k else k - 1] == op;
      } else {
        assert d.pending[k] == op;
      }
    }
  }

  /** An answer to an operation on another handle, or on none. */
  lemma OtherSequence(s: State, w: World, i: nat, h: nat, target: string, asked: nat, sofar: nat)
    requires Structure(s) && RepliesConserved(s) && s.answers != [] && s.sent + 1 < UINT32
    requires FindPending(s.client.pending, s.answers[0].seqno) == Some(i) && !OnHandle(s.client.pending[i], h)
    requires Sequence(s, w, h, target, asked, sofar)
    ensures var s' := Step(s, w, TakeAnswer); Sequence(s', w, h, target, asked, sofar) && !SendsOn(s, s', h)
  {
    hide ProcessPacket, Serve, ProcessAnswer, Sequence, ReadInv, Step;
    var k := FsLocks.AnsweredOp(s, w);
    var s', c := Step(s, w, TakeAnswer), s.client;
    OpenNow(s, w, h, target, asked, sofar);
    NumbersBelow(s);
    PacketsTaken(s);
    FsRoot.AnswerShape(c, s.answers[0], i);
    AnswerKeeps(c, s.answers[0], i, h);
    LeftOn(c, s'.client, i, h);
    forall op <- c.pending, total: nat | OnHandle(op, h) && op.detail.Reading?
      && ReadInv(s, w, op.packet, h, op.detail.count, target, sofar, total)
      ensures ReadInv(s', w, op.packet, h, op.detail.count, target, sofar, total)
    {
      var j :| 0 <= j < |c.pending| && c.pending[j] == op;
      assert op.packet != c.pending[i].packet;
      OtherAnswerRead(s, w, i, op.packet, h, op.detail.count, target, sofar, total);
    }
    hide Structure, RepliesConserved;
    StillSequence(s, s', w, h, target, asked, sofar);
  }

  /** What is left on handle h after its only operation was answered: the same one, gone on, or none. */
  lemma OwnLeft(c: Client, w: World, i: nat, h: nat, count: nat, target: string)
    requires i < |c.pending| && ReadGoing(c, w, c.pending[i], h, count, target) && PacketsDiffer(c.pending)
    requires forall j :: 0 <= j < |c.pending| && j != i ==> !OnHandle(c.pending[j], h)
    ensures var op, hd, file := c.pending[i], c.handles[h], w[target].data;
      var (hd', more, done) := TakeData(hd, count - |op.detail.got|, FullAnswer(file, hd.offset));
      var d := CompleteRead(c, i, FullAnswer(file, hd.offset));
      && PacketsDiffer(d.pending)
      && (forall op' <- d.pending :: OnHandle(op', h) ==> !done && op' == Onward(c, i, more))
      && (!done ==> Onward(c, i, more) in d.pending)
  {
    hide FullAnswer, TakeData;
    var op, hd, file := c.pending[i], c.handles[h], w[target].data;
    assert Min(|op.detail.got|, count) == |op.detail.got|;
    var (hd', more, done) := TakeData(hd, count - |op.detail.got|, FullAnswer(file, hd.offset));
    var d := CompleteRead(c, i, FullAnswer(file, hd.offset));
    if done {
      assert d.pending == c.pending[..i] + c.pending[i + 1..];
    } else {
      assert d.pending == c.pending[i := Onward(c, i, more)];
      assert d.pending[i] == Onward(c, i, more);
    }
  }

  /** An answer to the read of handle h: it goes on, or is over, as it was to. */
  lemma OwnGoes(s: State, s': State, w: World, i: nat, h: nat, target: string, asked: nat, sofar: nat)
    requires Sequence(s, w, h, target, asked, sofar) && i < |s.client.pending| && OnHandle(s.client.pending[i], h)
    requires s.client.pending[i].detail.Reading?
    requires forall j :: 0 <= j < |s.client.pending| && j != i ==> !OnHandle(s.client.pending[j], h)
    requires PacketsDiffer(s.client.pending) && s.client.seqno == s.sent
    requires var op := s.client.pending[i];
      && ReadGoing(s.client, w, op, h, op.detail.count, target)
      && s'.client == CompleteRead(s.client, i, FullAnswer(w[target].data, s.client.handles[h].offset))
      && s'.sent == s.sent + Grown(s.client, s'.client)
      && forall total: nat :: ReadInv(s, w, op.packet, h, op.detail.count, target, sofar, total) ==>
           ReadInv(s', w, op.packet, h, op.detail.count, target, sofar + OneIf(SendsFor(s, s', op.packet)), total)
    ensures Sequence(s', w, h, target, asked, sofar + OneIf(SendsOn(s, s', h)))
  {
    hide ReadInv, ReadLoop, Ahead, TakeData, FullAnswer, CompleteRead, SendsFor, PacketsDiffer;
    var c, op, file := s.client, s.client.pending[i], w[target].data;
    var hd, left := c.handles[h], op.detail.count - |op.detail.got|;
    assert op in c.pending && Brings(s, w, op, h, target, asked, sofar);
    CompleteReadStep(c, w, i, h, op.detail.count, target);
    OwnLeft(c, w, i, h, op.detail.count, target);
    OneRound(hd, file, left);
    LoopStep(hd, file, left);
    TakeDataSame(hd, left, FullAnswer(file, hd.offset));
    var (hd', more, done) := TakeData(hd, left, FullAnswer(file, hd.offset));
    if !done {
      var op' := Onward(c, i, more);
      assert OnHandle(op', h) && SendsOn(s, s', h);
      Sent(s, s', op');
    }
  }

  lemma BringsNow(s: State, w: World, op: Op, h: nat, target: string, asked: nat, sofar: nat) returns (total: nat)
    requires Sequence(s, w, h, target, asked, sofar) && op in s.client.pending && OnHandle(op, h)
    ensures op.detail.Reading? && ReadInv(s, w, op.packet, h, op.detail.count, target, sofar, total)
  {
    hide ReadInv, ReadLoop, Ahead;
    assert Brings(s, w, op, h, target, asked, sofar);
    total := sofar - 1 + ReadLoop(s.client.handles[h], w[target].data, op.detail.count - |op.detail.got|).2;
  }

  /** The answer keeps every sum that the read's requests have. */
  lemma OwnSums(s: State, w: World, i: nat, h: nat, count: nat, target: string, sofar: nat)
    requires Structure(s) && RepliesConserved(s) && s.answers != [] && s.sent + 1 < UINT32
    requires FindPending(s.client.pending, s.answers[0].seqno) == Some(i)
    ensures AllLive(s.client) && AllRequests(s.client.out)
    ensures var s', packet := Step(s, w, TakeAnswer), s.client.pending[i].packet;
      forall total: nat :: ReadInv(s, w, packet, h, count, target, sofar, total) ==>
        ReadInv(s', w, packet, h, count, target, sofar + OneIf(SendsFor(s, s', packet)), total)
  {
    CanStep(s);
    hide Structure, RepliesConserved, Step, ReadInv, SendsFor, AllLive, AllRequests;
    var s', packet := Step(s, w, TakeAnswer), s.client.pending[i].packet;
    forall total: nat | ReadInv(s, w, packet, h, count, target, sofar, total)
      ensures ReadInv(s', w, packet, h, count, target, sofar + OneIf(SendsFor(s, s', packet)), total)
    {
      OwnAnswerRead(s, w, i, packet, h, count, target, sofar, total);
    }
  }

  lemma OnlyOn(s: State, i: nat, h: nat)
    requires Structure(s) && i < |s.client.pending| && OnHandle(s.client.pending[i], h)
    requires s.client.pending[i].detail.Reading?
    ensures forall j :: 0 <= j < |s.client.pending| && j != i ==> !OnHandle(s.client.pending[j], h)
  {
    NumbersBelow(s);
    hide Structure;
    forall j | 0 <= j < |s.client.pending| && j != i
      ensures !OnHandle(s.client.pending[j], h)
    {
      SameOrOther(s.client.pending, j, i, h);
    }
  }

  lemma OwnSequence(s: State, w: World, i: nat, h: nat, target: string, asked: nat, sofar: nat)
    requires Structure(s) && RepliesConserved(s) && s.answers != [] && s.sent + 1 < UINT32
    requires FindPending(s.client.pending, s.answers[0].seqno) == Some(i) && OnHandle(s.client.pending[i], h)
    requires Sequence(s, w, h, target, asked, sofar)
    ensures AllLive(s.client) && AllRequests(s.client.out)
    ensures var s' := Step(s, w, TakeAnswer); Sequence(s', w, h, target, asked, sofar + OneIf(SendsOn(s, s', h)))
  {
    hide Structure, RepliesConserved, Step, ReadInv, ReadLoop, Ahead, CompleteRead, ProcessAnswer, Sequence, FullAnswer,
      SendsFor, SendsOn, ReadGoing, PacketsDiffer, AllLive, AllRequests, Grown;
    var c, op := s.client, s.client.pending[i];
    assert op in c.pending;
    var total := BringsNow(s, w, op, h, target, asked, sofar);
    OwnSums(s, w, i, h, op.detail.count, target, sofar);
    OwnAnswer(s, w, i, op.packet, h, op.detail.count, target, sofar, total);
    OnlyOn(s, i, h);
    OwnGoes(s, Step(s, w, TakeAnswer), w, i, h, target, asked, sofar);
  }

  // ---------- runs ----------

  lemma StepSequence(s: State, w: World, e: Event, s': State, h: nat, target: string, asked: nat, sofar: nat)
    requires Structure(s) && RepliesConserved(s) && RepliesConserved(s') && Content(s, w) && WorldOk(w) && NoWrap(s)
    requires Next(s, w, e, s') && Sequence(s, w, h, target, asked, sofar) && FullEvent(e) && OnlyReads(e, h)
    requires asked + Asks(e, h) <= |w[target].data|
    ensures Sequence(s', w, h, target, asked + Asks(e, h), sofar + OneIf(SendsOn(s, s', h)))
  {
    hide Structure, RepliesConserved, Content, WorldOk, Step, Sequence, SendsOn;
    match e
    case TakePacket(p) =>
      if Uses(p) == Some(h) {
        ReadSequence(s, w, h, p.count, s', target, asked, sofar);
      } else {
        PacketSequence(s, w, p, h, target, asked, sofar);
      }
    case ServeNext(os) => ServeSequence(s, w, os, h, target, asked, sofar);
    case TakeAnswer =>
      AnswerFits(s);
      var i := FindPending(s.client.pending, s.answers[0].seqno).value;
      if OnHandle(s.client.pending[i], h) {
        OwnSequence(s, w, i, h, target, asked, sofar);
      } else {
        OtherSequence(s, w, i, h, target, asked, sofar);
      }
  }

  /** From event t on handle h, which has just been opened, is used for reads only, and the server reads all it can. */
  ghost predicate ReadsOnly(events: seq<Event>, t: nat, n: nat, h: nat) {
    t <= n <= |events| && forall i :: t <= i < n ==> FullEvent(events[i]) && OnlyReads(events[i], h)
  }

  predicate FreshFile(c: Client, h: nat) {
    && h in c.handles && c.handles[h].kind == FileKind && c.handles[h].id < MAX_FILE_HANDLES
    && c.handles[h].offset == 0 && c.handles[h].bufferStart == 0 && c.handles[h].buffer == []
    && forall op <- c.pending :: !OnHandle(op, h)
  }

  lemma FreshSequence(s: State, w: World, h: nat)
    requires Structure(s) && Content(s, w) && WorldOk(w) && FreshFile(s.client, h)
    ensures Sequence(s, w, h, s.client.handles[h].target, 0, 0)
  {
    SlotShows(s, w, h);
    SmallFile(w, s.client.handles[h].target);
    hide Structure, Content, WorldOk, ReadInv, ReadLoop;
  }

  lemma {:induction false} RunSequence(device: string, w: World, events: seq<Event>,
                                       states: seq<State>, t: nat, n: nat, h: nat, target: string)
    requires IsRun(device, w, events, states) && t <= n < |states| && NoWrap(states[n]) && WorldOk(w)
    requires FreshFile(states[t].client, h) && states[t].client.handles[h].target == target
    requires target in w && w[target].FileNode? && ReadsOnly(events, t, n, h)
    requires Asked(events, t, n, h) <= |w[target].data|
    ensures Sequence(states[n], w, h, target, Asked(events, t, n, h), SentOn(states, t, n, h))
  {
    hide Structure, RepliesConserved, Content, WorldOk, Next, Sequence, SendsOn, FreshFile, FullEvent, OnlyReads;
    RunMatching(device, w, events, states, n);
    if n == t {
      RunContent(device, w, events, states, n);
      FreshSequence(states[n], w, h);
    } else {
      var s, e := states[n - 1], events[n - 1];
      assert Next(s, w, e, states[n]);
      SentGrows(s, w, e, states[n]);
      RunMatching(device, w, events, states, n - 1);
      RunContent(device, w, events, states, n - 1);
      RunSequence(device, w, events, states, t, n - 1, h, target);
      StepSequence(s, w, e, states[n], h, target, Asked(events, t, n - 1, h), SentOn(states, t, n - 1, h));
    }
  }

  /**
   Reads of a file from its start on, with anything between them that does not
   use the handle: when they are over they have taken as many requests as one
   read of all their bytes, and never more.
   */
  lemma SequentialReadsInRun(device: string, w: World, events: seq<Event>,
                             states: seq<State>, t: nat, n: nat, h: nat)
    requires IsRun(device, w, events, states) && t <= n < |states| && NoWrap(states[n]) && WorldOk(w)
    requires FreshFile(states[t].client, h) && ReadsOnly(events, t, n, h)
    ensures var target := states[t].client.handles[h].target;
      && target in w && w[target].FileNode?
      && (Asked(events, t, n, h) <= |w[target].data| ==>
            && SentOn(states, t, n, h) <= CeilDiv(Asked(events, t, n, h), BUFFER_SIZE)
            && ((forall op <- states[n].client.pending :: !OnHandle(op, h)) ==>
                  SentOn(states, t, n, h) == CeilDiv(Asked(events, t, n, h), BUFFER_SIZE)))
  {
    var target := states[t].client.handles[h].target;
    SentGrowsOver(device, w, events, states, t, n);
    RunMatching(device, w, events, states, t);
    RunContent(device, w, events, states, t);
    FreshSequence(states[t], w, h);
    hide IsRun, Structure, RepliesConserved, Content, WorldOk, ReadsOnly, CeilDiv, ReadLoop, ReadInv;
    if Asked(events, t, n, h) <= |w[target].data| {
      RunSequence(device, w, events, states, t, n, h, target);
    }
  }
}
