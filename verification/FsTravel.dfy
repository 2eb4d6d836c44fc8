/**
 What client and server say to each other always fits the wire: over every run,
 each message in flight has numbers of 32 bits, short names and at most one
 buffer of data.
 */
module FsTravel {
  import opened Base
  import opened RemoteFs
  import opened FsSystem
  import opened FsMatching
  import opened FsWire
  import opened Reference
  import opened RoundTrip
  import opened RlNet
  import opened Codec

  /** The names of the tree, and the sizes that stat tells, fit the protocol. */
  ghost predicate NamesOk(w: World) {
    forall p, i: nat :: p in w && w[p].DirNode? && i < |w[p].entries| ==>
      ShortText(w[p].entries[i].name) && (w[p].entries[i].stat.Some? ==> w[p].entries[i].stat.value.size < UINT32)
  }

  /** The names in a packet are short C strings. */
  predicate PacketOk(p: Packet) {
    match p
    case FindInput(name) => ShortText(name)
    case FindOutput(name) => ShortText(name)
    case Locate(_, name) => ShortText(name)
    case _ => true
  }

  predicate EventOk(e: Event) {
    e.TakePacket? ==> PacketOk(e.p)
  }

  predicate HandleFits(hd: Handle) {
    hd.id < UINT32 && hd.offset < UINT32 && hd.size < UINT32 && ShortText(hd.path)
  }

  predicate DetailFits(d: Detail) {
    match d
    case Reading(_, count, _) => count < UINT32
    case OpeningFile(name, target) => ShortText(name) && ShortText(target)
    case OpeningLock(target) => ShortText(target)
    case _ => true
  }

  ghost predicate HandlesFit(handles: map<nat, Handle>) {
    forall h <- handles :: HandleFits(handles[h])
  }

  predicate PendingFits(pending: seq<Op>) {
    forall i :: 0 <= i < |pending| ==> DetailFits(pending[i].detail)
  }

  predicate AllTravel(ms: seq<Msg>) {
    forall k :: 0 <= k < |ms| ==> Travels(ms[k])
  }

  ghost predicate ClientFits(c: Client) {
    HandlesFit(c.handles) && PendingFits(c.pending) && AllTravel(c.out) && c.seqno < UINT32
  }

  ghost predicate StateFits(s: State) {
    ClientFits(s.client) && AllTravel(s.answers) && |s.server.slots| == MAX_FILE_HANDLES
  }

  // ---------- names ----------

  lemma {:induction false} AfterColonShort(name: string)
    requires ShortText(name)
    ensures ShortText(AfterColon(name).0)
  {
    if name != "" && name[0] != ':' {
      var rest := name[1..];
      assert forall i :: 0 <= i < |rest| ==> rest[i] == name[i + 1];
      AfterColonShort(rest);
    } else if name != "" {
      var rest := name[1..];
      assert forall i :: 0 <= i < |rest| ==> rest[i] == name[i + 1];
    }
  }

  predicate Printable(s: string) {
    forall i :: 0 <= i < |s| ==> 0 < s[i] as int < 256
  }

  lemma TruncateShort(s: string, n: nat)
    requires Printable(s) && n <= 255
    ensures ShortText(Truncate(s, n))
  {
  }

  lemma NormalizeShort(dir: Handle, name: string)
    requires ShortText(dir.path) && ShortText(name)
    ensures ShortText(Normalize(dir, name))
  {
    AfterColonShort(name);
    var item := AfterColon(name).0;
    hide AfterColon, Truncate;
    TruncateShort(item, PATH_MAX - 1);
    var joined := dir.path + "/" + item;
    assert Printable(joined);
    TruncateShort(joined, PATH_MAX - 1);
  }

  lemma NewHandleFits(id: nat, kind: Kind, size: nat, path: string, target: string)
    requires id < UINT32 && size < UINT32 && Printable(path)
    ensures HandleFits(NewHandle(id, kind, size, path, target))
  {
    hide Truncate;
    TruncateShort(path, PATH_MAX - 1);
  }

  // ---------- steps ----------

  lemma BeginFits(c: Client, packet: nat, d: Detail, m: Msg)
    requires ClientFits(c) && DetailFits(d) && Travels(m)
    ensures ClientFits(Begin(c, packet, d, m))
  {
  }

  lemma PostFits(c: Client, m: Msg)
    requires ClientFits(c) && Travels(m)
    ensures ClientFits(Post(c, m))
  {
  }

  lemma HandleSet(c: Client, h: nat, hd: Handle)
    requires ClientFits(c) && HandleFits(hd)
    ensures ClientFits(c.(handles := c.handles[h := hd])) && ClientFits(AddHandle(c, hd))
    ensures ClientFits(c.(handles := c.handles - {h}))
  {
  }

  lemma UnlinkFits(c: Client, i: nat)
    requires ClientFits(c) && i < |c.pending|
    ensures ClientFits(Unlink(c, i))
  {
    var rest := c.pending[..i] + c.pending[i + 1..];
    assert forall j :: 0 <= j < |rest| ==> rest[j] == c.pending[if j < i then j else j + 1];
  }

  lemma ServeBufferFits(hd: Handle, count: nat)
    requires HandleFits(hd)
    ensures HandleFits(ServeFromBuffer(hd, count).0)
  {
  }

  lemma ReadFits(c: Client, packet: nat, h: nat, count: nat)
    requires ClientFits(c) && h in c.handles && count < UINT32
    ensures ClientFits(ActionRead(c, packet, h, count))
  {
    var (hd, got, all) := ServeFromBuffer(c.handles[h], count);
    ServeBufferFits(c.handles[h], count);
    hide ServeFromBuffer, ClientFits;
    HandleSet(c, h, hd);
    assert c.seqno < UINT32 by { ClientNumber(c); }
    var c' := c.(handles := c.handles[h := hd]);
    if all {
      LogFits(c', Reply(packet, count, 0, GotData(h, count, got, true)));
    } else {
      BeginFits(c', packet, Reading(h, count, got), ReadRequestFor(c.seqno, hd, count - Min(|got|, count)));
    }
  }

  lemma ClientNumber(c: Client)
    requires ClientFits(c)
    ensures c.seqno < UINT32 && (forall h <- c.handles :: HandleFits(c.handles[h]))
    ensures forall i :: 0 <= i < |c.pending| ==> DetailFits(c.pending[i].detail)
  {
  }

  lemma LogFits(c: Client, r: Reply)
    requires ClientFits(c)
    ensures ClientFits(ReplyTo(c, r.packet, r.res1, r.res2, r.what))
  {
  }

  lemma WriteFits(c: Client, packet: nat, h: nat, data: seq<Byte>)
    requires ClientFits(c) && h in c.handles
    ensures ClientFits(ActionWrite(c, packet, h, data))
  {
    var n := Min(|data|, BUFFER_SIZE);
    ClientNumber(c);
    hide ClientFits;
    BeginFits(c, packet, Writing(h, data, 0, n), WriteRequest(c.seqno, c.handles[h].id, data[..n]));
  }

  lemma ExamineFits(c: Client, packet: nat, h: nat)
    requires ClientFits(c) && h in c.handles
    ensures ClientFits(ActionExamineNext(c, packet, h))
  {
    ClientNumber(c);
    hide ClientFits;
    var hd := c.handles[h];
    BeginFits(c, packet, Enumerating(h), FindNextRequest(c.seqno, hd.id, !hd.enumerating));
    HandleSet(Begin(c, packet, Enumerating(h), FindNextRequest(c.seqno, hd.id, !hd.enumerating)), h,
              hd.(enumerating := true));
  }

  lemma SeekFits(c: Client, packet: nat, h: nat, amount: int, mode: int)
    requires ClientFits(c) && h in c.handles
    ensures ClientFits(ActionSeek(c, packet, h, amount, mode))
  {
    ClientNumber(c);
    hide ClientFits;
    var hd := c.handles[h];
    HandleSet(c, h, hd.(offset := SeekOffset(hd.offset, hd.size, amount, mode)));
    LogFits(c.(handles := c.handles[h := hd.(offset := SeekOffset(hd.offset, hd.size, amount, mode))]),
            Reply(packet, hd.offset, 0, Sought(h, mode, amount)));
  }

  lemma FindFits(c: Client, packet: nat, name: string)
    requires ClientFits(c) && ShortText(name)
    ensures ClientFits(ActionFindInput(c, packet, name)) && ClientFits(ActionFindOutput(c, packet, name))
  {
    ClientNumber(c);
    AfterColonShort(name);
    var target := AfterColon(name).0;
    hide ClientFits, AfterColon, NewHandle, HandleFits;
    NewHandleFits(VIRTUAL_INPUT_ID, InputKind, 0, name, target);
    NewHandleFits(VIRTUAL_OUTPUT_ID, OutputKind, 0, name, target);
    HandleSet(c, 0, NewHandle(VIRTUAL_INPUT_ID, InputKind, 0, name, target));
    HandleSet(c, 0, NewHandle(VIRTUAL_OUTPUT_ID, OutputKind, 0, name, target));
    LogFits(AddHandle(c, NewHandle(VIRTUAL_INPUT_ID, InputKind, 0, name, target)),
            Reply(packet, DOSTRUE, 0, InputOpened(c.next)));
    LogFits(AddHandle(c, NewHandle(VIRTUAL_OUTPUT_ID, OutputKind, 0, name, target)),
            Reply(packet, DOSTRUE, 0, OutputOpened(c.next)));
    LogFits(c, Reply(packet, DOSFALSE, 0, NoOutput));
    BeginFits(c, packet, OpeningFile(name, target), OpenRequest(c.seqno, target));
  }

  lemma LocateFits(c: Client, packet: nat, dir: nat, name: string)
    requires ClientFits(c) && ShortText(name) && dir in c.handles
    ensures ClientFits(ActionLocate(c, packet, dir, name))
  {
    ClientNumber(c);
    NormalizeShort(c.handles[dir], name);
    hide ClientFits, Normalize;
    var target := Normalize(c.handles[dir], name);
    LogFits(c, Reply(packet, DOSTRUE, 0, RootGiven));
    BeginFits(c, packet, OpeningLock(target), OpenRequest(c.seqno, target));
  }

  lemma FreeFits(c: Client, packet: nat, h: nat)
    requires ClientFits(c) && h in c.handles
    ensures ClientFits(ActionFree(c, packet, h))
  {
    ClientNumber(c);
    hide ClientFits;
    var hd := c.handles[h];
    LogFits(c, Reply(packet, DOSTRUE, 0, Freed(h)));
    HandleSet(c, h, hd);
    var d := c.(handles := c.handles - {h});
    PostFits(d, CloseRequest(c.seqno, hd.id));
    LogFits(Post(d, CloseRequest(c.seqno, hd.id)), Reply(packet, DOSTRUE, 0, Freed(h)));
  }

  lemma LockFits(c: Client, hd: Handle, r: Reply)
    requires ClientFits(c) && HandleFits(hd)
    ensures ClientFits(ReplyTo(AddHandle(c, hd), r.packet, r.res1, r.res2, r.what))
  {
    hide ClientFits, HandleFits;
    HandleSet(c, 0, hd);
    LogFits(AddHandle(c, hd), r);
  }

  lemma CopyFits(c: Client, packet: nat, h: nat)
    requires ClientFits(c) && h in c.handles
    ensures ClientFits(ActionCopyDir(c, packet, h)) && ClientFits(ActionParent(c, packet, h))
  {
    ClientNumber(c);
    var hd := c.handles[h];
    assert HandleFits(hd);
    hide ClientFits, NewHandle;
    LogFits(c, Reply(packet, DOSTRUE, 0, RootGiven));
    LogFits(c, Reply(packet, DOSFALSE, ERROR_OBJECT_NOT_FOUND, NoParent));
    NewHandleFits(hd.id, hd.kind, hd.size, hd.path, hd.target);
    LockFits(c, NewHandle(hd.id, hd.kind, hd.size, hd.path, hd.target),
             Reply(packet, DOSTRUE, 0, CopiedLock(c.next, hd.id)));
    var i := LastSlash(hd.path);
    if i > 0 {
      NewHandleFits(ROOT_ID, DirKind, 0, hd.path[..i], "");
      LockFits(c, NewHandle(ROOT_ID, DirKind, 0, hd.path[..i], ""), Reply(packet, DOSTRUE, 0, RootLock(c.next)));
    }
  }

  lemma PacketFits(c: Client, packet: nat, p: Packet)
    requires ClientFits(c) && Acceptable(c, p) && PacketOk(p)
    ensures ClientFits(ProcessPacket(c, packet, p))
  {
    hide ClientFits, ActionRead, ActionWrite, ActionSeek, ActionFindInput, ActionFindOutput, ActionLocate, ActionFree,
      ActionCopyDir, ActionParent, ActionExamineNext;
    match p
    case Read(h, count) => ReadFits(c, packet, h, count);
    case Write(h, data) => WriteFits(c, packet, h, data);
    case Seek(h, amount, mode) => SeekFits(c, packet, h, amount, mode);
    case FindInput(name) => FindFits(c, packet, name);
    case FindOutput(name) => FindFits(c, packet, name);
    case Locate(dir, name) => LocateFits(c, packet, dir, name);
    case Free(h) => FreeFits(c, packet, h);
    case CopyDir(h) => CopyFits(c, packet, h);
    case Parent(h) => CopyFits(c, packet, h);
    case ExamineNext(h) => ExamineFits(c, packet, h);
    case Constant(res1, res2) => LogFits(c, Reply(packet, res1, res2, Other));
    case Die =>
  }

  lemma EndFits(c: Client, i: nat, r: Reply)
    requires ClientFits(c) && i < |c.pending|
    ensures ClientFits(Unlink(ReplyTo(c, r.packet, r.res1, r.res2, r.what), i))
  {
    hide ClientFits;
    LogFits(c, r);
    UnlinkFits(ReplyTo(c, r.packet, r.res1, r.res2, r.what), i);
  }

  lemma RequeueFits(c: Client, i: nat, op: Op, m: Msg)
    requires ClientFits(c) && i < |c.pending| && DetailFits(op.detail) && Travels(m)
    ensures ClientFits(Post(c.(pending := c.pending[i := op]), m))
  {
    assert ClientFits(c.(pending := c.pending[i := op]));
    hide ClientFits;
    PostFits(c.(pending := c.pending[i := op]), m);
  }

  lemma TakeDataFits(hd: Handle, count: nat, data: seq<Byte>)
    requires HandleFits(hd)
    ensures HandleFits(TakeData(hd, count, data).0)
  {
  }

  lemma CompleteReadFits(c: Client, i: nat, data: seq<Byte>)
    requires ClientFits(c) && i < |c.pending| && c.pending[i].detail.Reading? && c.pending[i].detail.h in c.handles
    ensures ClientFits(CompleteRead(c, i, data))
  {
    ClientNumber(c);
    var op := c.pending[i];
    var Reading(h, count, got) := op.detail;
    assert count < UINT32;
    TakeDataFits(c.handles[h], count - Min(|got|, count), data);
    var (hd, more, done) := TakeData(c.handles[h], count - Min(|got|, count), data);
    hide ClientFits, TakeData;
    HandleSet(c, h, hd);
    var c' := c.(handles := c.handles[h := hd]);
    var got' := got + more;
    if done {
      EndFits(c', i, Reply(op.packet, |got'|, 0, GotData(h, count, got', true)));
    } else {
      RequeueFits(c', i, Op(c.seqno, op.packet, Reading(h, count, got')),
                  ReadRequestFor(c.seqno, hd, count - Min(|got'|, count)));
    }
  }

  lemma CompleteWriteFits(c: Client, i: nat)
    requires ClientFits(c) && i < |c.pending| && c.pending[i].detail.Writing? && c.pending[i].detail.h in c.handles
    ensures ClientFits(CompleteWrite(c, i))
  {
    ClientNumber(c);
    var op := c.pending[i];
    var Writing(h, data, source, length) := op.detail;
    hide ClientFits;
    match NextChunk(data, source, length)
    case Some((at, n)) =>
      RequeueFits(c, i, Op(c.seqno, op.packet, Writing(h, data, at, n)),
                  WriteRequest(c.seqno, c.handles[h].id, data[at..at + n]));
    case None =>
      EndFits(c, i, Reply(op.packet, |data|, 0, Wrote(h, data, true)));
  }

  lemma CompleteOpenFits(c: Client, i: nat, m: Msg)
    requires ClientFits(c) && i < |c.pending| && m.OpenAnswer? && Travels(m)
    ensures c.pending[i].detail.OpeningFile? ==> ClientFits(CompleteFindInput(c, i, m))
    ensures c.pending[i].detail.OpeningLock? ==> ClientFits(CompleteLocate(c, i, m))
  {
    ClientNumber(c);
    var op := c.pending[i];
    if op.detail.OpeningFile? || op.detail.OpeningLock? {
      var target, path := op.detail.target, if op.detail.OpeningFile? then op.detail.name else op.detail.target;
      var kind := if m.isDir && op.detail.OpeningLock? then DirKind else FileKind;
      assert DetailFits(op.detail) && ShortText(path);
      hide ClientFits, NewHandle, HandleFits, Unlink;
      NewHandleFits(m.handle, kind, m.size, path, target);
      HandleSet(c, 0, NewHandle(m.handle, kind, m.size, path, target));
      EndFits(AddHandle(c, NewHandle(m.handle, kind, m.size, path, target)), i,
              Reply(op.packet, DOSTRUE, 0, Opened(c.next, kind, target)));
      PostFits(c, CloseRequest(c.seqno, m.handle));
      EndFits(Post(c, CloseRequest(c.seqno, m.handle)), i,
              Reply(op.packet, DOSFALSE, ERROR_OBJECT_WRONG_TYPE, Refused(target)));
    }
  }

  lemma CompleteListFits(c: Client, i: nat, m: Msg)
    requires ClientFits(c) && i < |c.pending| && c.pending[i].detail.Enumerating?
    requires c.pending[i].detail.h in c.handles && m.FindNextAnswer?
    ensures ClientFits(CompleteExamineNext(c, i, m))
  {
    ClientNumber(c);
    var op := c.pending[i];
    var h := op.detail.h;
    hide ClientFits, Truncate;
    if m.end {
      HandleSet(c, h, c.handles[h].(enumerating := false));
      EndFits(c.(handles := c.handles[h := c.handles[h].(enumerating := false)]), i,
              Reply(op.packet, DOSFALSE, ERROR_NO_MORE_ENTRIES, ListEnd(h)));
    } else {
      EndFits(c, i, Reply(op.packet, DOSTRUE, 0, Listed(h, Truncate(m.name, PATH_MAX - 2), m.isDir, m.size)));
    }
  }

  lemma AnswerKeepsFit(c: Client, m: Msg)
    requires ClientFits(c) && AllLive(c) && Travels(m)
    ensures ClientFits(ProcessAnswer(c, m).0)
  {
    hide ClientFits, CompleteRead, CompleteWrite, CompleteFindInput, CompleteLocate, CompleteExamineNext,
      TranslateError, Unlink, Travels;
    match FindPending(c.pending, m.seqno)
    case None =>
    case Some(i) =>
      var op := c.pending[i];
      assert Live(c, op.detail);
      if op.detail.Reading? && m.ReadAnswer? {
        CompleteReadFits(c, i, m.data);
      } else if op.detail.Writing? && m.WriteAnswer? {
        CompleteWriteFits(c, i);
      } else if m.OpenAnswer? && (op.detail.OpeningFile? || op.detail.OpeningLock?) {
        CompleteOpenFits(c, i, m);
      } else if op.detail.Enumerating? && m.FindNextAnswer? {
        CompleteListFits(c, i, m);
      } else {
        var res2 := if m.ErrorAnswer? then TranslateError(m.code) else ERROR_DEVICE_NOT_MOUNTED;
        EndFits(c, i, Reply(op.packet, DOSFALSE, res2, Failure(op.detail)));
      }
  }

  lemma ServeTravels(s: Server, w: World, m: Msg, os: OsResult)
    requires !IsAnswer(m) && Travels(m) && |s.slots| == MAX_FILE_HANDLES && WorldOk(w) && NamesOk(w)
    requires PosixError(os.code)
    ensures var (s', a) := Serve(s, w, m, os);
      |s'.slots| == MAX_FILE_HANDLES && (a.Some? ==> Travels(a.value))
  {
  }

  // ---------- runs ----------

  lemma StepFits(s: State, w: World, e: Event, s': State)
    requires StateFits(s) && EventOk(e) && WorldOk(w) && NamesOk(w) && Next(s, w, e, s')
    ensures StateFits(s')
  {
    hide ProcessPacket, ProcessAnswer, Serve, Travels, HandlesFit, PendingFits, WorldOk, NamesOk;
    match e
    case TakePacket(p) => PacketFits(s.client, s.taken, p);
    case ServeNext(os) => ServeTravels(s.server, w, s.client.out[0], os);
    case TakeAnswer => AnswerKeepsFit(s.client, s.answers[0]);
  }

  lemma {:induction false} RunFits(device: string, w: World, events: seq<Event>, states: seq<State>, n: nat)
    requires IsRun(device, w, events, states) && n < |states| && WorldOk(w) && NamesOk(w) && ShortText(device)
    requires forall i :: 0 <= i < n ==> EventOk(events[i])
    ensures StateFits(states[n])
  {
    hide StateFits, Next, WorldOk, NamesOk, EventOk;
    if n == 0 {
      StartFits(device);
    } else {
      assert Next(states[n - 1], w, events[n - 1], states[n]);
      RunFits(device, w, events, states, n - 1);
      StepFits(states[n - 1], w, events[n - 1], states[n]);
    }
  }

  lemma StartFits(device: string)
    requires ShortText(device)
    ensures StateFits(StartState(device))
  {
  }

  /**
   In every state of every run each message in flight, in either direction, can
   be sent as a record of the protocol and is read back as itself.
   */
  lemma MessagesInFlightTravel(device: string, w: World, events: seq<Event>, states: seq<State>, n: nat, k: nat)
    requires IsRun(device, w, events, states) && n < |states| && WorldOk(w) && NamesOk(w) && ShortText(device)
    requires forall i :: 0 <= i < n ==> EventOk(events[i])
    requires k < |Flight(states[n])|
    ensures var m := Flight(states[n])[k];
      && Travels(m)
      && Sendable(RlNetSchema(), ToRecord(m), 8192)
      && forall length: nat :: FromRecord(ToRecord(m)[HDR_LENGTH := Num(length)]) == Some(m)
  {
    RunFits(device, w, events, states, n);
    var m := Flight(states[n])[k];
    assert Travels(m);
    hide IsRun, StateFits, Travels, Sendable, RlNetSchema, ToRecord, FromRecord, EventOk, WorldOk, NamesOk;
    MessageTravels(m);
    forall length: nat
      ensures FromRecord(ToRecord(m)[HDR_LENGTH := Num(length)]) == Some(m)
    {
      RecordRoundTrip(m, length);
    }
  }
}
