/**
 Requests and answers: in every reachable state each pending operation waits
 for exactly one message, of the right kind, and every packet has been replied
 to, or waits, or was dropped, exactly once.
 */
module FsMatching {
  import opened Base
  import opened RemoteFs
  import opened FsSystem

  /** The request in flight is the one that the operation stands for. */
  predicate RequestFits(c: Client, d: Detail, m: Msg) {
    match d
    case Reading(h, count, got) =>
      && h in c.handles && m.ReadRequest? && m.handle == c.handles[h].id && m.offset == c.handles[h].offset
      && var left := count - Min(|got|, count);
      m.length == if left > 4096 then left else 4096
    case Writing(h, data, source, length) =>
      && h in c.handles && m.WriteRequest? && m.handle == c.handles[h].id
      && source + length <= |data| && m.data == data[source..source + length]
    case OpeningFile(_, target) => m.OpenRequest? && m.path == target
    case OpeningLock(target) => m.OpenRequest? && m.path == target
    case Enumerating(h) => h in c.handles && m.FindNextRequest? && m.handle == c.handles[h].id
  }

  predicate MessageFits(c: Client, op: Op, m: Msg) {
    if IsAnswer(m) then m.ErrorAnswer? || Expected(op.detail, m) else RequestFits(c, op.detail, m)
  }

  /** Message m is in flight for operation op. */
  predicate Belongs(m: Msg, op: Op) {
    !m.CloseRequest? && m.seqno == op.seqno
  }

  ghost predicate Kinds(c: Client, flight: seq<Msg>) {
    forall i, k :: (0 <= i < |c.pending| && 0 <= k < |flight| && Belongs(flight[k], c.pending[i])) ==>
      MessageFits(c, c.pending[i], flight[k])
  }

  /** Two operations on one handle. */
  predicate SameHandle(d: Detail, e: Detail) {
    HandleOf(d).Some? && HandleOf(d) == HandleOf(e)
  }

  /** One operation per handle, but for listings of the root. */
  predicate OnePerHandle(pending: seq<Op>) {
    forall i, j :: 0 <= i < j < |pending| && SameHandle(pending[i].detail, pending[j].detail) ==>
      pending[i].detail == pending[j].detail == Enumerating(0)
  }

  predicate IdOk(id: nat) {
    id < MAX_FILE_HANDLES || id == ROOT_ID || id == VIRTUAL_INPUT_ID || id == VIRTUAL_OUTPUT_ID
  }

  /** Handle 0 is the root's and stays. */
  ghost predicate KnownHandles(c: Client) {
    && (forall h <- c.handles :: h < c.next && IdOk(c.handles[h].id))
    && 0 in c.handles && c.handles[0].kind == DeviceKind && c.handles[0].id == ROOT_ID
  }

  /** Handles and messages name only handles that the server knows, so that a close request is never answered. */
  ghost predicate Known(c: Client, flight: seq<Msg>) {
    && KnownHandles(c)
    && (forall k :: 0 <= k < |flight| && flight[k].CloseRequest? ==> IdOk(flight[k].handle))
    && (forall k :: 0 <= k < |flight| && flight[k].OpenAnswer? ==> flight[k].handle < MAX_FILE_HANDLES)
  }

  ghost predicate Channels(s: State) {
    && AllRequests(s.client.out)
    && (forall k :: 0 <= k < |s.answers| ==> IsAnswer(s.answers[k]))
  }

  ghost predicate Structure(s: State) {
    && Channels(s)
    && |s.server.slots| == MAX_FILE_HANDLES
    && s.client.seqno == s.sent
    && AllLive(s.client)
    && OnePerHandle(s.client.pending)
    && Matched(s.client.pending, Flight(s), s.sent)
    && Kinds(s.client, Flight(s))
    && Known(s.client, Flight(s))
  }

  // ---------- what a step of the client does to the operations ----------

  /** A change of handles that operations do not notice: those of pending operations keep id and offset. */
  predicate Unnoticed(c: Client, d: Client) {
    forall i :: 0 <= i < |c.pending| && HandleOf(c.pending[i].detail).Some? ==>
      var h := HandleOf(c.pending[i].detail).value;
      h in c.handles ==>
        h in d.handles && d.handles[h].id == c.handles[h].id && d.handles[h].offset == c.handles[h].offset
  }

  lemma UnnoticedKinds(c: Client, d: Client, flight: seq<Msg>)
    requires AllLive(c) && Kinds(c, flight) && Unnoticed(c, d) && d.pending == c.pending
    ensures AllLive(d) && Kinds(d, flight)
  {
    forall i | 0 <= i < |d.pending|
      ensures Live(d, d.pending[i].detail)
    {
      assert Live(c, c.pending[i].detail);
    }
    forall i, k | 0 <= i < |d.pending| && 0 <= k < |flight| && Belongs(flight[k], d.pending[i])
      ensures MessageFits(d, d.pending[i], flight[k])
    {
      assert MessageFits(c, c.pending[i], flight[k]);
    }
  }

  /** A new operation meets no other on its handle, but for listings of the root. */
  predicate MayJoin(c: Client, d: Detail) {
    forall i :: 0 <= i < |c.pending| && SameHandle(c.pending[i].detail, d) ==>
      c.pending[i].detail == d == Enumerating(0)
  }

  lemma BusyOrJoins(c: Client, p: Packet)
    requires !Blocked(c, p) && Uses(p).Some?
    ensures p != ExamineNext(0) ==> !Busy(c, Uses(p).value)
    ensures p.ExamineNext? ==> MayJoin(c, Enumerating(p.h))
  {
  }

  /** A new operation with its request. */
  lemma BeginKinds(c: Client, d: Client, flight: seq<Msg>, op: Op, m: Msg, sent: nat)
    requires AllLive(c) && Kinds(c, flight) && OnePerHandle(c.pending) && Unnoticed(c, d)
    requires Matched(c.pending, flight, sent) && op.seqno == sent == m.seqno
    requires d.pending == [op] + c.pending
    requires MayJoin(c, op.detail)
    requires Live(d, op.detail) && !IsAnswer(m) && RequestFits(d, op.detail, m)
    ensures AllLive(d) && Kinds(d, flight + [m]) && OnePerHandle(d.pending)
  {
    hide Matched;
    MatchedBounds(c.pending, flight, sent);
    forall i | 0 <= i < |d.pending|
      ensures Live(d, d.pending[i].detail)
    {
      if i > 0 {
        assert Live(c, c.pending[i - 1].detail);
      }
    }
    forall i, k | 0 <= i < |d.pending| && 0 <= k < |flight + [m]| && Belongs((flight + [m])[k], d.pending[i])
      ensures MessageFits(d, d.pending[i], (flight + [m])[k])
    {
      if i > 0 && k < |flight| {
        assert Belongs(flight[k], c.pending[i - 1]);
        assert MessageFits(c, c.pending[i - 1], flight[k]);
      }
    }
    forall i, j | 0 <= i < j < |d.pending| && SameHandle(d.pending[i].detail, d.pending[j].detail)
      ensures d.pending[i].detail == d.pending[j].detail == Enumerating(0)
    {
      assert d.pending[j] == c.pending[j - 1];
    }
  }

  lemma MatchedBounds(pending: seq<Op>, flight: seq<Msg>, sent: nat)
    requires Matched(pending, flight, sent)
    ensures forall i :: 0 <= i < |pending| ==> pending[i].seqno < sent
    ensures forall k :: 0 <= k < |flight| ==> flight[k].seqno < sent
  {
  }

  /** The operation at place i is over and its message gone; the handle it had may have changed. */
  lemma FinishKinds(c: Client, d: Client, flight: seq<Msg>, i: nat)
    requires AllLive(c) && Kinds(c, flight) && OnePerHandle(c.pending) && i < |c.pending| && flight != []
    requires d.pending == c.pending[..i] + c.pending[i + 1..]
    requires forall h <- c.handles :: h in d.handles && d.handles[h].id == c.handles[h].id
    requires forall h <- c.handles :: Some(h) != HandleOf(c.pending[i].detail) ==> d.handles[h] == c.handles[h]
    ensures AllLive(d) && Kinds(d, flight[1..]) && OnePerHandle(d.pending)
  {
    var rest := flight[1..];
    forall j | 0 <= j < |d.pending|
      ensures Live(d, d.pending[j].detail)
    {
      assert Live(c, c.pending[if j < i then j else j + 1].detail);
    }
    forall j, k | 0 <= j < |d.pending| && 0 <= k < |rest| && Belongs(rest[k], d.pending[j])
      ensures MessageFits(d, d.pending[j], rest[k])
    {
      var j' := if j < i then j else j + 1;
      assert d.pending[j] == c.pending[j'] && rest[k] == flight[k + 1];
      assert Belongs(flight[k + 1], c.pending[j']);
      assert MessageFits(c, c.pending[j'], flight[k + 1]);
      assert HandleOf(c.pending[j'].detail).Some? && !c.pending[j'].detail.Enumerating? ==>
        HandleOf(c.pending[j'].detail) != HandleOf(c.pending[i].detail);
      assert Live(c, c.pending[j'].detail);
    }
    forall j, k | 0 <= j < k < |d.pending| && SameHandle(d.pending[j].detail, d.pending[k].detail)
      ensures d.pending[j].detail == d.pending[k].detail == Enumerating(0)
    {
      var j', k' := if j < i then j else j + 1, if k < i then k else k + 1;
      assert d.pending[j] == c.pending[j'] && d.pending[k] == c.pending[k'];
    }
  }

  /** The operation at place i goes on under a new number, on the same handle. */
  lemma ContinueKinds(c: Client, d: Client, flight: seq<Msg>, i: nat, op: Op, m: Msg, sent: nat)
    requires AllLive(c) && Kinds(c, flight) && OnePerHandle(c.pending) && i < |c.pending| && flight != []
    requires Matched(c.pending, flight, sent) && op.seqno == sent == m.seqno
    requires d.pending == c.pending[i := op] && HandleOf(op.detail) == HandleOf(c.pending[i].detail)
    requires !c.pending[i].detail.Enumerating?
    requires forall h <- c.handles :: h in d.handles && d.handles[h].id == c.handles[h].id
    requires forall h <- c.handles :: Some(h) != HandleOf(op.detail) ==> d.handles[h] == c.handles[h]
    requires Live(d, op.detail) && !IsAnswer(m) && RequestFits(d, op.detail, m)
    ensures AllLive(d) && Kinds(d, flight[1..] + [m]) && OnePerHandle(d.pending)
  {
    hide Matched;
    MatchedBounds(c.pending, flight, sent);
    var rest := flight[1..] + [m];
    forall j | 0 <= j < |d.pending|
      ensures Live(d, d.pending[j].detail)
    {
      assert Live(c, c.pending[j].detail);
    }
    forall j, k | 0 <= j < |d.pending| && 0 <= k < |rest| && Belongs(rest[k], d.pending[j])
      ensures MessageFits(d, d.pending[j], rest[k])
    {
      if j != i && k < |flight| - 1 {
        assert Belongs(flight[k + 1], c.pending[j]);
        assert MessageFits(c, c.pending[j], flight[k + 1]);
        assert HandleOf(c.pending[j].detail).Some? ==> HandleOf(c.pending[j].detail) != HandleOf(c.pending[i].detail);
        assert Live(c, c.pending[j].detail);
      }
    }
    forall j, k | 0 <= j < k < |d.pending| && SameHandle(d.pending[j].detail, d.pending[k].detail)
      ensures d.pending[j].detail == d.pending[k].detail == Enumerating(0)
    {
      assert SameHandle(c.pending[j].detail, c.pending[k].detail);
    }
  }

  /** A request at place n becomes its answer. */
  lemma ServeKinds(c: Client, flight: seq<Msg>, n: nat, m: Msg)
    requires Kinds(c, flight) && n < |flight| && m.seqno == flight[n].seqno && IsAnswer(m)
    requires !flight[n].CloseRequest?
    requires forall i :: 0 <= i < |c.pending| && Belongs(flight[n], c.pending[i]) ==> MessageFits(c, c.pending[i], m)
    ensures Kinds(c, flight[n := m])
  {
    var changed := flight[n := m];
    forall i, k | 0 <= i < |c.pending| && 0 <= k < |changed| && Belongs(changed[k], c.pending[i])
      ensures MessageFits(c, c.pending[i], changed[k])
    {
      assert Belongs(flight[k], c.pending[i]);
    }
  }

  lemma CloseKinds(c: Client, flight: seq<Msg>, n: nat)
    requires Kinds(c, flight) && n < |flight|
    ensures Kinds(c, flight[..n] + flight[n + 1..])
  {
    var rest := flight[..n] + flight[n + 1..];
    forall i, k | 0 <= i < |c.pending| && 0 <= k < |rest| && Belongs(rest[k], c.pending[i])
      ensures MessageFits(c, c.pending[i], rest[k])
    {
      assert rest[k] == flight[if k < n then k else k + 1];
      assert Belongs(flight[if k < n then k else k + 1], c.pending[i]);
    }
  }

  /** The server answers a request with an error or with the kind that the operation expects. */
  lemma ServeAnswersInKind(s: Server, w: World, c: Client, op: Op, m: Msg, os: OsResult)
    requires !IsAnswer(m) && !m.CloseRequest? && |s.slots| == MAX_FILE_HANDLES
    ensures var (s', a) := Serve(s, w, m, os);
      && a.Some? && IsAnswer(a.value) && a.value.seqno == m.seqno
      && |s'.slots| == MAX_FILE_HANDLES
      && (a.value.OpenAnswer? ==> a.value.handle < MAX_FILE_HANDLES)
      && (RequestFits(c, op.detail, m) ==> MessageFits(c, op, a.value))
  {
  }

  // ---------- every step keeps the structure ----------

  predicate SameTables(c: Client, d: Client) {
    d.pending == c.pending && d.out == c.out && d.seqno == c.seqno
  }

  /** A packet that is answered at once. */
  lemma LocalStructure(s: State, s': State)
    requires Structure(s) && s'.answers == s.answers && s'.server == s.server && s'.sent == s.sent
    requires SameTables(s.client, s'.client) && Unnoticed(s.client, s'.client) && KnownHandles(s'.client)
    ensures Structure(s')
  {
    hide Matched, Kinds, AllLive;
    UnnoticedKinds(s.client, s'.client, Flight(s));
  }

  lemma KnownMore(c: Client, d: Client, flight: seq<Msg>, m: Msg)
    requires Known(c, flight) && KnownHandles(d) && !m.OpenAnswer? && (m.CloseRequest? ==> IdOk(m.handle))
    ensures Known(d, flight + [m])
  {
  }

  /** A packet that starts an operation. */
  lemma BeginStructure(s: State, s': State, op: Op, m: Msg)
    requires Structure(s) && s'.answers == s.answers && s'.server == s.server && s'.sent == s.sent + 1
    requires Unnoticed(s.client, s'.client) && KnownHandles(s'.client)
    requires s'.client.pending == [op] + s.client.pending && s'.client.out == s.client.out + [m]
    requires s'.client.seqno == s.sent + 1 && op.seqno == s.sent == m.seqno
    requires MayJoin(s.client, op.detail)
    requires Live(s'.client, op.detail) && !IsAnswer(m) && !m.CloseRequest? && RequestFits(s'.client, op.detail, m)
    ensures Structure(s')
  {
    hide Matched, Kinds, AllLive, OnePerHandle, Known, RequestFits, Unnoticed, KnownHandles;
    var flight := Flight(s);
    assert Flight(s') == flight + [m];
    BeginKinds(s.client, s'.client, flight, op, m, s.sent);
    MatchedBegin(s.client.pending, flight, s.sent, op, m);
    KnownMore(s.client, s'.client, flight, m);
  }

  /** A packet that only sends a close request. */
  lemma PostStructure(s: State, s': State, m: Msg)
    requires Structure(s) && s'.answers == s.answers && s'.server == s.server && s'.sent == s.sent + 1
    requires Unnoticed(s.client, s'.client) && KnownHandles(s'.client)
    requires s'.client.pending == s.client.pending && s'.client.out == s.client.out + [m]
    requires s'.client.seqno == s.sent + 1 && m.seqno == s.sent && m.CloseRequest? && IdOk(m.handle)
    ensures Structure(s')
  {
    var flight := Flight(s);
    assert Flight(s') == flight + [m];
    MatchedPost(s.client.pending, flight, s.sent, m);
    hide Matched, AllLive, Unnoticed, KnownHandles;
    UnnoticedKinds(s.client, s'.client, flight);
    KnownMore(s.client, s'.client, flight, m);
  }

  lemma NotBusyUnnoticed(c: Client, d: Client, h: nat)
    requires AllLive(c) && !Busy(c, h)
    requires forall g <- c.handles :: g != h ==> g in d.handles && d.handles[g] == c.handles[g]
    ensures Unnoticed(c, d)
  {
    forall i | 0 <= i < |c.pending| && HandleOf(c.pending[i].detail).Some?
      ensures var g := HandleOf(c.pending[i].detail).value;
        g in c.handles ==>
          g in d.handles && d.handles[g].id == c.handles[g].id && d.handles[g].offset == c.handles[g].offset
    {
      assert HandleOf(c.pending[i].detail) != Some(h);
    }
  }

  lemma FreshUnnoticed(c: Client, d: Client)
    requires AllLive(c) && KnownHandles(c)
    requires forall g <- c.handles :: g in d.handles && d.handles[g] == c.handles[g]
    ensures Unnoticed(c, d)
  {
  }

  lemma ReadStructure(s: State, w: World, h: nat, count: nat)
    requires Structure(s) && Enabled(s, TakePacket(Read(h, count))) && s.sent + 1 < UINT32
    ensures Structure(Step(s, w, TakePacket(Read(h, count))))
  {
    var c, s' := s.client, Step(s, w, TakePacket(Read(h, count)));
    assert KnownHandles(c);
    BusyOrJoins(c, Read(h, count));
    hide Matched, Kinds, OnePerHandle, Known, Unnoticed, AllLive, BufferOverlap, Blocked;
    NotBusyUnnoticed(c, s'.client, h);
    var (hd, got, all) := ServeFromBuffer(c.handles[h], count);
    assert hd.id == c.handles[h].id;
    if all {
      LocalStructure(s, s');
    } else {
      BeginStructure(s, s', Op(c.seqno, s.taken, Reading(h, count, got)),
                     ReadRequestFor(c.seqno, hd, count - Min(|got|, count)));
    }
  }

  lemma WriteStructure(s: State, w: World, h: nat, data: seq<Byte>)
    requires Structure(s) && Enabled(s, TakePacket(Write(h, data))) && s.sent + 1 < UINT32
    ensures Structure(Step(s, w, TakePacket(Write(h, data))))
  {
    var c, s' := s.client, Step(s, w, TakePacket(Write(h, data)));
    assert KnownHandles(c);
    BusyOrJoins(c, Write(h, data));
    hide Matched, Kinds, OnePerHandle, Known, Unnoticed, AllLive, Blocked;
    NotBusyUnnoticed(c, s'.client, h);
    var n := Min(|data|, BUFFER_SIZE);
    BeginStructure(s, s', Op(c.seqno, s.taken, Writing(h, data, 0, n)),
                   WriteRequest(c.seqno, c.handles[h].id, data[..n]));
  }

  lemma ExamineStructure(s: State, w: World, h: nat)
    requires Structure(s) && Enabled(s, TakePacket(ExamineNext(h))) && s.sent + 1 < UINT32
    ensures Structure(Step(s, w, TakePacket(ExamineNext(h))))
  {
    var c, s' := s.client, Step(s, w, TakePacket(ExamineNext(h)));
    assert KnownHandles(c);
    BusyOrJoins(c, ExamineNext(h));
    hide Matched, Kinds, OnePerHandle, Known, AllLive, Blocked;
    var hd := c.handles[h];
    assert Unnoticed(c, s'.client);
    hide Unnoticed;
    BeginStructure(s, s', Op(c.seqno, s.taken, Enumerating(h)), FindNextRequest(c.seqno, hd.id, !hd.enumerating));
  }

  /** Packets that need no answer. */
  lemma HandlePacketStructure(s: State, w: World, p: Packet)
    requires p.Seek? || p.Free?
    requires Structure(s) && Enabled(s, TakePacket(p)) && s.sent + 1 < UINT32
    ensures Structure(Step(s, w, TakePacket(p)))
  {
    var c, s' := s.client, Step(s, w, TakePacket(p));
    assert KnownHandles(c);
    BusyOrJoins(c, p);
    hide Matched, Kinds, OnePerHandle, Known, Unnoticed, Busy, AllLive, SeekOffset, Blocked, MayJoin;
    NotBusyUnnoticed(c, s'.client, p.h);
    var hd := c.handles[p.h];
    match p
    case Seek(h, amount, mode) => LocalStructure(s, s');
    case Free(h) =>
      if hd.kind == DeviceKind {
        LocalStructure(s, s');
      } else {
        PostStructure(s, s', CloseRequest(c.seqno, hd.id));
      }
  }

  lemma FindInputStructure(s: State, w: World, name: string)
    requires Structure(s) && Enabled(s, TakePacket(FindInput(name))) && s.sent + 1 < UINT32
    ensures Structure(Step(s, w, TakePacket(FindInput(name))))
  {
    var c, s' := s.client, Step(s, w, TakePacket(FindInput(name)));
    assert KnownHandles(c);
    hide Matched, Kinds, OnePerHandle, Known, Unnoticed, AllLive, AfterColon, Truncate, Blocked;
    FreshUnnoticed(c, s'.client);
    var target := AfterColon(name).0;
    if target == VIRTUAL_INPUT_FILE {
      LocalStructure(s, s');
    } else {
      BeginStructure(s, s', Op(c.seqno, s.taken, OpeningFile(name, target)), OpenRequest(c.seqno, target));
    }
  }

  lemma LocateStructure(s: State, w: World, dir: nat, name: string)
    requires Structure(s) && Enabled(s, TakePacket(Locate(dir, name))) && s.sent + 1 < UINT32
    ensures Structure(Step(s, w, TakePacket(Locate(dir, name))))
  {
    var c, s' := s.client, Step(s, w, TakePacket(Locate(dir, name)));
    assert KnownHandles(c);
    hide Matched, Kinds, OnePerHandle, Known, Unnoticed, AllLive, Normalize, Truncate, Blocked;
    FreshUnnoticed(c, s'.client);
    var target := Normalize(c.handles[dir], name);
    if target == "" {
      LocalStructure(s, s');
    } else {
      BeginStructure(s, s', Op(c.seqno, s.taken, OpeningLock(target)), OpenRequest(c.seqno, target));
    }
  }

  /** Packets that are answered at once, and at most make a handle. */
  lemma OtherPacketStructure(s: State, w: World, p: Packet)
    requires !p.Read? && !p.Write? && !p.Seek? && !p.ExamineNext? && !p.Free? && !p.FindInput? && !p.Locate?
    requires Structure(s) && Enabled(s, TakePacket(p)) && s.sent + 1 < UINT32
    ensures Structure(Step(s, w, TakePacket(p)))
  {
    var c, s' := s.client, Step(s, w, TakePacket(p));
    assert KnownHandles(c);
    hide Matched, Kinds, OnePerHandle, Known, Unnoticed, AllLive, AfterColon, LastSlash, Truncate, Blocked;
    FreshUnnoticed(c, s'.client);
    LocalStructure(s, s');
  }

  lemma PacketStructure(s: State, w: World, p: Packet)
    requires Structure(s) && Enabled(s, TakePacket(p)) && s.sent + 1 < UINT32
    ensures Structure(Step(s, w, TakePacket(p)))
  {
    hide *;
    if p.Read? {
      ReadStructure(s, w, p.h, p.count);
    } else if p.Write? {
      WriteStructure(s, w, p.h, p.data);
    } else if p.ExamineNext? {
      ExamineStructure(s, w, p.h);
    } else if p.Seek? || p.Free? {
      HandlePacketStructure(s, w, p);
    } else if p.FindInput? {
      FindInputStructure(s, w, p.name);
    } else if p.Locate? {
      LocateStructure(s, w, p.dir, p.name);
    } else {
      OtherPacketStructure(s, w, p);
    }
  }

  // ---------- the server's steps ----------

  /** The client is as before, but for the requests it still has to send. */
  lemma ServedStructure(s: State, s': State)
    requires Structure(s) && Channels(s') && |s'.server.slots| == MAX_FILE_HANDLES && s'.sent == s.sent
    requires s'.client == s.client.(out := s'.client.out)
    requires Matched(s.client.pending, Flight(s'), s.sent)
    requires Kinds(s.client, Flight(s')) && Known(s.client, Flight(s'))
    ensures Structure(s')
  {
    hide Matched;
    forall i | 0 <= i < |s.client.pending|
      ensures Live(s'.client, s'.client.pending[i].detail)
    {
      assert Live(s.client, s.client.pending[i].detail);
    }
    forall i, k | 0 <= i < |s'.client.pending| && 0 <= k < |Flight(s')| && Belongs(Flight(s')[k], s'.client.pending[i])
      ensures MessageFits(s'.client, s'.client.pending[i], Flight(s')[k])
    {
      assert MessageFits(s.client, s.client.pending[i], Flight(s')[k]);
    }
  }

  /** A close request for a handle that the server knows is not answered. */
  lemma CloseIsQuiet(s: Server, w: World, m: Msg, os: OsResult)
    requires m.CloseRequest? && IdOk(m.handle) && |s.slots| == MAX_FILE_HANDLES
    ensures Serve(s, w, m, os).1.None? && |Serve(s, w, m, os).0.slots| == MAX_FILE_HANDLES
  {
  }

  lemma ServeCloseStructure(s: State, w: World, os: OsResult)
    requires Structure(s) && Enabled(s, ServeNext(os)) && s.client.out[0].CloseRequest?
    ensures Structure(Step(s, w, ServeNext(os)))
  {
    hide ProcessPacket, ProcessAnswer, Serve, Matched, Kinds, OnePerHandle;
    var s', n, flight := Step(s, w, ServeNext(os)), |s.answers|, Flight(s);
    assert flight[n].CloseRequest? && IdOk(flight[n].handle);
    CloseIsQuiet(s.server, w, flight[n], os);
    assert s'.answers == s.answers && |s'.server.slots| == MAX_FILE_HANDLES && s'.sent == s.sent;
    hide AllLive;
    var rest := flight[..n] + flight[n + 1..];
    assert Flight(s') == rest;
    assert forall k :: 0 <= k < |rest| ==> rest[k] == flight[if k < n then k else k + 1];
    MatchedClose(s.client.pending, flight, s.sent, n);
    CloseKinds(s.client, flight, n);
    ServedStructure(s, s');
  }

  lemma ServeAnswerStructure(s: State, w: World, os: OsResult)
    requires Structure(s) && Enabled(s, ServeNext(os)) && !s.client.out[0].CloseRequest?
    ensures Structure(Step(s, w, ServeNext(os)))
  {
    var s', n, m, flight := Step(s, w, ServeNext(os)), |s.answers|, s.client.out[0], Flight(s);
    var a := Serve(s.server, w, m, os).1;
    hide Serve, Matched, OnePerHandle, AllLive, Kinds, RequestFits, MessageFits;
    ServeAnswersInKind(s.server, w, s.client, Op(0, 0, OpeningLock("")), m, os);
    var changed := flight[n := a.value];
    assert Flight(s') == changed;
    forall i | 0 <= i < |s.client.pending| && Belongs(m, s.client.pending[i])
      ensures MessageFits(s.client, s.client.pending[i], a.value)
    {
      RequestFitsNow(s, i, n);
      ServeAnswersInKind(s.server, w, s.client, s.client.pending[i], m, os);
    }
    ServeKinds(s.client, flight, n, a.value);
    MatchedServe(s.client.pending, flight, s.sent, n, a.value);
    ServedStructure(s, s');
  }

  lemma RequestFitsNow(s: State, i: nat, n: nat)
    requires Structure(s) && i < |s.client.pending| && n < |Flight(s)| && !IsAnswer(Flight(s)[n])
    requires Belongs(Flight(s)[n], s.client.pending[i])
    ensures RequestFits(s.client, s.client.pending[i].detail, Flight(s)[n])
  {
    assert MessageFits(s.client, s.client.pending[i], Flight(s)[n]);
  }

  lemma ServeStructure(s: State, w: World, os: OsResult)
    requires Structure(s) && Enabled(s, ServeNext(os))
    ensures Structure(Step(s, w, ServeNext(os)))
  {
    hide Structure;
    if s.client.out[0].CloseRequest? {
      ServeCloseStructure(s, w, os);
    } else {
      ServeAnswerStructure(s, w, os);
    }
  }

  /** The server takes one request, and answers all but a close. */
  lemma ServedOne(s: State, w: World, os: OsResult)
    requires Structure(s) && Enabled(s, ServeNext(os))
    ensures |s.server.slots| == MAX_FILE_HANDLES && PosixError(os.code)
    ensures var s', m, a := Step(s, w, ServeNext(os)), s.client.out[0], Serve(s.server, w, s.client.out[0], os).1;
      && s'.client == s.client.(out := s.client.out[1..])
      && (if m.CloseRequest? then s'.answers == s.answers
          else a.Some? && a.value.seqno == m.seqno && s'.answers == s.answers + [a.value])
  {
    var m := s.client.out[0];
    assert Flight(s)[|s.answers|] == m && !IsAnswer(m) && |s.server.slots| == MAX_FILE_HANDLES;
    if m.CloseRequest? {
      CloseIsQuiet(s.server, w, m, os);
    } else {
      ServeAnswersInKind(s.server, w, s.client, Op(0, 0, OpeningLock("")), m, os);
    }
    hide Serve, ProcessPacket, ProcessAnswer;
  }

  // ---------- the client takes an answer ----------

  /** Handles keep their ids, and only the one that operation d works on changes otherwise. */
  predicate OnlyTouches(c: Client, e: Client, d: Detail) {
    forall h <- c.handles ::
      h in e.handles && e.handles[h].id == c.handles[h].id && (Some(h) != HandleOf(d) ==> e.handles[h] == c.handles[h])
  }

  lemma KnownFewer(c: Client, d: Client, flight: seq<Msg>)
    requires Known(c, flight) && KnownHandles(d) && flight != []
    ensures Known(d, flight[1..])
  {
  }

  lemma FinishStructure(s: State, s': State, i: nat)
    requires Structure(s) && s.answers != [] && s'.answers == s.answers[1..] && s'.server == s.server
    requires s'.sent == s.sent
    requires i < |s.client.pending| && s.client.pending[i].seqno == s.answers[0].seqno
    requires s'.client.pending == s.client.pending[..i] + s.client.pending[i + 1..]
    requires s'.client.out == s.client.out && s'.client.seqno == s.client.seqno
    requires OnlyTouches(s.client, s'.client, s.client.pending[i].detail) && KnownHandles(s'.client)
    ensures Structure(s')
  {
    var flight := Flight(s);
    assert flight[0] == s.answers[0];
    assert Flight(s') == flight[1..];
    hide Matched, Kinds, AllLive, OnePerHandle, Known, KnownHandles;
    FinishKinds(s.client, s'.client, flight, i);
    MatchedFinish(s.client.pending, flight, s.sent, i);
    KnownFewer(s.client, s'.client, flight);
  }

  lemma ContinueStructure(s: State, s': State, i: nat, op: Op, m: Msg)
    requires Structure(s) && s.answers != [] && s'.answers == s.answers[1..] && s'.server == s.server
    requires s'.sent == s.sent + 1
    requires i < |s.client.pending| && s.client.pending[i].seqno == s.answers[0].seqno
    requires s'.client.pending == s.client.pending[i := op] && s'.client.out == s.client.out + [m]
    requires s'.client.seqno == s.sent + 1 && op.seqno == s.sent == m.seqno
    requires HandleOf(op.detail) == HandleOf(s.client.pending[i].detail) && !s.client.pending[i].detail.Enumerating?
    requires OnlyTouches(s.client, s'.client, op.detail) && KnownHandles(s'.client)
    requires Live(s'.client, op.detail) && !IsAnswer(m) && !m.CloseRequest? && RequestFits(s'.client, op.detail, m)
    ensures Structure(s')
  {
    var flight := Flight(s);
    assert flight[0] == s.answers[0];
    assert Flight(s') == flight[1..] + [m];
    hide Matched, Kinds, AllLive, OnePerHandle, Known, KnownHandles, RequestFits;
    ContinueKinds(s.client, s'.client, flight, i, op, m, s.sent);
    MatchedContinue(s.client.pending, flight, s.sent, i, op, m);
    KnownFewer(s.client, s'.client, flight);
    KnownMore(s'.client, s'.client, flight[1..], m);
  }

  /** The answer that comes next has its operation, and is an error or of the kind expected. */
  lemma AnswerFits(s: State)
    requires Structure(s) && s.answers != []
    ensures var m := s.answers[0];
      var f := FindPending(s.client.pending, m.seqno);
      && f.Some?
      && IsAnswer(m)
      && (m.ErrorAnswer? || Expected(s.client.pending[f.value].detail, m))
      && Live(s.client, s.client.pending[f.value].detail)
      && (m.OpenAnswer? ==> m.handle < MAX_FILE_HANDLES)
  {
    var flight := Flight(s);
    assert flight[0] == s.answers[0];
    MatchedFinds(s.client.pending, flight, s.sent);
    var i := FindPending(s.client.pending, flight[0].seqno).value;
    assert Belongs(flight[0], s.client.pending[i]);
    assert MessageFits(s.client, s.client.pending[i], flight[0]);
  }

  /** The answer to a read request goes to complete_read. */
  lemma ReadAnswerTaken(s: State, w: World, i: nat)
    requires Structure(s) && s.answers != [] && s.answers[0].ReadAnswer?
    requires FindPending(s.client.pending, s.answers[0].seqno) == Some(i) && s.client.pending[i].detail.Reading?
    ensures AllLive(s.client) && AllRequests(s.client.out) && Enabled(s, TakeAnswer) && KnownHandles(s.client)
    ensures s.client.pending[i].detail.h in s.client.handles && s.client.seqno == s.sent
    ensures var s' := Step(s, w, TakeAnswer);
      && s'.client == CompleteRead(s.client, i, s.answers[0].data) && s'.sent == s.sent + Grown(s.client, s'.client)
      && s'.answers == s.answers[1..] && s'.server == s.server
  {
    AnswerFits(s);
    hide Matched, Kinds, OnePerHandle, CompleteWrite, CompleteRead, CompleteFindInput, CompleteLocate,
      CompleteExamineNext, Channels;
    assert Live(s.client, s.client.pending[i].detail);
  }

  lemma TakeReadStructure(s: State, w: World, i: nat)
    requires Structure(s) && s.answers != [] && s.sent + 1 < UINT32
    requires FindPending(s.client.pending, s.answers[0].seqno) == Some(i)
    requires s.client.pending[i].detail.Reading? && s.answers[0].ReadAnswer?
    ensures Structure(Step(s, w, TakeAnswer))
  {
    hide Structure, Matched, Kinds, OnePerHandle, Known, AllLive, ProcessAnswer, Step, Enabled;
    ReadAnswerTaken(s, w, i);
    var c, s', op := s.client, Step(s, w, TakeAnswer), s.client.pending[i];
    var Reading(h, count, got) := op.detail;
    var (hd, more, done) := TakeData(c.handles[h], count - Min(|got|, count), s.answers[0].data);
    assert hd.id == c.handles[h].id;
    if done {
      FinishStructure(s, s', i);
    } else {
      var got' := got + more;
      ContinueStructure(s, s', i, Op(c.seqno, op.packet, Reading(h, count, got')),
                        ReadRequestFor(c.seqno, hd, count - Min(|got'|, count)));
    }
  }

  lemma StructureNumber(s: State)
    requires Structure(s)
    ensures s.client.seqno == s.sent
  {
  }

  lemma TakeWriteStructure(s: State, w: World, i: nat)
    requires Structure(s) && s.answers != [] && s.sent + 1 < UINT32
    requires FindPending(s.client.pending, s.answers[0].seqno) == Some(i)
    requires s.client.pending[i].detail.Writing? && s.answers[0].WriteAnswer?
    ensures Structure(Step(s, w, TakeAnswer))
  {
    AnswerFits(s);
    var c, s' := s.client, Step(s, w, TakeAnswer);
    var op := c.pending[i];
    var Writing(h, data, source, length) := op.detail;
    assert s'.client == CompleteWrite(c, i);
    assert KnownHandles(c);
    StructureNumber(s);
    hide Structure, Matched, Kinds, OnePerHandle, Known, AllLive, ProcessAnswer;
    match NextChunk(data, source, length)
    case None => FinishStructure(s, s', i);
    case Some((at, n)) =>
      ContinueStructure(s, s', i, Op(c.seqno, op.packet, Writing(h, data, at, n)),
                        WriteRequest(c.seqno, c.handles[h].id, data[at..at + n]));
  }

  lemma TakeOpenStructure(s: State, w: World, i: nat)
    requires Structure(s) && s.answers != [] && s.sent + 1 < UINT32
    requires FindPending(s.client.pending, s.answers[0].seqno) == Some(i)
    requires s.client.pending[i].detail.OpeningFile? || s.client.pending[i].detail.OpeningLock?
    requires s.answers[0].OpenAnswer?
    ensures Structure(Step(s, w, TakeAnswer))
  {
    hide CompleteRead, CompleteWrite, CompleteExamineNext, Serve, ProcessPacket, Truncate, Matched, Kinds;
    AnswerFits(s);
    var c, m, s' := s.client, s.answers[0], Step(s, w, TakeAnswer);
    var op := c.pending[i];
    assert KnownHandles(c);
    StructureNumber(s);
    hide Structure, OnePerHandle, Known, AllLive;
    if op.detail.OpeningFile? && m.isDir {
      var between := s.(client := Unlink(c, i), answers := s.answers[1..]);
      FinishStructure(s, between, i);
      FreshUnnoticedSame(between.client, s'.client);
      PostStructure(between, s', CloseRequest(c.seqno, m.handle));
    } else {
      FinishStructure(s, s', i);
    }
  }

  lemma FreshUnnoticedSame(c: Client, d: Client)
    requires d.handles == c.handles
    ensures Unnoticed(c, d)
  {
  }

  lemma TakeOtherStructure(s: State, w: World, i: nat)
    requires Structure(s) && s.answers != []
    requires FindPending(s.client.pending, s.answers[0].seqno) == Some(i)
    requires s.answers[0].ErrorAnswer? || s.answers[0].FindNextAnswer?
    ensures Structure(Step(s, w, TakeAnswer))
  {
    AnswerFits(s);
    var c, s' := s.client, Step(s, w, TakeAnswer);
    assert KnownHandles(c);
    hide Structure, Matched, Kinds, OnePerHandle, Known, AllLive, Truncate;
    FinishStructure(s, s', i);
  }

  lemma AnswerStructure(s: State, w: World)
    requires Structure(s) && s.answers != [] && s.sent + 1 < UINT32
    ensures Structure(Step(s, w, TakeAnswer))
  {
    AnswerFits(s);
    var i := FindPending(s.client.pending, s.answers[0].seqno).value;
    var d := s.client.pending[i].detail;
    hide Structure, Step;
    if s.answers[0].ReadAnswer? {
      TakeReadStructure(s, w, i);
    } else if s.answers[0].WriteAnswer? {
      TakeWriteStructure(s, w, i);
    } else if s.answers[0].OpenAnswer? {
      TakeOpenStructure(s, w, i);
    } else {
      TakeOtherStructure(s, w, i);
    }
  }

  // ---------- replies ----------

  function LogPackets(log: seq<Reply>): (r: seq<nat>)
    ensures |r| == |log| && forall i :: 0 <= i < |r| ==> r[i] == log[i].packet
  {
    seq(|log|, i requires 0 <= i < |log| => log[i].packet)
  }

  function PendingPackets(pending: seq<Op>): (r: seq<nat>)
    ensures |r| == |pending| && forall i :: 0 <= i < |r| ==> r[i] == pending[i].packet
  {
    seq(|pending|, i requires 0 <= i < |pending| => pending[i].packet)
  }

  function Upto(n: nat): (r: seq<nat>)
    ensures |r| == n && forall i :: 0 <= i < n ==> r[i] == i
  {
    seq(n, i => i)
  }

  /** Every packet taken is in exactly one place: replied to, pending, or dropped. */
  ghost predicate RepliesConserved(s: State) {
    multiset(LogPackets(s.client.log)) + multiset(PendingPackets(s.client.pending)) + multiset(s.dropped)
      == multiset(Upto(s.taken))
  }

  lemma UptoNext(n: nat)
    ensures multiset(Upto(n + 1)) == multiset(Upto(n)) + multiset{n}
  {
    assert Upto(n + 1) == Upto(n) + [n];
    PutFirst(n, Upto(n));
  }

  lemma LogMore(log: seq<Reply>, r: Reply)
    ensures multiset(LogPackets(log + [r])) == multiset(LogPackets(log)) + multiset{r.packet}
  {
    assert LogPackets(log + [r]) == LogPackets(log) + [r.packet];
    PutFirst(r.packet, LogPackets(log));
  }

  lemma PendingMore(pending: seq<Op>, op: Op)
    ensures multiset(PendingPackets([op] + pending)) == multiset(PendingPackets(pending)) + multiset{op.packet}
  {
    assert PendingPackets([op] + pending) == [op.packet] + PendingPackets(pending);
    PutFirst(op.packet, PendingPackets(pending));
  }

  lemma PendingLess(pending: seq<Op>, i: nat)
    requires i < |pending|
    ensures multiset(PendingPackets(pending))
         == multiset(PendingPackets(pending[..i] + pending[i + 1..])) + multiset{pending[i].packet}
  {
    var ps := PendingPackets(pending);
    TakeOut(ps, i);
    assert PendingPackets(pending[..i] + pending[i + 1..]) == ps[..i] + ps[i + 1..];
  }

  /** A packet either is replied to at once, or becomes an operation, or is dropped. */
  lemma PacketIsPlaced(c: Client, packet: nat, p: Packet)
    requires Acceptable(c, p)
    ensures var d := ProcessPacket(c, packet, p);
      || (exists r :: d.log == c.log + [r] && r.packet == packet && d.pending == c.pending && !p.Die?)
      || (exists op :: d.pending == [op] + c.pending && op.packet == packet && d.log == c.log && !p.Die?)
      || (d.log == c.log && d.pending == c.pending && p.Die?)
  {
    var d := ProcessPacket(c, packet, p);
    hide BufferOverlap, SeekOffset, Normalize, AfterColon, LastSlash, Truncate;
    if !p.Die? {
      if |d.log| > |c.log| {
        var r := d.log[|c.log|];
        assert d.log == c.log + [r];
      } else {
        var op := d.pending[0];
        assert d.pending == [op] + c.pending;
      }
    }
  }

  lemma PacketCounted(s: State, w: World, p: Packet)
    requires Structure(s) && Enabled(s, TakePacket(p))
    ensures AllLive(s.client) && AllRequests(s.client.out) && Acceptable(s.client, p)
    ensures var s' := Step(s, w, TakePacket(p));
      && s'.client == ProcessPacket(s.client, s.taken, p) && s'.taken == s.taken + 1
      && s'.dropped == if p.Die? then s.dropped + [s.taken] else s.dropped
  {
    hide ProcessPacket, Matched, Kinds, Known, OnePerHandle;
  }

  lemma PacketConserves(s: State, w: World, p: Packet)
    requires Structure(s) && RepliesConserved(s) && Enabled(s, TakePacket(p))
    ensures RepliesConserved(Step(s, w, TakePacket(p)))
  {
    hide Structure, ProcessPacket, LogPackets, PendingPackets, Upto, Acceptable, Blocked, Step;
    PacketCounted(s, w, p);
    var s' := Step(s, w, TakePacket(p));
    var c, d := s.client, s'.client;
    PacketIsPlaced(c, s.taken, p);
    hide Enabled;
    OneMorePlaced(c, d, s.taken, p.Die?);
    if p.Die? {
      PutFirst(s.taken, s.dropped);
    }
  }

  /** One packet more is in the log, or waits, or is in neither. */
  lemma OneMorePlaced(c: Client, d: Client, packet: nat, neither: bool)
    requires
      || (exists r :: d.log == c.log + [r] && r.packet == packet && d.pending == c.pending && !neither)
      || (exists op :: d.pending == [op] + c.pending && op.packet == packet && d.log == c.log && !neither)
      || (d.log == c.log && d.pending == c.pending && neither)
    ensures multiset(LogPackets(d.log)) + multiset(PendingPackets(d.pending))
         == multiset(LogPackets(c.log)) + multiset(PendingPackets(c.pending))
            + if neither then multiset{} else multiset{packet}
    ensures multiset(Upto(packet + 1)) == multiset(Upto(packet)) + multiset{packet}
  {
    UptoNext(packet);
    if r :| d.log == c.log + [r] && r.packet == packet && d.pending == c.pending && !neither {
      LogMore(c.log, r);
    } else if op :| d.pending == [op] + c.pending && op.packet == packet && d.log == c.log && !neither {
      PendingMore(c.pending, op);
    }
  }

  /** An answer ends its operation with a reply to the operation's packet, or keeps the operation. */
  lemma AnswerIsPlaced(c: Client, m: Msg, i: nat)
    requires AllLive(c) && FindPending(c.pending, m.seqno) == Some(i)
    ensures var (d, broken) := ProcessAnswer(c, m);
      || (exists r :: d.log == c.log + [r] && r.packet == c.pending[i].packet
                      && d.pending == c.pending[..i] + c.pending[i + 1..])
      || (exists op :: d.pending == c.pending[i := op] && op.packet == c.pending[i].packet && d.log == c.log)
    ensures ProcessAnswer(c, m).1 <==> !m.ErrorAnswer? && !Expected(c.pending[i].detail, m)
  {
    var (d, broken) := ProcessAnswer(c, m);
    assert Live(c, c.pending[i].detail);
    hide TakeData, NextChunk, Truncate, AllLive;
    if |d.log| > |c.log| {
      var r := d.log[|c.log|];
      assert d.log == c.log + [r];
    } else {
      var op := d.pending[i];
      assert d.pending == c.pending[i := op];
    }
  }

  lemma AnswerConserves(s: State, w: World)
    requires Structure(s) && RepliesConserved(s) && s.answers != []
    ensures RepliesConserved(Step(s, w, TakeAnswer))
  {
    AnswerFits(s);
    var s' := Step(s, w, TakeAnswer);
    var c, d := s.client, s'.client;
    var i := FindPending(c.pending, s.answers[0].seqno).value;
    AnswerIsPlaced(c, s.answers[0], i);
    assert s'.taken == s.taken && s'.dropped == s.dropped;
    hide Structure, ProcessAnswer, Step;
    if |d.log| > |c.log| {
      var r :| d.log == c.log + [r] && r.packet == c.pending[i].packet;
      LogMore(c.log, r);
      PendingLess(c.pending, i);
    } else {
      var op :| d.pending == c.pending[i := op] && op.packet == c.pending[i].packet;
      assert PendingPackets(d.pending) == PendingPackets(c.pending);
    }
  }

  // ---------- runs ----------

  /** s' follows s by event e. */
  ghost predicate Next(s: State, w: World, e: Event, s': State) {
    Enabled(s, e) && AllLive(s.client) && AllRequests(s.client.out) && s' == Step(s, w, e)
  }

  ghost predicate IsRun(device: string, w: World, events: seq<Event>, states: seq<State>) {
    && |states| == |events| + 1
    && states[0] == StartState(device)
    && forall i :: 0 <= i < |events| ==> Next(states[i], w, events[i], states[i + 1])
  }

  /** Sequence numbers have not wrapped around. */
  predicate NoWrap(s: State) {
    s.sent + 1 < UINT32
  }

  lemma StartStructure(device: string)
    ensures Structure(StartState(device)) && RepliesConserved(StartState(device))
  {
    var s := StartState(device);
    assert Flight(s) == [];
    assert PendingNumbers([]) == FlightNumbers([]) == [];
    assert PendingPackets([]) == LogPackets([]) == Upto(0) == [];
  }

  lemma StepMatching(s: State, w: World, e: Event, s': State)
    requires Structure(s) && RepliesConserved(s) && NoWrap(s) && Next(s, w, e, s')
    ensures Structure(s') && RepliesConserved(s')
  {
    hide Structure, RepliesConserved;
    match e
    case TakePacket(p) =>
      PacketStructure(s, w, p);
      PacketConserves(s, w, p);
    case ServeNext(os) =>
      ServeStructure(s, w, os);
      ServeConserves(s, w, os);
    case TakeAnswer =>
      AnswerStructure(s, w);
      AnswerConserves(s, w);
  }

  lemma ServeConserves(s: State, w: World, os: OsResult)
    requires Structure(s) && RepliesConserved(s) && Enabled(s, ServeNext(os))
    ensures RepliesConserved(Step(s, w, ServeNext(os)))
  {
    hide Serve, Structure;
  }

  lemma SentGrows(s: State, w: World, e: Event, s': State)
    requires Next(s, w, e, s')
    ensures s.sent <= s'.sent
  {
    hide Serve, ProcessPacket, ProcessAnswer;
  }

  lemma {:induction false} RunMatching(device: string, w: World, events: seq<Event>, states: seq<State>, n: nat)
    requires IsRun(device, w, events, states) && n < |states| && NoWrap(states[n])
    ensures Structure(states[n]) && RepliesConserved(states[n])
  {
    hide Structure, RepliesConserved;
    if n == 0 {
      StartStructure(device);
    } else {
      assert Next(states[n - 1], w, events[n - 1], states[n]);
      SentGrows(states[n - 1], w, events[n - 1], states[n]);
      RunMatching(device, w, events, states, n - 1);
      StepMatching(states[n - 1], w, events[n - 1], states[n]);
    }
  }

  // ---------- the results ----------

  /** How many messages of the flight belong to op. */
  function CountFor(flight: seq<Msg>, op: Op): nat {
    if flight == [] then 0 else (if Belongs(flight[0], op) then 1 else 0) + CountFor(flight[1..], op)
  }

  lemma {:induction false} CountIsMultiplicity(flight: seq<Msg>, op: Op)
    ensures CountFor(flight, op) == multiset(FlightNumbers(flight))[op.seqno]
  {
    if flight == [] {
    } else {
      CountIsMultiplicity(flight[1..], op);
      NumbersTaken(flight);
    }
  }

  lemma {:induction false} IncreasingMultiplicity(flight: seq<Msg>, bound: nat, x: nat)
    requires Increasing(flight, bound)
    ensures multiset(FlightNumbers(flight))[x] <= 1
    ensures (forall i :: 0 <= i < |flight| ==> flight[i].seqno != x) ==> multiset(FlightNumbers(flight))[x] == 0
  {
    if flight == [] {
    } else {
      var rest := flight[1..];
      assert forall i :: 0 <= i < |rest| ==> rest[i] == flight[i + 1];
      IncreasingMultiplicity(rest, bound, x);
      NumbersTaken(flight);
    }
  }

  lemma MultiplicityTwo(s: seq<nat>, i: nat, j: nat)
    requires i < j < |s| && s[i] == s[j]
    ensures multiset(s)[s[i]] >= 2
  {
    assert s == s[..i] + [s[i]] + s[i + 1..j] + [s[j]] + s[j + 1..];
  }

  /**
   Requests and answers, in every reachable state short of a wrap-around:
   pending operations have different numbers, each has exactly one message in
   flight, which is its request, an error, or the kind of answer it expects; and
   every message in flight that is no close request has its operation.
   */
  lemma OneMessagePerOperation(device: string, w: World, events: seq<Event>, states: seq<State>, n: nat)
    requires IsRun(device, w, events, states) && n < |states| && NoWrap(states[n])
    ensures
      var c, flight := states[n].client, Flight(states[n]);
      && (forall i, j :: 0 <= i < j < |c.pending| ==> c.pending[i].seqno != c.pending[j].seqno)
      && (forall i :: 0 <= i < |c.pending| ==> CountFor(flight, c.pending[i]) == 1)
      && Kinds(c, flight)
      && (forall k :: 0 <= k < |flight| && !flight[k].CloseRequest? ==> FindPending(c.pending, flight[k].seqno).Some?)
  {
    var s := states[n];
    RunMatching(device, w, events, states, n);
    var c, flight := s.client, Flight(s);
    var ps, fs := PendingNumbers(c.pending), FlightNumbers(flight);
    assert multiset(ps) == multiset(fs) && Increasing(flight, s.sent) && Kinds(c, flight);
    hide Structure, Kinds;
    forall i, j | 0 <= i < j < |c.pending|
      ensures c.pending[i].seqno != c.pending[j].seqno
    {
      IncreasingMultiplicity(flight, s.sent, c.pending[i].seqno);
      if ps[i] == ps[j] {
        MultiplicityTwo(ps, i, j);
      }
    }
    forall i | 0 <= i < |c.pending|
      ensures CountFor(flight, c.pending[i]) == 1
    {
      CountIsMultiplicity(flight, c.pending[i]);
      IncreasingMultiplicity(flight, s.sent, c.pending[i].seqno);
      assert ps[i] in multiset(ps);
    }
    forall k | 0 <= k < |flight| && !flight[k].CloseRequest?
      ensures FindPending(c.pending, flight[k].seqno).Some?
    {
      NumberListed(flight, k);
      assert flight[k].seqno in multiset(ps);
      assert flight[k].seqno in ps;
    }
  }

  lemma {:induction false} NumberListed(flight: seq<Msg>, k: nat)
    requires k < |flight| && !flight[k].CloseRequest?
    ensures flight[k].seqno in FlightNumbers(flight)
  {
    if k == 0 {
    } else {
      NumberListed(flight[1..], k - 1);
    }
  }

  /** The operation at place i is the first with this number. */
  predicate FirstWith(pending: seq<Op>, seqno: nat, i: nat) {
    i < |pending| && pending[i].seqno == seqno && forall j :: 0 <= j < i ==> pending[j].seqno != seqno
  }

  lemma {:induction false} FindsFirst(pending: seq<Op>, seqno: nat, i: nat)
    requires FirstWith(pending, seqno, i)
    ensures FindPending(pending, seqno) == Some(i)
  {
    if i > 0 {
      var rest := pending[1..];
      assert forall j :: 0 <= j < |rest| ==> rest[j] == pending[j + 1];
      FindsFirst(rest, seqno, i - 1);
    }
  }

  /**
   A message ends the connection exactly if it answers no operation, and then
   nothing changes, or not in the kind that the operation waits for, and then
   the operation is over and its caller is told so.
   */
  lemma BrokenExactly(c: Client, m: Msg, i: nat)
    requires AllLive(c)
    ensures (forall j :: 0 <= j < |c.pending| ==> c.pending[j].seqno != m.seqno) ==> ProcessAnswer(c, m) == (c, true)
    ensures FirstWith(c.pending, m.seqno, i) ==>
      var (d, broken) := ProcessAnswer(c, m);
      && (broken <==> !m.ErrorAnswer? && !Expected(c.pending[i].detail, m))
      && (broken ==>
            && d.pending == c.pending[..i] + c.pending[i + 1..] && d.out == c.out && d.handles == c.handles
            && |d.log| == |c.log| + 1 && d.log[..|c.log|] == c.log
            && var r := d.log[|c.log|];
            r.packet == c.pending[i].packet && r.res1 == 0 && r.res2 == 218)
  {
    if FirstWith(c.pending, m.seqno, i) {
      FindsFirst(c.pending, m.seqno, i);
      assert Live(c, c.pending[i].detail);
    }
    hide AllLive, CompleteRead, CompleteWrite, CompleteFindInput, CompleteLocate, CompleteExamineNext, TranslateError;
  }

  /** No answer is ever unmatched or mismatched, so the file system never ends the connection. */
  lemma NoBrokenAnswer(device: string, w: World, events: seq<Event>, states: seq<State>, n: nat)
    requires IsRun(device, w, events, states) && n < |states| && NoWrap(states[n]) && states[n].answers != []
    requires AllLive(states[n].client)
    ensures !ProcessAnswer(states[n].client, states[n].answers[0]).1
  {
    RunMatching(device, w, events, states, n);
    AnswerFits(states[n]);
    var i := FindPending(states[n].client.pending, states[n].answers[0].seqno).value;
    AnswerIsPlaced(states[n].client, states[n].answers[0], i);
  }

  /** Every packet taken from the port is replied to once, or is the packet of one operation, or was an ACTION_DIE. */
  lemma EveryPacketOnce(device: string, w: World, events: seq<Event>, states: seq<State>, n: nat, packet: nat)
    requires IsRun(device, w, events, states) && n < |states| && NoWrap(states[n])
    requires packet < states[n].taken
    ensures var s := states[n];
      multiset(LogPackets(s.client.log))[packet] + multiset(PendingPackets(s.client.pending))[packet]
        + multiset(s.dropped)[packet] == 1
  {
    RunMatching(device, w, events, states, n);
    UptoOnce(states[n].taken, packet);
  }

  lemma {:induction false} UptoOnce(n: nat, x: nat)
    ensures multiset(Upto(n))[x] == if x < n then 1 else 0
  {
    if n == 0 {
    } else {
      UptoOnce(n - 1, x);
      UptoNext(n - 1);
    }
  }
}
