/**
 The system of client, channels and server refines the plain file system:
 what it tells its callers is what a file system without buffer, messages or
 server would have told them.
 */
module FsRefinement {
  import opened Base
  import opened RemoteFs
  import opened FsSystem
  import opened FsMatching
  import opened FsOwnership
  import opened Reference
  import opened FsContent

  // ---------- reading, on one handle ----------

  lemma JoinSlices(data: seq<Byte>, a: nat, b: nat, c: nat)
    requires a <= b <= c <= |data|
    ensures data[a..b] + data[b..c] == data[a..c]
  {
  }

  /** What ServeFromBuffer does where the buffer is a piece of the file. */
  lemma BufferState(hd: Handle, data: seq<Byte>, count: nat)
    requires hd.offset <= |data| < 0x8000_0000 && hd.bufferStart + |hd.buffer| <= |data|
    requires hd.buffer == data[hd.bufferStart..hd.bufferStart + |hd.buffer|]
    ensures var (hd', got, all) := ServeFromBuffer(hd, count);
      var to := hd.offset + |got|;
      && to <= |data| && |got| <= count
      && hd' == hd.(offset := to) && got == data[hd.offset..to]
      && (all ==> |got| == count) && (!all ==> got == [] || |got| < count)
  {
    hide ServeFromBuffer;
    ServedIs(hd, count);
    var end := hd.bufferStart + |hd.buffer|;
    if hd.bufferStart <= hd.offset < end {
      var k, at := Min(end - hd.offset, count), hd.offset - hd.bufferStart;
      SubSlice(data, hd.bufferStart, end, at, at + k);
    }
  }

  /** What the read buffer gives is what the file has at that position. */
  lemma BufferServes(hd: Handle, p: Plain, data: seq<Byte>, h: nat, count: nat)
    requires FileGood(hd, p, data, None) && |data| < 0x8000_0000
    ensures var (hd', got, all) := ServeFromBuffer(hd, count);
      && hd' == hd.(offset := hd'.offset)
      && (all ==> got == ReadAt(data, p.pos, count) && |got| == count
                  && FileGood(hd', p.(pos := p.pos + |got|), data, None))
      && (!all ==> FileGood(hd', p, data, Some(Reading(h, count, got))))
  {
    BufferState(hd, data, count);
    hide ServeFromBuffer;
  }

  /** A read has its bytes up to to: the position of its caller follows. */
  lemma ReadEnds(hd: Handle, p: Plain, data: seq<Byte>, got: seq<Byte>, count: nat, to: nat, end: nat)
    requires p.pos <= to <= end <= |data| && end - to <= BUFFER_SIZE && got == data[p.pos..to] && hd.size == |data|
    requires to - p.pos == count || (to - p.pos <= count && to == |data|)
    ensures got == ReadAt(data, p.pos, count)
    ensures FileGood(hd.(offset := to, bufferStart := to, buffer := data[to..end]), p.(pos := p.pos + |got|), data,
                     None)
  {
  }

  /** An answer brings a read forward by a piece of the file, or completes it. */
  lemma DataTaken(hd: Handle, p: Plain, data: seq<Byte>, h: nat, count: nat, got: seq<Byte>, piece: seq<Byte>)
    requires FileGood(hd, p, data, Some(Reading(h, count, got))) && DataFits(data, hd.offset, piece)
    requires |data| < 0x8000_0000
    ensures var (hd', more, done) := TakeData(hd, count - Min(|got|, count), piece);
      && hd' == hd.(offset := hd'.offset, bufferStart := hd'.bufferStart, buffer := hd'.buffer)
      && (done ==> got + more == ReadAt(data, p.pos, count)
                   && FileGood(hd', p.(pos := p.pos + |got + more|), data, None))
      && (!done ==> FileGood(hd', p, data, Some(Reading(h, count, got + more))))
  {
    hide FileGood, TakeData, ReadAt;
    ReadingFacts(hd, p, data, h, count, got);
    var left, end := count - |got|, hd.offset + |piece|;
    var k := Min(left, |piece|);
    var to, all := hd.offset + k, got + piece[..k];
    TakenState(hd, data, left, piece);
    JoinSlices(data, p.pos, hd.offset, to);
    if k == left || piece == [] {
      ReadEnds(hd, p, data, all, count, to, end);
    } else {
      ReadGoesOn(hd, p, data, h, count, got, all, to);
    }
  }

  lemma ReadingFacts(hd: Handle, p: Plain, data: seq<Byte>, h: nat, count: nat, got: seq<Byte>)
    requires FileGood(hd, p, data, Some(Reading(h, count, got)))
    ensures |got| <= count && hd.size == |data| && p.pos <= hd.offset <= |data| && |got| == hd.offset - p.pos
    ensures got == data[p.pos..hd.offset]
  {
  }

  lemma TakenState(hd: Handle, data: seq<Byte>, left: nat, piece: seq<Byte>)
    requires DataFits(data, hd.offset, piece) && |data| < 0x8000_0000
    ensures var k := Min(left, |piece|);
      var to := hd.offset + k;
      && piece[..k] == data[hd.offset..to]
      && TakeData(hd, left, piece) == if k == left || piece == []
           then (hd.(offset := to, bufferStart := to, buffer := data[to..hd.offset + |piece|]), piece[..k], true)
           else (hd.(offset := to), piece[..k], false)
  {
    var k, end := Min(left, |piece|), hd.offset + |piece|;
    PieceSplits(data, hd.offset, end, k);
    assert piece == data[hd.offset..end];
  }

  lemma PieceSplits(data: seq<Byte>, a: nat, b: nat, k: nat)
    requires a <= b <= |data| && k <= b - a
    ensures data[a..b][..k] == data[a..a + k] && data[a..b][k..] == data[a + k..b]
  {
    SubSlice(data, a, b, 0, k);
    SubSlice(data, a, b, k, b - a);
  }

  lemma ReadGoesOn(hd: Handle, p: Plain, data: seq<Byte>, h: nat, count: nat, got: seq<Byte>, all: seq<Byte>, to: nat)
    requires FileGood(hd, p, data, Some(Reading(h, count, got)))
    requires hd.offset <= to <= |data| && all == data[p.pos..to] && |all| < count
    ensures FileGood(hd.(offset := to), p, data, Some(Reading(h, count, all)))
  {
  }

  // ---------- what a reply and a change of one handle amount to ----------

  /** The handle that a reply is about. */
  function About(what: What): Option<nat> {
    match what
    case Opened(h, _, _) => Some(h)
    case GotData(h, _, _, _) => Some(h)
    case Sought(h, _, _) => Some(h)
    case Listed(h, _, _, _) => Some(h)
    case ListFailed(h) => Some(h)
    case ListEnd(h) => Some(h)
    case _ => None
  }

  lemma AfterChangesOne(w: World, plain: Plains, what: What, h: nat, handles: Handles, hd: Handle)
    requires About(what) == Some(h) || About(what) == None
    ensures SameButOne(handles, handles[h := hd], plain, After(w, plain, what), h)
    ensures SameButOne(handles, handles - {h}, plain, After(w, plain, what), h)
    ensures SameButOne(handles, handles, plain, After(w, plain, what), h)
  {
    var after := After(w, plain, what);
    assert handles[h := hd] - {h} == handles - {h} == (handles - {h}) - {h};
    assert plain - {h} == after - {h};
  }

  lemma NotBusyNoWork(c: Client, h: nat)
    requires !Busy(c, h)
    ensures WorkOn(c.pending, h) == None
  {
    WorkOnNone(c.pending, h);
  }

  /** Handle h is read: at once from the buffer, or an operation begins. */
  lemma BufferedHandle(handles: Handles, plain: Plains, slots: seq<Slot>, w: World, pending: seq<Op>, pending': seq<Op>,
                       h: nat, count: nat, packet: nat)
    requires h in handles && WorldOk(w) && WorkOn(pending, h) == None
    requires HandleGood(handles, plain, slots, w, pending, h)
    ensures var (hd, got, all) := ServeFromBuffer(handles[h], count);
      var what := GotData(h, count, got, true);
      && (all ==> Told(w, plain, Reply(packet, count, 0, what))
                  && HandleGood(handles[h := hd], After(w, plain, what), slots, w, pending, h))
      && (!all && WorkOn(pending', h) == Some(Reading(h, count, got)) ==>
            HandleGood(handles[h := hd], plain, slots, w, pending', h))
  {
    var (hd, got, all) := ServeFromBuffer(handles[h], count);
    if IsFile(w, plain, h) && SlotOf(handles, slots, h).Some? {
      var p, data := plain[h], w[plain[h].target].data;
      assert p.kind == handles[h].kind && FileGood(handles[h], p, data, None);
      BufferServes(handles[h], p, data, h, count);
      hide WorkOn, ReadAt, FileGood, ServeFromBuffer;
    } else {
      hide WorkOn, ReadAt, FileGood;
      assert hd == handles[h].(offset := hd.offset);
    }
  }

  /** An answer reaches a read on handle h. */
  lemma DeliveredHandle(handles: Handles, plain: Plains, slots: seq<Slot>, w: World, pending: seq<Op>,
                        pending': seq<Op>, h: nat, count: nat, got: seq<Byte>, m: Msg, packet: nat)
    requires h in handles && WorldOk(w) && WorkOn(pending, h) == Some(Reading(h, count, got)) && m.ReadAnswer?
    requires HandleGood(handles, plain, slots, w, pending, h)
    requires MessageGood(handles, plain, slots, w, Reading(h, count, got), m)
    ensures var (hd, more, done) := TakeData(handles[h], count - Min(|got|, count), m.data);
      var got' := got + more;
      var what := GotData(h, count, got', true);
      && (done && WorkOn(pending', h) == None ==>
            && Told(w, plain, Reply(packet, |got'|, 0, what))
            && HandleGood(handles[h := hd], After(w, plain, what), slots, w, pending', h))
      && (!done && WorkOn(pending', h) == Some(Reading(h, count, got')) ==>
            HandleGood(handles[h := hd], plain, slots, w, pending', h))
  {
    var (hd, more, done) := TakeData(handles[h], count - Min(|got|, count), m.data);
    if IsFile(w, plain, h) && SlotOf(handles, slots, h).Some? {
      var p, data := plain[h], w[plain[h].target].data;
      assert p.kind == handles[h].kind && FileGood(handles[h], p, data, Some(Reading(h, count, got)));
      DataTaken(handles[h], p, data, h, count, got, m.data);
      hide WorkOn, ReadAt, FileGood, TakeData, DataFits;
    } else {
      hide WorkOn, ReadAt, FileGood;
      assert hd == handles[h].(offset := hd.offset, bufferStart := hd.bufferStart, buffer := hd.buffer);
      hide TakeData, DataFits;
    }
  }

  /** A read on handle h fails: its caller has the bytes that came before. */
  lemma FailedReadHandle(handles: Handles, plain: Plains, slots: seq<Slot>, w: World, pending: seq<Op>,
                         pending': seq<Op>, h: nat, count: nat, got: seq<Byte>, m: Msg, r: Reply)
    requires h in handles && WorkOn(pending, h) == Some(Reading(h, count, got)) && WorkOn(pending', h) == None
    requires MessageGood(handles, plain, slots, w, Reading(h, count, got), m) && m.ErrorAnswer?
    requires r.res1 == DOSFALSE && r.res2 == TranslateError(m.code)
    requires HandleGood(handles, plain, slots, w, pending, h) && r.what == GotData(h, count, got, false)
    ensures Told(w, plain, r) && HandleGood(handles, After(w, plain, r.what), slots, w, pending', h)
  {
    if IsFile(w, plain, h) && SlotOf(handles, slots, h).Some? {
      var p, data := plain[h], w[plain[h].target].data;
      assert p.kind == handles[h].kind && FileGood(handles[h], p, data, Some(Reading(h, count, got)));
      FailedReadFile(handles[h], p, data, h, count, got);
      hide WorkOn, ReadAt, FileGood;
    } else {
      hide WorkOn, ReadAt, FileGood;
    }
  }

  lemma FailedReadFile(hd: Handle, p: Plain, data: seq<Byte>, h: nat, count: nat, got: seq<Byte>)
    requires FileGood(hd, p, data, Some(Reading(h, count, got)))
    ensures got <= ReadAt(data, p.pos, count)
    ensures FileGood(hd, p.(pos := p.pos + |got|), data, None)
  {
    var all := ReadAt(data, p.pos, count);
    assert |got| <= |all| && forall k :: 0 <= k < |got| ==> got[k] == data[p.pos + k] == all[k];
  }

  /** Handle h is sought. */
  lemma SoughtHandle(handles: Handles, plain: Plains, slots: seq<Slot>, w: World,
                     pending: seq<Op>, h: nat, amount: int, mode: int, packet: nat)
    requires h in handles && WorldOk(w) && WorkOn(pending, h) == None && -0x8000_0000 <= amount < 0x8000_0000
    requires HandleGood(handles, plain, slots, w, pending, h)
    ensures var hd := handles[h];
      var what := Sought(h, mode, amount);
      && Told(w, plain, Reply(packet, hd.offset, 0, what))
      && HandleGood(handles[h := hd.(offset := SeekOffset(hd.offset, hd.size, amount, mode))], After(w, plain, what),
                    slots, w, pending, h)
  {
    hide WorkOn;
    var hd := handles[h];
    if IsFile(w, plain, h) && SlotOf(handles, slots, h).Some? {
      SeekIsPlain(hd.size, hd.offset, amount, mode);
      assert 0 <= SeekTo(hd.size, hd.offset, amount, mode) <= hd.size;
    }
    hide SeekOffset, SeekTo;
  }

  /** Handle h starts to be listed, or goes on. */
  lemma ListingHandle(handles: Handles, plain: Plains, slots: seq<Slot>, w: World,
                      pending: seq<Op>, pending': seq<Op>, h: nat, seqno: nat)
    requires h in handles && WorkOn(pending', h) == Some(Enumerating(h))
    requires WorkOn(pending, h) == None || SlotOf(handles, slots, h) == None
    requires HandleGood(handles, plain, slots, w, pending, h)
    ensures var hd := handles[h].(enumerating := true);
      && HandleGood(handles[h := hd], plain, slots, w, pending', h)
      && MessageGood(handles[h := hd], plain, slots, w, Enumerating(h),
                     FindNextRequest(seqno, hd.id, !handles[h].enumerating))
  {
    hide WorkOn;
  }

  /** An answer tells the next entry of handle h, that it cannot be told, or that there is none. */
  lemma ListedHandle(handles: Handles, plain: Plains, slots: seq<Slot>, w: World,
                     pending: seq<Op>, pending': seq<Op>, h: nat, m: Msg, r: Reply)
    requires h in handles && WorkOn(pending, h) == Some(Enumerating(h))
    requires WorkOn(pending', h) == None || SlotOf(handles, slots, h) == None
    requires HandleGood(handles, plain, slots, w, pending, h)
    requires MessageGood(handles, plain, slots, w, Enumerating(h), m)
    requires (m.ErrorAnswer? && r.what == ListFailed(h) && r.res1 == DOSFALSE && r.res2 == TranslateError(m.code))
      || (m.FindNextAnswer? && m.end && r.what == ListEnd(h) && r.res1 == DOSFALSE && r.res2 == ERROR_NO_MORE_ENTRIES)
      || (m.FindNextAnswer? && !m.end && r.what == Listed(h, Truncate(m.name, PATH_MAX - 2), m.isDir, m.size)
          && r.res1 == DOSTRUE && r.res2 == 0)
    ensures Told(w, plain, r)
    ensures var handles' := if r.what.ListEnd? then handles[h := handles[h].(enumerating := false)] else handles;
      HandleGood(handles', After(w, plain, r.what), slots, w, pending', h)
  {
    hide WorkOn, Truncate;
  }

  /** An opened handle is what its answer said. */
  lemma OpenedHandle(c: Client, plain: Plains, slots: seq<Slot>, w: World, pending': seq<Op>,
                     m: Msg, kind: Kind, path: string, target: string, packet: nat)
    requires PlainOk(plain, c.next) && OpenFits(slots, w, target, m) && m.OpenAnswer? && m.handle < |slots|
    requires kind == (if m.isDir then DirKind else FileKind) && WorkOn(pending', c.next) == None
    ensures var what := Opened(c.next, kind, target);
      && Told(w, plain, Reply(packet, DOSTRUE, 0, what))
      && HandleGood(c.handles[c.next := NewHandle(m.handle, kind, m.size, path, target)], After(w, plain, what), slots,
                    w, pending', c.next)
  {
    hide WorkOn, Truncate;
  }

  // ---------- the steps of the client that take a packet ----------

  ghost function Now(s: State, w: World): Plains {
    if Replay(w, s.client.log).Some? then Replay(w, s.client.log).value else map[]
  }

  /** A reply was right, and the parts agree after it. */
  lemma RepliedContent(s: State, s': State, w: World, r: Reply)
    requires Replay(w, s.client.log).Some? && s'.client.log == s.client.log + [r] && Told(w, Now(s, w), r)
    requires Good(s'.client, Flight(s'), s'.server.slots, w, After(w, Now(s, w), r.what))
    ensures Content(s', w)
  {
    hide Good, Told, After;
    ReplayMore(w, s.client.log, r);
  }

  lemma QuietContent(s: State, s': State, w: World)
    requires Replay(w, s.client.log).Some? && s'.client.log == s.client.log
    requires Good(s'.client, Flight(s'), s'.server.slots, w, Now(s, w))
    ensures Content(s', w)
  {
  }

  /** What the invariant says before a packet that uses handle h. */
  lemma ContentAt(s: State, w: World, h: nat)
    requires Content(s, w)
    ensures Replay(w, s.client.log).Some?
    ensures Good(s.client, Flight(s), s.server.slots, w, Now(s, w))
    ensures PlainOk(Now(s, w), s.client.next)
    ensures HandleGood(s.client.handles, Now(s, w), s.server.slots, w, s.client.pending, h)
  {
    hide HandleGood, MessagesGood, PlainOk;
  }

  /** What taking a read comes to. */
  lemma ReadStep(s: State, w: World, h: nat, count: nat)
    requires Structure(s) && Enabled(s, TakePacket(Read(h, count)))
    ensures AllLive(s.client) && AllRequests(s.client.out) && KnownHandles(s.client) && !Busy(s.client, h)
    ensures h in s.client.handles && Matched(s.client.pending, Flight(s), s.sent) && s.client.seqno == s.sent
    ensures var s', c := Step(s, w, TakePacket(Read(h, count))), s.client;
      && s'.client == ActionRead(c, s.taken, h, count) && s'.answers == s.answers && s'.server == s.server
      && s'.sent == s.sent + Grown(c, s'.client)
  {
    hide Matched, Kinds, OnePerHandle, ActionRead, AllLive;
  }

  lemma ReadContent(s: State, w: World, h: nat, count: nat)
    requires Structure(s) && Content(s, w) && WorldOk(w)
    requires Enabled(s, TakePacket(Read(h, count))) && s.sent + 1 < UINT32
    ensures Content(Step(s, w, TakePacket(Read(h, count))), w)
  {
    hide Structure, Matched, Content, Good, HandleGood, Told, After, WorldOk, Busy, SameButOne, WorkOn, ServeFromBuffer,
      KnownHandles, Enabled, Step, AllLive, AllRequests;
    ReadStep(s, w, h, count);
    var s', c, plain, slots, flight := Step(s, w, TakePacket(Read(h, count))), s.client, Now(s, w), s.server.slots,
        Flight(s);
    var d := s'.client;
    var (hd, got, all) := ServeFromBuffer(c.handles[h], count);
    var what := GotData(h, count, got, true);
    ContentAt(s, w, h);
    NotBusyNoWork(c, h);
    NotBusyUnheeded(c, plain, h);
    NotBusyUnheeded(c, After(w, plain, what), h);
    BufferedHandle(c.handles, plain, slots, w, c.pending, d.pending, h, count, s.taken);
    AfterChangesOne(w, plain, if all then what else Other, h, c.handles, hd);
    if all {
      assert Flight(s') == flight;
      PlainGrows(w, plain, what, h, c);
      LocalGood(c, d, flight, flight, slots, w, plain, After(w, plain, what), h);
      RepliedContent(s, s', w, Reply(s.taken, count, 0, what));
    } else {
      var op, m := Op(c.seqno, s.taken, Reading(h, count, got)), ReadRequestFor(c.seqno, hd, count - Min(|got|, count));
      assert d.pending == [op] + c.pending && Flight(s') == flight + [m];
      FirstWork(op, c.pending, h);
      AfterOther(w, plain);
      BeginGood(c, d, flight, slots, w, plain, h, op, m, s.sent);
      QuietContent(s, s', w);
    }
  }

  lemma NotBusyUnheeded(c: Client, plain: Plains, h: nat)
    requires !Busy(c, h)
    ensures Unheeded(c.pending, plain, h)
  {
  }

  lemma FirstWork(op: Op, pending: seq<Op>, h: nat)
    requires HandleOf(op.detail) == Some(h)
    ensures WorkOn([op] + pending, h) == Some(op.detail)
  {
  }

  lemma AfterOther(w: World, plain: Plains)
    ensures After(w, plain, Other) == plain
  {
  }

  lemma PlainGrows(w: World, plain: Plains, what: What, h: nat, c: Client)
    requires PlainOk(plain, c.next) && KnownHandles(c) && h in c.handles && About(what) == Some(h)
    ensures PlainOk(After(w, plain, what), c.next)
  {
    assert forall g <- After(w, plain, what) :: g in plain || g == h;
  }

  lemma SeekContent(s: State, w: World, h: nat, amount: int, mode: int)
    requires Structure(s) && Content(s, w) && WorldOk(w) && Enabled(s, TakePacket(Seek(h, amount, mode)))
    ensures Content(Step(s, w, TakePacket(Seek(h, amount, mode))), w)
  {
    var s', c, plain, slots, flight := Step(s, w, TakePacket(Seek(h, amount, mode))), s.client, Now(s, w),
        s.server.slots, Flight(s);
    var d, hd := s'.client, c.handles[h];
    assert KnownHandles(c) && !Busy(c, h) && -0x8000_0000 <= amount < 0x8000_0000;
    ContentAt(s, w, h);
    NotBusyNoWork(c, h);
    assert Flight(s') == flight;
    hide Structure, Content, Good, HandleGood, Told, After, WorldOk, Busy, SameButOne, WorkOn, KnownHandles,
      SeekOffset, PlainOk;
    var what := Sought(h, mode, amount);
    SoughtHandle(c.handles, plain, slots, w, c.pending, h, amount, mode, s.taken);
    AfterChangesOne(w, plain, what, h, c.handles, d.handles[h]);
    PlainGrows(w, plain, what, h, c);
    LocalGood(c, d, flight, flight, slots, w, plain, After(w, plain, what), h);
    RepliedContent(s, s', w, Reply(s.taken, hd.offset, 0, what));
  }

  /** The root has no handle of its own in the plain file system. */
  lemma RootUnfollowed(s: State, w: World)
    requires Structure(s) && Content(s, w)
    ensures 0 !in Now(s, w) && SlotOf(s.client.handles, s.server.slots, 0) == None
  {
    ContentAt(s, w, 0);
    assert KnownHandles(s.client) && SlotOf(s.client.handles, s.server.slots, 0) == None;
  }

  lemma ExamineContent(s: State, w: World, h: nat)
    requires Structure(s) && Content(s, w) && Enabled(s, TakePacket(ExamineNext(h))) && s.sent + 1 < UINT32
    ensures Content(Step(s, w, TakePacket(ExamineNext(h))), w)
  {
    var s', c, plain, slots, flight := Step(s, w, TakePacket(ExamineNext(h))), s.client, Now(s, w), s.server.slots,
        Flight(s);
    var d, hd := s'.client, c.handles[h];
    assert Matched(c.pending, flight, s.sent) && c.seqno == s.sent;
    ContentAt(s, w, h);
    RootUnfollowed(s, w);
    BusyOrJoins(c, ExamineNext(h));
    if h != 0 {
      NotBusyNoWork(c, h);
    }
    var op, m := Op(c.seqno, s.taken, Enumerating(h)), FindNextRequest(c.seqno, hd.id, !hd.enumerating);
    assert Flight(s') == flight + [m] && d.pending == [op] + c.pending;
    assert d.handles == c.handles[h := hd.(enumerating := true)];
    hide Structure, Matched, Content, Good, HandleGood, MessageGood, Busy, SameButOne, PlainOk;
    ListingHandle(c.handles, plain, slots, w, c.pending, d.pending, h, c.seqno);
    AfterChangesOne(w, plain, Other, h, c.handles, d.handles[h]);
    AfterOther(w, plain);
    hide WorkOn;
    BeginGood(c, d, flight, slots, w, plain, h, op, m, s.sent);
    QuietContent(s, s', w);
  }

  lemma WriteContent(s: State, w: World, h: nat, data: seq<Byte>)
    requires Structure(s) && Content(s, w) && Enabled(s, TakePacket(Write(h, data))) && s.sent + 1 < UINT32
    ensures Content(Step(s, w, TakePacket(Write(h, data))), w)
  {
    var s', c, plain, slots, flight := Step(s, w, TakePacket(Write(h, data))), s.client, Now(s, w), s.server.slots,
        Flight(s);
    var d, n := s'.client, Min(|data|, BUFFER_SIZE);
    assert Matched(c.pending, flight, s.sent) && c.seqno == s.sent && !Busy(c, h);
    ContentAt(s, w, h);
    NotBusyNoWork(c, h);
    var op, m := Op(c.seqno, s.taken, Writing(h, data, 0, n)), WriteRequest(c.seqno, c.handles[h].id, data[..n]);
    assert Flight(s') == flight + [m] && d.pending == [op] + c.pending && WorkOn(d.pending, h) == Some(op.detail);
    hide Structure, Matched, Content, Good, Busy, SameButOne, PlainOk, WorkOn;
    WorkGood(c.handles, plain, slots, w, c.pending, d.pending, h);
    AfterChangesOne(w, plain, Other, h, c.handles, c.handles[h]);
    AfterOther(w, plain);
    hide HandleGood;
    BeginGood(c, d, flight, slots, w, plain, h, op, m, s.sent);
    QuietContent(s, s', w);
  }

  /** An operation that is neither a read nor a listing is none to its handle. */
  lemma WorkGood(handles: Handles, plain: Plains, slots: seq<Slot>,
                 w: World, pending: seq<Op>, pending': seq<Op>, h: nat)
    requires WorkOn(pending, h) == None || (WorkOn(pending, h).Some? && WorkOn(pending, h).value.Writing?)
    requires WorkOn(pending', h) == None || (WorkOn(pending', h).Some? && WorkOn(pending', h).value.Writing?)
    requires HandleGood(handles, plain, slots, w, pending, h)
    ensures HandleGood(handles, plain, slots, w, pending', h)
  {
    hide WorkOn, Shows;
  }

  lemma FreshNotBusy(c: Client)
    requires AllLive(c) && KnownHandles(c)
    ensures !Busy(c, c.next)
  {
    forall i | 0 <= i < |c.pending|
      ensures HandleOf(c.pending[i].detail) != Some(c.next)
    {
      assert Live(c, c.pending[i].detail);
    }
  }

  lemma FreshGood(c: Client, plain: Plains, slots: seq<Slot>, w: World, hd: Handle)
    requires PlainOk(plain, c.next) && hd.id >= |slots|
    ensures HandleGood(c.handles[c.next := hd], plain, slots, w, c.pending, c.next)
  {
  }

  /** A packet that only asks to open something. */
  lemma OpenContent(s: State, s': State, w: World, op: Op, m: Msg)
    requires Structure(s) && Content(s, w) && s'.answers == s.answers && s'.server == s.server
    requires s'.client == s.client.(pending := [op] + s.client.pending, out := s.client.out + [m],
                                    seqno := s'.client.seqno)
    requires m.OpenRequest? && m.seqno == op.seqno == s.sent && (op.detail.OpeningFile? || op.detail.OpeningLock?)
    ensures Content(s', w)
  {
    var c, d, plain, slots, flight := s.client, s'.client, Now(s, w), s.server.slots, Flight(s);
    ContentAt(s, w, c.next);
    assert KnownHandles(c) && Matched(c.pending, flight, s.sent);
    FreshNotBusy(c);
    assert Flight(s') == flight + [m];
    assert d.pending[1..] == c.pending;
    assert WorkOn(d.pending, c.next) == WorkOn(c.pending, c.next);
    hide Structure, Matched, Content, Good, Busy, WorkOn, PlainOk, HandleShows, SlotOf;
    BeginGood(c, d, flight, slots, w, plain, c.next, op, m, s.sent);
    QuietContent(s, s', w);
  }

  /** A reply without a message to the server, about the handle that is made next or about none that is followed. */
  predicate AtOnce(r: Reply, next: nat) {
    match r.what
    case RootLock(h) => h == next && r.res1 == DOSTRUE && r.res2 == 0
    case InputOpened(h) => h == next && r.res1 == DOSTRUE && r.res2 == 0
    case OutputOpened(h) => h == next && r.res1 == DOSTRUE && r.res2 == 0
    case NoOutput => r.res1 == DOSFALSE && r.res2 == 0
    case RootGiven => r.res1 == DOSTRUE && r.res2 == 0
    case NoParent => r.res1 == DOSFALSE && r.res2 == ERROR_OBJECT_NOT_FOUND
    case Freed(_) => r.res1 == DOSTRUE && r.res2 == 0
    case Other => true
    case _ => false
  }

  /** A packet that is replied to at once, and at most makes a handle that is no server slot. */
  lemma LocalContent(s: State, s': State, w: World, hd: Option<Handle>, r: Reply)
    requires Structure(s) && Content(s, w) && s'.answers == s.answers && s'.server == s.server
    requires AtOnce(r, s.client.next)
    requires hd.Some? ==> hd.value.id >= MAX_FILE_HANDLES
    requires s'.client ==
      ReplyTo(if hd.Some? then AddHandle(s.client, hd.value) else s.client, r.packet, r.res1, r.res2, r.what)
    ensures Content(s', w)
  {
    var c, d, plain, slots, flight := s.client, s'.client, Now(s, w), s.server.slots, Flight(s);
    ContentAt(s, w, c.next);
    assert KnownHandles(c) && |slots| == MAX_FILE_HANDLES;
    FreshNotBusy(c);
    assert Flight(s') == flight;
    if hd.Some? {
      FreshGood(c, plain, slots, w, hd.value);
    }
    AfterChangesOne(w, plain, Other, c.next, c.handles, if hd.Some? then hd.value else StartClient("").handles[0]);
    assert PlainOk(plain, d.next);
    hide Structure, Content, Good, Busy, HandleGood, SameButOne, PlainOk;
    LocalGood(c, d, flight, flight, slots, w, plain, plain, c.next);
    RepliedContent(s, s', w, r);
  }

  lemma FreeContent(s: State, w: World, h: nat)
    requires Structure(s) && Content(s, w) && Enabled(s, TakePacket(Free(h)))
    ensures Content(Step(s, w, TakePacket(Free(h))), w)
  {
    var s', c, plain, slots, flight := Step(s, w, TakePacket(Free(h))), s.client, Now(s, w), s.server.slots, Flight(s);
    var d, hd := s'.client, c.handles[h];
    if hd.kind == DeviceKind {
      LocalContent(s, s', w, None, Reply(s.taken, DOSTRUE, 0, Freed(h)));
    } else {
      var m := CloseRequest(c.seqno, hd.id);
      ContentAt(s, w, h);
      assert !Busy(c, h);
      var flight' := Flight(s');
      assert flight' == flight + [m] && flight'[|flight|] == m;
      AfterChangesOne(w, plain, Other, h, c.handles, hd);
      hide Structure, Content, Good, Busy, SameButOne, PlainOk;
      LocalGood(c, d, flight, flight', slots, w, plain, plain, h);
      hide HandleGood;
      RepliedContent(s, s', w, Reply(s.taken, DOSTRUE, 0, Freed(h)));
    }
  }

  lemma FindContent(s: State, w: World, p: Packet)
    requires p.FindInput? || p.FindOutput?
    requires Structure(s) && Content(s, w) && Enabled(s, TakePacket(p)) && s.sent + 1 < UINT32
    ensures Content(Step(s, w, TakePacket(p)), w)
  {
    var c, s' := s.client, Step(s, w, TakePacket(p));
    assert c.seqno == s.sent;
    hide Structure, Content, Busy, AllLive, AfterColon, Truncate, KnownHandles;
    var target := AfterColon(p.name).0;
    if p.FindOutput? {
      if target == VIRTUAL_OUTPUT_FILE {
        LocalContent(s, s', w, Some(NewHandle(VIRTUAL_OUTPUT_ID, OutputKind, 0, p.name, target)),
                     Reply(s.taken, DOSTRUE, 0, OutputOpened(c.next)));
      } else {
        LocalContent(s, s', w, None, Reply(s.taken, DOSFALSE, 0, NoOutput));
      }
    } else if target == VIRTUAL_INPUT_FILE {
      LocalContent(s, s', w, Some(NewHandle(VIRTUAL_INPUT_ID, InputKind, 0, p.name, target)),
                   Reply(s.taken, DOSTRUE, 0, InputOpened(c.next)));
    } else {
      OpenContent(s, s', w, Op(c.seqno, s.taken, OpeningFile(p.name, target)), OpenRequest(c.seqno, target));
    }
  }

  lemma LocateContent(s: State, w: World, dir: nat, name: string)
    requires Structure(s) && Content(s, w) && Enabled(s, TakePacket(Locate(dir, name))) && s.sent + 1 < UINT32
    ensures Content(Step(s, w, TakePacket(Locate(dir, name))), w)
  {
    var c, s' := s.client, Step(s, w, TakePacket(Locate(dir, name)));
    assert c.seqno == s.sent;
    hide Structure, Content, Busy, AllLive, Normalize, KnownHandles;
    var target := Normalize(c.handles[dir], name);
    if target == "" {
      LocalContent(s, s', w, None, Reply(s.taken, DOSTRUE, 0, RootGiven));
    } else {
      OpenContent(s, s', w, Op(c.seqno, s.taken, OpeningLock(target)), OpenRequest(c.seqno, target));
    }
  }

  lemma LockContent(s: State, w: World, p: Packet)
    requires p.CopyDir? || p.Parent?
    requires Structure(s) && Content(s, w) && Enabled(s, TakePacket(p)) && s.sent + 1 < UINT32
    ensures Content(Step(s, w, TakePacket(p)), w)
  {
    var c, s' := s.client, Step(s, w, TakePacket(p));
    hide Structure, Content, Busy, AllLive, LastSlash, Truncate, KnownHandles;
    var hd := c.handles[p.h];
    if hd.kind == DeviceKind {
      LocalContent(s, s', w, None, if p.CopyDir? then Reply(s.taken, DOSTRUE, 0, RootGiven)
                                   else Reply(s.taken, DOSFALSE, ERROR_OBJECT_NOT_FOUND, NoParent));
    } else if p.CopyDir? {
      LocalContent(s, s', w, Some(NewHandle(hd.id, hd.kind, hd.size, hd.path, hd.target)),
                   Reply(s.taken, DOSTRUE, 0, CopiedLock(c.next, hd.id)));
    } else {
      var i := LastSlash(hd.path);
      if i <= 0 {
        LocalContent(s, s', w, None, Reply(s.taken, DOSTRUE, 0, RootGiven));
      } else {
        LocalContent(s, s', w, Some(NewHandle(ROOT_ID, DirKind, 0, hd.path[..i], "")),
                     Reply(s.taken, DOSTRUE, 0, RootLock(c.next)));
      }
    }
  }

  /** Packets that open something, or change nothing. */
  lemma OtherContent(s: State, w: World, p: Packet)
    requires !p.Read? && !p.Write? && !p.Seek? && !p.ExamineNext? && !p.Free?
    requires Structure(s) && Content(s, w) && Enabled(s, TakePacket(p)) && s.sent + 1 < UINT32
    ensures Content(Step(s, w, TakePacket(p)), w)
  {
    var s' := Step(s, w, TakePacket(p));
    hide Structure, Content;
    match p
    case FindInput(_) => FindContent(s, w, p);
    case FindOutput(_) => FindContent(s, w, p);
    case Locate(dir, name) => LocateContent(s, w, dir, name);
    case CopyDir(_) => LockContent(s, w, p);
    case Parent(_) => LockContent(s, w, p);
    case Constant(res1, res2) =>
      LocalContent(s, s', w, None, Reply(s.taken, res1, res2, Other));
    case Die =>
      assert s'.client == s.client && Flight(s') == Flight(s);
      SameContent(s, s', w);
  }

  lemma SameContent(s: State, s': State, w: World)
    requires Content(s, w) && s'.client == s.client && Flight(s') == Flight(s) && s'.server == s.server
    ensures Content(s', w)
  {
  }

  lemma PacketContent(s: State, w: World, p: Packet)
    requires Structure(s) && Content(s, w) && WorldOk(w) && Enabled(s, TakePacket(p)) && s.sent + 1 < UINT32
    ensures Content(Step(s, w, TakePacket(p)), w)
  {
    hide *;
    match p
    case Read(h, count) => ReadContent(s, w, h, count);
    case Write(h, data) => WriteContent(s, w, h, data);
    case Seek(h, amount, mode) => SeekContent(s, w, h, amount, mode);
    case ExamineNext(h) => ExamineContent(s, w, h);
    case Free(h) => FreeContent(s, w, h);
    case _ => OtherContent(s, w, p);
  }

  // ---------- the steps of the server ----------

  /** A message in flight that is no close request has its operation. */
  lemma HasOp(s: State, k: nat)
    requires Structure(s) && k < |Flight(s)| && !Flight(s)[k].CloseRequest?
    ensures FindPending(s.client.pending, Flight(s)[k].seqno).Some?
  {
    var flight, ps := Flight(s), PendingNumbers(s.client.pending);
    NumberListed(flight, k);
    assert multiset(ps) == multiset(FlightNumbers(flight));
    assert flight[k].seqno in multiset(ps);
    assert flight[k].seqno in ps;
  }

  /** The client is as before but for the requests it still has to send; the parts agree. */
  lemma ServedContent(s: State, s': State, w: World)
    requires Content(s, w) && s'.client == s.client.(out := s'.client.out)
    requires Good(s.client, Flight(s'), s'.server.slots, w, Now(s, w))
    ensures Content(s', w)
  {
    hide HandlesGood, MessagesGood;
  }

  /** Nobody owns a slot that is not in use. */
  lemma FreeSlotUnowned(handles: Handles, flight: seq<Msg>, slots: seq<Slot>, n: nat)
    requires Exclusive(handles, flight, slots) && n < |slots| <= MAX_FILE_HANDLES && slots[n].fd == 0
    ensures forall h :: !OwnsSlot(handles, h, n)
    ensures forall k :: 0 <= k < |flight| && flight[k].OpenAnswer? ==> flight[k].handle != n
  {
    assert !Used(slots, n);
    forall k | 0 <= k < |flight| && flight[k].OpenAnswer?
      ensures flight[k].handle != n
    {
      assert Token(flight[k]).Some?;
    }
  }

  /** What a close request in flight owns, nobody else does. */
  lemma ClosingSlotUnowned(handles: Handles, flight: seq<Msg>, slots: seq<Slot>, n: nat)
    requires Exclusive(handles, flight, slots) && n < |flight| && flight[n].CloseRequest?
    requires flight[n].handle < MAX_FILE_HANDLES
    ensures forall h :: !OwnsSlot(handles, h, flight[n].handle)
    ensures forall k :: 0 <= k < |flight| && flight[k].OpenAnswer? ==> flight[k].handle != flight[n].handle
  {
    assert Token(flight[n]) == Some(flight[n].handle);
    forall k | 0 <= k < |flight| && flight[k].OpenAnswer?
      ensures flight[k].handle != flight[n].handle
    {
      assert Token(flight[k]).Some?;
    }
  }

  lemma ServeCloseContent(s: State, w: World, os: OsResult)
    requires Structure(s) && Ownership(s) && Content(s, w) && Enabled(s, ServeNext(os)) && s.client.out[0].CloseRequest?
    ensures Content(Step(s, w, ServeNext(os)), w)
  {
    var s', c, n, flight, slots, plain := Step(s, w, ServeNext(os)), s.client, |s.answers|, Flight(s), s.server.slots,
        Now(s, w);
    var id := s.client.out[0].handle;
    assert flight[n].CloseRequest? && flight[n].handle == id && IdOk(id) && |slots| == MAX_FILE_HANDLES;
    ContentAt(s, w, 0);
    assert Flight(s') == flight[..n] + flight[n + 1..];
    assert s'.server.slots == if id < MAX_FILE_HANDLES then slots[id := slots[id].(fd := 0)] else slots;
    assert Exclusive(c.handles, flight, slots);
    hide Structure, Ownership, Good, HandleGood, Exclusive;
    if id < MAX_FILE_HANDLES {
      ClosingSlotUnowned(c.handles, flight, slots, n);
      UnownedSlotGood(c, flight, slots, w, plain, id, slots[id].(fd := 0));
    }
    ClosedGood(c, flight, s'.server.slots, w, plain, n);
    ServedContent(s, s', w);
  }

  lemma ServeOpenContent(s: State, w: World, os: OsResult)
    requires Structure(s) && Ownership(s) && Content(s, w) && Enabled(s, ServeNext(os)) && s.client.out[0].OpenRequest?
    ensures Content(Step(s, w, ServeNext(os)), w)
  {
    var s', c, n, flight, slots, plain := Step(s, w, ServeNext(os)), s.client, |s.answers|, Flight(s), s.server.slots,
        Now(s, w);
    var m := c.out[0];
    var (server, a) := ServeOpen(s.server, w, m, os);
    assert flight[n] == m && |slots| == MAX_FILE_HANDLES && s'.server == server;
    ContentAt(s, w, 0);
    OpenedFits(s.server, w, m, os);
    assert Flight(s') == flight[n := a];
    assert Exclusive(c.handles, flight, slots);
    forall i | 0 <= i < |c.pending| && Belongs(flight[n], c.pending[i])
      ensures MessageGood(c.handles, plain, server.slots, w, c.pending[i].detail, a)
    {
      RequestFitsNow(s, i, n);
    }
    hide Structure, Ownership, Good, HandleGood, Exclusive, ServeOpen, MessageGood;
    if server.slots != slots {
      var free := FirstFree(slots);
      FreeSlotUnowned(c.handles, flight, slots, free);
      UnownedSlotGood(c, flight, slots, w, plain, free, server.slots[free]);
    }
    AnsweredGood(c, flight, server.slots, w, plain, n, a);
    ServedContent(s, s', w);
  }

  lemma ServeReadContent(s: State, w: World, os: OsResult)
    requires Structure(s) && Content(s, w) && Enabled(s, ServeNext(os)) && s.client.out[0].ReadRequest?
    ensures Content(Step(s, w, ServeNext(os)), w)
  {
    var s', c, n, flight, slots, plain := Step(s, w, ServeNext(os)), s.client, |s.answers|, Flight(s), s.server.slots,
        Now(s, w);
    var m := c.out[0];
    var a := ServeRead(s.server, w, m, os);
    assert flight[n] == m && |slots| == MAX_FILE_HANDLES && s'.server == s.server;
    ContentAt(s, w, 0);
    assert Flight(s') == flight[n := a];
    forall i | 0 <= i < |c.pending| && Belongs(flight[n], c.pending[i])
      ensures MessageGood(c.handles, plain, slots, w, c.pending[i].detail, a)
    {
      RequestFitsNow(s, i, n);
      ContentAt(s, w, c.pending[i].detail.h);
      ReadAnswerGood(s.server, c.handles, plain, w, c.pending, c.pending[i].detail, m, os);
    }
    hide Structure, Good, HandleGood, ServeRead, MessageGood;
    AnsweredGood(c, flight, slots, w, plain, n, a);
    ServedContent(s, s', w);
  }

  lemma ReadAnswerGood(s: Server, handles: Handles, plain: Plains, w: World,
                       pending: seq<Op>, d: Detail, m: Msg, os: OsResult)
    requires d.Reading? && m.ReadRequest? && |s.slots| == MAX_FILE_HANDLES && d.h in handles
    requires m.handle == handles[d.h].id && m.offset == handles[d.h].offset
    requires HandleGood(handles, plain, s.slots, w, pending, d.h)
    ensures MessageGood(handles, plain, s.slots, w, d, ServeRead(s, w, m, os))
  {
    hide WorkOn;
    if IsFile(w, plain, d.h) {
      ReadFits(s, w, m, os, plain[d.h].target);
      hide ServeRead, DataFits;
    }
  }

  lemma ServeWriteContent(s: State, w: World, os: OsResult)
    requires Structure(s) && Content(s, w) && Enabled(s, ServeNext(os)) && s.client.out[0].WriteRequest?
    ensures Content(Step(s, w, ServeNext(os)), w)
  {
    var s', c, n, flight, slots, plain := Step(s, w, ServeNext(os)), s.client, |s.answers|, Flight(s), s.server.slots,
        Now(s, w);
    var a := WriteAnswer(c.out[0].seqno);
    assert flight[n] == c.out[0] && s'.server.slots == slots;
    ContentAt(s, w, 0);
    assert Flight(s') == flight[n := a];
    forall i | 0 <= i < |c.pending| && Belongs(flight[n], c.pending[i])
      ensures MessageGood(c.handles, plain, slots, w, c.pending[i].detail, a)
    {
      RequestFitsNow(s, i, n);
    }
    hide Structure, Good, HandleGood, MessageGood;
    AnsweredGood(c, flight, slots, w, plain, n, a);
    ServedContent(s, s', w);
  }

  /** What serving a request for a directory entry comes to. */
  lemma ListServed(s: State, w: World, os: OsResult)
    requires Structure(s) && Enabled(s, ServeNext(os)) && s.client.out[0].FindNextRequest?
    ensures s.client.out != [] && AllLive(s.client) && AllRequests(s.client.out)
    ensures var m, n, slots := s.client.out[0], |s.answers|, s.server.slots;
      var s', (server, a) := Step(s, w, ServeNext(os)), ServeFindNext(s.server, w, m);
      && Flight(s)[n] == m && |slots| == MAX_FILE_HANDLES && s'.server == server && Flight(s') == Flight(s)[n := a]
      && s'.client == s.client.(out := s.client.out[1..]) && a.seqno == m.seqno && IsAnswer(a)
      && server.slots ==
         (if m.handle < MAX_FILE_HANDLES then slots[m.handle := FindNextIn(slots[m.handle], w, m).0] else slots)
      && (m.handle < MAX_FILE_HANDLES ==> a == FindNextIn(slots[m.handle], w, m).1)
  {
    assert |s.server.slots| == MAX_FILE_HANDLES && Flight(s)[|s.answers|] == s.client.out[0];
    hide Structure;
  }

  lemma ServeListContent(s: State, w: World, os: OsResult)
    requires Structure(s) && Ownership(s) && Content(s, w) && Enabled(s, ServeNext(os))
    requires s.client.out[0].FindNextRequest?
    ensures Content(Step(s, w, ServeNext(os)), w)
  {
    hide Structure, Ownership, Content, Serve, ServeFindNext, FindNextIn, Step, AllLive, AllRequests;
    ListServed(s, w, os);
    var m, n := s.client.out[0], |s.answers|;
    if m.handle < MAX_FILE_HANDLES {
      ListOneGood(s, w, n);
    } else {
      ListNoneGood(s, w, n, ServeFindNext(s.server, w, m).1);
    }
    ServedContent(s, Step(s, w, ServeNext(os)), w);
  }

  lemma ListOneGood(s: State, w: World, n: nat)
    requires Structure(s) && Ownership(s) && Content(s, w) && n < |Flight(s)|
    requires Flight(s)[n].FindNextRequest? && Flight(s)[n].handle < MAX_FILE_HANDLES == |s.server.slots|
    ensures var m, slots := Flight(s)[n], s.server.slots;
      var (slot, a) := FindNextIn(slots[m.handle], w, m);
      Good(s.client, Flight(s)[n := a], slots[m.handle := slot], w, Now(s, w))
  {
    var c, flight, slots := s.client, Flight(s), s.server.slots;
    var m := flight[n];
    HasOp(s, n);
    var i := FindPending(c.pending, m.seqno).value;
    RequestFitsNow(s, i, n);
    assert Matched(c.pending, flight, s.sent) && OnePerHandle(c.pending) && Kinds(c, flight);
    assert Exclusive(c.handles, flight, slots);
    hide Structure, Ownership, Content, Good, FindNextIn, Exclusive, Matched, OnePerHandle, Kinds;
    ContentAt(s, w, 0);
    ListedGood(c, flight, slots, w, Now(s, w), s.sent, i, n, c.pending[i].detail.h);
  }

  /** A listing of what is no server slot. */
  lemma ListNoneGood(s: State, w: World, n: nat, a: Msg)
    requires Structure(s) && Content(s, w) && n < |Flight(s)| && |s.server.slots| == MAX_FILE_HANDLES
    requires Flight(s)[n].FindNextRequest? && Flight(s)[n].handle >= MAX_FILE_HANDLES
    requires IsAnswer(a) && a.seqno == Flight(s)[n].seqno
    ensures Good(s.client, Flight(s)[n := a], s.server.slots, w, Now(s, w))
  {
    var c, flight := s.client, Flight(s);
    forall j | 0 <= j < |c.pending| && Belongs(flight[n], c.pending[j])
      ensures MessageGood(c.handles, Now(s, w), s.server.slots, w, c.pending[j].detail, a)
    {
      RequestFitsNow(s, j, n);
    }
    hide Structure, Content, Good, MessageGood;
    ContentAt(s, w, 0);
    AnsweredGood(c, flight, s.server.slots, w, Now(s, w), n, a);
  }

  lemma ServeContent(s: State, w: World, os: OsResult)
    requires Structure(s) && Ownership(s) && Content(s, w) && Enabled(s, ServeNext(os))
    ensures Content(Step(s, w, ServeNext(os)), w)
  {
    assert !IsAnswer(s.client.out[0]);
    hide Structure, Ownership, Content, Step;
    match s.client.out[0]
    case OpenRequest(_, _) => ServeOpenContent(s, w, os);
    case CloseRequest(_, _) => ServeCloseContent(s, w, os);
    case ReadRequest(_, _, _, _) => ServeReadContent(s, w, os);
    case WriteRequest(_, _, _) => ServeWriteContent(s, w, os);
    case FindNextRequest(_, _, _) => ServeListContent(s, w, os);
  }

  // ---------- the steps of the client that take an answer ----------

  /** What the invariant says about the operation of the next answer. */
  lemma AnswerAt(s: State, w: World, i: nat)
    requires Structure(s) && Content(s, w) && s.answers != []
    requires FindPending(s.client.pending, s.answers[0].seqno) == Some(i)
    ensures Flight(s) != [] && Flight(s)[0] == s.answers[0] && Flight(s)[1..] == s.answers[1..] + s.client.out
    ensures MessageGood(s.client.handles, Now(s, w), s.server.slots, w, s.client.pending[i].detail, s.answers[0])
    ensures Matched(s.client.pending, Flight(s), s.sent) && OnePerHandle(s.client.pending) && s.client.seqno == s.sent
    ensures |s.server.slots| == MAX_FILE_HANDLES && KnownHandles(s.client) && AllLive(s.client)
  {
    hide HandlesGood, PlainOk, MessageGood, Matched;
    var flight := Flight(s);
    assert flight[0] == s.answers[0];
    AnswerFits(s);
    assert Belongs(flight[0], s.client.pending[i]);
  }

  /** After the operation of handle h is over, nothing works on h. */
  lemma OverNotBusy(c: Client, d: Client, i: nat, h: nat)
    requires OnePerHandle(c.pending) && i < |c.pending| && d.pending == c.pending[..i] + c.pending[i + 1..]
    requires HandleOf(c.pending[i].detail) == Some(h)
    ensures WorkOn(c.pending, h) == Some(c.pending[i].detail)
    ensures c.pending[i].detail != Enumerating(0) ==> !Busy(d, h) && WorkOn(d.pending, h) == None
    ensures forall j :: 0 <= j < |d.pending| && HandleOf(d.pending[j].detail) == Some(h) ==>
      d.pending[j].detail == c.pending[i].detail == Enumerating(0)
  {
    forall j | 0 <= j < |d.pending| && HandleOf(d.pending[j].detail) == Some(h)
      ensures d.pending[j].detail == c.pending[i].detail == Enumerating(0)
    {
      var j' := if j < i then j else j + 1;
      assert d.pending[j] == c.pending[j'];
      assert SameHandle(c.pending[j'].detail, c.pending[i].detail);
      assert SameHandle(c.pending[i].detail, c.pending[j'].detail);
    }
    if c.pending[i].detail != Enumerating(0) {
      WorkOnNone(d.pending, h);
    }
    WorkOnIs(c.pending, i, h);
  }

  lemma FewerNotBusy(c: Client, d: Client, i: nat, h: nat)
    requires i < |c.pending| && d.pending == c.pending[..i] + c.pending[i + 1..] && !Busy(c, h)
    ensures !Busy(d, h) && WorkOn(d.pending, h) == None
  {
    forall j | 0 <= j < |d.pending|
      ensures HandleOf(d.pending[j].detail) != Some(h)
    {
      assert d.pending[j] == c.pending[if j < i then j else j + 1];
    }
    WorkOnNone(d.pending, h);
  }

  /** An answer ends the operation at place i, which works on handle h, with reply r. */
  lemma EndContent(s: State, s': State, w: World, i: nat, h: nat, hd: Handle, r: Reply)
    requires Structure(s) && Content(s, w) && s.answers != []
    requires FindPending(s.client.pending, s.answers[0].seqno) == Some(i)
    requires s'.answers == s.answers[1..] && s'.server == s.server
    requires HandleOf(s.client.pending[i].detail) == Some(h) && h in s.client.handles
    requires s'.client ==
      Unlink(ReplyTo(s.client.(handles := s.client.handles[h := hd]), r.packet, r.res1, r.res2, r.what), i)
    requires About(r.what) == Some(h) || About(r.what) == None
    requires Told(w, Now(s, w), r) && Unheeded(s'.client.pending, After(w, Now(s, w), r.what), h)
    requires HandleGood(s'.client.handles, After(w, Now(s, w), r.what), s.server.slots, w, s'.client.pending, h)
    ensures Content(s', w)
  {
    var c, d, plain, slots, flight := s.client, s'.client, Now(s, w), s.server.slots, Flight(s);
    AnswerAt(s, w, i);
    ContentAt(s, w, h);
    assert Flight(s') == flight[1..];
    hide Structure, Content, Good, HandleGood, Told, SameButOne, PlainOk, WorkOn, Unheeded, OnePerHandle, Matched,
      AllLive, KnownHandles, After;
    AfterChangesOne(w, plain, r.what, h, c.handles, hd);
    EndPlain(w, plain, r.what, h, c);
    FinishGood(c, d, flight, flight[1..], slots, w, plain, After(w, plain, r.what), h, i);
    RepliedContent(s, s', w, r);
  }

  lemma EndPlain(w: World, plain: Plains, what: What, h: nat, c: Client)
    requires PlainOk(plain, c.next) && KnownHandles(c) && h in c.handles
    requires About(what) == Some(h) || About(what) == None
    ensures PlainOk(After(w, plain, what), c.next)
  {
    assert forall g <- After(w, plain, what) :: g in plain || g == h;
  }

  /** An answer brings the operation at place i, which works on handle h, forward under a new number. */
  lemma OnwardContent(s: State, s': State, w: World, i: nat, h: nat, hd: Handle, op: Op, m: Msg)
    requires Structure(s) && Content(s, w) && s.answers != []
    requires FindPending(s.client.pending, s.answers[0].seqno) == Some(i)
    requires s'.answers == s.answers[1..] && s'.server == s.server
    requires HandleOf(s.client.pending[i].detail) == Some(h) == HandleOf(op.detail) && h in s.client.handles
    requires !s.client.pending[i].detail.Enumerating?
    requires op.seqno == m.seqno == s.sent
    requires s'.client == s.client.(handles := s.client.handles[h := hd], pending := s.client.pending[i := op],
                                    out := s.client.out + [m], seqno := s'.client.seqno)
    requires HandleGood(s'.client.handles, Now(s, w), s.server.slots, w, s'.client.pending, h)
    requires MessageGood(s'.client.handles, Now(s, w), s.server.slots, w, op.detail, m)
    ensures Content(s', w)
  {
    var c, d, plain, slots, flight := s.client, s'.client, Now(s, w), s.server.slots, Flight(s);
    AnswerAt(s, w, i);
    ContentAt(s, w, h);
    assert Flight(s') == flight[1..] + [m];
    hide Structure, Content, Good, HandleGood, MessageGood, SameButOne, PlainOk, WorkOn, OnePerHandle, Matched,
      AllLive, KnownHandles;
    AfterChangesOne(w, plain, Other, h, c.handles, hd);
    AfterOther(w, plain);
    ContinueGood(c, d, flight, slots, w, plain, h, i, op, m, s.sent);
    QuietContent(s, s', w);
  }

  /** The operation of handle h is replaced by another one on h. */
  lemma ReplacedWork(pending: seq<Op>, i: nat, op: Op, h: nat)
    requires OnePerHandle(pending) && i < |pending| && HandleOf(pending[i].detail) == Some(h) == HandleOf(op.detail)
    requires !pending[i].detail.Enumerating?
    ensures WorkOn(pending, h) == Some(pending[i].detail) && WorkOn(pending[i := op], h) == Some(op.detail)
  {
    WorkOnIs(pending, i, h);
    var pending' := pending[i := op];
    forall j, k | 0 <= j < k < |pending'| && SameHandle(pending'[j].detail, pending'[k].detail)
      ensures pending'[j].detail == pending'[k].detail == Enumerating(0)
    {
      assert SameHandle(pending[j].detail, pending[k].detail);
    }
    WorkOnIs(pending', i, h);
  }

  /** What complete_read does, by whether the data completes the read. */
  lemma ReadCompleted(c: Client, i: nat, data: seq<Byte>)
    requires i < |c.pending| && c.pending[i].detail.Reading? && c.pending[i].detail.h in c.handles
    ensures var op := c.pending[i];
      var Reading(h, count, got) := op.detail;
      var (hd, more, done) := TakeData(c.handles[h], count - Min(|got|, count), data);
      var got' := got + more;
      var op' := Op(c.seqno, op.packet, Reading(h, count, got'));
      CompleteRead(c, i, data) ==
        if done then
          Unlink(ReplyTo(c.(handles := c.handles[h := hd]), op.packet, |got'|, 0, GotData(h, count, got', true)), i)
        else
          Post(c.(handles := c.handles[h := hd], pending := c.pending[i := op']),
               ReadRequestFor(c.seqno, hd, count - Min(|got'|, count)))
  {
    hide TakeData;
  }

  lemma TakeReadContent(s: State, w: World, i: nat)
    requires Structure(s) && Content(s, w) && WorldOk(w) && s.answers != [] && s.sent + 1 < UINT32
    requires FindPending(s.client.pending, s.answers[0].seqno) == Some(i)
    requires s.client.pending[i].detail.Reading? && s.answers[0].ReadAnswer?
    ensures Content(Step(s, w, TakeAnswer), w)
  {
    hide Content, Good, HandleGood, MessageGood, Told, After, WorldOk, WorkOn, TakeData, ProcessAnswer, CompleteRead,
      OnePerHandle, Matched, AllLive, KnownHandles, PlainOk, Unheeded, Step, Structure;
    ReadAnswerTaken(s, w, i);
    AnswerAt(s, w, i);
    var c, m, s', plain, slots := s.client, s.answers[0], Step(s, w, TakeAnswer), Now(s, w), s.server.slots;
    var d, op := s'.client, c.pending[i];
    var Reading(h, count, got) := op.detail;
    ContentAt(s, w, h);
    ReadCompleted(c, i, m.data);
    var (hd, more, done) := TakeData(c.handles[h], count - Min(|got|, count), m.data);
    var got' := got + more;
    if done {
      OverNotBusy(c, d, i, h);
      OverUnheeded(c, d, i, h, After(w, plain, GotData(h, count, got', true)));
      DeliveredHandle(c.handles, plain, slots, w, c.pending, d.pending, h, count, got, m, op.packet);
      EndContent(s, s', w, i, h, hd, Reply(op.packet, |got'|, 0, GotData(h, count, got', true)));
    } else {
      var op' := Op(c.seqno, op.packet, Reading(h, count, got'));
      var r := ReadRequestFor(c.seqno, hd, count - Min(|got'|, count));
      ReplacedWork(c.pending, i, op', h);
      DeliveredHandle(c.handles, plain, slots, w, c.pending, d.pending, h, count, got, m, op.packet);
      RequestGood(d.handles, plain, slots, w, op'.detail, r);
      OnwardContent(s, s', w, i, h, hd, op', r);
    }
  }

  lemma OverUnheeded(c: Client, d: Client, i: nat, h: nat, plain: Plains)
    requires i < |c.pending| && !c.pending[i].detail.Enumerating?
    requires forall j :: 0 <= j < |d.pending| && HandleOf(d.pending[j].detail) == Some(h) ==>
      d.pending[j].detail == c.pending[i].detail == Enumerating(0)
    ensures Unheeded(d.pending, plain, h)
  {
  }

  lemma RequestGood(handles: Handles, plain: Plains, slots: seq<Slot>, w: World, d: Detail, m: Msg)
    requires (d.Reading? && m.ReadRequest?) || (d.Writing? && m.WriteRequest?)
    ensures MessageGood(handles, plain, slots, w, d, m)
  {
  }

  lemma TakeWriteContent(s: State, w: World, i: nat)
    requires Structure(s) && Content(s, w) && s.answers != [] && s.sent + 1 < UINT32
    requires FindPending(s.client.pending, s.answers[0].seqno) == Some(i)
    requires s.client.pending[i].detail.Writing? && s.answers[0].WriteAnswer?
    ensures Content(Step(s, w, TakeAnswer), w)
  {
    AnswerFits(s);
    AnswerAt(s, w, i);
    var c, s', plain, slots := s.client, Step(s, w, TakeAnswer), Now(s, w), s.server.slots;
    var d, op := s'.client, c.pending[i];
    var Writing(h, data, source, length) := op.detail;
    var hd := c.handles[h];
    ContentAt(s, w, h);
    assert d == CompleteWrite(c, i);
    assert c.handles[h := hd] == c.handles;
    hide Structure, Content, Good, HandleGood, MessageGood, WorldOk, WorkOn, ProcessAnswer, OnePerHandle, Matched,
      AllLive, KnownHandles, PlainOk;
    match NextChunk(data, source, length)
    case None =>
      OverNotBusy(c, d, i, h);
      WorkGood(c.handles, plain, slots, w, c.pending, d.pending, h);
      var r := Reply(op.packet, |data|, 0, Wrote(h, data, true));
      WroteTold(w, plain, r);
      EndContent(s, s', w, i, h, hd, r);
    case Some((at, n)) =>
      var op', r := Op(c.seqno, op.packet, Writing(h, data, at, n)), WriteRequest(c.seqno, hd.id, data[at..at + n]);
      ReplacedWork(c.pending, i, op', h);
      WorkGood(c.handles, plain, slots, w, c.pending, d.pending, h);
      RequestGood(d.handles, plain, slots, w, op'.detail, r);
      OnwardContent(s, s', w, i, h, hd, op', r);
  }

  /** A listing of handle h is over; what may still list it is not followed. */
  lemma ListingOver(s: State, d: Client, w: World, i: nat, h: nat, what: What)
    requires Structure(s) && Content(s, w) && i < |s.client.pending| && s.client.pending[i].detail == Enumerating(h)
    requires d.pending == s.client.pending[..i] + s.client.pending[i + 1..]
    requires what.Listed? || what.ListFailed? || what.ListEnd?
    ensures WorkOn(s.client.pending, h) == Some(Enumerating(h))
    ensures WorkOn(d.pending, h) == None || SlotOf(s.client.handles, s.server.slots, h) == None
    ensures Unheeded(d.pending, After(w, Now(s, w), what), h)
  {
    RootUnfollowed(s, w);
    OverNotBusy(s.client, d, i, h);
    hide Structure, Content, WorkOn, OnePerHandle;
  }

  lemma TakeListContent(s: State, w: World, i: nat)
    requires Structure(s) && Content(s, w) && s.answers != []
    requires FindPending(s.client.pending, s.answers[0].seqno) == Some(i)
    requires s.client.pending[i].detail.Enumerating? && s.answers[0].FindNextAnswer?
    ensures Content(Step(s, w, TakeAnswer), w)
  {
    AnswerFits(s);
    AnswerAt(s, w, i);
    var c, m, s', plain, slots := s.client, s.answers[0], Step(s, w, TakeAnswer), Now(s, w), s.server.slots;
    var d, op := s'.client, c.pending[i];
    var h := op.detail.h;
    var hd := if m.end then c.handles[h].(enumerating := false) else c.handles[h];
    var r := if m.end then Reply(op.packet, DOSFALSE, ERROR_NO_MORE_ENTRIES, ListEnd(h))
             else Reply(op.packet, DOSTRUE, 0, Listed(h, Truncate(m.name, PATH_MAX - 2), m.isDir, m.size));
    ContentAt(s, w, h);
    assert d == CompleteExamineNext(c, i, m);
    assert c.handles[h := c.handles[h]] == c.handles;
    ListingOver(s, d, w, i, h, r.what);
    hide Unheeded, Structure, Content, Good, HandleGood, MessageGood, Told, After, WorkOn, ProcessAnswer, OnePerHandle,
      Matched, AllLive, KnownHandles, PlainOk, Truncate;
    ListedHandle(c.handles, plain, slots, w, c.pending, d.pending, h, m, r);
    EndContent(s, s', w, i, h, hd, r);
  }

  /** An operation on a handle fails. */
  lemma TakeErrorContent(s: State, w: World, i: nat)
    requires Structure(s) && Content(s, w) && s.answers != []
    requires FindPending(s.client.pending, s.answers[0].seqno) == Some(i)
    requires HandleOf(s.client.pending[i].detail).Some? && s.answers[0].ErrorAnswer?
    ensures Content(Step(s, w, TakeAnswer), w)
  {
    AnswerFits(s);
    AnswerAt(s, w, i);
    var c, m, s', plain, slots := s.client, s.answers[0], Step(s, w, TakeAnswer), Now(s, w), s.server.slots;
    var d, op := s'.client, c.pending[i];
    var h := HandleOf(op.detail).value;
    var r := Reply(op.packet, DOSFALSE, TranslateError(m.code), Failure(op.detail));
    ContentAt(s, w, h);
    assert d == Unlink(ReplyTo(c, r.packet, r.res1, r.res2, r.what), i);
    assert c.handles[h := c.handles[h]] == c.handles;
    OverNotBusy(c, d, i, h);
    if op.detail.Enumerating? {
      ListingOver(s, d, w, i, h, r.what);
    }
    assert Unheeded(d.pending, After(w, plain, r.what), h);
    hide Unheeded, Structure, Content, Good, HandleGood, MessageGood, Told, After, WorkOn, ProcessAnswer, OnePerHandle,
      Matched, AllLive, KnownHandles, PlainOk, TranslateError;
    match op.detail
    case Reading(_, count, got) =>
      FailedReadHandle(c.handles, plain, slots, w, c.pending, d.pending, h, count, got, m, r);
      EndContent(s, s', w, i, h, c.handles[h], r);
    case Writing(_, _, _, _) =>
      WritesSucceed(c.handles, plain, slots, w, op.detail, m);
      assert false;
    case Enumerating(_) =>
      ListedHandle(c.handles, plain, slots, w, c.pending, d.pending, h, m, r);
      EndContent(s, s', w, i, h, c.handles[h], r);
  }

  /** The server never answers a write with an error. */
  lemma WritesSucceed(handles: Handles, plain: Plains, slots: seq<Slot>, w: World, d: Detail, m: Msg)
    requires d.Writing? && MessageGood(handles, plain, slots, w, d, m)
    ensures !m.ErrorAnswer?
  {
  }

  lemma WroteTold(w: World, plain: Plains, r: Reply)
    requires r.what.Wrote? && r.what.ok && r.res1 == |r.what.data| && r.res2 == 0
    ensures Told(w, plain, r) && After(w, plain, r.what) == plain
  {
  }

  /** An open is refused for the reason that its answer gives. */
  lemma RefusedTold(w: World, plain: Plains, slots: seq<Slot>, target: string, m: Msg, r: Reply)
    requires OpenFits(slots, w, target, m) && r.what == Refused(target) && r.res1 == DOSFALSE
    requires (m.ErrorAnswer? && r.res2 == TranslateError(m.code))
      || (m.OpenAnswer? && m.isDir && m.handle < |slots| && r.res2 == ERROR_OBJECT_WRONG_TYPE)
    ensures Told(w, plain, r) && After(w, plain, r.what) == plain
  {
  }

  /** An answer ends the operation at place i, which asked to open something, with reply r. */
  lemma OpeningEnds(s: State, s': State, w: World, i: nat, hd: Option<Handle>, close: seq<Msg>, r: Reply)
    requires Structure(s) && Content(s, w) && s.answers != []
    requires FindPending(s.client.pending, s.answers[0].seqno) == Some(i)
    requires s'.answers == s.answers[1..] && s'.server == s.server && HandleOf(s.client.pending[i].detail) == None
    requires close == [] || (|close| == 1 && close[0].CloseRequest?)
    requires s'.client == s.client.(
      handles := if hd.Some? then s.client.handles[s.client.next := hd.value] else s.client.handles,
      next := if hd.Some? then s.client.next + 1 else s.client.next, out := s.client.out + close,
          seqno := s'.client.seqno,
      pending := s.client.pending[..i] + s.client.pending[i + 1..], log := s.client.log + [r])
    requires if hd.Some? then About(r.what) == Some(s.client.next) else r.what.Refused?
    requires Told(w, Now(s, w), r)
    requires hd.Some? ==> HandleGood(s'.client.handles, After(w, Now(s, w), r.what), s.server.slots, w,
                                     s'.client.pending, s.client.next)
    ensures Content(s', w)
  {
    var c, d, plain, slots, flight, h := s.client, s'.client, Now(s, w), s.server.slots, Flight(s), s.client.next;
    AnswerAt(s, w, i);
    ContentAt(s, w, h);
    FreshNotBusy(c);
    FewerNotBusy(c, d, i, h);
    var flight' := Flight(s');
    assert flight' == flight[1..] + close;
    assert close != [] ==> flight' == flight[1..] + [flight'[|flight| - 1]] && flight'[|flight| - 1] == close[0];
    assert hd.None? ==> HandleGood(d.handles, plain, slots, w, d.pending, h);
    hide Structure, Content, Good, HandleGood, Told, SameButOne, WorkOn, Busy, OnePerHandle, Matched, AllLive;
    AfterChangesOne(w, plain, r.what, h, c.handles, if hd.Some? then hd.value else StartClient("").handles[0]);
    NewPlain(w, plain, r.what, c.next);
    hide After, PlainOk;
    FinishGood(c, d, flight, flight', slots, w, plain, After(w, plain, r.what), h, i);
    RepliedContent(s, s', w, r);
  }

  lemma NewPlain(w: World, plain: Plains, what: What, next: nat)
    requires PlainOk(plain, next) && (About(what) == Some(next) || what.Refused?)
    ensures PlainOk(After(w, plain, what), if what.Refused? then next else next + 1)
  {
  }

  lemma TakeOpenContent(s: State, w: World, i: nat)
    requires Structure(s) && Content(s, w) && s.answers != [] && s.sent + 1 < UINT32
    requires FindPending(s.client.pending, s.answers[0].seqno) == Some(i)
    requires s.client.pending[i].detail.OpeningFile? || s.client.pending[i].detail.OpeningLock?
    requires s.answers[0].OpenAnswer?
    ensures Content(Step(s, w, TakeAnswer), w)
  {
    AnswerFits(s);
    AnswerAt(s, w, i);
    var c, m, s', plain, slots := s.client, s.answers[0], Step(s, w, TakeAnswer), Now(s, w), s.server.slots;
    var d, op := s'.client, c.pending[i];
    var target := op.detail.target;
    ContentAt(s, w, c.next);
    FreshNotBusy(c);
    assert OpenFits(slots, w, target, m);
    hide Structure, Content, Good, HandleGood, MessageGood, Told, After, WorkOn, Busy, OnePerHandle, Matched, AllLive,
      KnownHandles, PlainOk, Truncate;
    if op.detail.OpeningFile? && m.isDir {
      var r := Reply(op.packet, DOSFALSE, ERROR_OBJECT_WRONG_TYPE, Refused(target));
      RefusedTold(w, plain, slots, target, m, r);
      OpeningEnds(s, s', w, i, None, [CloseRequest(c.seqno, m.handle)], r);
    } else {
      var kind := if m.isDir then DirKind else FileKind;
      var path := if op.detail.OpeningFile? then op.detail.name else target;
      FewerNotBusy(c, d, i, c.next);
      OpenedHandle(c, plain, slots, w, d.pending, m, kind, path, target, op.packet);
      assert c.out + [] == c.out;
      OpeningEnds(s, s', w, i, Some(NewHandle(m.handle, kind, m.size, path, target)), [],
                  Reply(op.packet, DOSTRUE, 0, Opened(c.next, kind, target)));
    }
  }

  lemma OpenFailsContent(s: State, w: World, i: nat)
    requires Structure(s) && Content(s, w) && s.answers != []
    requires FindPending(s.client.pending, s.answers[0].seqno) == Some(i)
    requires HandleOf(s.client.pending[i].detail) == None && s.answers[0].ErrorAnswer?
    ensures Content(Step(s, w, TakeAnswer), w)
  {
    AnswerFits(s);
    AnswerAt(s, w, i);
    var c, m, s' := s.client, s.answers[0], Step(s, w, TakeAnswer);
    var target := c.pending[i].detail.target;
    var r := Reply(c.pending[i].packet, DOSFALSE, TranslateError(m.code), Refused(target));
    assert s'.client == Unlink(ReplyTo(c, r.packet, r.res1, r.res2, r.what), i);
    assert c.out + [] == c.out && OpenFits(s.server.slots, w, target, m);
    hide Structure, Content, Told, After, ProcessAnswer, TranslateError, HandleGood, MessageGood, OpenFits;
    RefusedTold(w, Now(s, w), s.server.slots, target, m, r);
    OpeningEnds(s, s', w, i, None, [], r);
  }

  lemma AnswerContent(s: State, w: World)
    requires Structure(s) && Content(s, w) && WorldOk(w) && s.answers != [] && s.sent + 1 < UINT32
    ensures Content(Step(s, w, TakeAnswer), w)
  {
    AnswerFits(s);
    var m, i := s.answers[0], FindPending(s.client.pending, s.answers[0].seqno).value;
    hide Structure, Content, Step, WorldOk;
    if m.ReadAnswer? {
      TakeReadContent(s, w, i);
    } else if m.WriteAnswer? {
      TakeWriteContent(s, w, i);
    } else if m.OpenAnswer? {
      TakeOpenContent(s, w, i);
    } else if m.FindNextAnswer? {
      TakeListContent(s, w, i);
    } else if HandleOf(s.client.pending[i].detail).Some? {
      TakeErrorContent(s, w, i);
    } else {
      OpenFailsContent(s, w, i);
    }
  }

  // ---------- runs ----------

  lemma StartContent(device: string, w: World)
    ensures Content(StartState(device), w)
  {
  }

  lemma StepContent(s: State, w: World, e: Event, s': State)
    requires Structure(s) && Ownership(s) && Content(s, w) && WorldOk(w) && NoWrap(s) && Next(s, w, e, s')
    ensures Content(s', w)
  {
    hide Structure, Ownership, Content, WorldOk;
    match e
    case TakePacket(p) => PacketContent(s, w, p);
    case ServeNext(os) => ServeContent(s, w, os);
    case TakeAnswer => AnswerContent(s, w);
  }

  lemma {:induction false} RunContent(device: string, w: World, events: seq<Event>, states: seq<State>, n: nat)
    requires IsRun(device, w, events, states) && n < |states| && NoWrap(states[n]) && WorldOk(w)
    ensures Content(states[n], w)
  {
    hide Content, WorldOk, Structure, Ownership, RepliesConserved, Step, ProcessPacket, ProcessAnswer, Serve;
    if n == 0 {
      StartContent(device, w);
    } else {
      var s := states[n - 1];
      assert Next(s, w, events[n - 1], states[n]);
      SentGrows(s, w, events[n - 1], states[n]);
      RunOwnership(device, w, events, states, n - 1);
      RunContent(device, w, events, states, n - 1);
      StepContent(s, w, events[n - 1], states[n]);
    }
  }

  // ---------- the results ----------

  /**
   Every run refines the plain file system: for each reply, the replies before
   it bring the plain file system to a state in which it replies so too. Reads
   return the file's bytes at the position, however they were buffered and cut
   into round trips; listings give each entry once, in order, and then the end.
   */
  lemma Refinement(device: string, w: World, events: seq<Event>, states: seq<State>, n: nat, k: nat)
    requires IsRun(device, w, events, states) && n < |states| && NoWrap(states[n]) && WorldOk(w)
    requires k < |states[n].client.log|
    ensures var log := states[n].client.log;
      Replay(w, log[..k]).Some? && Told(w, Replay(w, log[..k]).value, log[k])
  {
    RunContent(device, w, events, states, n);
    ReplayPrefix(w, states[n].client.log, k);
  }

  /**
   In every reachable state the read buffer of an open file is a piece of the
   file, of at most 4096 bytes, and the offset is never beyond the end.
   */
  lemma BufferAgrees(device: string, w: World, events: seq<Event>, states: seq<State>, n: nat, h: nat)
    requires IsRun(device, w, events, states) && n < |states| && NoWrap(states[n]) && WorldOk(w)
    requires h in states[n].client.handles
    requires states[n].client.handles[h].id < MAX_FILE_HANDLES && states[n].client.handles[h].kind == FileKind
    ensures var hd := states[n].client.handles[h];
      && hd.target in w && w[hd.target].FileNode?
      && var data := w[hd.target].data;
      && hd.size == |data| && hd.offset <= |data|
      && |hd.buffer| <= BUFFER_SIZE && hd.bufferStart + |hd.buffer| <= |data|
      && hd.buffer == data[hd.bufferStart..hd.bufferStart + |hd.buffer|]
  {
    RunContent(device, w, events, states, n);
    RunOwnership(device, w, events, states, n);
    var s := states[n];
    ContentAt(s, w, h);
    assert |s.server.slots| == MAX_FILE_HANDLES;
    hide Content, Good, WorkOn;
  }

  /**
   In every run, when a caller is told that directory h has no more entries, it
   has been told each of them since the listing began, once and in order,
   whatever the slot of the server had been used for before.
   */
  lemma EnumerationComplete(device: string, w: World, events: seq<Event>, states: seq<State>, n: nat, k: nat, h: nat)
    requires IsRun(device, w, events, states) && n < |states| && NoWrap(states[n]) && WorldOk(w)
    requires k < |states[n].client.log| && states[n].client.log[k].what == ListEnd(h)
    ensures var before := states[n].client.log[..k];
      && Replay(w, before).Some?
      && (IsDir(w, Replay(w, before).value, h) ==>
            TellsEntries(Listing(before, h), w[Replay(w, before).value[h].target].entries))
  {
    Refinement(device, w, events, states, n, k);
    var before := states[n].client.log[..k];
    if IsDir(w, Replay(w, before).value, h) {
      ListingFollows(w, before, h);
      var entries := w[Replay(w, before).value[h].target].entries;
      assert entries[..|entries|] == entries;
    }
  }

  /**
   In every run, the bytes delivered since file h was opened or last sought
   are consecutive bytes of the file.
   */
  lemma ReadsAreConsecutive(device: string, w: World, events: seq<Event>, states: seq<State>, n: nat, k: nat, h: nat)
    requires IsRun(device, w, events, states) && n < |states| && NoWrap(states[n]) && WorldOk(w)
    requires k <= |states[n].client.log|
    ensures var before := states[n].client.log[..k];
      && Replay(w, before).Some?
      && (IsFile(w, Replay(w, before).value, h) ==>
            var p, data := Replay(w, before).value[h], Delivered(before, h);
            |data| <= p.pos <= |w[p.target].data| && data == w[p.target].data[p.pos - |data|..p.pos])
  {
    var log := states[n].client.log;
    RunContent(device, w, events, states, n);
    if k < |log| {
      ReplayPrefix(w, log, k);
    } else {
      assert log[..k] == log;
    }
    if IsFile(w, Replay(w, log[..k]).value, h) {
      DeliveredFollows(w, log[..k], h);
    }
  }

  /** The answer of a read is never longer than the read buffer of a handle. */
  predicate ReadsFit(answers: seq<Msg>) {
    forall k :: 0 <= k < |answers| && answers[k].ReadAnswer? ==> |answers[k].data| <= BUFFER_SIZE
  }

  lemma ServedFits(s: Server, w: World, m: Msg, os: OsResult)
    requires !IsAnswer(m)
    ensures var a := Serve(s, w, m, os).1;
      a.Some? && a.value.ReadAnswer? ==> |a.value.data| <= BUFFER_SIZE
  {
  }

  /** So what comes in always meets the bounds that the client relies on. */
  lemma {:induction false} ReadAnswersFit(device: string, w: World, events: seq<Event>, states: seq<State>, n: nat)
    requires IsRun(device, w, events, states) && n < |states|
    ensures ReadsFit(states[n].answers)
  {
    if n == 0 {
    } else {
      hide Serve, ProcessPacket, ProcessAnswer;
      var s := states[n - 1];
      assert Next(s, w, events[n - 1], states[n]);
      ReadAnswersFit(device, w, events, states, n - 1);
      match events[n - 1]
      case ServeNext(os) => ServedFits(s.server, w, s.client.out[0], os);
      case TakePacket(_) =>
      case TakeAnswer =>
    }
  }
}
