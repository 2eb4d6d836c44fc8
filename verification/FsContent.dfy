/**
 What the parts of the system know about the files: the read buffer of a
 handle agrees with its file, an answer in flight carries what its operation
 will need, and the place of an open directory in the server is the number of
 entries that the callers have been told.
 */
module FsContent {
  import opened Base
  import opened RemoteFs
  import opened FsSystem
  import opened FsMatching
  import opened FsOwnership
  import opened Reference

  type Plains = map<nat, Plain>

  /** The slot serves the file or directory target. */
  predicate Shows(slot: Slot, w: World, isDir: bool, target: string) {
    && slot.isDir == isDir && slot.path == target && target in w
    && (if isDir then slot.fd == -1 && w[target].DirNode? else slot.fd > 0 && w[target].FileNode?)
  }

  function SlotOf(handles: Handles, slots: seq<Slot>, h: nat): Option<Slot> {
    if h in handles && handles[h].id < |slots| then Some(slots[handles[h].id]) else None
  }

  /** The operation that works on a handle. */
  function WorkOn(pending: seq<Op>, h: nat): Option<Detail> {
    if pending == [] then None
    else if HandleOf(pending[0].detail) == Some(h) then Some(pending[0].detail)
    else WorkOn(pending[1..], h)
  }

  function GotSoFar(work: Option<Detail>): seq<Byte> {
    if work.Some? && work.value.Reading? then work.value.got else []
  }

  /**
   A file: the read buffer is a piece of it, and the offset is the position
   that the callers know plus what an unfinished read has already delivered.
   */
  predicate FileGood(hd: Handle, p: Plain, data: seq<Byte>, work: Option<Detail>) {
    var got := GotSoFar(work);
    && hd.size == |data| && hd.offset <= |data|
    && |hd.buffer| <= BUFFER_SIZE && hd.bufferStart + |hd.buffer| <= |data|
    && hd.buffer == data[hd.bufferStart..hd.bufferStart + |hd.buffer|]
    && p.pos + |got| == hd.offset
    && got == data[p.pos..hd.offset]
    && (work.Some? && work.value.Reading? && |got| > 0 ==> |got| < work.value.count)
  }

  /** A directory: between operations, a listing that was begun has its place in the server. */
  predicate DirGood(hd: Handle, p: Plain, slot: Slot, entries: seq<Entry>, work: Option<Detail>) {
    && p.listed <= |entries|
    && (if work.Some? && work.value.Enumerating? then hd.enumerating
        else if hd.enumerating then slot.dir == Some(Cursor(p.target, p.listed))
        else p.listed == 0)
  }

  predicate HandleShows(hd: Handle, p: Plain, slot: Slot, w: World, work: Option<Detail>) {
    && p.kind == hd.kind && p.target == hd.target && (hd.kind == FileKind || hd.kind == DirKind)
    && Shows(slot, w, hd.kind == DirKind, p.target)
    && (if hd.kind == FileKind then FileGood(hd, p, w[p.target].data, work)
        else DirGood(hd, p, slot, w[p.target].entries, work))
  }

  predicate HandleGood(handles: Handles, plain: Plains, slots: seq<Slot>, w: World, pending: seq<Op>, h: nat) {
    h in handles ==>
      && (h in plain <==> SlotOf(handles, slots, h).Some?)
      && (h in plain && SlotOf(handles, slots, h).Some? ==>
            HandleShows(handles[h], plain[h], SlotOf(handles, slots, h).value, w, WorkOn(pending, h)))
  }

  /** Data read at an offset: a piece of the file, empty only at its end. */
  predicate DataFits(file: seq<Byte>, offset: nat, data: seq<Byte>) {
    && |data| <= BUFFER_SIZE && offset + |data| <= |file|
    && data == file[offset..offset + |data|]
    && (data == [] ==> offset == |file|)
  }

  /** A message of a listing, where listed entries have been told before, and the open directory that goes with it. */
  predicate ListFits(entries: seq<Entry>, target: string, listed: nat, dir: Option<Cursor>, m: Msg) {
    match m
    case FindNextRequest(_, _, reset) =>
      if reset then listed == 0 else dir == Some(Cursor(target, listed))
    case FindNextAnswer(_, end, isDir, name, size) =>
      if end then listed == |entries| && dir == Some(Cursor(target, listed))
      else
        && listed < |entries| && entries[listed] == Entry(name, Some(Stat(isDir, size)))
        && dir == Some(Cursor(target, listed + 1))
    case ErrorAnswer(_, code) =>
      && code == NETERR_IO_ERROR
      && listed < |entries| && entries[listed].stat == None && dir == Some(Cursor(target, listed + 1))
    case _ => true
  }

  predicate OpenFits(slots: seq<Slot>, w: World, target: string, m: Msg) {
    && (m.OpenAnswer? && m.handle < |slots| ==>
          && Shows(slots[m.handle], w, m.isDir, target)
          && (target in w && w[target].FileNode? ==> m.size == |w[target].data|))
    && (m.ErrorAnswer? ==>
          || m.code == NETERR_TOO_MANY_FILES_OPEN
          || (if target in w then w[target].FileNode? && PosixError(m.code) else m.code == NETERR_NOT_FOUND))
  }

  /** The message in flight for an operation carries what the operation needs. */
  predicate MessageGood(handles: Handles, plain: Plains, slots: seq<Slot>, w: World, d: Detail, m: Msg) {
    match d
    case Reading(h, _, _) =>
      h in handles && IsFile(w, plain, h) ==>
        && (m.ReadAnswer? ==> DataFits(w[plain[h].target].data, handles[h].offset, m.data))
        && (m.ErrorAnswer? ==> m.code == NETERR_IO_ERROR)
    case Enumerating(h) =>
      IsDir(w, plain, h) && SlotOf(handles, slots, h).Some? ==>
        ListFits(w[plain[h].target].entries, plain[h].target, plain[h].listed, SlotOf(handles, slots, h).value.dir, m)
    case OpeningFile(_, target) => OpenFits(slots, w, target, m)
    case OpeningLock(target) => OpenFits(slots, w, target, m)
    case Writing(_, _, _, _) => !m.ErrorAnswer?
  }

  ghost predicate HandlesGood(handles: Handles, plain: Plains, slots: seq<Slot>, w: World, pending: seq<Op>) {
    forall h :: HandleGood(handles, plain, slots, w, pending, h)
  }

  ghost predicate MessagesGood(handles: Handles, plain: Plains, slots: seq<Slot>,
                               w: World, pending: seq<Op>, flight: seq<Msg>) {
    forall i, k :: (0 <= i < |pending| && 0 <= k < |flight| && Belongs(flight[k], pending[i])) ==>
      MessageGood(handles, plain, slots, w, pending[i].detail, flight[k])
  }

  ghost predicate PlainOk(plain: Plains, next: nat) {
    forall h <- plain :: h < next
  }

  ghost predicate Good(c: Client, flight: seq<Msg>, slots: seq<Slot>, w: World, plain: Plains) {
    && HandlesGood(c.handles, plain, slots, w, c.pending)
    && MessagesGood(c.handles, plain, slots, w, c.pending, flight)
    && PlainOk(plain, c.next)
  }

  /** The log so far is one that the plain file system would have given, and the parts of the system agree with it. */
  ghost predicate Content(s: State, w: World) {
    && Replay(w, s.client.log).Some?
    && Good(s.client, Flight(s), s.server.slots, w, Replay(w, s.client.log).value)
  }

  // ---------- the operation of a handle ----------

  lemma {:induction false} WorkOnNone(pending: seq<Op>, h: nat)
    requires forall i :: 0 <= i < |pending| ==> HandleOf(pending[i].detail) != Some(h)
    ensures WorkOn(pending, h) == None
  {
    if pending == [] {
    } else {
      WorkOnNone(pending[1..], h);
    }
  }

  lemma {:induction false} WorkOnIs(pending: seq<Op>, i: nat, h: nat)
    requires OnePerHandle(pending) && i < |pending| && HandleOf(pending[i].detail) == Some(h)
    ensures WorkOn(pending, h) == Some(pending[i].detail)
  {
    if i == 0 {
    } else {
      assert SameHandle(pending[0].detail, pending[i].detail) || HandleOf(pending[0].detail) != Some(h);
      var rest := pending[1..];
      assert forall j :: 0 <= j < |rest| ==> rest[j] == pending[j + 1];
      WorkOnIs(rest, i - 1, h);
    }
  }

  lemma {:induction false} WorkOnRemoved(pending: seq<Op>, i: nat, g: nat)
    requires i < |pending| && HandleOf(pending[i].detail) != Some(g)
    ensures WorkOn(pending[..i] + pending[i + 1..], g) == WorkOn(pending, g)
  {
    if i == 0 {
      assert pending[..0] + pending[1..] == pending[1..];
    } else {
      WorkOnRemoved(pending[1..], i - 1, g);
      assert (pending[..i] + pending[i + 1..])[1..] == pending[1..][..i - 1] + pending[1..][i..];
    }
  }

  lemma {:induction false} WorkOnReplaced(pending: seq<Op>, i: nat, op: Op, g: nat)
    requires i < |pending| && HandleOf(pending[i].detail) != Some(g) && HandleOf(op.detail) != Some(g)
    ensures WorkOn(pending[i := op], g) == WorkOn(pending, g)
  {
    if i == 0 {
      assert pending[0 := op][1..] == pending[1..];
    } else {
      WorkOnReplaced(pending[1..], i - 1, op, g);
      assert pending[i := op][1..] == pending[1..][i - 1 := op];
    }
  }

  // ---------- one handle changes ----------

  /** All handles but h are as before, for the client and for its callers. */
  predicate SameButOne(handles: Handles, handles': Handles, plain: Plains, plain': Plains, h: nat) {
    && handles - {h} == handles' - {h}
    && plain - {h} == plain' - {h}
  }

  lemma SameAt(handles: Handles, handles': Handles, plain: Plains, plain': Plains, h: nat, g: nat)
    requires SameButOne(handles, handles', plain, plain', h) && g != h
    ensures g in handles <==> g in handles'
    ensures g in handles ==> handles[g] == handles'[g]
    ensures g in plain <==> g in plain'
    ensures g in plain ==> plain[g] == plain'[g]
  {
    assert g in handles <==> g in handles - {h};
    assert g in handles' <==> g in handles' - {h};
    assert g in plain <==> g in plain - {h};
    assert g in plain' <==> g in plain' - {h};
    assert g in handles ==> (handles - {h})[g] == (handles' - {h})[g];
    assert g in plain ==> (plain - {h})[g] == (plain' - {h})[g];
  }

  lemma HandleGoodAt(handles: Handles, handles': Handles, plain: Plains, plain': Plains, slots: seq<Slot>, w: World,
                     pending: seq<Op>, pending': seq<Op>, h: nat, g: nat)
    requires SameButOne(handles, handles', plain, plain', h) && g != h
    requires WorkOn(pending', g) == WorkOn(pending, g)
    requires HandleGood(handles, plain, slots, w, pending, g)
    ensures HandleGood(handles', plain', slots, w, pending', g)
  {
    hide WorkOn, HandleShows;
    SameAt(handles, handles', plain, plain', h, g);
  }

  lemma MessageGoodAt(handles: Handles, handles': Handles, plain: Plains, plain': Plains, slots: seq<Slot>, w: World,
                      h: nat, d: Detail, m: Msg)
    requires SameButOne(handles, handles', plain, plain', h)
    requires HandleOf(d) != Some(h) || (d.Enumerating? && h !in plain')
    requires MessageGood(handles, plain, slots, w, d, m)
    ensures MessageGood(handles', plain', slots, w, d, m)
  {
    hide ListFits, DataFits, OpenFits;
    if HandleOf(d).Some? && HandleOf(d) != Some(h) {
      SameAt(handles, handles', plain, plain', h, HandleOf(d).value);
    }
  }

  /** One message more, a close request. */
  predicate ClosePosted(flight: seq<Msg>, flight': seq<Msg>) {
    && |flight'| == |flight| + 1 && flight' == flight + [flight'[|flight|]]
    && flight'[|flight|].CloseRequest?
  }

  /** No operation works on handle h, unless it lists a directory that the callers do not follow. */
  predicate Unheeded(pending: seq<Op>, plain: Plains, h: nat) {
    forall i :: 0 <= i < |pending| && HandleOf(pending[i].detail) == Some(h) ==>
      pending[i].detail.Enumerating? && h !in plain
  }

  /** Handle h, in no operation's use, changes; a close request may be sent. */
  lemma LocalGood(c: Client, d: Client, flight: seq<Msg>, flight': seq<Msg>,
                  slots: seq<Slot>, w: World, plain: Plains, plain': Plains, h: nat)
    requires Good(c, flight, slots, w, plain) && PlainOk(plain', d.next)
    requires d.pending == c.pending && Unheeded(c.pending, plain', h)
    requires flight' == flight || ClosePosted(flight, flight')
    requires SameButOne(c.handles, d.handles, plain, plain', h)
    requires HandleGood(d.handles, plain', slots, w, d.pending, h)
    ensures Good(d, flight', slots, w, plain')
  {
    hide HandleGood, MessageGood, SameButOne, WorkOn;
    forall g
      ensures HandleGood(d.handles, plain', slots, w, d.pending, g)
    {
      if g != h {
        HandleGoodAt(c.handles, d.handles, plain, plain', slots, w, c.pending, d.pending, h, g);
      }
    }
    forall i, k | 0 <= i < |d.pending| && 0 <= k < |flight'| && Belongs(flight'[k], d.pending[i])
      ensures MessageGood(d.handles, plain', slots, w, d.pending[i].detail, flight'[k])
    {
      assert flight'[k] == flight[k];
      MessageGoodAt(c.handles, d.handles, plain, plain', slots, w, h, d.pending[i].detail, flight[k]);
    }
  }

  /** An operation on handle h, or on none, begins. */
  lemma BeginGood(c: Client, d: Client, flight: seq<Msg>, slots: seq<Slot>,
                  w: World, plain: Plains, h: nat, op: Op, m: Msg, sent: nat)
    requires Good(c, flight, slots, w, plain) && PlainOk(plain, d.next)
    requires Matched(c.pending, flight, sent) && op.seqno == sent == m.seqno
    requires d.pending == [op] + c.pending && Unheeded(c.pending, plain, h)
    requires HandleOf(op.detail) == Some(h) || HandleOf(op.detail) == None
    requires SameButOne(c.handles, d.handles, plain, plain, h)
    requires HandleGood(d.handles, plain, slots, w, d.pending, h)
    requires MessageGood(d.handles, plain, slots, w, op.detail, m)
    ensures Good(d, flight + [m], slots, w, plain)
  {
    MatchedBounds(c.pending, flight, sent);
    hide HandleGood, MessageGood, SameButOne, Matched;
    forall g
      ensures HandleGood(d.handles, plain, slots, w, d.pending, g)
    {
      if g != h {
        assert d.pending[1..] == c.pending;
        HandleGoodAt(c.handles, d.handles, plain, plain, slots, w, c.pending, d.pending, h, g);
      }
    }
    var flight' := flight + [m];
    forall i, k | 0 <= i < |d.pending| && 0 <= k < |flight'| && Belongs(flight'[k], d.pending[i])
      ensures MessageGood(d.handles, plain, slots, w, d.pending[i].detail, flight'[k])
    {
      if i > 0 && k < |flight| {
        assert Belongs(flight[k], c.pending[i - 1]);
        MessageGoodAt(c.handles, d.handles, plain, plain, slots, w, h, d.pending[i].detail, flight[k]);
      }
    }
  }

  /** The operation at place i, on handle h or making it, is over; a close request may be sent. */
  lemma FinishGood(c: Client, d: Client, flight: seq<Msg>, flight': seq<Msg>, slots: seq<Slot>, w: World,
                   plain: Plains, plain': Plains, h: nat, i: nat)
    requires Good(c, flight, slots, w, plain) && PlainOk(plain', d.next) && flight != []
    requires i < |c.pending| && d.pending == c.pending[..i] + c.pending[i + 1..] && Unheeded(d.pending, plain', h)
    requires flight' == flight[1..] || ClosePosted(flight[1..], flight')
    requires HandleOf(c.pending[i].detail) == Some(h) || HandleOf(c.pending[i].detail) == None
    requires SameButOne(c.handles, d.handles, plain, plain', h)
    requires HandleGood(d.handles, plain', slots, w, d.pending, h)
    ensures Good(d, flight', slots, w, plain')
  {
    hide HandleGood, MessageGood, SameButOne, WorkOn;
    forall g
      ensures HandleGood(d.handles, plain', slots, w, d.pending, g)
    {
      if g != h {
        WorkOnRemoved(c.pending, i, g);
        HandleGoodAt(c.handles, d.handles, plain, plain', slots, w, c.pending, d.pending, h, g);
      }
    }
    forall j, k | 0 <= j < |d.pending| && 0 <= k < |flight'| && Belongs(flight'[k], d.pending[j])
      ensures MessageGood(d.handles, plain', slots, w, d.pending[j].detail, flight'[k])
    {
      var j' := if j < i then j else j + 1;
      assert d.pending[j] == c.pending[j'] && flight'[k] == flight[k + 1];
      assert Belongs(flight[k + 1], c.pending[j']);
      MessageGoodAt(c.handles, d.handles, plain, plain', slots, w, h, d.pending[j].detail, flight[k + 1]);
    }
  }

  /** The operation at place i, on handle h, goes on under a new number. */
  lemma ContinueGood(c: Client, d: Client, flight: seq<Msg>, slots: seq<Slot>, w: World,
                     plain: Plains, h: nat, i: nat, op: Op, m: Msg, sent: nat)
    requires Good(c, flight, slots, w, plain) && PlainOk(plain, d.next) && flight != []
    requires Matched(c.pending, flight, sent) && op.seqno == sent == m.seqno && OnePerHandle(c.pending)
    requires i < |c.pending| && d.pending == c.pending[i := op]
    requires HandleOf(c.pending[i].detail) == Some(h) == HandleOf(op.detail) && !c.pending[i].detail.Enumerating?
    requires SameButOne(c.handles, d.handles, plain, plain, h)
    requires HandleGood(d.handles, plain, slots, w, d.pending, h)
    requires MessageGood(d.handles, plain, slots, w, op.detail, m)
    ensures Good(d, flight[1..] + [m], slots, w, plain)
  {
    MatchedBounds(c.pending, flight, sent);
    hide HandleGood, MessageGood, SameButOne, Matched, WorkOn;
    forall g
      ensures HandleGood(d.handles, plain, slots, w, d.pending, g)
    {
      if g != h {
        WorkOnReplaced(c.pending, i, op, g);
        HandleGoodAt(c.handles, d.handles, plain, plain, slots, w, c.pending, d.pending, h, g);
      }
    }
    var flight' := flight[1..] + [m];
    forall j, k | 0 <= j < |d.pending| && 0 <= k < |flight'| && Belongs(flight'[k], d.pending[j])
      ensures MessageGood(d.handles, plain, slots, w, d.pending[j].detail, flight'[k])
    {
      if j != i && k < |flight| - 1 {
        assert Belongs(flight[k + 1], c.pending[j]);
        assert !SameHandle(c.pending[j].detail, c.pending[i].detail);
        MessageGoodAt(c.handles, d.handles, plain, plain, slots, w, h, d.pending[j].detail, flight[k + 1]);
      }
    }
  }

  // ---------- the server's steps ----------

  /** A slot that belongs to no handle and no open answer changes. */
  lemma UnownedSlotGood(c: Client, flight: seq<Msg>, slots: seq<Slot>, w: World, plain: Plains, n: nat, slot: Slot)
    requires Good(c, flight, slots, w, plain) && n < |slots|
    requires forall h :: !OwnsSlot(c.handles, h, n)
    requires forall k :: 0 <= k < |flight| && flight[k].OpenAnswer? ==> flight[k].handle != n
    ensures Good(c, flight, slots[n := slot], w, plain)
  {
    var slots' := slots[n := slot];
    forall h: nat
      ensures SlotOf(c.handles, slots', h) == SlotOf(c.handles, slots, h)
    {
      assert !OwnsSlot(c.handles, h, n);
    }
    hide HandleShows, ListFits, DataFits, Shows, SlotOf;
    forall h
      ensures HandleGood(c.handles, plain, slots', w, c.pending, h)
    {
      assert HandleGood(c.handles, plain, slots, w, c.pending, h);
    }
    forall i, k | 0 <= i < |c.pending| && 0 <= k < |flight| && Belongs(flight[k], c.pending[i])
      ensures MessageGood(c.handles, plain, slots', w, c.pending[i].detail, flight[k])
    {
      assert MessageGood(c.handles, plain, slots, w, c.pending[i].detail, flight[k]);
    }
  }

  /** The request at place n becomes its answer. */
  lemma AnsweredGood(c: Client, flight: seq<Msg>, slots: seq<Slot>, w: World, plain: Plains, n: nat, a: Msg)
    requires Good(c, flight, slots, w, plain) && n < |flight| && a.seqno == flight[n].seqno && !flight[n].CloseRequest?
    requires forall i :: 0 <= i < |c.pending| && Belongs(flight[n], c.pending[i]) ==>
      MessageGood(c.handles, plain, slots, w, c.pending[i].detail, a)
    ensures Good(c, flight[n := a], slots, w, plain)
  {
    hide MessageGood, HandleGood;
    var flight' := flight[n := a];
    forall i, k | 0 <= i < |c.pending| && 0 <= k < |flight'| && Belongs(flight'[k], c.pending[i])
      ensures MessageGood(c.handles, plain, slots, w, c.pending[i].detail, flight'[k])
    {
      assert Belongs(flight[k], c.pending[i]);
    }
  }

  /** The close request at place n is gone. */
  lemma ClosedGood(c: Client, flight: seq<Msg>, slots: seq<Slot>, w: World, plain: Plains, n: nat)
    requires Good(c, flight, slots, w, plain) && n < |flight|
    ensures Good(c, flight[..n] + flight[n + 1..], slots, w, plain)
  {
    hide MessageGood, HandleGood;
    var rest := flight[..n] + flight[n + 1..];
    forall i, k | 0 <= i < |c.pending| && 0 <= k < |rest| && Belongs(rest[k], c.pending[i])
      ensures MessageGood(c.handles, plain, slots, w, c.pending[i].detail, rest[k])
    {
      var k' := if k < n then k else k + 1;
      assert rest[k] == flight[k'];
      assert Belongs(flight[k'], c.pending[i]);
    }
  }

  predicate OneFreeSlotChanges(slots: seq<Slot>, slots': seq<Slot>, n: nat) {
    n < |slots| == |slots'| && slots[n].fd == 0 && slots' == slots[n := slots'[n]]
  }

  /** An opened slot is what its answer says. */
  lemma OpenedFits(s: Server, w: World, m: Msg, os: OsResult)
    requires m.OpenRequest? && 0 < os.fd && PosixError(os.code)
    ensures var (s', a) := ServeOpen(s, w, m, os);
      && OpenFits(s'.slots, w, m.path, a)
      && a.seqno == m.seqno && IsAnswer(a)
      && (s'.slots == s.slots || OneFreeSlotChanges(s.slots, s'.slots, FirstFree(s.slots)))
  {
  }

  /** What a read is answered with, where the slot shows the file. */
  lemma ReadFits(s: Server, w: World, m: Msg, os: OsResult, target: string)
    requires m.ReadRequest? && m.handle < |s.slots| <= MAX_FILE_HANDLES
    requires Shows(s.slots[m.handle], w, false, target) && m.offset <= |w[target].data|
    ensures var a := ServeRead(s, w, m, os);
      (a.ErrorAnswer? && a.code == NETERR_IO_ERROR) || (a.ReadAnswer? && DataFits(w[target].data, m.offset, a.data))
  {
  }

  /** What a request for the next entry is answered with, and where the open directory is then. */
  lemma ListingFits(slot: Slot, w: World, m: Msg, target: string, listed: nat)
    requires m.FindNextRequest? && Shows(slot, w, true, target)
    requires ListFits(w[target].entries, target, listed, slot.dir, m) && listed <= |w[target].entries|
    ensures var (slot', a) := FindNextIn(slot, w, m);
      && slot' == slot.(dir := slot'.dir) && a.seqno == m.seqno
      && ListFits(w[target].entries, target, listed, slot'.dir, a)
  {
  }

  /** The only message of the operation at place i is that at place n. */
  lemma OnlyMessage(pending: seq<Op>, flight: seq<Msg>, sent: nat, i: nat, n: nat, k: nat)
    requires Matched(pending, flight, sent) && i < |pending| && n < |flight| && k < |flight|
    requires Belongs(flight[n], pending[i]) && Belongs(flight[k], pending[i])
    ensures n == k
  {
  }

  lemma SameOp(pending: seq<Op>, i: nat, j: nat, h: nat)
    requires OnePerHandle(pending) && i < |pending| && j < |pending|
    requires HandleOf(pending[i].detail) == Some(h) == HandleOf(pending[j].detail)
    requires pending[i].detail != Enumerating(0)
    ensures i == j
  {
    assert SameHandle(pending[i].detail, pending[j].detail) && SameHandle(pending[j].detail, pending[i].detail);
  }

  lemma SameNumber(pending: seq<Op>, flight: seq<Msg>, sent: nat, i: nat, j: nat)
    requires Matched(pending, flight, sent) && i < |pending| && j < |pending| && pending[i].seqno == pending[j].seqno
    ensures i == j
  {
    var ps := PendingNumbers(pending);
    IncreasingMultiplicity(flight, sent, pending[i].seqno);
    if i < j {
      MultiplicityTwo(ps, i, j);
    } else if j < i {
      MultiplicityTwo(ps, j, i);
    }
  }

  /** The handle that lists, and its message, after the server has gone on by an entry. */
  lemma ListedHandleGood(handles: Handles, plain: Plains, slots: seq<Slot>, w: World, pending: seq<Op>, h: nat, m: Msg)
    requires h in handles && handles[h].id < |slots| && m.FindNextRequest?
    requires HandleGood(handles, plain, slots, w, pending, h) && WorkOn(pending, h) == Some(Enumerating(h))
    requires MessageGood(handles, plain, slots, w, Enumerating(h), m)
    ensures var (slot, a) := FindNextIn(slots[handles[h].id], w, m);
      var slots' := slots[handles[h].id := slot];
      && a.seqno == m.seqno
      && HandleGood(handles, plain, slots', w, pending, h)
      && MessageGood(handles, plain, slots', w, Enumerating(h), a)
  {
    var slot := slots[handles[h].id];
    assert HandleShows(handles[h], plain[h], slot, w, WorkOn(pending, h));
    hide WorkOn;
    if handles[h].kind == DirKind {
      var target := plain[h].target;
      ListingFits(slot, w, m, target, plain[h].listed);
      hide FindNextIn, ListFits;
    }
  }

  /** The directory that handle h lists goes on by an entry. */
  lemma ListedGood(c: Client, flight: seq<Msg>, slots: seq<Slot>, w: World,
                   plain: Plains, sent: nat, i: nat, n: nat, h: nat)
    requires Good(c, flight, slots, w, plain) && Matched(c.pending, flight, sent) && OnePerHandle(c.pending)
    requires Exclusive(c.handles, flight, slots) && Kinds(c, flight) && |slots| == MAX_FILE_HANDLES
    requires i < |c.pending| && n < |flight| && Belongs(flight[n], c.pending[i])
    requires c.pending[i].detail == Enumerating(h) && flight[n].FindNextRequest?
    requires h in c.handles && h != 0 && flight[n].handle == c.handles[h].id < |slots|
    ensures var (slot, a) := FindNextIn(slots[c.handles[h].id], w, flight[n]);
      Good(c, flight[n := a], slots[c.handles[h].id := slot], w, plain)
  {
    var id, m := c.handles[h].id, flight[n];
    var (slot, a) := FindNextIn(slots[id], w, m);
    var slots', flight' := slots[id := slot], flight[n := a];
    WorkOnIs(c.pending, i, h);
    assert HandleGood(c.handles, plain, slots, w, c.pending, h);
    assert MessageGood(c.handles, plain, slots, w, c.pending[i].detail, m);
    ListedHandleGood(c.handles, plain, slots, w, c.pending, h, m);
    assert OwnsSlot(c.handles, h, id);
    forall g | g != h
      ensures SlotOf(c.handles, slots', g) == SlotOf(c.handles, slots, g)
    {
      assert OwnsSlot(c.handles, g, id) ==> g == h;
    }
    forall k | 0 <= k < |flight|
      ensures !(flight[k].OpenAnswer? && flight[k].handle == id)
    {
      assert Token(flight[k]) != Some(id);
    }
    hide FindNextIn, HandleShows, ListFits, DataFits, Shows, SlotOf, Exclusive, WorkOn, IsAnswer, RequestFits, Expected;
    forall g
      ensures HandleGood(c.handles, plain, slots', w, c.pending, g)
    {
      assert HandleGood(c.handles, plain, slots, w, c.pending, g);
    }
    forall j, k | 0 <= j < |c.pending| && 0 <= k < |flight'| && Belongs(flight'[k], c.pending[j])
      ensures MessageGood(c.handles, plain, slots', w, c.pending[j].detail, flight'[k])
    {
      assert Belongs(flight[k], c.pending[j]);
      assert MessageGood(c.handles, plain, slots, w, c.pending[j].detail, flight[k]);
      if HandleOf(c.pending[j].detail) == Some(h) {
        SameOp(c.pending, i, j, h);
        OnlyMessage(c.pending, flight, sent, i, n, k);
      } else if k == n {
        assert c.pending[j].seqno == c.pending[i].seqno;
        SameNumber(c.pending, flight, sent, i, j);
      }
    }
  }
}
