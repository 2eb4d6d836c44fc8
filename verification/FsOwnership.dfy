/**
 Who owns a slot of the server's handle table: one client handle, or an answer
 that is about to make one, or a request that is about to close it.
 */
module FsOwnership {
  import opened Base
  import opened RemoteFs
  import opened FsSystem
  import opened FsMatching

  /** The slot that a message in flight owns. */
  function Token(m: Msg): Option<nat> {
    if m.OpenAnswer? then Some(m.handle)
    else if m.CloseRequest? && m.handle < MAX_FILE_HANDLES then Some(m.handle)
    else None
  }

  type Handles = map<nat, Handle>

  predicate OwnsSlot(handles: Handles, h: nat, i: nat) {
    h in handles && handles[h].id == i
  }

  predicate Used(slots: seq<Slot>, i: nat) {
    i < |slots| && slots[i].fd != 0
  }

  /** Every owner's slot is in use, and no two owners have the same one. */
  ghost predicate Exclusive(handles: Handles, flight: seq<Msg>, slots: seq<Slot>) {
    && (forall h, i: nat :: OwnsSlot(handles, h, i) && i < MAX_FILE_HANDLES ==> Used(slots, i))
    && (forall k :: 0 <= k < |flight| && Token(flight[k]).Some? ==> Used(slots, Token(flight[k]).value))
    && (forall g, h, i: nat :: OwnsSlot(handles, g, i) && OwnsSlot(handles, h, i) && i < MAX_FILE_HANDLES ==> g == h)
    && (forall j, k :: 0 <= j < k < |flight| && Token(flight[j]).Some? ==> Token(flight[j]) != Token(flight[k]))
    && (forall h, i: nat, k :: OwnsSlot(handles, h, i) && 0 <= k < |flight| ==> Token(flight[k]) != Some(i))
  }

  predicate HasOwner(handles: Handles, flight: seq<Msg>, i: nat) {
    || (exists h <- handles :: OwnsSlot(handles, h, i))
    || (exists k :: 0 <= k < |flight| && Token(flight[k]) == Some(i))
  }

  /** No slot is left in use without an owner. */
  ghost predicate NoLeak(handles: Handles, flight: seq<Msg>, slots: seq<Slot>) {
    forall i :: Used(slots, i) ==> HasOwner(handles, flight, i)
  }

  ghost predicate Ownership(s: State) {
    && Exclusive(s.client.handles, Flight(s), s.server.slots)
    && NoLeak(s.client.handles, Flight(s), s.server.slots)
  }

  ghost predicate Owned(handles: Handles, flight: seq<Msg>, slots: seq<Slot>) {
    Exclusive(handles, flight, slots) && NoLeak(handles, flight, slots)
  }

  /** The same handles own the same slots. */
  ghost predicate SameOwners(handles: Handles, handles': Handles) {
    forall h, i: nat :: i < MAX_FILE_HANDLES ==> (OwnsSlot(handles, h, i) <==> OwnsSlot(handles', h, i))
  }

  predicate SameUse(slots: seq<Slot>, slots': seq<Slot>) {
    |slots| == |slots'| <= MAX_FILE_HANDLES
    && forall i :: 0 <= i < |slots| ==> (slots[i].fd == 0 <==> slots'[i].fd == 0)
  }

  lemma OwnersUnchanged(handles: Handles, handles': Handles, flight: seq<Msg>, slots: seq<Slot>)
    requires Owned(handles, flight, slots) && SameOwners(handles, handles') && |slots| <= MAX_FILE_HANDLES
    ensures Owned(handles', flight, slots)
  {
    forall i: nat | Used(slots, i)
      ensures HasOwner(handles', flight, i)
    {
      assert HasOwner(handles, flight, i);
      if exists h <- handles :: OwnsSlot(handles, h, i) {
        var h :| h in handles && OwnsSlot(handles, h, i);
        assert OwnsSlot(handles', h, i);
      }
    }
    forall h, i: nat, k | OwnsSlot(handles', h, i) && 0 <= k < |flight|
      ensures Token(flight[k]) != Some(i)
    {
      if i < MAX_FILE_HANDLES {
        assert OwnsSlot(handles, h, i);
      }
    }
  }

  /** A message without a token comes in at the end. */
  lemma AddPlain(handles: Handles, flight: seq<Msg>, slots: seq<Slot>, m: Msg)
    requires Owned(handles, flight, slots) && Token(m).None?
    ensures Owned(handles, flight + [m], slots)
  {
    forall i: nat | Used(slots, i)
      ensures HasOwner(handles, flight + [m], i)
    {
      assert HasOwner(handles, flight, i);
      if k :| 0 <= k < |flight| && Token(flight[k]) == Some(i) {
        assert Token((flight + [m])[k]) == Some(i);
      }
    }
  }

  /** A message without a token leaves at place n. */
  lemma DropPlain(handles: Handles, flight: seq<Msg>, slots: seq<Slot>, n: nat)
    requires Owned(handles, flight, slots) && n < |flight| && Token(flight[n]).None?
    ensures Owned(handles, flight[..n] + flight[n + 1..], slots)
  {
    var rest := flight[..n] + flight[n + 1..];
    assert forall k :: 0 <= k < |rest| ==> rest[k] == flight[if k < n then k else k + 1];
    forall i: nat | Used(slots, i)
      ensures HasOwner(handles, rest, i)
    {
      assert HasOwner(handles, flight, i);
      if k :| 0 <= k < |flight| && Token(flight[k]) == Some(i) {
        assert rest[if k < n then k else k - 1] == flight[k];
      }
    }
  }

  /** A message without a token becomes another one without a token. */
  lemma SwapPlain(handles: Handles, flight: seq<Msg>, slots: seq<Slot>, n: nat, m: Msg)
    requires Owned(handles, flight, slots) && n < |flight| && Token(flight[n]).None? && Token(m).None?
    ensures Owned(handles, flight[n := m], slots)
  {
    var changed := flight[n := m];
    forall i: nat | Used(slots, i)
      ensures HasOwner(handles, changed, i)
    {
      assert HasOwner(handles, flight, i);
      if k :| 0 <= k < |flight| && Token(flight[k]) == Some(i) {
        assert changed[k] == flight[k];
      }
    }
  }

  lemma SameUseOwned(handles: Handles, flight: seq<Msg>, slots: seq<Slot>, slots': seq<Slot>)
    requires Owned(handles, flight, slots) && SameUse(slots, slots')
    ensures Owned(handles, flight, slots')
  {
    forall i: nat
      ensures Used(slots, i) <==> Used(slots', i)
    {
    }
  }

  /** A handle is freed: its slot passes to the close request. */
  lemma OwnerCloses(handles: Handles, flight: seq<Msg>, slots: seq<Slot>, h: nat, m: Msg)
    requires Owned(handles, flight, slots) && |slots| <= MAX_FILE_HANDLES
    requires h in handles && m.CloseRequest? && m.handle == handles[h].id
    ensures Owned(handles - {h}, flight + [m], slots)
  {
    var rest, longer, id := handles - {h}, flight + [m], handles[h].id;
    assert OwnsSlot(handles, h, id);
    forall i: nat | Used(slots, i)
      ensures HasOwner(rest, longer, i)
    {
      assert HasOwner(handles, flight, i);
      if g :| g in handles && OwnsSlot(handles, g, i) {
        if g == h {
          assert Token(longer[|flight|]) == Some(i);
        } else {
          assert OwnsSlot(rest, g, i);
        }
      } else {
        var k :| 0 <= k < |flight| && Token(flight[k]) == Some(i);
        assert Token(longer[k]) == Some(i);
      }
    }
    forall g, i: nat, k | OwnsSlot(rest, g, i) && 0 <= k < |longer|
      ensures Token(longer[k]) != Some(i)
    {
      assert OwnsSlot(handles, g, i);
    }
    forall j, k | 0 <= j < k < |longer| && Token(longer[j]).Some?
      ensures Token(longer[j]) != Token(longer[k])
    {
      assert Token(flight[j]) != Some(id);
    }
    forall g, i: nat | OwnsSlot(rest, g, i) && i < MAX_FILE_HANDLES
      ensures Used(slots, i)
    {
      assert OwnsSlot(handles, g, i);
    }
    forall g, g', i: nat | OwnsSlot(rest, g, i) && OwnsSlot(rest, g', i) && i < MAX_FILE_HANDLES
      ensures g == g'
    {
      assert OwnsSlot(handles, g, i) && OwnsSlot(handles, g', i);
    }
  }

  /** A free slot is taken: it belongs to the answer. */
  lemma SlotOpens(handles: Handles, flight: seq<Msg>, slots: seq<Slot>, n: nat, m: Msg, slot: Slot)
    requires Owned(handles, flight, slots) && |slots| <= MAX_FILE_HANDLES
    requires n < |flight| && Token(flight[n]).None? && m.OpenAnswer?
    requires m.handle < |slots| && slots[m.handle].fd == 0 && slot.fd != 0
    ensures Owned(handles, flight[n := m], slots[m.handle := slot])
  {
    var changed, slots', id := flight[n := m], slots[m.handle := slot], m.handle;
    assert !Used(slots, id);
    forall i: nat
      ensures Used(slots', i) <==> Used(slots, i) || i == id
    {
    }
    forall i: nat | Used(slots', i)
      ensures HasOwner(handles, changed, i)
    {
      if i == id {
        assert Token(changed[n]) == Some(i);
      } else {
        assert HasOwner(handles, flight, i);
        if k :| 0 <= k < |flight| && Token(flight[k]) == Some(i) {
          assert changed[k] == flight[k];
        }
      }
    }
    forall k | 0 <= k < |changed| && k != n
      ensures changed[k] == flight[k] && Token(changed[k]) != Some(id)
    {
    }
  }

  /** A close request is served: its slot is free. */
  lemma SlotCloses(handles: Handles, flight: seq<Msg>, slots: seq<Slot>, n: nat, slot: Slot)
    requires Owned(handles, flight, slots) && n < |flight| && flight[n].CloseRequest?
    requires flight[n].handle < |slots| <= MAX_FILE_HANDLES && slot.fd == 0
    ensures Owned(handles, flight[..n] + flight[n + 1..], slots[flight[n].handle := slot])
  {
    var rest, id := flight[..n] + flight[n + 1..], flight[n].handle;
    var slots' := slots[id := slot];
    assert Token(flight[n]) == Some(id);
    assert forall k :: 0 <= k < |rest| ==> rest[k] == flight[if k < n then k else k + 1];
    forall i: nat
      ensures Used(slots', i) <==> Used(slots, i) && i != id
    {
    }
    forall i: nat | Used(slots', i)
      ensures HasOwner(handles, rest, i)
    {
      assert HasOwner(handles, flight, i);
      if k :| 0 <= k < |flight| && Token(flight[k]) == Some(i) {
        assert rest[if k < n then k else k - 1] == flight[k];
      }
    }
    forall k | 0 <= k < |rest| && Token(rest[k]).Some?
      ensures Used(slots', Token(rest[k]).value)
    {
      var k' := if k < n then k else k + 1;
      assert Token(flight[k']) != Some(id);
    }
  }

  /** An answer makes a new handle: its slot passes to the handle. */
  lemma AnswerBecomesHandle(handles: Handles, flight: seq<Msg>, slots: seq<Slot>, h: nat, hd: Handle)
    requires Owned(handles, flight, slots) && flight != [] && h !in handles
    requires Token(flight[0]) == Some(hd.id)
    ensures Owned(handles[h := hd], flight[1..], slots)
  {
    var more, rest := handles[h := hd], flight[1..];
    assert Token(flight[0]).Some?;
    forall g, i: nat
      ensures OwnsSlot(more, g, i) <==> (if g == h then i == hd.id else OwnsSlot(handles, g, i))
    {
    }
    assert forall k :: 0 <= k < |rest| ==> rest[k] == flight[k + 1];
    forall i: nat | Used(slots, i)
      ensures HasOwner(more, rest, i)
    {
      assert HasOwner(handles, flight, i);
      if g :| g in handles && OwnsSlot(handles, g, i) {
        assert OwnsSlot(more, g, i);
      } else {
        var k :| 0 <= k < |flight| && Token(flight[k]) == Some(i);
        if k == 0 {
          assert OwnsSlot(more, h, i);
        } else {
          assert rest[k - 1] == flight[k];
        }
      }
    }
  }

  // ---------- every step keeps the ownership ----------

  /** Packets other than a freed lock leave the owners alone and send at most one request without a token. */
  lemma PacketOwners(c: Client, packet: nat, p: Packet)
    requires Acceptable(c, p) && KnownHandles(c)
    requires p.CopyDir? ==> c.handles[p.h].id >= MAX_FILE_HANDLES
    requires p.Free? ==> c.handles[p.h].kind == DeviceKind
    ensures var d := ProcessPacket(c, packet, p);
      && SameOwners(c.handles, d.handles)
      && (d.out == c.out || (d.out == c.out + [d.out[|c.out|]] && Token(d.out[|c.out|]).None?))
  {
    hide BufferOverlap, SeekOffset, Normalize, AfterColon, LastSlash, Truncate;
    var d := ProcessPacket(c, packet, p);
    assert c.next !in c.handles;
    forall h, i: nat | i < MAX_FILE_HANDLES
      ensures OwnsSlot(c.handles, h, i) <==> OwnsSlot(d.handles, h, i)
    {
    }
  }

  lemma PacketOwnership(s: State, w: World, p: Packet)
    requires Structure(s) && Ownership(s) && Enabled(s, TakePacket(p))
    ensures Ownership(Step(s, w, TakePacket(p)))
  {
    var s', c := Step(s, w, TakePacket(p)), s.client;
    var d, flight, slots := s'.client, Flight(s), s.server.slots;
    assert d == ProcessPacket(c, s.taken, p) && s'.server == s.server && s'.answers == s.answers;
    assert KnownHandles(c) && |slots| == MAX_FILE_HANDLES;
    if p.Free? && c.handles[p.h].kind != DeviceKind {
      var m := CloseRequest(c.seqno, c.handles[p.h].id);
      assert d.handles == c.handles - {p.h} && Flight(s') == flight + [m];
      hide Structure, ProcessPacket, Step;
      OwnerCloses(c.handles, flight, slots, p.h, m);
    } else {
      PacketOwners(c, s.taken, p);
      hide Structure, ProcessPacket, Step, Enabled, Acceptable, Exclusive, NoLeak;
      OwnersUnchanged(c.handles, d.handles, flight, slots);
      if d.out != c.out {
        var m := d.out[|c.out|];
        assert Flight(s') == flight + [m];
        AddPlain(d.handles, flight, slots, m);
      } else {
        assert Flight(s') == flight;
      }
    }
  }

  /** What a request does to the use of slots. */
  lemma ServeUse(s: Server, w: World, m: Msg, os: OsResult)
    requires !IsAnswer(m) && |s.slots| == MAX_FILE_HANDLES && 0 < os.fd
    requires m.CloseRequest? ==> IdOk(m.handle)
    ensures var (s', a) := Serve(s, w, m, os);
      && |s'.slots| == MAX_FILE_HANDLES
      && (m.CloseRequest? && m.handle >= MAX_FILE_HANDLES ==> s'.slots == s.slots && a.None?)
      && (m.CloseRequest? && m.handle < MAX_FILE_HANDLES ==>
            s'.slots == s.slots[m.handle := s.slots[m.handle].(fd := 0)] && a.None?)
      && (!m.CloseRequest? ==> a.Some? && IsAnswer(a.value))
      && (!m.CloseRequest? && !a.value.OpenAnswer? ==> SameUse(s.slots, s'.slots) && Token(a.value).None?)
      && (!m.CloseRequest? && a.value.OpenAnswer? ==>
            && a.value.handle < MAX_FILE_HANDLES && s.slots[a.value.handle].fd == 0
            && s'.slots == s.slots[a.value.handle := s'.slots[a.value.handle]] && s'.slots[a.value.handle].fd != 0)
  {
  }

  lemma ServeOwnership(s: State, w: World, os: OsResult)
    requires Structure(s) && Ownership(s) && Enabled(s, ServeNext(os))
    ensures Ownership(Step(s, w, ServeNext(os)))
  {
    var s', n, m := Step(s, w, ServeNext(os)), |s.answers|, s.client.out[0];
    var flight, slots, handles := Flight(s), s.server.slots, s.client.handles;
    var (server, a) := Serve(s.server, w, m, os);
    assert flight[n] == m && |slots| == MAX_FILE_HANDLES;
    assert m.CloseRequest? ==> IdOk(m.handle);
    assert s'.server == server && s'.client.handles == handles;
    ServeUse(s.server, w, m, os);
    hide Structure, Serve, Exclusive, NoLeak, SameUse;
    if m.CloseRequest? {
      assert Flight(s') == flight[..n] + flight[n + 1..];
      if m.handle < MAX_FILE_HANDLES {
        SlotCloses(handles, flight, slots, n, slots[m.handle].(fd := 0));
      } else {
        DropPlain(handles, flight, slots, n);
      }
    } else {
      assert Flight(s') == flight[n := a.value];
      if a.value.OpenAnswer? {
        SlotOpens(handles, flight, slots, n, a.value, server.slots[a.value.handle]);
      } else {
        SwapPlain(handles, flight, slots, n, a.value);
        SameUseOwned(handles, flight[n := a.value], slots, server.slots);
      }
    }
  }

  /** An answer that opens nothing leaves the owners alone and sends at most one request without a token. */
  lemma AnswerOwners(c: Client, m: Msg)
    requires AllLive(c) && FindPending(c.pending, m.seqno).Some? && !m.OpenAnswer? && IsAnswer(m)
    ensures var d := ProcessAnswer(c, m).0;
      && SameOwners(c.handles, d.handles)
      && (d.out == c.out || (d.out == c.out + [d.out[|c.out|]] && Token(d.out[|c.out|]).None?))
  {
    var i := FindPending(c.pending, m.seqno).value;
    assert Live(c, c.pending[i].detail);
    hide TakeData, NextChunk, Truncate, AllLive;
    forall h, j: nat | j < MAX_FILE_HANDLES
      ensures OwnsSlot(c.handles, h, j) <==> OwnsSlot(ProcessAnswer(c, m).0.handles, h, j)
    {
      TakeDataKeepsId(c, i, m);
    }
  }

  lemma TakeDataKeepsId(c: Client, i: nat, m: Msg)
    requires i < |c.pending|
    ensures c.pending[i].detail.Reading? && m.ReadAnswer? && c.pending[i].detail.h in c.handles ==>
      var d := c.pending[i].detail;
      TakeData(c.handles[d.h], d.count - Min(|d.got|, d.count), m.data).0.id == c.handles[d.h].id
  {
  }

  /** What the client does with an open answer. */
  lemma OpenOutcome(c: Client, m: Msg)
    requires AllLive(c) && FindPending(c.pending, m.seqno).Some? && m.OpenAnswer?
    requires Expected(c.pending[FindPending(c.pending, m.seqno).value].detail, m)
    ensures var d := ProcessAnswer(c, m).0;
      if c.pending[FindPending(c.pending, m.seqno).value].detail.OpeningFile? && m.isDir
      then d.handles == c.handles && d.out == c.out + [CloseRequest(c.seqno, m.handle)]
      else c.next in d.handles && d.handles == c.handles[c.next := d.handles[c.next]]
           && d.handles[c.next].id == m.handle && d.out == c.out
  {
    hide Truncate;
  }

  lemma OpenAnswerOwnership(s: State, w: World)
    requires Structure(s) && Ownership(s) && s.answers != [] && s.answers[0].OpenAnswer?
    ensures Ownership(Step(s, w, TakeAnswer))
  {
    AnswerFits(s);
    var s', c, m := Step(s, w, TakeAnswer), s.client, s.answers[0];
    var flight, slots, d := Flight(s), s.server.slots, s'.client;
    var i := FindPending(c.pending, m.seqno).value;
    assert flight[0] == m && |slots| == MAX_FILE_HANDLES && KnownHandles(c);
    assert c.next !in c.handles;
    OpenOutcome(c, m);
    assert d == ProcessAnswer(c, m).0 && s'.server == s.server && s'.answers == s.answers[1..];
    hide Structure, ProcessAnswer, Step, Exclusive, NoLeak;
    if c.pending[i].detail.OpeningFile? && m.isDir {
      var close := CloseRequest(c.seqno, m.handle);
      assert Flight(s') == flight[1..] + [close];
      TokenPasses(c.handles, flight, slots, close);
    } else {
      assert Flight(s') == flight[1..];
      AnswerBecomesHandle(c.handles, flight, slots, c.next, d.handles[c.next]);
    }
  }

  lemma OtherAnswerOwnership(s: State, w: World)
    requires Structure(s) && Ownership(s) && s.answers != [] && !s.answers[0].OpenAnswer?
    ensures Ownership(Step(s, w, TakeAnswer))
  {
    AnswerFits(s);
    var s', c, m := Step(s, w, TakeAnswer), s.client, s.answers[0];
    var flight, slots, d := Flight(s), s.server.slots, s'.client;
    assert flight[0] == m && |slots| == MAX_FILE_HANDLES;
    AnswerOwners(c, m);
    assert d == ProcessAnswer(c, m).0 && s'.server == s.server && s'.answers == s.answers[1..];
    hide Structure, ProcessAnswer, Step, Exclusive, NoLeak, SameOwners, AllLive, Expected;
    TakePlain(c.handles, d.handles, flight, slots);
    if d.out != c.out {
      var r := d.out[|c.out|];
      assert Flight(s') == flight[1..] + [r];
      AddPlain(d.handles, flight[1..], slots, r);
    } else {
      assert Flight(s') == flight[1..];
    }
  }

  lemma TakePlain(handles: Handles, handles': Handles, flight: seq<Msg>, slots: seq<Slot>)
    requires Owned(handles, flight, slots) && SameOwners(handles, handles') && |slots| <= MAX_FILE_HANDLES
    requires flight != [] && Token(flight[0]).None?
    ensures Owned(handles', flight[1..], slots)
  {
    hide Exclusive, NoLeak, SameOwners;
    OwnersUnchanged(handles, handles', flight, slots);
    DropPlain(handles', flight, slots, 0);
    assert flight[..0] + flight[1..] == flight[1..];
  }

  lemma AnswerOwnership(s: State, w: World)
    requires Structure(s) && Ownership(s) && s.answers != []
    ensures Ownership(Step(s, w, TakeAnswer))
  {
    hide Structure, Ownership, Step;
    if s.answers[0].OpenAnswer? {
      OpenAnswerOwnership(s, w);
    } else {
      OtherAnswerOwnership(s, w);
    }
  }

  /** An answer is refused: its slot passes to the close request. */
  lemma TokenPasses(handles: Handles, flight: seq<Msg>, slots: seq<Slot>, m: Msg)
    requires Owned(handles, flight, slots) && flight != [] && flight[0].OpenAnswer? && m.CloseRequest?
    requires m.handle == flight[0].handle && |slots| <= MAX_FILE_HANDLES
    ensures Owned(handles, flight[1..] + [m], slots)
  {
    var rest := flight[1..] + [m];
    assert Token(flight[0]) == Some(m.handle);
    forall k | 0 <= k < |rest|
      ensures Token(rest[k]) == if k < |flight| - 1 then Token(flight[k + 1]) else Token(flight[0])
    {
    }
    forall i: nat | Used(slots, i)
      ensures HasOwner(handles, rest, i)
    {
      assert HasOwner(handles, flight, i);
      if k :| 0 <= k < |flight| && Token(flight[k]) == Some(i) {
        assert Token(rest[if k == 0 then |flight| - 1 else k - 1]) == Some(i);
      }
    }
  }

  lemma StartOwnership(device: string)
    ensures Ownership(StartState(device))
  {
    var s := StartState(device);
    assert Flight(s) == [];
    assert forall i: nat :: !Used(s.server.slots, i);
  }

  lemma {:induction false} RunOwnership(device: string, w: World, events: seq<Event>, states: seq<State>, n: nat)
    requires IsRun(device, w, events, states) && n < |states| && NoWrap(states[n])
    ensures Structure(states[n]) && Ownership(states[n])
  {
    hide Structure, Ownership, Next, RepliesConserved;
    RunMatching(device, w, events, states, n);
    if n == 0 {
      StartOwnership(device);
    } else {
      var s := states[n - 1];
      assert Next(s, w, events[n - 1], states[n]);
      SentGrows(s, w, events[n - 1], states[n]);
      RunOwnership(device, w, events, states, n - 1);
      StepOwnership(s, w, events[n - 1], states[n]);
    }
  }

  lemma StepOwnership(s: State, w: World, e: Event, s': State)
    requires Structure(s) && Ownership(s) && Next(s, w, e, s')
    ensures Ownership(s')
  {
    hide Structure, Ownership, Step;
    match e
    case TakePacket(p) => PacketOwnership(s, w, p);
    case ServeNext(os) => ServeOwnership(s, w, os);
    case TakeAnswer => AnswerOwnership(s, w);
  }

  // ---------- the result ----------

  ghost function UsedSlots(slots: seq<Slot>): set<nat> {
    set i: nat | i < |slots| && slots[i].fd != 0
  }

  ghost function HandleSlots(handles: Handles): set<nat> {
    set h | h in handles && handles[h].id < MAX_FILE_HANDLES :: handles[h].id
  }

  ghost function MessageSlots(flight: seq<Msg>): set<nat> {
    set k | 0 <= k < |flight| && Token(flight[k]).Some? :: Token(flight[k]).value
  }

  /**
   The slots in use are those of the client's handles, disjoint from those of
   the open answers and close requests in flight, and nothing else; there are at
   most 16. Handles and messages have a slot of their own each, which is in use.
   */
  lemma SlotOwnership(device: string, w: World, events: seq<Event>, states: seq<State>, n: nat)
    requires IsRun(device, w, events, states) && n < |states| && NoWrap(states[n])
    ensures
      var handles, flight, slots := states[n].client.handles, Flight(states[n]), states[n].server.slots;
      && UsedSlots(slots) == HandleSlots(handles) + MessageSlots(flight)
      && HandleSlots(handles) !! MessageSlots(flight)
      && |UsedSlots(slots)| <= MAX_FILE_HANDLES
      && Exclusive(handles, flight, slots)
  {
    RunOwnership(device, w, events, states, n);
    var handles, flight, slots := states[n].client.handles, Flight(states[n]), states[n].server.slots;
    assert |slots| == MAX_FILE_HANDLES && Exclusive(handles, flight, slots) && NoLeak(handles, flight, slots);
    hide Structure, Ownership;
    forall i
      ensures i in UsedSlots(slots) <==> i in HandleSlots(handles) + MessageSlots(flight)
    {
      if i in UsedSlots(slots) {
        assert Used(slots, i);
        assert HasOwner(handles, flight, i);
      }
      if h :| h in handles && handles[h].id == i && i < MAX_FILE_HANDLES {
        assert OwnsSlot(handles, h, i);
      }
    }
    forall i | i in HandleSlots(handles)
      ensures i !in MessageSlots(flight)
    {
      var h :| h in handles && handles[h].id == i;
      assert OwnsSlot(handles, h, i);
    }
    SmallSet(UsedSlots(slots), MAX_FILE_HANDLES);
  }

  /** All places below n are in the set only if it has n members. */
  lemma {:induction false} FullSet(x: set<nat>, n: nat)
    requires forall i <- x :: i < n
    ensures |x| == n <==> forall i :: 0 <= i < n ==> i in x
  {
    if n == 0 {
      assert x == {};
    } else {
      var m := n - 1;
      var y := x - {m};
      FullSet(y, m);
      SmallSet(y, m);
      if m in x {
        assert x == y + {m};
      } else {
        assert x == y;
      }
    }
  }

  lemma NoneFree(slots: seq<Slot>)
    ensures FirstFree(slots) == |slots| <==> forall i :: 0 <= i < |slots| ==> i in UsedSlots(slots)
  {
    if FirstFree(slots) < |slots| {
      assert FirstFree(slots) !in UsedSlots(slots);
    }
  }

  lemma RefusedWhenFull(s: Server, w: World, m: Msg, os: OsResult)
    requires |s.slots| == MAX_FILE_HANDLES && m.OpenRequest? && PosixError(os.code)
    ensures Serve(s, w, m, os).1 == Some(ErrorAnswer(m.seqno, NETERR_TOO_MANY_FILES_OPEN)) <==>
      |UsedSlots(s.slots)| == MAX_FILE_HANDLES
  {
    FullSet(UsedSlots(s.slots), MAX_FILE_HANDLES);
    NoneFree(s.slots);
    hide FirstFree;
  }

  /**
   In every run an open is refused for too many files exactly when the handles
   and the messages under way own all sixteen slots.
   */
  lemma TooManyMeansFull(device: string, w: World, events: seq<Event>, states: seq<State>, n: nat, os: OsResult)
    requires IsRun(device, w, events, states) && n < |states| && NoWrap(states[n]) && Enabled(states[n], ServeNext(os))
    requires states[n].client.out[0].OpenRequest?
    ensures var s, m := states[n], states[n].client.out[0];
      Serve(s.server, w, m, os).1 == Some(ErrorAnswer(m.seqno, NETERR_TOO_MANY_FILES_OPEN)) <==>
      |HandleSlots(s.client.handles) + MessageSlots(Flight(s))| == MAX_FILE_HANDLES
  {
    var s := states[n];
    SlotOwnership(device, w, events, states, n);
    RunOwnership(device, w, events, states, n);
    assert |s.server.slots| == MAX_FILE_HANDLES;
    hide IsRun, Structure, Ownership, Exclusive, HandleSlots, MessageSlots, UsedSlots, Serve;
    RefusedWhenFull(s.server, w, s.client.out[0], os);
  }

  /** Duplicating a lock keeps slots exclusive exactly if the lock is the root's or owns no slot. */
  lemma CopiesOwnExactly(s: State, packet: nat, h: nat)
    requires Structure(s) && Ownership(s) && h in s.client.handles
    ensures var hd := s.client.handles[h];
      var kept := Exclusive(ActionCopyDir(s.client, packet, h).handles, Flight(s), s.server.slots);
      kept <==> hd.kind == DeviceKind || hd.id >= MAX_FILE_HANDLES
  {
    var c, hd, flight, slots := s.client, s.client.handles[h], Flight(s), s.server.slots;
    var d := ActionCopyDir(c, packet, h);
    assert KnownHandles(c) && |slots| == MAX_FILE_HANDLES;
    assert Exclusive(c.handles, flight, slots) && NoLeak(c.handles, flight, slots);
    hide Structure, Ownership, Truncate, NoLeak;
    if hd.kind != DeviceKind {
      assert c.next !in c.handles;
      assert d.handles == c.handles[c.next := d.handles[c.next]] && d.handles[c.next].id == hd.id;
      if hd.id >= MAX_FILE_HANDLES {
        OwnersUnchanged(c.handles, d.handles, flight, slots);
      } else {
        assert OwnsSlot(d.handles, h, hd.id) && OwnsSlot(d.handles, c.next, hd.id);
      }
    }
  }

  /**
   Ownership fails once a lock on a slot is duplicated: when the original is
   freed and its close request served, the copy refers to a slot that is free,
   and that the next open will take.
   */
  lemma DuplicateLocksShareASlot(c: Client, s: Server, w: World, h: nat, first: nat, second: nat)
    requires h in c.handles && KnownHandles(c) && c.handles[h].kind != DeviceKind
    requires c.handles[h].id < MAX_FILE_HANDLES == |s.slots|
    ensures var d := ActionFree(ActionCopyDir(c, first, h), second, h);
      var close := d.out[|d.out| - 1];
      && close.CloseRequest?
      && var s' := ServeClose(s, close).0;
      c.next in d.handles && d.handles[c.next].id == c.handles[h].id && s'.slots[c.handles[h].id].fd == 0
      && FirstFree(s'.slots) <= c.handles[h].id
  {
    hide Truncate;
    assert h < c.next;
  }

  lemma {:induction false} SmallSet(s: set<nat>, n: nat)
    requires forall i <- s :: i < n
    ensures |s| <= n
  {
    if n > 0 {
      SmallSet(s - {n - 1}, n - 1);
    } else {
      assert s == {};
    }
  }
}
