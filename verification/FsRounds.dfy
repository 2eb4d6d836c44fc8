/**
 One read or one write of the whole system, with nothing else under way: the
 number of round trips it takes, and what has happened after them.
 */
module FsRounds {
  import opened Base
  import opened RemoteFs
  import opened FsSystem
  import opened FsMatching
  import opened FsContent
  import opened ReadCount
  import opened FsOwnership
  import opened FsRefinement
  import opened Reference

  /** Round trips: the server answers, with all that a file has, and the client takes the answer. */
  ghost predicate Rounds(s: State, w: World, n: nat, s': State)
    decreases n
  {
    if n == 0 then s' == s
    else exists os, served, back :: RoundTrip(s, w, os, served, back) && Rounds(back, w, n - 1, s')
  }

  ghost predicate RoundTrip(s: State, w: World, os: OsResult, served: State, back: State) {
    && !os.fails && os.count >= BUFFER_SIZE
    && Next(s, w, ServeNext(os), served) && Next(served, w, TakeAnswer, back)
  }

  /** Without a request there is no further round trip. */
  lemma NoMoreRounds(s: State, w: World, n: nat, s': State)
    requires s.client.out == [] && Rounds(s, w, n, s')
    ensures n == 0 && s' == s
  {
  }

  /** Where the operations change, there is a first round trip. */
  lemma FirstRound(s: State, w: World, n: nat, s': State) returns (os: OsResult, served: State, back: State)
    requires Rounds(s, w, n, s') && s'.client.pending != s.client.pending
    ensures n > 0 && RoundTrip(s, w, os, served, back) && Rounds(back, w, n - 1, s')
  {
    os, served, back :| RoundTrip(s, w, os, served, back) && Rounds(back, w, n - 1, s');
  }

  /** The server's reads neither fail nor deliver less than they could. */
  const FULL := OsResult(1, false, NETERR_IO_ERROR, BUFFER_SIZE)

  /** A round trip is possible wherever a request is the only message. */
  lemma RoundTripExists(s: State, w: World) returns (served: State, back: State)
    requires AllLive(s.client) && AllRequests(s.client.out) && s.answers == [] && |s.client.out| == 1
    requires Serve(s.server, w, s.client.out[0], FULL).1.Some?
    ensures RoundTrip(s, w, FULL, served, back)
  {
    served := Step(s, w, ServeNext(FULL));
    assert served.answers != [] && served.client == s.client.(out := served.client.out) by {
      hide Serve, ProcessPacket, ProcessAnswer;
    }
    assert AllLive(served.client) && AllRequests(served.client.out) by {
      hide Serve, ProcessPacket, ProcessAnswer;
      forall i | 0 <= i < |served.client.pending|
        ensures Live(served.client, served.client.pending[i].detail)
      {
        assert Live(s.client, s.client.pending[i].detail);
      }
    }
    back := Step(served, w, TakeAnswer);
  }

  // ---------- reading ----------

  /** The only message under way is the request of the only operation, a read of an open file. */
  predicate Reads(s: State, w: World, packet: nat, h: nat, count: nat, got: seq<Byte>, target: string) {
    && s.answers == [] && |s.client.out| == 1 == |s.client.pending| && s.client.seqno == s.sent
    && h in s.client.handles && s.client.handles[h].id < |s.server.slots| <= MAX_FILE_HANDLES
    && var m, op, hd := s.client.out[0], s.client.pending[0], s.client.handles[h];
    && m.ReadRequest? && m.seqno == op.seqno && m.handle == hd.id && m.offset == hd.offset
    && op == Op(op.seqno, packet, Reading(h, count, got)) && |got| <= count
    && Shows(s.server.slots[hd.id], w, false, target)
    && hd.offset <= |w[target].data| < 0x8000_0000
  }

  /** What a read leaves alone. */
  predicate Untouched(s: State, s': State) {
    s'.server == s.server && s'.taken == s.taken && s'.client.next == s.client.next
  }

  /** A round trip of a read is one step of the read loop. */
  lemma ReadRound(s: State, w: World, os: OsResult, served: State, back: State,
                  packet: nat, h: nat, count: nat, got: seq<Byte>, target: string)
    requires Reads(s, w, packet, h, count, got, target) && RoundTrip(s, w, os, served, back) && s.sent + 1 < UINT32
    ensures var file := w[target].data;
      var (hd, more, done) := TakeData(s.client.handles[h], count - |got|,
                                       FullAnswer(file, s.client.handles[h].offset));
      && back.client.handles == s.client.handles[h := hd] && Untouched(s, back)
      && (done ==>
            && back.client.pending == [] && back.client.out == [] && back.answers == []
            && back.sent == s.sent && back.client.seqno == s.client.seqno
            && back.client.log == s.client.log + [Reply(packet, |got + more|, 0, GotData(h, count, got + more, true))])
      && (!done ==>
            && back.sent == s.sent + 1 && back.client.log == s.client.log
            && Reads(back, w, packet, h, count, got + more, target))
  {
    hide Next, FullAnswer;
    var m, file := s.client.out[0], w[target].data;
    hide Shows;
    var a := ReadAnswer(m.seqno, FullAnswer(file, m.offset));
    ServedRound(s, w, os, served, a, packet, h, count, got, target);
    TakenRound(served, w, back, a, h);
    assert Min(|got|, count) == |got|;
    assert s.client.pending[..0] + s.client.pending[1..] == [];
  }

  lemma TakenRound(served: State, w: World, back: State, a: Msg, h: nat)
    requires Next(served, w, TakeAnswer, back) && served.answers == [a] && a.ReadAnswer? && served.client.out == []
    requires |served.client.pending| == 1 && served.client.pending[0].seqno == a.seqno
    requires served.client.pending[0].detail.Reading? && served.client.pending[0].detail.h in served.client.handles
    ensures back.client == CompleteRead(served.client, 0, a.data) && back.answers == [] && back.server == served.server
    ensures back.sent == served.sent + |back.client.out| && back.taken == served.taken
  {
    assert FindPending(served.client.pending, a.seqno) == Some(0);
    hide Serve, ProcessPacket, TakeData;
  }

  lemma ServedRound(s: State, w: World, os: OsResult, served: State, a: Msg,
                    packet: nat, h: nat, count: nat, got: seq<Byte>, target: string)
    requires Reads(s, w, packet, h, count, got, target) && !os.fails && os.count >= BUFFER_SIZE
    requires Next(s, w, ServeNext(os), served)
    requires a == ReadAnswer(s.client.out[0].seqno, FullAnswer(w[target].data, s.client.out[0].offset))
    ensures served == s.(client := s.client.(out := []), answers := [a])
  {
    var m := s.client.out[0];
    FullAnswerIsServed(s.server, w, m, os);
    assert s.client.out[1..] == [] && s.answers + [a] == [a];
    hide ServeRead, FullAnswer, Shows, ProcessPacket, ProcessAnswer;
  }

  lemma ReadsFile(s: State, w: World, packet: nat, h: nat, count: nat, got: seq<Byte>, target: string)
    requires Reads(s, w, packet, h, count, got, target)
    ensures h in s.client.handles && target in w && w[target].FileNode? && |got| <= count
    ensures s.client.handles[h].offset <= |w[target].data| < 0x8000_0000
  {
  }

  /**
   A read comes back after as many round trips as the read loop has requests,
   no more and no fewer, with its data.
   */
  lemma {:induction false} ReadRounds(s: State, w: World, n: nat, s': State, packet: nat, h: nat, count: nat,
                                      got: seq<Byte>, target: string)
    requires Reads(s, w, packet, h, count, got, target) && Rounds(s, w, n, s') && s'.client.pending == []
    requires s.sent + ReadLoop(s.client.handles[h], w[target].data, count - |got|).2 < UINT32
    ensures var (hd, more, requests) := ReadLoop(s.client.handles[h], w[target].data, count - |got|);
      && n == requests && Untouched(s, s')
      && s'.client.log == s.client.log + [Reply(packet, |got + more|, 0, GotData(h, count, got + more, true))]
      && s'.sent + 1 == s.sent + n == s'.client.seqno + 1 && s'.client.out == [] && s'.answers == []
      && s'.client.handles == s.client.handles[h := hd]
    decreases |w[target].data| - s.client.handles[h].offset
  {
    hide TakeData, FullAnswer, RoundTrip, ReadLoop, Shows;
    ReadsFile(s, w, packet, h, count, got, target);
    assert s.client.pending != [] && s.client.seqno == s.sent;
    hide Reads;
    var file, hd := w[target].data, s.client.handles[h];
    LoopStep(hd, file, count - |got|);
    var (hd', more, done) := TakeData(hd, count - |got|, FullAnswer(file, hd.offset));
    hide Rounds;
    var os, served, back := FirstRound(s, w, n, s');
    ReadRound(s, w, os, served, back, packet, h, count, got, target);
    if done {
      NoMoreRounds(back, w, n - 1, s');
    } else {
      ReadRounds(back, w, n - 1, s', packet, h, count, got + more, target);
      var rest := ReadLoop(hd', file, count - |got| - |more|).1;
      assert got + more + rest == got + (more + rest);
    }
  }

  lemma ReadsCanGo(s: State, w: World, packet: nat, h: nat, count: nat, got: seq<Byte>, target: string)
    requires Reads(s, w, packet, h, count, got, target)
    ensures AllLive(s.client) && AllRequests(s.client.out)
    ensures Serve(s.server, w, s.client.out[0], FULL).1.Some?
  {
  }

  /** Those round trips are possible. */
  lemma {:induction false} ReadRoundsExist(s: State, w: World, packet: nat, h: nat, count: nat, got: seq<Byte>,
                                           target: string) returns (s': State)
    requires Reads(s, w, packet, h, count, got, target)
    requires s.sent + ReadLoop(s.client.handles[h], w[target].data, count - |got|).2 < UINT32
    ensures Rounds(s, w, ReadLoop(s.client.handles[h], w[target].data, count - |got|).2, s') && s'.client.pending == []
    decreases |w[target].data| - s.client.handles[h].offset
  {
    hide TakeData, FullAnswer, RoundTrip, ReadLoop, Shows, Serve, AllLive, AllRequests;
    ReadsCanGo(s, w, packet, h, count, got, target);
    ReadsFile(s, w, packet, h, count, got, target);
    var file, hd := w[target].data, s.client.handles[h];
    LoopStep(hd, file, count - |got|);
    var (hd', more, done) := TakeData(hd, count - |got|, FullAnswer(file, hd.offset));
    var served, back := RoundTripExists(s, w);
    ReadRound(s, w, FULL, served, back, packet, h, count, got, target);
    hide Reads;
    if done {
      s' := back;
      assert Rounds(back, w, 0, back);
    } else {
      s' := ReadRoundsExist(back, w, packet, h, count, got + more, target);
    }
  }

  /** Nothing is under way. */
  predicate AtRest(s: State) {
    s.answers == [] && s.client.out == [] && s.client.pending == [] && s.client.seqno == s.sent
  }

  /** Nothing is under way, and handle h is an open file. */
  predicate Idle(s: State, w: World, h: nat, target: string) {
    && AtRest(s)
    && h in s.client.handles && s.client.handles[h].id < |s.server.slots| <= MAX_FILE_HANDLES
    && Shows(s.server.slots[s.client.handles[h].id], w, false, target)
    && Fits(s.client.handles[h], w[target].data)
  }

  /** A packet is taken, and n round trips later it has been replied to and nothing is under way. */
  ghost predicate Served(s: State, w: World, p: Packet, n: nat, s': State) {
    exists begun :: Next(s, w, TakePacket(p), begun) && Rounds(begun, w, n, s') && s'.client.pending == []
  }

  /** The state after a whole read of handle h. */
  predicate HasRead(s: State, w: World, h: nat, count: nat, target: string, n: nat, s': State)
    requires Idle(s, w, h, target)
  {
    var (hd, data, requests) := WholeRead(s.client.handles[h], w[target].data, count);
    && n == requests && s'.sent == s.sent + n
    && Idle(s', w, h, target) && s'.server == s.server && s'.taken == s.taken + 1
    && s'.client.handles == s.client.handles[h := hd] && s'.client.next == s.client.next
    && s'.client.log == s.client.log + [Reply(s.taken, |data|, 0, GotData(h, count, data, true))]
  }

  lemma ReadBegins(s: State, w: World, h: nat, count: nat, target: string, begun: State)
    requires Idle(s, w, h, target) && s.sent + 1 < UINT32 && Next(s, w, TakePacket(Read(h, count)), begun)
    ensures var (hd, got, all) := ServeFromBuffer(s.client.handles[h], count);
      && begun.client.handles == s.client.handles[h := hd] && hd.offset <= |w[target].data|
      && begun.server == s.server && begun.taken == s.taken + 1 && begun.client.next == s.client.next
      && (!all ==>
            && Reads(begun, w, s.taken, h, count, got, target)
            && begun.sent == s.sent + 1 && begun.client.log == s.client.log)
      && (all ==>
            && begun.client.pending == [] && begun.client.out == [] && begun.answers == []
            && begun.sent == s.sent == begun.client.seqno
            && begun.client.log == s.client.log + [Reply(s.taken, count, 0, GotData(h, count, got, true))]
            && |got| == count)
  {
    var (hd, got, all) := BufferRead(s.client.handles[h], w[target].data, count);
    hide ServeFromBuffer, Shows;
    assert s.client.pending == [];
  }

  /** A read that has been replied to. */
  lemma ReadServed(s: State, w: World, h: nat, count: nat, target: string, n: nat, s': State)
    requires Idle(s, w, h, target) && Served(s, w, Read(h, count), n, s')
    requires s.sent + 1 + WholeRead(s.client.handles[h], w[target].data, count).2 < UINT32
    ensures HasRead(s, w, h, count, target, n, s')
  {
    hide Next, ServeFromBuffer, ReadLoop, Reads, Rounds, WholeRead, TakeData, FullAnswer;
    var begun :| Next(s, w, TakePacket(Read(h, count)), begun) && Rounds(begun, w, n, s') && s'.client.pending == [];
    var hd, file := s.client.handles[h], w[target].data;
    hide Shows;
    ReadBegins(s, w, h, count, target, begun);
    WholeReadFits(hd, file, count);
    WholeReadStep(hd, file, count);
    var (hd1, got, all) := ServeFromBuffer(hd, count);
    hide Fits;
    if all {
      NoMoreRounds(begun, w, n, s');
    } else {
      ReadRounds(begun, w, n, s', s.taken, h, count, got, target);
    }
  }

  /** A read can be replied to. */
  lemma ReadIsServed(s: State, w: World, h: nat, count: nat, target: string) returns (s': State)
    requires Idle(s, w, h, target) && count < UINT32
    requires s.sent + 1 + WholeRead(s.client.handles[h], w[target].data, count).2 < UINT32
    ensures Served(s, w, Read(h, count), WholeRead(s.client.handles[h], w[target].data, count).2, s')
  {
    var hd := s.client.handles[h];
    var begun := Step(s, w, TakePacket(Read(h, count)));
    assert Next(s, w, TakePacket(Read(h, count)), begun);
    ReadBegins(s, w, h, count, target, begun);
    var (hd1, got, all) := ServeFromBuffer(hd, count);
    hide Next, ServeFromBuffer, ReadLoop, Reads, Shows, Step;
    if all {
      s' := begun;
    } else {
      s' := ReadRoundsExist(begun, w, s.taken, h, count, got, target);
    }
  }

  /**
   A read can be served, and in whatever way it is, is replied to after exactly
   as many round trips as it takes requests: none where the buffer serves it.
   */
  lemma ReadTakesExactly(s: State, w: World, h: nat, count: nat, target: string)
    requires Idle(s, w, h, target) && count < UINT32
    requires s.sent + 1 + WholeRead(s.client.handles[h], w[target].data, count).2 < UINT32
    ensures exists n, s' :: Served(s, w, Read(h, count), n, s')
    ensures forall n, s' :: Served(s, w, Read(h, count), n, s') ==> HasRead(s, w, h, count, target, n, s')
  {
    hide Served, HasRead, WholeRead, Shows;
    var one := ReadIsServed(s, w, h, count, target);
    forall n, s' | Served(s, w, Read(h, count), n, s')
      ensures HasRead(s, w, h, count, target, n, s')
    {
      ReadServed(s, w, h, count, target, n, s');
    }
  }

  // ---------- duplicated locks ----------

  /** Nothing is under way, and all these handles are open on the same file, perhaps by the same slot. */
  ghost predicate AllIdle(s: State, w: World, hs: set<nat>, target: string) {
    forall h <- hs :: Idle(s, w, h, target)
  }

  /**
   A copy of a lock on a server slot, which runs do without, is a handle like the
   one it was made from: it begins at the start of the file, and the other stays
   where it was.
   */
  lemma CopyIsIdle(s: State, w: World, hs: set<nat>, h: nat, target: string)
    requires AllIdle(s, w, hs, target) && h in hs && s.client.next !in s.client.handles && WorldOk(w)
    ensures var g, c := s.client.next, ActionCopyDir(s.client, s.taken, h);
      && (s.client.handles[h].kind != DeviceKind ==>
            && AllIdle(s.(client := c, taken := s.taken + 1), w, hs + {g}, target)
            && c.handles[g].offset == 0 && c.handles == s.client.handles[g := c.handles[g]])
  {
    hide Truncate, Shows;
    assert Idle(s, w, h, target);
  }

  /** A read by one of them is served as if it were alone, and leaves all the others as they were. */
  lemma CopiesReadAlone(s: State, w: World, hs: set<nat>, h: nat, count: nat, target: string, n: nat, s': State)
    requires AllIdle(s, w, hs, target) && h in hs && count < UINT32
    requires s.sent + 1 + WholeRead(s.client.handles[h], w[target].data, count).2 < UINT32
    requires Served(s, w, Read(h, count), n, s')
    ensures HasRead(s, w, h, count, target, n, s') && AllIdle(s', w, hs, target)
    ensures forall g <- hs :: g != h ==> s'.client.handles[g] == s.client.handles[g]
  {
    ReadTakesExactly(s, w, h, count, target);
    hide Served, Shows, Fits, WholeRead;
    assert forall g <- hs :: Idle(s, w, g, target);
  }

  /** Every quiet state of a run in which handle h is an open file is such a state. */
  lemma IdleInRun(device: string, w: World, events: seq<Event>, states: seq<State>, n: nat, h: nat)
    requires IsRun(device, w, events, states) && n < |states| && NoWrap(states[n]) && WorldOk(w)
    requires states[n].answers == [] && states[n].client.out == [] && h in states[n].client.handles
    requires states[n].client.handles[h].id < MAX_FILE_HANDLES && states[n].client.handles[h].kind == FileKind
    ensures AtRest(states[n]) && Idle(states[n], w, h, states[n].client.handles[h].target)
  {
    hide Content, Structure, RepliesConserved, IsRun, WorldOk;
    RunContent(device, w, events, states, n);
    RunMatching(device, w, events, states, n);
    RestInRun(device, w, events, states, n);
    OpenFile(states[n], w, h);
  }

  /** An open file, in a state as runs reach it. */
  lemma OpenFile(s: State, w: World, h: nat)
    requires Structure(s) && Content(s, w) && WorldOk(w) && h in s.client.handles
    requires s.client.handles[h].id < MAX_FILE_HANDLES && s.client.handles[h].kind == FileKind
    ensures var hd := s.client.handles[h];
      && |s.server.slots| == MAX_FILE_HANDLES && Shows(s.server.slots[hd.id], w, false, hd.target)
      && Fits(hd, w[hd.target].data)
  {
    assert |s.server.slots| == MAX_FILE_HANDLES;
    hide Structure;
    ContentAt(s, w, h);
    hide Content, Good, WorkOn;
  }

  lemma RestInRun(device: string, w: World, events: seq<Event>, states: seq<State>, n: nat)
    requires IsRun(device, w, events, states) && n < |states| && NoWrap(states[n])
    requires states[n].answers == [] && states[n].client.out == []
    ensures AtRest(states[n])
  {
    var s := states[n];
    RunMatching(device, w, events, states, n);
    assert Flight(s) == [];
    var ns := PendingNumbers(s.client.pending);
    assert |ns| == |multiset(ns)| == |multiset(FlightNumbers([]))|;
  }

  // ---------- reads in sequence ----------

  /** Reads of these counts, each after the one before has been replied to. */
  ghost predicate Readings(s: State, w: World, h: nat, counts: seq<nat>, s': State)
    decreases |counts|
  {
    if counts == [] then s' == s
    else exists n: nat, mid :: Served(s, w, Read(h, counts[0]), n, mid) && Readings(mid, w, h, counts[1..], s')
  }

  /** However the reads are served, they take the requests that ReadCount.Requests counts. */
  lemma {:induction false} ReadingsTake(s: State, w: World, h: nat, counts: seq<nat>, target: string, s': State)
    requires Idle(s, w, h, target) && Readings(s, w, h, counts, s')
    requires s.sent + 1 + Requests(s.client.handles[h], w[target].data, counts) < UINT32
    ensures s'.sent == s.sent + Requests(s.client.handles[h], w[target].data, counts)
    ensures Idle(s', w, h, target) && |s'.client.log| == |s.client.log| + |counts| && s.client.log <= s'.client.log
    decreases |counts|
  {
    hide Served, WholeRead;
    if counts == [] {
    } else {
      var n: nat, mid :| Served(s, w, Read(h, counts[0]), n, mid) && Readings(mid, w, h, counts[1..], s');
      ReadServed(s, w, h, counts[0], target, n, mid);
      assert HasRead(s, w, h, counts[0], target, n, mid);
      hide Shows;
      ReadingsTake(mid, w, h, counts[1..], target, s');
    }
  }

  /** And there is a way to serve them. */
  lemma {:induction false} ReadingsExist(s: State, w: World, h: nat, counts: seq<nat>, target: string)
    returns (s': State)
    requires Idle(s, w, h, target) && forall i :: 0 <= i < |counts| ==> counts[i] < UINT32
    requires s.sent + 1 + Requests(s.client.handles[h], w[target].data, counts) < UINT32
    ensures Readings(s, w, h, counts, s')
    decreases |counts|
  {
    hide Served, WholeRead;
    if counts == [] {
      s' := s;
    } else {
      var mid := ReadIsServed(s, w, h, counts[0], target);
      var n := WholeRead(s.client.handles[h], w[target].data, counts[0]).2;
      ReadServed(s, w, h, counts[0], target, n, mid);
      assert HasRead(s, w, h, counts[0], target, n, mid);
      hide Shows;
      s' := ReadingsExist(mid, w, h, counts[1..], target);
    }
  }

  /**
   Sequential reads of positive length, within the file and from its start, on a
   handle that has buffered nothing yet: they can be served, and in whatever way
   they are, the system sends exactly one request for each 4096 bytes begun.
   */
  lemma SequentialReadsInSystem(s: State, w: World, h: nat, counts: seq<nat>, target: string)
    requires Idle(s, w, h, target) && Positive(counts) && Sum(counts) <= |w[target].data|
    requires var hd := s.client.handles[h]; hd.offset == 0 && hd.bufferStart == 0 && hd.buffer == []
    requires s.sent + 1 + CeilDiv(Sum(counts), BUFFER_SIZE) < UINT32
    ensures exists s' :: Readings(s, w, h, counts, s')
    ensures forall s' :: Readings(s, w, h, counts, s') ==>
      && s'.sent == s.sent + CeilDiv(Sum(counts), BUFFER_SIZE)
      && |s'.client.log| == |s.client.log| + |counts| && Idle(s', w, h, target)
  {
    SequentialReads(s.client.handles[h], w[target].data, counts);
    SumBounds(counts);
    hide Shows, CeilDiv, Readings, Requests;
    var one := ReadingsExist(s, w, h, counts, target);
    forall s' | Readings(s, w, h, counts, s')
      ensures s'.sent == s.sent + CeilDiv(Sum(counts), BUFFER_SIZE)
      ensures |s'.client.log| == |s.client.log| + |counts| && Idle(s', w, h, target)
    {
      ReadingsTake(s, w, h, counts, target, s');
    }
  }

  lemma {:induction false} SumBounds(counts: seq<nat>)
    ensures forall i :: 0 <= i < |counts| ==> counts[i] <= Sum(counts)
  {
    if counts == [] {
    } else {
      SumBounds(counts[1..]);
      assert forall i :: 1 <= i < |counts| ==> counts[i] == counts[1..][i - 1];
    }
  }

  // ---------- writing ----------

  /** The only message under way is the request of the only operation, a write. */
  predicate Writes(s: State, packet: nat, h: nat, data: seq<Byte>, source: nat, length: nat) {
    && s.answers == [] && |s.client.out| == 1 == |s.client.pending| && s.client.seqno == s.sent
    && h in s.client.handles && source + length <= |data|
    && var m, op := s.client.out[0], s.client.pending[0];
    && m == WriteRequest(op.seqno, s.client.handles[h].id, data[source..source + length])
    && op == Op(op.seqno, packet, Writing(h, data, source, length))
  }

  /** What a write leaves alone: all but the output that it prints. */
  predicate OnlyPrints(s: State, s': State) {
    && s'.server == s.server.(stdout := s'.server.stdout) && s'.taken == s.taken
    && s'.client.next == s.client.next && s'.client.handles == s.client.handles
  }

  function Printed(s: State, h: nat, data: seq<Byte>): seq<Byte> {
    if h in s.client.handles && s.client.handles[h].id == VIRTUAL_OUTPUT_ID then s.server.stdout + data
    else s.server.stdout
  }

  lemma WriteRound(s: State, w: World, os: OsResult, served: State, back: State,
                   packet: nat, h: nat, data: seq<Byte>, source: nat, length: nat)
    requires Writes(s, packet, h, data, source, length) && RoundTrip(s, w, os, served, back) && s.sent + 1 < UINT32
    ensures back.server.stdout == Printed(s, h, data[source..source + length]) && OnlyPrints(s, back)
    ensures NextChunk(data, source, length) == None ==>
      && back.client.pending == [] && back.client.out == [] && back.answers == []
      && back.sent == s.sent == back.client.seqno
      && back.client.log == s.client.log + [Reply(packet, |data|, 0, Wrote(h, data, true))]
    ensures NextChunk(data, source, length).Some? ==>
      && back.sent == s.sent + 1 && back.client.log == s.client.log
      && Writes(back, packet, h, data, NextChunk(data, source, length).value.0, NextChunk(data, source, length).value.1)
  {
    var m := s.client.out[0];
    var a := WriteAnswer(m.seqno);
    assert served == s.(client := s.client.(out := []), answers := [a], server := served.server) by {
      assert s.client.out[1..] == [] && s.answers + [a] == [a];
    }
    assert FindPending(s.client.pending, m.seqno) == Some(0);
    assert back.client == CompleteWrite(served.client, 0) && back.answers == [] && back.server == served.server;
    assert s.client.pending[..0] + s.client.pending[1..] == [];
  }

  lemma PrintedMore(s: State, back: State, s': State, h: nat, data: seq<Byte>, source: nat, at: nat)
    requires source <= at <= |data| && back.client.handles == s.client.handles
    requires back.server.stdout == Printed(s, h, data[source..at]) && s'.server.stdout == Printed(back, h, data[at..])
    ensures s'.server.stdout == Printed(s, h, data[source..])
  {
    assert data[source..at] + data[at..] == data[source..];
  }

  lemma WritesPending(s: State, packet: nat, h: nat, data: seq<Byte>, source: nat, length: nat)
    requires Writes(s, packet, h, data, source, length)
    ensures s.client.pending != [] && s.client.seqno == s.sent
  {
  }

  lemma ChunksStep(data: seq<Byte>, source: nat, length: nat)
    requires source + length <= |data|
    ensures |Chunks(data, source, length)| ==
      match NextChunk(data, source, length)
      case None => 1
      case Some((at, n)) => 1 + |Chunks(data, at, n)|
  {
  }

  /**
   A write is replied to after one round trip for each of its chunks, no more
   and no fewer, with its whole length; written to the virtual output, its bytes
   have been printed, all of them and in order.
   */
  lemma {:induction false} WriteRounds(s: State, w: World, n: nat, s': State, packet: nat, h: nat, data: seq<Byte>,
                                       source: nat, length: nat)
    requires Writes(s, packet, h, data, source, length) && length == Min(|data| - source, BUFFER_SIZE)
    requires Rounds(s, w, n, s') && s'.client.pending == [] && s.sent + |Chunks(data, source, length)| < UINT32
    ensures n == |Chunks(data, source, length)| && OnlyPrints(s, s')
    ensures s'.client.log == s.client.log + [Reply(packet, |data|, 0, Wrote(h, data, true))]
    ensures s'.sent + 1 == s.sent + n == s'.client.seqno + 1 && s'.client.out == [] && s'.answers == []
    ensures s'.server.stdout == Printed(s, h, data[source..])
    decreases |data| - (source + length)
  {
    hide RoundTrip, Writes, Printed, Chunks, Rounds;
    ChunksStep(data, source, length);
    WritesPending(s, packet, h, data, source, length);
    var os, served, back := FirstRound(s, w, n, s');
    WriteRound(s, w, os, served, back, packet, h, data, source, length);
    match NextChunk(data, source, length)
    case None =>
      NoMoreRounds(back, w, n - 1, s');
      assert data[source..source + length] == data[source..];
    case Some((at, next)) =>
      WriteRounds(back, w, n - 1, s', packet, h, data, at, next);
      PrintedMore(s, back, s', h, data, source, at);
  }

  lemma WritesCanGo(s: State, w: World, packet: nat, h: nat, data: seq<Byte>, source: nat, length: nat)
    requires Writes(s, packet, h, data, source, length)
    ensures AllLive(s.client) && AllRequests(s.client.out)
    ensures Serve(s.server, w, s.client.out[0], FULL).1.Some?
  {
  }

  lemma {:induction false} WriteRoundsExist(s: State, w: World, packet: nat, h: nat, data: seq<Byte>, source: nat,
                                            length: nat) returns (s': State)
    requires Writes(s, packet, h, data, source, length) && s.sent + |Chunks(data, source, length)| < UINT32
    ensures Rounds(s, w, |Chunks(data, source, length)|, s') && s'.client.pending == []
    decreases |data| - (source + length)
  {
    WritesCanGo(s, w, packet, h, data, source, length);
    hide RoundTrip, Writes, Serve;
    var served, back := RoundTripExists(s, w);
    WriteRound(s, w, FULL, served, back, packet, h, data, source, length);
    match NextChunk(data, source, length)
    case None =>
      s' := back;
      assert Rounds(back, w, 0, back);
    case Some((at, next)) =>
      s' := WriteRoundsExist(back, w, packet, h, data, at, next);
  }

  lemma WriteBegins(s: State, w: World, h: nat, data: seq<Byte>, begun: State)
    requires AtRest(s) && s.sent + 1 < UINT32 && Next(s, w, TakePacket(Write(h, data)), begun)
    ensures Writes(begun, s.taken, h, data, 0, Min(|data|, BUFFER_SIZE))
    ensures begun.sent == s.sent + 1 && begun.client.log == s.client.log && begun.server == s.server
    ensures begun.client.handles == s.client.handles && begun.client.next == s.client.next && begun.taken == s.taken + 1
  {
    assert s.client.pending == [];
  }

  /** The chunks of a write of so many bytes. */
  function ChunkCount(length: nat): nat {
    if length == 0 then 1 else CeilDiv(length, BUFFER_SIZE)
  }

  /** A write can be served, and in whatever way it is, takes exactly one request for each chunk. */
  lemma WriteTakesExactly(s: State, w: World, h: nat, data: seq<Byte>)
    requires AtRest(s) && h in s.client.handles && s.sent + 1 + ChunkCount(|data|) < UINT32
    ensures exists n, s' :: Served(s, w, Write(h, data), n, s')
    ensures forall n, s' :: Served(s, w, Write(h, data), n, s') ==>
      && n == ChunkCount(|data|) && s'.sent == s.sent + n && AtRest(s')
      && s'.client.log == s.client.log + [Reply(s.taken, |data|, 0, Wrote(h, data, true))]
      && s'.server == s.server.(stdout := Printed(s, h, data)) && s'.client.handles == s.client.handles
  {
    var length := Min(|data|, BUFFER_SIZE);
    ChunksAre(data, 0, length);
    var begun := Step(s, w, TakePacket(Write(h, data)));
    assert Next(s, w, TakePacket(Write(h, data)), begun);
    WriteBegins(s, w, h, data, begun);
    hide Writes, Rounds, Chunks, CeilDiv, Next, Step, Flatten;
    var one := WriteRoundsExist(begun, w, s.taken, h, data, 0, length);
    assert Served(s, w, Write(h, data), |Chunks(data, 0, length)|, one);
    forall n, s' | Served(s, w, Write(h, data), n, s')
      ensures n == ChunkCount(|data|) && s'.sent == s.sent + n && AtRest(s')
      ensures s'.client.log == s.client.log + [Reply(s.taken, |data|, 0, Wrote(h, data, true))]
      ensures s'.server == s.server.(stdout := Printed(s, h, data)) && s'.client.handles == s.client.handles
    {
      WriteServed(s, w, h, data, n, s');
    }
  }

  lemma WriteServed(s: State, w: World, h: nat, data: seq<Byte>, n: nat, s': State)
    requires AtRest(s) && s.sent + 1 + ChunkCount(|data|) < UINT32 && Served(s, w, Write(h, data), n, s')
    ensures n == ChunkCount(|data|) && s'.sent == s.sent + n && AtRest(s')
    ensures s'.client.log == s.client.log + [Reply(s.taken, |data|, 0, Wrote(h, data, true))]
    ensures s'.server == s.server.(stdout := Printed(s, h, data)) && s'.client.handles == s.client.handles
  {
    hide Writes, Rounds, Chunks, CeilDiv, Next, Flatten;
    var length := Min(|data|, BUFFER_SIZE);
    ChunksAre(data, 0, length);
    var begun :| Next(s, w, TakePacket(Write(h, data)), begun) && Rounds(begun, w, n, s') && s'.client.pending == [];
    WriteBegins(s, w, h, data, begun);
    WriteRounds(begun, w, n, s', s.taken, h, data, 0, length);
    assert data[0..] == data;
  }
}
