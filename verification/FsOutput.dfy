/**
 The virtual output in every run: what the server has printed for a handle that
 was opened to print is what the handle has written, in order, and everything
 once no write is under way. For any other handle nothing is printed.
 */
module FsOutput {
  import opened Base
  import opened RemoteFs
  import opened FsSystem
  import opened FsMatching
  import opened Reference
  import opened FsContent
  import opened FsRefinement
  import opened FsRoot
  import opened FsLocks
  import opened FsCounts

  // ---------- what is printed, and for whom ----------

  predicate IsPrint(m: Msg) {
    m.WriteRequest? && m.handle == VIRTUAL_OUTPUT_ID
  }

  /** What the server prints with this event. */
  function Chunk(s: State, e: Event): seq<Byte> {
    if e.ServeNext? && s.client.out != [] && IsPrint(s.client.out[0]) then s.client.out[0].data else []
  }

  /** The handle whose write the server takes next. */
  function Writer(s: State): Option<nat> {
    if s.client.out == [] then None
    else
      match WorkFor(s.client.pending, s.client.out[0].seqno)
      case Some(Writing(h, _, _, _)) => Some(h)
      case _ => None
  }

  function ChunkFor(s: State, e: Event, h: nat): seq<Byte> {
    if Writer(s) == Some(h) then Chunk(s, e) else []
  }

  /** What has been printed for handle h. */
  function PrintedFor(events: seq<Event>, states: seq<State>, n: nat, h: nat): seq<Byte>
    requires n <= |events| && n < |states|
  {
    if n == 0 then [] else PrintedFor(events, states, n - 1, h) + ChunkFor(states[n - 1], events[n - 1], h)
  }

  // ---------- the invariant ----------

  predicate WritesTo(op: Op, h: nat) {
    op.detail.Writing? && op.detail.h == h
  }

  /** The request of the operation has not been served. */
  ghost predicate Unserved(out: seq<Msg>, op: Op) {
    exists m :: m in out && Belongs(m, op)
  }

  /** How much of the data of a write the server has taken. */
  ghost function Served(out: seq<Msg>, op: Op): nat
    requires op.detail.Writing?
  {
    if Unserved(out, op) then op.detail.source else op.detail.source + op.detail.length
  }

  /** What has been printed for handle h: its writes, and a part of the one under way. */
  ghost predicate Progress(c: Client, h: nat, printed: seq<Byte>) {
    && (forall op <- c.pending :: WritesTo(op, h) ==>
          && op.detail.source + op.detail.length <= |op.detail.data|
          && (Prints(c.log, h) ==> printed == Written(c.log, h) + op.detail.data[..Served(c.out, op)]))
    && (Prints(c.log, h) && (forall op <- c.pending :: !WritesTo(op, h)) ==> printed == Written(c.log, h))
    && (!Prints(c.log, h) ==> printed == [])
  }

  ghost predicate Outputs(c: Client, h: nat) {
    && (h in c.handles ==> (c.handles[h].id == VIRTUAL_OUTPUT_ID <==> Prints(c.log, h)))
    && (Prints(c.log, h) ==> h < c.next)
    && (h >= c.next ==> Written(c.log, h) == [])
  }

  ghost predicate OutputOk(c: Client, h: nat, printed: seq<Byte>) {
    Outputs(c, h) && Progress(c, h, printed)
  }

  lemma PrintsMore(log: seq<Reply>, r: Reply, h: nat)
    ensures Prints(log + [r], h) <==> Prints(log, h) || r.what == OutputOpened(h)
    ensures Written(log + [r], h) == Written(log, h) + if r.what.Wrote? && r.what.h == h then r.what.data else []
  {
    assert (log + [r])[..|log|] == log && (log + [r])[|log|] == r;
    if Prints(log, h) {
      var k :| 0 <= k < |log| && log[k].what == OutputOpened(h);
      assert (log + [r])[k].what == OutputOpened(h);
    }
    assert Written(log, h) + [] == Written(log, h);
  }

  // ---------- packets ----------

  /** Handles keep their ids, and at most one is new. */
  predicate SameIds(c: Client, d: Client) {
    forall g <- d.handles :: if g in c.handles then d.handles[g].id == c.handles[g].id else g == c.next < d.next
  }

  predicate OneReply(c: Client, d: Client) {
    |d.log| > |c.log| && d.log == c.log + [d.log[|c.log|]]
  }

  /** A packet other than a write begins no write; a handle that prints is told of, and nothing else of the output. */
  lemma PacketOpens(c: Client, packet: nat, p: Packet)
    requires Acceptable(c, p) && !p.Write? && c.next !in c.handles
    ensures var d := ProcessPacket(c, packet, p);
      && (d.pending != c.pending ==> d.pending != [] && !d.pending[0].detail.Writing?)
      && (d.out == c.out || (d.out != [] && (d.out[|d.out| - 1].CloseRequest? || d.out[|d.out| - 1].seqno == c.seqno)))
      && (d.log == c.log ==> !(c.next in d.handles && d.handles[c.next].id == VIRTUAL_OUTPUT_ID))
      && (d.log != c.log ==> OneReply(c, d) && var what := d.log[|c.log|].what;
            && !what.Wrote?
            && (what.OutputOpened? ==> what.h == c.next)
            && (what.OutputOpened? <==> c.next in d.handles && d.handles[c.next].id == VIRTUAL_OUTPUT_ID))
  {
    hide BufferOverlap, SeekOffset, Normalize, AfterColon, LastSlash, Truncate;
  }

  /** A step that does not touch the writes of handle h, and at most makes the handle. */
  lemma StillOutput(c: Client, d: Client, h: nat, printed: seq<Byte>)
    requires OutputOk(c, h, printed) && Outputs(d, h)
    requires forall op <- d.pending :: WritesTo(op, h) ==>
      op in c.pending && (Unserved(d.out, op) <==> Unserved(c.out, op))
    requires forall op <- c.pending :: WritesTo(op, h) ==> op in d.pending && h < c.next
    requires Written(d.log, h) == Written(c.log, h)
    requires Prints(d.log, h) <==> Prints(c.log, h) || (h == c.next && Prints(d.log, h))
    ensures OutputOk(d, h, printed)
  {
    hide Prints, Written, Unserved;
  }

  /** One reply more, or none, and one handle more, or none. */
  lemma StillOutputs(c: Client, d: Client, h: nat)
    requires Outputs(c, h) && c.next <= d.next && (forall g <- c.handles :: g < c.next)
    requires SameIds(c, d)
    requires d.log != c.log ==> OneReply(c, d) && var what := d.log[|c.log|].what;
      && (what.Wrote? ==> what.h < c.next)
      && (what.OutputOpened? ==> what.h == c.next && c.next in d.handles)
      && (c.next in d.handles ==> (what.OutputOpened? <==> d.handles[c.next].id == VIRTUAL_OUTPUT_ID))
    requires d.log == c.log ==> !(c.next in d.handles && d.handles[c.next].id == VIRTUAL_OUTPUT_ID)
    ensures Outputs(d, h)
    ensures Prints(d.log, h) <==> Prints(c.log, h) || (h == c.next && Prints(d.log, h))
  {
    if d.log != c.log {
      PrintsMore(c.log, d.log[|c.log|], h);
    }
    hide Prints, Written;
  }

  lemma PacketOutput(s: State, w: World, p: Packet, h: nat, printed: seq<Byte>)
    requires Structure(s) && Enabled(s, TakePacket(p)) && !p.Write? && s.sent + 1 < UINT32
    requires OutputOk(s.client, h, printed)
    ensures OutputOk(Step(s, w, TakePacket(p)).client, h, printed)
  {
    hide ProcessPacket, Serve, ProcessAnswer, OutputOk;
    var c := s.client;
    var d := Step(s, w, TakePacket(p)).client;
    assert d == ProcessPacket(c, s.taken, p);
    FlightBelow(s);
    MatchedBounds(c.pending, Flight(s), s.sent);
    PacketStructure(s, w, p);
    assert AllLive(c) && KnownHandles(c) && AllLive(d);
    PacketOpens(c, s.taken, p);
    PacketIds(c, s.taken, p);
    hide Structure, Enabled, Step, Acceptable, Matched;
    PacketKeepsOutput(c, d, h, printed);
  }

  /** Handles keep their ids; at most one operation and one request are new. */
  lemma PacketIds(c: Client, packet: nat, p: Packet)
    requires Acceptable(c, p) && c.next !in c.handles
    ensures var d := ProcessPacket(c, packet, p);
      && c.next <= d.next
      && SameIds(c, d)
      && (d.pending == c.pending || (d.pending != [] && d.pending == [d.pending[0]] + c.pending))
      && (d.out == c.out || (|d.out| == |c.out| + 1 && d.out == c.out + [d.out[|c.out|]]))
  {
    hide BufferOverlap, SeekOffset, Normalize, AfterColon, LastSlash, Truncate;
  }

  lemma PacketKeepsOutput(c: Client, d: Client, h: nat, printed: seq<Byte>)
    requires OutputOk(c, h, printed) && KnownHandles(c) && AllLive(c) && c.next <= d.next
    requires forall op <- c.pending :: op.seqno < c.seqno
    requires SameIds(c, d)
    requires d.pending == c.pending || (d.pending != [] && d.pending == [d.pending[0]] + c.pending)
    requires d.out == c.out || (|d.out| == |c.out| + 1 && d.out == c.out + [d.out[|c.out|]])
    requires d.pending != c.pending ==> d.pending != [] && !d.pending[0].detail.Writing?
    requires d.out == c.out ||
      (d.out != [] && (d.out[|d.out| - 1].CloseRequest? || d.out[|d.out| - 1].seqno == c.seqno))
    requires d.log == c.log ==> !(c.next in d.handles && d.handles[c.next].id == VIRTUAL_OUTPUT_ID)
    requires d.log != c.log ==> OneReply(c, d) && var what := d.log[|c.log|].what;
      && !what.Wrote?
      && (what.OutputOpened? ==> what.h == c.next)
      && (what.OutputOpened? <==> c.next in d.handles && d.handles[c.next].id == VIRTUAL_OUTPUT_ID)
    ensures OutputOk(d, h, printed)
  {
    StillOutputs(c, d, h);
    if d.log != c.log {
      PrintsMore(c.log, d.log[|c.log|], h);
      assert Written(c.log, h) + [] == Written(c.log, h);
    }
    hide Prints, Written;
    forall op <- c.pending
      ensures op in d.pending && (Unserved(d.out, op) <==> Unserved(c.out, op))
      ensures WritesTo(op, h) ==> h < c.next
    {
      assert Live(c, op.detail);
      var k :| 0 <= k < |c.pending| && c.pending[k] == op;
      assert d.pending[if d.pending == c.pending then k else k + 1] == op;
      PostedServes(c.out, d.out, op, c.seqno);
    }
    hide Unserved;
    StillOutput(c, d, h, printed);
  }

  /** A new request belongs to no operation that was there. */
  lemma PostedServes(out: seq<Msg>, out': seq<Msg>, op: Op, seqno: nat)
    requires out' == out || (|out'| == |out| + 1 && out' == out + [out'[|out|]]
                             && (out'[|out|].CloseRequest? || out'[|out|].seqno == seqno))
    requires op.seqno < seqno
    ensures Unserved(out', op) <==> Unserved(out, op)
  {
    if Unserved(out, op) {
      var m :| m in out && Belongs(m, op);
      assert m in out';
    }
    if Unserved(out', op) {
      var m :| m in out' && Belongs(m, op);
      assert m in out || m == out'[|out|];
    }
  }

  /** A write begins: its first chunk waits to be served. */
  lemma WriteOutput(s: State, w: World, g: nat, data: seq<Byte>, h: nat, printed: seq<Byte>)
    requires Structure(s) && Enabled(s, TakePacket(Write(g, data))) && s.sent + 1 < UINT32
    requires OutputOk(s.client, h, printed)
    ensures OutputOk(Step(s, w, TakePacket(Write(g, data))).client, h, printed)
  {
    var c := s.client;
    var d := Step(s, w, TakePacket(Write(g, data))).client;
    var n := Min(|data|, BUFFER_SIZE);
    var op, m := Op(c.seqno, s.taken, Writing(g, data, 0, n)), WriteRequest(c.seqno, c.handles[g].id, data[..n]);
    assert d.pending == [op] + c.pending && d.out == c.out + [m] && d.log == c.log && d.handles == c.handles;
    assert d.next == c.next;
    FlightBelow(s);
    MatchedBounds(c.pending, Flight(s), s.sent);
    assert !Busy(c, g) by {
      BusyOrJoins(c, Write(g, data));
    }
    hide Structure, Enabled, Step, Prints, Written, Matched;
    forall op' <- c.pending
      ensures op' in d.pending && (Unserved(d.out, op') <==> Unserved(c.out, op'))
    {
      PostedServes(c.out, d.out, op', c.seqno);
    }
    assert m in d.out && Unserved(d.out, op);
    hide Unserved;
    forall op' <- c.pending
      ensures HandleOf(op'.detail) != Some(g)
    {
    }
  }

  // ---------- the server ----------

  /** All operations that write to handle h are one. */
  lemma OneWriter(s: State, op: Op, op': Op, h: nat)
    requires Structure(s) && op in s.client.pending && op' in s.client.pending && WritesTo(op, h) && WritesTo(op', h)
    ensures op == op'
  {
    var c := s.client;
    assert OnePerHandle(c.pending);
    hide Structure;
    var i :| 0 <= i < |c.pending| && c.pending[i] == op;
    var j :| 0 <= j < |c.pending| && c.pending[j] == op';
    assert SameHandle(c.pending[i].detail, c.pending[j].detail) && SameHandle(c.pending[j].detail, c.pending[i].detail);
  }

  lemma HeadWriter(s: State, op: Op)
    requires s.client.out != [] && op in s.client.pending && Belongs(s.client.out[0], op)
    requires forall op' <- s.client.pending :: op'.seqno == op.seqno ==> op' == op
    ensures Writer(s) == if op.detail.Writing? then Some(op.detail.h) else None
  {
    var i := FindPending(s.client.pending, s.client.out[0].seqno);
    if i.Some? {
      assert s.client.pending[i.value] in s.client.pending;
    }
  }

  /** A request that is not the head's is served no more and no less. */
  lemma StillUnserved(out: seq<Msg>, op: Op)
    requires out != [] && !Belongs(out[0], op)
    ensures Unserved(out[1..], op) <==> Unserved(out, op)
  {
    if Unserved(out, op) {
      var m :| m in out && Belongs(m, op);
      assert m in out[1..];
    }
    if Unserved(out[1..], op) {
      var m :| m in out[1..] && Belongs(m, op);
      assert m in out;
    }
  }

  lemma ServedClient(s: State, w: World, os: OsResult)
    requires Structure(s) && Enabled(s, ServeNext(os))
    ensures Step(s, w, ServeNext(os)).client == s.client.(out := s.client.out[1..]) && AllLive(s.client)
  {
    hide Serve;
  }

  lemma ServeOutput(s: State, w: World, os: OsResult, h: nat, printed: seq<Byte>)
    requires Structure(s) && Enabled(s, ServeNext(os)) && OutputOk(s.client, h, printed)
    ensures OutputOk(Step(s, w, ServeNext(os)).client, h, printed + ChunkFor(s, ServeNext(os), h))
  {
    hide Step, Serve, ProcessPacket, ProcessAnswer, AllLive, AllRequests;
    ServedClient(s, w, os);
    var c, m := s.client, s.client.out[0];
    var d := c.(out := c.out[1..]);
    if m.CloseRequest? {
      assert Chunk(s, ServeNext(os)) == [] && printed + [] == printed;
      forall op <- c.pending
        ensures Unserved(d.out, op) <==> Unserved(c.out, op)
      {
        StillUnserved(c.out, op);
      }
      hide Structure, Prints, Written, Unserved, Writer;
    } else {
      var op := HeadOp(s);
      HeadWriter(s, op);
      assert Unserved(c.out, op) && !Unserved(d.out, op);
      forall op' <- c.pending | op' != op
        ensures Unserved(d.out, op') <==> Unserved(c.out, op')
      {
        StillUnserved(c.out, op');
      }
      if WritesTo(op, h) {
        forall op' <- c.pending | WritesTo(op', h)
          ensures op' == op
        {
          OneWriter(s, op, op', h);
        }
        hide Structure, Prints, Written, Unserved, Writer;
        OwnChunk(s, op, os, h, printed);
      } else {
        assert ChunkFor(s, ServeNext(os), h) == [] && printed + [] == printed;
        hide Structure, Prints, Written, Unserved, Writer;
      }
    }
  }

  /** The chunk that the server takes is the next piece of the write. */
  lemma OwnChunk(s: State, op: Op, os: OsResult, h: nat, printed: seq<Byte>)
    requires s.client.out != [] && Writer(s) == Some(h) && WritesTo(op, h) && h in s.client.handles
    requires RequestFits(s.client, op.detail, s.client.out[0]) && Outputs(s.client, h)
    requires Prints(s.client.log, h) ==> printed == Written(s.client.log, h) + op.detail.data[..op.detail.source]
    requires !Prints(s.client.log, h) ==> printed == []
    ensures var printed', d := printed + ChunkFor(s, ServeNext(os), h), op.detail;
      && (Prints(s.client.log, h) ==> printed' == Written(s.client.log, h) + d.data[..d.source + d.length])
      && (!Prints(s.client.log, h) ==> printed' == [])
  {
    hide Prints, Written, Writer;
    var data, source, length := op.detail.data, op.detail.source, op.detail.length;
    assert data[..source] + data[source..source + length] == data[..source + length];
    Associative(Written(s.client.log, h), data[..source], data[source..source + length]);
  }

  // ---------- answers ----------

  /** The answer at the head is the only message of its operation. */
  lemma OnlyAnswer(s: State, i: nat)
    requires Structure(s) && s.answers != [] && FindPending(s.client.pending, s.answers[0].seqno) == Some(i)
    ensures !Unserved(s.client.out, s.client.pending[i])
  {
    var flight := Flight(s);
    assert flight[0] == s.answers[0] && Increasing(flight, s.sent);
    forall m <- s.client.out
      ensures m.seqno != s.answers[0].seqno
    {
      var k :| 0 <= k < |s.client.out| && s.client.out[k] == m;
      assert flight[|s.answers| + k] == m;
    }
  }

  /** What an answer to anything but a write does to the output: nothing. */
  lemma AnswerOpens(c: Client, m: Msg, i: nat)
    requires AllLive(c) && FindPending(c.pending, m.seqno) == Some(i) && c.next !in c.handles
    requires m.ErrorAnswer? || Expected(c.pending[i].detail, m)
    requires !c.pending[i].detail.Writing? && (m.OpenAnswer? ==> m.handle < MAX_FILE_HANDLES)
    ensures var d := ProcessAnswer(c, m).0;
      && c.next <= d.next
      && SameIds(c, d)
      && !(c.next in d.handles && d.handles[c.next].id == VIRTUAL_OUTPUT_ID)
      && (d.out == c.out || (|d.out| == |c.out| + 1 && d.out == c.out + [d.out[|c.out|]]
                             && (d.out[|c.out|].CloseRequest? || d.out[|c.out|].seqno == c.seqno)))
      && (d.pending != c.pending[..i] + c.pending[i + 1..] ==>
            |d.pending| == |c.pending| && d.pending == c.pending[i := d.pending[i]] && !d.pending[i].detail.Writing?)
      && (d.log != c.log ==> |d.log| > |c.log| && d.log == c.log + [d.log[|c.log|]]
                             && !d.log[|c.log|].what.Wrote? && !d.log[|c.log|].what.OutputOpened?)
  {
    assert Live(c, c.pending[i].detail);
    hide NextChunk, Truncate, AllLive, TranslateError;
    TakeDataKeepsId(c, i, m);
    hide TakeData;
  }

  lemma TakeDataKeepsId(c: Client, i: nat, m: Msg)
    requires i < |c.pending|
    ensures c.pending[i].detail.Reading? && m.ReadAnswer? && c.pending[i].detail.h in c.handles ==>
      var Reading(h, count, got) := c.pending[i].detail;
      TakeData(c.handles[h], count - Min(|got|, count), m.data).0.id == c.handles[h].id
  {
  }

  /** The operations that are left where one ended, or went on as another that writes nothing. */
  lemma LeftWriters(c: Client, d: Client, i: nat)
    requires i < |c.pending| && !c.pending[i].detail.Writing?
    requires d.pending == c.pending[..i] + c.pending[i + 1..] ||
      (|d.pending| == |c.pending| && d.pending == c.pending[i := d.pending[i]] && !d.pending[i].detail.Writing?)
    ensures forall op <- d.pending :: op.detail.Writing? ==> op in c.pending
    ensures forall op <- c.pending :: op.detail.Writing? ==> op in d.pending
  {
    forall op <- c.pending | op.detail.Writing?
      ensures op in d.pending
    {
      var k :| 0 <= k < |c.pending| && c.pending[k] == op;
      if d.pending == c.pending[..i] + c.pending[i + 1..] {
        assert d.pending[if k < i then k else k - 1] == op;
      } else {
        assert d.pending[k] == op;
      }
    }
  }

  lemma OtherAnswerOutput(s: State, w: World, i: nat, h: nat, printed: seq<Byte>)
    requires Structure(s) && s.answers != [] && s.sent + 1 < UINT32 && OutputOk(s.client, h, printed)
    requires FindPending(s.client.pending, s.answers[0].seqno) == Some(i) && !s.client.pending[i].detail.Writing?
    ensures OutputOk(Step(s, w, TakeAnswer).client, h, printed)
  {
    hide ProcessAnswer, Step, OutputOk;
    var k := AnsweredOp(s, w);
    var c, m := s.client, s.answers[0];
    var d := Step(s, w, TakeAnswer).client;
    AnswerOpens(c, m, i);
    LeftWriters(c, d, i);
    FlightBelow(s);
    MatchedBounds(c.pending, Flight(s), s.sent);
    hide Structure, Matched;
    AnswerKeepsOutput(c, d, h, printed);
  }

  lemma AnswerKeepsOutput(c: Client, d: Client, h: nat, printed: seq<Byte>)
    requires OutputOk(c, h, printed) && KnownHandles(c) && AllLive(c) && c.next <= d.next
    requires forall op <- c.pending :: op.seqno < c.seqno
    requires SameIds(c, d)
    requires !(c.next in d.handles && d.handles[c.next].id == VIRTUAL_OUTPUT_ID)
    requires d.out == c.out || (|d.out| == |c.out| + 1 && d.out == c.out + [d.out[|c.out|]]
                                && (d.out[|c.out|].CloseRequest? || d.out[|c.out|].seqno == c.seqno))
    requires forall op <- d.pending :: op.detail.Writing? ==> op in c.pending
    requires forall op <- c.pending :: op.detail.Writing? ==> op in d.pending
    requires d.log != c.log ==> |d.log| > |c.log| && d.log == c.log + [d.log[|c.log|]]
                                && !d.log[|c.log|].what.Wrote? && !d.log[|c.log|].what.OutputOpened?
    ensures OutputOk(d, h, printed)
  {
    StillOutputs(c, d, h);
    if d.log != c.log {
      PrintsMore(c.log, d.log[|c.log|], h);
      assert Written(c.log, h) + [] == Written(c.log, h);
    }
    hide Prints, Written;
    forall op <- c.pending
      ensures Unserved(d.out, op) <==> Unserved(c.out, op)
      ensures WritesTo(op, h) ==> h < c.next
    {
      assert Live(c, op.detail);
      PostedServes(c.out, d.out, op, c.seqno);
    }
    hide Unserved;
    StillOutput(c, d, h, printed);
  }

  /** A chunk has been taken: the next is sent, or the write is replied to. */
  lemma WriteAnswerOutput(s: State, w: World, i: nat, h: nat, printed: seq<Byte>)
    requires Structure(s) && Content(s, w) && s.answers != [] && s.sent + 1 < UINT32
    requires FindPending(s.client.pending, s.answers[0].seqno) == Some(i) && s.client.pending[i].detail.Writing?
    requires OutputOk(s.client, h, printed)
    ensures OutputOk(Step(s, w, TakeAnswer).client, h, printed)
  {
    hide ProcessAnswer, Step, Outputs, Progress, CompleteWrite;
    NoWriteError(s, w, i);
    WriteAnswerTaken(s, w, i);
    var c, op := s.client, s.client.pending[i];
    var d := CompleteWrite(c, i);
    var k := AnsweredOp(s, w);
    OnlyAnswer(s, i);
    FlightBelow(s);
    MatchedBounds(c.pending, Flight(s), s.sent);
    forall op' <- c.pending | WritesTo(op, h) && WritesTo(op', h)
      ensures op' == op
    {
      OneWriter(s, op, op', h);
    }
    assert KnownHandles(c) && Live(c, op.detail);
    hide Structure, Content, Matched;
    match NextChunk(op.detail.data, op.detail.source, op.detail.length)
    case None => WriteEnds(c, i, h, printed);
    case Some((at, n)) => WriteGoesOn(c, i, at, n, h, printed);
  }

  lemma WriteEnds(c: Client, i: nat, h: nat, printed: seq<Byte>)
    requires OutputOk(c, h, printed) && i < |c.pending| && c.pending[i].detail.Writing?
    requires c.pending[i].detail.h in c.handles && KnownHandles(c)
    requires NextChunk(c.pending[i].detail.data, c.pending[i].detail.source, c.pending[i].detail.length) == None
    requires !Unserved(c.out, c.pending[i])
    requires forall j :: 0 <= j < |c.pending| && c.pending[j] == c.pending[i] ==> j == i
    requires WritesTo(c.pending[i], h) ==> forall op <- c.pending :: WritesTo(op, h) ==> op == c.pending[i]
    ensures OutputOk(CompleteWrite(c, i), h, printed)
  {
    var d, op := CompleteWrite(c, i), c.pending[i];
    var data := op.detail.data;
    PrintsMore(c.log, Reply(op.packet, |data|, 0, Wrote(op.detail.h, data, true)), h);
    hide Prints, Written, Unserved;
    forall op' <- d.pending
      ensures op' in c.pending && op' != op
    {
      var k :| 0 <= k < |d.pending| && d.pending[k] == op';
      assert c.pending[if k < i then k else k + 1] == op';
    }
    forall op' <- c.pending | op' != op
      ensures op' in d.pending
    {
      var k :| 0 <= k < |c.pending| && c.pending[k] == op';
      assert d.pending[if k < i then k else k - 1] == op';
    }
    assert op in c.pending;
    if WritesTo(op, h) {
      assert data[..op.detail.source + op.detail.length] == data;
    } else {
      assert Written(c.log, h) + [] == Written(c.log, h);
    }
  }

  lemma WriteGoesOn(c: Client, i: nat, at: nat, n: nat, h: nat, printed: seq<Byte>)
    requires OutputOk(c, h, printed) && i < |c.pending| && c.pending[i].detail.Writing?
    requires c.pending[i].detail.h in c.handles && KnownHandles(c)
    requires var d := c.pending[i].detail; NextChunk(d.data, d.source, d.length) == Some((at, n))
    requires !Unserved(c.out, c.pending[i]) && forall op <- c.pending :: op.seqno < c.seqno
    requires forall j :: 0 <= j < |c.pending| && c.pending[j] == c.pending[i] ==> j == i
    requires WritesTo(c.pending[i], h) ==> forall op <- c.pending :: WritesTo(op, h) ==> op == c.pending[i]
    ensures OutputOk(CompleteWrite(c, i), h, printed)
  {
    var d, op := CompleteWrite(c, i), c.pending[i];
    var op', m := d.pending[i], d.out[|c.out|];
    assert d.out == c.out + [m] && m in d.out && Unserved(d.out, op') && op in c.pending && op' in d.pending;
    forall x <- c.pending
      ensures Unserved(d.out, x) <==> Unserved(c.out, x)
    {
      PostedServes(c.out, d.out, x, c.seqno);
    }
    hide Prints, Written, Unserved;
    forall x <- d.pending
      ensures (x in c.pending && x != op) || x == op'
    {
      var k :| 0 <= k < |d.pending| && d.pending[k] == x;
      assert k != i ==> c.pending[k] == x;
    }
    forall x <- c.pending
      ensures x in d.pending || x == op
    {
      var k :| 0 <= k < |c.pending| && c.pending[k] == x;
      assert k != i ==> d.pending[k] == x;
    }
  }

  // ---------- runs ----------

  lemma StepOutput(s: State, w: World, e: Event, s': State, h: nat, printed: seq<Byte>)
    requires Structure(s) && Content(s, w) && NoWrap(s) && Next(s, w, e, s') && OutputOk(s.client, h, printed)
    ensures OutputOk(s'.client, h, printed + ChunkFor(s, e, h))
  {
    hide Structure, Content, Step, OutputOk, Writer;
    assert !e.ServeNext? ==> printed + [] == printed;
    match e
    case TakePacket(p) =>
      if p.Write? {
        WriteOutput(s, w, p.h, p.data, h, printed);
      } else {
        PacketOutput(s, w, p, h, printed);
      }
    case ServeNext(os) => ServeOutput(s, w, os, h, printed);
    case TakeAnswer =>
      AnswerFits(s);
      var i := FindPending(s.client.pending, s.answers[0].seqno).value;
      if s.client.pending[i].detail.Writing? {
        WriteAnswerOutput(s, w, i, h, printed);
      } else {
        OtherAnswerOutput(s, w, i, h, printed);
      }
  }

  lemma {:induction false} RunOutput(device: string, w: World, events: seq<Event>, states: seq<State>, n: nat, h: nat)
    requires IsRun(device, w, events, states) && n < |states| && NoWrap(states[n]) && WorldOk(w)
    ensures OutputOk(states[n].client, h, PrintedFor(events, states, n, h))
  {
    hide Structure, Content, RepliesConserved, Next, OutputOk, ChunkFor, WorldOk;
    if n == 0 {
      StartOutput(device, h);
    } else {
      assert Next(states[n - 1], w, events[n - 1], states[n]);
      SentGrows(states[n - 1], w, events[n - 1], states[n]);
      RunMatching(device, w, events, states, n - 1);
      RunContent(device, w, events, states, n - 1);
      RunOutput(device, w, events, states, n - 1, h);
      StepOutput(states[n - 1], w, events[n - 1], states[n], h, PrintedFor(events, states, n - 1, h));
    }
  }

  lemma StartOutput(device: string, h: nat)
    ensures OutputOk(StartState(device).client, h, [])
  {
  }

  /**
   In every run: what has been printed for a handle opened to print is what its
   writes that have been told as done have written, in order, followed by a part
   of the one that is under way; and no more than that if none is. For any other
   handle nothing is printed, although its writes are told as done.
   */
  lemma PrintedIsWritten(device: string, w: World, events: seq<Event>, states: seq<State>, n: nat, h: nat)
    requires IsRun(device, w, events, states) && n < |states| && NoWrap(states[n]) && WorldOk(w)
    ensures var c, printed := states[n].client, PrintedFor(events, states, n, h);
      && (!Prints(c.log, h) ==> printed == [])
      && (Prints(c.log, h) ==>
            && (forall op <- c.pending :: WritesTo(op, h) ==>
                  && Served(c.out, op) <= |op.detail.data|
                  && printed == Written(c.log, h) + op.detail.data[..Served(c.out, op)])
            && ((forall op <- c.pending :: !WritesTo(op, h)) ==> printed == Written(c.log, h)))
  {
    RunOutput(device, w, events, states, n, h);
  }

  lemma StdoutGrows(s: State, w: World, e: Event, s': State)
    requires Next(s, w, e, s')
    ensures s'.server.stdout == s.server.stdout + Chunk(s, e)
  {
    assert s.server.stdout + [] == s.server.stdout;
    hide ProcessPacket, ProcessAnswer, ReadDir, FindNextIn;
  }

  /** If one handle alone prints, the output is what has been printed for it. */
  lemma {:induction false} StdoutOfOne(device: string, w: World, events: seq<Event>, states: seq<State>, n: nat, h: nat)
    requires IsRun(device, w, events, states) && n < |states| && NoWrap(states[n]) && WorldOk(w)
    requires forall g :: Prints(states[n].client.log, g) ==> g == h
    ensures states[n].server.stdout == PrintedFor(events, states, n, h)
  {
    hide Structure, RepliesConserved, Next, WorldOk, Chunk, ChunkFor, Prints;
    if n == 0 {
      assert states[0] == StartState(device) && IdleServer().stdout == [];
    } else {
      var s, e := states[n - 1], events[n - 1];
      assert Next(s, w, e, states[n]);
      SentGrows(s, w, e, states[n]);
      RunMatching(device, w, events, states, n - 1);
      LogGrows(s, w, e, states[n]);
      forall g | Prints(s.client.log, g)
        ensures g == h
      {
        PrintsStays(s.client.log, states[n].client.log, g);
      }
      StdoutOfOne(device, w, events, states, n - 1, h);
      StdoutGrows(s, w, e, states[n]);
      ChunksPrint(device, w, events, states, n - 1, e, h);
    }
  }

  lemma PrintsStays(log: seq<Reply>, log': seq<Reply>, g: nat)
    requires log <= log' && Prints(log, g)
    ensures Prints(log', g)
  {
    var k :| 0 <= k < |log| && log[k].what == OutputOpened(g);
    assert log'[k].what == OutputOpened(g);
  }

  /** Whatever is printed is printed for a handle that prints. */
  lemma ChunksPrint(device: string, w: World, events: seq<Event>, states: seq<State>, n: nat, e: Event, h: nat)
    requires IsRun(device, w, events, states) && n < |events| && NoWrap(states[n]) && WorldOk(w) && e == events[n]
    requires forall g :: Prints(states[n].client.log, g) ==> g == h
    ensures ChunkFor(states[n], e, h) == Chunk(states[n], e)
  {
    var s := states[n];
    if Chunk(s, e) != [] {
      RunMatching(device, w, events, states, n);
      assert Next(s, w, e, states[n + 1]);
      var op := HeadOp(s);
      HeadWriter(s, op);
      hide Structure, RepliesConserved, Next, IsRun, WorldOk, Prints;
      RunOutput(device, w, events, states, n, op.detail.h);
    }
  }
}
