/**
 Listings of the root as the holder of one lock sees them. All locks made for the
 root share handle 0, with its flag, and all that list the root share the server's
 place in it. So a lock is told the entries of the root if it lists alone.
 */
module FsLocks {
  import opened Base
  import opened RemoteFs
  import opened FsSystem
  import opened FsMatching
  import opened FsOwnership
  import opened Reference
  import opened FsContent
  import opened FsRefinement
  import opened FsRoot

  // ---------- who lists the root ----------

  predicate ListsRoot(c: Client, d: Detail) {
    d.Enumerating? && d.h in c.handles && c.handles[d.h].id == ROOT_ID
  }

  /** Nobody waits for an entry of the root. */
  ghost predicate RootFree(c: Client) {
    forall op <- c.pending :: !ListsRoot(c, op.detail)
  }

  /**
   Only lock l, on handle h, lists the root with this event; its caller waits for
   each answer before it asks again. who says which lock a packet is about.
   */
  ghost predicate OnlyBy(s: State, e: Event, who: nat -> nat, l: nat, h: nat) {
    e.TakePacket? && e.p.ExamineNext? && ListsRoot(s.client, Enumerating(e.p.h)) ==>
      e.p.h == h && who(s.taken) == l && RootFree(s.client)
  }

  /** What pending listings of the root, all of them of lock l, have been told before, and what they will be told. */
  ghost predicate Own(c: Client, flight: seq<Msg>, root: Slot, w: World, n: nat, who: nat -> nat, l: nat, h: nat) {
    && h < c.next && root.isDir && root.path == "" && n <= |RootEntries(w)|
    && (h in c.handles ==> c.handles[h].id == ROOT_ID && c.handles[h].enumerating)
    && (forall op <- c.pending :: ListsRoot(c, op.detail) ==> op.detail.h == h && who(op.packet) == l)
    && (forall op <- c.pending, op' <- c.pending :: ListsRoot(c, op.detail) && ListsRoot(c, op'.detail) ==> op == op')
    && (forall op <- c.pending, m <- flight :: ListsRoot(c, op.detail) && Belongs(m, op) ==>
          ListFits(RootEntries(w), "", n, root.dir, m))
    && (RootFree(c) ==> root.dir == Some(Cursor("", n)))
  }

  /** A step that lists the root neither for its caller nor at the server. */
  lemma StillOwn(c: Client, d: Client, flight: seq<Msg>, flight': seq<Msg>, root: Slot, root': Slot,
                 w: World, n: nat, who: nat -> nat, l: nat, h: nat)
    requires Own(c, flight, root, w, n, who, l, h) && c.next <= d.next && root' == root.(fd := root'.fd)
    requires h in d.handles ==> h in c.handles && d.handles[h].id == c.handles[h].id
    requires h in d.handles ==> d.handles[h].enumerating == c.handles[h].enumerating
    requires forall op <- d.pending :: ListsRoot(d, op.detail) ==> op in c.pending && ListsRoot(c, op.detail)
    requires forall op <- c.pending :: ListsRoot(c, op.detail) ==> op in d.pending && ListsRoot(d, op.detail)
    requires forall op <- d.pending, m <- flight' :: ListsRoot(d, op.detail) && Belongs(m, op) ==>
      m in flight || ListFits(RootEntries(w), "", n, root.dir, m)
    ensures Own(d, flight', root', w, n, who, l, h)
  {
    hide ListFits, ListsRoot;
  }

  /** Operations that stay on handles that stay list what they listed. */
  lemma SameListers(c: Client, d: Client, ops: seq<Op>, not: Option<nat>)
    requires SameLocks(c, d, not) && AllLive(c)
    requires forall op <- ops :: op in c.pending && Live(d, op.detail)
    ensures forall op <- ops :: ListsRoot(d, op.detail) == ListsRoot(c, op.detail)
  {
    forall op <- ops
      ensures ListsRoot(d, op.detail) == ListsRoot(c, op.detail)
    {
      assert Live(c, op.detail);
    }
  }

  /** What was told to lock l after this reply. */
  lemma ListingMore(log: seq<Reply>, r: Reply, who: nat -> nat, l: nat, h: nat)
    ensures LockListing(log + [r], who, l, h) ==
      if r.what == RootLock(h) then []
      else if !TellsLock(r, who, l, h) then LockListing(log, who, l, h)
      else if r.what.ListEnd? then [] else LockListing(log, who, l, h) + [r.what]
  {
    assert (log + [r])[..|log|] == log;
  }

  // ---------- packets ----------

  lemma PacketOwn(s: State, w: World, p: Packet, n: nat, who: nat -> nat, l: nat, h: nat)
    requires Structure(s) && Enabled(s, TakePacket(p)) && !p.ExamineNext? && s.sent + 1 < UINT32
    requires Own(s.client, Flight(s), s.server.root, w, n, who, l, h)
    ensures var s' := Step(s, w, TakePacket(p));
      && Own(s'.client, Flight(s'), s'.server.root, w, n, who, l, h)
      && TellsLockNothing(s.client.log, s'.client.log, who, l, h)
  {
    hide ProcessPacket, Serve, ProcessAnswer, Own;
    var s', c := Step(s, w, TakePacket(p)), s.client;
    var d := s'.client;
    assert d == ProcessPacket(c, s.taken, p) && s'.answers == s.answers && s'.server == s.server;
    PacketStructure(s, w, p);
    FlightBelow(s);
    PacketShape(c, s.taken, p);
    PacketTells(c, s.taken, p);
    assert AllLive(d) && AllRequests(d.out);
    hide Step, Structure, Enabled, Acceptable, Matched, Kinds, Known;
    PacketKeeps(c, d, s.answers, s.server.root, w, n, who, l, h);
  }

  /** The log grows by nothing about the listings of lock l. */
  predicate TellsLockNothing(log: seq<Reply>, log': seq<Reply>, who: nat -> nat, l: nat, h: nat) {
    || log' == log
    || (&& |log'| == |log| + 1 && log' == log + [log'[|log|]]
        && !TellsLock(log'[|log|], who, l, h) && log'[|log|].what != RootLock(h))
  }

  lemma PacketKeeps(c: Client, d: Client, answers: seq<Msg>, root: Slot, w: World, n: nat,
                    who: nat -> nat, l: nat, h: nat)
    requires Own(c, answers + c.out, root, w, n, who, l, h) && SameLocks(c, d, None) && c.next <= d.next
    requires AllLive(c) && AllLive(d) && AllRequests(d.out) && Pushed(c, d) && Posted(c, d) && TellsNewLock(c, d)
    ensures Own(d, answers + d.out, root, w, n, who, l, h)
    ensures TellsLockNothing(c.log, d.log, who, l, h)
  {
    forall op <- c.pending
      ensures op in d.pending && Live(d, op.detail)
    {
      var k :| 0 <= k < |c.pending| && c.pending[k] == op;
      assert d.pending[if d.pending == c.pending then k else k + 1] == op;
    }
    SameListers(c, d, c.pending, None);
    forall op <- d.pending | op !in c.pending
      ensures !ListsRoot(d, op.detail)
    {
    }
    forall m <- answers + d.out | m !in answers + c.out
      ensures ListFits(RootEntries(w), "", n, root.dir, m)
    {
      NewRequest(c, d, answers, m);
    }
    hide SameLocks, ListFits, AllLive, ListsRoot, Posted, Pushed;
    StillOwn(c, d, answers + c.out, answers + d.out, root, root, w, n, who, l, h);
  }

  lemma NewRequest(c: Client, d: Client, answers: seq<Msg>, m: Msg)
    requires AllRequests(d.out) && Posted(c, d) && m in answers + d.out && m !in answers + c.out
    ensures !IsAnswer(m) && !m.FindNextRequest?
  {
    var k :| 0 <= k < |d.out| && d.out[k] == m;
    assert forall j :: 0 <= j < |c.out| ==> c.out[j] in answers + c.out;
  }

  /** What ExamineNext does to the client. */
  predicate Examines(c: Client, d: Client, g: nat, packet: nat) {
    && g in c.handles && d.next == c.next && d.log == c.log
    && d.pending == [Op(c.seqno, packet, Enumerating(g))] + c.pending
    && d.out == c.out + [FindNextRequest(c.seqno, c.handles[g].id, !c.handles[g].enumerating)]
    && d.handles == c.handles[g := c.handles[g].(enumerating := true)]
  }

  ghost predicate Below(flight: seq<Msg>, seqno: nat) {
    forall m <- flight :: m.seqno < seqno
  }

  lemma SameRootListers(c: Client, d: Client, g: nat, packet: nat)
    requires Examines(c, d, g, packet)
    ensures forall x :: ListsRoot(d, x) == ListsRoot(c, x)
    ensures forall op <- d.pending :: op in c.pending || op == d.pending[0]
    ensures forall op <- c.pending :: op in d.pending
  {
    forall op <- c.pending
      ensures op in d.pending
    {
      var k :| 0 <= k < |c.pending| && c.pending[k] == op;
      assert d.pending[k + 1] == op;
    }
  }

  /** The new request belongs to the new operation only, which has no other message. */
  lemma NewListing(c: Client, d: Client, answers: seq<Msg>, g: nat, packet: nat)
    requires Examines(c, d, g, packet) && Below(answers + c.out, c.seqno)
    ensures forall m <- answers + d.out :: m in answers + c.out || m == d.out[|c.out|]
    ensures forall m <- answers + c.out :: !Belongs(m, d.pending[0])
  {
  }

  /** A listing of another directory. */
  lemma ExamineOther(c: Client, d: Client, answers: seq<Msg>, root: Slot, w: World, g: nat, packet: nat, n: nat,
                     who: nat -> nat, l: nat, h: nat)
    requires Own(c, answers + c.out, root, w, n, who, l, h) && Examines(c, d, g, packet)
    requires Below(answers + c.out, c.seqno) && (forall op <- c.pending :: op.seqno < c.seqno)
    requires !ListsRoot(c, Enumerating(g))
    ensures Own(d, answers + d.out, root, w, n, who, l, h)
  {
    SameRootListers(c, d, g, packet);
    NewListing(c, d, answers, g, packet);
    hide ListFits;
    assert g != h;
    hide ListsRoot;
    StillOwn(c, d, answers + c.out, answers + d.out, root, root, w, n, who, l, h);
  }

  /** Lock l asks for its next entry. */
  lemma ExamineOwn(c: Client, d: Client, answers: seq<Msg>, root: Slot, w: World, packet: nat, n: nat,
                   who: nat -> nat, l: nat, h: nat)
    requires Own(c, answers + c.out, root, w, n, who, l, h) && Examines(c, d, h, packet)
    requires Below(answers + c.out, c.seqno) && who(packet) == l && RootFree(c)
    ensures Own(d, answers + d.out, root, w, n, who, l, h)
  {
    SameRootListers(c, d, h, packet);
    NewListing(c, d, answers, h, packet);
    var op, m := d.pending[0], d.out[|c.out|];
    assert op in d.pending && ListsRoot(d, op.detail);
    assert ListFits(RootEntries(w), "", n, root.dir, m);
    hide ListFits, ListsRoot;
  }

  /** Lock l asks for the first entry, while nobody else lists the root: the server will begin anew. */
  lemma ExamineFirst(c: Client, d: Client, answers: seq<Msg>, root: Slot, w: World, packet: nat,
                     who: nat -> nat, l: nat, h: nat)
    requires Examines(c, d, h, packet) && ListsRoot(c, Enumerating(h)) && !c.handles[h].enumerating && h < c.next
    requires Below(answers + c.out, c.seqno) && who(packet) == l && RootFree(c) && root.isDir && root.path == ""
    ensures Own(d, answers + d.out, root, w, 0, who, l, h)
  {
    SameRootListers(c, d, h, packet);
    NewListing(c, d, answers, h, packet);
    var op, m := d.pending[0], d.out[|c.out|];
    assert op in d.pending && ListsRoot(d, op.detail);
    assert ListFits(RootEntries(w), "", 0, root.dir, m);
    hide ListFits, ListsRoot;
  }

  lemma ExamineShape(s: State, w: World, g: nat)
    requires Structure(s) && Enabled(s, TakePacket(ExamineNext(g)))
    ensures AllLive(s.client) && AllRequests(s.client.out)
    ensures var s' := Step(s, w, TakePacket(ExamineNext(g)));
      Examines(s.client, s'.client, g, s.taken) && s'.answers == s.answers && s'.server == s.server
    ensures Below(s.answers + s.client.out, s.client.seqno)
    ensures forall op <- s.client.pending :: op.seqno < s.client.seqno
    ensures g < s.client.next
  {
    ExamineTaken(s, w, g);
    FlightBelow(s);
    MatchedBounds(s.client.pending, Flight(s), s.sent);
    hide Step, ProcessPacket, Matched, Kinds;
  }

  lemma ExamineStep(s: State, w: World, g: nat, n: nat, who: nat -> nat, l: nat, h: nat)
    requires Structure(s) && Enabled(s, TakePacket(ExamineNext(g))) && s.sent + 1 < UINT32
    requires Own(s.client, Flight(s), s.server.root, w, n, who, l, h)
    requires OnlyBy(s, TakePacket(ExamineNext(g)), who, l, h)
    ensures var s' := Step(s, w, TakePacket(ExamineNext(g)));
      Own(s'.client, Flight(s'), s'.server.root, w, n, who, l, h) && s'.client.log == s.client.log
  {
    ExamineShape(s, w, g);
    hide Step, ProcessPacket, Structure, Enabled, Own, ListsRoot, RootFree;
    var s', c := Step(s, w, TakePacket(ExamineNext(g))), s.client;
    if ListsRoot(c, Enumerating(g)) {
      ExamineOwn(c, s'.client, s.answers, s.server.root, w, s.taken, n, who, l, h);
    } else {
      ExamineOther(c, s'.client, s.answers, s.server.root, w, g, s.taken, n, who, l, h);
    }
  }

  // ---------- the server ----------

  /** The operation of the request at the head, which is in flight for it. */
  lemma HeadOp(s: State) returns (op: Op)
    requires Structure(s) && s.client.out != [] && !s.client.out[0].CloseRequest?
    ensures op in s.client.pending && Belongs(s.client.out[0], op) && !IsAnswer(s.client.out[0])
    ensures RequestFits(s.client, op.detail, s.client.out[0])
    ensures forall op' <- s.client.pending :: op'.seqno == op.seqno ==> op' == op
    ensures forall m <- s.answers + s.client.out[1..] :: !Belongs(m, op)
  {
    var c, n := s.client, |s.answers|;
    var flight := Flight(s);
    assert flight[n] == c.out[0];
    HasOp(s, n);
    var i := FindPending(c.pending, c.out[0].seqno).value;
    op := c.pending[i];
    RequestFitsNow(s, i, n);
    assert Matched(c.pending, flight, s.sent) && Channels(s);
    assert Increasing(flight, s.sent);
    hide Structure, Matched, RequestFits;
    forall op' <- c.pending | op'.seqno == op.seqno
      ensures op' == op
    {
      var j :| 0 <= j < |c.pending| && c.pending[j] == op';
      SameNumber(c.pending, flight, s.sent, i, j);
    }
    forall m <- s.answers + c.out[1..]
      ensures !Belongs(m, op)
    {
      var k :| 0 <= k < |s.answers + c.out[1..]| && (s.answers + c.out[1..])[k] == m;
      assert flight[if k < n then k else k + 1] == m;
    }
  }

  /** The server takes the request of a pending listing of the root. */
  lemma ServeOwn(s: State, w: World, os: OsResult, n: nat, who: nat -> nat, l: nat, h: nat)
    requires Structure(s) && Enabled(s, ServeNext(os)) && RootIsDir(w)
    requires Own(s.client, Flight(s), s.server.root, w, n, who, l, h)
    requires s.client.out[0].FindNextRequest? && s.client.out[0].handle == ROOT_ID
    ensures var s' := Step(s, w, ServeNext(os)); Own(s'.client, Flight(s'), s'.server.root, w, n, who, l, h)
  {
    hide ProcessPacket, ProcessAnswer, FindNextIn;
    var s', c, m := Step(s, w, ServeNext(os)), s.client, s.client.out[0];
    var (root', a) := FindNextIn(s.server.root, w, m);
    assert s'.client == c.(out := c.out[1..]) && s'.answers == s.answers + [a] && s'.server.root == root';
    var op := HeadOp(s);
    hide Structure, Enabled, Step, Serve;
    assert ListsRoot(c, op.detail) && m in Flight(s);
    assert ListFits(RootEntries(w), "", n, s.server.root.dir, m);
    RootListed(s.server.root, w, m, n);
    hide ListFits;
    assert forall x :: ListsRoot(s'.client, x) == ListsRoot(c, x);
    hide ListsRoot;
    assert forall m' <- Flight(s') :: m' == a || m' in s.answers + c.out[1..];
  }

  lemma RootListed(root: Slot, w: World, m: Msg, n: nat)
    requires m.FindNextRequest? && root.isDir && root.path == "" && RootIsDir(w) && n <= |RootEntries(w)|
    requires ListFits(RootEntries(w), "", n, root.dir, m)
    ensures var (root', a) := FindNextIn(root, w, m);
      && root'.isDir && root'.path == "" && a.seqno == m.seqno
      && ListFits(RootEntries(w), "", n, root'.dir, a)
  {
  }

  /** The server takes any other request. */
  lemma ServeOther(s: State, w: World, os: OsResult, n: nat, who: nat -> nat, l: nat, h: nat)
    requires Structure(s) && Enabled(s, ServeNext(os))
    requires Own(s.client, Flight(s), s.server.root, w, n, who, l, h)
    requires !(s.client.out[0].FindNextRequest? && s.client.out[0].handle == ROOT_ID)
    ensures var s' := Step(s, w, ServeNext(os)); Own(s'.client, Flight(s'), s'.server.root, w, n, who, l, h)
  {
    hide ProcessPacket, ProcessAnswer, Serve, Own, ListFits;
    var s', c, m := Step(s, w, ServeNext(os)), s.client, s.client.out[0];
    var (server, answer) := Serve(s.server, w, m, os);
    ServeKeepsRoot(s.server, w, m, os);
    CloseQuiet(s, w, os);
    assert s'.client == c.(out := c.out[1..]) && s'.server == server;
    assert s'.answers == if answer.Some? then s.answers + [answer.value] else s.answers;
    if m.CloseRequest? {
    } else {
      var op := HeadOp(s);
      assert !ListsRoot(c, op.detail);
    }
    assert forall x :: ListsRoot(s'.client, x) == ListsRoot(c, x);
    hide Structure, Step, ListsRoot;
    StillOwn(c, s'.client, Flight(s), Flight(s'), s.server.root, server.root, w, n, who, l, h);
  }

  // ---------- answers ----------

  /** The operation of the answer at the head, and what becomes of the others. */
  lemma AnsweredOp(s: State, w: World) returns (i: nat)
    requires Structure(s) && s.answers != [] && s.sent + 1 < UINT32
    ensures i < |s.client.pending| && FindPending(s.client.pending, s.answers[0].seqno) == Some(i)
    ensures AllLive(s.client) && AllRequests(s.client.out) && s.client.next !in s.client.handles
    ensures forall op <- s.client.pending :: op.seqno == s.client.pending[i].seqno ==> op == s.client.pending[i]
    ensures forall j :: 0 <= j < |s.client.pending| && s.client.pending[j] == s.client.pending[i] ==> j == i
    ensures var s', c, m := Step(s, w, TakeAnswer), s.client, s.answers[0];
      var d := s'.client;
      && d == ProcessAnswer(c, m).0 && s'.answers == s.answers[1..] && s'.server == s.server
      && AllLive(d) && AllRequests(d.out)
      && (m.ErrorAnswer? || Expected(c.pending[i].detail, m)) && (m.OpenAnswer? ==> m.handle < MAX_FILE_HANDLES)
  {
    hide ProcessAnswer, ProcessPacket, Serve;
    AnswerFits(s);
    AnswerStructure(s, w);
    var c := s.client;
    i := FindPending(c.pending, s.answers[0].seqno).value;
    assert Matched(c.pending, Flight(s), s.sent) && KnownHandles(c);
    hide Structure, Matched, Kinds;
    forall j | 0 <= j < |c.pending| && c.pending[j].seqno == c.pending[i].seqno
      ensures j == i
    {
      SameNumber(c.pending, Flight(s), s.sent, i, j);
    }
  }

  /** Lock l is told an entry, or the end. */
  lemma TakeOwn(s: State, w: World, n: nat, who: nat -> nat, l: nat, h: nat, i: nat)
    requires Structure(s) && s.answers != [] && s.sent + 1 < UINT32
    requires Own(s.client, Flight(s), s.server.root, w, n, who, l, h)
    requires FindPending(s.client.pending, s.answers[0].seqno) == Some(i)
    requires ListsRoot(s.client, s.client.pending[i].detail)
    ensures var s', c := Step(s, w, TakeAnswer), s.client;
      && |s'.client.log| == |c.log| + 1 && s'.client.log == c.log + [s'.client.log[|c.log|]]
      && var r := s'.client.log[|c.log|];
      && TellsLock(r, who, l, h)
      && if r.what.ListEnd? then n == |RootEntries(w)|
         else
           && n < |RootEntries(w)| && TellsEntry(r.what, RootEntries(w)[n])
           && Own(s'.client, Flight(s'), s'.server.root, w, n + 1, who, l, h)
  {
    hide ProcessAnswer, Step;
    var k := AnsweredOp(s, w);
    var s', c, m := Step(s, w, TakeAnswer), s.client, s.answers[0];
    var d, op := s'.client, c.pending[i];
    AnswerShape(c, m, i);
    AnswerLocks(c, m, i);
    AnswerTells(c, m, i);
    assert m in Flight(s) && Belongs(m, op) by {
      assert Flight(s)[0] == m;
      AnswerFits(s);
    }
    hide Structure;
    assert ListFits(RootEntries(w), "", n, s.server.root.dir, m);
    if !(m.FindNextAnswer? && m.end) {
      hide Truncate, TranslateError;
      OverFree(c, d, i, who, l, h);
      assert n < |RootEntries(w)| && s.server.root.dir == Some(Cursor("", n + 1));
      hide ListFits;
    }
  }

  /** After the only listing of the root is over, nobody lists it. */
  lemma OverFree(c: Client, d: Client, i: nat, who: nat -> nat, l: nat, h: nat)
    requires i < |c.pending| && c.pending[i].detail == Enumerating(h) && AllLive(c) && AllLive(d)
    requires d.pending == c.pending[..i] + c.pending[i + 1..] && SameLocks(c, d, Some(h))
    requires forall op <- c.pending, op' <- c.pending ::
      ListsRoot(c, op.detail) && ListsRoot(c, op'.detail) ==> op == op'
    requires ListsRoot(c, Enumerating(h))
    requires forall j :: 0 <= j < |c.pending| && c.pending[j] == c.pending[i] ==> j == i
    ensures RootFree(d)
  {
    forall op <- d.pending
      ensures !ListsRoot(d, op.detail)
    {
      var j :| 0 <= j < |d.pending| && d.pending[j] == op;
      var j' := if j < i then j else j + 1;
      assert c.pending[j'] == op && Live(c, op.detail);
    }
  }

  /** An answer to anything else. */
  lemma TakeOther(s: State, w: World, n: nat, who: nat -> nat, l: nat, h: nat, i: nat)
    requires Structure(s) && s.answers != [] && s.sent + 1 < UINT32
    requires Own(s.client, Flight(s), s.server.root, w, n, who, l, h)
    requires FindPending(s.client.pending, s.answers[0].seqno) == Some(i)
    requires !ListsRoot(s.client, s.client.pending[i].detail)
    ensures var s' := Step(s, w, TakeAnswer);
      && Own(s'.client, Flight(s'), s'.server.root, w, n, who, l, h)
      && TellsLockNothing(s.client.log, s'.client.log, who, l, h)
  {
    hide ProcessAnswer, Step, Own;
    var k := AnsweredOp(s, w);
    var s', c, m := Step(s, w, TakeAnswer), s.client, s.answers[0];
    AnswerShape(c, m, i);
    AnswerLocks(c, m, i);
    AnswerTells(c, m, i);
    hide Structure;
    OtherKeeps(c, s'.client, s.answers, s.server.root, w, n, who, l, h, i, m);
  }

  lemma OtherKeeps(c: Client, d: Client, answers: seq<Msg>, root: Slot, w: World, n: nat,
                   who: nat -> nat, l: nat, h: nat, i: nat, m: Msg)
    requires Own(c, answers + c.out, root, w, n, who, l, h) && answers != [] && Taken(c, d, i)
    requires AllLive(c) && AllLive(d) && AllRequests(d.out) && !ListsRoot(c, c.pending[i].detail)
    requires SameLocks(c, d, if c.pending[i].detail.Enumerating? then HandleOf(c.pending[i].detail) else None)
    requires match c.pending[i].detail
      case Enumerating(g) => d.log == c.log + [ListReply(g, m).(packet := c.pending[i].packet)]
      case _ =>
        || d.log == c.log
        || (|d.log| == |c.log| + 1 && d.log == c.log + [d.log[|c.log|]]
            && var what := d.log[|c.log|].what;
            what.GotData? || what.Wrote? || what.Refused? || (what.Opened? && what.h == c.next))
    ensures Own(d, answers[1..] + d.out, root, w, n, who, l, h)
    ensures TellsLockNothing(c.log, d.log, who, l, h)
  {
    assert Live(c, c.pending[i].detail);
    assert c.pending[i].detail.Enumerating? ==> c.pending[i].detail.h != h;
    hide Truncate, TranslateError;
    var kept := c.pending[..i] + c.pending[i + 1..];
    KeptOps(c, d, i);
    SameListers(c, d, kept, if c.pending[i].detail.Enumerating? then HandleOf(c.pending[i].detail) else None);
    forall m <- answers[1..] + d.out | m !in answers + c.out
      ensures ListFits(RootEntries(w), "", n, root.dir, m)
    {
      NewRequest(c, d, answers, m);
    }
    hide SameLocks, ListFits, AllLive, ListsRoot, Posted;
    StillOwn(c, d, answers + c.out, answers[1..] + d.out, root, root, w, n, who, l, h);
  }

  /** The other operations stay; the answered one is gone, or has become one that lists nothing. */
  lemma KeptOps(c: Client, d: Client, i: nat)
    requires Taken(c, d, i) && AllLive(d)
    ensures var kept := c.pending[..i] + c.pending[i + 1..];
      && (forall op <- kept :: op in c.pending && op in d.pending && Live(d, op.detail))
      && (forall op <- c.pending :: op in kept || op == c.pending[i])
      && (forall op <- d.pending :: op in kept || !op.detail.Enumerating?)
  {
    var kept := c.pending[..i] + c.pending[i + 1..];
    forall op <- kept
      ensures op in d.pending && Live(d, op.detail)
    {
      var k :| 0 <= k < |kept| && kept[k] == op;
      var k' := if d.pending == kept then k else if k < i then k else k + 1;
      assert d.pending[k'] == op;
    }
    forall op <- d.pending
      ensures op in kept || !op.detail.Enumerating?
    {
      var k :| 0 <= k < |d.pending| && d.pending[k] == op;
      if d.pending != kept && k != i {
        assert kept[if k < i then k else k - 1] == op;
      }
    }
  }

  // ---------- runs ----------

  /** The end that lock l is told first in this part of the log. */
  function FirstEnd(log: seq<Reply>, who: nat -> nat, l: nat, h: nat): (k: Option<nat>)
    ensures k.Some? ==> k.value < |log|
  {
    if log == [] then None
    else
      match FirstEnd(log[..|log| - 1], who, l, h)
      case Some(k) => Some(k)
      case None =>
        var r := log[|log| - 1];
        if TellsLock(r, who, l, h) && r.what.ListEnd? then Some(|log| - 1) else None
  }

  lemma FirstEndMore(log: seq<Reply>, r: Reply, who: nat -> nat, l: nat, h: nat)
    ensures FirstEnd(log + [r], who, l, h) ==
      match FirstEnd(log, who, l, h)
      case Some(k) => Some(k)
      case None => if TellsLock(r, who, l, h) && r.what.ListEnd? then Some(|log|) else None
  {
    assert (log + [r])[..|log|] == log;
  }

  /** Until lock l is told the end it is told the first entries in order; then it has been told each. */
  ghost predicate ToldInOrder(w: World, log: seq<Reply>, who: nat -> nat, l: nat, h: nat) {
    var entries := RootEntries(w);
    match FirstEnd(log, who, l, h)
    case None =>
      var told := LockListing(log, who, l, h);
      |told| <= |entries| && TellsEntries(told, entries[..|told|])
    case Some(k) => TellsEntries(LockListing(log[..k], who, l, h), entries)
  }

  /** What holds of the part of the log since lock l began, and of the state while it has not been told the end. */
  ghost predicate InWindow(s: State, w: World, from: nat, who: nat -> nat, l: nat, h: nat) {
    && from <= |s.client.log|
    && var log := s.client.log[from..];
    && ToldInOrder(w, log, who, l, h)
    && (FirstEnd(log, who, l, h).None? ==>
          Own(s.client, Flight(s), s.server.root, w, |LockListing(log, who, l, h)|, who, l, h))
  }

  /** A reply of no interest to the lock. */
  lemma QuietLog(w: World, log: seq<Reply>, log': seq<Reply>, who: nat -> nat, l: nat, h: nat)
    requires TellsLockNothing(log, log', who, l, h)
    ensures FirstEnd(log', who, l, h) == FirstEnd(log, who, l, h)
    ensures LockListing(log', who, l, h) == LockListing(log, who, l, h)
    ensures ToldInOrder(w, log, who, l, h) ==> ToldInOrder(w, log', who, l, h)
  {
    if log' != log {
      ListingMore(log, log'[|log|], who, l, h);
      FirstEndMore(log, log'[|log|], who, l, h);
      match FirstEnd(log, who, l, h)
      case None =>
      case Some(k) => assert log'[..k] == log[..k];
    }
  }

  /** The next entry, or the end. */
  lemma ToldMore(w: World, log: seq<Reply>, r: Reply, who: nat -> nat, l: nat, h: nat)
    requires ToldInOrder(w, log, who, l, h) && FirstEnd(log, who, l, h) == None && TellsLock(r, who, l, h)
    requires var n := |LockListing(log, who, l, h)|;
      if r.what.ListEnd? then n == |RootEntries(w)|
      else n < |RootEntries(w)| && TellsEntry(r.what, RootEntries(w)[n])
    ensures ToldInOrder(w, log + [r], who, l, h)
    ensures FirstEnd(log + [r], who, l, h).None? <==> !r.what.ListEnd?
    ensures !r.what.ListEnd? ==> |LockListing(log + [r], who, l, h)| == |LockListing(log, who, l, h)| + 1
  {
    ListingMore(log, r, who, l, h);
    FirstEndMore(log, r, who, l, h);
    var entries := RootEntries(w);
    if r.what.ListEnd? {
      assert (log + [r])[..|log|] == log && entries[..|entries|] == entries;
    }
    hide TellsEntry;
  }

  /** Once the lock has been told the end, what comes later is another matter. */
  lemma {:induction false} EndStays(w: World, log: seq<Reply>, log': seq<Reply>, who: nat -> nat, l: nat, h: nat)
    requires log <= log' && FirstEnd(log, who, l, h).Some? && ToldInOrder(w, log, who, l, h)
    ensures FirstEnd(log', who, l, h) == FirstEnd(log, who, l, h) && ToldInOrder(w, log', who, l, h)
    decreases |log'|
  {
    if log' == log {
    } else {
      var front, r := log'[..|log'| - 1], log'[|log'| - 1];
      EndStays(w, log, front, who, l, h);
      assert front + [r] == log';
      FirstEndMore(front, r, who, l, h);
      var k := FirstEnd(log, who, l, h).value;
      assert log'[..k] == log[..k];
    }
  }

  lemma LogGrows(s: State, w: World, e: Event, s': State)
    requires Structure(s) && NoWrap(s) && Next(s, w, e, s')
    ensures s.client.log <= s'.client.log
  {
    hide ProcessPacket, ProcessAnswer, Serve;
    match e
    case TakePacket(p) =>
      if p.ExamineNext? {
        ExamineTaken(s, w, p.h);
      } else {
        FlightBelow(s);
        PacketShape(s.client, s.taken, p);
      }
    case ServeNext(os) =>
    case TakeAnswer =>
      var i := AnsweredOp(s, w);
      AnswerTells(s.client, s.answers[0], i);
  }

  /** While lock l has not been told the end, each step keeps what its listing needs. */
  lemma StepWindow(s: State, w: World, e: Event, s': State, from: nat, who: nat -> nat, l: nat, h: nat)
    requires Structure(s) && NoWrap(s) && Next(s, w, e, s') && RootIsDir(w) && OnlyBy(s, e, who, l, h)
    requires InWindow(s, w, from, who, l, h)
    ensures InWindow(s', w, from, who, l, h)
  {
    hide Structure, Own, ToldInOrder, ProcessPacket, ProcessAnswer, Serve;
    var c, d := s.client, s'.client;
    var log := c.log[from..];
    var n := |LockListing(log, who, l, h)|;
    LogGrows(s, w, e, s');
    if FirstEnd(log, who, l, h).Some? {
      EndStays(w, log, d.log[from..], who, l, h);
    } else {
      match e
      case TakePacket(p) =>
        if p.ExamineNext? {
          ExamineStep(s, w, p.h, n, who, l, h);
        } else {
          PacketOwn(s, w, p, n, who, l, h);
          QuietFrom(w, c.log, d.log, from, who, l, h);
        }
      case ServeNext(os) =>
        assert d.log == c.log by {
          hide Own;
        }
        if c.out[0].FindNextRequest? && c.out[0].handle == ROOT_ID {
          ServeOwn(s, w, os, n, who, l, h);
        } else {
          ServeOther(s, w, os, n, who, l, h);
        }
      case TakeAnswer =>
        var i := AnsweredOp(s, w);
        hide Step;
        if ListsRoot(c, c.pending[i].detail) {
          TakeOwn(s, w, n, who, l, h, i);
          assert d.log[from..] == log + [d.log[|c.log|]];
          ToldMore(w, log, d.log[|c.log|], who, l, h);
        } else {
          TakeOther(s, w, n, who, l, h, i);
          QuietFrom(w, c.log, d.log, from, who, l, h);
        }
    }
  }

  lemma QuietFrom(w: World, log: seq<Reply>, log': seq<Reply>, from: nat, who: nat -> nat, l: nat, h: nat)
    requires TellsLockNothing(log, log', who, l, h) && from <= |log|
    ensures from <= |log'| && FirstEnd(log'[from..], who, l, h) == FirstEnd(log[from..], who, l, h)
    ensures LockListing(log'[from..], who, l, h) == LockListing(log[from..], who, l, h)
    ensures ToldInOrder(w, log[from..], who, l, h) ==> ToldInOrder(w, log'[from..], who, l, h)
  {
    assert log' != log ==> log'[from..] == log[from..] + [log'[|log|]];
    QuietLog(w, log[from..], log'[from..], who, l, h);
  }

  ghost predicate RootStays(s: State) {
    s.server.root.isDir && s.server.root.path == ""
  }

  lemma {:induction false} RunRootStays(device: string, w: World, events: seq<Event>, states: seq<State>, n: nat)
    requires IsRun(device, w, events, states) && n < |states| && NoWrap(states[n])
    ensures RootStays(states[n])
  {
    if n == 0 {
    } else {
      var s, e := states[n - 1], events[n - 1];
      assert Next(s, w, e, states[n]);
      SentGrows(s, w, e, states[n]);
      RunRootStays(device, w, events, states, n - 1);
      hide ProcessPacket, ProcessAnswer, IsRun, ServeOpen, ServeRead, ServeWrite, ReadDir;
    }
  }

  /** Only lock l lists the root after event t. */
  ghost predicate ListsAlone(events: seq<Event>, states: seq<State>, t: nat, n: nat, who: nat -> nat, l: nat, h: nat) {
    && t < n <= |events| && n < |states|
    && forall i :: t < i < n ==> OnlyBy(states[i], events[i], who, l, h)
  }

  /** The event is the first request of a listing: the lock has not begun, and nobody lists the root. */
  ghost predicate Begins(s: State, e: Event, who: nat -> nat, l: nat, h: nat) {
    && e == TakePacket(ExamineNext(h)) && who(s.taken) == l
    && ListsRoot(s.client, Enumerating(h)) && !s.client.handles[h].enumerating && RootFree(s.client)
  }

  lemma BeginWindow(s: State, w: World, e: Event, s': State, who: nat -> nat, l: nat, h: nat)
    requires Structure(s) && NoWrap(s) && RootStays(s) && Next(s, w, e, s') && Begins(s, e, who, l, h)
    ensures InWindow(s', w, |s.client.log|, who, l, h)
  {
    ExamineShape(s, w, h);
    hide Structure, Enabled, Step, Own, ListsRoot, RootFree;
    ExamineFirst(s.client, s'.client, s.answers, s.server.root, w, s.taken, who, l, h);
    assert s'.client.log[|s.client.log|..] == [];
  }

  /**
   A lock whose listing of the root begins while nobody else lists it, and goes on
   so, is told each entry once and in order before it is told the end, in every
   run: whatever other locks there are, on the same handle or not, and whatever
   has been listed before.
   */
  lemma {:induction false} RootListedOnce(device: string, w: World, events: seq<Event>, states: seq<State>,
                                          t: nat, n: nat, who: nat -> nat, l: nat, h: nat)
    requires IsRun(device, w, events, states) && ListsAlone(events, states, t, n, who, l, h)
    requires NoWrap(states[n]) && RootIsDir(w) && Begins(states[t], events[t], who, l, h)
    ensures |states[t].client.log| <= |states[n].client.log|
    ensures ToldInOrder(w, states[n].client.log[|states[t].client.log|..], who, l, h)
    ensures InWindow(states[n], w, |states[t].client.log|, who, l, h)
  {
    hide Next, Structure, RepliesConserved, OnlyBy, InWindow, Begins;
    var s, e := states[n - 1], events[n - 1];
    assert Next(s, w, e, states[n]);
    SentGrows(s, w, e, states[n]);
    RunMatching(device, w, events, states, n - 1);
    if n == t + 1 {
      RunRootStays(device, w, events, states, t);
      BeginWindow(s, w, e, states[n], who, l, h);
    } else {
      RootListedOnce(device, w, events, states, t, n - 1, who, l, h);
      assert OnlyBy(s, e, who, l, h);
      StepWindow(s, w, e, states[n], |states[t].client.log|, who, l, h);
    }
    WindowTells(states[n], w, |states[t].client.log|, who, l, h);
  }

  lemma WindowTells(s: State, w: World, from: nat, who: nat -> nat, l: nat, h: nat)
    requires InWindow(s, w, from, who, l, h)
    ensures from <= |s.client.log| && ToldInOrder(w, s.client.log[from..], who, l, h)
  {
  }

  // ---------- locks that share handle 0 ----------

  /** Nothing is under way. */
  predicate Quiet(s: State) {
    && s.client.pending == [] && s.client.out == [] && s.answers == []
    && 0 in s.client.handles && s.client.handles[0].id == ROOT_ID && s.client.next > 0
  }

  ghost predicate Chain(w: World, events: seq<Event>, states: seq<State>) {
    |states| == |events| + 1 && forall i :: 0 <= i < |events| ==> Next(states[i], w, events[i], states[i + 1])
  }

  function RootRequest(c: Client): Msg
    requires 0 in c.handles
  {
    FindNextRequest(c.seqno, ROOT_ID, !c.handles[0].enumerating)
  }

  /** A lock on handle 0 asks for an entry. */
  lemma AskRoot(s: State, w: World) returns (s': State)
    requires Quiet(s)
    ensures Next(s, w, TakePacket(ExamineNext(0)), s') && s'.answers == [] && s'.server == s.server
    ensures s'.client.out == [RootRequest(s.client)]
    ensures s'.client.pending == [Op(s.client.seqno, s.taken, Enumerating(0))]
    ensures s'.client.handles == s.client.handles[0 := s.client.handles[0].(enumerating := true)]
    ensures s'.client.log == s.client.log && s'.client.next == s.client.next
    ensures s'.taken == s.taken + 1 && s'.sent == s.sent + 1 && s'.client.seqno == (s.client.seqno + 1) % UINT32
  {
    s' := Step(s, w, TakePacket(ExamineNext(0)));
  }

  /** One request for an entry of the root by a lock on handle 0, and what it is told. */
  lemma Turn(s: State, w: World) returns (events: seq<Event>, states: seq<State>)
    requires Quiet(s)
    ensures |events| == 3 && |states| == 4 && states[0] == s && Chain(w, events, states)
    ensures events[0] == TakePacket(ExamineNext(0))
    ensures var (root, a) := FindNextIn(s.server.root, w, RootRequest(s.client));
      && Quiet(states[3]) && states[3].server.root == root && states[3].taken == s.taken + 1
      && states[3].sent == s.sent + 1 && states[3].client.seqno == (s.client.seqno + 1) % UINT32
      && 0 in states[3].client.handles && states[3].client.handles[0].kind == s.client.handles[0].kind
      && states[3].client.log == s.client.log + [ListReply(0, a).(packet := s.taken)]
      && states[3].client.handles[0].enumerating == !(a.FindNextAnswer? && a.end)
  {
    hide FindNextIn, Truncate, TranslateError, ProcessPacket;
    var os, m := OsResult(1, false, NETERR_IO_ERROR, 0), RootRequest(s.client);
    var s1 := AskRoot(s, w);
    var (root, a) := FindNextIn(s.server.root, w, m);
    var s2 := Step(s1, w, ServeNext(os));
    assert s2.answers == [a] && s2.client == s1.client.(out := []) && s2.server.root == root;
    hide Serve;
    AnswersAsked(s.server.root, w, m);
    var s3 := Step(s2, w, TakeAnswer);
    assert s3.client.pending == [];
    events, states := [TakePacket(ExamineNext(0)), ServeNext(os), TakeAnswer], [s, s1, s2, s3];
  }

  lemma AnswersAsked(root: Slot, w: World, m: Msg)
    requires m.FindNextRequest?
    ensures var a := FindNextIn(root, w, m).1; a.seqno == m.seqno && (a.FindNextAnswer? || a.ErrorAnswer?)
  {
  }

  lemma Joined(w: World, es: seq<Event>, ss: seq<State>, es': seq<Event>, ss': seq<State>)
    requires Chain(w, es, ss) && Chain(w, es', ss') && ss'[0] == ss[|es|]
    ensures Chain(w, es + es', ss + ss'[1..])
  {
    hide Next;
    var events, states := es + es', ss + ss'[1..];
    forall i | 0 <= i < |events|
      ensures Next(states[i], w, events[i], states[i + 1])
    {
      if i < |es| {
        assert Next(ss[i], w, es[i], ss[i + 1]);
      } else {
        assert Next(ss'[i - |es|], w, es'[i - |es|], ss'[i - |es| + 1]);
      }
    }
  }

  /**
   Two locks share handle 0. The first is told the only entry of the root; then
   the second, which asks for its first entry, is told that there are no more.
   */
  lemma SecondLockToldNothing(device: string, w: World) returns (events: seq<Event>, states: seq<State>)
    requires RootIsDir(w) && |RootEntries(w)| == 1
    ensures IsRun(device, w, events, states) && NoWrap(states[|events|])
    ensures var log := states[|events|].client.log;
      && |log| == 2 && log[0].packet == 0 && TellsEntry(log[0].what, RootEntries(w)[0])
      && log[1] == Reply(1, DOSFALSE, ERROR_NO_MORE_ENTRIES, ListEnd(0))
      && LockListing(log[..1], packet => packet, 1, 0) == []
  {
    hide Next, Quiet, Truncate, Chain;
    var start := StartState(device);
    StartQuiet(device);
    var es, ss := Turn(start, w);
    var es', ss' := Turn(ss[3], w);
    Joined(w, es, ss, es', ss');
    events, states := es + es', ss + ss'[1..];
    ChainIsRun(device, w, events, states);
    assert states[6] == ss'[3];
    NothingTold(states[6].client.log[..1], packet => packet, 1, 0);
  }

  lemma StartQuiet(device: string)
    ensures Quiet(StartState(device)) && StartState(device).sent == StartState(device).taken == 0
    ensures StartState(device).client.handles[0].kind == DeviceKind
  {
  }

  /** A packet that is answered at once. */
  lemma AtOnce(s: State, w: World, p: Packet) returns (events: seq<Event>, states: seq<State>)
    requires Quiet(s) && (p == Free(0) || p == Locate(0, "")) && s.client.handles[0].kind == DeviceKind
    ensures events == [TakePacket(p)] && |states| == 2 && states[0] == s && Chain(w, events, states)
    ensures states[1].client == ReplyTo(s.client, s.taken, DOSTRUE, 0, if p.Free? then Freed(0) else RootGiven)
    ensures Quiet(states[1])
    ensures states[1].taken == s.taken + 1 && states[1].sent == s.sent && states[1].server == s.server
  {
    assert Normalize(s.client.handles[0], "") == "";
    events, states := [TakePacket(p)], [s, Step(s, w, TakePacket(p))];
  }

  /**
   A listing is begun, its lock is freed, and a new lock on the root is made: the
   first entry that this lock is told is the second of the root.
   */
  lemma NewLockMissesEntries(device: string, w: World) returns (events: seq<Event>, states: seq<State>)
    requires RootIsDir(w) && |RootEntries(w)| == 2
    ensures IsRun(device, w, events, states) && NoWrap(states[|events|])
    ensures |events| == 8 && events[3..5] == [TakePacket(Free(0)), TakePacket(Locate(0, ""))]
    ensures var log := states[|events|].client.log;
      && |log| == 4 && log[0].packet == 0 && TellsEntry(log[0].what, RootEntries(w)[0])
      && log[3].packet == 3 && TellsEntry(log[3].what, RootEntries(w)[1])
      && LockListing(log[..3], packet => packet, 3, 0) == []
  {
    hide Next, Quiet, Truncate, Chain;
    var start := StartState(device);
    StartQuiet(device);
    var es, ss := Turn(start, w);
    var es1, ss1 := AtOnce(ss[3], w, Free(0));
    var es2, ss2 := AtOnce(ss1[1], w, Locate(0, ""));
    var es3, ss3 := Turn(ss2[1], w);
    Joined(w, es, ss, es1, ss1);
    Joined(w, es + es1, ss + ss1[1..], es2, ss2);
    Joined(w, es + es1 + es2, ss + ss1[1..] + ss2[1..], es3, ss3);
    events, states := es + es1 + es2 + es3, ss + ss1[1..] + ss2[1..] + ss3[1..];
    ChainIsRun(device, w, events, states);
    var log := states[|events|].client.log;
    assert states[|events|] == ss3[3];
    NothingTold(log[..3], packet => packet, 3, 0);
  }

  lemma {:induction false} NothingTold(log: seq<Reply>, who: nat -> nat, l: nat, h: nat)
    requires forall k :: 0 <= k < |log| ==> !TellsLock(log[k], who, l, h)
    ensures LockListing(log, who, l, h) == []
  {
    if log == [] {
    } else {
      NothingTold(log[..|log| - 1], who, l, h);
    }
  }

  lemma ChainIsRun(device: string, w: World, events: seq<Event>, states: seq<State>)
    requires Chain(w, events, states) && states[0] == StartState(device)
    ensures IsRun(device, w, events, states)
  {
    hide Next;
  }

  /** Two locks on handle 0 ask at the same time. */
  lemma TwoAsk(s: State, w: World) returns (events: seq<Event>, states: seq<State>)
    requires Quiet(s) && s.client.handles[0].enumerating && s.client.seqno + 1 < UINT32
    ensures |events| == 2 && |states| == 3 && states[0] == s && Chain(w, events, states)
    ensures var c, n := s.client, s.client.seqno;
      && states[2].client.out == [FindNextRequest(n, ROOT_ID, false), FindNextRequest(n + 1, ROOT_ID, false)]
      && states[2].client.pending == [Op(n + 1, s.taken + 1, Enumerating(0)), Op(n, s.taken, Enumerating(0))]
      && states[2].client.log == c.log && 0 in states[2].client.handles && AllLive(states[2].client)
      && states[2].sent == s.sent + 2
      && states[2].server == s.server && states[2].answers == []
  {
    var listing := TakePacket(ExamineNext(0));
    var s1 := Step(s, w, listing);
    assert s1.client.out == [FindNextRequest(s.client.seqno, ROOT_ID, false)];
    assert s1.client.pending == [Op(s.client.seqno, s.taken, Enumerating(0))];
    events, states := [listing, listing], [s, s1, Step(s1, w, listing)];
  }

  /** The server is at the end of the root, and says so twice. */
  lemma TwoServed(s: State, w: World, n: nat) returns (events: seq<Event>, states: seq<State>)
    requires RootIsDir(w) && s.server.root.isDir && s.server.root.dir == Some(Cursor("", |RootEntries(w)|))
    requires s.client.out == [FindNextRequest(n, ROOT_ID, false), FindNextRequest(n + 1, ROOT_ID, false)]
    requires s.answers == [] && AllLive(s.client)
    ensures |events| == 2 && |states| == 3 && states[0] == s && Chain(w, events, states)
    ensures states[2].answers == [FindNextAnswer(n, true, true, "", 0), FindNextAnswer(n + 1, true, true, "", 0)]
    ensures states[2].client == s.client.(out := []) && states[2].sent == s.sent
  {
    var os := OsResult(1, false, NETERR_IO_ERROR, 0);
    var s1 := Step(s, w, ServeNext(os));
    assert s1.answers == [FindNextAnswer(n, true, true, "", 0)] && s1.server == s.server;
    events, states := [ServeNext(os), ServeNext(os)], [s, s1, Step(s1, w, ServeNext(os))];
  }

  /** Both are told the end. */
  lemma TwoTold(s: State, w: World, n: nat, packet: nat) returns (events: seq<Event>, states: seq<State>)
    requires s.client.out == [] && 0 in s.client.handles
    requires s.client.pending == [Op(n + 1, packet + 1, Enumerating(0)), Op(n, packet, Enumerating(0))]
    requires s.answers == [FindNextAnswer(n, true, true, "", 0), FindNextAnswer(n + 1, true, true, "", 0)]
    ensures |events| == 2 && |states| == 3 && states[0] == s && Chain(w, events, states)
    ensures states[2].client.log == s.client.log + [TheEnd(packet), TheEnd(packet + 1)] && states[2].sent == s.sent
  {
    hide Serve, ProcessPacket, FindNextIn;
    assert FindPending(s.client.pending[1..], n) == Some(0);
    var s1 := Step(s, w, TakeAnswer);
    assert s1.client.pending == [Op(n + 1, packet + 1, Enumerating(0))] && 0 in s1.client.handles;
    var s2 := Step(s1, w, TakeAnswer);
    assert s1.client.log == s.client.log + [TheEnd(packet)];
    events, states := [TakeAnswer, TakeAnswer], [s, s1, s2];
  }

  function TheEnd(packet: nat): Reply {
    Reply(packet, DOSFALSE, ERROR_NO_MORE_ENTRIES, ListEnd(0))
  }

  lemma TwoEnds(w: World, first: Reply)
    requires RootEntries(w) != []
    ensures RootReplay(w, [first, TheEnd(1), TheEnd(2)]) == None
  {
    RootReplayMore(w, [first], TheEnd(1));
    RootReplayMore(w, [first, TheEnd(1)], TheEnd(2));
    assert [first] + [TheEnd(1)] == [first, TheEnd(1)];
    assert [first, TheEnd(1)] + [TheEnd(2)] == [first, TheEnd(1), TheEnd(2)];
    hide RootReplay, RootEntries;
  }

  /**
   Where the callers do not take turns, the reference for the root is not what
   they see: two that ask at the same time after the last entry are both told the
   end, although the second of these replies should begin anew.
   */
  lemma TurnsAreNeeded(device: string, w: World) returns (events: seq<Event>, states: seq<State>)
    requires RootIsDir(w) && |RootEntries(w)| == 1
    ensures IsRun(device, w, events, states) && NoWrap(states[|events|])
    ensures RootReplay(w, states[|events|].client.log) == None
  {
    hide Next, Truncate, Chain, RootReplay, Quiet;
    var start := StartState(device);
    StartQuiet(device);
    var es, ss := Turn(start, w);
    var es1, ss1 := TwoAsk(ss[3], w);
    var es2, ss2 := TwoServed(ss1[2], w, 1);
    var es3, ss3 := TwoTold(ss2[2], w, 1, 1);
    Joined(w, es, ss, es1, ss1);
    Joined(w, es + es1, ss + ss1[1..], es2, ss2);
    Joined(w, es + es1 + es2, ss + ss1[1..] + ss2[1..], es3, ss3);
    events, states := es + es1 + es2 + es3, ss + ss1[1..] + ss2[1..] + ss3[1..];
    ChainIsRun(device, w, events, states);
    assert states[|events|] == ss3[2];
    TwoEnds(w, ss[3].client.log[0]);
    assert states[|events|].client.log == [ss[3].client.log[0], TheEnd(1), TheEnd(2)];
  }
}
