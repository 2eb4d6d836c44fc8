/**
 Listings of the root in the system: the place of the server's root directory
 is the one that the callers will have been told of when all answers under way
 have arrived, as long as those that share handle 0 list it one at a time.
 */
module FsRoot {
  import opened Base
  import opened RemoteFs
  import opened FsSystem
  import opened FsMatching
  import opened FsOwnership
  import opened Reference
  import opened FsContent
  import opened FsRefinement

  // ---------- the operation that a message belongs to ----------

  function WorkFor(pending: seq<Op>, seqno: nat): Option<Detail> {
    match FindPending(pending, seqno)
    case None => None
    case Some(i) => Some(pending[i].detail)
  }

  /** The handle that a message lists. */
  function Lister(pending: seq<Op>, m: Msg): Option<nat> {
    match WorkFor(pending, m.seqno)
    case Some(Enumerating(h)) => Some(h)
    case _ => None
  }

  lemma {:induction false} WorkForWithout(pending: seq<Op>, i: nat, seqno: nat)
    requires i < |pending| && pending[i].seqno != seqno
    ensures WorkFor(pending[..i] + pending[i + 1..], seqno) == WorkFor(pending, seqno)
  {
    if i == 0 {
      assert pending[..0] + pending[1..] == pending[1..];
    } else {
      WorkForWithout(pending[1..], i - 1, seqno);
      assert (pending[..i] + pending[i + 1..])[1..] == pending[1..][..i - 1] + pending[1..][i..];
    }
  }

  lemma {:induction false} WorkForReplaced(pending: seq<Op>, i: nat, op: Op, seqno: nat)
    requires i < |pending| && pending[i].seqno != seqno && op.seqno != seqno
    ensures WorkFor(pending[i := op], seqno) == WorkFor(pending, seqno)
  {
    if i == 0 {
      assert pending[0 := op][1..] == pending[1..];
    } else {
      WorkForReplaced(pending[1..], i - 1, op, seqno);
      assert pending[i := op][1..] == pending[1..][i - 1 := op];
    }
  }

  // ---------- answers under way ----------

  /** The reply that an answer to a listing of handle h will be. */
  function ListReply(h: nat, m: Msg): Reply {
    match m
    case FindNextAnswer(_, end, isDir, name, size) =>
      if end then Reply(0, DOSFALSE, ERROR_NO_MORE_ENTRIES, ListEnd(h))
      else Reply(0, DOSTRUE, 0, Listed(h, Truncate(name, PATH_MAX - 2), isDir, size))
    case ErrorAnswer(_, code) => Reply(0, DOSFALSE, TranslateError(code), ListFailed(h))
    case _ => Reply(0, DOSTRUE, 0, Other)
  }

  /** The root after one answer has arrived. */
  function Coming(w: World, v: RootView, pending: seq<Op>, m: Msg): Option<RootView> {
    match Lister(pending, m)
    case None => Some(v)
    case Some(h) =>
      if ToldRoot(w, v, ListReply(h, m)) then Some(AfterRoot(v, ListReply(h, m).what)) else None
  }

  /** The root after all answers under way have arrived. */
  function Ahead(w: World, v: RootView, pending: seq<Op>, answers: seq<Msg>): Option<RootView>
    decreases |answers|
  {
    if answers == [] then Some(v)
    else
      match Ahead(w, v, pending, answers[..|answers| - 1])
      case None => None
      case Some(u) => Coming(w, u, pending, answers[|answers| - 1])
  }

  lemma {:induction false} AheadSame(w: World, v: RootView, pending: seq<Op>, pending': seq<Op>, answers: seq<Msg>)
    requires forall k :: 0 <= k < |answers| ==> Lister(pending', answers[k]) == Lister(pending, answers[k])
    ensures Ahead(w, v, pending', answers) == Ahead(w, v, pending, answers)
    decreases |answers|
  {
    if answers == [] {
    } else {
      AheadSame(w, v, pending, pending', answers[..|answers| - 1]);
      hide Lister, ToldRoot, AfterRoot, ListReply;
    }
  }

  /** The first answer arrives before the others. */
  lemma {:induction false} AheadFirst(w: World, v: RootView, pending: seq<Op>, answers: seq<Msg>)
    requires answers != []
    ensures Ahead(w, v, pending, answers) ==
      match Coming(w, v, pending, answers[0])
      case None => None
      case Some(u) => Ahead(w, u, pending, answers[1..])
    decreases |answers|
  {
    hide Coming;
    var front, last := answers[..|answers| - 1], answers[|answers| - 1];
    if |answers| == 1 {
      assert front == [];
    } else {
      AheadFirst(w, v, pending, front);
      assert front[1..] == answers[1..][..|answers| - 2] && front[0] == answers[0];
    }
  }

  /** A new lock on the root changes nothing for the others. */
  lemma {:induction false} AheadLock(w: World, v: RootView, pending: seq<Op>, answers: seq<Msg>, h: nat)
    requires h !in v.begun && Ahead(w, v, pending, answers).Some?
    requires forall k :: 0 <= k < |answers| ==> Lister(pending, answers[k]) != Some(h)
    ensures var u := Ahead(w, v, pending, answers).value;
      && u.begun.Keys == v.begun.Keys
      && Ahead(w, v.(begun := v.begun[h := false]), pending, answers) == Some(u.(begun := u.begun[h := false]))
    decreases |answers|
  {
    if answers == [] {
    } else {
      var front, last := answers[..|answers| - 1], answers[|answers| - 1];
      AheadLock(w, v, pending, front, h);
      ComingLock(w, Ahead(w, v, pending, front).value, pending, last, h);
      hide Lister, Coming;
    }
  }

  lemma ComingLock(w: World, u: RootView, pending: seq<Op>, m: Msg, h: nat)
    requires h !in u.begun && Lister(pending, m) != Some(h) && Coming(w, u, pending, m).Some?
    ensures var u' := Coming(w, u, pending, m).value;
      && u'.begun.Keys == u.begun.Keys
      && Coming(w, u.(begun := u.begun[h := false]), pending, m) == Some(u'.(begun := u'.begun[h := false]))
  {
    hide Lister, RootEntries, TellsEntry, Truncate, TranslateError;
    if Lister(pending, m).Some? {
      var g, u' := Lister(pending, m).value, Coming(w, u, pending, m).value;
      if g in u.begun {
        assert u.begun[h := false][g := true] == u.begun[g := true][h := false];
        assert u.begun[h := false][g := false] == u.begun[g := false][h := false];
      }
    }
  }

  lemma {:induction false} AheadKeys(w: World, v: RootView, pending: seq<Op>, answers: seq<Msg>)
    requires Ahead(w, v, pending, answers).Some?
    ensures Ahead(w, v, pending, answers).value.begun.Keys == v.begun.Keys
    decreases |answers|
  {
    if answers == [] {
    } else {
      AheadKeys(w, v, pending, answers[..|answers| - 1]);
      hide Lister, ToldRoot, Truncate, TranslateError;
    }
  }

  // ---------- the invariant ----------

  /** The server's root directory stands at the place, or is not open yet. */
  predicate ServerRoot(root: Slot, w: World, u: RootView) {
    && root.isDir && root.path == ""
    && u.next <= |RootEntries(w)|
    && (root.dir.Some? ==> root.dir == Some(Cursor("", u.next)))
    && (root.dir.None? ==> forall h <- u.begun :: !u.begun[h])
  }

  /** The locks that list the root are those with its id. */
  ghost predicate Locks(c: Client, u: RootView) {
    && (forall h <- u.begun :: h < c.next)
    && (forall h <- c.handles :: h in u.begun <==> c.handles[h].id == ROOT_ID)
  }

  /** Between operations, the client knows whether a lock has begun. */
  predicate LockGood(c: Client, u: RootView, h: nat) {
    h in c.handles && h in u.begun ==>
      if WorkOn(c.pending, h) == Some(Enumerating(h)) then c.handles[h].enumerating
      else c.handles[h].enumerating == u.begun[h]
  }

  predicate AnswerGood(pending: seq<Op>, u: RootView, m: Msg) {
    match Lister(pending, m)
    case None => true
    case Some(h) => h in u.begun ==> u.begun[h] == !(m.FindNextAnswer? && m.end)
  }

  predicate RequestGood(pending: seq<Op>, u: RootView, m: Msg) {
    match Lister(pending, m)
    case None => true
    case Some(h) => h in u.begun && m.FindNextRequest? ==> m.reset == !u.begun[h]
  }

  ghost predicate RootGood(c: Client, answers: seq<Msg>, root: Slot, w: World, u: RootView) {
    && ServerRoot(root, w, u) && Locks(c, u)
    && (forall h :: LockGood(c, u, h))
    && (forall k :: 0 <= k < |answers| ==> AnswerGood(c.pending, u, answers[k]))
    && (forall k :: 0 <= k < |c.out| ==> RequestGood(c.pending, u, c.out[k]))
  }

  /** The root after the log, and after all answers under way. */
  ghost function Seen(s: State, w: World): RootView {
    if RootReplay(w, s.client.log).Some? then RootReplay(w, s.client.log).value else StartRoot()
  }

  ghost function Soon(s: State, w: World): RootView {
    match Ahead(w, Seen(s, w), s.client.pending, s.answers)
    case None => StartRoot()
    case Some(u) => u
  }

  /** At most one caller lists handle 0. */
  predicate OneAtRoot(pending: seq<Op>) {
    forall i, j :: 0 <= i < j < |pending| ==> !(pending[i].detail == pending[j].detail == Enumerating(0))
  }

  ghost predicate RootOk(s: State, w: World) {
    && OneAtRoot(s.client.pending)
    && RootReplay(w, s.client.log).Some?
    && Ahead(w, Seen(s, w), s.client.pending, s.answers).Some?
    && RootGood(s.client, s.answers, s.server.root, w, Soon(s, w))
  }

  // ---------- packets ----------

  /** Handles keep id and flag, but for the flag of handle h; a new one has not begun. */
  predicate SameLocks(c: Client, d: Client, h: Option<nat>) {
    forall g <- d.handles ::
      if g in c.handles then
        && d.handles[g].id == c.handles[g].id
        && (Some(g) != h ==> d.handles[g].enumerating == c.handles[g].enumerating)
      else g == c.next && d.next == c.next + 1 && !d.handles[g].enumerating
  }

  /** At most one operation is new, and it is no listing. */
  predicate Pushed(c: Client, d: Client) {
    || d.pending == c.pending
    || (&& d.pending != [] && d.pending == [d.pending[0]] + c.pending
        && d.pending[0].seqno == c.seqno && !d.pending[0].detail.Enumerating?)
  }

  /** At most one request is new, and it is none for a listing. */
  predicate Posted(c: Client, d: Client) {
    || d.out == c.out
    || (&& |d.out| == |c.out| + 1 && d.out == c.out + [d.out[|c.out|]]
        && !d.out[|c.out|].FindNextRequest?)
  }

  /** What a packet other than ExamineNext does. */
  lemma PacketShape(c: Client, packet: nat, p: Packet)
    requires Acceptable(c, p) && !p.ExamineNext? && c.next !in c.handles
    ensures var d := ProcessPacket(c, packet, p);
      && SameLocks(c, d, None) && c.next <= d.next
      && Pushed(c, d) && Posted(c, d)
      && (d.log == c.log || d.log == c.log + [d.log[|c.log|]])
  {
    hide BufferOverlap, SeekOffset, Normalize, AfterColon, LastSlash, Truncate;
  }

  predicate IsRootLock(c: Client, d: Client) {
    c.next in d.handles && d.handles[c.next].id == ROOT_ID
  }

  /** The log tells at most one thing more, about the root only that there is a new lock on it. */
  predicate TellsNewLock(c: Client, d: Client) {
    if |d.log| == |c.log| then d.log == c.log && !IsRootLock(c, d)
    else
      && |d.log| == |c.log| + 1 && d.log == c.log + [d.log[|c.log|]]
      && var r := d.log[|c.log|];
      if IsRootLock(c, d) then r.what == RootLock(c.next) && r.res1 == DOSTRUE && r.res2 == 0
      else r.what.GotData? || r.what.Sought? || (AtOnce(r, c.next) && !r.what.RootLock?)
  }

  lemma PacketTells(c: Client, packet: nat, p: Packet)
    requires Acceptable(c, p) && !p.ExamineNext? && c.next !in c.handles
    ensures TellsNewLock(c, ProcessPacket(c, packet, p))
  {
    hide BufferOverlap, SeekOffset, Normalize, AfterColon, LastSlash, Truncate;
  }

  lemma TellsReplay(w: World, c: Client, d: Client, v: RootView)
    requires RootReplay(w, c.log) == Some(v) && TellsNewLock(c, d) && c.next !in v.begun
    ensures RootReplay(w, d.log) == Some(WithLock(v, IsRootLock(c, d), c.next))
  {
    hide RootReplay;
    if d.log != c.log {
      RootReplayMore(w, c.log, d.log[|c.log|]);
    }
  }

  /** A new operation is on a handle that was free. */
  lemma PacketUses(c: Client, packet: nat, p: Packet)
    requires Acceptable(c, p) && !p.ExamineNext?
    ensures var d := ProcessPacket(c, packet, p);
      Pushed(c, d) && d.pending != c.pending ==>
        HandleOf(d.pending[0].detail) == None || HandleOf(d.pending[0].detail) == Uses(p)
  {
    hide BufferOverlap, SeekOffset, Normalize, AfterColon, LastSlash, Truncate;
  }

  /** An operation under a number that no message in question has. */
  lemma ListerPushed(op: Op, pending: seq<Op>, m: Msg)
    requires m.seqno != op.seqno
    ensures Lister([op] + pending, m) == Lister(pending, m)
  {
    assert ([op] + pending)[1..] == pending;
  }

  /** The messages in flight have numbers below the next one, and the handles of operations exist. */
  lemma FlightBelow(s: State)
    requires Structure(s)
    ensures s.client.seqno == s.sent
    ensures forall k :: 0 <= k < |s.answers| ==> s.answers[k].seqno < s.sent
    ensures forall k :: 0 <= k < |s.client.out| ==> s.client.out[k].seqno < s.sent
    ensures KnownHandles(s.client)
  {
    var flight := Flight(s);
    forall k | 0 <= k < |s.answers|
      ensures s.answers[k].seqno < s.sent
    {
      assert flight[k] == s.answers[k];
    }
    forall k | 0 <= k < |s.client.out|
      ensures s.client.out[k].seqno < s.sent
    {
      assert flight[|s.answers| + k] == s.client.out[k];
    }
  }

  lemma ListerLives(c: Client, m: Msg)
    requires AllLive(c)
    ensures Lister(c.pending, m).Some? ==> Lister(c.pending, m).value in c.handles
  {
    match FindPending(c.pending, m.seqno)
    case None =>
    case Some(i) => assert Live(c, c.pending[i].detail);
  }

  function WithLock(u: RootView, isLock: bool, h: nat): RootView {
    if isLock then u.(begun := u.begun[h := false]) else u
  }

  /** The client's side of the invariant after such a packet. */
  lemma ShapeGood(c: Client, d: Client, answers: seq<Msg>, root: Slot, w: World, u: RootView)
    requires RootGood(c, answers, root, w, u) && SameLocks(c, d, None) && c.next <= d.next && AllLive(c)
    requires c.next !in c.handles && (forall g <- c.handles :: g < c.next)
    requires Pushed(c, d) && Posted(c, d)
    requires forall k :: 0 <= k < |answers| ==> Lister(d.pending, answers[k]) == Lister(c.pending, answers[k])
    requires forall k :: 0 <= k < |c.out| ==> Lister(d.pending, c.out[k]) == Lister(c.pending, c.out[k])
    requires forall k :: 0 <= k < |answers| ==> Lister(c.pending, answers[k]) != Some(c.next)
    requires forall k :: 0 <= k < |c.out| ==> Lister(c.pending, c.out[k]) != Some(c.next)
    requires forall h: nat :: h < c.next && d.pending != c.pending && HandleOf(d.pending[0].detail) == Some(h) ==>
      WorkOn(c.pending, h) == None
    requires WorkOn(d.pending, c.next) == None
    ensures RootGood(d, answers, root, w, WithLock(u, IsRootLock(c, d), c.next))
  {
    hide Lister, WorkOn;
    var isLock := IsRootLock(c, d);
    var u' := WithLock(u, isLock, c.next);
    assert d.pending != c.pending ==> d.pending[1..] == c.pending;
    forall h
      ensures LockGood(d, u', h)
    {
      assert LockGood(c, u, h);
      WorkPushed(c.pending, d.pending, h);
    }
    forall k | 0 <= k < |answers|
      ensures AnswerGood(d.pending, u', answers[k])
    {
      assert AnswerGood(c.pending, u, answers[k]);
    }
    forall k | 0 <= k < |d.out|
      ensures RequestGood(d.pending, u', d.out[k])
    {
      if k < |c.out| {
        assert RequestGood(c.pending, u, c.out[k]);
      }
    }
  }

  lemma WorkPushed(pending: seq<Op>, pending': seq<Op>, h: nat)
    requires pending' == pending || (pending' != [] && pending' == [pending'[0]] + pending)
    ensures WorkOn(pending', h) ==
      if pending' != pending && HandleOf(pending'[0].detail) == Some(h) then Some(pending'[0].detail)
      else WorkOn(pending, h)
  {
    if pending' != pending {
      assert pending'[1..] == pending;
    }
  }

  lemma ListersKept(c: Client, d: Client, ms: seq<Msg>)
    requires Pushed(c, d) && forall k :: 0 <= k < |ms| ==> ms[k].seqno < c.seqno
    ensures forall k :: 0 <= k < |ms| ==> Lister(d.pending, ms[k]) == Lister(c.pending, ms[k])
  {
    hide Lister;
    if d.pending != c.pending {
      forall k | 0 <= k < |ms|
        ensures Lister(d.pending, ms[k]) == Lister(c.pending, ms[k])
      {
        ListerPushed(d.pending[0], c.pending, ms[k]);
      }
    }
  }

  /** The place after the answers under way, with the new lock. */
  lemma AheadPacket(w: World, c: Client, d: Client, v: RootView, answers: seq<Msg>)
    requires Ahead(w, v, c.pending, answers).Some? && c.next !in v.begun
    requires forall k :: 0 <= k < |answers| ==> Lister(d.pending, answers[k]) == Lister(c.pending, answers[k])
    requires forall k :: 0 <= k < |answers| ==> Lister(c.pending, answers[k]) != Some(c.next)
    ensures Ahead(w, WithLock(v, IsRootLock(c, d), c.next), d.pending, answers)
         == Some(WithLock(Ahead(w, v, c.pending, answers).value, IsRootLock(c, d), c.next))
  {
    hide Lister, Ahead;
    AheadSame(w, WithLock(v, IsRootLock(c, d), c.next), c.pending, d.pending, answers);
    if IsRootLock(c, d) {
      AheadLock(w, v, c.pending, answers, c.next);
    }
  }

  lemma PacketRoot(s: State, w: World, p: Packet)
    requires Structure(s) && RootOk(s, w) && Enabled(s, TakePacket(p)) && !p.ExamineNext?
    ensures RootOk(Step(s, w, TakePacket(p)), w)
  {
    hide ProcessPacket, Serve, ProcessAnswer, Ahead, RootReplay, Lister, SameLocks, WorkOn, TellsNewLock, WithLock;
    var s', c := Step(s, w, TakePacket(p)), s.client;
    var d := s'.client;
    assert d == ProcessPacket(c, s.taken, p) && s'.answers == s.answers && s'.server == s.server;
    FlightBelow(s);
    assert c.next !in c.handles && AllLive(c);
    PacketShape(c, s.taken, p);
    PacketTells(c, s.taken, p);
    PacketUses(c, s.taken, p);
    FreshNotBusy(c);
    NotBusyNoWork(c, c.next);
    if Uses(p).Some? {
      NotBusyNoWork(c, Uses(p).value);
    }
    hide Step, Structure, Enabled, Acceptable;
    AloneStays(c, d);
    WorkPushed(c.pending, d.pending, c.next);
    ListersKept(c, d, s.answers);
    ListersKept(c, d, c.out);
    forall m
      ensures Lister(c.pending, m) != Some(c.next)
    {
      ListerLives(c, m);
    }
    var v, u := Seen(s, w), Soon(s, w);
    AheadKeys(w, v, c.pending, s.answers);
    TellsReplay(w, c, d, v);
    AheadPacket(w, c, d, v, s.answers);
    hide RootGood;
    ShapeGood(c, d, s.answers, s.server.root, w, u);
  }

  lemma ExamineTaken(s: State, w: World, h: nat)
    requires Structure(s) && Enabled(s, TakePacket(ExamineNext(h)))
    ensures h in s.client.handles && AllLive(s.client) && AllRequests(s.client.out)
    ensures var s', c, hd := Step(s, w, TakePacket(ExamineNext(h))), s.client, s.client.handles[h];
      && s'.client.pending == [Op(c.seqno, s.taken, Enumerating(h))] + c.pending
      && s'.client.out == c.out + [FindNextRequest(c.seqno, hd.id, !hd.enumerating)] && s'.client.log == c.log
      && s'.client.handles == c.handles[h := hd.(enumerating := true)] && s'.client.next == c.next
      && s'.answers == s.answers && s'.server == s.server
  {
    hide Matched, Kinds, Known, OnePerHandle;
  }

  /** The new listing and its request are as the reference has them. */
  lemma ExamineGood(c: Client, d: Client, answers: seq<Msg>, root: Slot, w: World, u: RootView, h: nat, packet: nat)
    requires RootGood(c, answers, root, w, u) && h in c.handles && WorkOn(c.pending, h) == None && d.next == c.next
    requires d.pending == [Op(c.seqno, packet, Enumerating(h))] + c.pending
    requires d.out == c.out + [FindNextRequest(c.seqno, c.handles[h].id, !c.handles[h].enumerating)]
    requires d.handles == c.handles[h := c.handles[h].(enumerating := true)]
    requires forall k :: 0 <= k < |answers| ==> answers[k].seqno < c.seqno
    requires forall k :: 0 <= k < |c.out| ==> c.out[k].seqno < c.seqno
    ensures RootGood(d, answers, root, w, u)
  {
    hide ServerRoot;
    var op := d.pending[0];
    assert LockGood(c, u, h);
    assert Lister(d.pending, d.out[|c.out|]) == Some(h);
    forall g
      ensures LockGood(d, u, g)
    {
      assert LockGood(c, u, g);
      WorkPushed(c.pending, d.pending, g);
    }
    forall k | 0 <= k < |answers|
      ensures AnswerGood(d.pending, u, answers[k])
    {
      ListerPushed(op, c.pending, answers[k]);
      assert AnswerGood(c.pending, u, answers[k]);
    }
    forall k | 0 <= k < |d.out|
      ensures RequestGood(d.pending, u, d.out[k])
    {
      if k < |c.out| {
        ListerPushed(op, c.pending, c.out[k]);
        assert RequestGood(c.pending, u, c.out[k]);
      }
    }
  }

  /** The callers that share handle 0 list it one at a time. */
  predicate TakesTurns(s: State, e: Event) {
    e == TakePacket(ExamineNext(0)) ==> !Busy(s.client, 0)
  }

  lemma AloneBegins(c: Client, d: Client, h: nat)
    requires OneAtRoot(c.pending) && !Busy(c, h) && d.pending != [] && d.pending == [d.pending[0]] + c.pending
    requires d.pending[0].detail == Enumerating(h)
    ensures OneAtRoot(d.pending)
  {
    forall i, j | 0 <= i < j < |d.pending|
      ensures !(d.pending[i].detail == d.pending[j].detail == Enumerating(0))
    {
      assert d.pending[j] == c.pending[j - 1];
      if i > 0 {
        assert d.pending[i] == c.pending[i - 1];
      }
    }
  }

  lemma AloneStays(c: Client, d: Client)
    requires OneAtRoot(c.pending) && Pushed(c, d)
    ensures OneAtRoot(d.pending)
  {
    forall i, j | 0 <= i < j < |d.pending|
      ensures !(d.pending[i].detail == d.pending[j].detail == Enumerating(0))
    {
      if d.pending != c.pending {
        assert d.pending[j] == c.pending[j - 1];
        if i > 0 {
          assert d.pending[i] == c.pending[i - 1];
        }
      }
    }
  }

  lemma AloneAfter(c: Client, d: Client, i: nat)
    requires OneAtRoot(c.pending) && Taken(c, d, i)
    ensures OneAtRoot(d.pending)
  {
    forall j, k | 0 <= j < k < |d.pending|
      ensures !(d.pending[j].detail == d.pending[k].detail == Enumerating(0))
    {
      if d.pending == c.pending[..i] + c.pending[i + 1..] {
        assert d.pending[j] == c.pending[if j < i then j else j + 1];
        assert d.pending[k] == c.pending[if k < i then k else k + 1];
      }
    }
  }

  /** A listing begins, or goes on. */
  lemma ExamineRoot(s: State, w: World, h: nat)
    requires Structure(s) && RootOk(s, w) && Enabled(s, TakePacket(ExamineNext(h))) && s.sent + 1 < UINT32
    requires TakesTurns(s, TakePacket(ExamineNext(h)))
    ensures RootOk(Step(s, w, TakePacket(ExamineNext(h))), w)
  {
    hide Step, ProcessPacket, RootGood, Ahead, RootReplay, Lister;
    ExamineTaken(s, w, h);
    var s', c := Step(s, w, TakePacket(ExamineNext(h))), s.client;
    var d, op := s'.client, Op(c.seqno, s.taken, Enumerating(h));
    FlightBelow(s);
    BusyOrJoins(c, ExamineNext(h));
    NotBusyNoWork(c, h);
    AloneBegins(c, d, h);
    hide Structure, Enabled;
    forall k | 0 <= k < |s.answers|
      ensures Lister(d.pending, s.answers[k]) == Lister(c.pending, s.answers[k])
    {
      ListerPushed(op, c.pending, s.answers[k]);
    }
    AheadSame(w, Seen(s, w), c.pending, d.pending, s.answers);
    ExamineGood(c, d, s.answers, s.server.root, w, Soon(s, w), h, s.taken);
  }

  // ---------- the server ----------

  /** The server goes on by an entry, or begins anew, as the reference does. */
  lemma ListRoot(root: Slot, w: World, u: RootView, h: nat, m: Msg)
    requires ServerRoot(root, w, u) && RootIsDir(w) && h in u.begun
    requires m.FindNextRequest? && m.reset == !u.begun[h]
    ensures var (root', a) := FindNextIn(root, w, m);
      && ToldRoot(w, u, ListReply(h, a))
      && ServerRoot(root', w, AfterRoot(u, ListReply(h, a).what))
      && AfterRoot(u, ListReply(h, a).what).begun == u.begun[h := !(a.FindNextAnswer? && a.end)]
      && a.seqno == m.seqno
  {
    hide Truncate;
  }

  /** Different messages in flight list different handles. */
  lemma OtherLister(s: State, j: nat, k: nat, h: nat)
    requires Structure(s) && OneAtRoot(s.client.pending) && j < |Flight(s)| && k < |Flight(s)| && j != k
    requires Lister(s.client.pending, Flight(s)[j]) == Some(h)
    ensures Lister(s.client.pending, Flight(s)[k]) != Some(h)
  {
    var pending, flight := s.client.pending, Flight(s);
    var i := FindPending(pending, flight[j].seqno).value;
    if FindPending(pending, flight[k].seqno).Some? {
      var i' := FindPending(pending, flight[k].seqno).value;
      assert Matched(pending, flight, s.sent) && OnePerHandle(pending);
      assert flight[j].seqno != flight[k].seqno;
      assert i != i';
      hide Structure, Matched;
      assert !SameHandle(pending[i'].detail, pending[i].detail) && !SameHandle(pending[i].detail, pending[i'].detail);
    }
  }

  /** The operation of a request to list a directory, and of any other request. */
  lemma RequestLister(s: State)
    requires Structure(s) && s.client.out != []
    ensures var c, m := s.client, s.client.out[0];
      && !IsAnswer(m)
      && (m.FindNextRequest? ==>
            && Lister(c.pending, m).Some? && Lister(c.pending, m).value in c.handles
            && m.handle == c.handles[Lister(c.pending, m).value].id
            && WorkOn(c.pending, Lister(c.pending, m).value) == Some(Enumerating(Lister(c.pending, m).value)))
      && (!m.FindNextRequest? && !m.CloseRequest? ==> Lister(c.pending, m) == None)
  {
    var c, m, n := s.client, s.client.out[0], |s.answers|;
    assert Flight(s)[n] == m && OnePerHandle(c.pending);
    if !m.CloseRequest? {
      HasOp(s, n);
      var i := FindPending(c.pending, m.seqno).value;
      RequestFitsNow(s, i, n);
      hide Structure;
      if m.FindNextRequest? {
        WorkOnIs(c.pending, i, c.pending[i].detail.h);
      }
    }
  }

  /** The invariant when the place moves for handle h, whose answer a joins the others. */
  lemma MovedGood(c: Client, answers: seq<Msg>, root: Slot, root': Slot,
                  w: World, u: RootView, u': RootView, h: nat, a: Msg)
    requires RootGood(c, answers, root, w, u) && c.out != [] && ServerRoot(root', w, u')
    requires h in u.begun && u'.begun == u.begun[h := !(a.FindNextAnswer? && a.end)]
    requires WorkOn(c.pending, h) == Some(Enumerating(h)) && Lister(c.pending, a) == Some(h)
    requires forall k :: 0 <= k < |answers| ==> Lister(c.pending, answers[k]) != Some(h)
    requires forall k :: 1 <= k < |c.out| ==> Lister(c.pending, c.out[k]) != Some(h)
    ensures RootGood(c.(out := c.out[1..]), answers + [a], root', w, u')
  {
    hide Lister, WorkOn, ServerRoot;
    var d := c.(out := c.out[1..]);
    forall g
      ensures LockGood(d, u', g)
    {
      assert LockGood(c, u, g) && LockGood(c, u, h);
    }
    forall k | 0 <= k < |answers + [a]|
      ensures AnswerGood(d.pending, u', (answers + [a])[k])
    {
      if k < |answers| {
        assert AnswerGood(c.pending, u, answers[k]);
      }
    }
    forall k | 0 <= k < |d.out|
      ensures RequestGood(d.pending, u', d.out[k])
    {
      assert RequestGood(c.pending, u, c.out[k + 1]) && d.out[k] == c.out[k + 1];
    }
  }

  /** The invariant when another request is served. */
  lemma StillGood(c: Client, answers: seq<Msg>, answers': seq<Msg>, root: Slot, root': Slot, w: World, u: RootView)
    requires RootGood(c, answers, root, w, u) && c.out != [] && ServerRoot(root', w, u)
    requires answers' == answers || (|answers'| == |answers| + 1 && answers' == answers + [answers'[|answers|]]
      && (Lister(c.pending, answers'[|answers|]).Some? ==> Lister(c.pending, answers'[|answers|]).value !in u.begun))
    ensures RootGood(c.(out := c.out[1..]), answers', root', w, u)
  {
    hide Lister, WorkOn, ServerRoot;
    var d := c.(out := c.out[1..]);
    forall g
      ensures LockGood(d, u, g)
    {
      assert LockGood(c, u, g);
    }
    forall k | 0 <= k < |answers'|
      ensures AnswerGood(d.pending, u, answers'[k])
    {
      if k < |answers| {
        assert AnswerGood(c.pending, u, answers[k]);
      }
    }
    forall k | 0 <= k < |d.out|
      ensures RequestGood(d.pending, u, d.out[k])
    {
      assert RequestGood(c.pending, u, c.out[k + 1]) && d.out[k] == c.out[k + 1];
    }
  }

  lemma ServeRootListing(s: State, w: World, os: OsResult)
    requires Structure(s) && RootOk(s, w) && RootIsDir(w) && Enabled(s, ServeNext(os))
    requires s.client.out[0].FindNextRequest? && s.client.out[0].handle == ROOT_ID
    ensures RootOk(Step(s, w, ServeNext(os)), w)
  {
    hide ProcessPacket, ProcessAnswer, Lister, WorkOn, RootReplay, Ahead;
    var s', c, m, n := Step(s, w, ServeNext(os)), s.client, s.client.out[0], |s.answers|;
    var (root', a) := FindNextIn(s.server.root, w, m);
    assert s'.client == c.(out := c.out[1..]) && s'.answers == s.answers + [a] && s'.server.root == root';
    RequestLister(s);
    var h, u := Lister(c.pending, m).value, Soon(s, w);
    assert RequestGood(c.pending, u, m) && h in u.begun;
    hide Step, FindNextIn;
    ListRoot(s.server.root, w, u, h, m);
    SameLister(c.pending, m, a);
    assert Flight(s)[n] == m;
    forall k | 0 <= k < |s.answers|
      ensures Lister(c.pending, s.answers[k]) != Some(h)
    {
      OtherLister(s, n, k, h);
      assert Flight(s)[k] == s.answers[k];
    }
    forall k | 1 <= k < |c.out|
      ensures Lister(c.pending, c.out[k]) != Some(h)
    {
      OtherLister(s, n, n + k, h);
      assert Flight(s)[n + k] == c.out[k];
    }
    hide Structure;
    AheadLast(w, Seen(s, w), c.pending, s.answers, a);
    MovedGood(c, s.answers, s.server.root, root', w, u, AfterRoot(u, ListReply(h, a).what), h, a);
  }

  lemma SameLister(pending: seq<Op>, m: Msg, a: Msg)
    requires a.seqno == m.seqno
    ensures Lister(pending, a) == Lister(pending, m)
  {
  }

  lemma AheadLast(w: World, v: RootView, pending: seq<Op>, answers: seq<Msg>, a: Msg)
    ensures Ahead(w, v, pending, answers + [a]) ==
      match Ahead(w, v, pending, answers)
      case None => None
      case Some(u) => Coming(w, u, pending, a)
  {
    assert (answers + [a])[..|answers|] == answers;
  }

  /** Other requests leave the root's directory alone. */
  lemma ServeKeepsRoot(s: Server, w: World, m: Msg, os: OsResult)
    requires !(m.FindNextRequest? && m.handle == ROOT_ID)
    ensures Serve(s, w, m, os).0.root == s.root.(fd := Serve(s, w, m, os).0.root.fd)
    ensures Serve(s, w, m, os).1.Some? ==> Serve(s, w, m, os).1.value.seqno == m.seqno
  {
  }

  lemma ServeRootOther(s: State, w: World, os: OsResult)
    requires Structure(s) && RootOk(s, w) && Enabled(s, ServeNext(os))
    requires !(s.client.out[0].FindNextRequest? && s.client.out[0].handle == ROOT_ID)
    ensures RootOk(Step(s, w, ServeNext(os)), w)
  {
    hide ProcessPacket, ProcessAnswer, Serve, Lister, WorkOn, RootReplay, Ahead;
    var s', c, m := Step(s, w, ServeNext(os)), s.client, s.client.out[0];
    var (server, answer) := Serve(s.server, w, m, os);
    ServeKeepsRoot(s.server, w, m, os);
    RequestLister(s);
    CloseQuiet(s, w, os);
    var v, u := Seen(s, w), Soon(s, w);
    assert s'.client == c.(out := c.out[1..]) && s'.server == server;
    assert s'.answers == if answer.Some? then s.answers + [answer.value] else s.answers;
    assert Locks(c, u);
    hide Step, Structure;
    if answer.Some? {
      var a := answer.value;
      SameLister(c.pending, m, a);
      AheadLast(w, v, c.pending, s.answers, a);
      NotRootComing(w, u, c.pending, a);
    }
    StillGood(c, s.answers, s'.answers, s.server.root, server.root, w, u);
  }

  lemma CloseQuiet(s: State, w: World, os: OsResult)
    requires Structure(s) && Enabled(s, ServeNext(os))
    ensures s.client.out[0].CloseRequest? ==> Serve(s.server, w, s.client.out[0], os).1.None?
  {
    var m := s.client.out[0];
    assert Flight(s)[|s.answers|] == m;
    if m.CloseRequest? {
      CloseIsQuiet(s.server, w, m, os);
    }
  }

  /** An answer that belongs to no listing of the root changes nothing. */
  lemma NotRootComing(w: World, u: RootView, pending: seq<Op>, a: Msg)
    requires Lister(pending, a).Some? ==> Lister(pending, a).value !in u.begun
    ensures Coming(w, u, pending, a) == Some(u)
  {
    hide Lister, Truncate, TranslateError;
  }

  lemma ServeRoot(s: State, w: World, os: OsResult)
    requires Structure(s) && RootOk(s, w) && RootIsDir(w) && Enabled(s, ServeNext(os))
    ensures RootOk(Step(s, w, ServeNext(os)), w)
  {
    hide Structure, RootOk, Step;
    if s.client.out[0].FindNextRequest? && s.client.out[0].handle == ROOT_ID {
      ServeRootListing(s, w, os);
    } else {
      ServeRootOther(s, w, os);
    }
  }

  // ---------- the client takes an answer ----------

  /** What an answer does to pending, out and handles, its operation being at place i. */
  predicate Taken(c: Client, d: Client, i: nat) {
    && i < |c.pending|
    && (d.pending == c.pending[..i] + c.pending[i + 1..]
        || (|d.pending| == |c.pending| && d.pending == c.pending[i := d.pending[i]] && d.pending[i].seqno == c.seqno
            && !c.pending[i].detail.Enumerating? && HandleOf(d.pending[i].detail) == HandleOf(c.pending[i].detail)
            && !d.pending[i].detail.Enumerating?))
    && Posted(c, d) && c.next <= d.next
  }

  lemma AnswerShape(c: Client, m: Msg, i: nat)
    requires AllLive(c) && FindPending(c.pending, m.seqno) == Some(i)
    requires m.ErrorAnswer? || Expected(c.pending[i].detail, m)
    ensures var d := ProcessAnswer(c, m).0;
      && Taken(c, d, i)
      && (c.pending[i].detail.Enumerating? ==> d.pending == c.pending[..i] + c.pending[i + 1..])
  {
    assert Live(c, c.pending[i].detail);
    hide TakeData, NextChunk, Truncate, AllLive, TranslateError;
  }

  /** An answer makes no lock on the root, and only a listing moves a flag. */
  lemma AnswerLocks(c: Client, m: Msg, i: nat)
    requires AllLive(c) && FindPending(c.pending, m.seqno) == Some(i) && c.next !in c.handles
    requires m.ErrorAnswer? || Expected(c.pending[i].detail, m)
    requires m.OpenAnswer? ==> m.handle < MAX_FILE_HANDLES
    ensures var d := ProcessAnswer(c, m).0;
      && SameLocks(c, d, if c.pending[i].detail.Enumerating? then HandleOf(c.pending[i].detail) else None)
      && !IsRootLock(c, d)
  {
    assert Live(c, c.pending[i].detail);
    hide TakeData, NextChunk, Truncate, AllLive, TranslateError;
    TakeDataKeepsFlag(c, i, m);
  }

  lemma TakeDataKeepsFlag(c: Client, i: nat, m: Msg)
    requires i < |c.pending|
    ensures c.pending[i].detail.Reading? && m.ReadAnswer? && c.pending[i].detail.h in c.handles ==>
      var d := c.pending[i].detail;
      var hd := TakeData(c.handles[d.h], d.count - Min(|d.got|, d.count), m.data).0;
      hd.id == c.handles[d.h].id && hd.enumerating == c.handles[d.h].enumerating
  {
  }

  /** What an answer tells, and the flag of a listing. */
  lemma AnswerTells(c: Client, m: Msg, i: nat)
    requires AllLive(c) && FindPending(c.pending, m.seqno) == Some(i)
    requires m.ErrorAnswer? || Expected(c.pending[i].detail, m)
    ensures var d := ProcessAnswer(c, m).0;
      match c.pending[i].detail
      case Enumerating(h) =>
        && d.log == c.log + [ListReply(h, m).(packet := c.pending[i].packet)]
        && h in c.handles && h in d.handles
        && d.handles[h].enumerating == (c.handles[h].enumerating && !(m.FindNextAnswer? && m.end))
      case _ =>
        || d.log == c.log
        || (|d.log| == |c.log| + 1 && d.log == c.log + [d.log[|c.log|]]
            && var what := d.log[|c.log|].what;
            what.GotData? || what.Wrote? || what.Refused? || (what.Opened? && what.h == c.next))
  {
    assert Live(c, c.pending[i].detail);
    hide TakeData, NextChunk, Truncate, AllLive, TranslateError;
  }

  /** The other answers and requests are those of the other operations, as before. */
  lemma ListersLeft(s: State, d: Client, i: nat)
    requires Structure(s) && s.answers != [] && FindPending(s.client.pending, s.answers[0].seqno) == Some(i)
    requires Taken(s.client, d, i)
    ensures forall k :: 1 <= k < |s.answers| ==>
      Lister(d.pending, s.answers[k]) == Lister(s.client.pending, s.answers[k])
    ensures forall k :: 0 <= k < |s.client.out| ==>
      Lister(d.pending, s.client.out[k]) == Lister(s.client.pending, s.client.out[k])
  {
    var flight := Flight(s);
    FlightBelow(s);
    assert flight[0] == s.answers[0] && Matched(s.client.pending, flight, s.sent);
    forall m: Msg | m.seqno != s.answers[0].seqno && m.seqno < s.sent
      ensures Lister(d.pending, m) == Lister(s.client.pending, m)
    {
      if d.pending == s.client.pending[..i] + s.client.pending[i + 1..] {
        WorkForWithout(s.client.pending, i, m.seqno);
      } else {
        WorkForReplaced(s.client.pending, i, d.pending[i], m.seqno);
      }
    }
    hide Lister, Structure, Taken;
    forall k | 1 <= k < |s.answers|
      ensures Lister(d.pending, s.answers[k]) == Lister(s.client.pending, s.answers[k])
    {
      assert flight[k] == s.answers[k];
    }
    forall k | 0 <= k < |s.client.out|
      ensures Lister(d.pending, s.client.out[k]) == Lister(s.client.pending, s.client.out[k])
    {
      assert flight[|s.answers| + k] == s.client.out[k];
    }
  }

  /** Once a listing is over, nothing works on its handle. */
  lemma AloneOver(c: Client, d: Client, i: nat, g: nat)
    requires OneAtRoot(c.pending) && i < |c.pending| && d.pending == c.pending[..i] + c.pending[i + 1..]
    requires HandleOf(c.pending[i].detail) == Some(g)
    requires forall j :: 0 <= j < |d.pending| && HandleOf(d.pending[j].detail) == Some(g) ==>
      d.pending[j].detail == c.pending[i].detail == Enumerating(0)
    ensures WorkOn(d.pending, g) == None
  {
    forall j | 0 <= j < |d.pending|
      ensures HandleOf(d.pending[j].detail) != Some(g)
    {
      assert d.pending[j] == c.pending[if j < i then j else j + 1];
    }
    WorkOnNone(d.pending, g);
  }

  /** The operation of another handle, after an answer. */
  lemma WorkAfter(c: Client, d: Client, i: nat, g: nat)
    requires Taken(c, d, i) && OnePerHandle(c.pending) && OneAtRoot(c.pending)
    ensures if HandleOf(c.pending[i].detail) != Some(g) then WorkOn(d.pending, g) == WorkOn(c.pending, g)
      else WorkOn(c.pending, g) == Some(c.pending[i].detail) && WorkOn(d.pending, g) != Some(Enumerating(g))
  {
    hide WorkOn;
    if HandleOf(c.pending[i].detail) != Some(g) {
      if d.pending == c.pending[..i] + c.pending[i + 1..] {
        WorkOnRemoved(c.pending, i, g);
      } else {
        WorkOnReplaced(c.pending, i, d.pending[i], g);
      }
    } else if d.pending == c.pending[..i] + c.pending[i + 1..] {
      OverNotBusy(c, d, i, g);
      AloneOver(c, d, i, g);
    } else {
      ReplacedWork(c.pending, i, d.pending[i], g);
    }
  }

  /** The invariant after an answer has been taken. */
  lemma TakenGood(c: Client, d: Client, answers: seq<Msg>, root: Slot, w: World, u: RootView, i: nat)
    requires OneAtRoot(c.pending)
    requires RootGood(c, answers, root, w, u) && answers != [] && Taken(c, d, i) && OnePerHandle(c.pending)
    requires WorkFor(c.pending, answers[0].seqno) == Some(c.pending[i].detail)
    requires forall k :: 1 <= k < |answers| ==> Lister(d.pending, answers[k]) == Lister(c.pending, answers[k])
    requires forall k :: 0 <= k < |c.out| ==> Lister(d.pending, c.out[k]) == Lister(c.pending, c.out[k])
    requires c.next !in c.handles && !IsRootLock(c, d)
    requires SameLocks(c, d, if c.pending[i].detail.Enumerating? then HandleOf(c.pending[i].detail) else None)
    requires match c.pending[i].detail
      case Enumerating(h) =>
        h in c.handles && h in d.handles
        && d.handles[h].enumerating == (c.handles[h].enumerating && !(answers[0].FindNextAnswer? && answers[0].end))
      case _ => true
    requires |d.out| > |c.out| ==> Lister(d.pending, d.out[|c.out|]) == None || !d.out[|c.out|].FindNextRequest?
    ensures RootGood(d, answers[1..], root, w, u)
  {
    hide WorkOn;
    assert AnswerGood(c.pending, u, answers[0]);
    hide WorkFor;
    forall g
      ensures LockGood(d, u, g)
    {
      assert LockGood(c, u, g);
      WorkAfter(c, d, i, g);
    }
    hide Lister;
    var rest := answers[1..];
    forall k | 0 <= k < |rest|
      ensures AnswerGood(d.pending, u, rest[k])
    {
      assert AnswerGood(c.pending, u, answers[k + 1]) && rest[k] == answers[k + 1];
    }
    forall k | 0 <= k < |d.out|
      ensures RequestGood(d.pending, u, d.out[k])
    {
      if k < |c.out| {
        assert RequestGood(c.pending, u, c.out[k]);
      }
    }
  }

  /** What the log says of the root after an answer is what the answer brought. */
  lemma TakenReplay(w: World, c: Client, d: Client, v: RootView, m: Msg, i: nat)
    requires RootReplay(w, c.log) == Some(v) && c.next !in v.begun && i < |c.pending|
    requires Coming(w, v, c.pending, m).Some? && WorkFor(c.pending, m.seqno) == Some(c.pending[i].detail)
    requires match c.pending[i].detail
      case Enumerating(h) => d.log == c.log + [ListReply(h, m).(packet := c.pending[i].packet)]
      case _ =>
        || d.log == c.log
        || (|d.log| == |c.log| + 1 && d.log == c.log + [d.log[|c.log|]]
            && var what := d.log[|c.log|].what;
            what.GotData? || what.Wrote? || what.Refused? || (what.Opened? && what.h == c.next))
    ensures RootReplay(w, d.log) == Coming(w, v, c.pending, m)
  {
    hide RootReplay, TranslateError, Truncate;
    if d.log != c.log {
      RootReplayMore(w, c.log, d.log[|c.log|]);
    }
  }

  lemma TakeRoot(s: State, w: World)
    requires Structure(s) && RootOk(s, w) && s.answers != [] && s.sent + 1 < UINT32
    ensures RootOk(Step(s, w, TakeAnswer), w)
  {
    hide ProcessPacket, ProcessAnswer, Serve, Lister, WorkOn, RootReplay, Ahead, Coming, Taken, SameLocks, IsRootLock,
      ListReply;
    var s', c, m := Step(s, w, TakeAnswer), s.client, s.answers[0];
    var d, v, u := s'.client, Seen(s, w), Soon(s, w);
    assert d == ProcessAnswer(c, m).0 && s'.answers == s.answers[1..] && s'.server == s.server;
    AnswerFits(s);
    FlightBelow(s);
    var i := FindPending(c.pending, m.seqno).value;
    assert OnePerHandle(c.pending) && AllLive(c) && c.next !in c.handles && Locks(c, u);
    AnswerShape(c, m, i);
    AnswerLocks(c, m, i);
    AnswerTells(c, m, i);
    ListersLeft(s, d, i);
    AloneAfter(c, d, i);
    hide Step, Structure, AllLive, OnePerHandle, Expected, OneAtRoot;
    AheadKeys(w, v, c.pending, s.answers);
    AheadFirst(w, v, c.pending, s.answers);
    TakenReplay(w, c, d, v, m, i);
    AheadSame(w, Coming(w, v, c.pending, m).value, c.pending, d.pending, s.answers[1..]);
    NewRequestPlain(c, d, i);
    hide RootGood;
    TakenGood(c, d, s.answers, s.server.root, w, u, i);
  }

  lemma NewRequestPlain(c: Client, d: Client, i: nat)
    requires Taken(c, d, i)
    ensures |d.out| > |c.out| ==> !d.out[|c.out|].FindNextRequest?
  {
  }

  // ---------- runs ----------

  lemma StartRootOk(device: string, w: World)
    ensures RootOk(StartState(device), w)
  {
    var s := StartState(device);
    assert RootReplay(w, []) == Some(StartRoot());
    assert Ahead(w, StartRoot(), [], []) == Some(StartRoot());
    assert Soon(s, w) == StartRoot();
  }

  ghost predicate InTurn(events: seq<Event>, states: seq<State>, n: nat) {
    n <= |events| && n < |states| && forall i :: 0 <= i < n ==> TakesTurns(states[i], events[i])
  }

  lemma {:induction false} RunRoot(device: string, w: World, events: seq<Event>, states: seq<State>, n: nat)
    requires IsRun(device, w, events, states) && n < |states| && NoWrap(states[n]) && RootIsDir(w)
    requires InTurn(events, states, n)
    ensures RootOk(states[n], w)
  {
    hide RootOk, Next, Structure, RepliesConserved;
    if n == 0 {
      StartRootOk(device, w);
    } else {
      assert Next(states[n - 1], w, events[n - 1], states[n]);
      SentGrows(states[n - 1], w, events[n - 1], states[n]);
      RunMatching(device, w, events, states, n - 1);
      RunRoot(device, w, events, states, n - 1);
      StepRoot(states[n - 1], w, events[n - 1], states[n]);
    }
  }

  lemma StepRoot(s: State, w: World, e: Event, s': State)
    requires Structure(s) && RootOk(s, w) && RootIsDir(w) && NoWrap(s) && Next(s, w, e, s') && TakesTurns(s, e)
    ensures RootOk(s', w)
  {
    hide RootOk, Structure, Step;
    match e
    case ServeNext(os) => ServeRoot(s, w, os);
    case TakeAnswer => TakeRoot(s, w);
    case TakePacket(p) =>
      if p.ExamineNext? {
        ExamineRoot(s, w, p.h);
      } else {
        PacketRoot(s, w, p);
      }
  }

  // ---------- the results ----------

  /**
   Every reply of a run in which the callers that share handle 0 take turns is
   right, for the handles of files and directories and for those on the root.
   */
  lemma WholeRefinement(device: string, w: World, events: seq<Event>, states: seq<State>, n: nat, k: nat)
    requires IsRun(device, w, events, states) && n < |states| && NoWrap(states[n]) && WorldOk(w) && RootIsDir(w)
    requires InTurn(events, states, n)
    requires k < |states[n].client.log|
    ensures var log := states[n].client.log;
      && Replay(w, log[..k]).Some? && Told(w, Replay(w, log[..k]).value, log[k])
      && RootReplay(w, log[..k]).Some? && ToldRoot(w, RootReplay(w, log[..k]).value, log[k])
  {
    Refinement(device, w, events, states, n, k);
    RootRefinement(device, w, events, states, n, k);
  }

  /**
   Such a run refines the reference for the root too: each reply to a listing of
   the root, by whatever lock, is the one that the place of the root calls for.
   */
  lemma RootRefinement(device: string, w: World, events: seq<Event>, states: seq<State>, n: nat, k: nat)
    requires IsRun(device, w, events, states) && n < |states| && NoWrap(states[n]) && RootIsDir(w)
    requires InTurn(events, states, n)
    requires k < |states[n].client.log|
    ensures var log := states[n].client.log;
      RootReplay(w, log[..k]).Some? && ToldRoot(w, RootReplay(w, log[..k]).value, log[k])
  {
    RunRoot(device, w, events, states, n);
    RootReplayPrefix(w, states[n].client.log, k);
  }

  /**
   A lock told that the root has no more entries has been told each of them, once
   and in order, if its listing began at the start of the root and no other lock,
   on the same handle or another, has moved the place meanwhile.
   */
  lemma RootEnumerationComplete(device: string, w: World, events: seq<Event>, states: seq<State>, n: nat, k: nat,
                                who: nat -> nat, l: nat, h: nat)
    requires IsRun(device, w, events, states) && n < |states| && NoWrap(states[n]) && RootIsDir(w)
    requires InTurn(events, states, n)
    requires k < |states[n].client.log| && states[n].client.log[k].what == ListEnd(h)
    requires Undisturbed(w, states[n].client.log[..k], who, l, h)
    ensures var before := states[n].client.log[..k];
      && RootReplay(w, before).Some?
      && var v := RootReplay(w, before).value;
      h in v.begun && BeginsAtStart(v, before, who, l, h) ==>
        TellsEntries(LockListing(before, who, l, h), RootEntries(w))
  {
    var log := states[n].client.log;
    var before := log[..k];
    RootRefinement(device, w, events, states, n, k);
    var v := RootReplay(w, before).value;
    if h in v.begun && BeginsAtStart(v, before, who, l, h) {
      RootReplayMore(w, before, log[k]);
      RootListingEnds(w, before, log[k], who, l, h);
    }
  }
}
