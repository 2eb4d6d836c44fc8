/**
 Which reply belongs to which packet: in every run a reply tells its caller
 about what that caller asked for, and a handle is what its packet made.
 */
module FsReplies {
  import opened Base
  import opened RemoteFs
  import opened FsSystem
  import opened FsMatching
  import opened FsOwnership

  // ---------- the path that a name stands for ----------

  /** The first n characters, or all if there are fewer. */
  predicate CutTo(whole: string, n: nat, part: string) {
    part <= whole && |part| == Min(|whole|, n)
  }

  predicate FirstColon(name: string, k: nat) {
    k < |name| && name[k] == ':' && forall j :: 0 <= j < k ==> name[j] != ':'
  }

  /** A file is asked for by what follows the first colon of the name; without a colon, by the name. */
  ghost predicate AsksFile(name: string, path: string) {
    if ':' in name then exists k: nat :: FirstColon(name, k) && path == name[k + 1..] else path == name
  }

  /**
   An object is asked for by what follows the first colon; without a colon, by
   the name under the device, and else by the directory's path, a slash and the
   name. At most 107 characters are sent.
   */
  ghost predicate AsksObject(dir: Handle, name: string, path: string) {
    if ':' in name then exists k: nat :: FirstColon(name, k) && CutTo(name[k + 1..], 107, path)
    else CutTo(if dir.kind == DeviceKind then name else dir.path + "/" + name, 107, path)
  }

  lemma {:induction false} AfterColonIs(name: string)
    ensures AfterColon(name).1 <==> ':' in name
    ensures AsksFile(name, AfterColon(name).0)
  {
    if name == "" {
    } else if name[0] == ':' {
      assert FirstColon(name, 0);
    } else {
      var rest := name[1..];
      AfterColonIs(rest);
      assert name == [name[0]] + rest;
      if ':' in rest {
        var k: nat :| FirstColon(rest, k) && AfterColon(rest).0 == rest[k + 1..];
        assert forall j :: 0 <= j < k ==> rest[j] == name[j + 1];
        assert FirstColon(name, k + 1) && name[k + 2..] == rest[k + 1..];
      }
    }
  }

  lemma TruncateCuts(s: string, n: nat)
    ensures CutTo(s, n, Truncate(s, n))
  {
  }

  lemma NormalizeIs(dir: Handle, name: string)
    ensures AsksObject(dir, name, Normalize(dir, name))
  {
    AfterColonIs(name);
    hide AfterColon, Truncate, CutTo;
    TruncateCuts(AfterColon(name).0, 107);
    TruncateCuts(dir.path + "/" + name, 107);
    if ':' in name {
      var k: nat :| FirstColon(name, k) && AfterColon(name).0 == name[k + 1..];
      assert CutTo(name[k + 1..], 107, Normalize(dir, name));
    }
  }

  lemma CutOnce(whole: string, n: nat, p: string, q: string)
    requires CutTo(whole, n, p) && CutTo(whole, n, q)
    ensures p == q
  {
  }

  /** There is one such path. */
  lemma OnePath(dir: Handle, name: string, p: string, q: string)
    ensures AsksObject(dir, name, p) && AsksObject(dir, name, q) ==> p == q
    ensures AsksFile(name, p) && AsksFile(name, q) ==> p == q
  {
    hide CutTo;
    forall x: string | CutTo(x, 107, p) && CutTo(x, 107, q)
      ensures p == q
    {
      CutOnce(x, 107, p, q);
    }
    if ':' in name {
      assert forall j: nat, k: nat :: FirstColon(name, j) && FirstColon(name, k) ==> j == k;
    }
  }

  /** A path has a parent that is not the root if there is a slash behind its first character. */
  ghost predicate HasParent(path: string) {
    exists k :: 0 < k < |path| && path[k] == '/'
  }

  /** What stands before the last slash. */
  ghost predicate IsParent(path: string, parent: string) {
    && |parent| < |path| && parent <= path && path[|parent|] == '/'
    && forall j :: |parent| < j < |path| ==> path[j] != '/'
  }

  // ---------- packets, operations and replies ----------

  /** The operation does what the packet asked for. */
  ghost predicate WorksFor(c: Client, p: Packet, d: Detail) {
    match p
    case Read(h, count) => d.Reading? && d.h == h && d.count == count
    case Write(h, data) => d.Writing? && d.h == h && d.data == data
    case ExamineNext(h) => d == Enumerating(h)
    case FindInput(name) =>
      d.OpeningFile? && d.name == name && AsksFile(name, d.target) && d.target != VIRTUAL_INPUT_FILE
    case Locate(dir, name) =>
      d.OpeningLock? && dir in c.handles && AsksObject(c.handles[dir], name, d.target) && d.target != ""
    case _ => false
  }

  /** The reply tells about what the packet, sent in this state of the client, asked for. */
  ghost predicate Answers(c: Client, p: Packet, r: Reply) {
    match p
    case Read(h, count) => r.what.GotData? && r.what.h == h && r.what.count == count
    case Write(h, data) => r.what.Wrote? && r.what.h == h && r.what.data == data
    case Seek(h, amount, mode) => r.what == Sought(h, mode, amount)
    case ExamineNext(h) => (r.what.Listed? || r.what.ListFailed? || r.what.ListEnd?) && r.what.h == h
    case FindInput(name) =>
      (match r.what
       case InputOpened(_) => AsksFile(name, VIRTUAL_INPUT_FILE)
       case Opened(_, kind, path) => kind == FileKind && AsksFile(name, path) && path != VIRTUAL_INPUT_FILE
       case Refused(path) => AsksFile(name, path) && path != VIRTUAL_INPUT_FILE
       case _ => false)
    case FindOutput(name) =>
      (match r.what
       case OutputOpened(_) => AsksFile(name, VIRTUAL_OUTPUT_FILE)
       case NoOutput => !AsksFile(name, VIRTUAL_OUTPUT_FILE)
       case _ => false)
    case Locate(dir, name) =>
      dir in c.handles &&
      (match r.what
       case RootGiven => AsksObject(c.handles[dir], name, "")
       case Opened(_, _, path) => AsksObject(c.handles[dir], name, path) && path != ""
       case Refused(path) => AsksObject(c.handles[dir], name, path) && path != ""
       case _ => false)
    case Free(h) => r.what == Freed(h)
    case CopyDir(h) =>
      h in c.handles &&
      (if c.handles[h].kind == DeviceKind then r.what == RootGiven
       else if c.handles[h].id == ROOT_ID then r.what.RootLock?
       else if c.handles[h].id == VIRTUAL_OUTPUT_ID then r.what.OutputOpened?
       else if c.handles[h].id == VIRTUAL_INPUT_ID then r.what.InputOpened?
       else r.what == Other)
    case Parent(h) =>
      h in c.handles &&
      (if c.handles[h].kind == DeviceKind then r.what == NoParent
       else if HasParent(c.handles[h].path) then r.what.RootLock?
       else r.what == RootGiven)
    case Constant(res1, res2) => r.what == Other && r.res1 == res1 && r.res2 == res2
    case Die => false
  }

  /** What is left over of an operation that goes on. */
  predicate GoesOn(d: Detail, d': Detail) {
    || (d.Reading? && d'.Reading? && d'.h == d.h && d'.count == d.count)
    || (d.Writing? && d'.Writing? && d'.h == d.h && d'.data == d.data)
  }

  /** How an operation may end. */
  predicate Concludes(d: Detail, r: Reply) {
    match d
    case Reading(h, count, _) => r.what.GotData? && r.what.h == h && r.what.count == count
    case Writing(h, data, _, _) => r.what.Wrote? && r.what.h == h && r.what.data == data
    case Enumerating(h) => (r.what.Listed? || r.what.ListFailed? || r.what.ListEnd?) && r.what.h == h
    case OpeningFile(_, target) =>
      r.what == Refused(target) || (r.what.Opened? && r.what.kind == FileKind && r.what.target == target)
    case OpeningLock(target) => r.what == Refused(target) || (r.what.Opened? && r.what.target == target)
  }

  lemma ConclusionAnswers(c: Client, p: Packet, d: Detail, r: Reply)
    requires WorksFor(c, p, d) && Concludes(d, r)
    ensures Answers(c, p, r)
  {
    hide AsksFile, AsksObject;
  }

  lemma GoingOnWorks(c: Client, p: Packet, d: Detail, d': Detail)
    requires WorksFor(c, p, d) && GoesOn(d, d')
    ensures WorksFor(c, p, d')
  {
    hide AsksFile, AsksObject;
  }

  // ---------- what a packet does ----------

  /** The packet is replied to, at once. */
  ghost predicate RepliesNow(c: Client, d: Client, packet: nat, p: Packet) {
    && d.pending == c.pending && |d.log| == |c.log| + 1 && d.log == c.log + [d.log[|c.log|]]
    && d.log[|c.log|].packet == packet && Answers(c, p, d.log[|c.log|])
  }

  /** An operation begins for the packet; one that opens something sends the path that the packet asks for. */
  ghost predicate BeginsWork(c: Client, d: Client, packet: nat, p: Packet) {
    && d.log == c.log && d.pending != [] && d.pending[1..] == c.pending
    && var op := d.pending[0];
    && op.seqno == c.seqno && op.packet == packet && WorksFor(c, p, op.detail)
    && (HandleOf(op.detail) == None ==> d.out == c.out + [OpenRequest(c.seqno, op.detail.target)])
  }

  lemma FindOutcome(c: Client, packet: nat, name: string)
    ensures var d := ActionFindInput(c, packet, name);
      RepliesNow(c, d, packet, FindInput(name)) || BeginsWork(c, d, packet, FindInput(name))
    ensures RepliesNow(c, ActionFindOutput(c, packet, name), packet, FindOutput(name))
  {
    AfterColonIs(name);
    hide AfterColon, NewHandle, AsksFile;
    if AfterColon(name).0 != VIRTUAL_OUTPUT_FILE {
      if AsksFile(name, VIRTUAL_OUTPUT_FILE) {
        OnePath(StartClient("").handles[0], name, AfterColon(name).0, VIRTUAL_OUTPUT_FILE);
      }
    }
    var d := ActionFindInput(c, packet, name);
    if AfterColon(name).0 != VIRTUAL_INPUT_FILE {
      assert d.pending[1..] == c.pending;
    }
  }

  lemma LocateOutcome(c: Client, packet: nat, dir: nat, name: string)
    requires dir in c.handles
    ensures var d := ActionLocate(c, packet, dir, name);
      RepliesNow(c, d, packet, Locate(dir, name)) || BeginsWork(c, d, packet, Locate(dir, name))
  {
    NormalizeIs(c.handles[dir], name);
    hide Normalize, AsksObject;
    var d := ActionLocate(c, packet, dir, name);
    if Normalize(c.handles[dir], name) != "" {
      assert d.pending[1..] == c.pending;
    }
  }

  lemma LockOutcome(c: Client, packet: nat, h: nat)
    requires h in c.handles
    ensures RepliesNow(c, ActionCopyDir(c, packet, h), packet, CopyDir(h))
    ensures RepliesNow(c, ActionParent(c, packet, h), packet, Parent(h))
    ensures RepliesNow(c, ActionFree(c, packet, h), packet, Free(h))
  {
    hide NewHandle, LastSlash;
    var path := c.handles[h].path;
    var i := LastSlash(path);
    assert HasParent(path) <==> i > 0;
    hide HasParent;
  }

  lemma HandleOutcome(c: Client, packet: nat, p: Packet)
    requires (p.Read? || p.Write? || p.Seek? || p.ExamineNext?) && Acceptable(c, p)
    ensures var d := ProcessPacket(c, packet, p);
      RepliesNow(c, d, packet, p) || BeginsWork(c, d, packet, p)
  {
    hide ServeFromBuffer, SeekOffset;
    var d := ProcessPacket(c, packet, p);
    assert d.log == c.log ==> d.pending[1..] == c.pending;
  }

  lemma PacketOutcome(c: Client, packet: nat, p: Packet)
    requires Acceptable(c, p) && !p.Die?
    ensures var d := ProcessPacket(c, packet, p);
      RepliesNow(c, d, packet, p) || BeginsWork(c, d, packet, p)
  {
    hide RepliesNow, BeginsWork, ActionRead, ActionWrite, ActionSeek, ActionFindInput, ActionFindOutput, ActionLocate,
      ActionFree, ActionCopyDir, ActionParent, ActionExamineNext;
    match p
    case Read(_, _) => HandleOutcome(c, packet, p);
    case Write(_, _) => HandleOutcome(c, packet, p);
    case Seek(_, _, _) => HandleOutcome(c, packet, p);
    case ExamineNext(_) => HandleOutcome(c, packet, p);
    case FindInput(name) => FindOutcome(c, packet, name);
    case FindOutput(name) => FindOutcome(c, packet, name);
    case Locate(dir, name) => LocateOutcome(c, packet, dir, name);
    case Free(h) => LockOutcome(c, packet, h);
    case CopyDir(h) => LockOutcome(c, packet, h);
    case Parent(h) => LockOutcome(c, packet, h);
    case Constant(res1, res2) => ConstantOutcome(c, packet, res1, res2);
  }

  lemma ConstantOutcome(c: Client, packet: nat, res1: int, res2: int)
    ensures RepliesNow(c, ReplyTo(c, packet, res1, res2, Other), packet, Constant(res1, res2))
  {
  }

  // ---------- what an answer does ----------

  /** The operation at place i ends with a reply. */
  predicate EndsWork(c: Client, d: Client, i: nat)
    requires i < |c.pending|
  {
    && d.pending == c.pending[..i] + c.pending[i + 1..] && |d.log| == |c.log| + 1
    && d.log == c.log + [d.log[|c.log|]]
    && d.log[|c.log|].packet == c.pending[i].packet && Concludes(c.pending[i].detail, d.log[|c.log|])
  }

  /** The operation at place i goes on, under a new number. */
  predicate ContinuesWork(c: Client, d: Client, i: nat)
    requires i < |c.pending|
  {
    && d.log == c.log && |d.pending| == |c.pending| && d.pending == c.pending[i := d.pending[i]]
    && d.pending[i].packet == c.pending[i].packet && GoesOn(c.pending[i].detail, d.pending[i].detail)
    && d.pending[i].seqno == c.seqno
  }

  lemma AnswerOutcome(c: Client, m: Msg, i: nat)
    requires AllLive(c) && FindPending(c.pending, m.seqno) == Some(i)
    ensures var d := ProcessAnswer(c, m).0;
      EndsWork(c, d, i) || ContinuesWork(c, d, i)
  {
    assert Live(c, c.pending[i].detail);
    hide AllLive, TakeData, NextChunk, NewHandle, Truncate, TranslateError;
    var d := ProcessAnswer(c, m).0;
    assert |d.pending| == |c.pending| ==> d.pending == c.pending[i := d.pending[i]];
  }

  // ---------- runs ----------

  /** Operations and answers of a state have numbers that were given before. */
  lemma NumbersPassed(s: State)
    requires Structure(s)
    ensures s.client.seqno == s.sent && AllLive(s.client)
    ensures forall k :: 0 <= k < |s.answers| ==> s.answers[k].seqno < s.sent
  {
    forall k | 0 <= k < |s.answers|
      ensures s.answers[k].seqno < s.sent
    {
      assert Flight(s)[k] == s.answers[k];
    }
  }

  /** Step t takes the packet with this number. */
  predicate TakesPacket(events: seq<Event>, states: seq<State>, t: nat, packet: nat) {
    t < |events| && t < |states| && events[t].TakePacket? && states[t].taken == packet
  }

  ghost predicate WorksForTaken(events: seq<Event>, states: seq<State>, t: nat, op: Op) {
    && TakesPacket(events, states, t, op.packet) && WorksFor(states[t].client, events[t].p, op.detail)
    && (HandleOf(op.detail) == None ==> op.seqno == states[t].sent)
  }

  ghost predicate AnswersTaken(events: seq<Event>, states: seq<State>, t: nat, r: Reply) {
    TakesPacket(events, states, t, r.packet) && Answers(states[t].client, events[t].p, r)
  }

  ghost predicate OpTaken(events: seq<Event>, states: seq<State>, n: nat, op: Op) {
    exists t: nat :: t < n && WorksForTaken(events, states, t, op)
  }

  ghost predicate ReplyTaken(events: seq<Event>, states: seq<State>, n: nat, r: Reply) {
    exists t: nat :: t < n && AnswersTaken(events, states, t, r)
  }

  /** All operations and replies of the client after n steps are for packets that these steps have taken. */
  ghost predicate AllTaken(events: seq<Event>, states: seq<State>, n: nat, c: Client) {
    && (forall i :: 0 <= i < |c.pending| ==> OpTaken(events, states, n, c.pending[i]))
    && (forall k :: 0 <= k < |c.log| ==> ReplyTaken(events, states, n, c.log[k]))
  }

  lemma Later(events: seq<Event>, states: seq<State>, n: nat, c: Client, d: Client)
    requires AllTaken(events, states, n, c) && d.pending == c.pending && d.log == c.log
    ensures AllTaken(events, states, n + 1, d)
  {
    hide WorksForTaken, AnswersTaken;
    forall i | 0 <= i < |c.pending|
      ensures OpTaken(events, states, n + 1, c.pending[i])
    {
      assert OpTaken(events, states, n, c.pending[i]);
    }
    forall k | 0 <= k < |c.log|
      ensures ReplyTaken(events, states, n + 1, c.log[k])
    {
      assert ReplyTaken(events, states, n, c.log[k]);
    }
  }

  lemma PacketKept(events: seq<Event>, states: seq<State>, n: nat, c: Client, d: Client)
    requires AllTaken(events, states, n, c)
    requires n < |states| && TakesPacket(events, states, n, states[n].taken) && states[n].client == c
    requires c.seqno == states[n].sent
    requires
      || RepliesNow(c, d, states[n].taken, events[n].p)
      || BeginsWork(c, d, states[n].taken, events[n].p)
      || (d.pending == c.pending && d.log == c.log)
    ensures AllTaken(events, states, n + 1, d)
  {
    Later(events, states, n, c, c);
    if RepliesNow(c, d, states[n].taken, events[n].p) {
      assert AnswersTaken(events, states, n, d.log[|c.log|]);
      assert ReplyTaken(events, states, n + 1, d.log[|c.log|]);
      hide ReplyTaken, OpTaken, Answers, WorksFor;
      assert forall k :: 0 <= k < |c.log| ==> d.log[k] == c.log[k];
    } else if BeginsWork(c, d, states[n].taken, events[n].p) {
      assert WorksForTaken(events, states, n, d.pending[0]);
      assert OpTaken(events, states, n + 1, d.pending[0]);
      hide ReplyTaken, OpTaken, Answers, WorksFor;
      assert forall i :: 0 < i < |d.pending| ==> d.pending[i] == c.pending[i - 1];
    } else {
      Later(events, states, n, c, d);
    }
  }

  lemma EndKept(events: seq<Event>, states: seq<State>, n: nat, c: Client, d: Client, i: nat)
    requires AllTaken(events, states, n, c) && i < |c.pending| && EndsWork(c, d, i)
    ensures AllTaken(events, states, n + 1, d)
  {
    Later(events, states, n, c, c);
    var op, r := c.pending[i], d.log[|c.log|];
    assert OpTaken(events, states, n, op);
    var t: nat :| t < n && WorksForTaken(events, states, t, op);
    ConclusionAnswers(states[t].client, events[t].p, op.detail, r);
    assert AnswersTaken(events, states, t, r);
    assert ReplyTaken(events, states, n + 1, r);
    hide ReplyTaken, OpTaken, Answers, WorksFor;
    assert forall j :: 0 <= j < |d.pending| ==> d.pending[j] == c.pending[if j < i then j else j + 1];
    assert forall k :: 0 <= k < |c.log| ==> d.log[k] == c.log[k];
  }

  lemma ContinueKept(events: seq<Event>, states: seq<State>, n: nat, c: Client, d: Client, i: nat)
    requires AllTaken(events, states, n, c) && i < |c.pending| && ContinuesWork(c, d, i)
    ensures AllTaken(events, states, n + 1, d)
  {
    Later(events, states, n, c, c);
    var op, op' := c.pending[i], d.pending[i];
    assert OpTaken(events, states, n, op);
    var t: nat :| t < n && WorksForTaken(events, states, t, op);
    GoingOnWorks(states[t].client, events[t].p, op.detail, op'.detail);
    assert WorksForTaken(events, states, t, op');
    assert OpTaken(events, states, n + 1, op');
    hide ReplyTaken, OpTaken, Answers, WorksFor;
    assert forall j :: 0 <= j < |d.pending| && j != i ==> d.pending[j] == c.pending[j];
  }

  lemma DieDoes(c: Client, packet: nat)
    ensures ProcessPacket(c, packet, Die) == c
  {
  }

  lemma {:induction false} RunTaken(device: string, w: World, events: seq<Event>, states: seq<State>, n: nat)
    requires IsRun(device, w, events, states) && n < |states| && NoWrap(states[n])
    ensures AllTaken(events, states, n, states[n].client)
  {
    hide AllTaken, Structure, RepliesConserved, ProcessPacket, ProcessAnswer, Serve, RepliesNow, BeginsWork,
      EndsWork, ContinuesWork;
    if n == 0 {
      NothingTaken(events, states, device);
    } else {
      var s, e := states[n - 1], events[n - 1];
      assert Next(s, w, e, states[n]);
      SentGrows(s, w, e, states[n]);
      RunMatching(device, w, events, states, n - 1);
      RunTaken(device, w, events, states, n - 1);
      var c, d := s.client, states[n].client;
      match e
      case TakePacket(p) =>
        if p.Die? {
          DieDoes(c, s.taken);
        } else {
          PacketOutcome(c, s.taken, p);
        }
        StructureNumber(s);
        PacketKept(events, states, n - 1, c, d);
      case ServeNext(_) => Later(events, states, n - 1, c, d);
      case TakeAnswer =>
        AnswerFits(s);
        var i := FindPending(c.pending, s.answers[0].seqno).value;
        AnswerOutcome(c, s.answers[0], i);
        if EndsWork(c, d, i) {
          EndKept(events, states, n - 1, c, d, i);
        } else {
          ContinueKept(events, states, n - 1, c, d, i);
        }
    }
  }

  lemma NothingTaken(events: seq<Event>, states: seq<State>, device: string)
    ensures AllTaken(events, states, 0, StartClient(device))
  {
  }

  /** Packets are numbered as they come. */
  lemma {:induction false} TakenRises(device: string, w: World, events: seq<Event>, states: seq<State>, t: nat, n: nat)
    requires IsRun(device, w, events, states) && t < n < |states|
    ensures states[t].taken <= states[n].taken
    ensures events[t].TakePacket? ==> states[t].taken < states[n].taken
  {
    hide ProcessPacket, ProcessAnswer, Serve;
    assert Next(states[n - 1], w, events[n - 1], states[n]);
    if t < n - 1 {
      TakenRises(device, w, events, states, t, n - 1);
    }
  }

  /** So a number stands for one packet. */
  lemma OneTaker(device: string, w: World, events: seq<Event>, states: seq<State>, t: nat, u: nat, packet: nat)
    requires IsRun(device, w, events, states)
    requires TakesPacket(events, states, t, packet) && TakesPacket(events, states, u, packet)
    ensures t == u
  {
    if t < u {
      TakenRises(device, w, events, states, t, u);
    } else if u < t {
      TakenRises(device, w, events, states, u, t);
    }
  }

  /**
   In every run, the reply to a packet tells about what that packet asked for: a
   read about its handle and count, an open about the path that its name stands
   for in the directory it is relative to, and so on.
   */
  lemma RepliesFit(device: string, w: World, events: seq<Event>, states: seq<State>, t: nat, n: nat, k: nat)
    requires IsRun(device, w, events, states) && t < n < |states| && NoWrap(states[n]) && events[t].TakePacket?
    requires k < |states[n].client.log| && states[n].client.log[k].packet == states[t].taken
    ensures Answers(states[t].client, events[t].p, states[n].client.log[k])
  {
    hide Answers, Next;
    RunTaken(device, w, events, states, n);
    var r := states[n].client.log[k];
    assert ReplyTaken(events, states, n, r);
    var u: nat :| u < n && AnswersTaken(events, states, u, r);
    OneTaker(device, w, events, states, t, u, r.packet);
  }

  /** The path stands for the name in the packet. */
  ghost predicate Asks(c: Client, p: Packet, path: string) {
    match p
    case FindInput(name) => AsksFile(name, path)
    case Locate(dir, name) => dir in c.handles && AsksObject(c.handles[dir], name, path)
    case _ => false
  }

  /** The packet is answered without the server: it asks for the virtual input, or for the root. */
  predicate AnsweredHere(p: Packet, path: string) {
    (p.FindInput? && path == VIRTUAL_INPUT_FILE) || (p.Locate? && path == "")
  }

  lemma RequestOf(c: Client, packet: nat, p: Packet, path: string)
    requires Acceptable(c, p) && Asks(c, p, path)
    ensures var d := ProcessPacket(c, packet, p);
      if AnsweredHere(p, path) then d.out == c.out && d.log != c.log
      else d.out == c.out + [OpenRequest(c.seqno, path)] && d.log == c.log
  {
    if p.FindInput? {
      AfterColonIs(p.name);
      OnePath(StartClient("").handles[0], p.name, AfterColon(p.name).0, path);
      hide AfterColon, AsksFile, NewHandle;
    } else {
      var dir := c.handles[p.dir];
      NormalizeIs(dir, p.name);
      OnePath(dir, p.name, Normalize(dir, p.name), path);
      hide Normalize, AsksObject;
    }
  }

  /**
   And a packet that opens something either is replied to at once, or sends one
   request, for the path that its name stands for.
   */
  lemma RequestFor(device: string, w: World, events: seq<Event>, states: seq<State>, t: nat, path: string)
    requires IsRun(device, w, events, states) && t < |events| && NoWrap(states[t + 1]) && events[t].TakePacket?
    requires Asks(states[t].client, events[t].p, path)
    ensures var s, s' := states[t], states[t + 1];
      if AnsweredHere(events[t].p, path)
      then s'.client.out == s.client.out && s'.sent == s.sent && s'.client.log != s.client.log
      else s'.client.out == s.client.out + [OpenRequest(s.sent, path)] && s'.client.log == s.client.log
  {
    hide Structure, RepliesConserved, ProcessPacket, ProcessAnswer, Serve, Asks, AnsweredHere;
    var s, p := states[t], events[t].p;
    assert Next(s, w, events[t], states[t + 1]);
    SentGrows(s, w, events[t], states[t + 1]);
    RunMatching(device, w, events, states, t);
    StructureNumber(s);
    RequestOf(s.client, s.taken, p, path);
  }

  // ---------- handles ----------

  /** What of a handle never changes. */
  predicate SameMake(hd: Handle, hd': Handle) {
    hd'.id == hd.id && hd'.kind == hd.kind && hd'.size == hd.size && hd'.path == hd.path && hd'.target == hd.target
  }

  /** The handle that a reply gives its caller. */
  function Gives(what: What): Option<nat> {
    match what
    case Opened(h, _, _) => Some(h)
    case RootLock(h) => Some(h)
    case InputOpened(h) => Some(h)
    case OutputOpened(h) => Some(h)
    case _ => None
  }

  /** A handle that this packet, sent in this state of the client, was given. */
  ghost predicate Makes(c: Client, p: Packet, what: What, hd: Handle) {
    match p
    case FindInput(name) =>
      && CutTo(name, 107, hd.path)
      && (if what.Opened? then hd.kind == FileKind && hd.target == what.target
          else hd.kind == InputKind && hd.id == VIRTUAL_INPUT_ID)
    case FindOutput(name) => CutTo(name, 107, hd.path) && hd.kind == OutputKind && hd.id == VIRTUAL_OUTPUT_ID
    case Locate(_, _) =>
      && what.Opened? && hd.target == what.target && CutTo(what.target, 107, hd.path)
      && hd.kind == what.kind && (hd.kind == DirKind || hd.kind == FileKind)
    case CopyDir(h) =>
      h in c.handles && CutTo(c.handles[h].path, 107, hd.path) && hd.id == c.handles[h].id
      && hd.kind == c.handles[h].kind != DeviceKind && hd.size == c.handles[h].size && hd.target == c.handles[h].target
    case Parent(h) =>
      h in c.handles && hd.id == ROOT_ID && hd.kind == DirKind
      && exists parent :: IsParent(c.handles[h].path, parent) && CutTo(parent, 107, hd.path)
    case _ => false
  }

  /** The same, from what the operation of the packet remembers. */
  ghost predicate MakesFor(d: Detail, what: What, hd: Handle) {
    match d
    case OpeningFile(name, target) =>
      what.Opened? && what.target == target && CutTo(name, 107, hd.path) && hd.kind == FileKind && hd.target == target
    case OpeningLock(target) =>
      && what.Opened? && what.target == target && CutTo(target, 107, hd.path)
      && hd.kind == what.kind && (hd.kind == DirKind || hd.kind == FileKind) && hd.target == target
    case _ => false
  }

  lemma MadeForPacket(c: Client, p: Packet, d: Detail, what: What, hd: Handle)
    requires WorksFor(c, p, d) && MakesFor(d, what, hd)
    ensures Makes(c, p, what, hd)
  {
    hide AsksFile, AsksObject, CutTo;
  }

  /** The last reply of d gives handle h. */
  predicate GivesLast(c: Client, d: Client, h: nat) {
    |d.log| == |c.log| + 1 && d.log == c.log + [d.log[|c.log|]] && Gives(d.log[|c.log|].what) == Some(h)
  }

  lemma NewPath(id: nat, kind: Kind, size: nat, path: string, target: string)
    ensures var hd := NewHandle(id, kind, size, path, target);
      && hd.id == id && hd.kind == kind && hd.size == size && hd.target == target && CutTo(path, 107, hd.path)
  {
    TruncateCuts(path, 107);
  }

  /** Handle h is as it was, or a new one that the reply to this packet gives. */
  ghost predicate KeptOrMade(c: Client, d: Client, packet: nat, p: Packet, h: nat)
    requires h in d.handles
  {
    || (h in c.handles && SameMake(c.handles[h], d.handles[h]))
    || (GivesLast(c, d, h) && d.log[|c.log|].packet == packet && Makes(c, p, d.log[|c.log|].what, d.handles[h]))
  }

  lemma FindMakes(c: Client, packet: nat, p: Packet, h: nat)
    requires p.FindInput? || p.FindOutput?
    ensures var d := ProcessPacket(c, packet, p); h in d.handles ==> KeptOrMade(c, d, packet, p, h)
  {
    hide AfterColon, NewHandle, CutTo;
    var target := AfterColon(p.name).0;
    NewPath(VIRTUAL_INPUT_ID, InputKind, 0, p.name, target);
    NewPath(VIRTUAL_OUTPUT_ID, OutputKind, 0, p.name, target);
  }

  lemma LockMakes(c: Client, packet: nat, p: Packet, h: nat)
    requires (p.CopyDir? || p.Parent?) && p.h in c.handles
    requires p.CopyDir? ==> c.handles[p.h].id >= MAX_FILE_HANDLES && IdOk(c.handles[p.h].id)
    ensures var d := ProcessPacket(c, packet, p); h in d.handles ==> KeptOrMade(c, d, packet, p, h)
  {
    hide LastSlash, NewHandle, CutTo;
    var hd := c.handles[p.h];
    NewPath(hd.id, hd.kind, hd.size, hd.path, hd.target);
    var i := LastSlash(hd.path);
    if i > 0 {
      NewPath(ROOT_ID, DirKind, 0, hd.path[..i], "");
      assert IsParent(hd.path, hd.path[..i]);
    }
  }

  lemma PacketMakes(c: Client, packet: nat, p: Packet, h: nat)
    requires Acceptable(c, p) && KnownHandles(c) && (p.CopyDir? ==> c.handles[p.h].id >= MAX_FILE_HANDLES)
    ensures var d := ProcessPacket(c, packet, p); h in d.handles ==> KeptOrMade(c, d, packet, p, h)
  {
    if p.FindInput? || p.FindOutput? {
      FindMakes(c, packet, p, h);
    } else if p.CopyDir? || p.Parent? {
      LockMakes(c, packet, p, h);
    } else {
      hide ServeFromBuffer, SeekOffset, Normalize, Makes, GivesLast;
      ServedSame(c, p);
    }
  }

  lemma ServedSame(c: Client, p: Packet)
    ensures p.Read? && p.h in c.handles ==> SameMake(c.handles[p.h], ServeFromBuffer(c.handles[p.h], p.count).0)
  {
  }

  lemma AnswerMakes(c: Client, m: Msg, i: nat, h: nat)
    requires AllLive(c) && FindPending(c.pending, m.seqno) == Some(i)
    ensures var d := ProcessAnswer(c, m).0;
      h in d.handles ==>
        || (h in c.handles && SameMake(c.handles[h], d.handles[h]))
        || (GivesLast(c, d, h) && d.log[|c.log|].packet == c.pending[i].packet
            && MakesFor(c.pending[i].detail, d.log[|c.log|].what, d.handles[h]))
  {
    assert Live(c, c.pending[i].detail);
    hide AllLive, NextChunk, NewHandle, Truncate, TranslateError, CutTo, TakeData;
    var op := c.pending[i];
    match op.detail
    case Reading(g, count, got) =>
      if m.ReadAnswer? {
        TakenSame(c.handles[g], count - Min(|got|, count), m.data);
      }
    case OpeningFile(name, target) =>
      if m.OpenAnswer? {
        NewPath(m.handle, FileKind, m.size, name, target);
      }
    case OpeningLock(target) =>
      if m.OpenAnswer? {
        NewPath(m.handle, if m.isDir then DirKind else FileKind, m.size, target, target);
      }
    case _ =>
  }

  lemma TakenSame(hd: Handle, left: nat, data: seq<Byte>)
    ensures SameMake(hd, TakeData(hd, left, data).0)
  {
  }

  /** Step t took the packet whose reply r gives handle h, made like hd. */
  ghost predicate MadeAt(events: seq<Event>, states: seq<State>, t: nat, r: Reply, h: nat, hd: Handle) {
    && TakesPacket(events, states, t, r.packet) && Gives(r.what) == Some(h)
    && Makes(states[t].client, events[t].p, r.what, hd)
  }

  ghost predicate Made(events: seq<Event>, states: seq<State>, n: nat, log: seq<Reply>, h: nat, hd: Handle) {
    exists t: nat, k: nat :: t < n && k < |log| && MadeAt(events, states, t, log[k], h, hd)
  }

  lemma MadeLater(events: seq<Event>, states: seq<State>, n: nat, log: seq<Reply>, log': seq<Reply>, h: nat, hd: Handle,
                  hd': Handle)
    requires Made(events, states, n, log, h, hd) && log <= log' && SameMake(hd, hd')
    ensures Made(events, states, n + 1, log', h, hd')
  {
    var t: nat, k: nat :| t < n && k < |log| && MadeAt(events, states, t, log[k], h, hd);
    assert log'[k] == log[k];
    hide CutTo, IsParent, TakesPacket, Gives;
    assert MadeAt(events, states, t, log'[k], h, hd');
  }

  lemma MadeNow(events: seq<Event>, states: seq<State>, n: nat, t: nat, log: seq<Reply>, r: Reply, h: nat, hd: Handle)
    requires t < n && MadeAt(events, states, t, r, h, hd)
    ensures Made(events, states, n, log + [r], h, hd)
  {
    var log' := log + [r];
    assert log'[|log|] == r;
    hide MadeAt;
  }

  /** Every handle but the device's own was made by a packet that its caller had sent. */
  ghost predicate HandlesMade(events: seq<Event>, states: seq<State>, n: nat, device: string, c: Client) {
    forall h <- c.handles ::
      if h == 0 then SameMake(StartClient(device).handles[0], c.handles[0])
      else Made(events, states, n, c.log, h, c.handles[h])
  }

  lemma PacketHandlesMade(events: seq<Event>, states: seq<State>, n: nat, device: string, d: Client)
    requires n < |events| && n < |states| && events[n].TakePacket? && KnownHandles(states[n].client)
    requires 0 in states[n].client.handles && HandlesMade(events, states, n, device, states[n].client)
    requires Enabled(states[n], events[n]) && d == ProcessPacket(states[n].client, states[n].taken, events[n].p)
    ensures HandlesMade(events, states, n + 1, device, d)
  {
    hide ProcessPacket;
    var c, packet, p := states[n].client, states[n].taken, events[n].p;
    PacketLogs(c, packet, p);
    forall h <- d.handles
      ensures if h == 0 then SameMake(StartClient(device).handles[0], d.handles[0])
        else Made(events, states, n + 1, d.log, h, d.handles[h])
    {
      PacketMakes(c, packet, p, h);
      hide Makes, Made, Answers;
      if h in c.handles && SameMake(c.handles[h], d.handles[h]) {
        if h != 0 {
          MadeLater(events, states, n, c.log, d.log, h, c.handles[h], d.handles[h]);
        }
      } else {
        PacketGives(c, packet, p, h);
        MadeNow(events, states, n + 1, n, c.log, d.log[|c.log|], h, d.handles[h]);
      }
    }
  }

  lemma PacketLogs(c: Client, packet: nat, p: Packet)
    requires Acceptable(c, p)
    ensures c.log <= ProcessPacket(c, packet, p).log
  {
    hide ProcessPacket, Answers, WorksFor;
    if p.Die? {
      DieDoes(c, packet);
    } else {
      PacketOutcome(c, packet, p);
    }
  }

  /** Only a fresh handle is given. */
  lemma PacketGives(c: Client, packet: nat, p: Packet, h: nat)
    requires Acceptable(c, p) && KnownHandles(c) && GivesLast(c, ProcessPacket(c, packet, p), h)
    ensures h == c.next && h !in c.handles
  {
    hide ServeFromBuffer, SeekOffset, Normalize, AfterColon, LastSlash, NewHandle;
  }

  lemma AnswerHandlesMade(events: seq<Event>, states: seq<State>, n: nat, device: string, c: Client, d: Client, m: Msg,
                          i: nat)
    requires AllLive(c) && KnownHandles(c) && FindPending(c.pending, m.seqno) == Some(i) && d == ProcessAnswer(c, m).0
    requires HandlesMade(events, states, n, device, c) && AllTaken(events, states, n, c)
    ensures HandlesMade(events, states, n + 1, device, d)
  {
    hide ProcessAnswer;
    AnswerOutcome(c, m, i);
    var op := c.pending[i];
    assert OpTaken(events, states, n, op);
    var t: nat :| t < n && WorksForTaken(events, states, t, op);
    forall h <- d.handles
      ensures if h == 0 then SameMake(StartClient(device).handles[0], d.handles[0])
        else Made(events, states, n + 1, d.log, h, d.handles[h])
    {
      AnswerMakes(c, m, i, h);
      hide Made, WorksFor, Makes, MakesFor, AllLive, AllTaken;
      if h in c.handles && SameMake(c.handles[h], d.handles[h]) {
        if h != 0 {
          MadeLater(events, states, n, c.log, d.log, h, c.handles[h], d.handles[h]);
        }
      } else {
        var r := d.log[|c.log|];
        AnswerGives(c, m, i, h);
        MadeForPacket(states[t].client, events[t].p, op.detail, r.what, d.handles[h]);
        MadeNow(events, states, n + 1, t, c.log, r, h, d.handles[h]);
      }
    }
  }

  lemma AnswerGives(c: Client, m: Msg, i: nat, h: nat)
    requires AllLive(c) && KnownHandles(c) && FindPending(c.pending, m.seqno) == Some(i)
    requires GivesLast(c, ProcessAnswer(c, m).0, h)
    ensures h == c.next && h !in c.handles
  {
    assert Live(c, c.pending[i].detail);
    hide AllLive, TakeData, NextChunk, NewHandle, Truncate, TranslateError;
  }

  lemma {:induction false} RunMade(device: string, w: World, events: seq<Event>, states: seq<State>, n: nat)
    requires IsRun(device, w, events, states) && n < |states| && NoWrap(states[n])
    ensures HandlesMade(events, states, n, device, states[n].client)
  {
    hide HandlesMade, AllTaken, RepliesConserved, ProcessPacket, ProcessAnswer, Serve, Matched, Kinds, OnePerHandle;
    if n == 0 {
      StartMade(events, states, device);
    } else {
      var s, e := states[n - 1], events[n - 1];
      assert Next(s, w, e, states[n]);
      SentGrows(s, w, e, states[n]);
      RunMatching(device, w, events, states, n - 1);
      RunMade(device, w, events, states, n - 1);
      RunTaken(device, w, events, states, n - 1);
      var c, d := s.client, states[n].client;
      match e
      case TakePacket(p) => PacketHandlesMade(events, states, n - 1, device, d);
      case ServeNext(_) => SameHandlesMade(events, states, n - 1, device, c, d);
      case TakeAnswer =>
        AnswerFits(s);
        AnswerHandlesMade(events, states, n - 1, device, c, d, s.answers[0],
                          FindPending(c.pending, s.answers[0].seqno).value);
    }
  }

  lemma StartMade(events: seq<Event>, states: seq<State>, device: string)
    ensures HandlesMade(events, states, 0, device, StartClient(device))
  {
  }

  lemma SameHandlesMade(events: seq<Event>, states: seq<State>, n: nat, device: string, c: Client, d: Client)
    requires HandlesMade(events, states, n, device, c) && d.handles == c.handles && d.log == c.log
    ensures HandlesMade(events, states, n + 1, device, d)
  {
    forall h <- d.handles | h != 0
      ensures Made(events, states, n + 1, d.log, h, d.handles[h])
    {
      MadeLater(events, states, n, c.log, d.log, h, c.handles[h], d.handles[h]);
    }
    hide Made;
  }

  /**
   In every run, each handle is what the reply to one packet gave its caller:
   its path is the name that the packet found or the path that it located, or
   that of the copied lock, or that of the parent, cut to 107 characters; and its
   kind and id are those of that object. Handle 0 stays the device's.
   */
  lemma HandlesAreMade(device: string, w: World, events: seq<Event>, states: seq<State>, n: nat, h: nat)
    requires IsRun(device, w, events, states) && n < |states| && NoWrap(states[n]) && h in states[n].client.handles
    ensures var hd := states[n].client.handles[h];
      if h == 0 then hd.kind == DeviceKind && hd.id == ROOT_ID && hd.path == device
      else Made(events, states, n, states[n].client.log, h, hd)
  {
    hide MadeAt;
    RunMade(device, w, events, states, n);
  }

  /** Handles are never renumbered, and a number is never given twice. */
  predicate KeepsHandles(c: Client, d: Client) {
    && c.next <= d.next
    && forall h <- d.handles :: h < c.next ==> h in c.handles && SameMake(c.handles[h], d.handles[h])
  }

  lemma PacketKeepsHandles(c: Client, packet: nat, p: Packet)
    requires Acceptable(c, p) && KnownHandles(c) && (p.CopyDir? ==> c.handles[p.h].id >= MAX_FILE_HANDLES)
    ensures KeepsHandles(c, ProcessPacket(c, packet, p))
  {
    hide ProcessPacket, Makes;
    var d := ProcessPacket(c, packet, p);
    PacketNext(c, packet, p);
    forall h | h in d.handles && h < c.next
      ensures h in c.handles && SameMake(c.handles[h], d.handles[h])
    {
      PacketMakes(c, packet, p, h);
      if GivesLast(c, d, h) {
        PacketGives(c, packet, p, h);
      }
    }
  }

  lemma PacketNext(c: Client, packet: nat, p: Packet)
    requires Acceptable(c, p)
    ensures c.next <= ProcessPacket(c, packet, p).next
  {
    hide ServeFromBuffer, SeekOffset, Normalize, AfterColon, LastSlash, NewHandle;
  }

  lemma AnswerKeepsHandles(c: Client, m: Msg, i: nat)
    requires AllLive(c) && KnownHandles(c) && FindPending(c.pending, m.seqno) == Some(i)
    ensures KeepsHandles(c, ProcessAnswer(c, m).0)
  {
    hide ProcessAnswer, MakesFor;
    var d := ProcessAnswer(c, m).0;
    AnswerNext(c, m, i);
    forall h | h in d.handles && h < c.next
      ensures h in c.handles && SameMake(c.handles[h], d.handles[h])
    {
      AnswerMakes(c, m, i, h);
      if GivesLast(c, d, h) {
        AnswerGives(c, m, i, h);
      }
    }
  }

  lemma AnswerNext(c: Client, m: Msg, i: nat)
    requires AllLive(c) && FindPending(c.pending, m.seqno) == Some(i)
    ensures c.next <= ProcessAnswer(c, m).0.next
  {
    assert Live(c, c.pending[i].detail);
    hide AllLive, TakeData, NextChunk, NewHandle, Truncate, TranslateError;
  }

  lemma StepKeepsHandles(s: State, w: World, e: Event, s': State)
    requires Structure(s) && NoWrap(s) && Next(s, w, e, s')
    ensures KeepsHandles(s.client, s'.client) && KnownHandles(s.client)
  {
    hide Matched, Kinds, OnePerHandle, ProcessPacket, ProcessAnswer, Serve;
    match e
    case TakePacket(p) => PacketKeepsHandles(s.client, s.taken, p);
    case ServeNext(_) =>
    case TakeAnswer =>
      AnswerFits(s);
      AnswerKeepsHandles(s.client, s.answers[0], FindPending(s.client.pending, s.answers[0].seqno).value);
  }

  lemma {:induction false} RunKeepsHandles(device: string, w: World, events: seq<Event>, states: seq<State>, j: nat,
                                           n: nat)
    requires IsRun(device, w, events, states) && j <= n < |states| && NoWrap(states[n])
    ensures KeepsHandles(states[j].client, states[n].client) && KnownHandles(states[j].client)
  {
    hide Structure, RepliesConserved, KeepsHandles, KnownHandles;
    if j == n {
      RunMatching(device, w, events, states, n);
      KnownKeeps(states[n]);
    } else {
      assert Next(states[n - 1], w, events[n - 1], states[n]);
      SentGrows(states[n - 1], w, events[n - 1], states[n]);
      RunKeepsHandles(device, w, events, states, j, n - 1);
      RunMatching(device, w, events, states, n - 1);
      StepKeepsHandles(states[n - 1], w, events[n - 1], states[n]);
      KeepsOn(states[j].client, states[n - 1].client, states[n].client);
    }
  }

  lemma KnownKeeps(s: State)
    requires Structure(s)
    ensures KnownHandles(s.client) && KeepsHandles(s.client, s.client)
  {
  }

  lemma KeepsOn(c: Client, d: Client, e: Client)
    requires KeepsHandles(c, d) && KeepsHandles(d, e)
    ensures KeepsHandles(c, e)
  {
  }

  /** In every run, a handle is the same object in all states that have it. */
  lemma OneHandle(device: string, w: World, events: seq<Event>, states: seq<State>, j: nat, n: nat, h: nat)
    requires IsRun(device, w, events, states) && j <= n < |states| && NoWrap(states[n])
    requires h in states[j].client.handles && h in states[n].client.handles
    ensures SameMake(states[j].client.handles[h], states[n].client.handles[h])
  {
    RunKeepsHandles(device, w, events, states, j, n);
  }

  ghost predicate GivenTo(log: seq<Reply>, h: nat) {
    exists k :: 0 <= k < |log| && Gives(log[k].what) == Some(h)
  }

  ghost predicate FreedIn(log: seq<Reply>, h: nat) {
    exists k :: 0 <= k < |log| && log[k].what == Freed(h)
  }

  /** Replies to packets and answers, as far as handles come and go. */
  ghost predicate ComesAndGoes(c: Client, d: Client) {
    && (d.log == c.log || (|d.log| == |c.log| + 1 && d.log == c.log + [d.log[|c.log|]]))
    && var what := if d.log == c.log then Other else d.log[|c.log|].what;
    && (Gives(what).Some? ==> Gives(what) == Some(c.next) && c.next in d.handles && c.next < d.next)
    && (what.Freed? && what.h != 0 ==> what.h !in d.handles && what.h in c.handles)
    && (forall h <- c.handles :: h in d.handles || (what == Freed(h) && h != 0))
    && (forall h <- d.handles :: h in c.handles || Gives(what) == Some(h))
  }

  lemma PacketComes(c: Client, packet: nat, p: Packet)
    requires Acceptable(c, p) && KnownHandles(c)
    requires p.CopyDir? ==> c.handles[p.h].id >= MAX_FILE_HANDLES
    requires p.Free? ==> (c.handles[p.h].kind == DeviceKind <==> p.h == 0)
    ensures ComesAndGoes(c, ProcessPacket(c, packet, p))
  {
    hide ServeFromBuffer, SeekOffset, Normalize, AfterColon, LastSlash, NewHandle;
  }

  lemma OpenComes(c: Client, m: Msg, i: nat)
    requires AllLive(c) && KnownHandles(c) && FindPending(c.pending, m.seqno) == Some(i)
    requires m.OpenAnswer? && HandleOf(c.pending[i].detail) == None
    ensures ComesAndGoes(c, ProcessAnswer(c, m).0)
  {
    hide AllLive, NewHandle, CompleteRead, CompleteWrite, CompleteExamineNext;
  }

  lemma WorkComes(c: Client, m: Msg, i: nat)
    requires AllLive(c) && KnownHandles(c) && FindPending(c.pending, m.seqno) == Some(i)
    requires Expected(c.pending[i].detail, m) && HandleOf(c.pending[i].detail).Some?
    ensures ComesAndGoes(c, ProcessAnswer(c, m).0)
  {
    assert Live(c, c.pending[i].detail);
    hide AllLive, CompleteFindInput, CompleteLocate, TakeData, NextChunk, Truncate;
  }

  lemma ErrorComes(c: Client, m: Msg, i: nat)
    requires AllLive(c) && KnownHandles(c) && FindPending(c.pending, m.seqno) == Some(i)
    requires !Expected(c.pending[i].detail, m)
    ensures ComesAndGoes(c, ProcessAnswer(c, m).0)
  {
    hide AllLive, Expected, CompleteRead, CompleteWrite, CompleteFindInput, CompleteLocate, CompleteExamineNext,
      TranslateError;
  }

  lemma AnswerComes(c: Client, m: Msg, i: nat)
    requires AllLive(c) && KnownHandles(c) && FindPending(c.pending, m.seqno) == Some(i)
    ensures ComesAndGoes(c, ProcessAnswer(c, m).0)
  {
    hide ComesAndGoes, ProcessAnswer;
    if !Expected(c.pending[i].detail, m) {
      ErrorComes(c, m, i);
    } else if HandleOf(c.pending[i].detail).Some? {
      WorkComes(c, m, i);
    } else {
      OpenComes(c, m, i);
    }
  }

  lemma GivenMore(log: seq<Reply>, r: Reply, h: nat)
    ensures GivenTo(log + [r], h) <==> GivenTo(log, h) || Gives(r.what) == Some(h)
    ensures FreedIn(log + [r], h) <==> FreedIn(log, h) || r.what == Freed(h)
  {
    var more := log + [r];
    assert more[|log|] == r && forall k :: 0 <= k < |log| ==> more[k] == log[k];
    if k :| 0 <= k < |log| && Gives(log[k].what) == Some(h) {
      assert Gives(more[k].what) == Some(h);
    }
    if k :| 0 <= k < |log| && log[k].what == Freed(h) {
      assert more[k].what == Freed(h);
    }
  }

  /** Only handles that were once given are known, and only those that were are freed. */
  ghost predicate Accounted(c: Client) {
    && (forall h <- c.handles :: h == 0 || GivenTo(c.log, h))
    && (forall h: nat :: GivenTo(c.log, h) ==> 0 < h < c.next && (h in c.handles <==> !FreedIn(c.log, h)))
    && (forall h: nat :: FreedIn(c.log, h) ==> h < c.next)
  }

  lemma StaysAccounted(c: Client, d: Client)
    requires Accounted(c) && KnownHandles(c) && ComesAndGoes(c, d) && c.next <= d.next
    ensures Accounted(d)
  {
    hide GivenTo, FreedIn;
    if d.log != c.log {
      forall h: nat
        ensures GivenTo(d.log, h) <==> GivenTo(c.log, h) || Gives(d.log[|c.log|].what) == Some(h)
        ensures FreedIn(d.log, h) <==> FreedIn(c.log, h) || d.log[|c.log|].what == Freed(h)
      {
        GivenMore(c.log, d.log[|c.log|], h);
      }
    }
    forall h: nat | GivenTo(d.log, h)
      ensures 0 < h < d.next && (h in d.handles <==> !FreedIn(d.log, h))
    {
    }
  }

  lemma {:induction false} RunAccounted(device: string, w: World, events: seq<Event>, states: seq<State>, n: nat)
    requires IsRun(device, w, events, states) && n < |states| && NoWrap(states[n])
    ensures Accounted(states[n].client)
  {
    hide Accounted, Structure, RepliesConserved, ProcessPacket, ProcessAnswer, Serve, KeepsHandles, ComesAndGoes,
      HandlesMade;
    if n == 0 {
      StartAccounted(device);
    } else {
      var s, e := states[n - 1], events[n - 1];
      assert Next(s, w, e, states[n]);
      SentGrows(s, w, e, states[n]);
      RunMatching(device, w, events, states, n - 1);
      RunAccounted(device, w, events, states, n - 1);
      RunMade(device, w, events, states, n - 1);
      StepKeepsHandles(s, w, e, states[n]);
      var c, d := s.client, states[n].client;
      match e {
        case TakePacket(p) =>
          if p.Free? {
            OneDevice(device, w, events, states, n - 1, p.h);
          }
          PacketComes(c, s.taken, p);
        case ServeNext(_) => NothingComes(c, d);
        case TakeAnswer =>
          AnswerFits(s);
          AnswerComes(c, s.answers[0], FindPending(c.pending, s.answers[0].seqno).value);
      }
      NextGrows(c, d);
      StaysAccounted(c, d);
    }
  }

  lemma StartAccounted(device: string)
    ensures Accounted(StartClient(device))
  {
  }

  lemma NothingComes(c: Client, d: Client)
    requires d.log == c.log && d.handles == c.handles
    ensures ComesAndGoes(c, d)
  {
  }

  lemma NextGrows(c: Client, d: Client)
    requires KeepsHandles(c, d)
    ensures c.next <= d.next
  {
  }

  /** Handle 0 is the only one of the device's kind. */
  lemma OneDevice(device: string, w: World, events: seq<Event>, states: seq<State>, n: nat, h: nat)
    requires IsRun(device, w, events, states) && n < |states| && NoWrap(states[n]) && h in states[n].client.handles
    ensures states[n].client.handles[h].kind == DeviceKind <==> h == 0
  {
    HandlesAreMade(device, w, events, states, n, h);
  }

  /**
   In every run, a handle that a caller was given is there until, and only until,
   its caller has been told that it is freed; and only given handles are there.
   */
  lemma HandlesUntilFreed(device: string, w: World, events: seq<Event>, states: seq<State>, n: nat, h: nat)
    requires IsRun(device, w, events, states) && n < |states| && NoWrap(states[n]) && h != 0
    ensures var c := states[n].client;
      h in c.handles <==> GivenTo(c.log, h) && !FreedIn(c.log, h)
  {
    RunAccounted(device, w, events, states, n);
  }
}
