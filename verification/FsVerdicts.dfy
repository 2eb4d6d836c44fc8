/**
 Why an open succeeds or fails, in every run: what the server found when it
 served the request; and why a read or a listing fails.
 */
module FsVerdicts {
  import opened Base
  import opened RemoteFs
  import opened FsSystem
  import opened FsMatching
  import opened FsOwnership
  import opened FsReplies

  // ---------- opens ----------

  predicate Refuses(r: Reply, path: string, code: int) {
    r.what == Refused(path) && r.res1 == 0 && r.res2 == code
  }

  predicate Grants(r: Reply, path: string, kind: Kind) {
    r.what.Opened? && r.what.target == path && r.what.kind == kind && r.res1 == -1 && r.res2 == 0
  }

  /** The AmigaDOS code for what the operating system gives as its reason: no access, wrong kind of file, failure. */
  predicate ReasonTold(code: nat, res2: int) {
    || (code == 1 && res2 == 202)
    || (code == 3 && res2 == 212)
    || (code == 5 && res2 == 213)
  }

  /**
   What the caller of an open is told: 218 for want of a slot, 205 for a path
   that leads nowhere, 212 for a directory that is opened as a file, the code of
   the operating system's reason, or the file or the lock.
   */
  predicate Verdict(w: World, path: string, full: bool, os: OsResult, asFile: bool, r: Reply) {
    if full then Refuses(r, path, 218)
    else if path !in w then Refuses(r, path, 205)
    else if w[path].DirNode? then if asFile then Refuses(r, path, 212) else Grants(r, path, DirKind)
    else if os.fails then r.what == Refused(path) && r.res1 == 0 && ReasonTold(os.code, r.res2)
    else Grants(r, path, FileKind)
  }

  /** All sixteen slots of the server are owned by handles and by messages under way. */
  ghost predicate AllOwned(s: State) {
    |HandleSlots(s.client.handles) + MessageSlots(Flight(s))| == 16
  }

  /** The answer that the server gives in such a case. */
  predicate AnswerSays(w: World, path: string, full: bool, os: OsResult, a: Msg) {
    if full then a.ErrorAnswer? && a.code == NETERR_TOO_MANY_FILES_OPEN
    else if path !in w then a.ErrorAnswer? && a.code == NETERR_NOT_FOUND
    else if w[path].DirNode? then a.OpenAnswer? && a.isDir
    else if os.fails then a.ErrorAnswer? && a.code == os.code && PosixError(os.code)
    else a.OpenAnswer? && !a.isDir
  }

  lemma ServedSays(s: Server, w: World, m: Msg, os: OsResult)
    requires |s.slots| == MAX_FILE_HANDLES && m.OpenRequest? && PosixError(os.code)
    ensures var a := Serve(s, w, m, os).1;
      a.Some? && AnswerSays(w, m.path, |UsedSlots(s.slots)| == 16, os, a.value)
  {
    FullSet(UsedSlots(s.slots), MAX_FILE_HANDLES);
    NoneFree(s.slots);
    hide FirstFree;
  }

  /** What the client makes of that answer. */
  lemma SaysVerdict(c: Client, w: World, m: Msg, i: nat, full: bool, os: OsResult)
    requires AllLive(c) && FindPending(c.pending, m.seqno) == Some(i) && HandleOf(c.pending[i].detail) == None
    requires AnswerSays(w, c.pending[i].detail.target, full, os, m)
    ensures var d, op := ProcessAnswer(c, m).0, c.pending[i];
      && |d.log| == |c.log| + 1 && d.log == c.log + [d.log[|c.log|]] && d.log[|c.log|].packet == op.packet
      && Verdict(w, op.detail.target, full, os, op.detail.OpeningFile?, d.log[|c.log|])
  {
    hide AllLive, NewHandle;
  }

  /** At step j the server takes the request with this number and path. */
  predicate ServesOpen(events: seq<Event>, states: seq<State>, j: nat, seqno: nat, path: string) {
    && j < |events| && j < |states| && events[j].ServeNext? && states[j].client.out != []
    && states[j].client.out[0] == OpenRequest(seqno, path)
  }

  /** Answer a is that of the request that operation op sent, as step j has served it. */
  ghost predicate JudgedAt(w: World, events: seq<Event>, states: seq<State>, t: nat, j: nat, op: Op, a: Msg)
    requires HandleOf(op.detail) == None
  {
    && WorksForTaken(events, states, t, op) && ServesOpen(events, states, j, op.seqno, op.detail.target)
    && AnswerSays(w, op.detail.target, AllOwned(states[j]), events[j].os, a)
  }

  ghost predicate Judged(w: World, events: seq<Event>, states: seq<State>, n: nat, op: Op, a: Msg)
    requires HandleOf(op.detail) == None
  {
    exists t: nat, j: nat :: t < j < n && JudgedAt(w, events, states, t, j, op, a)
  }

  /** Answer a belongs to the operation, which opens something. */
  predicate Opens(op: Op, a: Msg) {
    HandleOf(op.detail) == None && op.seqno == a.seqno
  }

  /** All answers under way to operations that open something. */
  ghost predicate AllJudged(w: World, events: seq<Event>, states: seq<State>, n: nat, pending: seq<Op>,
                            answers: seq<Msg>) {
    forall i, k :: 0 <= i < |pending| && 0 <= k < |answers| && Opens(pending[i], answers[k]) ==>
      Judged(w, events, states, n, pending[i], answers[k])
  }

  /** Reply r is the verdict on its packet's request, as step j has served it. */
  ghost predicate VerdictAt(w: World, events: seq<Event>, states: seq<State>, t: nat, j: nat, r: Reply)
    requires r.what.Opened? || r.what.Refused?
  {
    && TakesPacket(events, states, t, r.packet) && t < |states|
    && ServesOpen(events, states, j, states[t].sent, r.what.target)
    && Verdict(w, r.what.target, AllOwned(states[j]), events[j].os, events[t].p.FindInput?, r)
  }

  ghost predicate VerdictGiven(w: World, events: seq<Event>, states: seq<State>, n: nat, r: Reply)
    requires r.what.Opened? || r.what.Refused?
  {
    exists t: nat, j: nat :: t < j < n && VerdictAt(w, events, states, t, j, r)
  }

  ghost predicate AllVerdicts(w: World, events: seq<Event>, states: seq<State>, n: nat, log: seq<Reply>) {
    forall k :: 0 <= k < |log| && (log[k].what.Opened? || log[k].what.Refused?) ==>
      VerdictGiven(w, events, states, n, log[k])
  }

  lemma JudgedLater(w: World, events: seq<Event>, states: seq<State>, n: nat, op: Op, a: Msg)
    requires HandleOf(op.detail) == None && Judged(w, events, states, n, op, a)
    ensures Judged(w, events, states, n + 1, op, a)
  {
    hide JudgedAt;
  }

  lemma VerdictLater(w: World, events: seq<Event>, states: seq<State>, n: nat, r: Reply)
    requires (r.what.Opened? || r.what.Refused?) && VerdictGiven(w, events, states, n, r)
    ensures VerdictGiven(w, events, states, n + 1, r)
  {
    hide VerdictAt;
  }

  /** A step that sends no answer, leaves the open operations or begins one, and tells nothing about opens. */
  lemma PacketJudged(w: World, events: seq<Event>, states: seq<State>, n: nat, c: Client, d: Client, answers: seq<Msg>,
                     packet: nat, p: Packet)
    requires AllJudged(w, events, states, n, c.pending, answers) && AllVerdicts(w, events, states, n, c.log)
    requires forall k :: 0 <= k < |answers| ==> answers[k].seqno < c.seqno
    requires RepliesNow(c, d, packet, p) || BeginsWork(c, d, packet, p) || (d.pending == c.pending && d.log == c.log)
    requires d.log != c.log && |d.log| > |c.log| ==> !d.log[|c.log|].what.Opened? && !d.log[|c.log|].what.Refused?
    ensures AllJudged(w, events, states, n + 1, d.pending, answers) && AllVerdicts(w, events, states, n + 1, d.log)
  {
    hide Judged, VerdictGiven, Answers, WorksFor;
    forall i, k | 0 <= i < |d.pending| && 0 <= k < |answers| && Opens(d.pending[i], answers[k])
      ensures Judged(w, events, states, n + 1, d.pending[i], answers[k])
    {
      var i' := if d.pending == c.pending then i else i - 1;
      assert i' >= 0 && d.pending[i] == c.pending[i'];
      JudgedLater(w, events, states, n, c.pending[i'], answers[k]);
    }
    forall k | 0 <= k < |d.log| && (d.log[k].what.Opened? || d.log[k].what.Refused?)
      ensures VerdictGiven(w, events, states, n + 1, d.log[k])
    {
      assert k < |c.log| && d.log[k] == c.log[k];
      VerdictLater(w, events, states, n, c.log[k]);
    }
  }

  /** A packet is never told at once that its path is open or refused. */
  lemma NotAtOnce(c: Client, packet: nat, p: Packet)
    requires Acceptable(c, p)
    ensures var d := ProcessPacket(c, packet, p);
      |d.log| > |c.log| ==> !d.log[|c.log|].what.Opened? && !d.log[|c.log|].what.Refused?
  {
    hide ServeFromBuffer, SeekOffset, Normalize, AfterColon, LastSlash, NewHandle;
  }

  lemma Requested(s: State, i: nat)
    requires Structure(s) && s.client.out != [] && i < |s.client.pending|
    requires !s.client.out[0].CloseRequest? && Opens(s.client.pending[i], s.client.out[0])
    ensures s.client.out[0] == OpenRequest(s.client.pending[i].seqno, s.client.pending[i].detail.target)
  {
    var flight, n := Flight(s), |s.answers|;
    assert flight[n] == s.client.out[0] && !IsAnswer(flight[n]);
    RequestFitsNow(s, i, n);
  }

  lemma ServeJudged(device: string, w: World, events: seq<Event>, states: seq<State>, n: nat)
    requires IsRun(device, w, events, states) && n < |events| && NoWrap(states[n]) && events[n].ServeNext?
    requires AllJudged(w, events, states, n, states[n].client.pending, states[n].answers)
    requires AllTaken(events, states, n, states[n].client)
    ensures AllJudged(w, events, states, n + 1, states[n + 1].client.pending, states[n + 1].answers)
  {
    hide AllTaken, Judged, Structure, Ownership, RepliesConserved, Serve, ProcessPacket, ProcessAnswer, HandleSlots,
      MessageSlots, UsedSlots, Exclusive;
    var s, s' := states[n], states[n + 1];
    assert Next(s, w, events[n], s');
    var c, os := s.client, events[n].os;
    var m := c.out[0];
    RunMatching(device, w, events, states, n);
    SlotOwnership(device, w, events, states, n);
    ServedOne(s, w, os);
    hide IsRun, Next;
    forall i, k | 0 <= i < |c.pending| && 0 <= k < |s'.answers| && Opens(c.pending[i], s'.answers[k])
      ensures Judged(w, events, states, n + 1, c.pending[i], s'.answers[k])
    {
      var op := c.pending[i];
      if k < |s.answers| {
        assert s'.answers[k] == s.answers[k];
        JudgedLater(w, events, states, n, op, s.answers[k]);
      } else {
        Requested(s, i);
        ServedSays(s.server, w, m, os);
        JudgedNow(w, events, states, n, i, s'.answers[k]);
      }
    }
  }

  lemma JudgedNow(w: World, events: seq<Event>, states: seq<State>, n: nat, i: nat, a: Msg)
    requires n < |states| && n < |events| && events[n].ServeNext? && AllTaken(events, states, n, states[n].client)
    requires i < |states[n].client.pending| && Opens(states[n].client.pending[i], a)
    requires var op := states[n].client.pending[i];
      && ServesOpen(events, states, n, op.seqno, op.detail.target)
      && AnswerSays(w, op.detail.target, AllOwned(states[n]), events[n].os, a)
    ensures Judged(w, events, states, n + 1, states[n].client.pending[i], a)
  {
    var op := states[n].client.pending[i];
    assert OpTaken(events, states, n, op);
    var t: nat :| t < n && WorksForTaken(events, states, t, op);
    hide WorksForTaken, AnswerSays, AllOwned;
    assert JudgedAt(w, events, states, t, n, op, a);
  }

  /** The client takes an answer: to an operation that opens something, or to another. */
  lemma AnswerJudged(w: World, events: seq<Event>, states: seq<State>, n: nat, c: Client, d: Client, answers: seq<Msg>,
                     i: nat)
    requires answers != [] && AllLive(c) && FindPending(c.pending, answers[0].seqno) == Some(i)
    requires d == ProcessAnswer(c, answers[0]).0 && forall k :: 0 <= k < |answers| ==> answers[k].seqno < c.seqno
    requires AllJudged(w, events, states, n, c.pending, answers) && AllVerdicts(w, events, states, n, c.log)
    ensures AllJudged(w, events, states, n + 1, d.pending, answers[1..])
    ensures AllVerdicts(w, events, states, n + 1, d.log)
  {
    hide ProcessAnswer, Judged, VerdictGiven;
    AnswerOutcome(c, answers[0], i);
    forall j, k | 0 <= j < |d.pending| && 0 <= k < |answers[1..]| && Opens(d.pending[j], answers[1..][k])
      ensures Judged(w, events, states, n + 1, d.pending[j], answers[1..][k])
    {
      var j' := if |d.pending| == |c.pending| || j < i then j else j + 1;
      assert d.pending[j] == c.pending[j'] && answers[1..][k] == answers[k + 1];
      JudgedLater(w, events, states, n, c.pending[j'], answers[k + 1]);
    }
    if d.log != c.log {
      NewVerdict(w, events, states, n, c, d, answers[0], i);
    }
    forall k | 0 <= k < |d.log| && (d.log[k].what.Opened? || d.log[k].what.Refused?)
      ensures VerdictGiven(w, events, states, n + 1, d.log[k])
    {
      if k < |c.log| {
        assert d.log[k] == c.log[k];
        VerdictLater(w, events, states, n, c.log[k]);
      }
    }
  }

  lemma NewVerdict(w: World, events: seq<Event>, states: seq<State>, n: nat, c: Client, d: Client, m: Msg, i: nat)
    requires AllLive(c) && FindPending(c.pending, m.seqno) == Some(i) && d == ProcessAnswer(c, m).0
    requires EndsWork(c, d, i)
    requires HandleOf(c.pending[i].detail) == None ==> Judged(w, events, states, n, c.pending[i], m)
    ensures var r := d.log[|c.log|];
      r.what.Opened? || r.what.Refused? ==> VerdictGiven(w, events, states, n + 1, r)
  {
    hide ProcessAnswer;
    var op, r := c.pending[i], d.log[|c.log|];
    if HandleOf(op.detail) == None {
      var t: nat, j: nat :| t < j < n && JudgedAt(w, events, states, t, j, op, m);
      SaysVerdict(c, w, m, i, AllOwned(states[j]), events[j].os);
      OpenerIsFile(states[t].client, events[t].p, op.detail);
      hide AllOwned, WorksFor, AnswerSays, AllLive, Judged;
      assert r.what.target == op.detail.target;
      assert VerdictAt(w, events, states, t, j, r);
    }
  }

  lemma OpenerIsFile(c: Client, p: Packet, d: Detail)
    requires WorksFor(c, p, d) && HandleOf(d) == None
    ensures p.FindInput? <==> d.OpeningFile?
  {
    hide AsksFile, AsksObject;
  }

  lemma {:induction false} RunJudged(device: string, w: World, events: seq<Event>, states: seq<State>, n: nat)
    requires IsRun(device, w, events, states) && n < |states| && NoWrap(states[n])
    ensures AllJudged(w, events, states, n, states[n].client.pending, states[n].answers)
    ensures AllVerdicts(w, events, states, n, states[n].client.log)
  {
    hide AllJudged, AllVerdicts, AllTaken, Structure, RepliesConserved, ProcessPacket, ProcessAnswer, Serve, RepliesNow,
      BeginsWork;
    if n == 0 {
      NothingJudged(w, events, states);
    } else {
      var s, e := states[n - 1], events[n - 1];
      assert Next(s, w, e, states[n]);
      SentGrows(s, w, e, states[n]);
      RunMatching(device, w, events, states, n - 1);
      RunJudged(device, w, events, states, n - 1);
      RunTaken(device, w, events, states, n - 1);
      NumbersPassed(s);
      var c, d := s.client, states[n].client;
      match e
      case TakePacket(p) =>
        if p.Die? {
          DieDoes(c, s.taken);
        } else {
          PacketOutcome(c, s.taken, p);
        }
        NotAtOnce(c, s.taken, p);
        PacketJudged(w, events, states, n - 1, c, d, s.answers, s.taken, p);
      case ServeNext(_) =>
        ServeJudged(device, w, events, states, n - 1);
        VerdictsLater(w, events, states, n - 1, c.log);
      case TakeAnswer =>
        AnswerFits(s);
        AnswerJudged(w, events, states, n - 1, c, d, s.answers, FindPending(c.pending, s.answers[0].seqno).value);
    }
  }

  lemma NothingJudged(w: World, events: seq<Event>, states: seq<State>)
    ensures AllJudged(w, events, states, 0, [], []) && AllVerdicts(w, events, states, 0, [])
  {
  }

  lemma VerdictsLater(w: World, events: seq<Event>, states: seq<State>, n: nat, log: seq<Reply>)
    requires AllVerdicts(w, events, states, n, log)
    ensures AllVerdicts(w, events, states, n + 1, log)
  {
    forall k | 0 <= k < |log| && (log[k].what.Opened? || log[k].what.Refused?)
      ensures VerdictGiven(w, events, states, n + 1, log[k])
    {
      VerdictLater(w, events, states, n, log[k]);
    }
  }

  /** The reply names the path that the packet asked for, and tells what the server found at step j. */
  ghost predicate IsVerdict(w: World, events: seq<Event>, states: seq<State>, t: nat, j: nat, r: Reply)
    requires t < |events| && t < |states| && j < |events| && j < |states| && events[t].TakePacket?
  {
    && (r.what.Opened? || r.what.Refused?)
    && events[j].ServeNext? && states[j].client.out != []
    && states[j].client.out[0] == OpenRequest(states[t].sent, r.what.target)
    && Verdict(w, r.what.target, AllOwned(states[j]), events[j].os, events[t].p.FindInput?, r)
  }

  /**
   In every run, the reply to an open names the path that the packet asked for,
   and is the verdict on it at the one later step where the server takes the
   request that the packet sent: 218 if and only if all sixteen slots are owned
   then; else 205 if there is nothing at the path, 212 for a directory opened as
   a file, and the one code of the operating system's reason, if it refuses; and
   in all other cases the file or the lock.
   */
  lemma OpenVerdict(device: string, w: World, events: seq<Event>, states: seq<State>, t: nat, n: nat, k: nat)
    requires IsRun(device, w, events, states) && t < n < |states| && NoWrap(states[n]) && events[t].TakePacket?
    requires events[t].p.FindInput? || events[t].p.Locate?
    requires k < |states[n].client.log| && states[n].client.log[k].packet == states[t].taken
    ensures var r := states[n].client.log[k];
      && Answers(states[t].client, events[t].p, r)
      && (r.what.InputOpened? || r.what.RootGiven?
          || exists j: nat :: t < j < n && IsVerdict(w, events, states, t, j, r))
  {
    RepliesFit(device, w, events, states, t, n, k);
    RunJudged(device, w, events, states, n);
    hide AsksFile, AsksObject, Verdict, AllOwned, Next;
    var r := states[n].client.log[k];
    if r.what.Opened? || r.what.Refused? {
      assert VerdictGiven(w, events, states, n, r);
      var u: nat, j: nat :| u < j < n && VerdictAt(w, events, states, u, j, r);
      OneTaker(device, w, events, states, t, u, r.packet);
      assert IsVerdict(w, events, states, t, j, r);
    }
  }
}
