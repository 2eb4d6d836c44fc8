/**
 Which operations on handles can succeed, and with which code the others fail:
 only files are read, and only directories are listed.
 */
module FsFailures {
  import opened Base
  import opened RemoteFs
  import opened FsSystem
  import opened FsMatching
  import opened FsOwnership
  import opened Reference
  import opened FsContent
  import opened FsRefinement
  import opened FsReplies

  predicate OpenFile(hd: Handle) {
    hd.kind == FileKind && hd.id < MAX_FILE_HANDLES
  }

  /** The root, also as a parent, or a directory of its own. */
  predicate OpenDir(hd: Handle) {
    hd.id == ROOT_ID || (hd.kind == DirKind && hd.id < MAX_FILE_HANDLES)
  }

  /** Answers that operation d on handle hd may get. */
  predicate AnswerFor(hd: Handle, d: Detail, m: Msg) {
    match d
    case Reading(_, _, _) =>
      && (m.ReadAnswer? ==> OpenFile(hd))
      && (m.ErrorAnswer? ==>
            m.code == if hd.id == ROOT_ID || hd.id == VIRTUAL_INPUT_ID then NETERR_NOT_A_FILE else NETERR_IO_ERROR)
    case Writing(_, _, _, _) => !m.ErrorAnswer?
    case Enumerating(_) =>
      && (m.FindNextAnswer? ==> OpenDir(hd))
      && (m.ErrorAnswer? ==> m.code == if OpenDir(hd) then NETERR_IO_ERROR else NETERR_NOT_A_DIRECTORY)
    case _ => true
  }

  /**
   What the caller of an operation on a handle may be told. A read of anything
   but a file fails at once and brings nothing; a listing of anything but a
   directory fails; and failures have these codes and no others.
   */
  predicate OutcomeFor(hd: Handle, r: Reply) {
    match r.what
    case GotData(_, _, data, ok) =>
      && (!OpenFile(hd) ==> !ok && data == [])
      && (!ok ==> r.res1 == 0 && r.res2 == if hd.id == ROOT_ID || hd.id == VIRTUAL_INPUT_ID then 212 else 213)
    case Wrote(_, _, ok) => ok
    case ListFailed(_) => r.res1 == 0 && r.res2 == if OpenDir(hd) then 213 else 212
    case Listed(_, _, _, _) => OpenDir(hd)
    case ListEnd(_) => OpenDir(hd)
    case _ => true
  }

  /** The handle whose operation the reply ends. */
  function WorkedOn(what: What): Option<nat> {
    match what
    case GotData(h, _, _, _) => Some(h)
    case Wrote(h, _, _) => Some(h)
    case Listed(h, _, _, _) => Some(h)
    case ListFailed(h) => Some(h)
    case ListEnd(h) => Some(h)
    case _ => None
  }

  // ---------- the invariant ----------

  predicate AnswersFor(c: Client, i: nat, answers: seq<Msg>)
    requires i < |c.pending|
  {
    HandleOf(c.pending[i].detail).Some? ==>
      && HandleOf(c.pending[i].detail).value in c.handles
      && var hd := c.handles[HandleOf(c.pending[i].detail).value];
      && (c.pending[i].detail.Reading? && !OpenFile(hd) ==> c.pending[i].detail.got == [])
      && forall k :: 0 <= k < |answers| && answers[k].seqno == c.pending[i].seqno ==>
           AnswerFor(hd, c.pending[i].detail, answers[k])
  }

  ghost predicate AllFor(c: Client, answers: seq<Msg>) {
    && (forall i :: 0 <= i < |c.pending| ==> AnswersFor(c, i, answers))
    && (forall h <- c.handles :: !OpenFile(c.handles[h]) ==> c.handles[h].buffer == [])
  }

  predicate RootQuiet(s: Server) {
    s.root.fd == 0 && s.root.isDir
  }

  // ---------- packets ----------

  /** A handle that is no file has nothing in its buffer, so a read of it asks the server. */
  lemma NothingBuffered(hd: Handle, count: nat)
    requires hd.buffer == []
    ensures ServeFromBuffer(hd, count) == (hd, [], false)
  {
  }

  lemma PacketBuffers(c: Client, packet: nat, p: Packet, h: nat)
    requires Acceptable(c, p)
    requires c.next !in c.handles
    ensures var d := ProcessPacket(c, packet, p);
      h in d.handles ==> d.handles[h].buffer == if h in c.handles then c.handles[h].buffer else []
  {
    hide BufferOverlap, SeekOffset, Normalize, AfterColon, LastSlash, Truncate;
  }

  /** The reply is about no operation on a handle, or is a read of a file that the buffer has served. */
  predicate ServedRead(c: Client, p: Packet, r: Reply) {
    WorkedOn(r.what).Some? ==>
      p.Read? && p.h in c.handles && OpenFile(c.handles[p.h]) && r.what.GotData? && r.what.h == p.h && r.what.ok
  }

  /** A read that begins has nothing yet, unless its handle is a file. */
  predicate BeginsEmpty(c: Client, d: Client) {
    d.pending != c.pending ==>
      && d.pending != [] && d.pending[1..] == c.pending && d.pending[0].seqno == c.seqno
      && var begun := d.pending[0].detail;
      (begun.Reading? && begun.h in c.handles && !OpenFile(c.handles[begun.h]) ==> begun.got == [])
  }

  lemma PacketReads(c: Client, packet: nat, p: Packet)
    requires Acceptable(c, p)
    requires p.Read? && !OpenFile(c.handles[p.h]) ==> c.handles[p.h].buffer == []
    ensures var d := ProcessPacket(c, packet, p);
      && BeginsEmpty(c, d)
      && (d.log == c.log || (|d.log| == |c.log| + 1 && d.log == c.log + [d.log[|c.log|]]
                             && ServedRead(c, p, d.log[|c.log|])))
  {
    if p.Read? && !OpenFile(c.handles[p.h]) {
      NothingBuffered(c.handles[p.h], p.count);
    }
    hide ServeFromBuffer, SeekOffset, Normalize, AfterColon, LastSlash, NewHandle;
    var d := ProcessPacket(c, packet, p);
    assert d.pending != c.pending ==> d.pending[1..] == c.pending;
  }

  lemma SameOpen(hd: Handle, hd': Handle, d: Detail, m: Msg)
    requires SameMake(hd, hd')
    ensures OpenFile(hd') == OpenFile(hd) && OpenDir(hd') == OpenDir(hd)
    ensures AnswerFor(hd', d, m) == AnswerFor(hd, d, m)
  {
  }

  /** An operation that stays gets the answers that it got before. */
  lemma StaysFor(c: Client, d: Client, i: nat, j: nat, answers: seq<Msg>, answers': seq<Msg>)
    requires i < |c.pending| && j < |d.pending| && d.pending[j] == c.pending[i] && AnswersFor(c, i, answers)
    requires KeepsHandles(c, d) && KnownHandles(c) && AllLive(c) && AllLive(d)
    requires forall k :: 0 <= k < |answers'| ==> answers'[k] in answers
    ensures AnswersFor(d, j, answers')
  {
    var op := c.pending[i];
    assert Live(c, op.detail) && Live(d, d.pending[j].detail);
    if HandleOf(op.detail).Some? {
      var h := HandleOf(op.detail).value;
      hide AnswerFor, OpenFile, OpenDir;
      forall m: Msg
        ensures AnswerFor(d.handles[h], op.detail, m) == AnswerFor(c.handles[h], op.detail, m)
        ensures OpenFile(d.handles[h]) == OpenFile(c.handles[h])
      {
        SameOpen(c.handles[h], d.handles[h], op.detail, m);
      }
      forall k | 0 <= k < |answers'| && answers'[k].seqno == op.seqno
        ensures AnswerFor(d.handles[h], op.detail, answers'[k])
      {
        var l :| 0 <= l < |answers| && answers[l] == answers'[k];
      }
    }
  }

  lemma PacketFor(c: Client, d: Client, packet: nat, p: Packet, answers: seq<Msg>)
    requires AllFor(c, answers) && Acceptable(c, p) && d == ProcessPacket(c, packet, p)
    requires KeepsHandles(c, d) && KnownHandles(c) && AllLive(c) && AllLive(d)
    requires forall k :: 0 <= k < |answers| ==> answers[k].seqno < c.seqno
    ensures AllFor(d, answers)
  {
    PacketReads(c, packet, p);
    BegunLive(c, d);
    hide ProcessPacket, AllLive, AnswersFor, Acceptable, ServedRead;
    forall j | 0 <= j < |d.pending|
      ensures AnswersFor(d, j, answers)
    {
      if d.pending == c.pending {
        StaysFor(c, d, j, j, answers, answers);
      } else if j > 0 {
        assert d.pending[j] == c.pending[j - 1];
        StaysFor(c, d, j - 1, j, answers, answers);
      } else {
        BegunFor(c, d, answers);
      }
    }
    forall h | h in d.handles && !OpenFile(d.handles[h])
      ensures d.handles[h].buffer == []
    {
      PacketBuffers(c, packet, p, h);
    }
  }

  lemma BegunLive(c: Client, d: Client)
    requires BeginsEmpty(c, d) && KeepsHandles(c, d) && KnownHandles(c) && AllLive(d)
    ensures d.pending != c.pending && d.pending[0].detail.Reading? ==> d.pending[0].detail.h in d.handles
  {
    assert d.pending != c.pending ==> Live(d, d.pending[0].detail);
  }

  lemma BegunFor(c: Client, d: Client, answers: seq<Msg>)
    requires BeginsEmpty(c, d) && d.pending != c.pending && KeepsHandles(c, d) && KnownHandles(c) && AllLive(d)
    requires d.pending[0].detail.Reading? ==> d.pending[0].detail.h < c.next
    requires forall k :: 0 <= k < |answers| ==> answers[k].seqno < c.seqno
    ensures AnswersFor(d, 0, answers)
  {
    assert Live(d, d.pending[0].detail);
    hide AnswerFor;
  }

  // ---------- the server ----------

  lemma ReadFor(s: Server, w: World, m: Msg, os: OsResult, hd: Handle)
    requires m.ReadRequest? && m.handle == hd.id && IdOk(hd.id) && |s.slots| == MAX_FILE_HANDLES && RootQuiet(s)
    requires hd.id < MAX_FILE_HANDLES ==>
      s.slots[hd.id].fd != 0 && (hd.kind != FileKind ==> s.slots[hd.id].fd == -1)
    ensures var a := ServeRead(s, w, m, os);
      && (a.ReadAnswer? ==> OpenFile(hd))
      && (a.ErrorAnswer? ==>
            a.code == if hd.id == ROOT_ID || hd.id == VIRTUAL_INPUT_ID then NETERR_NOT_A_FILE else NETERR_IO_ERROR)
  {
  }

  lemma ListFor(s: Server, w: World, m: Msg, hd: Handle)
    requires m.FindNextRequest? && m.handle == hd.id && IdOk(hd.id) && |s.slots| == MAX_FILE_HANDLES && RootQuiet(s)
    requires hd.id < MAX_FILE_HANDLES ==> (s.slots[hd.id].isDir <==> hd.kind == DirKind)
    ensures var a := ServeFindNext(s, w, m).1;
      && (a.FindNextAnswer? ==> OpenDir(hd))
      && (a.ErrorAnswer? ==> a.code == if OpenDir(hd) then NETERR_IO_ERROR else NETERR_NOT_A_DIRECTORY)
  {
  }

  /** What the slot of a handle shows. */
  lemma SlotKind(s: State, w: World, h: nat)
    requires Structure(s) && Content(s, w) && h in s.client.handles && s.client.handles[h].id < MAX_FILE_HANDLES
    ensures var hd, slots := s.client.handles[h], s.server.slots;
      && |slots| == MAX_FILE_HANDLES && slots[hd.id].fd != 0
      && (hd.kind != FileKind ==> slots[hd.id].fd == -1) && (slots[hd.id].isDir <==> hd.kind == DirKind)
  {
    assert |s.server.slots| == MAX_FILE_HANDLES;
    ContentAt(s, w, h);
    hide Content, Good, WorkOn, Structure, FileGood, DirGood;
  }

  lemma ServedFor(s: State, w: World, os: OsResult, i: nat, h: nat)
    requires Structure(s) && Content(s, w) && RootQuiet(s.server) && s.client.out != [] && i < |s.client.pending|
    requires HandleOf(s.client.pending[i].detail) == Some(h) && h in s.client.handles
    requires Belongs(s.client.out[0], s.client.pending[i])
    ensures var a := Serve(s.server, w, s.client.out[0], os).1;
      a.Some? ==> AnswerFor(s.client.handles[h], s.client.pending[i].detail, a.value)
  {
    var m, hd := s.client.out[0], s.client.handles[h];
    var flight, n := Flight(s), |s.answers|;
    assert flight[n] == m && !IsAnswer(m);
    assert IdOk(hd.id) && |s.server.slots| == MAX_FILE_HANDLES;
    RequestFitsNow(s, i, n);
    if hd.id < MAX_FILE_HANDLES {
      SlotKind(s, w, h);
    }
    hide Structure, Content, ServeRead, ServeFindNext;
    match s.client.pending[i].detail
    case Reading(_, _, _) => ReadFor(s.server, w, m, os, hd);
    case Enumerating(_) => ListFor(s.server, w, m, hd);
    case Writing(_, _, _, _) =>
  }

  lemma ServeFor(s: State, w: World, os: OsResult)
    requires Structure(s) && Content(s, w) && RootQuiet(s.server) && Enabled(s, ServeNext(os))
    requires AllFor(s.client, s.answers)
    ensures var s' := Step(s, w, ServeNext(os)); AllFor(s'.client, s'.answers)
  {
    var s' := Step(s, w, ServeNext(os));
    var c, m, a := s.client, s.client.out[0], Serve(s.server, w, s.client.out[0], os).1;
    ServedOne(s, w, os);
    if m.CloseRequest? {
      CloseIsUnanswered(s, w, os);
    }
    assert AllLive(c);
    hide Step, Structure, Content, Serve, AllLive, AnswerFor, OpenFile;
    forall i | 0 <= i < |c.pending|
      ensures AnswersFor(s'.client, i, s'.answers)
    {
      assert AnswersFor(c, i, s.answers);
      if HandleOf(c.pending[i].detail).Some? && Belongs(m, c.pending[i]) {
        ServedFor(s, w, os, i, HandleOf(c.pending[i].detail).value);
      }
    }
  }

  lemma CloseIsUnanswered(s: State, w: World, os: OsResult)
    requires Structure(s) && Enabled(s, ServeNext(os)) && s.client.out[0].CloseRequest?
    ensures Serve(s.server, w, s.client.out[0], os).1 == None
  {
    assert Flight(s)[|s.answers|] == s.client.out[0] && |s.server.slots| == MAX_FILE_HANDLES;
    CloseIsQuiet(s.server, w, s.client.out[0], os);
  }

  lemma ServeQuiet(s: Server, w: World, m: Msg, os: OsResult)
    requires RootQuiet(s)
    ensures RootQuiet(Serve(s, w, m, os).0)
  {
  }

  // ---------- the client takes an answer ----------

  lemma AnswerBuffers(c: Client, m: Msg, i: nat, h: nat)
    requires AllLive(c) && FindPending(c.pending, m.seqno) == Some(i) && c.next !in c.handles
    ensures var d := ProcessAnswer(c, m).0;
      && (h in d.handles && h !in c.handles ==> d.handles[h].buffer == [])
      && (h in d.handles && h in c.handles && !(m.ReadAnswer? && HandleOf(c.pending[i].detail) == Some(h)) ==>
            d.handles[h].buffer == c.handles[h].buffer)
  {
    assert Live(c, c.pending[i].detail);
    hide AllLive, TakeData, NextChunk, Truncate, TranslateError;
  }

  /** How an operation ends is what its handle allows. */
  lemma EndOutcome(c: Client, m: Msg, i: nat, h: nat)
    requires AllLive(c) && FindPending(c.pending, m.seqno) == Some(i) && HandleOf(c.pending[i].detail) == Some(h)
    requires h in c.handles && AnswerFor(c.handles[h], c.pending[i].detail, m)
    requires m.ErrorAnswer? || Expected(c.pending[i].detail, m)
    requires c.pending[i].detail.Reading? && !OpenFile(c.handles[h]) ==> c.pending[i].detail.got == []
    ensures var d := ProcessAnswer(c, m).0;
      |d.log| == |c.log| + 1 ==> WorkedOn(d.log[|c.log|].what) == Some(h) && OutcomeFor(c.handles[h], d.log[|c.log|])
  {
    hide AllLive, TakeData, NextChunk, Truncate;
  }

  /** Operations that open something end with a reply about no operation on a handle. */
  lemma OpeningOutcome(c: Client, m: Msg, i: nat)
    requires AllLive(c) && FindPending(c.pending, m.seqno) == Some(i) && HandleOf(c.pending[i].detail) == None
    ensures var d := ProcessAnswer(c, m).0;
      |d.log| == |c.log| + 1 ==> WorkedOn(d.log[|c.log|].what) == None
  {
    hide AllLive, NewHandle;
  }

  /** The operation that is at place j afterwards gets the answers that it may get. */
  lemma OneFor(c: Client, d: Client, answers: seq<Msg>, i: nat, j: nat)
    requires i < |c.pending| && j < |d.pending| && (EndsWork(c, d, i) || ContinuesWork(c, d, i)) && answers != []
    requires !(ContinuesWork(c, d, i) && j == i)
    requires forall k :: 0 <= k < |c.pending| ==> AnswersFor(c, k, answers)
    requires KeepsHandles(c, d) && KnownHandles(c) && AllLive(c) && AllLive(d)
    ensures AnswersFor(d, j, answers[1..])
  {
    hide AllLive, AnswersFor, KeepsHandles, KnownHandles, GoesOn, Concludes;
    var j' := if ContinuesWork(c, d, i) || j < i then j else j + 1;
    assert d.pending[j] == c.pending[j'];
    assert forall k :: 0 <= k < |answers[1..]| ==> answers[1..][k] == answers[k + 1];
    StaysFor(c, d, j', j, answers, answers[1..]);
  }

  lemma TakeFor(c: Client, d: Client, answers: seq<Msg>, i: nat)
    requires AllFor(c, answers) && answers != [] && FindPending(c.pending, answers[0].seqno) == Some(i)
    requires AllLive(c) && d == ProcessAnswer(c, answers[0]).0
    requires answers[0].ErrorAnswer? || Expected(c.pending[i].detail, answers[0])
    requires KeepsHandles(c, d) && KnownHandles(c) && AllLive(d)
    requires forall k :: 0 <= k < |answers| ==> answers[k].seqno < c.seqno
    ensures AllFor(d, answers[1..])
  {
    AnswerOutcome(c, answers[0], i);
    hide ProcessAnswer, AllLive, AnswersFor, OpenFile, KeepsHandles, KnownHandles, Expected, EndsWork;
    forall j | 0 <= j < |d.pending|
      ensures AnswersFor(d, j, answers[1..])
    {
      if ContinuesWork(c, d, i) && j == i {
        OnwardFor(c, d, i, answers);
      } else {
        OneFor(c, d, answers, i, j);
      }
    }
    TakeBuffers(c, d, answers, i);
  }

  lemma TakeBuffers(c: Client, d: Client, answers: seq<Msg>, i: nat)
    requires AllFor(c, answers) && answers != [] && FindPending(c.pending, answers[0].seqno) == Some(i)
    requires AllLive(c) && d == ProcessAnswer(c, answers[0]).0
    requires answers[0].ErrorAnswer? || Expected(c.pending[i].detail, answers[0])
    requires KeepsHandles(c, d) && KnownHandles(c)
    ensures forall h | h in d.handles && !OpenFile(d.handles[h]) :: d.handles[h].buffer == []
  {
    assert AnswersFor(c, i, answers);
    hide ProcessAnswer, AllLive, AnswersFor;
    forall h | h in d.handles && !OpenFile(d.handles[h])
      ensures d.handles[h].buffer == []
    {
      AnswerBuffers(c, answers[0], i, h);
      assert h in c.handles ==> OpenFile(c.handles[h]) == OpenFile(d.handles[h]);
      FileAnswered(c, i, answers, h);
    }
  }

  /** Data comes only for files. */
  lemma FileAnswered(c: Client, i: nat, answers: seq<Msg>, h: nat)
    requires i < |c.pending| && AnswersFor(c, i, answers) && answers != []
    requires FindPending(c.pending, answers[0].seqno) == Some(i)
    requires answers[0].ErrorAnswer? || Expected(c.pending[i].detail, answers[0])
    ensures answers[0].ReadAnswer? && HandleOf(c.pending[i].detail) == Some(h) && h in c.handles ==>
      OpenFile(c.handles[h])
  {
    if answers[0].ReadAnswer? && HandleOf(c.pending[i].detail) == Some(h) && h in c.handles {
      assert AnswerFor(c.handles[h], c.pending[i].detail, answers[0]);
    }
  }

  lemma OnwardFor(c: Client, d: Client, i: nat, answers: seq<Msg>)
    requires i < |c.pending| && AnswersFor(c, i, answers) && answers != [] && ContinuesWork(c, d, i)
    requires AllLive(c) && FindPending(c.pending, answers[0].seqno) == Some(i) && d == ProcessAnswer(c, answers[0]).0
    requires answers[0].ErrorAnswer? || Expected(c.pending[i].detail, answers[0])
    requires KeepsHandles(c, d) && KnownHandles(c) && AllLive(d)
    requires forall k :: 0 <= k < |answers| ==> answers[k].seqno < c.seqno
    ensures AnswersFor(d, i, answers[1..])
  {
    assert Live(c, c.pending[i].detail) && Live(d, d.pending[i].detail);
    var h := HandleOf(c.pending[i].detail).value;
    assert HandleOf(d.pending[i].detail) == Some(h);
    ErrorEnds(c, answers[0], i);
    hide ProcessAnswer, AllLive, AnswerFor;
    FileAnswered(c, i, answers, h);
    assert OpenFile(d.handles[h]) == OpenFile(c.handles[h]);
  }

  lemma ErrorEnds(c: Client, m: Msg, i: nat)
    requires AllLive(c) && FindPending(c.pending, m.seqno) == Some(i) && ContinuesWork(c, ProcessAnswer(c, m).0, i)
    ensures !m.ErrorAnswer?
  {
    hide AllLive, TakeData, NextChunk, NewHandle, Truncate, TranslateError;
  }

  // ---------- runs ----------

  /** The reply was given where handle h was such that it allows it. */
  ghost predicate HadOutcome(states: seq<State>, n: nat, r: Reply, h: nat) {
    exists j: nat :: j < n && j < |states| && h in states[j].client.handles
      && OutcomeFor(states[j].client.handles[h], r)
  }

  ghost predicate AllOutcomes(states: seq<State>, n: nat, log: seq<Reply>) {
    forall k :: 0 <= k < |log| && WorkedOn(log[k].what).Some? ==>
      HadOutcome(states, n, log[k], WorkedOn(log[k].what).value)
  }

  lemma OutcomesLater(states: seq<State>, n: nat, log: seq<Reply>)
    requires AllOutcomes(states, n, log)
    ensures AllOutcomes(states, n + 1, log)
  {
    forall k | 0 <= k < |log| && WorkedOn(log[k].what).Some?
      ensures HadOutcome(states, n + 1, log[k], WorkedOn(log[k].what).value)
    {
      var h := WorkedOn(log[k].what).value;
      assert HadOutcome(states, n, log[k], h);
      hide OutcomeFor;
    }
  }

  lemma OutcomeNow(states: seq<State>, n: nat, c: Client, d: Client)
    requires n < |states| && states[n].client == c && AllOutcomes(states, n, c.log)
    requires |d.log| == |c.log| + 1 && d.log == c.log + [d.log[|c.log|]]
    requires var r := d.log[|c.log|];
      WorkedOn(r.what).Some? ==> WorkedOn(r.what).value in c.handles && OutcomeFor(c.handles[WorkedOn(r.what).value], r)
    ensures AllOutcomes(states, n + 1, d.log)
  {
    OutcomesLater(states, n, c.log);
    var r := d.log[|c.log|];
    if WorkedOn(r.what).Some? {
      assert HadOutcome(states, n + 1, r, WorkedOn(r.what).value);
    }
    hide HadOutcome, OutcomeFor;
    assert forall k :: 0 <= k < |c.log| ==> d.log[k] == c.log[k];
  }

  lemma PacketOutcomes(states: seq<State>, n: nat, c: Client, d: Client, packet: nat, p: Packet)
    requires n < |states| && states[n].client == c && AllOutcomes(states, n, c.log)
    requires Acceptable(c, p) && d == ProcessPacket(c, packet, p)
    requires forall h <- c.handles :: !OpenFile(c.handles[h]) ==> c.handles[h].buffer == []
    ensures AllOutcomes(states, n + 1, d.log)
  {
    hide ProcessPacket, HadOutcome;
    PacketReads(c, packet, p);
    if d.log == c.log {
      OutcomesLater(states, n, c.log);
    } else {
      OutcomeNow(states, n, c, d);
    }
  }

  lemma AnswerOutcomes(states: seq<State>, n: nat, c: Client, d: Client, answers: seq<Msg>, i: nat)
    requires n < |states| && states[n].client == c && AllOutcomes(states, n, c.log)
    requires AllFor(c, answers) && answers != [] && FindPending(c.pending, answers[0].seqno) == Some(i)
    requires AllLive(c) && d == ProcessAnswer(c, answers[0]).0
    requires answers[0].ErrorAnswer? || Expected(c.pending[i].detail, answers[0])
    ensures AllOutcomes(states, n + 1, d.log)
  {
    hide ProcessAnswer, HadOutcome;
    AnswerOutcome(c, answers[0], i);
    if d.log == c.log {
      OutcomesLater(states, n, c.log);
    } else {
      assert AnswersFor(c, i, answers);
      if HandleOf(c.pending[i].detail).Some? {
        EndOutcome(c, answers[0], i, HandleOf(c.pending[i].detail).value);
      } else {
        OpeningOutcome(c, answers[0], i);
      }
      hide OutcomeFor, AllOutcomes, AllFor, AnswersFor;
      OutcomeNow(states, n, c, d);
    }
  }

  lemma {:induction false} RunFor(device: string, w: World, events: seq<Event>, states: seq<State>, n: nat)
    requires IsRun(device, w, events, states) && n < |states| && NoWrap(states[n]) && WorldOk(w)
    ensures AllFor(states[n].client, states[n].answers) && RootQuiet(states[n].server)
    ensures AllOutcomes(states, n, states[n].client.log)
  {
    hide AllFor, AllOutcomes, Structure, RepliesConserved, Content, KeepsHandles, ProcessPacket, ProcessAnswer, Serve,
      RootQuiet, WorldOk;
    if n == 0 {
      StartFor(device, states);
    } else {
      var s, e := states[n - 1], events[n - 1];
      assert Next(s, w, e, states[n]);
      SentGrows(s, w, e, states[n]);
      RunMatching(device, w, events, states, n - 1);
      RunMatching(device, w, events, states, n);
      RunContent(device, w, events, states, n - 1);
      RunFor(device, w, events, states, n - 1);
      StepKeepsHandles(s, w, e, states[n]);
      StepFor(w, events, states, n - 1);
    }
  }

  lemma StartFor(device: string, states: seq<State>)
    ensures AllFor(StartClient(device), []) && RootQuiet(IdleServer()) && AllOutcomes(states, 0, [])
  {
  }

  lemma StepFor(w: World, events: seq<Event>, states: seq<State>, n: nat)
    requires n < |events| && n + 1 < |states| && Next(states[n], w, events[n], states[n + 1])
    requires Structure(states[n]) && Structure(states[n + 1]) && Content(states[n], w)
    requires NoWrap(states[n]) && KeepsHandles(states[n].client, states[n + 1].client)
    requires AllFor(states[n].client, states[n].answers) && RootQuiet(states[n].server)
    requires AllOutcomes(states, n, states[n].client.log)
    ensures AllFor(states[n + 1].client, states[n + 1].answers) && RootQuiet(states[n + 1].server)
    ensures AllOutcomes(states, n + 1, states[n + 1].client.log)
  {
    var s, s' := states[n], states[n + 1];
    var c, d := s.client, s'.client;
    NumbersPassed(s);
    NumbersPassed(s');
    KnownKeeps(s);
    match events[n]
    case TakePacket(p) =>
      assert s'.answers == s.answers && s'.server == s.server && d == ProcessPacket(c, s.taken, p) && Acceptable(c, p);
      hide Next, Structure, Content, ProcessPacket, AllOutcomes, AnswersFor, KeepsHandles, RootQuiet;
      PacketFor(c, d, s.taken, p, s.answers);
      PacketOutcomes(states, n, c, d, s.taken, p);
    case ServeNext(os) =>
      assert s' == Step(s, w, ServeNext(os)) && Enabled(s, ServeNext(os)) && d.log == c.log;
      assert s'.server == Serve(s.server, w, c.out[0], os).0;
      hide Next, Structure, Content, Step, AllOutcomes, AllFor, KeepsHandles, RootQuiet, Serve;
      ServeFor(s, w, os);
      ServeQuiet(s.server, w, c.out[0], os);
      OutcomesLater(states, n, c.log);
    case TakeAnswer =>
      AnswerFits(s);
      var i := FindPending(c.pending, s.answers[0].seqno).value;
      assert s'.answers == s.answers[1..] && s'.server == s.server && d == ProcessAnswer(c, s.answers[0]).0;
      hide Next, Structure, Content, ProcessAnswer, AllOutcomes, AllFor, KeepsHandles, RootQuiet;
      TakeFor(c, d, s.answers, i);
      AnswerOutcomes(states, n, c, d, s.answers, i);
  }

  /**
   In every run, what a caller is told of an operation on a handle is what the
   handle allows: only files are read and only directories listed; a failed read
   is told 212 on the root and the virtual input and 213 otherwise, a failed
   listing 213 on a directory and 212 otherwise, and no write fails.
   */
  lemma OutcomesFit(device: string, w: World, events: seq<Event>, states: seq<State>, m: nat, n: nat, k: nat, h: nat)
    requires IsRun(device, w, events, states) && m <= n < |states| && NoWrap(states[n]) && WorldOk(w)
    requires k < |states[n].client.log| && WorkedOn(states[n].client.log[k].what) == Some(h)
    requires h in states[m].client.handles
    ensures OutcomeFor(states[m].client.handles[h], states[n].client.log[k])
  {
    hide OutcomeFor, IsRun;
    RunFor(device, w, events, states, n);
    var r := states[n].client.log[k];
    assert HadOutcome(states, n, r, h);
    var j: nat :| j < n && j < |states| && h in states[j].client.handles && OutcomeFor(states[j].client.handles[h], r);
    SentRises(device, w, events, states, m, n);
    SentRises(device, w, events, states, j, n);
    if j <= m {
      OneHandle(device, w, events, states, j, m, h);
      SameOutcome(states[j].client.handles[h], states[m].client.handles[h], r);
    } else {
      OneHandle(device, w, events, states, m, j, h);
      SameOutcome(states[m].client.handles[h], states[j].client.handles[h], r);
    }
  }

  lemma SameOutcome(hd: Handle, hd': Handle, r: Reply)
    requires SameMake(hd, hd')
    ensures OutcomeFor(hd', r) == OutcomeFor(hd, r)
  {
  }

  lemma {:induction false} SentRises(device: string, w: World, events: seq<Event>, states: seq<State>, m: nat, n: nat)
    requires IsRun(device, w, events, states) && m <= n < |states| && NoWrap(states[n])
    ensures NoWrap(states[m])
  {
    if m == n {
    } else {
      SentGrows(states[n - 1], w, events[n - 1], states[n]);
      SentRises(device, w, events, states, m, n - 1);
    }
  }

  // ---------- what the client never sends ----------

  /**
   A request about a handle that the server does not know is refused, but for a
   write, which is told as done; a message that is no request is a bad request.
   Nothing changes.
   */
  lemma StrayRequests(s: Server, w: World, m: Msg, os: OsResult)
    requires |s.slots| == MAX_FILE_HANDLES
    ensures IsAnswer(m) ==> Serve(s, w, m, os) == (s, Some(ErrorAnswer(m.seqno, 128)))
    ensures (m.ReadRequest? || m.FindNextRequest? || m.CloseRequest?) && !IdOk(m.handle) ==>
      Serve(s, w, m, os) == (s, Some(ErrorAnswer(m.seqno, 6)))
    ensures m.WriteRequest? && m.handle != VIRTUAL_OUTPUT_ID ==> Serve(s, w, m, os) == (s, Some(WriteAnswer(m.seqno)))
  {
  }

  /** The AmigaDOS number of every error that an answer can carry. */
  lemma ErrorNumbers(code: nat)
    ensures TranslateError(code) ==
      if code == 0 then 0
      else if code == NETERR_ACCESS_DENIED then 202
      else if code == NETERR_NOT_FOUND then 205
      else if code == NETERR_IO_ERROR then 213
      else if code in {NETERR_NOT_A_FILE, NETERR_NOT_A_DIRECTORY, NETERR_INVALID_VALUE} then 212
      else 218
  {
  }
}
