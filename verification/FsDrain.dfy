/**
 Operations end. With no new packets, server and client can go on only so long,
 whatever is under way and however little each read delivers; and then every
 packet has been replied to.
 */
module FsDrain {
  import opened Base
  import opened RemoteFs
  import opened FsSystem
  import opened FsMatching

  // ---------- what is left to do ----------

  /** How many more answers an operation can take, at most. */
  function Left(d: Detail): (n: nat)
    ensures n >= 1
  {
    match d
    case Reading(_, count, got) => 1 + count - Min(|got|, count)
    case Writing(_, data, source, length) =>
      if source + length <= |data| then 1 + |data| - (source + length) else 1
    case _ => 1
  }

  function Work(pending: seq<Op>): nat {
    if pending == [] then 0 else 3 * Left(pending[0].detail) + Work(pending[1..])
  }

  /** The steps that are left, at most. An answer may free a request, and a request bring an answer. */
  function Steps(s: State): nat {
    Work(s.client.pending) + 2 * |s.client.out| + |s.answers|
  }

  lemma {:induction false} WorkWithout(pending: seq<Op>, i: nat)
    requires i < |pending|
    ensures Work(pending[..i] + pending[i + 1..]) + 3 * Left(pending[i].detail) == Work(pending)
  {
    if i == 0 {
      assert pending[..0] + pending[1..] == pending[1..];
    } else {
      WorkWithout(pending[1..], i - 1);
      assert (pending[..i] + pending[i + 1..])[1..] == pending[1..][..i - 1] + pending[1..][i..];
    }
  }

  lemma {:induction false} WorkReplaced(pending: seq<Op>, i: nat, op: Op)
    requires i < |pending|
    ensures Work(pending[i := op]) + 3 * Left(pending[i].detail) == Work(pending) + 3 * Left(op.detail)
  {
    if i == 0 {
      assert pending[0 := op][1..] == pending[1..];
    } else {
      WorkReplaced(pending[1..], i - 1, op);
      assert pending[i := op][1..] == pending[1..][i - 1 := op];
    }
  }

  // ---------- each step leaves less ----------

  /** An operation that goes on after an answer has less left. */
  lemma AnswerLessens(c: Client, m: Msg)
    requires AllLive(c)
    ensures var d := ProcessAnswer(c, m).0;
      Work(d.pending) + 2 * |d.out| <= Work(c.pending) + 2 * |c.out| && |d.out| <= |c.out| + 1
  {
    hide Work, Left, Truncate, TranslateError;
    var f := FindPending(c.pending, m.seqno);
    if f.Some? {
      var i := f.value;
      assert Live(c, c.pending[i].detail);
      WorkWithout(c.pending, i);
      match c.pending[i].detail
      case Reading(h, count, got) =>
        if m.ReadAnswer? {
          ReadLessens(c, i, m.data);
        }
      case Writing(_, _, _, _) =>
        if m.WriteAnswer? {
          WriteLessens(c, i);
        }
      case _ =>
    }
  }

  lemma ReadLessens(c: Client, i: nat, data: seq<Byte>)
    requires i < |c.pending| && c.pending[i].detail.Reading? && c.pending[i].detail.h in c.handles
    ensures var d := CompleteRead(c, i, data);
      Work(d.pending) + 2 * |d.out| <= Work(c.pending) + 2 * |c.out| && |d.out| <= |c.out| + 1
  {
    hide Work;
    WorkWithout(c.pending, i);
    var op := c.pending[i];
    var Reading(h, count, got) := op.detail;
    var (hd, more, done) := TakeData(c.handles[h], count - Min(|got|, count), data);
    if !done {
      WorkReplaced(c.pending, i, Op(c.seqno, op.packet, Reading(h, count, got + more)));
    }
  }

  lemma WriteLessens(c: Client, i: nat)
    requires i < |c.pending| && c.pending[i].detail.Writing? && c.pending[i].detail.h in c.handles
    ensures var d := CompleteWrite(c, i);
      Work(d.pending) + 2 * |d.out| <= Work(c.pending) + 2 * |c.out| && |d.out| <= |c.out| + 1
  {
    hide Work;
    WorkWithout(c.pending, i);
    var op := c.pending[i];
    var Writing(h, data, source, length) := op.detail;
    match NextChunk(data, source, length)
    case None =>
    case Some((at, n)) => WorkReplaced(c.pending, i, Op(c.seqno, op.packet, Writing(h, data, at, n)));
  }

  lemma StepLessens(s: State, w: World, e: Event, s': State)
    requires Next(s, w, e, s') && !e.TakePacket?
    ensures Steps(s') < Steps(s) && s'.sent + Steps(s') <= s.sent + Steps(s) && s'.taken == s.taken
  {
    hide Work, Serve, ProcessAnswer;
    match e
    case ServeNext(os) =>
    case TakeAnswer => AnswerLessens(s.client, s.answers[0]);
  }

  // ---------- runs ----------

  /** In every run, while no packet is taken, there are at most so many steps. */
  lemma {:induction false} Drains(device: string, w: World, events: seq<Event>, states: seq<State>, t: nat, n: nat)
    requires IsRun(device, w, events, states) && t <= n < |states|
    requires forall i :: t <= i < n ==> !events[i].TakePacket?
    ensures n - t + Steps(states[n]) <= Steps(states[t])
  {
    hide Next, Steps;
    if n == t {
    } else {
      Drains(device, w, events, states, t, n - 1);
      assert Next(states[n - 1], w, events[n - 1], states[n]);
      StepLessens(states[n - 1], w, events[n - 1], states[n]);
    }
  }

  // ---------- the end ----------

  predicate AtEnd(s: State) {
    s.client.out == [] && s.answers == []
  }

  /** Until the end there is a step. */
  lemma OneStep(s: State, w: World) returns (e: Event, s': State)
    requires Structure(s) && s.sent + 1 < UINT32 && !AtEnd(s)
    ensures Next(s, w, e, s') && Structure(s') && !e.TakePacket?
    ensures Steps(s') < Steps(s) && s'.sent + Steps(s') <= s.sent + Steps(s)
  {
    e := if s.answers != [] then TakeAnswer else ServeNext(OsResult(1, false, NETERR_IO_ERROR, BUFFER_SIZE));
    assert AllLive(s.client) && AllRequests(s.client.out) && Enabled(s, e);
    s' := Step(s, w, e);
    hide Structure, Step, Enabled, Steps;
    StepLessens(s, w, e, s');
    match e
    case ServeNext(os) => ServeStructure(s, w, os);
    case TakeAnswer => AnswerStructure(s, w);
  }

  ghost predicate Ends(s: State, w: World, events: seq<Event>, states: seq<State>) {
    && |states| == |events| + 1 && states[0] == s && AtEnd(states[|events|])
    && forall i :: 0 <= i < |events| ==> Next(states[i], w, events[i], states[i + 1]) && !events[i].TakePacket?
  }

  lemma EndsLater(s: State, w: World, e: Event, s': State, es: seq<Event>, ss: seq<State>)
    requires Next(s, w, e, s') && !e.TakePacket? && Ends(s', w, es, ss)
    ensures Ends(s, w, [e] + es, [s] + ss)
  {
    hide Next;
    var events, states := [e] + es, [s] + ss;
    forall i | 0 <= i < |events|
      ensures Next(states[i], w, events[i], states[i + 1]) && !events[i].TakePacket?
    {
      if i > 0 {
        assert Next(ss[i - 1], w, es[i - 1], ss[i]) && !es[i - 1].TakePacket?;
      }
    }
  }

  /** From a state with numbers enough there is a way to the end. */
  lemma {:induction false} CanEnd(s: State, w: World) returns (events: seq<Event>, states: seq<State>)
    requires Structure(s) && s.sent + Steps(s) + 1 < UINT32
    ensures Ends(s, w, events, states) && |events| <= Steps(s)
    decreases Steps(s)
  {
    if AtEnd(s) {
      events, states := [], [s];
    } else {
      hide Next, Structure, Steps, Ends, AtEnd;
      var e, s' := OneStep(s, w);
      var es, ss := CanEnd(s', w);
      EndsLater(s, w, e, s', es, ss);
      events, states := [e] + es, [s] + ss;
    }
  }

  /** Without messages under way there are no operations. */
  lemma NothingPending(s: State)
    requires Structure(s) && AtEnd(s)
    ensures s.client.pending == []
  {
    assert Flight(s) == [] && FlightNumbers([]) == [];
    assert |multiset(PendingNumbers(s.client.pending))| == 0;
  }

  /** What is never replied to is ACTION_DIE. */
  lemma {:induction false} DroppedAreDie(device: string, w: World, events: seq<Event>,
                                         states: seq<State>, n: nat, packet: nat) returns (i: nat)
    requires IsRun(device, w, events, states) && n < |states| && packet in states[n].dropped
    ensures i < n && events[i] == TakePacket(Die) && states[i].taken == packet
  {
    var s, e := states[n - 1], events[n - 1];
    assert Next(s, w, e, states[n]);
    hide ProcessPacket, Serve, ProcessAnswer;
    if packet in s.dropped {
      i := DroppedAreDie(device, w, events, states, n - 1, packet);
    } else {
      i := n - 1;
    }
  }

  /**
   In every run, once no message is under way, every packet has been replied to
   exactly once, but for ACTION_DIE, which never is.
   */
  lemma AllReplied(device: string, w: World, events: seq<Event>, states: seq<State>, n: nat, packet: nat)
    requires IsRun(device, w, events, states) && n < |states| && NoWrap(states[n]) && AtEnd(states[n])
    requires packet < states[n].taken
    ensures || multiset(LogPackets(states[n].client.log))[packet] == 1
            || exists i :: 0 <= i < n && events[i] == TakePacket(Die) && states[i].taken == packet
  {
    RunMatching(device, w, events, states, n);
    NothingPending(states[n]);
    EveryPacketOnce(device, w, events, states, n, packet);
    hide IsRun, Structure;
    if packet in states[n].dropped {
      var i := DroppedAreDie(device, w, events, states, n, packet);
    } else {
      assert multiset(states[n].dropped)[packet] == 0;
      assert PendingPackets(states[n].client.pending) == [];
    }
  }

  /**
   Callers can always ask: whatever is under way, a handle without an operation
   takes every packet, and the packets that open something are taken at any time.
   */
  lemma CallersCanAsk(s: State, h: nat, count: nat, data: seq<Byte>, amount: int, mode: int, name: string)
    requires h in s.client.handles && count < UINT32 && -0x8000_0000 <= amount < 0x8000_0000
    ensures !Busy(s.client, h) ==>
      forall p <- [Read(h, count), Write(h, data), Seek(h, amount, mode), Free(h), ExamineNext(h)] ::
        Enabled(s, TakePacket(p))
    ensures forall p <- [FindInput(name), FindOutput(name), Locate(h, name), Parent(h)] :: Enabled(s, TakePacket(p))
  {
  }
}
