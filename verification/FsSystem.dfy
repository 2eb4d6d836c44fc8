/**
 Client and server joined by two first-in first-out channels, and what every
 run of the two keeps.
 */
module FsSystem {
  import opened Base
  import opened RemoteFs

  /**
   answers is the answer channel; the request channel is client.out. sent counts
   the requests ever sent, taken the packets ever taken from the port, and
   dropped are those that are never replied to.
   */
  datatype State = State(client: Client, answers: seq<Msg>, server: Server, sent: nat, taken: nat, dropped: seq<nat>)

  function StartClient(device: string): Client {
    Client(0, [], map[0 := Handle(ROOT_ID, DeviceKind, 0, 0, false, device, "", 0, [])], 1, [], [])
  }

  function StartState(device: string): State {
    State(StartClient(device), [], IdleServer(), 0, 0, [])
  }

  /** A packet arrives at the port; the server takes the next request; the client takes the next answer. */
  datatype Event = TakePacket(p: Packet) | ServeNext(os: OsResult) | TakeAnswer

  predicate Busy(c: Client, h: nat) {
    exists i :: 0 <= i < |c.pending| && HandleOf(c.pending[i].detail) == Some(h)
  }

  /** The handle that a packet reads or changes. */
  function Uses(p: Packet): Option<nat> {
    match p
    case Read(h, _) => Some(h)
    case Write(h, _) => Some(h)
    case Seek(h, _, _) => Some(h)
    case Free(h) => Some(h)
    case ExamineNext(h) => Some(h)
    case _ => None
  }

  /**
   An operation is under way that the packet has to wait for, because its caller
   waits: a handle has one caller. But all locks on the root share handle 0, so
   their callers may list it at the same time.
   */
  predicate Blocked(c: Client, p: Packet) {
    exists i :: 0 <= i < |c.pending| && HandleOf(c.pending[i].detail).Some?
      && HandleOf(c.pending[i].detail) == Uses(p) && !(p == ExamineNext(0) && c.pending[i].detail == Enumerating(0))
  }

  /** Callers block; a lock on a server slot is not duplicated, see DuplicateLocksShareASlot. */
  predicate Enabled(s: State, e: Event) {
    match e
    case TakePacket(p) =>
      && Acceptable(s.client, p)
      && !Blocked(s.client, p)
      && (p.CopyDir? ==> s.client.handles[p.h].id >= MAX_FILE_HANDLES)
    case ServeNext(os) => s.client.out != [] && 0 < os.fd && PosixError(os.code)
    case TakeAnswer => s.answers != []
  }

  /** What translate_posix_errno makes of a failed open. */
  predicate PosixError(code: nat) {
    code == NETERR_ACCESS_DENIED || code == NETERR_NOT_A_FILE || code == NETERR_IO_ERROR
  }

  predicate AllRequests(ms: seq<Msg>) {
    forall i :: 0 <= i < |ms| ==> !IsAnswer(ms[i])
  }

  function Step(s: State, w: World, e: Event): State
    requires Enabled(s, e) && AllLive(s.client) && AllRequests(s.client.out)
  {
    match e
    case TakePacket(p) =>
      var c := ProcessPacket(s.client, s.taken, p);
      s.(client := c, sent := s.sent + Grown(s.client, c), taken := s.taken + 1,
         dropped := if p.Die? then s.dropped + [s.taken] else s.dropped)
    case ServeNext(os) =>
      var (server, answer) := Serve(s.server, w, s.client.out[0], os);
      s.(client := s.client.(out := s.client.out[1..]), server := server,
         answers := if answer.Some? then s.answers + [answer.value] else s.answers)
    case TakeAnswer =>
      var (c, broken) := ProcessAnswer(s.client, s.answers[0]);
      s.(client := c, answers := s.answers[1..], sent := s.sent + Grown(s.client, c))
  }

  /** How many requests the step from c to d has sent. */
  function Grown(c: Client, d: Client): nat {
    if |c.out| <= |d.out| then |d.out| - |c.out| else 0
  }

  // ---------- numbers: every request in flight once, every operation waiting for exactly one ----------

  /** All messages under way, oldest first: answers that have been sent, then requests not yet served. */
  function Flight(s: State): seq<Msg> {
    s.answers + s.client.out
  }

  /** The numbers of the messages in flight that belong to an operation; a close request belongs to none. */
  function FlightNumbers(flight: seq<Msg>): seq<nat> {
    if flight == [] then []
    else (if flight[0].CloseRequest? then [] else [flight[0].seqno]) + FlightNumbers(flight[1..])
  }

  function PendingNumbers(pending: seq<Op>): (r: seq<nat>)
    ensures |r| == |pending|
    ensures forall i :: 0 <= i < |r| ==> r[i] == pending[i].seqno
  {
    seq(|pending|, i requires 0 <= i < |pending| => pending[i].seqno)
  }

  ghost predicate Increasing(flight: seq<Msg>, bound: nat) {
    && (forall i, j :: 0 <= i < j < |flight| ==> flight[i].seqno < flight[j].seqno)
    && (forall i :: 0 <= i < |flight| ==> flight[i].seqno < bound)
  }

  /** Flight numbers increase, and those that belong to operations are exactly those of the pending list. */
  ghost predicate Matched(pending: seq<Op>, flight: seq<Msg>, sent: nat) {
    && Increasing(flight, sent)
    && (forall i :: 0 <= i < |pending| ==> pending[i].seqno < sent)
    && multiset(PendingNumbers(pending)) == multiset(FlightNumbers(flight))
  }

  lemma FlightNumbersStep(x: seq<Msg>)
    ensures FlightNumbers(x) ==
      if x == [] then [] else (if x[0].CloseRequest? then [] else [x[0].seqno]) + FlightNumbers(x[1..])
  {
  }

  lemma {:induction false} FlightNumbersAppend(x: seq<Msg>, y: seq<Msg>)
    ensures FlightNumbers(x + y) == FlightNumbers(x) + FlightNumbers(y)
    decreases |x|
  {
    hide FlightNumbers;
    FlightNumbersStep(x);
    if x == [] {
      assert x + y == y;
    } else {
      FlightNumbersStep(x + y);
      FlightNumbersAppend(x[1..], y);
      assert (x + y)[0] == x[0] && (x + y)[1..] == x[1..] + y;
    }
  }

  lemma FlightNumbersOne(m: Msg)
    ensures FlightNumbers([m]) == if m.CloseRequest? then [] else [m.seqno]
  {
    assert [m][1..] == [];
  }

  lemma TakeOut(s: seq<nat>, i: nat)
    requires i < |s|
    ensures multiset(s) == multiset(s[..i] + s[i + 1..]) + multiset{s[i]}
  {
    assert s == s[..i] + [s[i]] + s[i + 1..];
  }

  lemma Exchange(s: seq<nat>, i: nat, x: nat)
    requires i < |s|
    ensures multiset(s[i := x]) == multiset(s[..i] + s[i + 1..]) + multiset{x}
  {
    assert s[i := x] == s[..i] + [x] + s[i + 1..];
  }

  lemma PutFirst(x: nat, s: seq<nat>)
    ensures multiset([x] + s) == multiset(s) + multiset{x}
    ensures multiset(s + [x]) == multiset(s) + multiset{x}
  {
  }

  /** The numbers after a message is added, the first taken, or one exchanged for its answer. */
  lemma NumbersAdded(flight: seq<Msg>, m: Msg)
    ensures multiset(FlightNumbers(flight + [m]))
         == multiset(FlightNumbers(flight)) + if m.CloseRequest? then multiset{} else multiset{m.seqno}
  {
    FlightNumbersAppend(flight, [m]);
    FlightNumbersOne(m);
    PutFirst(m.seqno, FlightNumbers(flight));
    if m.CloseRequest? {
      assert FlightNumbers(flight) + [] == FlightNumbers(flight);
    }
  }

  lemma NumbersTaken(flight: seq<Msg>)
    requires flight != []
    ensures multiset(FlightNumbers(flight))
         == multiset(FlightNumbers(flight[1..]))
            + if flight[0].CloseRequest? then multiset{} else multiset{flight[0].seqno}
  {
    PutFirst(flight[0].seqno, FlightNumbers(flight[1..]));
  }

  lemma NumbersAround(x: seq<Msg>, m: Msg, y: seq<Msg>)
    ensures FlightNumbers(x + [m] + y)
         == if m.CloseRequest? then FlightNumbers(x + y) else FlightNumbers(x) + [m.seqno] + FlightNumbers(y)
  {
    FlightNumbersAppend(x + [m], y);
    FlightNumbersAppend(x, [m]);
    FlightNumbersAppend(x, y);
    FlightNumbersOne(m);
  }

  /** A new operation and its request. */
  lemma MatchedBegin(pending: seq<Op>, flight: seq<Msg>, sent: nat, op: Op, m: Msg)
    requires Matched(pending, flight, sent) && op.seqno == m.seqno == sent && !m.CloseRequest?
    ensures Matched([op] + pending, flight + [m], sent + 1)
  {
    hide FlightNumbers;
    NumbersAdded(flight, m);
    assert PendingNumbers([op] + pending) == [op.seqno] + PendingNumbers(pending);
    PutFirst(op.seqno, PendingNumbers(pending));
  }

  /** A close request on its own. */
  lemma MatchedPost(pending: seq<Op>, flight: seq<Msg>, sent: nat, m: Msg)
    requires Matched(pending, flight, sent) && m.seqno == sent && m.CloseRequest?
    ensures Matched(pending, flight + [m], sent + 1)
  {
    hide FlightNumbers;
    NumbersAdded(flight, m);
  }

  /** The oldest message is taken, and its operation, at place i, is over. */
  lemma MatchedFinish(pending: seq<Op>, flight: seq<Msg>, sent: nat, i: nat)
    requires Matched(pending, flight, sent) && flight != [] && !flight[0].CloseRequest?
    requires i < |pending| && pending[i].seqno == flight[0].seqno
    ensures Matched(pending[..i] + pending[i + 1..], flight[1..], sent)
  {
    hide FlightNumbers;
    var ns := PendingNumbers(pending);
    TakeOut(ns, i);
    assert PendingNumbers(pending[..i] + pending[i + 1..]) == ns[..i] + ns[i + 1..];
    NumbersTaken(flight);
    var x := multiset{flight[0].seqno};
    assert multiset(ns[..i] + ns[i + 1..]) == multiset(ns) - x;
    assert multiset(FlightNumbers(flight[1..])) == multiset(FlightNumbers(flight)) - x;
  }

  /** The oldest message is taken, and its operation goes on under a new number. */
  lemma MatchedContinue(pending: seq<Op>, flight: seq<Msg>, sent: nat, i: nat, op: Op, m: Msg)
    requires Matched(pending, flight, sent) && flight != [] && !flight[0].CloseRequest?
    requires i < |pending| && pending[i].seqno == flight[0].seqno
    requires op.seqno == m.seqno == sent && !m.CloseRequest?
    ensures Matched(pending[i := op], flight[1..] + [m], sent + 1)
  {
    hide FlightNumbers;
    var ns := PendingNumbers(pending);
    TakeOut(ns, i);
    Exchange(ns, i, sent);
    assert PendingNumbers(pending[i := op]) == ns[i := sent];
    NumbersTaken(flight);
    NumbersAdded(flight[1..], m);
  }

  /** A request at place k becomes its answer. */
  lemma MatchedServe(pending: seq<Op>, flight: seq<Msg>, sent: nat, k: nat, m: Msg)
    requires Matched(pending, flight, sent) && k < |flight|
    requires m.seqno == flight[k].seqno && !m.CloseRequest? && !flight[k].CloseRequest?
    ensures Matched(pending, flight[k := m], sent)
  {
    hide FlightNumbers;
    var x, y := flight[..k], flight[k + 1..];
    assert flight == x + [flight[k]] + y && flight[k := m] == x + [m] + y;
    NumbersAround(x, flight[k], y);
    NumbersAround(x, m, y);
  }

  /** A close request at place k is served: it leaves no answer. */
  lemma MatchedClose(pending: seq<Op>, flight: seq<Msg>, sent: nat, k: nat)
    requires Matched(pending, flight, sent) && k < |flight| && flight[k].CloseRequest?
    ensures Matched(pending, flight[..k] + flight[k + 1..], sent)
  {
    hide FlightNumbers;
    var x, y := flight[..k], flight[k + 1..];
    assert flight == x + [flight[k]] + y;
    NumbersAround(x, flight[k], y);
    var t := x + y;
    assert forall i :: 0 <= i < |t| ==> t[i] == flight[if i < k then i else i + 1];
  }

  /** The operation that the oldest message belongs to exists. */
  lemma MatchedFinds(pending: seq<Op>, flight: seq<Msg>, sent: nat)
    requires Matched(pending, flight, sent) && flight != [] && !flight[0].CloseRequest?
    ensures FindPending(pending, flight[0].seqno).Some?
  {
    NumbersTaken(flight);
    assert flight[0].seqno in multiset(FlightNumbers(flight));
    assert flight[0].seqno in multiset(PendingNumbers(pending));
    assert flight[0].seqno in PendingNumbers(pending);
  }
}
