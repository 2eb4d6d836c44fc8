/** A controller and a target joined by two reliable first-in first-out channels. */
module PeerPair {
  import opened Base
  import opened PeerProtocol

  /** One end: the peer, how many of the other end's messages it has taken, and whether it has been removed. */
  datatype End = End(peer: Peer, read: nat, gone: bool)

  datatype Pair = Pair(a: End, b: End)

  datatype Side = A | B

  /**
   Delivery of the next message, the update at the end of peer_update (which
   removes a failed peer), an application that sends once it is connected, and a
   broken connection.
   */
  datatype PairEvent = Delivery(side: Side, w: World) | Updating(side: Side, w: World)
    | Sending(side: Side, id: nat, w: World) | Breaking(side: Side, w: World)

  function EndStep(x: End, y: End, e: PairEvent): End {
    if x.gone then x else
    match e
    case Delivery(_, w) =>
      if x.read < |y.peer.out| then End(DeliverTo(x.peer, y.peer.out[x.read], w), x.read + 1, false) else x
    case Updating(_, w) =>
      var p := Tick(x.peer, w);
      x.(peer := p, gone := p.state == Failed || p.state == Disconnected)
    case Sending(_, id, w) =>
      if x.peer.state == Connected then x.(peer := Transmit(x.peer, App(id), w)) else x
    case Breaking(_, w) => x.(peer := Tick(HangUp(x.peer), w), gone := true)
  }

  function PairStep(p: Pair, e: PairEvent): Pair {
    match e.side
    case A => p.(a := EndStep(p.a, p.b, e))
    case B => p.(b := EndStep(p.b, p.a, e))
  }

  function PairRun(start: Pair, events: seq<PairEvent>): Pair {
    if events == [] then start
    else PairStep(PairRun(start, events[..|events| - 1]), events[|events| - 1])
  }

  ghost predicate Roomy(events: seq<PairEvent>) {
    forall e <- events :: e.w.failing == {}
  }

  // ---------- handshake ----------

  /** Nothing has gone out, or one handshake first and no other after it. */
  predicate OneHandshakeFirst(p: Peer) {
    p.out == [] || (p.out[0] == Handshake(p.major, p.minor) && forall i :: 1 <= i < |p.out| ==> !p.out[i].Handshake?)
  }

  predicate SameMajor(p: Pair) {
    p.a.peer.major == p.b.peer.major
  }

  /** What holds of either end x, y being the other. */
  ghost predicate EndInv(x: End, y: End) {
    var p, q := x.peer, y.peer;
    && p.state != Initial
    && x.read <= |q.out|
    && OneHandshakeFirst(p)
    && p.connections <= 1
    && (p.state == WaitHandshake ==> p.connections == 0 && x.read == 0)
    && (p.state == Connected ==> p.connections == 1)
    && (p.connections == 1 ==> x.read >= 1 && p.major == q.major && p.out != [])
    && (p.connections == 0 ==> p.undefined == [] && p.refusals == 0)
    && (p.connections == 0 ==> |p.out| == if p.mode == Controller then 1 else 0)
    && (forall u <- p.undefined :: u == (Failed, ReceiveMessage))
    && (p.undefined != [] ==> p.refusals > 0)
    && (p.state == Failed && !x.gone && p.refusals == 0 ==> p.major != q.major && x.read == |q.out|)
    && (p.state == Disconnected ==> x.gone)
  }

  ghost predicate HandshakeInv(p: Pair) {
    && p.a.peer.mode == Controller && p.b.peer.mode == Target
    && EndInv(p.a, p.b) && EndInv(p.b, p.a)
  }

  lemma StepShape(x: End, y: End, e: PairEvent)
    requires EndInv(x, y) && EndInv(y, x) && e.w.failing == {}
    requires x.peer.mode != y.peer.mode
    ensures var x' := EndStep(x, y, e);
      && x'.peer.mode == x.peer.mode && x'.peer.major == x.peer.major && x'.peer.minor == x.peer.minor
      && x.peer.out <= x'.peer.out && x.read <= x'.read <= |y.peer.out|
      && (x.peer.connections == 0 && x.peer.major != y.peer.major ==> x'.peer.out == x.peer.out)
  {
    BurstFits(x.peer.(state := Connected, lastActivity := e.w.now), e.w.replies, e.w);
    BurstFits(x.peer.(state := Connected, connections := x.peer.connections + 1), e.w.greeting, e.w);
    var q := SendHandshake(x.peer, e.w);
    BurstFits(q.(state := Connected, connections := q.connections + 1), e.w.greeting, e.w);
  }

  lemma OtherEndInv(x: End, y: End, e: PairEvent)
    requires EndInv(x, y) && EndInv(y, x) && e.w.failing == {}
    requires x.peer.mode != y.peer.mode
    ensures EndInv(y, EndStep(x, y, e))
  {
    StepShape(x, y, e);
  }

  /** A burst of application messages leaves the handshake where it was. */
  lemma AppsKeepHandshakeFirst(p: Peer, ids: seq<nat>)
    requires OneHandshakeFirst(p) && p.out != []
    ensures OneHandshakeFirst(p.(out := p.out + Apps(ids)))
  {
  }

  lemma GreetedInv(x: End, y: End, w: World)
    requires EndInv(x, y) && EndInv(y, x) && w.failing == {} && !x.gone && x.read < |y.peer.out|
    requires x.peer.mode != y.peer.mode
    requires x.peer.state == WaitHandshake && y.peer.out[x.read].Handshake?
    ensures EndInv(End(AnswerHandshake(x.peer, y.peer.out[x.read], w), x.read + 1, false), y)
  {
    var p, m := x.peer, y.peer.out[x.read];
    assert m == Handshake(y.peer.major, y.peer.minor);
    if m.major == p.major {
      var q := if p.mode == Target then SendHandshake(p, w) else p;
      var r := q.(state := Connected, connections := 1);
      BurstFits(r, w.greeting, w);
      AppsKeepHandshakeFirst(r, w.greeting);
    }
  }

  lemma ReceivedInv(x: End, y: End, w: World)
    requires EndInv(x, y) && EndInv(y, x) && w.failing == {} && !x.gone && x.read < |y.peer.out|
    requires x.peer.state == Connected && !y.peer.out[x.read].Handshake?
    ensures EndInv(End(Receive(x.peer, y.peer.out[x.read], w), x.read + 1, false), y)
  {
    var q := x.peer.(lastActivity := w.now);
    BurstFits(q, w.replies, w);
    AppsKeepHandshakeFirst(q, w.replies);
  }

  lemma ThisEndInv(x: End, y: End, e: PairEvent)
    requires EndInv(x, y) && EndInv(y, x) && e.w.failing == {}
    requires x.peer.mode != y.peer.mode
    ensures EndInv(EndStep(x, y, e), y)
  {
    if e.Delivery? && !x.gone && x.read < |y.peer.out| {
      var m := y.peer.out[x.read];
      if m.Handshake? {
        if x.peer.state == WaitHandshake {
          GreetedInv(x, y, e.w);
        }
      } else if x.peer.state == Connected {
        ReceivedInv(x, y, e.w);
      }
    }
  }

  /** Two peers as peer_init leaves them, with memory for the controller's handshake. */
  ghost predicate Initialised(p: Pair, wa: World, wb: World) {
    && wa.failing == {}
    && p.a == End(Init(Controller, p.a.peer.major, p.a.peer.minor, wa), 0, false)
    && p.b == End(Init(Target, p.b.peer.major, p.b.peer.minor, wb), 0, false)
  }

  lemma {:induction false} RunHandshakeInv(start: Pair, wa: World, wb: World, events: seq<PairEvent>)
    requires Initialised(start, wa, wb) && Roomy(events)
    ensures HandshakeInv(PairRun(start, events))
    ensures var p := PairRun(start, events);
      p.a.peer.major == start.a.peer.major && p.b.peer.major == start.b.peer.major
    decreases |events|
  {
    if events == [] {
    } else {
      var before, e := events[..|events| - 1], events[|events| - 1];
      assert e in events && forall f <- before :: f in events;
      RunHandshakeInv(start, wa, wb, before);
      var p := PairRun(start, before);
      var x, y := if e.side == A then p.a else p.b, if e.side == A then p.b else p.a;
      ThisEndInv(x, y, e);
      OtherEndInv(x, y, e);
      StepShape(x, y, e);
    }
  }

  /**
   Safety of the handshake, over every run with memory for the buffers: each
   direction carries at most one handshake and carries it first; an end is told
   of the connection at most once, only after it has taken a handshake of the
   same major version; peers of different major versions never connect, and the
   target then sends nothing at all. The only table entry that can be run
   without being defined is the delivery of a further message to a peer whose
   application has refused one.
   */
  lemma HandshakeSafety(start: Pair, wa: World, wb: World, events: seq<PairEvent>)
    requires Initialised(start, wa, wb) && Roomy(events)
    ensures var p := PairRun(start, events);
      && OneHandshakeFirst(p.a.peer) && OneHandshakeFirst(p.b.peer) && p.a.peer.out != []
      && p.a.peer.connections <= 1 && p.b.peer.connections <= 1
      && (p.a.peer.connections == 1 ==>
            && SameMajor(start) && p.a.read >= 1 && p.b.peer.out != [] && p.b.peer.out[0].Handshake?
            && p.b.peer.connections == 1)
      && (p.b.peer.connections == 1 ==> SameMajor(start) && p.b.read >= 1 && p.a.peer.out[0].Handshake?)
      && (!SameMajor(start) ==> p.b.peer.out == [] && |p.a.peer.out| == 1)
      && (forall u <- p.a.peer.undefined + p.b.peer.undefined :: u == (Failed, ReceiveMessage))
      && (p.a.peer.undefined != [] ==> p.a.peer.refusals > 0)
      && (p.b.peer.undefined != [] ==> p.b.peer.refusals > 0)
  {
    RunHandshakeInv(start, wa, wb, events);
  }

  /**
   A step runs an undefined table entry exactly where it delivers a further
   message to an end that has failed and is not yet removed, because its
   application has refused a message of the same update.
   */
  lemma UndefinedExactly(start: Pair, wa: World, wb: World, events: seq<PairEvent>, e: PairEvent)
    requires Initialised(start, wa, wb) && Roomy(events) && e.w.failing == {}
    ensures var p := PairRun(start, events);
      var (x, y) := if e.side == A then (p.a, p.b) else (p.b, p.a);
      && (EndStep(x, y, e).peer.undefined != x.peer.undefined <==>
            e.Delivery? && !x.gone && x.peer.state == Failed && x.read < |y.peer.out|)
      && (EndStep(x, y, e).peer.undefined != x.peer.undefined ==> x.peer.refusals > 0)
  {
    RunHandshakeInv(start, wa, wb, events);
    var p := PairRun(start, events);
    var x, y := if e.side == A then p.a else p.b, if e.side == A then p.b else p.a;
    UndefinedStep(x, y, e);
  }

  lemma UndefinedStep(x: End, y: End, e: PairEvent)
    requires EndInv(x, y) && EndInv(y, x) && e.w.failing == {} && x.peer.mode != y.peer.mode
    ensures EndStep(x, y, e).peer.undefined != x.peer.undefined <==>
      e.Delivery? && !x.gone && x.peer.state == Failed && x.read < |y.peer.out|
  {
    BurstFits(x.peer.(state := Connected, lastActivity := e.w.now), e.w.replies, e.w);
    BurstFits(x.peer.(state := Connected, connections := x.peer.connections + 1), e.w.greeting, e.w);
    var q := SendHandshake(x.peer, e.w);
    BurstFits(q.(state := Connected, connections := q.connections + 1), e.w.greeting, e.w);
  }

  /** That does happen: a refused message, and one more behind it in the same buffer. */
  lemma RefusalThenDelivery(x: End, y: End, first: World, second: World)
    requires EndInv(x, y) && EndInv(y, x) && !x.gone && x.peer.state == Connected && first.failing == {}
    requires !first.accepts
    requires x.read + 2 <= |y.peer.out| && y.peer.out[x.read].App?
    ensures EndStep(EndStep(x, y, Delivery(A, first)), y, Delivery(A, second)).peer.undefined
         == x.peer.undefined + [(Failed, ReceiveMessage)]
  {
    BurstFits(x.peer.(lastActivity := first.now), first.replies, first);
    assert !y.peer.out[x.read + 1].Handshake?;
  }

  /** A world in which nothing fails, and the application does as given. */
  function Calm(accepts: bool): World {
    World(0, {}, [], [], accepts)
  }

  /** Handshakes both ways, two messages to the target, which refuses the first, and the second delivered. */
  function RefusingRun(): (events: seq<PairEvent>)
    ensures |events| == 6
  {
    [ Delivery(B, Calm(true)), Delivery(A, Calm(true)), Sending(A, 1, Calm(true)), Sending(A, 2, Calm(true)),
     Delivery(B, Calm(false)), Delivery(B, Calm(true)) ]
  }

  function StartPair(major: nat): Pair {
    Pair(End(Init(Controller, major, 0, Calm(true)), 0, false), End(Init(Target, major, 0, Calm(true)), 0, false))
  }

  /** So from the start a run gets there. */
  lemma RefusalIsReachable(major: nat)
    ensures Initialised(StartPair(major), Calm(true), Calm(true)) && Roomy(RefusingRun())
    ensures PairRun(StartPair(major), RefusingRun()).b.peer.undefined == [(Failed, ReceiveMessage)]
  {
    var start, es, ok := StartPair(major), RefusingRun(), Calm(true);
    var hello := Handshake(major, 0);
    var a, b := start.a.peer, start.b.peer;
    assert a.out == [] + [hello] == [hello];
    assert TransmitAll(b.(state := Connected, connections := 1, out := [hello], attempts := 1), [], ok)
        == b.(state := Connected, connections := 1, out := [hello], attempts := 1);
    var b1 := b.(state := Connected, connections := 1, out := [hello], attempts := 1);
    var a2 := a.(state := Connected, connections := 1);
    assert EndStep(start.b, start.a, es[0]) == End(b1, 1, false);
    assert TransmitAll(a2, [], ok) == a2;
    assert EndStep(start.a, End(b1, 1, false), es[1]) == End(a2, 1, false);
    var a3 := a2.(out := [hello, App(1)], attempts := 2);
    var a4 := a2.(out := [hello, App(1), App(2)], attempts := 3);
    var b5 := b1.(state := Failed, lastActivity := 0, refusals := 1);
    assert TransmitAll(b1.(lastActivity := 0), [], Calm(false)) == b1.(lastActivity := 0);
    assert EndStep(End(b1, 1, false), End(a4, 1, false), es[4]) == End(b5, 2, false);
    RunOfSix(start, es);
  }

  /** A run, event by event. */
  lemma RunOfSix(start: Pair, es: seq<PairEvent>)
    requires |es| == 6
    ensures PairRun(start, es) ==
      PairStep(PairStep(PairStep(PairStep(PairStep(PairStep(start, es[0]), es[1]), es[2]), es[3]), es[4]), es[5])
  {
    assert es[..5][..4] == es[..4] && es[..4][..3] == es[..3] && es[..3][..2] == es[..2] && es[..2][..1] == es[..1];
    assert es[..1][..0] == [];
    hide PairStep;
    assert PairRun(start, es[..1]) == PairStep(PairRun(start, []), es[0]);
    assert PairRun(start, es[..2]) == PairStep(PairRun(start, es[..1]), es[1]);
    assert PairRun(start, es[..3]) == PairStep(PairRun(start, es[..2]), es[2]);
    assert PairRun(start, es[..4]) == PairStep(PairRun(start, es[..3]), es[3]);
    assert PairRun(start, es[..5]) == PairStep(PairRun(start, es[..4]), es[4]);
  }

  /** Applications that accept all they are given never get there. */
  ghost predicate Accepting(events: seq<PairEvent>) {
    forall e <- events :: e.w.accepts
  }

  lemma {:induction false} NothingRefused(start: Pair, wa: World, wb: World, events: seq<PairEvent>)
    requires Initialised(start, wa, wb) && Roomy(events) && Accepting(events)
    ensures PairRun(start, events).a.peer.refusals == 0 && PairRun(start, events).b.peer.refusals == 0
    decreases |events|
  {
    if events == [] {
    } else {
      var before, e := events[..|events| - 1], events[|events| - 1];
      assert e in events && forall f <- before :: f in events;
      NothingRefused(start, wa, wb, before);
      RunHandshakeInv(start, wa, wb, before);
      var p := PairRun(start, before);
      var x, y := if e.side == A then p.a else p.b, if e.side == A then p.b else p.a;
      AcceptingStep(x, y, e);
    }
  }

  lemma AcceptingStep(x: End, y: End, e: PairEvent)
    requires EndInv(x, y) && EndInv(y, x) && e.w.failing == {} && x.peer.mode != y.peer.mode && e.w.accepts
    ensures EndStep(x, y, e).peer.refusals == x.peer.refusals
  {
    BurstFits(x.peer.(state := Connected, lastActivity := e.w.now), e.w.replies, e.w);
    BurstFits(x.peer.(state := Connected, connections := x.peer.connections + 1), e.w.greeting, e.w);
    var q := SendHandshake(x.peer, e.w);
    BurstFits(q.(state := Connected, connections := q.connections + 1), e.w.greeting, e.w);
  }

  /** If the applications accept every message, no run reaches an undefined table entry. */
  lemma AcceptingRunsAreDefined(start: Pair, wa: World, wb: World, events: seq<PairEvent>)
    requires Initialised(start, wa, wb) && Roomy(events) && Accepting(events)
    ensures PairRun(start, events).a.peer.undefined == [] && PairRun(start, events).b.peer.undefined == []
  {
    NothingRefused(start, wa, wb, events);
    RunHandshakeInv(start, wa, wb, events);
  }

  // ---------- pings ----------

  function Count(s: seq<Msg>, m: Msg): nat {
    if s == [] then 0 else (if s[0] == m then 1 else 0) + Count(s[1..], m)
  }

  lemma {:induction false} CountAppend(s: seq<Msg>, t: seq<Msg>, m: Msg)
    ensures Count(s + t, m) == Count(s, m) + Count(t, m)
  {
    if s == [] {
      assert s + t == t;
    } else {
      CountAppend(s[1..], t, m);
      assert (s + t)[1..] == s[1..] + t;
    }
  }

  lemma {:induction false} CountApps(ids: seq<nat>, m: Msg)
    requires !m.App?
    ensures Count(Apps(ids), m) == 0
  {
    if ids == [] {
    } else {
      CountApps(ids[1..], m);
      assert Apps(ids)[1..] == Apps(ids[1..]);
    }
  }

  /** x's pings on their way to y, and y's answers on their way back. */
  function Outstanding(x: End, y: End): nat
    requires y.read <= |x.peer.out| && x.read <= |y.peer.out|
  {
    Count(x.peer.out[y.read..], PingRequest) + Count(y.peer.out[x.read..], PingAnswer)
  }

  predicate Alive(x: End) {
    !x.gone && (x.peer.state == WaitHandshake || x.peer.state == Connected)
  }

  ghost predicate PingInv(p: Pair) {
    && HandshakeInv(p)
    && (Alive(p.a) && Alive(p.b) ==>
          && Outstanding(p.a, p.b) == (if p.a.peer.pingOnWire then 1 else 0)
          && Outstanding(p.b, p.a) == (if p.b.peer.pingOnWire then 1 else 0))
  }

  lemma CountTail(s: seq<Msg>, k: nat, m: Msg)
    requires k < |s|
    ensures Count(s[k..], m) == (if s[k] == m then 1 else 0) + Count(s[k + 1..], m)
  {
    assert s[k..][1..] == s[k + 1..];
  }

  /** Messages added at the end of a channel that has been read up to k. */
  lemma CountMore(s: seq<Msg>, t: seq<Msg>, k: nat, m: Msg)
    requires k <= |s|
    ensures Count((s + t)[k..], m) == Count(s[k..], m) + Count(t, m)
  {
    CountAppend(s[k..], t, m);
    assert (s + t)[k..] == s[k..] + t;
  }

  lemma CountOne(x: Msg, m: Msg)
    ensures Count([x], m) == if x == m then 1 else 0
  {
    assert [x][1..] == [];
  }

  lemma CountNone()
    ensures Count([], PingRequest) == Count([], PingAnswer) == 0
  {
  }

  /** What the delivery of a handshake adds. */
  lemma GreetingAdds(p: Peer, m: Msg, w: World) returns (added: seq<Msg>)
    requires w.failing == {} && m.Handshake? && p.state == WaitHandshake && AnswerHandshake(p, m, w).state == Connected
    ensures AnswerHandshake(p, m, w).out == p.out + added && AnswerHandshake(p, m, w).pingOnWire == p.pingOnWire
    ensures Count(added, PingRequest) == 0 && Count(added, PingAnswer) == 0
  {
    var hello := if p.mode == Target then [Handshake(p.major, p.minor)] else [];
    var q := if p.mode == Target then SendHandshake(p, w) else p;
    var r := q.(state := Connected, connections := q.connections + 1);
    CountOne(Handshake(p.major, p.minor), PingRequest);
    CountOne(Handshake(p.major, p.minor), PingAnswer);
    CountNone();
    hide Count;
    BurstFits(r, w.greeting, w);
    added := hello + Apps(w.greeting);
    CountAppend(hello, Apps(w.greeting), PingRequest);
    CountAppend(hello, Apps(w.greeting), PingAnswer);
    CountApps(w.greeting, PingRequest);
    CountApps(w.greeting, PingAnswer);
  }

  /** What the delivery of m to a live end adds to its own channel. */
  lemma DeliveryAdds(p: Peer, m: Msg, w: World) returns (added: seq<Msg>)
    requires w.failing == {} && (p.state == WaitHandshake || p.state == Connected)
    requires DeliverTo(p, m, w).state == WaitHandshake || DeliverTo(p, m, w).state == Connected
    ensures var q := DeliverTo(p, m, w);
      && q.out == p.out + added
      && q.pingOnWire == (p.pingOnWire && m != PingAnswer)
    ensures Count(added, PingRequest) == 0 && Count(added, PingAnswer) == if m == PingRequest then 1 else 0
  {
    hide Count;
    match m
    case Handshake(_, _) =>
      added := GreetingAdds(p, m, w);
    case PingRequest =>
      added := [PingAnswer];
      CountOne(PingAnswer, PingRequest);
      CountOne(PingAnswer, PingAnswer);
    case PingAnswer =>
      added := [];
      CountNone();
    case App(_) =>
      BurstFits(p.(lastActivity := w.now), w.replies, w);
      added := Apps(w.replies);
      CountApps(w.replies, PingRequest);
      CountApps(w.replies, PingAnswer);
  }

  /** Taking a message moves a ping from the channel to the flag or to the channel back; nothing is lost or made. */
  lemma DeliveryKeepsCount(x: End, y: End, w: World)
    requires EndInv(x, y) && EndInv(y, x) && w.failing == {} && Alive(x)
    requires x.read < |y.peer.out| && x.peer.mode != y.peer.mode
    requires Outstanding(x, y) == (if x.peer.pingOnWire then 1 else 0)
    requires Outstanding(y, x) == (if y.peer.pingOnWire then 1 else 0)
    ensures var x' := EndStep(x, y, Delivery(A, w));
      && y.read <= |x'.peer.out| && x'.read <= |y.peer.out|
      && (Alive(x') ==>
            && Outstanding(x', y) == (if x'.peer.pingOnWire then 1 else 0)
            && Outstanding(y, x') == (if y.peer.pingOnWire then 1 else 0))
  {
    StepShape(x, y, Delivery(A, w));
    var m := y.peer.out[x.read];
    var x' := EndStep(x, y, Delivery(A, w));
    if Alive(x') {
      var added := DeliveryAdds(x.peer, m, w);
      CountTail(y.peer.out, x.read, PingRequest);
      CountTail(y.peer.out, x.read, PingAnswer);
      CountMore(x.peer.out, added, y.read, PingRequest);
      CountMore(x.peer.out, added, y.read, PingAnswer);
    }
  }

  /** The watchdog sets the flag exactly when it sends; other sends are no pings. */
  lemma SendingKeepsCount(x: End, y: End, e: PairEvent)
    requires EndInv(x, y) && EndInv(y, x) && e.w.failing == {} && Alive(x) && (e.Updating? || e.Sending?)
    requires x.peer.mode != y.peer.mode
    requires Outstanding(x, y) == (if x.peer.pingOnWire then 1 else 0)
    requires Outstanding(y, x) == (if y.peer.pingOnWire then 1 else 0)
    ensures var x' := EndStep(x, y, e);
      && y.read <= |x'.peer.out| && x'.read <= |y.peer.out|
      && (Alive(x') ==>
            && Outstanding(x', y) == (if x'.peer.pingOnWire then 1 else 0)
            && Outstanding(y, x') == (if y.peer.pingOnWire then 1 else 0))
  {
    StepShape(x, y, e);
    var x' := EndStep(x, y, e);
    if x'.peer.out != x.peer.out {
      var m := if e.Updating? then PingRequest else App(e.id);
      assert x'.peer.out == x.peer.out + [m];
      CountMore(x.peer.out, [m], y.read, PingRequest);
      CountMore(x.peer.out, [m], y.read, PingAnswer);
      CountOne(m, PingRequest);
      CountOne(m, PingAnswer);
    }
  }

  lemma {:induction false} RunPingInv(start: Pair, wa: World, wb: World, events: seq<PairEvent>)
    requires Initialised(start, wa, wb) && Roomy(events)
    ensures PingInv(PairRun(start, events))
    decreases |events|
  {
    RunHandshakeInv(start, wa, wb, events);
    if events == [] {
      CountOne(start.a.peer.out[0], PingRequest);
      CountOne(start.a.peer.out[0], PingAnswer);
      assert start.a.peer.out[0..] == start.a.peer.out == [start.a.peer.out[0]];
    } else {
      var before, e := events[..|events| - 1], events[|events| - 1];
      assert e in events && forall f <- before :: f in events;
      RunPingInv(start, wa, wb, before);
      var p := PairRun(start, before);
      PingStep(p, e);
    }
  }

  lemma PingStep(p: Pair, e: PairEvent)
    requires PingInv(p) && HandshakeInv(PairStep(p, e)) && e.w.failing == {}
    ensures PingInv(PairStep(p, e))
  {
    hide Outstanding;
    hide DeliverTo, Tick, Transmit, EndInv;
    var x, y := if e.side == A then p.a else p.b, if e.side == A then p.b else p.a;
    if !Alive(x) {
      StaysDead(x, y, e);
    }
    if Alive(x) && Alive(y) {
      match e
      case Delivery(_, w) =>
        if x.read < |y.peer.out| {
          DeliveryKeepsCount(x, y, w);
        }
      case Updating(_, w) => SendingKeepsCount(x, y, e);
      case Sending(_, _, w) => SendingKeepsCount(x, y, e);
      case Breaking(_, w) =>
    }
  }

  lemma StaysDead(x: End, y: End, e: PairEvent)
    requires EndInv(x, y) && !Alive(x)
    ensures !Alive(EndStep(x, y, e))
  {
  }

  /**
   Pings are conserved: while both ends are alive, an end's flag is set exactly
   when one ping of its own, or the answer to it, is in flight; never two.
   */
  lemma PingConservation(start: Pair, wa: World, wb: World, events: seq<PairEvent>)
    requires Initialised(start, wa, wb) && Roomy(events)
    ensures var p := PairRun(start, events);
      && p.a.read <= |p.b.peer.out| && p.b.read <= |p.a.peer.out|
      && (Alive(p.a) && Alive(p.b) ==>
            && Outstanding(p.a, p.b) == (if p.a.peer.pingOnWire then 1 else 0)
            && Outstanding(p.b, p.a) == (if p.b.peer.pingOnWire then 1 else 0))
  {
    RunPingInv(start, wa, wb, events);
  }

  /**
   The watchdog of a live connection, in every run: it sends one ping exactly if
   no ping and no answer to one is in flight and nothing has come for longer than
   30 seconds (31 on the controller), and gives up exactly if one has been in
   flight and nothing has come for more than twice as long.
   */
  lemma WatchdogFires(start: Pair, wa: World, wb: World, events: seq<PairEvent>, side: Side, w: World)
    requires Initialised(start, wa, wb) && Roomy(events) && w.failing == {}
    requires var p := PairRun(start, events); Alive(p.a) && Alive(p.b)
    ensures
      var p := PairRun(start, events);
      var (x, y) := if side == A then (p.a, p.b) else (p.b, p.a);
      var x' := EndStep(x, y, Updating(side, w));
      && x.read <= |y.peer.out| && y.read <= |x.peer.out|
      && Watched(x, x', Outstanding(x, y), w.now - x.peer.lastActivity)
  {
    RunPingInv(start, wa, wb, events);
    var p := PairRun(start, events);
    var (x, y) := if side == A then (p.a, p.b) else (p.b, p.a);
    hide PingInv, Outstanding;
  }

  /** What an update makes of end x, with so many pings or answers in flight, after so many seconds of silence. */
  predicate Watched(x: End, x': End, outstanding: nat, silence: int) {
    var connected, patience := x.peer.state == Connected, Patience(x.peer.mode);
    && (x'.peer.out == x.peer.out + [PingRequest] <==> connected && outstanding == 0 && silence > patience)
    && (x'.peer.out == x.peer.out <==> !(connected && outstanding == 0 && silence > patience))
    && (x'.peer.state == Failed <==> connected && outstanding == 1 && silence > 2 * patience)
    && (x'.gone <==> x'.peer.state == Failed)
  }

  /** So a connection that stays silent is given up: two updates do it, one after the patience, one after twice that. */
  lemma SilenceEnds(x: End, y: End, first: World, second: World)
    requires x.peer.state == Connected && !x.gone && first.failing == second.failing == {}
    requires first.now - x.peer.lastActivity > Patience(x.peer.mode)
    requires second.now - x.peer.lastActivity > 2 * Patience(x.peer.mode)
    ensures var x' := EndStep(EndStep(x, y, Updating(A, first)), y, Updating(A, second));
      x'.peer.state == Failed && x'.gone
  {
  }
}
