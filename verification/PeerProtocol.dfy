/** The state machine of src/peer.c: a table of actions per state, with a handshake and a ping watchdog. */
module PeerProtocol {
  import opened Base

  datatype State = Initial | WaitHandshake | Connected | Failed | Disconnected

  datatype Action = ReceiveMessage | TransmitMessage | ReceiveHandshake | TransmitHandshake | Disconnect | Update

  datatype Mode = Controller | Target

  /** Messages as far as this layer tells them apart; the text fields of a handshake are not looked at. */
  datatype Msg = Handshake(major: nat, minor: nat) | PingRequest | PingAnswer | App(id: nat)

  const PING_TIMEOUT: int := 30

  /**
   What the world decides during one call: the time, which allocations of a
   buffer fail, what the application sends when it is told of the connection,
   what it sends in reaction to a message and whether it accepts that message.
   Allocations are counted over the life of the peer.
   */
  datatype World = World(now: int, failing: set<nat>, greeting: seq<nat>, replies: seq<nat>, accepts: bool)

  /**
   The fields of a peer. The last five are its history: messages enqueued,
   allocations tried, calls of on_connected, messages the application refused,
   and table entries that were run although they are not defined.
   */
  datatype Peer = Peer(
    mode: Mode, major: nat, minor: nat,
    state: State, pingOnWire: bool, lastActivity: int,
    out: seq<Msg>, attempts: nat, connections: nat, refusals: nat, undefined: seq<(State, Action)>)

  /** update_result. */
  datatype UpdateResult = RemoveMe | NeedOutput | NothingToDo

  datatype Handler =
    | Missing | OnTransmitHandshake | OnReceiveHandshake | OnTransmitMessage | OnReceiveMessage | OnDisconnect
    | OnUpdateConnected | Nop

  /** state_actions. */
  function Table(s: State, a: Action): Handler {
    match (s, a)
    case (Initial, TransmitHandshake) => OnTransmitHandshake
    case (Initial, Update) => Nop
    case (Initial, _) => Missing
    case (WaitHandshake, ReceiveHandshake) => OnReceiveHandshake
    case (WaitHandshake, TransmitHandshake) => OnTransmitHandshake
    case (WaitHandshake, Disconnect) => OnDisconnect
    case (WaitHandshake, Update) => Nop
    case (WaitHandshake, _) => Missing
    case (Connected, ReceiveMessage) => OnReceiveMessage
    case (Connected, TransmitMessage) => OnTransmitMessage
    case (Connected, Disconnect) => OnDisconnect
    case (Connected, Update) => OnUpdateConnected
    case (Connected, _) => Missing
    case (Failed, Disconnect) => OnDisconnect
    case (Failed, Update) => Nop
    case (Failed, _) => Missing
    case (Disconnected, Disconnect) => Nop
    case (Disconnected, Update) => Nop
    case (Disconnected, _) => Missing
  }

  function Enqueue(p: Peer, m: Msg, w: World): Peer {
    var q := p.(attempts := p.attempts + 1);
    if p.attempts in w.failing then q.(state := Failed) else q.(out := p.out + [m])
  }

  function Undefined(p: Peer, a: Action): Peer {
    p.(undefined := p.undefined + [(p.state, a)], state := Failed)
  }

  /** peer_transmit_message. */
  function Transmit(p: Peer, m: Msg, w: World): Peer {
    if p.state == Connected then Enqueue(p, m, w) else Undefined(p, TransmitMessage)
  }

  function TransmitAll(p: Peer, ids: seq<nat>, w: World): Peer
    decreases |ids|
  {
    if ids == [] then p
    else Transmit(TransmitAll(p, ids[..|ids| - 1], w), App(ids[|ids| - 1]), w)
  }

  /** The move to the connected state, with the callback that it triggers. */
  function Connect(p: Peer, w: World): Peer {
    if p.state == Connected then p
    else TransmitAll(p.(state := Connected, connections := p.connections + 1), w.greeting, w)
  }

  /** on_transmit_handshake; its own version goes out. */
  function SendHandshake(p: Peer, w: World): Peer {
    var q := p.(attempts := p.attempts + 1);
    if p.attempts in w.failing then q.(state := Failed)
    else q.(out := p.out + [Handshake(p.major, p.minor)], state := WaitHandshake)
  }

  /** on_receive_handshake: only the major version counts. */
  function AnswerHandshake(p: Peer, m: Msg, w: World): Peer
    requires m.Handshake? && p.state == WaitHandshake
  {
    if m.major == p.major then Connect(if p.mode == Target then SendHandshake(p, w) else p, w)
    else p.(state := Failed)
  }

  /** on_receive_message. */
  function Receive(p: Peer, m: Msg, w: World): Peer
    requires !m.Handshake? && p.state == Connected
  {
    var q := p.(lastActivity := w.now);
    match m
    case PingRequest => Transmit(q, PingAnswer, w)
    case PingAnswer => q.(pingOnWire := false)
    case App(_) =>
      var r := TransmitAll(q, w.replies, w);
      if w.accepts then r else r.(state := Failed, refusals := r.refusals + 1)
  }

  function Threshold(mode: Mode): int {
    if mode == Target then PING_TIMEOUT else PING_TIMEOUT + 1
  }

  /** on_update_connected. */
  function Watch(p: Peer, w: World): Peer
    requires p.state == Connected
  {
    var silence := w.now - p.lastActivity;
    if silence > Threshold(p.mode) && !p.pingOnWire then Transmit(p, PingRequest, w).(pingOnWire := true)
    else if p.pingOnWire && silence > 2 * Threshold(p.mode) then p.(state := Failed)
    else p
  }

  /** peer_deliver_incoming, once the message is decoded. */
  function DeliverTo(p: Peer, m: Msg, w: World): Peer {
    if m.Handshake? then
      if p.state == WaitHandshake then AnswerHandshake(p, m, w) else Undefined(p, ReceiveHandshake)
    else if p.state == Connected then Receive(p, m, w)
    else Undefined(p, ReceiveMessage)
  }

  /** The update action at the end of peer_update. */
  function Tick(p: Peer, w: World): Peer {
    if p.state == Connected then Watch(p, w) else p
  }

  /** The disconnect action, when the transport reports an error or the end of the stream. */
  function HangUp(p: Peer): Peer {
    if p.state == Initial then Undefined(p, Disconnect) else p.(state := Disconnected)
  }

  /** peer_init. */
  function Init(mode: Mode, major: nat, minor: nat, w: World): Peer {
    var p := Peer(mode, major, minor, Initial, false, w.now, [], 0, 0, 0, []);
    if mode == Controller then SendHandshake(p, w) else p.(state := WaitHandshake)
  }

  // ---------- the code itself ----------

  function Rank(a: Action): nat {
    match a
    case ReceiveMessage => 3
    case ReceiveHandshake => 3
    case Update => 3
    case TransmitMessage => 1
    case TransmitHandshake => 1
    case Disconnect => 1
  }

  /** peer_t, with the re-entrant calls of the source. */
  class PeerObject {
    const mode: Mode
    const major: nat
    const minor: nat
    var state: State
    var pingOnWire: bool
    var lastActivity: int
    var out: seq<Msg>
    var attempts: nat
    ghost var connections: nat
    ghost var refusals: nat
    ghost var undefined: seq<(State, Action)>

    ghost function View(): Peer
      reads this
    {
      Peer(mode, major, minor, state, pingOnWire, lastActivity, out, attempts, connections, refusals, undefined)
    }

    constructor (mode: Mode, major: nat, minor: nat, w: World)
      ensures View() == Init(mode, major, minor, w)
    {
      this.mode, this.major, this.minor := mode, major, minor;
      state, pingOnWire, lastActivity := Initial, false, w.now;
      out, attempts, connections, refusals, undefined := [], 0, 0, 0, [];
      new;
      if mode == Controller {
        InvokeAction(TransmitHandshake, None, w);
      } else {
        SetState(WaitHandshake, w);
      }
    }

    /** enqueue_output_message. */
    method EnqueueOutputMessage(m: Msg, w: World) returns (ok: bool)
      modifies this`out, this`attempts
      ensures ok <==> old(attempts) !in w.failing
      ensures View() == old(View()).(attempts := old(attempts) + 1, out := if ok then old(out) + [m] else old(out))
    {
      attempts := attempts + 1;
      if attempts - 1 in w.failing {
        return false;
      }
      out := out + [m];
      ok := true;
    }

    /** peer_set_state. */
    method SetState(s: State, w: World)
      modifies this
      ensures View() == if s == Connected then Connect(old(View()), w) else old(View()).(state := s)
      decreases if s == Connected then 2 else 0, 0
    {
      if state != s {
        state := s;
        if s == Connected {
          connections := connections + 1;
          ghost var entered := View();
          // The on_connected callback.
          for i := 0 to |w.greeting|
            invariant View() == TransmitAll(entered, w.greeting[..i], w)
          {
            assert w.greeting[..i + 1][..i] == w.greeting[..i];
            InvokeAction(TransmitMessage, Some(App(w.greeting[i])), w);
          }
          assert w.greeting[..|w.greeting|] == w.greeting;
        }
      }
    }

    method RunTransmitHandshake(w: World)
      requires state == Initial || state == WaitHandshake
      modifies this
      ensures View() == SendHandshake(old(View()), w)
      decreases 1, 0
    {
      var ok := EnqueueOutputMessage(Handshake(major, minor), w);
      SetState(if ok then WaitHandshake else Failed, w);
    }

    method RunReceiveHandshake(m: Msg, w: World)
      requires m.Handshake? && state == WaitHandshake
      modifies this
      ensures View() == AnswerHandshake(old(View()), m, w)
      decreases 3, 0
    {
      if m.major == major {
        if mode == Target {
          InvokeAction(TransmitHandshake, None, w);
        }
        SetState(Connected, w);
      } else {
        SetState(Failed, w);
      }
    }

    method RunTransmitMessage(m: Msg, w: World)
      requires state == Connected
      modifies this
      ensures View() == Enqueue(old(View()), m, w)
      decreases 1, 0
    {
      var ok := EnqueueOutputMessage(m, w);
      if !ok {
        SetState(Failed, w);
      }
    }

    method RunReceiveMessage(m: Msg, w: World)
      requires !m.Handshake? && state == Connected
      modifies this
      ensures View() == Receive(old(View()), m, w)
      decreases 3, 0
    {
      lastActivity := w.now;
      match m {
        case PingRequest =>
          InvokeAction(TransmitMessage, Some(PingAnswer), w);
        case PingAnswer =>
          pingOnWire := false;
        case App(_) =>
          // The on_message callback.
          ghost var entered := View();
          for i := 0 to |w.replies|
            invariant View() == TransmitAll(entered, w.replies[..i], w)
          {
            assert w.replies[..i + 1][..i] == w.replies[..i];
            InvokeAction(TransmitMessage, Some(App(w.replies[i])), w);
          }
          assert w.replies[..|w.replies|] == w.replies;
          if !w.accepts {
            refusals := refusals + 1;
            SetState(Failed, w);
          }
      }
    }

    method RunUpdateConnected(w: World)
      requires state == Connected
      modifies this
      ensures View() == Watch(old(View()), w)
      decreases 3, 0
    {
      var silence := w.now - lastActivity;
      var threshold := if mode == Target then PING_TIMEOUT else PING_TIMEOUT + 1;
      if silence > threshold && !pingOnWire {
        InvokeAction(TransmitMessage, Some(PingRequest), w);
        pingOnWire := true;
      } else if pingOnWire && silence > threshold * 2 {
        SetState(Failed, w);
      }
    }

    /** What invoke_action comes to for a given state. */
    ghost function Invoked(p: Peer, action: Action, m: Option<Msg>, w: World): Peer
      requires action == ReceiveHandshake ==> m.Some? && m.value.Handshake?
      requires action == ReceiveMessage ==> m.Some? && !m.value.Handshake?
      requires action == TransmitMessage ==> m.Some?
    {
      match action
      case ReceiveMessage => DeliverTo(p, m.value, w)
      case ReceiveHandshake => DeliverTo(p, m.value, w)
      case TransmitMessage => Transmit(p, m.value, w)
      case TransmitHandshake =>
        if p.state == Initial || p.state == WaitHandshake then SendHandshake(p, w) else Undefined(p, TransmitHandshake)
      case Disconnect => HangUp(p)
      case Update => Tick(p, w)
    }

    /** invoke_action: looks up the table; a missing entry is logged and fails the peer. */
    method InvokeAction(action: Action, m: Option<Msg>, w: World)
      requires action == ReceiveHandshake ==> m.Some? && m.value.Handshake?
      requires action == ReceiveMessage ==> m.Some? && !m.value.Handshake?
      requires action == TransmitMessage ==> m.Some?
      modifies this
      ensures View() == Invoked(old(View()), action, m, w)
      decreases Rank(action), 1
    {
      match Table(state, action)
      case OnTransmitHandshake => RunTransmitHandshake(w);
      case OnReceiveHandshake => RunReceiveHandshake(m.value, w);
      case OnTransmitMessage => RunTransmitMessage(m.value, w);
      case OnReceiveMessage => RunReceiveMessage(m.value, w);
      case OnDisconnect => SetState(Disconnected, w);
      case OnUpdateConnected => RunUpdateConnected(w);
      case Nop =>
      case Missing =>
        undefined := undefined + [(state, action)];
        SetState(Failed, w);
    }

    /**
     The actions of one peer_update, given what its transport delivered and
     reported: that it is broken, or has output left.
     */
    method PeerUpdate(incoming: seq<Msg>, worlds: seq<World>, broken: bool, needsOutput: bool, w: World)
      returns (result: UpdateResult)
      requires |worlds| == |incoming|
      modifies this
      ensures View() == Updated(old(View()), incoming, worlds, broken, w)
      ensures result == RemoveMe <==> state == Failed || state == Disconnected
      ensures broken ==> result == RemoveMe && (old(state) != Initial || incoming != [] ==> state == Disconnected)
      ensures result == NeedOutput <==> state != Failed && state != Disconnected && needsOutput
    {
      ghost var before := View();
      if broken {
        BrokenDisconnects(before, incoming, worlds, w);
      }
      for i := 0 to |incoming|
        invariant View() == DeliverAll(before, incoming[..i], worlds[..i])
      {
        assert incoming[..i + 1][..i] == incoming[..i] && worlds[..i + 1][..i] == worlds[..i];
        if incoming[i].Handshake? {
          InvokeAction(ReceiveHandshake, Some(incoming[i]), worlds[i]);
        } else {
          InvokeAction(ReceiveMessage, Some(incoming[i]), worlds[i]);
        }
      }
      assert incoming[..|incoming|] == incoming && worlds[..|worlds|] == worlds;
      if broken {
        InvokeAction(Disconnect, None, w);
      }
      InvokeAction(Update, None, w);
      if state == Failed || state == Disconnected {
        result := RemoveMe;
      } else if needsOutput {
        result := NeedOutput;
      } else {
        result := NothingToDo;
      }
    }
  }

  function DeliverAll(p: Peer, incoming: seq<Msg>, worlds: seq<World>): Peer
    requires |worlds| == |incoming|
  {
    if incoming == [] then p
    else
      var n := |incoming| - 1;
      DeliverTo(DeliverAll(p, incoming[..n], worlds[..n]), incoming[n], worlds[n])
  }

  function Updated(p: Peer, incoming: seq<Msg>, worlds: seq<World>, broken: bool, w: World): Peer
    requires |worlds| == |incoming|
  {
    var q := DeliverAll(p, incoming, worlds);
    Tick(if broken then HangUp(q) else q, w)
  }

  // ---------- what one update does ----------

  /** The seconds of silence after which a peer sends a ping; after twice as many it gives up. */
  function Patience(mode: Mode): (seconds: int)
    ensures mode == Target ==> seconds == 30
    ensures mode == Controller ==> seconds == 31
  {
    match mode
    case Target => 30
    case Controller => 31
  }

  /**
   A connected peer with memory sends exactly one ping, and sets its flag, if and
   only if it has heard nothing for longer than its patience and no ping is out.
   It gives up if and only if one is out and the silence is longer than twice that.
   Nothing else changes.
   */
  lemma PingsExactly(p: Peer, incoming: seq<Msg>, worlds: seq<World>, w: World)
    requires |worlds| == |incoming|
    requires var q := DeliverAll(p, incoming, worlds); q.state == Connected && q.attempts !in w.failing
    ensures
      var q, r := DeliverAll(p, incoming, worlds), Updated(p, incoming, worlds, false, w);
      var silence := w.now - q.lastActivity;
      var pings := silence > Patience(p.mode) && !q.pingOnWire;
      && r.out == (if pings then q.out + [PingRequest] else q.out)
      && r.pingOnWire == (q.pingOnWire || pings)
      && r.state == (if q.pingOnWire && silence > 2 * Patience(p.mode) then Failed else Connected)
      && r.lastActivity == q.lastActivity && r.connections == q.connections && r.undefined == q.undefined
  {
    DeliverAllSame(p, incoming, worlds);
  }

  /** Without memory for the ping the peer fails. */
  lemma PingWithoutMemory(p: Peer, incoming: seq<Msg>, worlds: seq<World>, w: World)
    requires |worlds| == |incoming|
    requires var q := DeliverAll(p, incoming, worlds); q.state == Connected && q.attempts in w.failing
    ensures
      var q, r := DeliverAll(p, incoming, worlds), Updated(p, incoming, worlds, false, w);
      && r.out == q.out
      && (w.now - q.lastActivity > Patience(p.mode) && !q.pingOnWire ==> r.state == Failed)
  {
    DeliverAllSame(p, incoming, worlds);
  }

  lemma {:induction false} TransmitAllSame(p: Peer, ids: seq<nat>, w: World)
    ensures var q := TransmitAll(p, ids, w);
      q.mode == p.mode && q.lastActivity == p.lastActivity && (p.state != Initial ==> q.state != Initial)
    decreases |ids|
  {
    if ids == [] {
    } else {
      TransmitAllSame(p, ids[..|ids| - 1], w);
    }
  }

  lemma DeliverToSame(p: Peer, m: Msg, w: World)
    ensures var q := DeliverTo(p, m, w);
      && q.mode == p.mode && q.state != Initial
      && q.lastActivity == if p.state == Connected && !m.Handshake? then w.now else p.lastActivity
  {
    hide TransmitAll;
    TransmitAllSame(p.(lastActivity := w.now), w.replies, w);
    var q := if p.mode == Target then SendHandshake(p, w) else p;
    TransmitAllSame(q.(state := Connected, connections := q.connections + 1), w.greeting, w);
  }

  lemma {:induction false} DeliverAllSame(p: Peer, incoming: seq<Msg>, worlds: seq<World>)
    requires |worlds| == |incoming|
    ensures var q := DeliverAll(p, incoming, worlds);
      q.mode == p.mode && (q.state == Initial <==> p.state == Initial && incoming == [])
    decreases |incoming|
  {
    hide DeliverTo;
    if incoming == [] {
    } else {
      var n := |incoming| - 1;
      DeliverAllSame(p, incoming[..n], worlds[..n]);
      DeliverToSame(DeliverAll(p, incoming[..n], worlds[..n]), incoming[n], worlds[n]);
    }
  }

  /** A broken transport disconnects the peer, from every state but the initial one, where that is not defined. */
  lemma BrokenDisconnects(p: Peer, incoming: seq<Msg>, worlds: seq<World>, w: World)
    requires |worlds| == |incoming|
    ensures
      var q, r := DeliverAll(p, incoming, worlds), Updated(p, incoming, worlds, true, w);
      && r.out == q.out && r.lastActivity == q.lastActivity
      && (p.state != Initial || incoming != [] ==> r.state == Disconnected && r.undefined == q.undefined)
      && (p.state == Initial && incoming == [] ==>
            r.state == Failed && r.undefined == p.undefined + [(Initial, Disconnect)])
  {
    DeliverAllSame(p, incoming, worlds);
  }

  /** Message number k is taken as traffic: the peer is connected when its turn comes, and it is no handshake. */
  predicate TakenAt(p: Peer, incoming: seq<Msg>, worlds: seq<World>, k: nat)
    requires |worlds| == |incoming| && k < |incoming|
  {
    DeliverAll(p, incoming[..k], worlds[..k]).state == Connected && !incoming[k].Handshake?
  }

  lemma {:induction false} ActivityFrom(p: Peer, incoming: seq<Msg>, worlds: seq<World>, from: nat)
    requires |worlds| == |incoming| && from <= |incoming|
    requires forall j :: from <= j < |incoming| ==> !TakenAt(p, incoming, worlds, j)
    ensures DeliverAll(p, incoming, worlds).lastActivity
         == DeliverAll(p, incoming[..from], worlds[..from]).lastActivity
    decreases |incoming|
  {
    hide DeliverTo;
    if from == |incoming| {
      assert incoming[..from] == incoming && worlds[..from] == worlds;
    } else {
      var n := |incoming| - 1;
      forall j | from <= j < n
        ensures !TakenAt(p, incoming[..n], worlds[..n], j)
      {
        assert !TakenAt(p, incoming, worlds, j);
        assert incoming[..n][..j] == incoming[..j] && worlds[..n][..j] == worlds[..j];
      }
      ActivityFrom(p, incoming[..n], worlds[..n], from);
      assert incoming[..n][..from] == incoming[..from] && worlds[..n][..from] == worlds[..from];
      assert !TakenAt(p, incoming, worlds, n);
      DeliverToSame(DeliverAll(p, incoming[..n], worlds[..n]), incoming[n], worlds[n]);
    }
  }

  predicate NoneTaken(p: Peer, incoming: seq<Msg>, worlds: seq<World>, from: nat)
    requires |worlds| == |incoming|
  {
    forall j :: from <= j < |incoming| ==> !TakenAt(p, incoming, worlds, j)
  }

  /** The time of last activity is that of the last message that was taken, or as before if none was. */
  lemma ActivityIsLastTaken(p: Peer, incoming: seq<Msg>, worlds: seq<World>, k: nat)
    requires |worlds| == |incoming|
    requires k < |incoming| && NoneTaken(p, incoming, worlds, k + 1)
    ensures var q := DeliverAll(p, incoming, worlds);
      if TakenAt(p, incoming, worlds, k) then q.lastActivity == worlds[k].now
      else NoneTaken(p, incoming, worlds, 0) ==> q.lastActivity == p.lastActivity
  {
    hide DeliverTo;
    if TakenAt(p, incoming, worlds, k) {
      ActivityFrom(p, incoming, worlds, k + 1);
      assert incoming[..k + 1][..k] == incoming[..k] && worlds[..k + 1][..k] == worlds[..k];
      DeliverToSame(DeliverAll(p, incoming[..k], worlds[..k]), incoming[k], worlds[k]);
    } else if NoneTaken(p, incoming, worlds, 0) {
      ActivityFrom(p, incoming, worlds, 0);
      assert incoming[..0] == [];
    }
  }

  /** The messages of an update are taken one by one, in their order. */
  lemma {:induction false} TakenInOrder(p: Peer, first: seq<Msg>, early: seq<World>, second: seq<Msg>, late: seq<World>)
    requires |first| == |early| && |second| == |late|
    ensures DeliverAll(p, first + second, early + late) == DeliverAll(DeliverAll(p, first, early), second, late)
    ensures |first| == 1 ==> DeliverAll(p, first, early) == DeliverTo(p, first[0], early[0])
    decreases |second|
  {
    hide DeliverTo;
    if |first| == 1 {
      assert first[..0] == [];
    }
    if second == [] {
      assert first + second == first && early + late == early;
    } else {
      var n := |second| - 1;
      TakenInOrder(p, first, early, second[..n], late[..n]);
      assert (first + second)[..|first| + n] == first + second[..n];
      assert (early + late)[..|first| + n] == early + late[..n];
    }
  }

  // ---------- what a connected peer sends ----------

  function Apps(ids: seq<nat>): (s: seq<Msg>)
    ensures |s| == |ids| && forall i :: 0 <= i < |s| ==> s[i].App?
  {
    seq(|ids|, i requires 0 <= i < |ids| => App(ids[i]))
  }

  /** With memory for all of them, the messages of a burst are sent in order. */
  lemma {:induction false} BurstFits(p: Peer, ids: seq<nat>, w: World)
    requires p.state == Connected && forall a :: p.attempts <= a < p.attempts + |ids| ==> a !in w.failing
    ensures TransmitAll(p, ids, w) == p.(out := p.out + Apps(ids), attempts := p.attempts + |ids|)
    decreases |ids|
  {
    if ids == [] {
      assert p.out + Apps([]) == p.out;
    } else {
      var front := ids[..|ids| - 1];
      BurstFits(p, front, w);
      assert Apps(ids) == Apps(front) + [App(ids[|ids| - 1])];
      assert p.out + Apps(front) + [App(ids[|ids| - 1])] == p.out + Apps(ids);
    }
  }

  /** What a connected peer sends for a message: an answer for a ping, and what the application has to say. */
  function Reaction(m: Msg, w: World): seq<Msg> {
    match m
    case PingRequest => [PingAnswer]
    case App(_) => Apps(w.replies)
    case _ => []
  }

  function Reactions(incoming: seq<Msg>, worlds: seq<World>): seq<Msg>
    requires |worlds| == |incoming|
  {
    if incoming == [] then [] else Reaction(incoming[0], worlds[0]) + Reactions(incoming[1..], worlds[1..])
  }

  ghost predicate AllGoesWell(incoming: seq<Msg>, worlds: seq<World>)
    requires |worlds| == |incoming|
  {
    forall i :: 0 <= i < |incoming| ==> !incoming[i].Handshake? && worlds[i].accepts && worlds[i].failing == {}
  }

  lemma TakesOne(p: Peer, m: Msg, w: World)
    requires p.state == Connected && !m.Handshake? && w.failing == {}
    ensures var q := DeliverTo(p, m, w);
      && q.out == p.out + Reaction(m, w)
      && q.pingOnWire == (p.pingOnWire && m != PingAnswer)
      && q.state == (if m.App? && !w.accepts then Failed else Connected)
      && q.refusals == p.refusals + (if m.App? && !w.accepts then 1 else 0)
      && q.connections == p.connections && q.undefined == p.undefined
  {
    hide TransmitAll;
    BurstFits(p.(lastActivity := w.now), w.replies, w);
    assert p.out + [] == p.out;
  }

  /** The peer after it has taken these messages, none of which was refused. */
  predicate TookAll(p: Peer, q: Peer, incoming: seq<Msg>, worlds: seq<World>)
    requires |worlds| == |incoming|
  {
    && q.state == Connected && q.out == p.out + Reactions(incoming, worlds)
    && q.pingOnWire == (p.pingOnWire && PingAnswer !in incoming)
    && q.lastActivity == (if incoming == [] then p.lastActivity else worlds[|worlds| - 1].now)
    && q.connections == p.connections && q.refusals == p.refusals && q.undefined == p.undefined
  }

  lemma TookNone(p: Peer)
    requires p.state == Connected
    ensures DeliverAll(p, [], []) == p && TookAll(p, p, [], [])
  {
    assert p.out + [] == p.out;
  }

  lemma TookOneMore(p: Peer, q: Peer, r: Peer, incoming: seq<Msg>, worlds: seq<World>)
    requires |worlds| == |incoming| && incoming != [] && TookAll(q, r, incoming[1..], worlds[1..])
    requires q.out == p.out + Reaction(incoming[0], worlds[0])
    requires q.pingOnWire == (p.pingOnWire && incoming[0] != PingAnswer) && q.lastActivity == worlds[0].now
    requires q.connections == p.connections && q.refusals == p.refusals && q.undefined == p.undefined
    ensures TookAll(p, r, incoming, worlds)
  {
    hide Reaction;
    var rest, later := incoming[1..], worlds[1..];
    assert p.out + Reaction(incoming[0], worlds[0]) + Reactions(rest, later)
        == p.out + (Reaction(incoming[0], worlds[0]) + Reactions(rest, later));
    assert incoming == [incoming[0]] + rest;
  }

  lemma TakesFirst(p: Peer, incoming: seq<Msg>, worlds: seq<World>)
    requires |worlds| == |incoming| && incoming != [] && AllGoesWell(incoming, worlds)
    ensures !incoming[0].Handshake? && worlds[0].accepts && worlds[0].failing == {}
    ensures AllGoesWell(incoming[1..], worlds[1..])
  {
    var rest, later := incoming[1..], worlds[1..];
    assert forall i :: 0 <= i < |rest| ==> rest[i] == incoming[i + 1] && later[i] == worlds[i + 1];
  }

  /**
   A connected peer answers every message of an update in turn, and stays
   connected, if there is memory and the application accepts them all.
   */
  lemma {:induction false} TakesAll(p: Peer, incoming: seq<Msg>, worlds: seq<World>)
    requires |worlds| == |incoming| && p.state == Connected && AllGoesWell(incoming, worlds)
    ensures TookAll(p, DeliverAll(p, incoming, worlds), incoming, worlds)
    decreases |incoming|
  {
    if incoming == [] {
      TookNone(p);
    } else {
      hide *;
      var m, w, rest, later := incoming[0], worlds[0], incoming[1..], worlds[1..];
      var q := DeliverTo(p, m, w);
      TakesFirst(p, incoming, worlds);
      TakesOne(p, m, w);
      DeliverToSame(p, m, w);
      TakesAll(q, rest, later);
      assert incoming == [m] + rest && worlds == [w] + later;
      TakenInOrder(p, [m], [w], rest, later);
      TookOneMore(p, q, DeliverAll(q, rest, later), incoming, worlds);
    }
  }

  /** What the other side's handshake makes of a waiting peer with memory. */
  lemma TakesHandshake(p: Peer, m: Msg, w: World)
    requires p.state == WaitHandshake && m.Handshake? && w.failing == {}
    ensures var q := DeliverTo(p, m, w);
      if m.major == p.major then
        && q.state == Connected && q.connections == p.connections + 1
        && q.out == p.out + (if p.mode == Target then [Handshake(p.major, p.minor)] else []) + Apps(w.greeting)
      else q == p.(state := Failed)
  {
    hide TransmitAll;
    var q := if p.mode == Target then SendHandshake(p, w) else p;
    BurstFits(q.(state := Connected, connections := q.connections + 1), w.greeting, w);
    assert p.out + [] == p.out;
  }

  /** How a peer begins: a controller with memory has sent its handshake, a target has sent nothing. */
  lemma Begins(mode: Mode, major: nat, minor: nat, w: World)
    ensures var p := Init(mode, major, minor, w);
      && p.mode == mode && p.major == major && p.minor == minor && p.lastActivity == w.now && !p.pingOnWire
      && p.state == (if mode == Controller && 0 in w.failing then Failed else WaitHandshake)
      && p.out == (if mode == Controller && 0 !in w.failing then [Handshake(major, minor)] else [])
      && p.connections == p.refusals == 0 && p.undefined == []
  {
  }

  /**
   If the allocation for message number k of a burst fails, those before it are
   sent, and each one after it runs an entry that is not defined.
   */
  lemma {:induction false} BurstUntilFailure(p: Peer, ids: seq<nat>, k: nat, w: World)
    requires p.state == Connected && k < |ids| && p.attempts + k in w.failing
    requires forall a :: p.attempts <= a < p.attempts + k ==> a !in w.failing
    ensures var q := TransmitAll(p, ids, w);
      && q.state == Failed && q.out == p.out + Apps(ids[..k]) && q.attempts == p.attempts + k + 1
      && |q.undefined| == |p.undefined| + |ids| - k - 1
    decreases |ids|
  {
    var n := |ids| - 1;
    if k < n {
      BurstUntilFailure(p, ids[..n], k, w);
      assert ids[..n][..k] == ids[..k];
    } else {
      BurstFits(p, ids[..k], w);
    }
  }

  // ---------- a failed handshake ----------

  /** Sending adds application messages at most, whatever allocations fail, and never goes back to waiting. */
  lemma {:induction false} TransmitAllAdds(p: Peer, ids: seq<nat>, w: World)
    ensures var q := TransmitAll(p, ids, w);
      && |p.out| <= |q.out| && q.out[..|p.out|] == p.out
      && (forall i :: |p.out| <= i < |q.out| ==> q.out[i].App?)
      && q.connections == p.connections && q.mode == p.mode
    decreases |ids|
  {
    if ids == [] {
    } else {
      TransmitAllAdds(p, ids[..|ids| - 1], w);
    }
  }

  /** The peer has been told of the connection, but has put no handshake on the channel. */
  predicate ConnectsSilently(p: Peer, q: Peer) {
    && p.mode == Target && q.connections == p.connections + 1
    && |p.out| <= |q.out| && forall i :: |p.out| <= i < |q.out| ==> !q.out[i].Handshake?
  }

  /**
   When the buffer for the answering handshake cannot be allocated, the failure
   is overwritten: the target counts itself connected, greets, and has sent no
   handshake. That happens exactly when that allocation fails, whatever happens
   to the later ones.
   */
  lemma FailedHandshakeIsMasked(p: Peer, m: Msg, w: World)
    requires m.Handshake? && p.state == WaitHandshake
    ensures ConnectsSilently(p, AnswerHandshake(p, m, w)) <==>
      p.mode == Target && m.major == p.major && p.attempts in w.failing
  {
    var q := if p.mode == Target then SendHandshake(p, w) else p;
    var r := q.(state := Connected, connections := q.connections + 1);
    TransmitAllAdds(r, w.greeting, w);
    hide TransmitAll;
    if p.mode == Target && m.major == p.major && p.attempts !in w.failing {
      assert r.out[|p.out|].Handshake?;
      assert AnswerHandshake(p, m, w).out[|p.out|] == r.out[|p.out|];
    }
  }
}
