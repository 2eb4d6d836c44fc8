/** How a byte stream is cut into messages: peer_peek_incoming and, as pure functions, the two halves of a transport. */
module Framing {
  import opened Base

  /** peer_peek_incoming: the size the header declares, or 4 while the header is incomplete. */
  function PeekIncoming(buf: seq<Byte>): (size: nat) {
    if |buf| < 4 then 4
    else var hi: nat, lo: nat := buf[2], buf[3]; hi * 256 + lo
  }

  // ---------- the stream parser: the reference ----------

  datatype Parsed = Parsed(frames: seq<seq<Byte>>, rest: seq<Byte>, failed: bool)

  /**
   All of a stream cut into frames. It stops at a frame longer than cap or one
   that its receiver does not accept (failed), at an incomplete frame, and at a
   declared length of zero.
   */
  function ParseStream(s: seq<Byte>, cap: nat, accepts: seq<Byte> -> bool): (p: Parsed)
    decreases |s|
  {
    var size := PeekIncoming(s);
    if s == [] || size == 0 then Parsed([], s, false)
    else if size > cap then Parsed([], s, true)
    else if |s| < size then Parsed([], s, false)
    else if !accepts(s[..size]) then Parsed([], s, true)
    else
      var p := ParseStream(s[size..], cap, accepts);
      p.(frames := [s[..size]] + p.frames)
  }

  /** Nothing left that the loop of rl_transport_update could deliver. */
  predicate Incomplete(s: seq<Byte>, cap: nat) {
    s == [] || PeekIncoming(s) == 0 || |s| < PeekIncoming(s) <= cap
  }

  /** ParseStream, unfolded once. */
  lemma ParseStep(s: seq<Byte>, cap: nat, accepts: seq<Byte> -> bool)
    ensures var size := PeekIncoming(s);
      ParseStream(s, cap, accepts) ==
        if s == [] || size == 0 then Parsed([], s, false)
        else if size > cap then Parsed([], s, true)
        else if |s| < size then Parsed([], s, false)
        else if !accepts(s[..size]) then Parsed([], s, true)
        else var p := ParseStream(s[size..], cap, accepts); p.(frames := [s[..size]] + p.frames)
  {
  }

  lemma FlattenCons(x: seq<Byte>, xs: seq<seq<Byte>>)
    ensures Flatten([x] + xs) == x + Flatten(xs)
  {
    assert ([x] + xs)[1..] == xs;
  }

  /** The frames and the rest are the stream: no byte is lost, none made up; and only a partial frame waits. */
  lemma {:induction false} ParsePartitions(s: seq<Byte>, cap: nat, accepts: seq<Byte> -> bool)
    ensures var p := ParseStream(s, cap, accepts); s == Flatten(p.frames) + p.rest
    ensures var p := ParseStream(s, cap, accepts); !p.failed ==> Incomplete(p.rest, cap)
    ensures var p := ParseStream(s, cap, accepts); forall f <- p.frames ::
      0 < |f| <= cap && accepts(f)
    decreases |s|
  {
    hide ParseStream, PeekIncoming, Flatten;
    ParseStep(s, cap, accepts);
    var size := PeekIncoming(s);
    if s != [] && 0 < size <= cap && size <= |s| && accepts(s[..size]) {
      ParsePartitions(s[size..], cap, accepts);
      var p := ParseStream(s[size..], cap, accepts);
      FlattenCons(s[..size], p.frames);
      assert s == s[..size] + s[size..];
      assert s[..size] + (Flatten(p.frames) + p.rest) == s[..size] + Flatten(p.frames) + p.rest;
    } else {
      FlattenNothing(s);
    }
  }

  lemma FlattenNothing(s: seq<Byte>)
    ensures Flatten([]) + s == s
  {
  }

  lemma PeekAppend(s: seq<Byte>, t: seq<Byte>)
    ensures |s| >= 4 ==> PeekIncoming(s + t) == PeekIncoming(s)
    ensures |s| < 4 ==> PeekIncoming(s) == 4
  {
  }

  /** More input only ever adds frames: parsing s + t is parsing s, then the rest of s followed by t. */
  lemma {:induction false} ParseAppend(s: seq<Byte>, t: seq<Byte>, cap: nat, accepts: seq<Byte> -> bool)
    requires cap >= 4
    ensures
      var p, q := ParseStream(s, cap, accepts), ParseStream(s + t, cap, accepts);
      if p.failed then q == Parsed(p.frames, p.rest + t, true)
      else var r := ParseStream(p.rest + t, cap, accepts); q == Parsed(p.frames + r.frames, r.rest, r.failed)
    decreases |s|
  {
    hide ParseStream, PeekIncoming;
    PeekAppend(s, t);
    var size := PeekIncoming(s);
    ParseStep(s, cap, accepts);
    if s == [] || size == 0 {
    } else {
      ParseStep(s + t, cap, accepts);
      if size <= |s| && size <= cap {
        assert (s + t)[..size] == s[..size];
        assert (s + t)[size..] == s[size..] + t;
        if accepts(s[..size]) {
          ParseAppend(s[size..], t, cap, accepts);
          var p := ParseStream(s[size..], cap, accepts);
          Associative([s[..size]], p.frames, ParseStream(p.rest + t, cap, accepts).frames);
        }
      }
    }
  }

  // ---------- the receiving half ----------

  /** received and delivered are the history: every byte taken from the socket, every frame handed on. */
  datatype Inbound = Inbound(
    received: seq<Byte>, content: seq<Byte>, delivered: seq<seq<Byte>>, error: bool, disconnect: bool)

  const NOTHING := Inbound([], [], [], false, false)

  /** What recv reports. It never returns more than the room it is offered. */
  datatype RecvResult = Arrived(bytes: seq<Byte>) | Closed | WouldBlock | RecvFailed

  /** rl_transport_on_input_arrived. A recv of no bytes, also for want of room, reads as a disconnect. */
  function Arrive(i: Inbound, r: RecvResult, cap: nat): (i': Inbound)
    requires |i.content| <= cap
    ensures |i'.content| <= cap
  {
    match r
    case Arrived(bytes) =>
      var n := Min(|bytes|, cap - |i.content|);
      if n == 0 then i.(disconnect := true)
      else i.(received := i.received + bytes[..n], content := i.content + bytes[..n])
    case Closed => i.(disconnect := true)
    case WouldBlock => i
    case RecvFailed => i.(error := true)
  }

  /** The inbound half of rl_transport_update. */
  function Deliver(i: Inbound, cap: nat, accepts: seq<Byte> -> bool): (i': Inbound) {
    if i.error || i.disconnect then i
    else
      var p := ParseStream(i.content, cap, accepts);
      i.(content := p.rest, delivered := i.delivered + p.frames, error := p.failed)
  }

  /** The buffer and the delivered frames always stand for the stream received so far. */
  ghost predicate InStep(i: Inbound, cap: nat, accepts: seq<Byte> -> bool) {
    var p, q := ParseStream(i.received, cap, accepts), ParseStream(i.content, cap, accepts);
    && |i.content| <= cap
    && (!i.error ==> p == Parsed(i.delivered + q.frames, q.rest, q.failed))
    && (i.error ==> i.delivered <= p.frames)
  }

  /** Appending the same bytes to the stream and to the buffer keeps them in step. */
  lemma GrowInStep(i: Inbound, t: seq<Byte>, cap: nat, accepts: seq<Byte> -> bool)
    requires InStep(i, cap, accepts) && cap >= 4 && |i.content| + |t| <= cap
    ensures InStep(i.(received := i.received + t, content := i.content + t), cap, accepts)
  {
    hide ParseStream;
    ParseAppend(i.received, t, cap, accepts);
    ParseAppend(i.content, t, cap, accepts);
    var q := ParseStream(i.content, cap, accepts);
    var s := ParseStream(q.rest + t, cap, accepts);
    assert (i.delivered + q.frames) + s.frames == i.delivered + (q.frames + s.frames);
    var p, p' := ParseStream(i.received, cap, accepts), ParseStream(i.received + t, cap, accepts);
    assert p.frames <= p'.frames;
  }

  lemma ArriveInStep(i: Inbound, r: RecvResult, cap: nat, accepts: seq<Byte> -> bool)
    requires InStep(i, cap, accepts) && cap >= 4
    ensures InStep(Arrive(i, r, cap), cap, accepts)
  {
    var p, q := ParseStream(i.received, cap, accepts), ParseStream(i.content, cap, accepts);
    hide ParseStream;
    if r.Arrived? {
      GrowInStep(i, r.bytes[..Min(|r.bytes|, cap - |i.content|)], cap, accepts);
    } else if r.RecvFailed? && !i.error {
      assert i.delivered <= p.frames;
    }
  }

  lemma RestStays(s: seq<Byte>, cap: nat, accepts: seq<Byte> -> bool)
    ensures var q := ParseStream(s, cap, accepts);
      !q.failed ==> ParseStream(q.rest, cap, accepts) == Parsed([], q.rest, false)
  {
    ParsePartitions(s, cap, accepts);
  }

  lemma DeliverInStep(i: Inbound, cap: nat, accepts: seq<Byte> -> bool)
    requires InStep(i, cap, accepts) && cap >= 4
    ensures InStep(Deliver(i, cap, accepts), cap, accepts)
  {
    hide ParseStream;
    if !i.error && !i.disconnect {
      var q := ParseStream(i.content, cap, accepts);
      ParsePartitions(i.content, cap, accepts);
      RestStays(i.content, cap, accepts);
      assert (i.delivered + q.frames) + [] == i.delivered + q.frames;
    }
  }

  datatype InEvent = Recv(r: RecvResult) | Update

  function RunIn(i: Inbound, events: seq<InEvent>, cap: nat, accepts: seq<Byte> -> bool): (i': Inbound)
    requires |i.content| <= cap
    ensures |i'.content| <= cap
    decreases |events|
  {
    if events == [] then i
    else
      var j := RunIn(i, events[..|events| - 1], cap, accepts);
      match events[|events| - 1]
      case Recv(r) => Arrive(j, r, cap)
      case Update =>
        ParsePartitions(j.content, cap, accepts);
        Deliver(j, cap, accepts)
  }

  lemma {:induction false} RunInStep(i: Inbound, events: seq<InEvent>, cap: nat, accepts: seq<Byte> -> bool)
    requires InStep(i, cap, accepts) && cap >= 4
    ensures InStep(RunIn(i, events, cap, accepts), cap, accepts)
    decreases |events|
  {
    if events == [] {
    } else {
      var before := events[..|events| - 1];
      RunInStep(i, before, cap, accepts);
      var j := RunIn(i, before, cap, accepts);
      match events[|events| - 1]
      case Recv(r) => ArriveInStep(j, r, cap, accepts);
      case Update => DeliverInStep(j, cap, accepts);
    }
  }

  /**
   Framing does not depend on how recv cut the stream or on when the updates
   came: whatever the run, an error-free update leaves exactly the frames of the
   whole stream delivered and exactly its unparsed rest in the buffer.
   */
  lemma FragmentationIndependence(events: seq<InEvent>, cap: nat, accepts: seq<Byte> -> bool)
    requires cap >= 4
    requires events != [] && events[|events| - 1] == Update
    ensures
      var i := RunIn(NOTHING, events, cap, accepts);
      !i.error && !i.disconnect ==> ParseStream(i.received, cap, accepts) == Parsed(i.delivered, i.content, false)
  {
    assert InStep(NOTHING, cap, accepts);
    RunInStep(NOTHING, events, cap, accepts);
    var i := RunIn(NOTHING, events, cap, accepts);
    if !i.error && !i.disconnect {
      var j := RunIn(NOTHING, events[..|events| - 1], cap, accepts);
      ParsePartitions(j.content, cap, accepts);
      assert ParseStream(i.content, cap, accepts) == Parsed([], i.content, false);
      assert i.delivered + [] == i.delivered;
    }
  }

  /** Two runs that received the same bytes delivered the same frames, however differently they were cut. */
  lemma SameStreamSameFrames(xs: seq<InEvent>, ys: seq<InEvent>, cap: nat, accepts: seq<Byte> -> bool)
    requires cap >= 4
    requires xs != [] && xs[|xs| - 1] == Update && ys != [] && ys[|ys| - 1] == Update
    requires RunIn(NOTHING, xs, cap, accepts).received == RunIn(NOTHING, ys, cap, accepts).received
    requires !RunIn(NOTHING, xs, cap, accepts).error && !RunIn(NOTHING, xs, cap, accepts).disconnect
    requires !RunIn(NOTHING, ys, cap, accepts).error && !RunIn(NOTHING, ys, cap, accepts).disconnect
    ensures RunIn(NOTHING, xs, cap, accepts).delivered == RunIn(NOTHING, ys, cap, accepts).delivered
    ensures RunIn(NOTHING, xs, cap, accepts).content == RunIn(NOTHING, ys, cap, accepts).content
  {
    FragmentationIndependence(xs, cap, accepts);
    FragmentationIndependence(ys, cap, accepts);
  }

  /**
   After an update without error the buffer is full, so that the next recv is
   asked for zero bytes and its answer read as a disconnect, exactly when it was
   full before and stuck behind a frame that declares length zero.
   */
  lemma RoomAfterUpdate(i: Inbound, cap: nat, accepts: seq<Byte> -> bool)
    requires cap >= 4 && |i.content| <= cap
    requires !i.error && !i.disconnect && !Deliver(i, cap, accepts).error
    ensures |Deliver(i, cap, accepts).content| == cap <==> |i.content| == cap && PeekIncoming(i.content) == 0
  {
    ParsePartitions(i.content, cap, accepts);
    var p := ParseStream(i.content, cap, accepts);
    if p.frames != [] {
      assert |Flatten(p.frames)| > 0 by {
        assert p.frames[0] in p.frames;
      }
    }
  }

  /** A round of peer_update on a readable socket: one recv, then the delivery loop. */
  function RunRounds(i: Inbound, rounds: seq<RecvResult>, cap: nat, accepts: seq<Byte> -> bool): (i': Inbound)
    requires |i.content| <= cap
    ensures |i'.content| <= cap
    decreases |rounds|
  {
    if rounds == [] then i
    else
      var j := Arrive(RunRounds(i, rounds[..|rounds| - 1], cap, accepts), rounds[|rounds| - 1], cap);
      ParsePartitions(j.content, cap, accepts);
      Deliver(j, cap, accepts)
  }

  predicate StuckFull(i: Inbound, cap: nat) {
    |i.content| == cap && PeekIncoming(i.content) == 0
  }

  lemma RoundIsSafe(i: Inbound, r: RecvResult, cap: nat, accepts: seq<Byte> -> bool)
    requires cap >= 4 && |i.content| <= cap && !i.error && !i.disconnect && Incomplete(i.content, cap)
    ensures
      var i' := Deliver(Arrive(i, r, cap), cap, accepts);
      && (!i'.error ==> Incomplete(i'.content, cap))
      && (!i'.error && i'.disconnect && r != Closed && r != Arrived([]) ==> StuckFull(i', cap))
  {
    var j := Arrive(i, r, cap);
    ParsePartitions(j.content, cap, accepts);
    hide ParseStream;
  }

  lemma StaysStuck(i: Inbound, r: RecvResult, cap: nat, accepts: seq<Byte> -> bool)
    requires cap >= 4 && |i.content| == cap && i.disconnect
    ensures Deliver(Arrive(i, r, cap), cap, accepts).content == i.content
    ensures Deliver(Arrive(i, r, cap), cap, accepts).disconnect
  {
    hide ParseStream;
  }

  /**
   Without errors, every round up to and including the one that notices a close
   ends with no deliverable frame in the buffer, so none is lost; and while the
   other side has not closed, a disconnect is only ever reported behind a
   zero-length frame that has filled the whole buffer.
   */
  lemma {:induction false} NoSpuriousDisconnect(rounds: seq<RecvResult>, cap: nat, accepts: seq<Byte> -> bool)
    requires cap >= 4 && rounds != []
    ensures
      var j := RunRounds(NOTHING, rounds[..|rounds| - 1], cap, accepts);
      var i := RunRounds(NOTHING, rounds, cap, accepts);
      && (i.error || j.disconnect || (!j.error && Incomplete(i.content, cap)))
      && (!i.error && i.disconnect && Closed !in rounds && Arrived([]) !in rounds ==> StuckFull(i, cap))
    decreases |rounds|
  {
    hide ParseStream, Incomplete, PeekIncoming;
    var before, r := rounds[..|rounds| - 1], rounds[|rounds| - 1];
    assert rounds == before + [r];
    if before != [] {
      NoSpuriousDisconnect(before, cap, accepts);
    }
    var j := RunRounds(NOTHING, before, cap, accepts);
    if !j.error && !j.disconnect {
      assert Incomplete(j.content, cap) by { IncompleteStart(cap); }
      RoundIsSafe(j, r, cap, accepts);
    } else if |j.content| == cap && j.disconnect {
      StaysStuck(j, r, cap, accepts);
    }
  }

  // ---------- what is reported ----------

  /** A recv that reads as the end of the stream: a close, no bytes, or a buffer without room for any. */
  predicate ReadsAsEnd(content: seq<Byte>, r: RecvResult, cap: nat) {
    r == Closed || r == Arrived([]) || (r.Arrived? && |content| == cap)
  }

  /** One round: what it reports, and what it does with the bytes. */
  lemma RoundReports(i: Inbound, r: RecvResult, cap: nat, accepts: seq<Byte> -> bool)
    requires |i.content| <= cap
    ensures var i' := Deliver(Arrive(i, r, cap), cap, accepts);
      && (i'.disconnect <==> i.disconnect || ReadsAsEnd(i.content, r, cap))
      && (i'.disconnect && !r.RecvFailed? ==> i'.error == i.error)
      && (r.RecvFailed? ==> i'.error)
      && (i.error ==> i'.error)
  {
    hide ParseStream;
  }

  /** Round k, after the others, reads the end of the stream. */
  predicate EndsAt(i: Inbound, rounds: seq<RecvResult>, k: nat, cap: nat, accepts: seq<Byte> -> bool)
    requires k < |rounds| && |i.content| <= cap
  {
    ReadsAsEnd(RunRounds(i, rounds[..k], cap, accepts).content, rounds[k], cap)
  }

  lemma EndsBefore(i: Inbound, rounds: seq<RecvResult>, m: nat, k: nat, cap: nat, accepts: seq<Byte> -> bool)
    requires k < m <= |rounds| && |i.content| <= cap
    ensures EndsAt(i, rounds[..m], k, cap, accepts) <==> EndsAt(i, rounds, k, cap, accepts)
  {
    assert rounds[..m][..k] == rounds[..k];
    hide RunRounds;
  }

  lemma RoundStep(i: Inbound, rounds: seq<RecvResult>, cap: nat, accepts: seq<Byte> -> bool)
    requires |i.content| <= cap && rounds != []
    ensures var j := RunRounds(i, rounds[..|rounds| - 1], cap, accepts);
      RunRounds(i, rounds, cap, accepts) == Deliver(Arrive(j, rounds[|rounds| - 1], cap), cap, accepts)
  {
    hide ParseStream, Deliver, Arrive;
  }

  /**
   A disconnect is reported after the rounds exactly if one of them, wherever it
   stands, read the end of the stream; once reported it stays.
   */
  lemma {:induction false} DisconnectExactly(i: Inbound, rounds: seq<RecvResult>, cap: nat, accepts: seq<Byte> -> bool)
    requires |i.content| <= cap
    ensures
      RunRounds(i, rounds, cap, accepts).disconnect <==>
        i.disconnect || exists k :: 0 <= k < |rounds| && EndsAt(i, rounds, k, cap, accepts)
    decreases |rounds|
  {
    if rounds == [] {
    } else {
      hide RunRounds, Deliver, Arrive, ReadsAsEnd;
      var m := |rounds| - 1;
      var before := rounds[..m];
      DisconnectExactly(i, before, cap, accepts);
      RoundStep(i, rounds, cap, accepts);
      RoundReports(RunRounds(i, before, cap, accepts), rounds[m], cap, accepts);
      assert EndsAt(i, rounds, m, cap, accepts)
        <==> ReadsAsEnd(RunRounds(i, before, cap, accepts).content, rounds[m], cap);
      hide EndsAt;
      forall k | 0 <= k < m
        ensures EndsAt(i, before, k, cap, accepts) <==> EndsAt(i, rounds, k, cap, accepts)
      {
        EndsBefore(i, rounds, m, k, cap, accepts);
      }
    }
  }

  lemma {:induction false} RoundsInStep(rounds: seq<RecvResult>, cap: nat, accepts: seq<Byte> -> bool)
    requires cap >= 4
    ensures InStep(RunRounds(NOTHING, rounds, cap, accepts), cap, accepts)
    decreases |rounds|
  {
    if rounds == [] {
    } else {
      var m := |rounds| - 1;
      hide InStep, Arrive, Deliver;
      RoundsInStep(rounds[..m], cap, accepts);
      var j := RunRounds(NOTHING, rounds[..m], cap, accepts);
      ArriveInStep(j, rounds[m], cap, accepts);
      DeliverInStep(Arrive(j, rounds[m], cap), cap, accepts);
    }
  }

  /** A round that does not end the stream, in a run without an error so far. */
  lemma RoundErrs(i: Inbound, r: RecvResult, cap: nat, accepts: seq<Byte> -> bool)
    requires cap >= 4 && InStep(i, cap, accepts)
    requires i.error ==> ParseStream(i.received, cap, accepts).failed
    requires !Deliver(Arrive(i, r, cap), cap, accepts).disconnect && !r.RecvFailed?
    ensures var i' := Deliver(Arrive(i, r, cap), cap, accepts);
      i'.error <==> ParseStream(i'.received, cap, accepts).failed
  {
    var j := Arrive(i, r, cap);
    ArriveInStep(i, r, cap, accepts);
    hide ParseStream;
    if i.error {
      var t := j.received[|i.received|..];
      assert j.received == i.received + t;
      ParseAppend(i.received, t, cap, accepts);
    }
  }

  /** A receive has failed, or the stream has come to a frame that is too long or is not accepted. */
  ghost predicate Faulty(i: Inbound, rounds: seq<RecvResult>, cap: nat, accepts: seq<Byte> -> bool) {
    RecvFailed in rounds || ParseStream(i.received, cap, accepts).failed
  }

  /** As long as the stream has not ended, an error is reported exactly if a receive failed or a frame was refused. */
  lemma {:induction false} ErrorExactly(rounds: seq<RecvResult>, cap: nat, accepts: seq<Byte> -> bool)
    requires cap >= 4 && !RunRounds(NOTHING, rounds, cap, accepts).disconnect
    ensures var i := RunRounds(NOTHING, rounds, cap, accepts); i.error <==> Faulty(i, rounds, cap, accepts)
    decreases |rounds|
  {
    hide ParseStream;
    if rounds == [] {
      NothingFails(cap, accepts);
    } else {
      var m := |rounds| - 1;
      var before, r := rounds[..m], rounds[m];
      assert rounds == before + [r];
      var j := RunRounds(NOTHING, before, cap, accepts);
      RoundReports(j, r, cap, accepts);
      ErrorExactly(before, cap, accepts);
      RoundsInStep(before, cap, accepts);
      if RecvFailed !in rounds {
        RoundErrs(j, r, cap, accepts);
      }
    }
  }

  lemma NothingFails(cap: nat, accepts: seq<Byte> -> bool)
    ensures !ParseStream([], cap, accepts).failed
  {
  }

  /** After the end of the stream, which round n read, only a failed receive is an error that was none before. */
  lemma {:induction false} ErrorAfterEnd(rounds: seq<RecvResult>, n: nat, cap: nat, accepts: seq<Byte> -> bool)
    requires cap >= 4 && n < |rounds|
    requires !RunRounds(NOTHING, rounds[..n], cap, accepts).disconnect
    requires RunRounds(NOTHING, rounds[..n + 1], cap, accepts).disconnect
    ensures
      RunRounds(NOTHING, rounds, cap, accepts).error <==>
        RecvFailed in rounds || ParseStream(RunRounds(NOTHING, rounds[..n], cap, accepts).received, cap, accepts).failed
    decreases |rounds|
  {
    hide ParseStream;
    var m := |rounds| - 1;
    var before, r := rounds[..m], rounds[m];
    assert rounds == before + [r];
    var j := RunRounds(NOTHING, before, cap, accepts);
    RoundReports(j, r, cap, accepts);
    if n == m {
      assert rounds[..n + 1] == rounds;
      ErrorExactly(before, cap, accepts);
    } else {
      assert before[..n] == rounds[..n] && before[..n + 1] == rounds[..n + 1];
      ErrorAfterEnd(before, n, cap, accepts);
      StaysEnded(rounds, n + 1, cap, accepts);
    }
  }

  lemma {:induction false} StaysEnded(rounds: seq<RecvResult>, n: nat, cap: nat, accepts: seq<Byte> -> bool)
    requires n <= |rounds| && RunRounds(NOTHING, rounds[..n], cap, accepts).disconnect
    ensures RunRounds(NOTHING, rounds, cap, accepts).disconnect
    decreases |rounds|
  {
    hide RunRounds, Arrive, Deliver;
    if n == |rounds| {
      assert rounds[..n] == rounds;
    } else {
      var m := |rounds| - 1;
      assert rounds[..m][..n] == rounds[..n];
      StaysEnded(rounds[..m], n, cap, accepts);
      RoundStep(NOTHING, rounds, cap, accepts);
      RoundReports(RunRounds(NOTHING, rounds[..m], cap, accepts), rounds[m], cap, accepts);
    }
  }

  /** What recv has put into the buffers it was offered. */
  function Offered(rounds: seq<RecvResult>): seq<Byte> {
    if rounds == [] then []
    else
      var r := rounds[|rounds| - 1];
      Offered(rounds[..|rounds| - 1]) + if r.Arrived? then r.bytes else []
  }

  /** Round k offers no more bytes than there is room for. */
  predicate HasRoom(rounds: seq<RecvResult>, k: nat, cap: nat, accepts: seq<Byte> -> bool)
    requires k < |rounds|
  {
    rounds[k].Arrived? ==> |rounds[k].bytes| + |RunRounds(NOTHING, rounds[..k], cap, accepts).content| <= cap
  }

  lemma RoundTakes(i: Inbound, r: RecvResult, cap: nat, accepts: seq<Byte> -> bool)
    requires |i.content| <= cap && (r.Arrived? ==> |r.bytes| + |i.content| <= cap)
    ensures Deliver(Arrive(i, r, cap), cap, accepts).received == i.received + if r.Arrived? then r.bytes else []
  {
    hide ParseStream;
    if r.Arrived? {
      assert r.bytes[..|r.bytes|] == r.bytes;
    }
    assert i.received + [] == i.received;
  }

  /** All that recv delivers is taken, since it keeps to the room that it was given. */
  lemma {:induction false} AllTaken(rounds: seq<RecvResult>, cap: nat, accepts: seq<Byte> -> bool)
    requires forall k :: 0 <= k < |rounds| ==> HasRoom(rounds, k, cap, accepts)
    ensures RunRounds(NOTHING, rounds, cap, accepts).received == Offered(rounds)
    decreases |rounds|
  {
    if rounds == [] {
    } else {
      hide RunRounds, Deliver, Arrive;
      var m := |rounds| - 1;
      var before := rounds[..m];
      forall k | 0 <= k < m
        ensures HasRoom(before, k, cap, accepts)
      {
        assert HasRoom(rounds, k, cap, accepts) && before[..k] == rounds[..k];
      }
      AllTaken(before, cap, accepts);
      RoundStep(NOTHING, rounds, cap, accepts);
      assert HasRoom(rounds, m, cap, accepts);
      RoundTakes(RunRounds(NOTHING, before, cap, accepts), rounds[m], cap, accepts);
    }
  }

  /** The bytes of a full buffer that begins with a frame of declared length zero. */
  function Zeroes(cap: nat): (s: seq<Byte>)
    ensures |s| == cap
  {
    seq(cap, _ => 0)
  }

  /** That does happen: such bytes fill the buffer, and the next arrival reads as a disconnect. */
  lemma ZeroLengthDisconnects(cap: nat, accepts: seq<Byte> -> bool, more: seq<Byte>)
    requires cap >= 4
    ensures var i := RunRounds(NOTHING, [Arrived(Zeroes(cap)), Arrived(more)], cap, accepts);
      !i.error && i.disconnect && i.received == i.content == Zeroes(cap) && StuckFull(i, cap)
  {
    var one, two := [Arrived(Zeroes(cap))], [Arrived(Zeroes(cap)), Arrived(more)];
    assert one[..0] == [] && two[..1] == one;
    assert [] + Zeroes(cap) == Zeroes(cap) && Zeroes(cap)[..cap] == Zeroes(cap);
    var full := Inbound(Zeroes(cap), Zeroes(cap), [], false, false);
    assert Arrive(NOTHING, one[0], cap) == full;
    assert PeekIncoming(Zeroes(cap)) == 0;
    assert Deliver(full, cap, accepts) == full;
    assert RunRounds(NOTHING, [], cap, accepts) == NOTHING;
    assert RunRounds(NOTHING, one, cap, accepts) == full;
  }

  lemma IncompleteStart(cap: nat)
    ensures Incomplete(NOTHING.content, cap)
  {
  }

  // ---------- the sending half ----------

  /** A queued buffer: its message bytes and how many of them send has not taken yet. */
  datatype OutBuffer = OutBuffer(bytes: seq<Byte>, remaining: nat)

  /** sent and enqueued are the history: bytes that send took, bytes of all messages ever added. */
  datatype Outbound = Outbound(queue: seq<OutBuffer>, sent: seq<Byte>, enqueued: seq<Byte>, error: bool)

  datatype SendResult = Took(n: nat) | SendWouldBlock | SendFailed

  function Unsent(b: OutBuffer): (s: seq<Byte>) {
    if b.remaining <= |b.bytes| then b.bytes[|b.bytes| - b.remaining..] else []
  }

  function PendingBytes(queue: seq<OutBuffer>): (s: seq<Byte>) {
    if queue == [] then [] else Unsent(queue[0]) + PendingBytes(queue[1..])
  }

  /** rl_transport_add_output_message. */
  function Enqueue(o: Outbound, bytes: seq<Byte>): Outbound {
    o.(queue := o.queue + [OutBuffer(bytes, |bytes|)], enqueued := o.enqueued + bytes)
  }

  /** One send of rl_transport_on_output_possible; the flag says whether the loop goes on. */
  function SendOnce(o: Outbound, r: SendResult): (Outbound, bool)
    requires o.queue != []
  {
    var b := o.queue[0];
    match r
    case SendFailed => (o.(error := true), false)
    case SendWouldBlock => (o, false)
    case Took(n) =>
      var k := Min(n, b.remaining);
      if k == 0 then (o, false)
      else
        var left := b.(remaining := b.remaining - k);
        (o.(queue := if left.remaining == 0 then o.queue[1..] else [left] + o.queue[1..],
            sent := o.sent + Unsent(b)[..Min(k, |Unsent(b)|)]), true)
  }

  /** rl_transport_on_output_possible, against the results that send will give; after them it would block. */
  function Flush(o: Outbound, sends: seq<SendResult>): (o': Outbound)
    decreases |sends|
  {
    if o.queue == [] || sends == [] then o
    else
      var (o', more) := SendOnce(o, sends[0]);
      if more then Flush(o', sends[1..]) else o'
  }

  predicate WellQueued(queue: seq<OutBuffer>) {
    forall i :: 0 <= i < |queue| ==> queue[i].remaining <= |queue[i].bytes|
  }

  /** Bytes on the socket plus bytes in the queue are the messages, in the order they were added. */
  predicate Conserved(o: Outbound) {
    && WellQueued(o.queue)
    && o.enqueued == o.sent + PendingBytes(o.queue)
  }

  lemma PendingStep(queue: seq<OutBuffer>)
    ensures PendingBytes(queue) == if queue == [] then [] else Unsent(queue[0]) + PendingBytes(queue[1..])
  {
  }

  lemma {:induction false} PendingSnoc(queue: seq<OutBuffer>, b: OutBuffer)
    ensures PendingBytes(queue + [b]) == PendingBytes(queue) + Unsent(b)
    decreases |queue|
  {
    hide PendingBytes, Unsent;
    PendingStep(queue);
    PendingStep(queue + [b]);
    if queue == [] {
      assert [b][1..] == [] && queue + [b] == [b];
      PendingStep([b][1..]);
    } else {
      PendingSnoc(queue[1..], b);
      assert (queue + [b])[1..] == queue[1..] + [b];
    }
  }

  lemma EnqueueConserves(o: Outbound, bytes: seq<Byte>)
    requires Conserved(o)
    ensures Conserved(Enqueue(o, bytes))
  {
    var b := OutBuffer(bytes, |bytes|);
    NothingSent(bytes);
    WellQueuedSnoc(o.queue, b);
    hide PendingBytes, Unsent, WellQueued;
    PendingSnoc(o.queue, b);
    Associative(o.sent, PendingBytes(o.queue), bytes);
  }

  lemma NothingSent(bytes: seq<Byte>)
    ensures Unsent(OutBuffer(bytes, |bytes|)) == bytes
  {
  }

  lemma WellQueuedSnoc(queue: seq<OutBuffer>, b: OutBuffer)
    requires WellQueued(queue) && b.remaining <= |b.bytes|
    ensures WellQueued(queue + [b])
  {
  }

  lemma UnsentSplit(b: OutBuffer, k: nat)
    requires k <= b.remaining <= |b.bytes|
    ensures |Unsent(b)| == b.remaining
    ensures Unsent(b) == Unsent(b)[..k] + Unsent(b.(remaining := b.remaining - k))
  {
  }

  lemma PendingCons(b: OutBuffer, rest: seq<OutBuffer>)
    ensures PendingBytes([b] + rest) == Unsent(b) + PendingBytes(rest)
    ensures b.remaining == 0 ==> Unsent(b) == []
  {
    assert ([b] + rest)[1..] == rest;
  }

  lemma WellQueuedTook(queue: seq<OutBuffer>, k: nat)
    requires queue != [] && WellQueued(queue) && k <= queue[0].remaining
    ensures WellQueued(queue[1..])
    ensures WellQueued([queue[0].(remaining := queue[0].remaining - k)] + queue[1..])
  {
  }

  /** What taking k bytes of the first buffer does to the queue. */
  lemma TookSome(queue: seq<OutBuffer>, k: nat)
    requires queue != [] && WellQueued(queue) && 0 < k <= queue[0].remaining
    ensures
      var b := queue[0];
      var left := b.(remaining := b.remaining - k);
      var queue' := if left.remaining == 0 then queue[1..] else [left] + queue[1..];
      && WellQueued(queue')
      && k <= |Unsent(b)|
      && PendingBytes(queue) == Unsent(b)[..k] + PendingBytes(queue')
  {
    hide PendingBytes, Unsent, WellQueued;
    var b, rest := queue[0], queue[1..];
    var left := b.(remaining := b.remaining - k);
    FirstQueued(queue);
    assert queue == [b] + rest;
    PendingCons(b, rest);
    PendingCons(left, rest);
    UnsentSplit(b, k);
    WellQueuedTook(queue, k);
    Associative(Unsent(b)[..k], Unsent(left), PendingBytes(rest));
    if left.remaining == 0 {
      assert [] + PendingBytes(rest) == PendingBytes(rest);
    }
  }

  lemma FirstQueued(queue: seq<OutBuffer>)
    requires queue != [] && WellQueued(queue)
    ensures queue[0].remaining <= |queue[0].bytes|
  {
  }

  lemma SendOnceConserves(o: Outbound, r: SendResult)
    requires Conserved(o) && o.queue != []
    ensures Conserved(SendOnce(o, r).0)
  {
    hide PendingBytes, Unsent, WellQueued;
    if r.Took? && Min(r.n, o.queue[0].remaining) > 0 {
      var k := Min(r.n, o.queue[0].remaining);
      TookSome(o.queue, k);
      var o' := SendOnce(o, r).0;
      assert o.sent + (Unsent(o.queue[0])[..k] + PendingBytes(o'.queue))
          == (o.sent + Unsent(o.queue[0])[..k]) + PendingBytes(o'.queue);
    }
  }

  lemma {:induction false} FlushConserves(o: Outbound, sends: seq<SendResult>)
    requires Conserved(o)
    ensures Conserved(Flush(o, sends))
    decreases |sends|
  {
    if o.queue == [] || sends == [] {
    } else {
      SendOnceConserves(o, sends[0]);
      FlushConserves(SendOnce(o, sends[0]).0, sends[1..]);
    }
  }

  /** Send number j takes something. */
  predicate Moves(o: Outbound, sends: seq<SendResult>, j: nat)
    requires j < |sends|
  {
    |Flush(o, sends[..j]).sent| < |Flush(o, sends[..j + 1]).sent|
  }

  /** Send number k is made: there is something to send, and each send before it took something. */
  predicate Reached(o: Outbound, sends: seq<SendResult>, k: nat)
    requires k < |sends|
  {
    Flush(o, sends[..k]).queue != [] && forall j :: 0 <= j < k ==> Moves(o, sends, j)
  }

  lemma FlushFirst(o: Outbound, sends: seq<SendResult>)
    ensures Flush(o, sends) ==
      if o.queue == [] || sends == [] then o
      else var (o', more) := SendOnce(o, sends[0]); if more then Flush(o', sends[1..]) else o'
  {
  }

  /** One send: it takes the bytes that it says, it ends the loop, or it is an error. */
  lemma SendTakes(o: Outbound, r: SendResult)
    requires Conserved(o) && o.queue != []
    ensures var (o', more) := SendOnce(o, r);
      && Conserved(o') && o'.enqueued == o.enqueued
      && (r.Took? && r.n <= o.queue[0].remaining ==> |o'.sent| == |o.sent| + r.n)
      && (more <==> |o.sent| < |o'.sent|) && |o.sent| <= |o'.sent|
      && (more ==> r.Took?)
      && (o'.error <==> o.error || r.SendFailed?)
      && (!more ==> o' == o.(error := o'.error))
  {
    SendOnceConserves(o, r);
    var b := o.queue[0];
    assert |Unsent(b)| == b.remaining;
    hide PendingBytes, WellQueued;
  }

  /**
   A failed send is reported, wherever it stands among the sends, and nothing
   else is, provided that the loop comes to it.
   */
  lemma {:induction false} FlushFails(o: Outbound, sends: seq<SendResult>)
    requires Conserved(o)
    ensures
      Flush(o, sends).error <==>
        o.error || exists k :: 0 <= k < |sends| && sends[k].SendFailed? && Reached(o, sends, k)
    decreases |sends|
  {
    hide Conserved, SendOnce, Flush, Reached;
    FlushFirst(o, sends);
    if o.queue == [] {
      NoneReached(o, sends);
    } else if sends != [] {
      SendTakes(o, sends[0]);
      var (o', more) := SendOnce(o, sends[0]);
      var rest := sends[1..];
      FirstReached(o, sends);
      if more {
        FlushFails(o', rest);
        forall k | 0 < k < |sends|
          ensures Reached(o, sends, k) <==> Reached(o', rest, k - 1)
        {
          ReachedTail(o, sends, k);
        }
        if k :| 0 <= k < |rest| && rest[k].SendFailed? && Reached(o', rest, k) {
          assert sends[k + 1].SendFailed? && Reached(o, sends, k + 1);
        }
      } else {
        forall k | 0 < k < |sends|
          ensures !Reached(o, sends, k)
        {
          NotReached(o, sends, k);
        }
      }
    }
  }

  lemma NoneReached(o: Outbound, sends: seq<SendResult>)
    requires o.queue == []
    ensures forall k :: 0 <= k < |sends| ==> !Reached(o, sends, k)
  {
    forall k | 0 <= k < |sends|
      ensures Flush(o, sends[..k]).queue == []
    {
    }
  }

  lemma FirstReached(o: Outbound, sends: seq<SendResult>)
    requires o.queue != [] && sends != []
    ensures Reached(o, sends, 0)
  {
  }

  lemma FlushPrefix(o: Outbound, sends: seq<SendResult>, k: nat)
    requires o.queue != [] && 0 < k <= |sends|
    ensures var (o', more) := SendOnce(o, sends[0]);
      Flush(o, sends[..k]) == if more then Flush(o', sends[1..][..k - 1]) else o'
  {
    FlushFirst(o, sends[..k]);
    assert sends[..k][1..] == sends[1..][..k - 1];
  }

  lemma MovesTail(o: Outbound, sends: seq<SendResult>, j: nat)
    requires o.queue != [] && 0 < j < |sends| && SendOnce(o, sends[0]).1
    ensures Moves(o, sends, j) <==> Moves(SendOnce(o, sends[0]).0, sends[1..], j - 1)
  {
    hide SendOnce, Flush;
    FlushPrefix(o, sends, j);
    FlushPrefix(o, sends, j + 1);
  }

  lemma ReachedTail(o: Outbound, sends: seq<SendResult>, k: nat)
    requires Conserved(o) && o.queue != [] && 0 < k < |sends| && SendOnce(o, sends[0]).1
    ensures Reached(o, sends, k) <==> Reached(SendOnce(o, sends[0]).0, sends[1..], k - 1)
  {
    SendTakes(o, sends[0]);
    FirstMoves(o, sends);
    hide SendOnce, Conserved, Flush, Moves;
    var o', rest := SendOnce(o, sends[0]).0, sends[1..];
    FlushPrefix(o, sends, k);
    forall j | 0 <= j < k - 1
      ensures Moves(o', rest, j) <==> Moves(o, sends, j + 1)
    {
      MovesTail(o, sends, j + 1);
    }
    if Reached(o', rest, k - 1) {
      forall j | 0 <= j < k
        ensures Moves(o, sends, j)
      {
        if j > 0 {
          assert Moves(o', rest, j - 1);
        }
      }
    }
  }

  lemma FirstMoves(o: Outbound, sends: seq<SendResult>)
    requires Conserved(o) && o.queue != [] && sends != []
    ensures Moves(o, sends, 0) <==> SendOnce(o, sends[0]).1
  {
    SendTakes(o, sends[0]);
    hide SendOnce, Conserved, Flush;
    FlushFirst(o, sends[..0]);
    FlushPrefix(o, sends, 1);
    FlushFirst(SendOnce(o, sends[0]).0, sends[1..][..0]);
  }

  lemma NotReached(o: Outbound, sends: seq<SendResult>, k: nat)
    requires Conserved(o) && o.queue != [] && 0 < k < |sends| && !SendOnce(o, sends[0]).1
    ensures !Reached(o, sends, k)
  {
    FirstMoves(o, sends);
  }
}
