/**
 The objects of client and server run against each other: what their methods
 do to the heap is a run of FsSystem, so what holds of every run holds of them.
 */
module FsDriver {
  import opened Base
  import opened RemoteFs
  import opened FsSystem
  import opened FsMatching
  import opened FsOwnership
  import opened FsRefinement
  import opened Reference
  import FsRoot
  import opened AmigaFs
  import opened FileServer

  /** The objects and the answer channel hold this state. */
  ghost predicate Holds(fs: FileSystem, server: Controller, answers: seq<Msg>, s: State)
    reads fs, fs.ops, fs.handles.Values, server, server.handles
  {
    fs.Valid() && server.Valid() && fs.View() == s.client && server.View() == s.server && answers == s.answers
  }

  /** What a step comes to. */
  lemma StepIs(s: State, w: World, e: Event, s': State)
    requires Next(s, w, e, s')
    ensures AllLive(s.client) && AllRequests(s.client.out)
    ensures match e
      case TakePacket(p) =>
        && Acceptable(s.client, p) && s'.client == ProcessPacket(s.client, s.taken, p)
        && s'.answers == s.answers && s'.server == s.server
      case ServeNext(os) =>
        && s.client.out != [] && s'.client == s.client.(out := s.client.out[1..])
        && var (server, answer) := Serve(s.server, w, s.client.out[0], os);
        s'.server == server && s'.answers == if answer.Some? then s.answers + [answer.value] else s.answers
      case TakeAnswer =>
        && s.answers != [] && s'.client == ProcessAnswer(s.client, s.answers[0]).0
        && s'.answers == s.answers[1..] && s'.server == s.server
  {
    hide ProcessPacket, ProcessAnswer, Serve;
  }

  method PerformPacket(fs: FileSystem, server: Controller, answers: seq<Msg>, taken: nat, w: World, p: Packet,
                       ghost s: State, ghost s': State)
    requires Holds(fs, server, answers, s) && taken == s.taken && Next(s, w, TakePacket(p), s')
    modifies fs, fs.ops, fs.handles.Values
    ensures Holds(fs, server, answers, s') && fresh(fs.repr - old(fs.repr))
  {
    StepIs(s, w, TakePacket(p), s');
    hide ProcessPacket, Next, Acceptable, AllLive, AllRequests;
    fs.ProcessFsPacket(taken, p);
  }

  method PerformServe(fs: FileSystem, server: Controller, answers: seq<Msg>, w: World, os: OsResult,
                      ghost s: State, ghost s': State) returns (answers': seq<Msg>)
    requires Holds(fs, server, answers, s) && Next(s, w, ServeNext(os), s')
    modifies fs, server, server.handles
    ensures Holds(fs, server, answers', s') && fresh(fs.repr - old(fs.repr))
  {
    StepIs(s, w, ServeNext(os), s');
    hide Serve, Next, AllLive, AllRequests;
    var m := fs.TakeRequest();
    var answer := server.FileServe(w, m, os);
    answers' := if answer.Some? then answers + [answer.value] else answers;
  }

  method PerformTake(fs: FileSystem, server: Controller, answers: seq<Msg>, w: World,
                     ghost s: State, ghost s': State) returns (answers': seq<Msg>)
    requires Holds(fs, server, answers, s) && Next(s, w, TakeAnswer, s')
    requires forall k :: 0 <= k < |answers| && answers[k].ReadAnswer? ==> |answers[k].data| <= BUFFER_SIZE
    modifies fs, fs.ops, fs.handles.Values
    ensures Holds(fs, server, answers', s') && fresh(fs.repr - old(fs.repr))
  {
    StepIs(s, w, TakeAnswer, s');
    hide ProcessAnswer, Next, AllRequests;
    var broken := fs.ProcessNetworkMessage(answers[0]);
    answers' := answers[1..];
  }

  /** One event happens to the objects. */
  method Perform(fs: FileSystem, server: Controller, answers: seq<Msg>, taken: nat, w: World, e: Event, ghost s: State,
                 ghost s': State) returns (answers': seq<Msg>)
    requires Holds(fs, server, answers, s) && taken == s.taken && Next(s, w, e, s')
    requires forall k :: 0 <= k < |answers| && answers[k].ReadAnswer? ==> |answers[k].data| <= BUFFER_SIZE
    modifies fs, fs.ops, fs.handles.Values, server, server.handles
    ensures Holds(fs, server, answers', s')
    ensures fresh(fs.repr - old(fs.repr))
  {
    hide Holds, Next;
    match e
    case TakePacket(p) =>
      PerformPacket(fs, server, answers, taken, w, p, s, s');
      answers' := answers;
    case ServeNext(os) => answers' := PerformServe(fs, server, answers, w, os, s, s');
    case TakeAnswer => answers' := PerformTake(fs, server, answers, w, s, s');
  }

  /** The nodes and handles are among the objects that the file system has made. */
  lemma ObjectsKnown(fs: FileSystem)
    requires fs.Valid()
    ensures (forall op <- fs.ops :: op in fs.repr) && (forall c <- fs.handles.Values :: c in fs.repr)
  {
  }

  lemma HoldsValid(fs: FileSystem, server: Controller, answers: seq<Msg>, s: State)
    requires Holds(fs, server, answers, s)
    ensures fs.Valid() && answers == s.answers && fs.log == s.client.log
  {
  }

  lemma StartHolds(fs: FileSystem, server: Controller, device: string)
    requires |device| < PATH_MAX && fs.Valid() && server.Valid()
    requires fs.View() == StartClient(Truncate(device, PATH_MAX - 1)) && server.View() == IdleServer()
    ensures Holds(fs, server, [], StartState(device))
  {
  }

  lemma StepCounts(s: State, w: World, e: Event, s': State)
    requires Next(s, w, e, s')
    ensures s'.taken == if e.TakePacket? then s.taken + 1 else s.taken
  {
    hide ProcessPacket, ProcessAnswer, Serve;
  }

  /** Read answers fit the client's buffer. */
  lemma Bounded(device: string, w: World, events: seq<Event>, states: seq<State>, n: nat)
    requires IsRun(device, w, events, states) && n < |states|
    ensures forall k :: 0 <= k < |states[n].answers| && states[n].answers[k].ReadAnswer? ==>
      |states[n].answers[k].data| <= BUFFER_SIZE
  {
    ReadAnswersFit(device, w, events, states, n);
  }

  /** The log of a run is one that the references would have given. */
  lemma RunReplays(device: string, w: World, events: seq<Event>, states: seq<State>, n: nat)
    requires IsRun(device, w, events, states) && n < |states| && NoWrap(states[n]) && WorldOk(w) && RootIsDir(w)
    ensures Replay(w, states[n].client.log).Some?
    ensures n <= |events| && (FsRoot.InTurn(events, states, n) ==> RootReplay(w, states[n].client.log).Some?)
  {
    RunContent(device, w, events, states, n);
    if FsRoot.InTurn(events, states, n) {
      FsRoot.RunRoot(device, w, events, states, n);
      assert FsRoot.RootOk(states[n], w);
    }
  }

  /**
   Client and server are made and run through events in any order. states is
   the run of FsSystem with these events; the objects follow it, and in the end
   their log is one that the plain file system would have given, and the root
   where the callers that share handle 0 take turns.
   */
  method RunSystem(device: string, w: World, events: seq<Event>, ghost states: seq<State>)
    returns (fs: FileSystem, server: Controller, answers: seq<Msg>)
    requires |device| < PATH_MAX && IsRun(device, w, events, states) && NoWrap(states[|events|])
    requires WorldOk(w) && RootIsDir(w)
    ensures Holds(fs, server, answers, states[|events|])
    ensures Replay(w, fs.log).Some?
    ensures FsRoot.InTurn(events, states, |events|) ==> RootReplay(w, fs.log).Some?
  {
    assert |states| == |events| + 1 && states[0] == StartState(device);
    assert forall i :: 0 <= i < |events| ==> Next(states[i], w, events[i], states[i + 1]);
    assert StartState(device).taken == 0;
    hide *;
    fs := new FileSystem(device);
    server := new Controller();
    answers := [];
    var taken: nat := 0;
    StartHolds(fs, server, device);
    for i := 0 to |events|
      invariant fresh(fs) && fresh(fs.repr) && fresh(server) && fresh(server.handles)
      invariant Holds(fs, server, answers, states[i]) && taken == states[i].taken
    {
      assert Next(states[i], w, events[i], states[i + 1]);
      HoldsValid(fs, server, answers, states[i]);
      ObjectsKnown(fs);
      Bounded(device, w, events, states, i);
      StepCounts(states[i], w, events[i], states[i + 1]);
      answers := Perform(fs, server, answers, taken, w, events[i], states[i], states[i + 1]);
      if events[i].TakePacket? {
        taken := taken + 1;
      }
    }
    HoldsValid(fs, server, answers, states[|events|]);
    RunReplays(device, w, events, states, |events|);
  }
}
