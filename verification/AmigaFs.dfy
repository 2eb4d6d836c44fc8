/**
 src/amigafs.c on the heap: client handles with a read buffer of fixed size,
 a linked list of pending operations, and handlers that change both in place.
 Each handler is proved to do what the functions of RemoteFs say.
 */
module AmigaFs {
  import opened Base
  import opened RemoteFs
  import FsSystem

  /** The bytes of the read buffer, which is a part of the handle. */
  type Storage = s: seq<Byte> | |s| == BUFFER_SIZE witness seq(BUFFER_SIZE, _ => 0)

  /** rl_client_handle_t. */
  class ClientHandle {
    var buffer: Storage
    var id: nat
    var kind: Kind
    var offset: nat
    var size: nat
    var enumerating: bool
    var path: string
    var bufferStart: nat
    var bufferLen: nat
    ghost var target: string

    ghost predicate Valid()
      reads this
    {
      bufferLen <= BUFFER_SIZE
    }

    ghost function View(): Handle
      requires Valid()
      reads this
    {
      Handle(id, kind, offset, size, enumerating, path, target, bufferStart, buffer[..bufferLen])
    }

    ghost predicate Shows(v: Handle)
      reads this
    {
      Valid() && View() == v
    }

    constructor (id: nat, kind: Kind, size: nat, path: string, ghost target: string)
      ensures Valid() && View() == NewHandle(id, kind, size, path, target)
    {
      buffer := seq(BUFFER_SIZE, _ => 0);
      this.id, this.kind, this.size, this.target := id, kind, size, target;
      this.path := Truncate(path, PATH_MAX - 1);
      offset, enumerating, bufferStart, bufferLen := 0, false, 0, 0;
      new;
      assert buffer[..0] == [];
    }

    /** buffer_overlap, and the first part of action_read. */
    method Serve(count: nat) returns (got: seq<Byte>, all: bool)
      requires Valid()
      modifies this`offset
      ensures Valid() && (View(), got, all) == ServeFromBuffer(old(View()), count)
    {
      var lo, hi := bufferStart, (bufferStart + bufferLen) % UINT32;
      got, all := [], false;
      if lo <= offset && offset < hi {
        var k := Min(hi - offset, count);
        var at := offset - lo;
        SubSlice(buffer, 0, bufferLen, at, at + k);
        assert buffer[0..bufferLen] == buffer[..bufferLen];
        got := buffer[at..at + k];
        offset := (offset + k) % UINT32;
        all := k == count;
      }
    }

    /** The part of action_seek that moves the cursor. */
    method Seek(amount: int, mode: int)
      requires Valid()
      modifies this`offset
      ensures Valid() && View() == old(View()).(offset := SeekOffset(old(offset), old(size), amount, mode))
    {
      if mode == OFFSET_BEGINNING {
        offset := amount % UINT32;
      } else if mode == OFFSET_CURRENT {
        offset := (offset + amount) % UINT32;
      } else if mode == OFFSET_END {
        offset := (size + amount) % UINT32;
      }
      if offset > size {
        offset := size;
      }
    }

    /** The part of complete_read that moves the cursor and fills the buffer. */
    method Take(count: nat, data: seq<Byte>) returns (more: seq<Byte>, done: bool)
      requires Valid() && |data| <= BUFFER_SIZE
      modifies this`offset, this`bufferStart, this`bufferLen, this`buffer
      ensures Valid() && (View(), more, done) == TakeData(old(View()), count, data)
    {
      var k := Min(count, |data|);
      more := data[..k];
      offset := (offset + k) % UINT32;
      done := k == count || |data| == 0;
      if done {
        bufferStart := offset;
        bufferLen := |data| - k;
        buffer := Splice(buffer, 0, data[k..]);
        assert buffer[..bufferLen] == data[k..];
      }
    }
  }

  /** rl_pending_operation_t. */
  class PendingOp {
    var requestSeqno: nat
    const packet: nat
    var detail: Detail
    var next: PendingOp?

    ghost function View(): Op
      reads this`requestSeqno, this`detail
    {
      Op(requestSeqno, packet, detail)
    }

    constructor (seqno: nat, packet: nat, detail: Detail, next: PendingOp?)
      ensures View() == Op(seqno, packet, detail) && this.next == next
    {
      requestSeqno, this.packet, this.detail, this.next := seqno, packet, detail, next;
    }
  }

  type Ops = seq<PendingOp>

  ghost function At(ops: Ops, i: nat): PendingOp? {
    if i < |ops| then ops[i] else null
  }

  /** The nodes of ops, in order and without repetition, are the list that starts at head. */
  ghost predicate Chained(head: PendingOp?, ops: Ops)
    reads ops`next
  {
    && head == At(ops, 0)
    && (forall i :: 0 <= i < |ops| ==> ops[i].next == At(ops, i + 1))
    && (forall i, j :: 0 <= i < j < |ops| ==> ops[i] != ops[j])
  }

  /** The nodes hold these operations. */
  ghost predicate Holding(ops: Ops, views: seq<Op>)
    reads ops`requestSeqno, ops`detail
  {
    |ops| == |views| && forall i :: 0 <= i < |ops| ==> ops[i].View() == views[i]
  }

  lemma ChainedCons(head: PendingOp?, ops: Ops, op: PendingOp)
    requires Chained(head, ops) && op !in ops && op.next == head
    ensures Chained(op, [op] + ops)
  {
    var longer := [op] + ops;
    forall i | 0 <= i < |longer|
      ensures longer[i].next == At(longer, i + 1)
    {
      if i > 0 {
        assert ops[i - 1].next == At(ops, i);
      }
    }
  }

  /** The list without the element at place i. */
  function Removed<T>(s: seq<T>, i: nat): seq<T>
    requires i < |s|
  {
    s[..i] + s[i + 1..]
  }

  lemma Without(ops: Ops, i: nat, j: nat)
    requires i < |ops|
    ensures At(Removed(ops, i), j) == At(ops, if j < i then j else j + 1)
  {
  }

  /** The list without its node at place i, once the node before it, or the head, leads past it. */
  lemma ChainedWithout(head: PendingOp?, ops: Ops, i: nat)
    requires i < |ops| && head == (if i == 0 then At(ops, 1) else ops[0])
    requires forall j :: 0 <= j < |ops| && j != i ==> ops[j].next == At(ops, if j + 1 == i then i + 1 else j + 1)
    requires forall j, k :: 0 <= j < k < |ops| ==> ops[j] != ops[k]
    ensures Chained(head, Removed(ops, i))
  {
    var rest := Removed(ops, i);
    Without(ops, i, 0);
    forall j | 0 <= j < |rest|
      ensures rest[j].next == At(rest, j + 1)
    {
      Without(ops, i, j);
      Without(ops, i, j + 1);
    }
    forall j, k | 0 <= j < k < |rest|
      ensures rest[j] != rest[k]
    {
      Without(ops, i, j);
      Without(ops, i, k);
    }
  }

  lemma {:induction false} FindPendingIs(pending: seq<Op>, seqno: nat, i: nat)
    requires i <= |pending| && (i < |pending| ==> pending[i].seqno == seqno)
    requires forall j :: 0 <= j < i ==> pending[j].seqno != seqno
    ensures FindPending(pending, seqno) == if i < |pending| then Some(i) else None
  {
    if i == 0 {
    } else {
      FindPendingIs(pending[1..], seqno, i - 1);
    }
  }

  lemma HoldingCons(op: PendingOp, ops: Ops, views: seq<Op>)
    requires Holding(ops, views)
    ensures Holding([op] + ops, [op.View()] + views)
  {
  }

  lemma HoldingWithout(ops: Ops, views: seq<Op>, i: nat)
    requires i < |ops| && Holding(ops, views)
    ensures |views| == |ops| && Holding(Removed(ops, i), Removed(views, i))
  {
  }

  /** The search for the last slash, from the end. */
  method FindSlash(path: string) returns (i: int)
    ensures i == LastSlash(path)
  {
    i := |path| - 1;
    assert path[..i + 1] == path;
    while i >= 0 && path[i] != '/'
      invariant -1 <= i < |path|
      invariant LastSlash(path) == LastSlash(path[..i + 1])
    {
      assert path[..i + 1][..i] == path[..i];
      i := i - 1;
    }
  }

  ghost predicate OpsIn(ops: Ops, repr: set<object>) {
    forall i :: 0 <= i < |ops| ==> ops[i] in repr
  }

  lemma OpsInCons(op: PendingOp, ops: Ops, repr: set<object>)
    requires OpsIn(ops, repr)
    ensures OpsIn([op] + ops, repr + {op})
  {
  }

  lemma OpsInWithout(ops: Ops, i: nat, repr: set<object>)
    requires OpsIn(ops, repr) && i < |ops|
    ensures OpsIn(Removed(ops, i), repr)
  {
  }

  type Locks = map<nat, ClientHandle>

  /** Each handle is an object of its own. */
  ghost predicate Separate(handles: Locks) {
    forall g, h :: g in handles && h in handles && g != h ==> handles[g] != handles[h]
  }

  ghost predicate HandlesIn(handles: Locks, next: nat, repr: set<object>) {
    forall h <- handles :: h < next && handles[h] in repr
  }

  lemma HandlesInMore(handles: Locks, next: nat, hd: ClientHandle, repr: set<object>)
    requires HandlesIn(handles, next, repr)
    ensures HandlesIn(handles[next := hd], next + 1, repr + {hd})
  {
  }

  lemma ShowingMore(handles: Locks, views: map<nat, Handle>, h: nat, hd: ClientHandle, v: Handle)
    requires Showing(handles, views) && h !in handles && hd.Shows(v)
    ensures Showing(handles[h := hd], views[h := v])
  {
  }

  lemma SeparateMore(handles: Locks, h: nat, hd: ClientHandle)
    requires Separate(handles) && hd !in handles.Values && h !in handles
    ensures Separate(handles[h := hd])
  {
  }

  /** The objects are the handles with these values. */
  ghost predicate Showing(handles: Locks, views: map<nat, Handle>)
    reads handles.Values
  {
    handles.Keys == views.Keys && forall h <- handles :: handles[h].Shows(views[h])
  }

  /** rl_amigafs_t. handles are the locks and file handles that callers hold; out is the request channel. */
  class FileSystem {
    var seqno: nat
    var pending: PendingOp?
    var handles: Locks
    var nextHandle: nat
    var out: seq<Msg>
    var log: seq<Reply>

    // The nodes of the list, the values that nodes and handles hold, and all
    // objects that may belong to either.
    ghost var ops: Ops
    ghost var opViews: seq<Op>
    ghost var views: map<nat, Handle>
    ghost var repr: set<object>

    ghost predicate ValidPending()
      reads this`pending, this`ops, this`opViews, this`repr, ops
    {
      Chained(pending, ops) && Holding(ops, opViews) && OpsIn(ops, repr)
    }

    ghost predicate ValidHandles()
      reads this`handles, this`views, this`nextHandle, this`repr, handles.Values
    {
      Showing(handles, views) && Separate(handles) && HandlesIn(handles, nextHandle, repr)
    }

    ghost predicate Valid()
      reads this, ops, handles.Values
    {
      ValidPending() && ValidHandles()
    }

    ghost function View(): Client
      reads this
    {
      Client(seqno, opViews, views, nextHandle, out, log)
    }

    /** rl_amigafs_init: only the root handle, and no operation. */
    constructor (device: string)
      ensures Valid() && View() == FsSystem.StartClient(Truncate(device, PATH_MAX - 1)) && fresh(repr)
    {
      var path := Truncate(device, PATH_MAX - 1);
      var root := new ClientHandle(ROOT_ID, DeviceKind, 0, path, "");
      seqno, pending, nextHandle, out, log := 0, null, 1, [], [];
      handles := map[0 := root];
      ops, opViews, repr := [], [], {root};
      views := map[0 := Handle(ROOT_ID, DeviceKind, 0, 0, false, path, "", 0, [])];
    }

    // ---------- pending operations ----------

    /** alloc_pending, where the memory lasts. */
    method AllocPending(packet: nat, detail: Detail)
      requires ValidPending()
      modifies this`pending, this`ops, this`opViews, this`repr
      ensures ValidPending() && opViews == [Op(seqno, packet, detail)] + old(opViews)
      ensures ops == [ops[0]] + old(ops) && old(repr) <= repr && fresh(repr - old(repr))
    {
      var op := new PendingOp(seqno, packet, detail, pending);
      ChainedCons(pending, ops, op);
      HoldingCons(op, ops, opViews);
      OpsInCons(op, ops, repr);
      hide Chained, Holding, OpsIn;
      ops, opViews, repr := [op] + ops, [op.View()] + opViews, repr + {op};
      pending := op;
    }

    /** peer_transmit_message, under the next number. */
    method PostMessage(m: Msg)
      requires Valid()
      modifies this`out, this`seqno
      ensures Valid() && View() == Post(old(View()), m)
    {
      hide Chained, Holding, Showing, Separate;
      out := out + [m];
      seqno := (seqno + 1) % UINT32;
    }

    /** The oldest request leaves. */
    method TakeRequest() returns (m: Msg)
      requires Valid() && out != []
      modifies this`out
      ensures Valid() && m == old(out)[0] && View() == old(View()).(out := old(out)[1..])
    {
      hide Chained, Holding, OpsIn, Showing, Separate, HandlesIn;
      m := out[0];
      out := out[1..];
    }

    /** An operation and its request. */
    method BeginOperation(packet: nat, detail: Detail, m: Msg)
      requires Valid()
      modifies this`pending, this`ops, this`opViews, this`seqno, this`out, this`repr
      ensures Valid() && View() == Begin(old(View()), packet, detail, m) && fresh(repr - old(repr))
    {
      hide Chained, Holding, OpsIn, Showing, Separate;
      AllocPending(packet, detail);
      out := out + [m];
      seqno := (seqno + 1) % UINT32;
    }

    /** find_pending_op. */
    method FindPendingOp(seqno: nat) returns (op: PendingOp?, ghost i: nat)
      requires ValidPending()
      ensures op == match FindPending(opViews, seqno) case None => null case Some(k) => At(ops, k)
      ensures op == null <==> FindPending(opViews, seqno) == None
      ensures op != null ==> FindPending(opViews, seqno) == Some(i) && i < |ops|
    {
      op, i := pending, 0;
      while op != null && op.requestSeqno != seqno
        invariant i <= |ops| && op == At(ops, i)
        invariant forall j :: 0 <= j < i ==> ops[j].View().seqno != seqno
        decreases |ops| - i
      {
        assert ops[i].next == At(ops, i + 1);
        op, i := op.next, i + 1;
      }
      FindPendingIs(opViews, seqno, i);
    }

    /** The walk of unlink_pending, up to its target. */
    method FindPrevious(target: PendingOp, ghost i: nat) returns (previous: PendingOp?)
      requires Chained(pending, ops) && i < |ops| && target == ops[i]
      ensures previous == if i == 0 then null else ops[i - 1]
    {
      var op: PendingOp? := pending;
      previous := null;
      ghost var j := 0;
      while op != null && op != target
        invariant j <= i && op == ops[j] && previous == (if j == 0 then null else ops[j - 1])
        decreases i - j
      {
        assert ops[j].next == At(ops, j + 1);
        previous, op, j := op, op.next, j + 1;
      }
    }

    /** The node before the target, or the head, leads past it. */
    method Bypass(previous: PendingOp?, target: PendingOp, ghost i: nat)
      requires Chained(pending, ops) && i < |ops| && target == ops[i]
      requires previous == if i == 0 then null else ops[i - 1]
      modifies this`pending, ops`next
      ensures Chained(pending, Removed(ops, i))
    {
      assert ops[i].next == At(ops, i + 1);
      if previous != null {
        previous.next := target.next;
      } else {
        pending := target.next;
      }
      ChainedWithout(pending, ops, i);
    }

    /** unlink_pending. */
    method UnlinkPending(target: PendingOp, ghost i: nat)
      requires ValidPending() && i < |ops| && target == ops[i]
      modifies this`pending, this`ops, this`opViews, ops`next
      ensures ValidPending() && ops == Removed(old(ops), i)
      ensures i < |old(opViews)| && opViews == Removed(old(opViews), i)
    {
      hide Holding, Chained, OpsIn, Removed;
      var previous := FindPrevious(target, i);
      Bypass(previous, target, i);
      HoldingWithout(ops, opViews, i);
      OpsInWithout(ops, i, repr);
      ops, opViews := Removed(ops, i), Removed(opViews, i);
    }

    // ---------- packets ----------

    /** reply_to_packet. */
    method ReplyToPacket(packet: nat, res1: int, res2: int, what: What)
      requires Valid()
      modifies this`log
      ensures Valid() && View() == ReplyTo(old(View()), packet, res1, res2, what)
    {
      hide Chained, Holding, Showing, Separate;
      log := log + [Reply(packet, res1, res2, what)];
    }

    /** A new handle is what the packet asked for. */
    method ReplyWithHandle(packet: nat, id: nat, kind: Kind, size: nat, path: string, ghost target: string, what: What)
      requires Valid()
      modifies this`handles, this`views, this`nextHandle, this`log, this`repr
      ensures Valid() && fresh(repr - old(repr))
      ensures View() ==
        ReplyTo(AddHandle(old(View()), NewHandle(id, kind, size, path, target)), packet, DOSTRUE, 0, what)
    {
      hide NewHandle, ValidPending, ValidHandles;
      AllocateHandle(id, kind, size, path, target);
      ReplyToPacket(packet, DOSTRUE, 0, what);
    }

    /** The value of handle h follows its object. */
    method Follow(h: nat)
      requires ValidPending() && h in handles && h in views && handles.Keys == views.Keys && handles[h].Valid()
      requires Separate(handles) && HandlesIn(handles, nextHandle, repr)
      requires forall g <- handles :: g != h ==> handles[g].Shows(views[g])
      modifies this`views
      ensures Valid() && View() == old(View()).(handles := old(views)[h := handles[h].View()])
    {
      hide Chained, Holding;
      views := views[h := handles[h].View()];
    }

    /** A read of handle h goes to its buffer. */
    method ServeHandle(h: nat, count: nat) returns (got: seq<Byte>, all: bool)
      requires Valid() && h in handles
      modifies this`views, handles[h]
      ensures Valid() && h in old(views)
      ensures var (hd, g, a) := ServeFromBuffer(old(views)[h], count);
        got == g && all == a && View() == old(View()).(handles := old(views)[h := hd])
    {
      hide ServeFromBuffer, Chained, Holding;
      got, all := handles[h].Serve(count);
      Follow(h);
    }

    /** action_read. */
    method OnRead(packet: nat, h: nat, count: nat)
      requires Valid() && h in handles
      modifies this, handles[h]
      ensures Valid() && View() == ActionRead(old(View()), packet, h, count)
      ensures fresh(repr - old(repr))
    {
      hide ServeFromBuffer, ValidPending, ValidHandles;
      var got, all := ServeHandle(h, count);
      HandleShows(h);
      var hd := handles[h];
      if all {
        ReplyToPacket(packet, count, 0, GotData(h, count, got, true));
      } else {
        BeginOperation(packet, Reading(h, count, got),
                       ReadRequest(seqno, hd.id, hd.offset, Max(count - Min(|got|, count), BUFFER_SIZE)));
      }
    }

    method SeekHandle(h: nat, amount: int, mode: int)
      requires Valid() && h in handles
      modifies this`views, handles[h]
      ensures Valid() && h in old(views)
      ensures var hd := old(views)[h];
        View() == old(View()).(handles := old(views)[h := hd.(offset := SeekOffset(hd.offset, hd.size, amount, mode))])
    {
      hide SeekOffset, Chained, Holding;
      handles[h].Seek(amount, mode);
      Follow(h);
    }

    /** action_seek. */
    method OnSeek(packet: nat, h: nat, amount: int, mode: int)
      requires Valid() && h in handles
      modifies this, handles[h]
      ensures Valid() && View() == ActionSeek(old(View()), packet, h, amount, mode)
      ensures fresh(repr - old(repr))
    {
      HandleShows(h);
      hide SeekOffset, ValidPending, ValidHandles;
      var oldPos := handles[h].offset;
      SeekHandle(h, amount, mode);
      ReplyToPacket(packet, oldPos, 0, Sought(h, mode, amount));
    }

    /** action_write. */
    method OnWrite(packet: nat, h: nat, data: seq<Byte>)
      requires Valid() && h in handles
      modifies this
      ensures Valid() && View() == ActionWrite(old(View()), packet, h, data)
      ensures fresh(repr - old(repr))
    {
      HandleShows(h);
      hide Chained, Holding, Showing, Separate;
      var n := Min(|data|, BUFFER_SIZE);
      BeginOperation(packet, Writing(h, data, 0, n), WriteRequest(seqno, handles[h].id, data[..n]));
    }

    /** The object and the value of handle h agree. */
    lemma HandleShows(h: nat)
      requires ValidHandles() && h in handles
      ensures var hd := handles[h];
        && h in views && views[h].id == hd.id && views[h].kind == hd.kind && views[h].offset == hd.offset
        && views[h].size == hd.size && views[h].path == hd.path && views[h].target == hd.target
        && views[h].enumerating == hd.enumerating
    {
    }

    lemma NewKey()
      requires ValidHandles()
      ensures nextHandle !in handles && forall h <- handles :: handles[h] in repr
    {
    }

    /** allocate_lock, and the handle that action_findinput and action_findoutput make. */
    method AllocateHandle(id: nat, kind: Kind, size: nat, path: string, ghost target: string)
      requires Valid()
      modifies this`handles, this`views, this`nextHandle, this`repr
      ensures Valid() && View() == AddHandle(old(View()), NewHandle(id, kind, size, path, target))
      ensures old(repr) <= repr && fresh(repr - old(repr))
    {
      hide NewHandle, Chained, Holding, Showing, Separate;
      AddObject(id, kind, size, path, target);
    }

    method AddObject(id: nat, kind: Kind, size: nat, path: string, ghost target: string)
      requires ValidHandles()
      modifies this`handles, this`views, this`nextHandle, this`repr
      ensures ValidHandles() && nextHandle == old(nextHandle) + 1
      ensures old(repr) <= repr && fresh(repr - old(repr))
      ensures views == old(views)[old(nextHandle) := NewHandle(id, kind, size, path, target)]
    {
      NewKey();
      hide NewHandle, Separate, Showing, HandlesIn;
      var hd := new ClientHandle(id, kind, size, path, target);
      SeparateMore(handles, nextHandle, hd);
      HandlesInMore(handles, nextHandle, hd, repr);
      ShowingMore(handles, views, nextHandle, hd, hd.View());
      handles, views := handles[nextHandle := hd], views[nextHandle := hd.View()];
      nextHandle, repr := nextHandle + 1, repr + {hd};
    }

    /** A lock goes. */
    method DropHandle(h: nat)
      requires Valid() && h in handles
      modifies this`handles, this`views
      ensures Valid() && View() == old(View()).(handles := old(views) - {h})
    {
      hide Chained, Holding;
      handles, views := handles - {h}, views - {h};
    }

    /** action_findinput. */
    method OnFindInput(packet: nat, name: string)
      requires Valid()
      modifies this
      ensures Valid() && View() == ActionFindInput(old(View()), packet, name)
      ensures fresh(repr - old(repr))
    {
      hide NewHandle, AfterColon, ValidPending, ValidHandles;
      var target := AfterColon(name).0;
      if target == VIRTUAL_INPUT_FILE {
        ReplyWithHandle(packet, VIRTUAL_INPUT_ID, InputKind, 0, name, target, InputOpened(nextHandle));
      } else {
        BeginOperation(packet, OpeningFile(name, target), OpenRequest(seqno, target));
      }
    }

    /** action_findoutput. */
    method OnFindOutput(packet: nat, name: string)
      requires Valid()
      modifies this
      ensures Valid() && View() == ActionFindOutput(old(View()), packet, name)
      ensures fresh(repr - old(repr))
    {
      hide NewHandle, AfterColon, ValidPending, ValidHandles;
      var target := AfterColon(name).0;
      if target == VIRTUAL_OUTPUT_FILE {
        ReplyWithHandle(packet, VIRTUAL_OUTPUT_ID, OutputKind, 0, name, target, OutputOpened(nextHandle));
      } else {
        ReplyToPacket(packet, DOSFALSE, 0, NoOutput);
      }
    }

    /** action_locate_object. */
    method OnLocate(packet: nat, dir: nat, name: string)
      requires Valid() && dir in handles
      modifies this
      ensures Valid() && View() == ActionLocate(old(View()), packet, dir, name)
      ensures fresh(repr - old(repr))
    {
      hide Normalize, ValidPending, ValidHandles;
      var target := NormalizePath(dir, name);
      if target == "" {
        ReplyToPacket(packet, DOSTRUE, 0, RootGiven);
      } else {
        BeginOperation(packet, OpeningLock(target), OpenRequest(seqno, target));
      }
    }

    /** normalize_object_path. */
    method NormalizePath(dir: nat, name: string) returns (path: string)
      requires ValidHandles() && dir in handles
      ensures dir in views && path == Normalize(views[dir], name)
    {
      hide AfterColon, Truncate;
      var (item, absolute) := AfterColon(name);
      if absolute || handles[dir].kind == DeviceKind {
        path := Truncate(item, PATH_MAX - 1);
      } else {
        path := Truncate(handles[dir].path + "/" + item, PATH_MAX - 1);
      }
    }

    /** rl_amigafs_free_lock, for action_free_lock and action_end. */
    method OnFree(packet: nat, h: nat)
      requires Valid() && h in handles
      modifies this
      ensures Valid() && View() == ActionFree(old(View()), packet, h)
      ensures fresh(repr - old(repr))
    {
      HandleShows(h);
      hide ValidPending, ValidHandles;
      var hd := handles[h];
      if hd.kind != DeviceKind {
        PostMessage(CloseRequest(seqno, hd.id));
        DropHandle(h);
      }
      ReplyToPacket(packet, DOSTRUE, 0, Freed(h));
    }

    /** action_copy_dir. */
    method OnCopyDir(packet: nat, h: nat)
      requires Valid() && h in handles
      modifies this
      ensures Valid() && View() == ActionCopyDir(old(View()), packet, h)
      ensures fresh(repr - old(repr))
    {
      HandleShows(h);
      hide NewHandle, ValidPending, ValidHandles;
      var hd := handles[h];
      if hd.kind == DeviceKind {
        ReplyToPacket(packet, DOSTRUE, 0, RootGiven);
      } else {
        ReplyWithHandle(packet, hd.id, hd.kind, hd.size, hd.path, hd.target, CopiedLock(nextHandle, hd.id));
      }
    }

    /** action_parent, which looks for the last slash from the end. */
    method OnParent(packet: nat, h: nat)
      requires Valid() && h in handles
      modifies this
      ensures Valid() && View() == ActionParent(old(View()), packet, h)
      ensures fresh(repr - old(repr))
    {
      HandleShows(h);
      hide NewHandle, ValidPending, ValidHandles;
      var hd := handles[h];
      if hd.kind == DeviceKind {
        ReplyToPacket(packet, DOSFALSE, ERROR_OBJECT_NOT_FOUND, NoParent);
      } else {
        var i := FindSlash(hd.path);
        if i <= 0 {
          ReplyToPacket(packet, DOSTRUE, 0, RootGiven);
        } else {
          ReplyWithHandle(packet, ROOT_ID, DirKind, 0, hd.path[..i], "", RootLock(nextHandle));
        }
      }
    }

    /** action_examine_next. */
    method OnExamineNext(packet: nat, h: nat)
      requires Valid() && h in handles
      modifies this, handles[h]
      ensures Valid() && View() == ActionExamineNext(old(View()), packet, h)
      ensures fresh(repr - old(repr))
    {
      HandleShows(h);
      hide ValidPending, ValidHandles;
      BeginOperation(packet, Enumerating(h), FindNextRequest(seqno, handles[h].id, !handles[h].enumerating));
      MarkEnumerating(h, true);
    }

    method MarkEnumerating(h: nat, on: bool)
      requires Valid() && h in handles
      modifies this`views, handles[h]
      ensures Valid() && h in old(views)
      ensures View() == old(View()).(handles := old(views)[h := old(views)[h].(enumerating := on)])
    {
      hide Chained, Holding;
      handles[h].enumerating := on;
      Follow(h);
    }

    // ---------- answers ----------

    /** An operation goes on under the next number. */
    method Requeue(op: PendingOp, ghost i: nat, detail: Detail, m: Msg)
      requires Valid() && i < |ops| && op == ops[i]
      modifies this`opViews, this`seqno, this`out, op
      ensures Valid() && i < |old(opViews)|
      ensures View() == Post(old(View()).(pending := old(opViews)[i := Op(old(seqno), op.packet, detail)]), m)
    {
      hide Chained, Holding, Showing, Separate;
      Renumber(op, i, detail);
      out := out + [m];
      seqno := (seqno + 1) % UINT32;
    }

    method Renumber(op: PendingOp, ghost i: nat, detail: Detail)
      requires ValidPending() && i < |ops| && op == ops[i]
      modifies this`opViews, op`requestSeqno, op`detail
      ensures ValidPending() && i < |old(opViews)| && opViews == old(opViews)[i := Op(seqno, op.packet, detail)]
    {
      op.requestSeqno, op.detail := seqno, detail;
      opViews := opViews[i := op.View()];
    }

    /** An answer's data goes to its reader, and what is left of it to the buffer of handle h. */
    method TakeHandle(h: nat, count: nat, data: seq<Byte>) returns (more: seq<Byte>, done: bool)
      requires Valid() && h in handles && |data| <= BUFFER_SIZE
      modifies this`views, handles[h]
      ensures Valid() && h in old(views)
      ensures var (hd, m, d) := TakeData(old(views)[h], count, data);
        more == m && done == d && View() == old(View()).(handles := old(views)[h := hd])
    {
      hide TakeData, Chained, Holding;
      more, done := handles[h].Take(count, data);
      Follow(h);
    }

    /** The reply that ends the operation at place i. */
    method Finish(op: PendingOp, ghost i: nat, res1: int, res2: int, what: What)
      requires Valid() && i < |ops| && op == ops[i]
      modifies this`pending, this`ops, this`opViews, this`log, ops
      ensures Valid() && View() == Unlink(ReplyTo(old(View()), op.packet, res1, res2, what), i)
    {
      hide Chained, Holding, Showing, Separate;
      ReplyToPacket(op.packet, res1, res2, what);
      UnlinkPending(op, i);
    }

    /** op is the operation at place i. */
    ghost predicate IsAt(op: PendingOp, i: nat)
      reads this`ops, this`opViews, op
    {
      i < |ops| && i < |opViews| && op == ops[i] && op.View() == opViews[i]
    }

    ghost predicate Has(h: nat)
      reads this`handles, this`views
    {
      h in handles && h in views
    }

    /** transmit_read_request for an operation that goes on. */
    method RequeueRead(op: PendingOp, ghost i: nat, h: nat, count: nat, got: seq<Byte>)
      requires Valid() && IsAt(op, i) && Has(h)
      modifies this`opViews, this`seqno, this`out, op
      ensures Valid()
      ensures View() ==
        Post(old(View()).(pending := old(opViews)[i := Op(old(seqno), op.packet, Reading(h, count, got))]),
                             ReadRequestFor(old(seqno), old(views)[h], count - Min(|got|, count)))
    {
      HandleShows(h);
      hide ValidPending, ValidHandles;
      var hd := handles[h];
      Requeue(op, i, Reading(h, count, got),
              ReadRequest(seqno, hd.id, hd.offset, Max(count - Min(|got|, count), BUFFER_SIZE)));
    }

    /** transmit_write_request for an operation that goes on. */
    method RequeueWrite(op: PendingOp, ghost i: nat, h: nat, data: seq<Byte>, at: nat, n: nat)
      requires Valid() && IsAt(op, i) && Has(h) && at + n <= |data|
      modifies this`opViews, this`seqno, this`out, op
      ensures Valid()
      ensures View() ==
        Post(old(View()).(pending := old(opViews)[i := Op(old(seqno), op.packet, Writing(h, data, at, n))]),
                             WriteRequest(old(seqno), old(views)[h].id, data[at..at + n]))
    {
      HandleShows(h);
      hide ValidPending, ValidHandles;
      Requeue(op, i, Writing(h, data, at, n), WriteRequest(seqno, handles[h].id, data[at..at + n]));
    }

    /** complete_read. */
    method OnReadAnswer(op: PendingOp, ghost i: nat, data: seq<Byte>)
      requires Valid() && IsAt(op, i) && op.detail.Reading? && Has(op.detail.h) && |data| <= BUFFER_SIZE
      modifies this, ops, handles[op.detail.h]
      ensures Valid() && View() == CompleteRead(old(View()), i, data)
      ensures fresh(repr - old(repr))
    {
      hide TakeData, ValidPending, ValidHandles;
      var Reading(h, count, got) := op.detail;
      var more, done := TakeHandle(h, count - Min(|got|, count), data);
      var got' := got + more;
      if done {
        Finish(op, i, |got'|, 0, GotData(h, count, got', true));
      } else {
        RequeueRead(op, i, h, count, got');
      }
    }

    /** complete_write. */
    method OnWriteAnswer(op: PendingOp, ghost i: nat)
      requires Valid() && IsAt(op, i) && op.detail.Writing? && Has(op.detail.h)
      modifies this, ops
      ensures Valid() && View() == CompleteWrite(old(View()), i)
      ensures fresh(repr - old(repr))
    {
      hide ValidPending, ValidHandles;
      var Writing(h, data, source, length) := op.detail;
      var at := source + length;
      if at < |data| {
        RequeueWrite(op, i, h, data, at, Min(|data| - at, BUFFER_SIZE));
      } else {
        Finish(op, i, |data|, 0, Wrote(h, data, true));
      }
    }

    /** complete_findinput. */
    method OnFindInputAnswer(op: PendingOp, ghost i: nat, m: Msg)
      requires Valid() && IsAt(op, i) && op.detail.OpeningFile? && m.OpenAnswer?
      modifies this, ops
      ensures Valid() && View() == CompleteFindInput(old(View()), i, m)
      ensures fresh(repr - old(repr))
    {
      hide NewHandle, ValidPending, ValidHandles;
      if m.isDir {
        PostMessage(CloseRequest(seqno, m.handle));
        Finish(op, i, DOSFALSE, ERROR_OBJECT_WRONG_TYPE, Refused(op.detail.target));
      } else {
        var h := nextHandle;
        AllocateHandle(m.handle, FileKind, m.size, op.detail.name, op.detail.target);
        Finish(op, i, DOSTRUE, 0, Opened(h, FileKind, op.detail.target));
      }
    }

    /** complete_locate_object. */
    method OnLocateAnswer(op: PendingOp, ghost i: nat, m: Msg)
      requires Valid() && IsAt(op, i) && op.detail.OpeningLock? && m.OpenAnswer?
      modifies this, ops
      ensures Valid() && View() == CompleteLocate(old(View()), i, m)
      ensures fresh(repr - old(repr))
    {
      hide NewHandle, ValidPending, ValidHandles;
      var h, kind := nextHandle, if m.isDir then DirKind else FileKind;
      AllocateHandle(m.handle, kind, m.size, op.detail.target, op.detail.target);
      Finish(op, i, DOSTRUE, 0, Opened(h, kind, op.detail.target));
    }

    /** complete_examine_next. */
    method OnExamineNextAnswer(op: PendingOp, ghost i: nat, m: Msg)
      requires Valid() && IsAt(op, i) && m.FindNextAnswer? && op.detail.Enumerating? && Has(op.detail.h)
      modifies this, ops, handles[op.detail.h]
      ensures Valid() && View() == CompleteExamineNext(old(View()), i, m)
      ensures fresh(repr - old(repr))
    {
      hide Truncate, ValidPending, ValidHandles;
      var h := op.detail.h;
      if m.end {
        MarkEnumerating(h, false);
        Finish(op, i, DOSFALSE, ERROR_NO_MORE_ENTRIES, ListEnd(h));
      } else {
        Finish(op, i, DOSTRUE, 0, Listed(h, Truncate(m.name, PATH_MAX - 2), m.isDir, m.size));
      }
    }

    // ---------- dispatch ----------

    /** process_fs_packet. */
    method ProcessFsPacket(packet: nat, p: Packet)
      requires Valid() && Acceptable(View(), p)
      modifies this, handles.Values
      ensures Valid() && View() == ProcessPacket(old(View()), packet, p)
      ensures fresh(repr - old(repr))
    {
      AllHave();
      hide ValidPending, ValidHandles, View, ActionRead, ActionWrite, ActionSeek, ActionFindInput, ActionFindOutput,
        ActionLocate, ActionFree, ActionCopyDir, ActionParent, ActionExamineNext;
      match p
      case Read(h, count) => OnRead(packet, h, count);
      case Write(h, data) => OnWrite(packet, h, data);
      case Seek(h, amount, mode) => OnSeek(packet, h, amount, mode);
      case FindInput(name) => OnFindInput(packet, name);
      case FindOutput(name) => OnFindOutput(packet, name);
      case Locate(dir, name) => OnLocate(packet, dir, name);
      case Free(h) => OnFree(packet, h);
      case CopyDir(h) => OnCopyDir(packet, h);
      case Parent(h) => OnParent(packet, h);
      case ExamineNext(h) => OnExamineNext(packet, h);
      case Constant(res1, res2) => ReplyToPacket(packet, res1, res2, Other);
      case Die =>
    }

    lemma AllHave()
      requires ValidHandles()
      ensures handles.Keys == views.Keys
    {
    }

    /** rl_amigafs_process_network_message; the result is true where it ends the connection. */
    method ProcessNetworkMessage(m: Msg) returns (broken: bool)
      requires Valid() && AllLive(View())
      requires m.ReadAnswer? ==> |m.data| <= BUFFER_SIZE
      modifies this, ops, handles.Values
      ensures Valid() && (View(), broken) == ProcessAnswer(old(View()), m)
      ensures fresh(repr - old(repr))
    {
      var op, i := FindPendingOp(m.seqno);
      if op == null {
        return true;
      }
      NodeAt(i);
      broken := Complete(op, i, m);
    }

    /** The callback of an operation, or what its failure or a mismatch comes to. */
    method Complete(op: PendingOp, ghost i: nat, m: Msg) returns (broken: bool)
      requires Valid() && AllLive(View()) && IsAt(op, i) && FindPending(opViews, m.seqno) == Some(i)
      requires m.ReadAnswer? ==> |m.data| <= BUFFER_SIZE
      modifies this, ops, handles.Values
      ensures Valid() && (View(), broken) == ProcessAnswer(old(View()), m)
      ensures fresh(repr - old(repr))
    {
      AllHave();
      assert Live(View(), opViews[i].detail);
      hide ValidPending, ValidHandles, CompleteRead, CompleteWrite, CompleteFindInput, CompleteLocate,
        CompleteExamineNext, TranslateError, AllLive, Unlink;
      broken := false;
      if op.detail.Reading? && m.ReadAnswer? {
        OnReadAnswer(op, i, m.data);
      } else if op.detail.Writing? && m.WriteAnswer? {
        OnWriteAnswer(op, i);
      } else if op.detail.OpeningFile? && m.OpenAnswer? {
        OnFindInputAnswer(op, i, m);
      } else if op.detail.OpeningLock? && m.OpenAnswer? {
        OnLocateAnswer(op, i, m);
      } else if op.detail.Enumerating? && m.FindNextAnswer? {
        OnExamineNextAnswer(op, i, m);
      } else {
        broken := !m.ErrorAnswer?;
        Finish(op, i, DOSFALSE, if broken then ERROR_DEVICE_NOT_MOUNTED else TranslateError(m.code),
               Failure(op.detail));
      }
    }

    lemma NodeAt(i: nat)
      requires ValidPending() && i < |ops|
      ensures IsAt(ops[i], i)
    {
    }
  }
}
