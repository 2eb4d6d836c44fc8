/**
 The remote file system as functions on values: what the client of
 src/amigafs.c does with a DOS packet or with an answer, and what the server of
 src/file_server.c does with a request.
 */
module RemoteFs {
  import opened Base

  const UINT32: nat := 0x1_0000_0000
  const BUFFER_SIZE: nat := 4096
  const MAX_FILE_HANDLES: nat := 16
  const PATH_MAX: nat := 108

  /** Handle ids that are not slots of the server's table. */
  const ROOT_ID: nat := 0xffff_ffff
  const VIRTUAL_INPUT_ID: nat := 0x7fff_fffe
  const VIRTUAL_OUTPUT_ID: nat := 0x7fff_fffd

  const VIRTUAL_INPUT_FILE := "+virtual-input+"
  const VIRTUAL_OUTPUT_FILE := "+virtual-output+"

  const DOSTRUE: int := -1
  const DOSFALSE: int := 0

  // ---------- network messages ----------

  /** The requests and answers of src/rlnet.msg that concern files; seqno is also an answer's in_reply_to. */
  datatype Msg =
    | OpenRequest(seqno: nat, path: string)
    | CloseRequest(seqno: nat, handle: nat)
    | ReadRequest(seqno: nat, handle: nat, offset: nat, length: nat)
    | WriteRequest(seqno: nat, handle: nat, data: seq<Byte>)
    | FindNextRequest(seqno: nat, handle: nat, reset: bool)
    | ErrorAnswer(seqno: nat, code: nat)
    | OpenAnswer(seqno: nat, handle: nat, isDir: bool, size: nat)
    | ReadAnswer(seqno: nat, data: seq<Byte>)
    | WriteAnswer(seqno: nat)
    | FindNextAnswer(seqno: nat, end: bool, isDir: bool, name: string, size: nat)

  predicate IsAnswer(m: Msg) {
    m.ErrorAnswer? || m.OpenAnswer? || m.ReadAnswer? || m.WriteAnswer? || m.FindNextAnswer?
  }

  const NETERR_ACCESS_DENIED: nat := 1
  const NETERR_NOT_FOUND: nat := 2
  const NETERR_NOT_A_FILE: nat := 3
  const NETERR_NOT_A_DIRECTORY: nat := 4
  const NETERR_IO_ERROR: nat := 5
  const NETERR_INVALID_VALUE: nat := 6
  const NETERR_BAD_REQUEST: nat := 128
  const NETERR_TOO_MANY_FILES_OPEN: nat := 129

  // ---------- the client ----------

  datatype Kind = FileKind | DirKind | InputKind | OutputKind | DeviceKind

  /**
   rl_client_handle_t. buffer is the valid part of the read buffer. target is
   the path that was sent to open it: the code does not keep it for files.
   */
  datatype Handle = Handle(
    id: nat, kind: Kind, offset: nat, size: nat, enumerating: bool,
    path: string, target: string, bufferStart: nat, buffer: seq<Byte>)

  /**
   What a pending operation remembers besides its packet. got is the part of a
   read already in the caller's memory.
   */
  datatype Detail =
    | Reading(h: nat, count: nat, got: seq<Byte>)
    | Writing(h: nat, data: seq<Byte>, source: nat, length: nat)
    | OpeningFile(name: string, target: string)
    | OpeningLock(target: string)
    | Enumerating(h: nat)

  datatype Op = Op(seqno: nat, packet: nat, detail: Detail)

  /** What a reply told its caller, and about which handle. */
  datatype What =
    | Opened(h: nat, kind: Kind, target: string)
    | GotData(h: nat, count: nat, data: seq<Byte>, ok: bool)
    | Sought(h: nat, mode: int, amount: int)
    | Listed(h: nat, name: string, isDir: bool, size: nat)
    | ListFailed(h: nat)
    | ListEnd(h: nat)
    | Wrote(h: nat, data: seq<Byte>, ok: bool)
    | Refused(target: string)
    | RootLock(h: nat)
    | InputOpened(h: nat)
    | OutputOpened(h: nat)
    | NoOutput
    | RootGiven
    | NoParent
    | Freed(h: nat)
    | Other

  datatype Reply = Reply(packet: nat, res1: int, res2: int, what: What)

  /** rl_amigafs_t. Handle 0 is the root handle; out is the request channel, log the packets replied to. */
  datatype Client = Client(
    seqno: nat, pending: seq<Op>, handles: map<nat, Handle>, next: nat, out: seq<Msg>, log: seq<Reply>)

  const ERROR_OBJECT_IN_USE: int := 202
  const ERROR_OBJECT_NOT_FOUND: int := 205
  const ERROR_OBJECT_WRONG_TYPE: int := 212
  const ERROR_DISK_NOT_VALIDATED: int := 213
  const ERROR_DEVICE_NOT_MOUNTED: int := 218
  const ERROR_NO_MORE_ENTRIES: int := 232

  datatype Packet =
    | Read(h: nat, count: nat)
    | Write(h: nat, data: seq<Byte>)
    | Seek(h: nat, amount: int, mode: int)
    | FindInput(name: string)
    | FindOutput(name: string)
    | Locate(dir: nat, name: string)
    | Free(h: nat)
    | CopyDir(h: nat)
    | Parent(h: nat)
    | ExamineNext(h: nat)
    | Constant(res1: int, res2: int)
    | Die

  function ReplyTo(c: Client, packet: nat, res1: int, res2: int, what: What): Client {
    c.(log := c.log + [Reply(packet, res1, res2, what)])
  }

  /** A message goes out under the next sequence number. */
  function Post(c: Client, m: Msg): Client {
    c.(out := c.out + [m], seqno := (c.seqno + 1) % UINT32)
  }

  /** alloc_pending and the request that goes with the operation. */
  function Begin(c: Client, packet: nat, detail: Detail, m: Msg): Client {
    Post(c.(pending := [Op(c.seqno, packet, detail)] + c.pending), m)
  }

  /** find_pending_op: the first operation in the list with this number. */
  function FindPending(pending: seq<Op>, seqno: nat): (r: Option<nat>)
    ensures r.Some? ==> r.value < |pending| && pending[r.value].seqno == seqno
    ensures r.None? ==> forall i :: 0 <= i < |pending| ==> pending[i].seqno != seqno
  {
    if pending == [] then None
    else if pending[0].seqno == seqno then Some(0)
    else match FindPending(pending[1..], seqno)
      case Some(i) => Some(i + 1)
      case None => None
  }

  /** unlink_pending. */
  function Unlink(c: Client, i: nat): Client
    requires i < |c.pending|
  {
    c.(pending := c.pending[..i] + c.pending[i + 1..])
  }

  // ---------- reading ----------

  function Max(a: nat, b: nat): nat {
    if a > b then a else b
  }

  /** buffer_overlap: how many of count bytes the read buffer holds from the current offset on. */
  function BufferOverlap(h: Handle, count: nat): Option<nat> {
    var hi := (h.bufferStart + |h.buffer|) % UINT32;
    if h.offset < h.bufferStart || hi <= h.offset then None
    else Some(Min(hi - h.offset, count))
  }

  /** The handle and the bytes after the read buffer has given what it can; the flag says that this was all. */
  function ServeFromBuffer(h: Handle, count: nat): (Handle, seq<Byte>, bool) {
    match BufferOverlap(h, count)
    case None => (h, [], false)
    case Some(k) =>
      var at := h.offset - h.bufferStart;
      (h.(offset := (h.offset + k) % UINT32),
       if at + k <= |h.buffer| then h.buffer[at..at + k] else [],
       k == count)
  }

  /** Where the end of the buffer does not wrap around, the overlap is what the buffer has from the offset on. */
  lemma OverlapIs(h: Handle, count: nat)
    requires h.bufferStart + |h.buffer| < UINT32
    ensures var end := h.bufferStart + |h.buffer|;
      BufferOverlap(h, count) ==
        if h.bufferStart <= h.offset < end then Some(Min(end - h.offset, count)) else None
  {
    assert (h.bufferStart + |h.buffer|) % UINT32 == h.bufferStart + |h.buffer|;
  }

  /** And what the buffer gives are these bytes. */
  lemma ServedIs(h: Handle, count: nat)
    requires h.bufferStart + |h.buffer| < UINT32
    ensures var end := h.bufferStart + |h.buffer|;
      if h.bufferStart <= h.offset < end then
        var k, at := Min(end - h.offset, count), h.offset - h.bufferStart;
        ServeFromBuffer(h, count) == (h.(offset := h.offset + k), h.buffer[at..at + k], k == count)
      else ServeFromBuffer(h, count) == (h, [], false)
  {
    hide BufferOverlap;
    OverlapIs(h, count);
    var end := h.bufferStart + |h.buffer|;
    if h.bufferStart <= h.offset < end {
      assert (h.offset + Min(end - h.offset, count)) % UINT32 == h.offset + Min(end - h.offset, count);
    }
  }

  function ReadRequestFor(seqno: nat, h: Handle, count: nat): Msg {
    ReadRequest(seqno, h.id, h.offset, Max(count, BUFFER_SIZE))
  }

  /** action_read. */
  function ActionRead(c: Client, packet: nat, h: nat, count: nat): Client
    requires h in c.handles
  {
    var (hd, got, all) := ServeFromBuffer(c.handles[h], count);
    var c' := c.(handles := c.handles[h := hd]);
    if all then ReplyTo(c', packet, count, 0, GotData(h, count, got, true))
    else Begin(c', packet, Reading(h, count, got), ReadRequestFor(c.seqno, hd, count - Min(|got|, count)))
  }

  /**
   What an answer with data does to a read that still lacks count bytes: the
   handle, the bytes that go to the caller, and whether that completes it.
   */
  function TakeData(h: Handle, count: nat, data: seq<Byte>): (Handle, seq<Byte>, bool) {
    var k := Min(count, |data|);
    var offset := (h.offset + k) % UINT32;
    if k == count || data == [] then
      (h.(offset := offset, bufferStart := offset, buffer := data[k..]), data[..k], true)
    else
      (h.(offset := offset), data[..k], false)
  }

  /** complete_read, for the operation at place i. */
  function CompleteRead(c: Client, i: nat, data: seq<Byte>): Client
    requires i < |c.pending| && c.pending[i].detail.Reading? && c.pending[i].detail.h in c.handles
  {
    var op := c.pending[i];
    var Reading(h, count, got) := op.detail;
    var (hd, more, done) := TakeData(c.handles[h], count - Min(|got|, count), data);
    var c' := c.(handles := c.handles[h := hd]);
    var got' := got + more;
    if done then ReplyTo(Unlink(c', i), op.packet, |got'|, 0, GotData(h, count, got', true))
    else
      Post(c'.(pending := c.pending[i := Op(c.seqno, op.packet, Reading(h, count, got'))]),
           ReadRequestFor(c.seqno, hd, count - Min(|got'|, count)))
  }

  // ---------- seeking ----------

  const OFFSET_BEGINNING: int := -1
  const OFFSET_CURRENT: int := 0
  const OFFSET_END: int := 1

  /** The new offset of action_seek: 32-bit arithmetic, then everything beyond the end becomes the end. */
  function SeekOffset(offset: nat, size: nat, amount: int, mode: int): nat {
    var raw :=
      if mode == OFFSET_BEGINNING then amount % UINT32
      else if mode == OFFSET_CURRENT then (offset + amount) % UINT32
      else if mode == OFFSET_END then (size + amount) % UINT32
      else offset;
    if raw > size then size else raw
  }

  /** action_seek. */
  function ActionSeek(c: Client, packet: nat, h: nat, amount: int, mode: int): Client
    requires h in c.handles
  {
    var hd := c.handles[h];
    ReplyTo(c.(handles := c.handles[h := hd.(offset := SeekOffset(hd.offset, hd.size, amount, mode))]),
            packet, hd.offset, 0, Sought(h, mode, amount))
  }

  // ---------- writing ----------

  /** action_write. */
  function ActionWrite(c: Client, packet: nat, h: nat, data: seq<Byte>): Client
    requires h in c.handles
  {
    var n := Min(|data|, BUFFER_SIZE);
    Begin(c, packet, Writing(h, data, 0, n), WriteRequest(c.seqno, c.handles[h].id, data[..n]))
  }

  /** The next chunk of a write, if there is one. */
  function NextChunk(data: seq<Byte>, source: nat, length: nat): Option<(nat, nat)> {
    var at := source + length;
    if at < |data| then Some((at, Min(|data| - at, BUFFER_SIZE))) else None
  }

  /** complete_write. */
  function CompleteWrite(c: Client, i: nat): Client
    requires i < |c.pending| && c.pending[i].detail.Writing? && c.pending[i].detail.h in c.handles
  {
    var op := c.pending[i];
    var Writing(h, data, source, length) := op.detail;
    match NextChunk(data, source, length)
    case Some((at, n)) =>
      Post(c.(pending := c.pending[i := Op(c.seqno, op.packet, Writing(h, data, at, n))]),
           WriteRequest(c.seqno, c.handles[h].id, data[at..at + n]))
    case None => ReplyTo(Unlink(c, i), op.packet, |data|, 0, Wrote(h, data, true))
  }

  // ---------- opening and closing ----------

  function Truncate(s: string, n: nat): (t: string)
    ensures |t| <= n
  {
    if |s| <= n then s else s[..n]
  }

  /** What follows the first colon, or all of it. */
  function AfterColon(name: string): (string, bool) {
    if name == "" then ("", false)
    else if name[0] == ':' then (name[1..], true)
    else
      var (rest, found) := AfterColon(name[1..]);
      if found then (rest, true) else (name, false)
  }

  /** normalize_object_path, with the path of the directory handle that the name is relative to. */
  function Normalize(dir: Handle, name: string): string {
    var (item, absolute) := AfterColon(name);
    if absolute || dir.kind == DeviceKind then Truncate(item, PATH_MAX - 1)
    else Truncate(dir.path + "/" + item, PATH_MAX - 1)
  }

  function NewHandle(id: nat, kind: Kind, size: nat, path: string, target: string): Handle {
    Handle(id, kind, 0, size, false, Truncate(path, PATH_MAX - 1), target, 0, [])
  }

  function AddHandle(c: Client, hd: Handle): Client {
    c.(handles := c.handles[c.next := hd], next := c.next + 1)
  }

  /** action_findinput. */
  function ActionFindInput(c: Client, packet: nat, name: string): Client {
    var target := AfterColon(name).0;
    if target == VIRTUAL_INPUT_FILE then
      ReplyTo(AddHandle(c, NewHandle(VIRTUAL_INPUT_ID, InputKind, 0, name, target)), packet, DOSTRUE, 0,
              InputOpened(c.next))
    else Begin(c, packet, OpeningFile(name, target), OpenRequest(c.seqno, target))
  }

  /** complete_findinput: a directory is refused and its server-side handle closed again. */
  function CompleteFindInput(c: Client, i: nat, m: Msg): Client
    requires i < |c.pending| && c.pending[i].detail.OpeningFile? && m.OpenAnswer?
  {
    var op := c.pending[i];
    if m.isDir then
      Unlink(ReplyTo(Post(c, CloseRequest(c.seqno, m.handle)), op.packet, DOSFALSE, ERROR_OBJECT_WRONG_TYPE,
                     Refused(op.detail.target)), i)
    else
      var hd := NewHandle(m.handle, FileKind, m.size, op.detail.name, op.detail.target);
      Unlink(ReplyTo(AddHandle(c, hd), op.packet, DOSTRUE, 0, Opened(c.next, FileKind, op.detail.target)), i)
  }

  /** action_findoutput. */
  function ActionFindOutput(c: Client, packet: nat, name: string): Client {
    var target := AfterColon(name).0;
    if target == VIRTUAL_OUTPUT_FILE then
      ReplyTo(AddHandle(c, NewHandle(VIRTUAL_OUTPUT_ID, OutputKind, 0, name, target)), packet, DOSTRUE, 0,
              OutputOpened(c.next))
    else ReplyTo(c, packet, DOSFALSE, 0, NoOutput)
  }

  /** action_locate_object. An empty path is the root, whose handle is shared. */
  function ActionLocate(c: Client, packet: nat, dir: nat, name: string): Client
    requires dir in c.handles
  {
    var target := Normalize(c.handles[dir], name);
    if target == "" then ReplyTo(c, packet, DOSTRUE, 0, RootGiven)
    else Begin(c, packet, OpeningLock(target), OpenRequest(c.seqno, target))
  }

  /** complete_locate_object. */
  function CompleteLocate(c: Client, i: nat, m: Msg): Client
    requires i < |c.pending| && c.pending[i].detail.OpeningLock? && m.OpenAnswer?
  {
    var op := c.pending[i];
    var kind := if m.isDir then DirKind else FileKind;
    var hd := NewHandle(m.handle, kind, m.size, op.detail.target, op.detail.target);
    Unlink(ReplyTo(AddHandle(c, hd), op.packet, DOSTRUE, 0, Opened(c.next, kind, op.detail.target)), i)
  }

  /** rl_amigafs_free_lock, for action_free_lock and action_end. The root handle stays. */
  function ActionFree(c: Client, packet: nat, h: nat): Client
    requires h in c.handles
  {
    var hd := c.handles[h];
    if hd.kind == DeviceKind then ReplyTo(c, packet, DOSTRUE, 0, Freed(h))
    else ReplyTo(Post(c.(handles := c.handles - {h}), CloseRequest(c.seqno, hd.id)), packet, DOSTRUE, 0, Freed(h))
  }

  /** What the caller of a copied lock is told: one with the root's id lists the root, one of the output prints. */
  function CopiedLock(h: nat, id: nat): What {
    if id == ROOT_ID then RootLock(h)
    else if id == VIRTUAL_OUTPUT_ID then OutputOpened(h)
    else if id == VIRTUAL_INPUT_ID then InputOpened(h)
    else Other
  }

  /** action_copy_dir: the copy has the same server-side handle. */
  function ActionCopyDir(c: Client, packet: nat, h: nat): Client
    requires h in c.handles
  {
    var hd := c.handles[h];
    if hd.kind == DeviceKind then ReplyTo(c, packet, DOSTRUE, 0, RootGiven)
    else
      ReplyTo(AddHandle(c, NewHandle(hd.id, hd.kind, hd.size, hd.path, hd.target)), packet, DOSTRUE, 0,
              CopiedLock(c.next, hd.id))
  }

  /** Place of the last slash, or -1. */
  function LastSlash(path: string): (i: int)
    ensures -1 <= i < |path|
    ensures i >= 0 ==> path[i] == '/'
    ensures forall j :: i < j < |path| ==> path[j] != '/'
  {
    if path == "" then -1
    else if path[|path| - 1] == '/' then |path| - 1
    else LastSlash(path[..|path| - 1])
  }

  /** action_parent: a parent other than the root is given the root's id. */
  function ActionParent(c: Client, packet: nat, h: nat): Client
    requires h in c.handles
  {
    var hd := c.handles[h];
    if hd.kind == DeviceKind then ReplyTo(c, packet, DOSFALSE, ERROR_OBJECT_NOT_FOUND, NoParent)
    else
      var i := LastSlash(hd.path);
      if i <= 0 then ReplyTo(c, packet, DOSTRUE, 0, RootGiven)
      else
        ReplyTo(AddHandle(c, NewHandle(ROOT_ID, DirKind, 0, hd.path[..i], "")), packet, DOSTRUE, 0, RootLock(c.next))
  }

  // ---------- directories ----------

  /** action_examine_next. */
  function ActionExamineNext(c: Client, packet: nat, h: nat): Client
    requires h in c.handles
  {
    var hd := c.handles[h];
    var c' := Begin(c, packet, Enumerating(h), FindNextRequest(c.seqno, hd.id, !hd.enumerating));
    c'.(handles := c.handles[h := hd.(enumerating := true)])
  }

  /** complete_examine_next; names are cut to the space in the caller's structure. */
  function CompleteExamineNext(c: Client, i: nat, m: Msg): Client
    requires i < |c.pending| && c.pending[i].detail.Enumerating? && c.pending[i].detail.h in c.handles
    requires m.FindNextAnswer?
  {
    var op := c.pending[i];
    var h := op.detail.h;
    if m.end then
      var c' := c.(handles := c.handles[h := c.handles[h].(enumerating := false)]);
      Unlink(ReplyTo(c', op.packet, DOSFALSE, ERROR_NO_MORE_ENTRIES, ListEnd(h)), i)
    else
      Unlink(ReplyTo(c, op.packet, DOSTRUE, 0, Listed(h, Truncate(m.name, PATH_MAX - 2), m.isDir, m.size)), i)
  }

  // ---------- dispatch ----------

  /** The handle a packet works on, while it works on it. */
  function HandleOf(d: Detail): Option<nat> {
    match d
    case Reading(h, _, _) => Some(h)
    case Writing(h, _, _, _) => Some(h)
    case Enumerating(h) => Some(h)
    case OpeningFile(_, _) => None
    case OpeningLock(_) => None
  }

  /** What a caller of AmigaDOS must own to send the packet. */
  predicate Acceptable(c: Client, p: Packet) {
    match p
    case Read(h, count) => h in c.handles && count < UINT32
    case Write(h, _) => h in c.handles
    case Seek(h, amount, _) => h in c.handles && -0x8000_0000 <= amount < 0x8000_0000
    case Locate(dir, _) => dir in c.handles
    case Free(h) => h in c.handles
    case CopyDir(h) => h in c.handles
    case Parent(h) => h in c.handles
    case ExamineNext(h) => h in c.handles
    case FindInput(_) => true
    case FindOutput(_) => true
    case Constant(_, _) => true
    case Die => true
  }

  /** process_fs_packet. */
  function ProcessPacket(c: Client, packet: nat, p: Packet): Client
    requires Acceptable(c, p)
  {
    match p
    case Read(h, count) => ActionRead(c, packet, h, count)
    case Write(h, data) => ActionWrite(c, packet, h, data)
    case Seek(h, amount, mode) => ActionSeek(c, packet, h, amount, mode)
    case FindInput(name) => ActionFindInput(c, packet, name)
    case FindOutput(name) => ActionFindOutput(c, packet, name)
    case Locate(dir, name) => ActionLocate(c, packet, dir, name)
    case Free(h) => ActionFree(c, packet, h)
    case CopyDir(h) => ActionCopyDir(c, packet, h)
    case Parent(h) => ActionParent(c, packet, h)
    case ExamineNext(h) => ActionExamineNext(c, packet, h)
    case Constant(res1, res2) => ReplyTo(c, packet, res1, res2, Other)
    case Die => c
  }

  /** The kind of answer that an operation expects. */
  predicate Expected(d: Detail, m: Msg) {
    match d
    case Reading(_, _, _) => m.ReadAnswer?
    case Writing(_, _, _, _) => m.WriteAnswer?
    case OpeningFile(_, _) => m.OpenAnswer?
    case OpeningLock(_) => m.OpenAnswer?
    case Enumerating(_) => m.FindNextAnswer?
  }

  /** translate_error_code, with the AmigaDOS numbers. */
  function TranslateError(code: nat): int {
    match code
    case 0 => 0
    case 1 => ERROR_OBJECT_IN_USE
    case 2 => ERROR_OBJECT_NOT_FOUND
    case 3 => ERROR_OBJECT_WRONG_TYPE
    case 4 => ERROR_OBJECT_WRONG_TYPE
    case 5 => ERROR_DISK_NOT_VALIDATED
    case 6 => ERROR_OBJECT_WRONG_TYPE
    case _ => ERROR_DEVICE_NOT_MOUNTED
  }

  /** What the caller is told when its operation fails. */
  function Failure(d: Detail): What {
    match d
    case Reading(h, count, got) => GotData(h, count, got, false)
    case Writing(h, data, _, _) => Wrote(h, data, false)
    case Enumerating(h) => ListFailed(h)
    case OpeningFile(_, target) => Refused(target)
    case OpeningLock(target) => Refused(target)
  }

  predicate Live(c: Client, d: Detail) {
    match HandleOf(d)
    case Some(h) => h in c.handles
    case None => true
  }

  predicate AllLive(c: Client) {
    forall i :: 0 <= i < |c.pending| ==> Live(c, c.pending[i].detail)
  }

  /**
   rl_amigafs_process_network_message. The flag is its result: true where the
   message matches no operation or not its kind, which ends the connection.
   */
  function ProcessAnswer(c: Client, m: Msg): (Client, bool)
    requires AllLive(c)
  {
    match FindPending(c.pending, m.seqno)
    case None => (c, true)
    case Some(i) =>
      var op := c.pending[i];
      if Expected(op.detail, m) then
        assert Live(c, op.detail);
        (match op.detail
         case Reading(_, _, _) => CompleteRead(c, i, m.data)
         case Writing(_, _, _, _) => CompleteWrite(c, i)
         case OpeningFile(_, _) => CompleteFindInput(c, i, m)
         case OpeningLock(_) => CompleteLocate(c, i, m)
         case Enumerating(_) => CompleteExamineNext(c, i, m),
         false)
      else if m.ErrorAnswer? then
        (Unlink(ReplyTo(c, op.packet, DOSFALSE, TranslateError(m.code), Failure(op.detail)), i), false)
      else
        (Unlink(ReplyTo(c, op.packet, DOSFALSE, ERROR_DEVICE_NOT_MOUNTED, Failure(op.detail)), i), true)
  }

  // ---------- the server ----------

  /** A directory entry; stat may fail. */
  datatype Entry = Entry(name: string, stat: Option<Stat>)
  datatype Stat = Stat(isDir: bool, size: nat)

  datatype Node = FileNode(data: seq<Byte>) | DirNode(entries: seq<Entry>)

  /** The served tree: paths below the served directory, which itself is "". */
  type World = map<string, Node>

  datatype Cursor = Cursor(path: string, next: nat)

  /** rl_filehandle_t: fd is 0 in a free slot and -1 for a directory; dir is the open DIR, which close leaves behind. */
  datatype Slot = Slot(fd: int, isDir: bool, path: string, size: nat, dir: Option<Cursor>)

  datatype Server = Server(slots: seq<Slot>, root: Slot, stdout: seq<Byte>)

  const FREE_SLOT := Slot(0, false, "", 0, None)

  function IdleServer(): (s: Server)
    ensures |s.slots| == MAX_FILE_HANDLES
    ensures forall i :: 0 <= i < |s.slots| ==> s.slots[i] == FREE_SLOT
  {
    Server(seq(MAX_FILE_HANDLES, _ => FREE_SLOT), Slot(0, true, "", 0, None), [])
  }

  /**
   What the operating system decides: the descriptor of a successful open, or
   that it fails with code; whether a read fails, and how much it delivers.
   */
  datatype OsResult = OsResult(fd: nat, fails: bool, code: nat, count: nat)

  /** The slot search of make_handle. */
  function FirstFree(slots: seq<Slot>): (i: nat)
    ensures i <= |slots|
    ensures i < |slots| ==> slots[i].fd == 0
    ensures forall j :: 0 <= j < i ==> slots[j].fd != 0
  {
    if slots == [] || slots[0].fd == 0 then 0 else 1 + FirstFree(slots[1..])
  }

  /** open_handle_request with make_handle, for the one mode the client uses: reading. */
  function ServeOpen(s: Server, w: World, m: Msg, os: OsResult): (Server, Msg)
    requires m.OpenRequest?
  {
    var i := FirstFree(s.slots);
    if i == |s.slots| then (s, ErrorAnswer(m.seqno, NETERR_TOO_MANY_FILES_OPEN))
    else if m.path !in w then (s, ErrorAnswer(m.seqno, NETERR_NOT_FOUND))
    else
      match w[m.path]
      case DirNode(_) =>
        (s.(slots := s.slots[i := Slot(-1, true, m.path, 0, s.slots[i].dir)]), OpenAnswer(m.seqno, i, true, 0))
      case FileNode(data) =>
        if os.fails then (s.(slots := s.slots[i := s.slots[i].(isDir := false)]), ErrorAnswer(m.seqno, os.code))
        else (s.(slots := s.slots[i := Slot(os.fd, false, m.path, |data|, s.slots[i].dir)]),
              OpenAnswer(m.seqno, i, false, |data|))
  }

  /** close_handle_request: there is no answer, unless the handle does not exist. */
  function ServeClose(s: Server, m: Msg): (Server, Option<Msg>)
    requires m.CloseRequest?
  {
    if m.handle == VIRTUAL_INPUT_ID || m.handle == VIRTUAL_OUTPUT_ID then (s, None)
    else if m.handle == ROOT_ID then (s.(root := s.root.(fd := 0)), None)
    else if m.handle >= |s.slots| then (s, Some(ErrorAnswer(m.seqno, NETERR_INVALID_VALUE)))
    else (s.(slots := s.slots[m.handle := s.slots[m.handle].(fd := 0)]), None)
  }

  /** What readdir and stat say, and where the open directory is then. */
  function ReadDir(w: World, seqno: nat, at: Cursor): (Cursor, Msg) {
    if at.path !in w || !w[at.path].DirNode? || at.next >= |w[at.path].entries| then
      (at, FindNextAnswer(seqno, true, true, "", 0))
    else
      var entry := w[at.path].entries[at.next];
      (at.(next := at.next + 1),
       match entry.stat
       case None => ErrorAnswer(seqno, NETERR_IO_ERROR)
       case Some(st) => FindNextAnswer(seqno, false, st.isDir, entry.name, st.size))
  }

  /** find_next_file_request on one slot: a reset or a missing DIR opens the directory anew. */
  function FindNextIn(slot: Slot, w: World, m: Msg): (Slot, Msg)
    requires m.FindNextRequest?
  {
    if !slot.isDir then (slot, ErrorAnswer(m.seqno, NETERR_NOT_A_DIRECTORY))
    else if (m.reset || slot.dir.None?) && (slot.path !in w || !w[slot.path].DirNode?) then
      (slot.(dir := None), ErrorAnswer(m.seqno, NETERR_IO_ERROR))
    else
      var at := if m.reset || slot.dir.None? then Cursor(slot.path, 0) else slot.dir.value;
      var (at', answer) := ReadDir(w, m.seqno, at);
      (slot.(dir := Some(at')), answer)
  }

  function ServeFindNext(s: Server, w: World, m: Msg): (Server, Msg)
    requires m.FindNextRequest?
  {
    if m.handle == ROOT_ID then
      var (root, answer) := FindNextIn(s.root, w, m);
      (s.(root := root), answer)
    else if m.handle == VIRTUAL_INPUT_ID || m.handle == VIRTUAL_OUTPUT_ID then
      (s, ErrorAnswer(m.seqno, NETERR_NOT_A_DIRECTORY))
    else if m.handle >= |s.slots| then (s, ErrorAnswer(m.seqno, NETERR_INVALID_VALUE))
    else
      var (slot, answer) := FindNextIn(s.slots[m.handle], w, m);
      (s.(slots := s.slots[m.handle := slot]), answer)
  }

  /** How many bytes a pread of a whole server buffer at offset delivers: short only by the choice of the system. */
  function PreadCount(size: nat, offset: nat, os: OsResult): (k: nat)
    ensures offset + k <= size || k == 0
    ensures k <= BUFFER_SIZE && (k == 0 <==> size <= offset)
  {
    if size <= offset then 0 else Max(1, Min(os.count, Min(BUFFER_SIZE, size - offset)))
  }

  /** read_file_request. The virtual input has descriptor 0, which counts as no file. */
  function ServeRead(s: Server, w: World, m: Msg, os: OsResult): Msg
    requires m.ReadRequest?
  {
    if m.handle == VIRTUAL_INPUT_ID then ErrorAnswer(m.seqno, NETERR_NOT_A_FILE)
    else if m.handle == VIRTUAL_OUTPUT_ID then ErrorAnswer(m.seqno, NETERR_IO_ERROR)
    else if m.handle != ROOT_ID && m.handle >= |s.slots| then ErrorAnswer(m.seqno, NETERR_INVALID_VALUE)
    else
      var slot := if m.handle == ROOT_ID then s.root else s.slots[m.handle];
      if slot.fd == 0 then ErrorAnswer(m.seqno, NETERR_NOT_A_FILE)
      else if slot.fd == -1 || os.fails || slot.path !in w || !w[slot.path].FileNode?
      then ErrorAnswer(m.seqno, NETERR_IO_ERROR)
      else
        var data := w[slot.path].data;
        var k := PreadCount(|data|, m.offset, os);
        ReadAnswer(m.seqno, if k == 0 then [] else data[m.offset..m.offset + k])
  }

  /** write_file_request: only the virtual output is really written. */
  function ServeWrite(s: Server, m: Msg): (Server, Msg)
    requires m.WriteRequest?
  {
    (if m.handle == VIRTUAL_OUTPUT_ID then s.(stdout := s.stdout + m.data) else s, WriteAnswer(m.seqno))
  }

  /** rl_file_serve: what is no request about files is a bad request. */
  function Serve(s: Server, w: World, m: Msg, os: OsResult): (Server, Option<Msg>) {
    match m
    case OpenRequest(_, _) => var (s', a) := ServeOpen(s, w, m, os); (s', Some(a))
    case CloseRequest(_, _) => ServeClose(s, m)
    case ReadRequest(_, _, _, _) => (s, Some(ServeRead(s, w, m, os)))
    case WriteRequest(_, _, _) => var (s', a) := ServeWrite(s, m); (s', Some(a))
    case FindNextRequest(_, _, _) => var (s', a) := ServeFindNext(s, w, m); (s', Some(a))
    case _ => (s, Some(ErrorAnswer(m.seqno, NETERR_BAD_REQUEST)))
  }
}
