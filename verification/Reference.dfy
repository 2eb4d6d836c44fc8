/**
 The file system that callers are meant to see: handles with a position in an
 unchanging file, or in an unchanging directory, with no buffer, no server and
 no messages. A log of replies is right if this reference would have given
 them.
 */
module Reference {
  import opened Base
  import opened RemoteFs

  /** An open file or directory: position in bytes, and entries listed since the last restart. */
  datatype Plain = Plain(kind: Kind, target: string, pos: nat, listed: nat)

  /** Files of the served tree are shorter than 2^31 bytes. */
  ghost predicate WorldOk(w: World) {
    forall p <- w :: w[p].FileNode? ==> |w[p].data| < 0x8000_0000
  }

  /** read: the bytes from pos on, at most count. */
  function ReadAt(data: seq<Byte>, pos: nat, count: nat): (r: seq<Byte>)
    ensures |r| <= count
  {
    if pos <= |data| then data[pos..pos + Min(count, |data| - pos)] else []
  }

  /** seek: the position asked for, or the end of the file where that lies outside. */
  function SeekTo(size: nat, pos: nat, amount: int, mode: int): (to: nat)
    ensures to <= size
  {
    var want :=
      if mode == OFFSET_BEGINNING then amount
      else if mode == OFFSET_CURRENT then pos + amount
      else if mode == OFFSET_END then size + amount
      else pos;
    if 0 <= want <= size then want else size
  }

  predicate IsFile(w: World, plain: map<nat, Plain>, h: nat) {
    h in plain && plain[h].kind == FileKind && plain[h].target in w && w[plain[h].target].FileNode?
  }

  predicate IsDir(w: World, plain: map<nat, Plain>, h: nat) {
    h in plain && plain[h].kind == DirKind && plain[h].target in w && w[plain[h].target].DirNode?
  }

  /**
   The reply is what a caller of the plain file system would get. A failed read
   has transferred a part. An open is refused because there are too many open
   files, or for what is at the path: nothing, a directory, or a file that the
   operating system does not open. A write is told as done on every handle; what
   becomes of the data is the matter of Written, below.
   */
  predicate Told(w: World, plain: map<nat, Plain>, r: Reply) {
    match r.what
    case Opened(h, kind, target) =>
      && r.res1 == DOSTRUE && r.res2 == 0 && h !in plain && target in w
      && kind == (if w[target].FileNode? then FileKind else DirKind)
    case GotData(h, count, data, ok) =>
      IsFile(w, plain, h) ==>
        var all := ReadAt(w[plain[h].target].data, plain[h].pos, count);
        if ok then data == all && r.res1 == |data| && r.res2 == 0
        else data <= all && r.res1 == DOSFALSE && r.res2 == ERROR_DISK_NOT_VALIDATED
    case Sought(h, mode, amount) =>
      IsFile(w, plain, h) ==> r.res1 == plain[h].pos && r.res2 == 0
    case Listed(h, name, isDir, size) =>
      IsDir(w, plain, h) ==>
        var entries, n := w[plain[h].target].entries, plain[h].listed;
        && r.res1 == DOSTRUE && r.res2 == 0
        && n < |entries|
        && entries[n].stat == Some(Stat(isDir, size))
        && name == Truncate(entries[n].name, PATH_MAX - 2)
    case ListFailed(h) =>
      IsDir(w, plain, h) ==>
        var entries, n := w[plain[h].target].entries, plain[h].listed;
        n < |entries| && entries[n].stat == None && r.res1 == DOSFALSE && r.res2 == ERROR_DISK_NOT_VALIDATED
    case ListEnd(h) =>
      IsDir(w, plain, h) ==>
        && plain[h].listed == |w[plain[h].target].entries|
        && r.res1 == DOSFALSE && r.res2 == ERROR_NO_MORE_ENTRIES
    case Wrote(_, data, ok) => ok && r.res1 == |data| && r.res2 == 0
    case Refused(target) =>
      && r.res1 == DOSFALSE
      && (|| r.res2 == ERROR_DEVICE_NOT_MOUNTED
          || (if target !in w then r.res2 == ERROR_OBJECT_NOT_FOUND
              else if w[target].DirNode? then r.res2 == ERROR_OBJECT_WRONG_TYPE
              else OpenFailure(r.res2)))
    case RootLock(h) => h !in plain && r.res1 == DOSTRUE && r.res2 == 0
    case InputOpened(h) => h !in plain && r.res1 == DOSTRUE && r.res2 == 0
    case OutputOpened(h) => h !in plain && r.res1 == DOSTRUE && r.res2 == 0
    case NoOutput => r.res1 == DOSFALSE && r.res2 == 0
    case RootGiven => r.res1 == DOSTRUE && r.res2 == 0
    case NoParent => r.res1 == DOSFALSE && r.res2 == ERROR_OBJECT_NOT_FOUND
    case Freed(_) => r.res1 == DOSTRUE && r.res2 == 0
    case Other => true
  }

  /** The reasons of an operating system that does not open a file: access denied, a wrong kind of file, failure. */
  predicate OpenFailure(res2: int) {
    res2 == ERROR_OBJECT_IN_USE || res2 == ERROR_OBJECT_WRONG_TYPE || res2 == ERROR_DISK_NOT_VALIDATED
  }

  /** What the reply does to the handles. */
  function After(w: World, plain: map<nat, Plain>, what: What): map<nat, Plain> {
    match what
    case Opened(h, kind, target) => plain[h := Plain(kind, target, 0, 0)]
    case GotData(h, _, data, _) =>
      if IsFile(w, plain, h) then plain[h := plain[h].(pos := plain[h].pos + |data|)] else plain
    case Sought(h, mode, amount) =>
      if IsFile(w, plain, h)
      then plain[h := plain[h].(pos := SeekTo(|w[plain[h].target].data|, plain[h].pos, amount, mode))]
      else plain
    case Listed(h, _, _, _) =>
      if IsDir(w, plain, h) then plain[h := plain[h].(listed := plain[h].listed + 1)] else plain
    case ListFailed(h) =>
      if IsDir(w, plain, h) then plain[h := plain[h].(listed := plain[h].listed + 1)] else plain
    case ListEnd(h) =>
      if IsDir(w, plain, h) then plain[h := plain[h].(listed := 0)] else plain
    case _ => plain
  }

  /** The state of the reference after a log, or None where it would have replied differently. */
  function Replay(w: World, log: seq<Reply>): Option<map<nat, Plain>> {
    if log == [] then Some(map[])
    else
      var r := log[|log| - 1];
      match Replay(w, log[..|log| - 1])
      case None => None
      case Some(plain) => if Told(w, plain, r) then Some(After(w, plain, r.what)) else None
  }

  lemma ReplayMore(w: World, log: seq<Reply>, r: Reply)
    ensures Replay(w, log + [r]) ==
      match Replay(w, log)
      case None => None
      case Some(plain) => if Told(w, plain, r) then Some(After(w, plain, r.what)) else None
  {
    assert (log + [r])[..|log|] == log;
  }

  /** Every reply of a log that replays was right when it was given. */
  lemma {:induction false} ReplayPrefix(w: World, log: seq<Reply>, n: nat)
    requires Replay(w, log).Some? && n < |log|
    ensures Replay(w, log[..n]).Some? && Told(w, Replay(w, log[..n]).value, log[n])
  {
    var m := |log| - 1;
    if n >= m {
    } else {
      ReplayPrefix(w, log[..m], n);
      assert log[..m][..n] == log[..n];
    }
  }

  // ---------- the virtual output ----------

  /** Handle h was opened to print. */
  ghost predicate Prints(log: seq<Reply>, h: nat) {
    exists k :: 0 <= k < |log| && log[k].what == OutputOpened(h)
  }

  /**
   What the writes of handle h that have been told as done have written, one after
   the other. It is printed if the handle prints; else it is lost without a word.
   */
  function Written(log: seq<Reply>, h: nat): seq<Byte> {
    if log == [] then []
    else
      var before, what := Written(log[..|log| - 1], h), log[|log| - 1].what;
      if what.Wrote? && what.h == h then before + what.data else before
  }

  /**
   The 32-bit arithmetic of action_seek is the plain seek: exactly where the
   amount is a signed 32-bit number and the file is shorter than 2^31 bytes.
   */
  lemma SeekIsPlain(size: nat, pos: nat, amount: int, mode: int)
    requires pos <= size < 0x8000_0000 && -0x8000_0000 <= amount < 0x8000_0000
    ensures SeekOffset(pos, size, amount, mode) == SeekTo(size, pos, amount, mode)
  {
  }

  /** A negative target is not refused: the position becomes the end of the file. */
  lemma NegativeSeekGoesToEnd(size: nat, pos: nat, amount: int)
    requires pos <= size < 0x8000_0000 && -0x8000_0000 <= amount < 0
    ensures SeekOffset(pos, size, amount, OFFSET_BEGINNING) == size
    ensures SeekOffset(pos, size, amount, OFFSET_CURRENT) == if pos + amount < 0 then size else pos + amount
    ensures SeekOffset(pos, size, amount, OFFSET_END) == if size + amount < 0 then size else size + amount
  {
  }

  // ---------- the root directory ----------

  /**
   The root has one place for all locks that list it, because the server keeps
   one; a lock that has not begun, or has come to the end, begins anew. Handle 0
   is what every lock made for the root shares; action_parent makes others.
   */
  datatype RootView = RootView(begun: map<nat, bool>, next: nat)

  function StartRoot(): RootView {
    RootView(map[0 := false], 0)
  }

  predicate RootIsDir(w: World) {
    "" in w && w[""].DirNode?
  }

  function RootEntries(w: World): seq<Entry> {
    if RootIsDir(w) then w[""].entries else []
  }

  /** Where the next listing of lock h looks. */
  function Place(v: RootView, h: nat): nat {
    if h in v.begun && v.begun[h] then v.next else 0
  }

  /** The reply is what a caller is told who lists the root, with that place. */
  predicate ToldRoot(w: World, v: RootView, r: Reply) {
    var entries := RootEntries(w);
    match r.what
    case Listed(h, name, isDir, size) =>
      h in v.begun ==>
        && r.res1 == DOSTRUE && r.res2 == 0
        && Place(v, h) < |entries|
        && TellsEntry(r.what, entries[Place(v, h)])
    case ListFailed(h) =>
      h in v.begun ==>
        && r.res1 == DOSFALSE && r.res2 == ERROR_DISK_NOT_VALIDATED
        && Place(v, h) < |entries|
        && TellsEntry(r.what, entries[Place(v, h)])
    case ListEnd(h) =>
      h in v.begun ==>
        && r.res1 == DOSFALSE && r.res2 == ERROR_NO_MORE_ENTRIES
        && Place(v, h) == |entries|
    case RootLock(h) => r.res1 == DOSTRUE && r.res2 == 0 && h !in v.begun
    case Opened(h, _, _) => h !in v.begun
    case _ => true
  }

  /** What the reply does to the place. */
  function AfterRoot(v: RootView, what: What): RootView {
    match what
    case Listed(h, _, _, _) => if h in v.begun then RootView(v.begun[h := true], Place(v, h) + 1) else v
    case ListFailed(h) => if h in v.begun then RootView(v.begun[h := true], Place(v, h) + 1) else v
    case ListEnd(h) => if h in v.begun then RootView(v.begun[h := false], Place(v, h)) else v
    case RootLock(h) => v.(begun := v.begun[h := false])
    case _ => v
  }

  /** The root after a log, or None where the reference would have replied differently. */
  function RootReplay(w: World, log: seq<Reply>): Option<RootView> {
    if log == [] then Some(StartRoot())
    else
      var r := log[|log| - 1];
      match RootReplay(w, log[..|log| - 1])
      case None => None
      case Some(v) => if ToldRoot(w, v, r) then Some(AfterRoot(v, r.what)) else None
  }

  lemma RootReplayMore(w: World, log: seq<Reply>, r: Reply)
    ensures RootReplay(w, log + [r]) ==
      match RootReplay(w, log)
      case None => None
      case Some(v) => if ToldRoot(w, v, r) then Some(AfterRoot(v, r.what)) else None
  {
    assert (log + [r])[..|log|] == log;
  }

  lemma {:induction false} RootReplayPrefix(w: World, log: seq<Reply>, n: nat)
    requires RootReplay(w, log).Some? && n < |log|
    ensures RootReplay(w, log[..n]).Some? && ToldRoot(w, RootReplay(w, log[..n]).value, log[n])
  {
    var m := |log| - 1;
    if n == m {
    } else {
      RootReplayPrefix(w, log[..m], n);
      assert log[..m][..n] == log[..n];
    }
  }

  // ---------- what the reference means over a whole log ----------

  /** The replies of the listing of directory h that is under way at the end of the log. */
  function Listing(log: seq<Reply>, h: nat): seq<What> {
    if log == [] then []
    else
      var before, what := Listing(log[..|log| - 1], h), log[|log| - 1].what;
      match what
      case Opened(g, _, _) => if g == h then [] else before
      case RootLock(g) => if g == h then [] else before
      case ListEnd(g) => if g == h then [] else before
      case Listed(g, _, _, _) => if g == h then before + [what] else before
      case ListFailed(g) => if g == h then before + [what] else before
      case _ => before
  }

  /** The reply tells this entry, or that it cannot be told. */
  predicate TellsEntry(what: What, entry: Entry) {
    match entry.stat
    case Some(st) =>
      what.Listed? && what.name == Truncate(entry.name, PATH_MAX - 2) && what.isDir == st.isDir && what.size == st.size
    case None => what.ListFailed?
  }

  predicate TellsEntries(told: seq<What>, entries: seq<Entry>) {
    |told| == |entries| && forall i :: 0 <= i < |told| ==> TellsEntry(told[i], entries[i])
  }

  /** A listing under way has told the first entries, each once and in order. */
  lemma {:induction false} ListingFollows(w: World, log: seq<Reply>, h: nat)
    requires Replay(w, log).Some? && IsDir(w, Replay(w, log).value, h)
    ensures var p := Replay(w, log).value[h];
      p.listed <= |w[p.target].entries| && TellsEntries(Listing(log, h), w[p.target].entries[..p.listed])
  {
    if log == [] {
    } else {
      var m := |log| - 1;
      var before := Replay(w, log[..m]).value;
      if IsDir(w, before, h) {
        ListingFollows(w, log[..m], h);
      }
      hide Truncate, ReadAt, SeekTo;
    }
  }

  /** The bytes that reads of file h have delivered since it was opened or last sought. */
  function Delivered(log: seq<Reply>, h: nat): seq<Byte> {
    if log == [] then []
    else
      var before := Delivered(log[..|log| - 1], h);
      match log[|log| - 1].what
      case Opened(g, _, _) => if g == h then [] else before
      case Sought(g, _, _) => if g == h then [] else before
      case GotData(g, _, data, _) => if g == h then before + data else before
      case _ => before
  }

  /** They are consecutive, and end at the position. */
  lemma {:induction false} DeliveredFollows(w: World, log: seq<Reply>, h: nat)
    requires Replay(w, log).Some? && IsFile(w, Replay(w, log).value, h)
    ensures var p, data := Replay(w, log).value[h], Delivered(log, h);
      |data| <= p.pos <= |w[p.target].data| && data == w[p.target].data[p.pos - |data|..p.pos]
  {
    hide ReadAt, SeekTo, Truncate;
    if log == [] {
    } else {
      var m := |log| - 1;
      var before := Replay(w, log[..m]).value;
      if IsFile(w, before, h) {
        DeliveredFollows(w, log[..m], h);
        var what, file, pos := log[m].what, w[before[h].target].data, before[h].pos;
        if what.GotData? && what.h == h {
          assert what.data <= ReadAt(file, pos, what.count);
          DeliveredMore(file, pos, Delivered(log[..m], h), what.data, what.count);
        }
      }
    }
  }

  lemma DeliveredMore(file: seq<Byte>, pos: nat, d: seq<Byte>, data: seq<Byte>, count: nat)
    requires |d| <= pos <= |file| && d == file[pos - |d|..pos] && data <= ReadAt(file, pos, count)
    ensures pos + |data| <= |file| && d + data == file[pos - |d|..pos + |data|]
  {
    assert data == file[pos..pos + |data|];
  }

  // ---------- what it means for listings of the root, lock by lock ----------

  /**
   Every packet is about some lock; who says which, by the packet's number. All
   locks made for the root share handle 0, so what was told about a handle was
   told to several callers. This reply told lock l, on handle h, about its listing.
   */
  predicate TellsLock(r: Reply, who: nat -> nat, l: nat, h: nat) {
    (r.what.Listed? || r.what.ListFailed? || r.what.ListEnd?) && r.what.h == h && who(r.packet) == l
  }

  /** What lock l, on handle h, has been told of the listing that is under way at the end of the log. */
  function LockListing(log: seq<Reply>, who: nat -> nat, l: nat, h: nat): seq<What> {
    if log == [] then []
    else
      var before, r := LockListing(log[..|log| - 1], who, l, h), log[|log| - 1];
      if r.what == RootLock(h) then []
      else if !TellsLock(r, who, l, h) then before
      else if r.what.ListEnd? then [] else before + [r.what]
  }

  /**
   The listing of lock l that is under way began at the start of the root, and
   since then no reply to another lock has moved the place where l goes on.
   */
  predicate Undisturbed(w: World, log: seq<Reply>, who: nat -> nat, l: nat, h: nat) {
    if log == [] || LockListing(log, who, l, h) == [] then true
    else
      var front, r := log[..|log| - 1], log[|log| - 1];
      && Undisturbed(w, front, who, l, h)
      && match RootReplay(w, front)
         case None => true
         case Some(v) =>
           if TellsLock(r, who, l, h) then BeginsAtStart(v, front, who, l, h)
           else Place(AfterRoot(v, r.what), h) == Place(v, h)
  }

  /** If a listing of lock l begins now, it begins at the start of the root. */
  predicate BeginsAtStart(v: RootView, log: seq<Reply>, who: nat -> nat, l: nat, h: nat) {
    LockListing(log, who, l, h) == [] ==> Place(v, h) == 0
  }

  /** A listing of the root that no other lock disturbs has told the first entries, each once and in order. */
  lemma {:induction false} RootListingFollows(w: World, log: seq<Reply>, who: nat -> nat, l: nat, h: nat)
    requires RootReplay(w, log).Some? && h in RootReplay(w, log).value.begun && Undisturbed(w, log, who, l, h)
    ensures var v, told := RootReplay(w, log).value, LockListing(log, who, l, h);
      told != [] ==> Place(v, h) == |told| <= |RootEntries(w)| && TellsEntries(told, RootEntries(w)[..|told|])
  {
    if log == [] || LockListing(log, who, l, h) == [] {
    } else {
      var front := log[..|log| - 1];
      RootListingFollows(w, front, who, l, h);
      hide TellsEntry;
    }
  }

  /** When its end is told to the lock, each entry has been told to it. */
  lemma RootListingEnds(w: World, log: seq<Reply>, r: Reply, who: nat -> nat, l: nat, h: nat)
    requires RootReplay(w, log + [r]).Some? && r.what == ListEnd(h)
    requires RootReplay(w, log).Some? ==> BeginsAtStart(RootReplay(w, log).value, log, who, l, h)
    requires RootReplay(w, log).Some? ==> h in RootReplay(w, log).value.begun
    requires Undisturbed(w, log, who, l, h)
    ensures TellsEntries(LockListing(log, who, l, h), RootEntries(w))
  {
    RootReplayMore(w, log, r);
    RootListingFollows(w, log, who, l, h);
    var entries := RootEntries(w);
    assert entries[..|entries|] == entries;
  }

  /**
   Exactly when a reply to another lock, on handle g, disturbs a lock on handle
   h: it moves the place where that lock goes on. A lock that shares the handle
   does so always, by an end too, since both begin anew after it; but not by the
   end of a root without entries. A lock with a handle of its own does not by
   an end, nor while the other has not begun, nor if it begins itself when the
   other has come past the first entry only.
   */
  lemma DisturbsExactly(w: World, v: RootView, r: Reply, g: nat, h: nat)
    requires g in v.begun && h in v.begun && v.next <= |RootEntries(w)| && ToldRoot(w, v, r)
    requires (r.what.Listed? || r.what.ListFailed? || r.what.ListEnd?) && r.what.h == g
    ensures var v' := AfterRoot(v, r.what);
      Place(v', h) != Place(v, h) <==>
      if g == h then !(r.what.ListEnd? && RootEntries(w) == [])
      else v.begun[h] && !r.what.ListEnd? && !(!v.begun[g] && v.next == 1)
  {
  }
}
