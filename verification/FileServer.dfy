/** src/file_server.c on the heap: a table of 16 handles that is searched and changed in place. */
module FileServer {
  import opened Base
  import opened RemoteFs

  class Controller {
    const handles: array<Slot>
    var root: Slot
    var stdout: seq<Byte>

    ghost predicate Valid()
      reads this
    {
      handles.Length == MAX_FILE_HANDLES
    }

    ghost function View(): Server
      reads this, handles
    {
      Server(handles[..], root, stdout)
    }

    constructor ()
      ensures Valid() && fresh(handles) && View() == IdleServer()
    {
      handles := new Slot[MAX_FILE_HANDLES](_ => FREE_SLOT);
      root := Slot(0, true, "", 0, None);
      stdout := [];
      new;
      assert handles[..] == IdleServer().slots;
    }

    /** The slot search of make_handle. */
    method FindFree() returns (i: nat)
      requires Valid()
      ensures i == FirstFree(handles[..])
    {
      i := 0;
      while i < handles.Length && handles[i].fd != 0
        invariant i <= handles.Length
        invariant forall j :: 0 <= j < i ==> handles[j].fd != 0
      {
        i := i + 1;
      }
      FirstFreeIs(handles[..], i);
    }

    /** open_handle_request and make_handle. */
    method Open(w: World, m: Msg, os: OsResult) returns (answer: Msg)
      requires Valid() && m.OpenRequest?
      modifies handles
      ensures Valid() && (View(), answer) == ServeOpen(old(View()), w, m, os)
    {
      ghost var was := handles[..];
      var i := FindFree();
      if i == handles.Length {
        return ErrorAnswer(m.seqno, NETERR_TOO_MANY_FILES_OPEN);
      }
      if m.path !in w {
        handles[i] := handles[i].(fd := 0);
        assert handles[..] == was;
        return ErrorAnswer(m.seqno, NETERR_NOT_FOUND);
      }
      handles[i] := handles[i].(isDir := w[m.path].DirNode?);
      if !handles[i].isDir {
        if os.fails {
          handles[i] := handles[i].(fd := 0);
          assert handles[..] == was[i := was[i].(isDir := false)];
          return ErrorAnswer(m.seqno, os.code);
        }
        handles[i] := handles[i].(fd := os.fd, size := |w[m.path].data|);
      } else {
        handles[i] := handles[i].(fd := -1, size := 0);
      }
      handles[i] := handles[i].(path := m.path);
      assert handles[..] == was[i := handles[i]];
      answer := OpenAnswer(m.seqno, i, handles[i].isDir, handles[i].size);
    }

    /** close_handle_request; an answer is sent only where the handle does not exist. */
    method Close(m: Msg) returns (answer: Option<Msg>)
      requires Valid() && m.CloseRequest?
      modifies this, handles
      ensures Valid() && (View(), answer) == ServeClose(old(View()), m)
    {
      if m.handle == VIRTUAL_INPUT_ID || m.handle == VIRTUAL_OUTPUT_ID {
        return None;
      }
      if m.handle == ROOT_ID {
        root := root.(fd := 0);
      } else if m.handle >= handles.Length {
        return Some(ErrorAnswer(m.seqno, NETERR_INVALID_VALUE));
      } else {
        handles[m.handle] := handles[m.handle].(fd := 0);
      }
      answer := None;
    }

    /** find_next_file_request. */
    method FindNext(w: World, m: Msg) returns (answer: Msg)
      requires Valid() && m.FindNextRequest?
      modifies this, handles
      ensures Valid() && (View(), answer) == ServeFindNext(old(View()), w, m)
    {
      if m.handle == VIRTUAL_INPUT_ID || m.handle == VIRTUAL_OUTPUT_ID {
        return ErrorAnswer(m.seqno, NETERR_NOT_A_DIRECTORY);
      }
      if m.handle != ROOT_ID && m.handle >= handles.Length {
        return ErrorAnswer(m.seqno, NETERR_INVALID_VALUE);
      }
      var slot := if m.handle == ROOT_ID then root else handles[m.handle];
      if !slot.isDir {
        assert m.handle < handles.Length ==> handles[..][m.handle := slot] == handles[..];
        return ErrorAnswer(m.seqno, NETERR_NOT_A_DIRECTORY);
      }
      var failed := false;
      if m.reset && slot.dir.Some? {
        slot := slot.(dir := None);
      }
      if slot.dir.None? {
        if slot.path in w && w[slot.path].DirNode? {
          slot := slot.(dir := Some(Cursor(slot.path, 0)));
        } else {
          failed := true;
        }
      }
      if failed {
        answer := ErrorAnswer(m.seqno, NETERR_IO_ERROR);
      } else {
        var at;
        at, answer := Readdir(w, m.seqno, slot.dir.value);
        slot := slot.(dir := Some(at));
      }
      if m.handle == ROOT_ID {
        root := slot;
      } else {
        handles[m.handle] := slot;
      }
    }

    /** readdir and stat. */
    method Readdir(w: World, seqno: nat, at: Cursor) returns (next: Cursor, answer: Msg)
      ensures (next, answer) == ReadDir(w, seqno, at)
    {
      next := at;
      if at.path in w && w[at.path].DirNode? && at.next < |w[at.path].entries| {
        var entry := w[at.path].entries[at.next];
        next := at.(next := at.next + 1);
        match entry.stat
        case None => answer := ErrorAnswer(seqno, NETERR_IO_ERROR);
        case Some(st) => answer := FindNextAnswer(seqno, false, st.isDir, entry.name, st.size);
      } else {
        answer := FindNextAnswer(seqno, true, true, "", 0);
      }
    }

    /** read_file_request. */
    method Read(w: World, m: Msg, os: OsResult) returns (answer: Msg)
      requires Valid() && m.ReadRequest?
      ensures answer == ServeRead(View(), w, m, os)
    {
      if m.handle == VIRTUAL_INPUT_ID {
        return ErrorAnswer(m.seqno, NETERR_NOT_A_FILE);
      }
      if m.handle == VIRTUAL_OUTPUT_ID {
        return ErrorAnswer(m.seqno, NETERR_IO_ERROR);
      }
      if m.handle != ROOT_ID && m.handle >= handles.Length {
        return ErrorAnswer(m.seqno, NETERR_INVALID_VALUE);
      }
      var slot := if m.handle == ROOT_ID then root else handles[m.handle];
      if slot.fd == 0 {
        return ErrorAnswer(m.seqno, NETERR_NOT_A_FILE);
      }
      if slot.fd == -1 || os.fails || slot.path !in w || !w[slot.path].FileNode? {
        return ErrorAnswer(m.seqno, NETERR_IO_ERROR);
      }
      var data := w[slot.path].data;
      var k := PreadCount(|data|, m.offset, os);
      answer := ReadAnswer(m.seqno, if k == 0 then [] else data[m.offset..m.offset + k]);
    }

    /** write_file_request. */
    method Write(m: Msg) returns (answer: Msg)
      requires Valid() && m.WriteRequest?
      modifies this`stdout
      ensures Valid() && (View(), answer) == ServeWrite(old(View()), m)
    {
      if m.handle == VIRTUAL_OUTPUT_ID {
        stdout := stdout + m.data;
      }
      answer := WriteAnswer(m.seqno);
    }

    /** rl_file_serve: the controller is after it what the specification says, and so is the answer. */
    method FileServe(w: World, m: Msg, os: OsResult) returns (answer: Option<Msg>)
      requires Valid()
      modifies this, handles
      ensures Valid() && (View(), answer) == Serve(old(View()), w, m, os)
    {
      hide ServeOpen, ServeClose, ServeRead, ServeWrite, ServeFindNext;
      match m
      case OpenRequest(_, _) =>
        var a := Open(w, m, os);
        answer := Some(a);
      case CloseRequest(_, _) =>
        answer := Close(m);
      case ReadRequest(_, _, _, _) =>
        var a := Read(w, m, os);
        answer := Some(a);
      case WriteRequest(_, _, _) =>
        var a := Write(m);
        answer := Some(a);
      case FindNextRequest(_, _, _) =>
        var a := FindNext(w, m);
        answer := Some(a);
      case _ =>
        answer := Some(ErrorAnswer(m.seqno, NETERR_BAD_REQUEST));
    }
  }

  lemma {:induction false} FirstFreeIs(slots: seq<Slot>, i: nat)
    requires i <= |slots| && (i < |slots| ==> slots[i].fd == 0)
    requires forall j :: 0 <= j < i ==> slots[j].fd != 0
    ensures FirstFree(slots) == i
  {
    if i == 0 {
    } else {
      FirstFreeIs(slots[1..], i - 1);
    }
  }
}
