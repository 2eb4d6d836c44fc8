/**
 How many requests a read takes, with a server that delivers a full buffer
 unless the file ends, and how a write is cut into chunks.
 */
module ReadCount {
  import opened Base
  import opened RemoteFs

  /** What such a server reads at an offset. */
  function FullAnswer(file: seq<Byte>, offset: nat): (data: seq<Byte>)
    ensures offset <= |file| ==> |data| == Min(BUFFER_SIZE, |file| - offset)
  {
    if offset <= |file| then file[offset..offset + Min(BUFFER_SIZE, |file| - offset)] else []
  }

  /** The pread of the server is that, if the system never fails and never delivers less than it could. */
  lemma FullAnswerIsServed(s: Server, w: World, m: Msg, os: OsResult)
    requires m.ReadRequest? && m.handle < |s.slots| <= MAX_FILE_HANDLES && !os.fails && os.count >= BUFFER_SIZE
    requires var slot := s.slots[m.handle]; slot.fd > 0 && slot.path in w && w[slot.path].FileNode?
    ensures ServeRead(s, w, m, os) == ReadAnswer(m.seqno, FullAnswer(w[s.slots[m.handle].path].data, m.offset))
  {
  }

  /** The rest of a read that lacks left bytes: the handle after it, the bytes, and the number of requests. */
  function ReadLoop(hd: Handle, file: seq<Byte>, left: nat): (r: (Handle, seq<Byte>, nat))
    requires hd.offset <= |file| < 0x8000_0000
    ensures r.2 > 0
    decreases |file| - hd.offset
  {
    var (hd', more, done) := TakeData(hd, left, FullAnswer(file, hd.offset));
    if done then (hd', more, 1)
    else
      var (hd2, rest, n) := ReadLoop(hd', file, left - |more|);
      (hd2, more + rest, n + 1)
  }

  /** A whole read of count bytes. */
  function WholeRead(hd: Handle, file: seq<Byte>, count: nat): (r: (Handle, seq<Byte>, nat))
    requires Fits(hd, file)
    ensures hd.offset <= r.0.offset <= |file|
  {
    var (hd1, got, all) := BufferRead(hd, file, count);
    if all then (hd1, got, 0)
    else
      ReadLoopState(hd1, file, count - |got|);
      var (hd2, rest, n) := ReadLoop(hd1, file, count - |got|);
      (hd2, got + rest, n)
  }

  predicate Fits(hd: Handle, file: seq<Byte>) {
    && hd.offset <= |file| < 0x8000_0000
    && hd.bufferStart + |hd.buffer| <= |file|
  }

  function BufferRead(hd: Handle, file: seq<Byte>, count: nat): (r: (Handle, seq<Byte>, bool))
    requires Fits(hd, file)
    ensures r == ServeFromBuffer(hd, count)
    ensures r.0 == hd.(offset := hd.offset + |r.1|) && r.0.offset <= |file| && |r.1| <= count
    ensures |r.1| == (if hd.bufferStart <= hd.offset < hd.bufferStart + |hd.buffer|
                      then Min(hd.bufferStart + |hd.buffer| - hd.offset, count) else 0)
    ensures r.2 <==> hd.bufferStart <= hd.offset < hd.bufferStart + |hd.buffer| && |r.1| == count
  {
    hide ServeFromBuffer;
    ServedIs(hd, count);
    ServeFromBuffer(hd, count)
  }

  /** One round of the read loop. */
  lemma OneRound(hd: Handle, file: seq<Byte>, left: nat)
    requires hd.offset <= |file| < 0x8000_0000
    ensures var (hd', more, done) := TakeData(hd, left, FullAnswer(file, hd.offset));
      var n := Min(BUFFER_SIZE, |file| - hd.offset);
      && |more| == Min(left, n) && hd'.offset == hd.offset + |more|
      && (done <==> left <= n || n == 0)
      && (done ==> hd'.bufferStart == hd'.offset && |hd'.buffer| == n - |more|)
  {
  }

  /** The read loop, unfolded once. */
  lemma LoopStep(hd: Handle, file: seq<Byte>, left: nat)
    requires hd.offset <= |file| < 0x8000_0000
    ensures var (hd', more, done) := TakeData(hd, left, FullAnswer(file, hd.offset));
      && |more| <= left
      && (done ==> ReadLoop(hd, file, left) == (hd', more, 1))
      && (!done ==>
            && hd.offset < hd'.offset <= |file|
            && var (hd2, rest, n) := ReadLoop(hd', file, left - |more|);
            ReadLoop(hd, file, left) == (hd2, more + rest, n + 1))
  {
  }

  /** Where the rest of a read ends, and what it leaves in the buffer: all of its last answer that was not asked for. */
  lemma {:induction false} ReadLoopState(hd: Handle, file: seq<Byte>, left: nat)
    requires hd.offset <= |file| < 0x8000_0000
    ensures var (hd', more, n) := ReadLoop(hd, file, left);
      && |more| == Min(left, |file| - hd.offset)
      && hd'.offset == hd.offset + |more| == hd'.bufferStart
      && hd'.bufferStart + |hd'.buffer| == Min(hd.offset + BUFFER_SIZE * n, |file|)
    decreases |file| - hd.offset
  {
    hide TakeData, ReadLoop, FullAnswer;
    OneRound(hd, file, left);
    LoopStep(hd, file, left);
    var (hd', more, done) := TakeData(hd, left, FullAnswer(file, hd.offset));
    if done {
    } else {
      ReadLoopState(hd', file, left - |more|);
    }
  }

  /**
   The number of requests that a read takes after the buffer has given what it
   could: enough for the bytes asked for if the file has them, and otherwise
   enough for the rest of the file, and one more that finds its end.
   */
  lemma {:induction false} RequestCount(hd: Handle, file: seq<Byte>, left: nat)
    requires hd.offset <= |file| < 0x8000_0000
    ensures ReadLoop(hd, file, left).2 == RequestsFor(left, |file| - hd.offset)
    decreases |file| - hd.offset
  {
    hide TakeData, ReadLoop, FullAnswer, CeilDiv;
    OneRound(hd, file, left);
    LoopStep(hd, file, left);
    var (hd', more, done) := TakeData(hd, left, FullAnswer(file, hd.offset));
    if done {
    } else {
      RequestCount(hd', file, left - |more|);
    }
  }

  /** A whole read, unfolded, and what it leaves alone. */
  lemma WholeReadStep(hd: Handle, file: seq<Byte>, count: nat)
    requires Fits(hd, file)
    ensures var (hd1, got, all) := ServeFromBuffer(hd, count);
      && |got| <= count && hd1.offset <= |file|
      && (all ==> WholeRead(hd, file, count) == (hd1, got, 0))
      && (!all ==>
            var (hd2, rest, n) := ReadLoop(hd1, file, count - |got|);
            WholeRead(hd, file, count) == (hd2, got + rest, n))
      && WholeRead(hd, file, count).0.id == hd.id
  {
    var (hd1, got, all) := BufferRead(hd, file, count);
    hide ServeFromBuffer, ReadLoop;
    if !all {
      LoopKeepsId(hd1, file, count - |got|);
    }
  }

  lemma {:induction false} LoopKeepsId(hd: Handle, file: seq<Byte>, left: nat)
    requires hd.offset <= |file| < 0x8000_0000
    ensures ReadLoop(hd, file, left).0.id == hd.id
    decreases |file| - hd.offset
  {
    LoopStep(hd, file, left);
    var (hd', more, done) := TakeData(hd, left, FullAnswer(file, hd.offset));
    hide ReadLoop, FullAnswer;
    if done {
    } else {
      LoopKeepsId(hd', file, left - |more|);
    }
  }

  /** The requests for left bytes that the buffer does not have, where the file has available more. */
  function RequestsFor(left: nat, available: nat): nat {
    if left <= available then (if left == 0 then 1 else CeilDiv(left, BUFFER_SIZE))
    else CeilDiv(available, BUFFER_SIZE) + 1
  }

  /** A whole read delivers all that is asked for and there, and takes no request or as many as its rest needs. */
  lemma WholeReadRequests(hd: Handle, file: seq<Byte>, count: nat)
    requires Fits(hd, file)
    ensures var (hd', data, n) := WholeRead(hd, file, count);
      var (hd1, got, all) := ServeFromBuffer(hd, count);
      && |data| == Min(count, |file| - hd.offset) && hd'.offset == hd.offset + |data|
      && |got| <= count && hd1.offset <= |file|
      && n == if all then 0 else RequestsFor(count - |got|, |file| - hd1.offset)
  {
    hide ServeFromBuffer, ReadLoop, RequestsFor, WholeRead, FullAnswer;
    var (hd1, got, all) := BufferRead(hd, file, count);
    WholeReadStep(hd, file, count);
    if !all {
      ReadLoopState(hd1, file, count - |got|);
      RequestCount(hd1, file, count - |got|);
    }
  }

  // ---------- reads in sequence ----------

  predicate Positive(counts: seq<nat>) {
    forall i :: 0 <= i < |counts| ==> counts[i] > 0
  }

  function Sum(counts: seq<nat>): nat {
    if counts == [] then 0 else counts[0] + Sum(counts[1..])
  }

  /** The requests of several reads one after the other. */
  function Requests(hd: Handle, file: seq<Byte>, counts: seq<nat>): nat
    requires Fits(hd, file)
    decreases |counts|
  {
    if counts == [] then 0
    else
      var (hd', _, n) := WholeRead(hd, file, counts[0]);
      WholeReadFits(hd, file, counts[0]);
      n + Requests(hd', file, counts[1..])
  }

  lemma WholeReadFits(hd: Handle, file: seq<Byte>, count: nat)
    requires Fits(hd, file)
    ensures Fits(WholeRead(hd, file, count).0, file)
  {
    var (hd1, got, all) := BufferRead(hd, file, count);
    if !all {
      ReadLoopState(hd1, file, count - |got|);
    }
  }

  /** The buffer reaches as far as the requests so far have brought it. */
  predicate Ahead(hd: Handle, file: seq<Byte>, requests: nat) {
    && Fits(hd, file) && hd.bufferStart <= hd.offset
    && hd.bufferStart + |hd.buffer| == Min(BUFFER_SIZE * requests, |file|)
    && requests == CeilDiv(hd.offset, BUFFER_SIZE)
  }

  /** What a read within the file does. */
  lemma WholeReadState(hd: Handle, file: seq<Byte>, count: nat)
    requires Fits(hd, file) && 0 < count && hd.offset + count <= |file|
    ensures var (hd', got, n) := WholeRead(hd, file, count);
      var cached := if hd.bufferStart <= hd.offset < hd.bufferStart + |hd.buffer|
        then Min(hd.bufferStart + |hd.buffer| - hd.offset, count) else 0;
      && |got| == count && hd'.offset == hd.offset + count && Fits(hd', file)
      && n == CeilDiv(count - cached, BUFFER_SIZE)
      && (cached == count ==> hd'.bufferStart == hd.bufferStart && hd'.buffer == hd.buffer)
      && (cached < count ==>
            && hd'.bufferStart == hd'.offset
            && hd'.bufferStart + |hd'.buffer| == Min(hd.offset + cached + BUFFER_SIZE * n, |file|))
  {
    hide ServeFromBuffer, TakeData, FullAnswer, CeilDiv, ReadLoop;
    var (hd1, got, all) := BufferRead(hd, file, count);
    if !all {
      ReadLoopState(hd1, file, count - |got|);
      RequestCount(hd1, file, count - |got|);
    }
  }

  /** One read within the file keeps that. */
  lemma ReadStaysAhead(hd: Handle, file: seq<Byte>, requests: nat, count: nat)
    requires Ahead(hd, file, requests) && 0 < count && hd.offset + count <= |file|
    ensures var (hd', got, n) := WholeRead(hd, file, count);
      |got| == count && hd'.offset == hd.offset + count && Ahead(hd', file, requests + n)
  {
    WholeReadState(hd, file, count);
    hide CeilDiv, WholeRead;
  }

  lemma {:induction false} SequentialFrom(hd: Handle, file: seq<Byte>, requests: nat, counts: seq<nat>)
    requires Ahead(hd, file, requests) && Positive(counts) && hd.offset + Sum(counts) <= |file|
    ensures requests + Requests(hd, file, counts) == CeilDiv(hd.offset + Sum(counts), BUFFER_SIZE)
    decreases |counts|
  {
    hide WholeRead, CeilDiv;
    if counts == [] {
    } else {
      ReadStaysAhead(hd, file, requests, counts[0]);
      var (hd', got, n) := WholeRead(hd, file, counts[0]);
      SequentialFrom(hd', file, requests + n, counts[1..]);
    }
  }

  /**
   Sequential reads of positive length, within the file and from its start,
   take exactly as many requests as one read of all their bytes would.
   */
  lemma SequentialReads(hd: Handle, file: seq<Byte>, counts: seq<nat>)
    requires hd.offset == 0 && hd.bufferStart == 0 && hd.buffer == []
    requires |file| < 0x8000_0000 && Positive(counts) && Sum(counts) <= |file|
    ensures Requests(hd, file, counts) == CeilDiv(Sum(counts), BUFFER_SIZE)
  {
    hide CeilDiv, Requests;
    SequentialFrom(hd, file, 0, counts);
  }

  // ---------- writes ----------

  /** The chunks of a write from the one at source on. */
  function Chunks(data: seq<Byte>, source: nat, length: nat): seq<seq<Byte>>
    requires source + length <= |data|
    decreases |data| - (source + length)
  {
    [data[source..source + length]] +
    match NextChunk(data, source, length)
    case None => []
    case Some((at, n)) => Chunks(data, at, n)
  }

  /** Each chunk fits into one request, together they are the data, in order, and no more are sent than needed. */
  lemma {:induction false} ChunksAre(data: seq<Byte>, source: nat, length: nat)
    requires source + length <= |data| && length == Min(|data| - source, BUFFER_SIZE)
    ensures var chunks := Chunks(data, source, length);
      && (forall i :: 0 <= i < |chunks| ==> |chunks[i]| <= BUFFER_SIZE)
      && Flatten(chunks) == data[source..]
      && |chunks| == (if source == |data| then 1 else CeilDiv(|data| - source, BUFFER_SIZE))
    decreases |data| - (source + length)
  {
    var first := data[source..source + length];
    match NextChunk(data, source, length)
    case None =>
      assert Flatten([first]) == first + Flatten([]);
    case Some((at, n)) =>
      ChunksAre(data, at, n);
      assert ([first] + Chunks(data, at, n))[1..] == Chunks(data, at, n);
      assert first + data[at..] == data[source..];
  }
}
