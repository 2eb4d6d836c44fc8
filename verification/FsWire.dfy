/**
 The file system's messages on the wire: as records of the protocol's schema
 they can always be sent, and what arrives over the transport are the same
 messages in the same order. So the channels of FsSystem are what codec, output
 queue and framing provide.
 */
module FsWire {
  import opened Base
  import opened ByteOrder
  import opened Schema
  import opened Codec
  import opened RoundTrip
  import opened RlNet
  import Transport
  import EndToEnd
  import Fs = RemoteFs

  // ---------- records from values ----------

  /** The record whose fields have these values. */
  function Zip(fields: seq<Field>, values: seq<Value>): (r: Record)
    requires |fields| == |values| && Distinct(fields)
    ensures forall i :: 0 <= i < |fields| ==> fields[i].name in r && r[fields[i].name] == values[i]
    ensures r.Keys == set f <- fields :: f.name
  {
    if fields == [] then map[] else Zip(fields[1..], values[1..])[fields[0].name := values[0]]
  }

  /** The values of a record's fields, in the order of the layout. */
  function Values(fields: seq<Field>, r: Record): (vs: seq<Value>)
    ensures |vs| == |fields|
  {
    seq(|fields|, i requires 0 <= i < |fields| => Get(r, fields[i]))
  }

  predicate ValuesTyped(fields: seq<Field>, values: seq<Value>) {
    |fields| == |values| && forall i :: 0 <= i < |fields| ==> Typed(fields[i].ty, values[i])
  }

  lemma ZipIsMessage(fields: seq<Field>, values: seq<Value>)
    requires Distinct(fields) && HasHeader(fields) && ValuesTyped(fields, values)
    ensures IsMessage(fields, Zip(fields, values)) && HDR_TYPE in Zip(fields, values)
    ensures Zip(fields, values)[HDR_TYPE] == values[0]
  {
    assert fields[0].name == HDR_TYPE;
  }

  lemma StampedValues(fields: seq<Field>, values: seq<Value>, r: Record, n: nat)
    requires Distinct(fields) && HasHeader(fields) && |fields| == |values|
    requires forall i :: 0 <= i < |fields| ==> fields[i].name in r && r[fields[i].name] == values[i]
    ensures Values(fields, r[HDR_LENGTH := Num(n)]) == values[2 := Num(n)]
  {
    OtherName(fields, 0);
    hide Distinct, HasHeader;
    forall i | 0 <= i < |fields|
      ensures Get(r[HDR_LENGTH := Num(n)], fields[i]) == values[2 := Num(n)][i]
    {
      OtherName(fields, i);
    }
  }

  /** Only the length field differs after the way over the wire. */
  lemma ValuesStamped(fields: seq<Field>, values: seq<Value>, n: nat)
    requires Distinct(fields) && HasHeader(fields) && |fields| == |values|
    ensures Values(fields, Zip(fields, values)[HDR_LENGTH := Num(n)]) == values[2 := Num(n)]
  {
    StampedValues(fields, values, Zip(fields, values), n);
  }

  lemma OtherName(fields: seq<Field>, i: nat)
    requires Distinct(fields) && HasHeader(fields)
    requires i < |fields|
    ensures |fields| >= 3 && fields[2].name == HDR_LENGTH && (i != 2 ==> fields[i].name != HDR_LENGTH)
  {
  }

  // ---------- messages as values ----------

  function ToBytes(s: string): (b: seq<Byte>)
    ensures |b| == |s|
  {
    seq(|s|, i requires 0 <= i < |s| => s[i] as int % 256)
  }

  function ToText(b: seq<Byte>): string {
    seq(|b|, i requires 0 <= i < |b| => (var x: int := b[i]; x as char))
  }

  /** A C string of at most 255 characters. */
  predicate ShortText(s: string) {
    |s| <= 255 && forall i :: 0 <= i < |s| ==> 0 < s[i] as int < 256
  }

  lemma TextRoundTrip(s: string)
    requires ShortText(s)
    ensures ToText(ToBytes(s)) == s
    ensures forall i :: 0 <= i < |s| ==> ToBytes(s)[i] != 0
  {
  }

  const OPENFLAG_READ: nat := 1
  const NODE_TYPE_FILE: nat := 1
  const NODE_TYPE_DIRECTORY: nat := 2

  /** The place of a message in the schema, which is its kind. */
  function KindOf(m: Fs.Msg): nat {
    match m
    case ErrorAnswer(_, _) => 0
    case OpenRequest(_, _) => 5
    case OpenAnswer(_, _, _, _) => 6
    case CloseRequest(_, _) => 7
    case ReadRequest(_, _, _, _) => 8
    case ReadAnswer(_, _) => 9
    case WriteRequest(_, _, _) => 10
    case WriteAnswer(_) => 11
    case FindNextRequest(_, _, _) => 12
    case FindNextAnswer(_, _, _, _, _) => 13
  }

  function NodeType(isDir: bool): Value {
    Num(if isDir then NODE_TYPE_DIRECTORY else NODE_TYPE_FILE)
  }

  function Flag(b: bool): Value {
    Num(if b then 1 else 0)
  }

  function OwnValues(m: Fs.Msg): seq<Value> {
    match m
    case ErrorAnswer(_, code) => [Num(code)]
    case OpenRequest(_, path) => [Str(ToBytes(path)), Num(OPENFLAG_READ)]
    case OpenAnswer(_, handle, isDir, size) => [Num(handle), Num(size), NodeType(isDir)]
    case CloseRequest(_, handle) => [Num(handle)]
    case ReadRequest(_, handle, offset, length) => [Num(handle), Num(0), Num(offset), Num(length)]
    case ReadAnswer(_, data) => [Arr(data)]
    case WriteRequest(_, handle, data) => [Num(handle), Arr(data)]
    case WriteAnswer(_) => []
    case FindNextRequest(_, handle, reset) => [Num(handle), Flag(reset)]
    case FindNextAnswer(_, end, isDir, name, size) => [Flag(end), NodeType(isDir), Str(ToBytes(name)), Num(size)]
  }

  function ToValues(m: Fs.Msg): seq<Value> {
    [Num(KindOf(m)), Num(0), Num(0), Num(m.seqno)] + OwnValues(m)
  }

  /** What the receiver's handlers read out of a message. */
  function FromValues(vs: seq<Value>): Option<Fs.Msg> {
    if |vs| < 4 || !vs[0].Num? || !vs[3].Num? then None
    else
      var seqno, own := vs[3].n, vs[4..];
      match vs[0].n
      case 0 => if |own| == 1 && own[0].Num? then Some(Fs.ErrorAnswer(seqno, own[0].n)) else None
      case 5 => if |own| == 2 && own[0].Str? then Some(Fs.OpenRequest(seqno, ToText(own[0].s))) else None
      case 6 =>
        if |own| == 3 && own[0].Num? && own[1].Num? && own[2].Num?
        then Some(Fs.OpenAnswer(seqno, own[0].n, own[2].n == NODE_TYPE_DIRECTORY, own[1].n)) else None
      case 7 => if |own| == 1 && own[0].Num? then Some(Fs.CloseRequest(seqno, own[0].n)) else None
      case 8 =>
        if |own| == 4 && own[0].Num? && own[2].Num? && own[3].Num?
        then Some(Fs.ReadRequest(seqno, own[0].n, own[2].n, own[3].n)) else None
      case 9 => if |own| == 1 && own[0].Arr? then Some(Fs.ReadAnswer(seqno, own[0].a)) else None
      case 10 =>
        if |own| == 2 && own[0].Num? && own[1].Arr? then Some(Fs.WriteRequest(seqno, own[0].n, own[1].a)) else None
      case 11 => Some(Fs.WriteAnswer(seqno))
      case 12 =>
        if |own| == 2 && own[0].Num? && own[1].Num?
        then Some(Fs.FindNextRequest(seqno, own[0].n, own[1].n != 0)) else None
      case 13 =>
        if |own| == 4 && own[0].Num? && own[1].Num? && own[2].Str? && own[3].Num?
        then
          Some(Fs.FindNextAnswer(seqno, own[0].n != 0, own[1].n == NODE_TYPE_DIRECTORY, ToText(own[2].s), own[3].n))
        else None
      case _ => None
  }

  /** Every number fits in 32 bits, every string is a short C string, every array fits in a read buffer. */
  predicate Travels(m: Fs.Msg) {
    m.seqno < Fs.UINT32 &&
    match m
    case ErrorAnswer(_, code) => code < Fs.UINT32
    case OpenRequest(_, path) => ShortText(path)
    case OpenAnswer(_, handle, _, size) => handle < Fs.UINT32 && size < Fs.UINT32
    case CloseRequest(_, handle) => handle < Fs.UINT32
    case ReadRequest(_, handle, offset, length) => handle < Fs.UINT32 && offset < Fs.UINT32 && length < Fs.UINT32
    case ReadAnswer(_, data) => |data| <= Fs.BUFFER_SIZE
    case WriteRequest(_, handle, data) => handle < Fs.UINT32 && |data| <= Fs.BUFFER_SIZE
    case WriteAnswer(_) => true
    case FindNextRequest(_, handle, _) => handle < Fs.UINT32
    case FindNextAnswer(_, _, _, name, size) => ShortText(name) && size < Fs.UINT32
  }

  /** Reading the values gives the message back, whatever the length field holds. */
  lemma ValuesRoundTrip(m: Fs.Msg, n: nat)
    requires Travels(m)
    ensures FromValues(ToValues(m)[2 := Num(n)]) == Some(m)
  {
    if m.OpenRequest? {
      TextRoundTrip(m.path);
    } else if m.FindNextAnswer? {
      TextRoundTrip(m.name);
    }
    var vs := ToValues(m)[2 := Num(n)];
    assert vs[4..] == OwnValues(m);
    hide ToText, ToBytes;
  }

  function LayoutOf(m: Fs.Msg): (fields: seq<Field>)
    ensures |RlNetSchema()| > KindOf(m) && fields == RlNetSchema()[KindOf(m)].fields
  {
    RlNetSchema()[KindOf(m)].fields
  }

  lemma LayoutParts(m: Fs.Msg)
    ensures var own := OwnFields()[KindOf(m)];
      LayoutOf(m) == (if own.isRequest then RequestHeader() else AnswerHeader()) + own.fields
  {
    hide OwnFields, RequestHeader, AnswerHeader;
  }

  lemma HeaderTyped(request: bool, kind: nat, seqno: nat)
    requires kind < 256 && seqno < Fs.UINT32
    ensures ValuesTyped(if request then RequestHeader() else AnswerHeader(), [Num(kind), Num(0), Num(0), Num(seqno)])
  {
    WidthLimits();
  }

  lemma OwnTyped(m: Fs.Msg)
    requires Travels(m)
    ensures ValuesTyped(OwnFields()[KindOf(m)].fields, OwnValues(m))
  {
    WidthLimits();
    if m.OpenRequest? {
      TextRoundTrip(m.path);
    } else if m.FindNextAnswer? {
      TextRoundTrip(m.name);
    }
    hide ToText, ToBytes;
  }

  lemma TypedAppend(fields: seq<Field>, own: seq<Field>, values: seq<Value>, ownValues: seq<Value>)
    requires ValuesTyped(fields, values) && ValuesTyped(own, ownValues)
    ensures ValuesTyped(fields + own, values + ownValues)
  {
  }

  lemma LayoutTyped(m: Fs.Msg)
    requires Travels(m)
    ensures ValuesTyped(LayoutOf(m), ToValues(m)) && Distinct(LayoutOf(m)) && HasHeader(LayoutOf(m))
  {
    var own := OwnFields()[KindOf(m)];
    LayoutParts(m);
    RlNetLayout(KindOf(m));
    OwnTyped(m);
    HeaderTyped(own.isRequest, KindOf(m), m.seqno);
    hide OwnFields, RequestHeader, AnswerHeader, OwnValues, ValuesTyped, Distinct, HasHeader, RlNetSchema;
    TypedAppend(if own.isRequest then RequestHeader() else AnswerHeader(), own.fields,
                [Num(KindOf(m)), Num(0), Num(0), Num(m.seqno)], OwnValues(m));
  }

  /** The record of a message. */
  function ToRecord(m: Fs.Msg): Record {
    if |LayoutOf(m)| == |ToValues(m)| && Distinct(LayoutOf(m)) then Zip(LayoutOf(m), ToValues(m)) else map[]
  }

  /** What the receiver makes of a record. */
  function FromRecord(r: Record): Option<Fs.Msg> {
    if HasKind(RlNetSchema(), r) then FromValues(Values(RlNetSchema()[r[HDR_TYPE].n].fields, r)) else None
  }

  lemma ModerateValues(m: Fs.Msg)
    requires Travels(m)
    ensures forall i :: 0 <= i < |ToValues(m)| ==>
      && (ToValues(m)[i].Str? ==> |ToValues(m)[i].s| <= 255) && (ToValues(m)[i].Arr? ==> |ToValues(m)[i].a| <= 4096)
  {
  }

  /** Every message of the file system can be sent: its record is well-formed and fits in one output buffer. */
  lemma MessageTravels(m: Fs.Msg)
    requires Travels(m)
    ensures Sendable(RlNetSchema(), ToRecord(m), Transport.OUTPUT_BUFFER_SIZE)
    ensures HDR_TYPE in ToRecord(m) && ToRecord(m)[HDR_TYPE] == Num(KindOf(m))
  {
    var fields, values := LayoutOf(m), ToValues(m);
    hide Zip, IsMessage, Distinct, HasHeader, RlNetSchema, ToValues, Travels, Sendable, Moderate;
    LayoutTyped(m);
    ZipIsMessage(fields, values);
    ModerateValues(m);
    KindFirst(m);
    ZipModerate(fields, values);
    EveryMessageFits(ToRecord(m));
  }

  lemma KindFirst(m: Fs.Msg)
    ensures ToValues(m)[0] == Num(KindOf(m))
  {
  }

  lemma ZipModerate(fields: seq<Field>, values: seq<Value>)
    requires Distinct(fields) && ValuesTyped(fields, values)
    requires forall i :: 0 <= i < |values| ==>
      && (values[i].Str? ==> |values[i].s| <= 255) && (values[i].Arr? ==> |values[i].a| <= 4096)
    ensures Moderate(fields, Zip(fields, values))
  {
    var r := Zip(fields, values);
    hide Zip, Distinct;
    forall i | 0 <= i < |fields|
      ensures (Get(r, fields[i]).Str? ==> |Get(r, fields[i]).s| <= 255)
           && (Get(r, fields[i]).Arr? ==> fields[i].ty.ArrayT? && |Get(r, fields[i]).a| <= 4096)
    {
      assert Get(r, fields[i]) == values[i] && Typed(fields[i].ty, values[i]);
    }
  }

  /** The record that arrives, with its length filled in, is read as the message that was sent. */
  lemma RecordRoundTrip(m: Fs.Msg, n: nat)
    requires Travels(m)
    ensures FromRecord(ToRecord(m)[HDR_LENGTH := Num(n)]) == Some(m)
  {
    var fields, values := LayoutOf(m), ToValues(m);
    LayoutTyped(m);
    MessageTravels(m);
    ValuesStamped(fields, values, n);
    ValuesRoundTrip(m, n);
    assert fields[0].name == HDR_TYPE != HDR_LENGTH;
    hide Zip, Distinct, HasHeader, RlNetSchema, ToValues, FromValues, Sendable, Travels;
    var r := ToRecord(m)[HDR_LENGTH := Num(n)];
    assert r[HDR_TYPE] == Num(KindOf(m));
  }

  /** A run of the link in which the sender enqueues exactly these messages. */
  ghost predicate Carried(events: seq<EndToEnd.LinkEvent>, ms: seq<Fs.Msg>) {
    var records := EndToEnd.LinkRun(RlNetSchema(), events).messages;
    |records| == |ms| && forall i :: 0 <= i < |ms| ==> Travels(ms[i]) && records[i] == ToRecord(ms[i])
  }

  /**
   The link is a reliable first-in first-out channel for the file system: over
   every interleaving of sending, partial transmission, receiving and updates,
   what has been delivered are the first of the messages sent, in their order.
   */
  lemma ChannelIsFifo(events: seq<EndToEnd.LinkEvent>, ms: seq<Fs.Msg>)
    requires Carried(events, ms)
    ensures var delivered := EndToEnd.LinkRun(RlNetSchema(), events).inbound.delivered;
      && |delivered| <= |ms|
      && forall i :: 0 <= i < |delivered| ==>
           var d := Decode(RlNetSchema(), delivered[i], |delivered[i]|);
           d.Decoded? && FromRecord(d.record) == Some(ms[i])
  {
    EndToEnd.DeliveredIsPrefix(RlNetSchema(), events);
    var l := EndToEnd.LinkRun(RlNetSchema(), events);
    hide RlNetSchema, Decode, EndToEnd.LinkRun, FromRecord, ToRecord, Travels;
    forall i | 0 <= i < |l.inbound.delivered|
      ensures var d := Decode(RlNetSchema(), l.inbound.delivered[i], |l.inbound.delivered[i]|);
        d.Decoded? && FromRecord(d.record) == Some(ms[i])
    {
      assert EndToEnd.Carries(RlNetSchema(), l.inbound.delivered[i], l.messages[i]);
      RecordRoundTrip(ms[i], |l.inbound.delivered[i]|);
    }
  }
}
