/** The messages of src/rlnet.msg as the compiler of src/mkmsg.py lays them out. */
module RlNet {
  import opened Base
  import opened Schema
  import opened Codec
  import opened RoundTrip
  import opened ByteOrder

  // ---------- descriptions ----------

  function Defs(fields: seq<Field>): (r: seq<Line>)
    ensures |r| == |fields|
  {
    seq(|fields|, i requires 0 <= i < |fields| => FieldDef(fields[i]))
  }

  function DescribeOwn(own: seq<Layout>): seq<Line> {
    if own == [] then []
    else
      var last := own[|own| - 1];
      DescribeOwn(own[..|own| - 1]) + [Section(last.name, last.isRequest)] + Defs(last.fields)
  }

  /** A description file: the two common sections, then a section for each message. */
  function Describe(request: seq<Field>, answer: seq<Field>, own: seq<Layout>): seq<Line> {
    [Section("*", true)] + Defs(request) + [Section("*", false)] + Defs(answer) + DescribeOwn(own)
  }

  predicate Named(own: seq<Layout>) {
    forall i :: 0 <= i < |own| ==> own[i].name != "*"
  }

  function AddFields(s: Sections, fields: seq<Field>): Sections {
    if fields == [] then s else AddLine(AddFields(s, fields[..|fields| - 1]), FieldDef(fields[|fields| - 1]))
  }

  lemma ScanSnoc(lines: seq<Line>, line: Line)
    ensures Scan(lines + [line]) == AddLine(Scan(lines), line)
  {
    assert (lines + [line])[..|lines|] == lines;
  }

  lemma {:induction false} ScanDefs(lines: seq<Line>, fields: seq<Field>)
    ensures Scan(lines + Defs(fields)) == AddFields(Scan(lines), fields)
  {
    if fields == [] {
      assert lines + Defs(fields) == lines;
    } else {
      var front, last := fields[..|fields| - 1], fields[|fields| - 1];
      ScanDefs(lines, front);
      ScanSnoc(lines + Defs(front), FieldDef(last));
      assert lines + Defs(fields) == (lines + Defs(front)) + [FieldDef(last)];
    }
  }

  lemma {:induction false} AddFieldsRequest(s: Sections, fields: seq<Field>)
    requires s.Sections? && s.target == CommonRequest
    ensures AddFields(s, fields) == s.(request := s.request + fields)
  {
    if fields == [] {
      assert s.request + fields == s.request;
    } else {
      AddFieldsRequest(s, fields[..|fields| - 1]);
      assert s.request + fields == s.request + fields[..|fields| - 1] + [fields[|fields| - 1]];
    }
  }

  lemma {:induction false} AddFieldsAnswer(s: Sections, fields: seq<Field>)
    requires s.Sections? && s.target == CommonAnswer
    ensures AddFields(s, fields) == s.(answer := s.answer + fields)
  {
    if fields == [] {
      assert s.answer + fields == s.answer;
    } else {
      AddFieldsAnswer(s, fields[..|fields| - 1]);
      assert s.answer + fields == s.answer + fields[..|fields| - 1] + [fields[|fields| - 1]];
    }
  }

  lemma AddFieldsStep(s: Sections, fields: seq<Field>)
    ensures AddFields(s, fields) ==
      if fields == [] then s else AddLine(AddFields(s, fields[..|fields| - 1]), FieldDef(fields[|fields| - 1]))
  {
  }

  lemma AddToLast(s: Sections, before: seq<Layout>, m: Layout, f: Field)
    requires s.Sections? && s.target == Latest && s.own == before + [m]
    ensures AddLine(s, FieldDef(f)) == s.(own := before + [m.(fields := m.fields + [f])])
  {
    assert s.own[..|s.own| - 1] == before;
  }

  lemma {:induction false} AddFieldsLatest(s: Sections, before: seq<Layout>, m: Layout, fields: seq<Field>)
    requires s.Sections? && s.target == Latest && s.own == before + [m.(fields := [])]
    ensures AddFields(s, fields) == s.(own := before + [m.(fields := fields)])
  {
    hide AddLine, AddFields;
    AddFieldsStep(s, fields);
    if fields == [] {
    } else {
      var front, last := fields[..|fields| - 1], fields[|fields| - 1];
      AddFieldsLatest(s, before, m, front);
      AddToLast(s.(own := before + [m.(fields := front)]), before, m.(fields := front), last);
      assert front + [last] == fields;
    }
  }

  /** One section more. */
  lemma ScanSection(lines: seq<Line>, own: seq<Layout>, m: Layout)
    requires Scan(lines).Sections? && Scan(lines).own == own && m.name != "*"
    ensures var s, t := Scan(lines + [Section(m.name, m.isRequest)] + Defs(m.fields)), Scan(lines);
      s.Sections? && s.own == own + [m] && s.request == t.request && s.answer == t.answer
  {
    hide Scan, Defs, AddFields;
    var line := Section(m.name, m.isRequest);
    ScanSnoc(lines, line);
    ScanDefs(lines + [line], m.fields);
    AddFieldsLatest(Scan(lines + [line]), own, m, m.fields);
  }

  lemma {:induction false} ScanOwn(lines: seq<Line>, own: seq<Layout>)
    requires Scan(lines).Sections? && Scan(lines).own == [] && Named(own)
    ensures var s := Scan(lines + DescribeOwn(own));
      && s.Sections? && s.own == own
      && s.request == Scan(lines).request && s.answer == Scan(lines).answer
  {
    hide Scan, Defs;
    if own == [] {
      assert lines + DescribeOwn(own) == lines;
    } else {
      var front, last := own[..|own| - 1], own[|own| - 1];
      ScanOwn(lines, front);
      ScanSection(lines + DescribeOwn(front), front, last);
    assert lines + DescribeOwn(own)
      == (lines + DescribeOwn(front)) + [Section(last.name, last.isRequest)] + Defs(last.fields);
      assert front + [last] == own;
    }
  }

  /** The two common sections. */
  lemma ScanCommon(request: seq<Field>, answer: seq<Field>)
    ensures Scan([Section("*", true)] + Defs(request) + [Section("*", false)] + Defs(answer))
         == Sections(request, answer, [], CommonAnswer)
  {
    var first, second := Section("*", true), Section("*", false);
    ScanSnoc([], first);
    assert [] + [first] == [first];
    hide Scan, Defs, AddFields;
    ScanDefs([first], request);
    AddFieldsRequest(Scan([first]), request);
    var head := [first] + Defs(request);
    ScanSnoc(head, second);
    ScanDefs(head + [second], answer);
    AddFieldsAnswer(Scan(head + [second]), answer);
    assert [] + request == request && [] + answer == answer;
  }

  /** The layouts of messages with their common fields. */
  function WithCommon(request: seq<Field>, answer: seq<Field>, own: seq<Layout>): (r: seq<Layout>)
    ensures |r| == |own|
  {
    seq(|own|, i requires 0 <= i < |own| =>
      own[i].(fields := (if own[i].isRequest then request else answer) + own[i].fields))
  }

  /**
   Every list of messages has a description from which the compiler makes just
   these messages, each with the common fields of its kind in front, in their
   order.
   */
  lemma DescribeCompiles(request: seq<Field>, answer: seq<Field>, own: seq<Layout>)
    requires Named(own)
    ensures Scan(Describe(request, answer, own)).Sections?
    ensures Compile(Describe(request, answer, own)) == WithCommon(request, answer, own)
  {
    hide Scan, Defs, DescribeOwn, Named;
    ScanCommon(request, answer);
    ScanOwn([Section("*", true)] + Defs(request) + [Section("*", false)] + Defs(answer), own);
  }

  // ---------- src/rlnet.msg ----------

  function RequestHeader(): seq<Field> {
    [Field("hdr_type", ByteT), Field("hdr_flags", ByteT), Field("hdr_length", WordT),
     Field("hdr_sequence_num", LongwordT)]
  }

  function AnswerHeader(): seq<Field> {
    [Field("hdr_type", ByteT), Field("hdr_flags", ByteT), Field("hdr_length", WordT),
     Field("hdr_in_reply_to", LongwordT)]
  }

  function HandshakeRequest(): seq<Field> {
    [Field("version_major", ByteT), Field("version_minor", ByteT), Field("node_name", StringT),
     Field("platform_name", StringT), Field("platform_version", StringT), Field("password_hash", StringT)]
  }

  function HandshakeAnswer(): seq<Field> {
    [Field("version_major", ByteT), Field("version_minor", ByteT), Field("host_name", StringT),
     Field("platform_name", StringT), Field("platform_version", StringT)]
  }

  function OpenRequest(): seq<Field> {
    [Field("path", StringT), Field("mode", LongwordT)]
  }

  function OpenAnswer(): seq<Field> {
    [Field("handle", LongwordT), Field("size", LongwordT), Field("type", ByteT)]
  }

  function ReadRequest(): seq<Field> {
    [Field("handle", LongwordT), Field("offset_hi", LongwordT), Field("offset_lo", LongwordT),
     Field("length", LongwordT)]
  }

  function WriteRequest(): seq<Field> {
    [Field("handle", LongwordT), Field("data", ArrayT)]
  }

  function FindNextRequest(): seq<Field> {
    [Field("handle", LongwordT), Field("reset", ByteT)]
  }

  function FindNextAnswer(): seq<Field> {
    [Field("end_of_sequence", ByteT), Field("type", ByteT), Field("name", StringT), Field("size", LongwordT)]
  }

  function LaunchRequest(): seq<Field> {
    [Field("path", StringT), Field("arguments", StringT)]
  }

  function One(name: string, ty: NetType): seq<Field> {
    [Field(name, ty)]
  }

  function OwnFields(): (r: seq<Layout>)
    ensures |r| == 18
  {
    [ Layout("error", false, One("error_code", LongwordT)), Layout("ping", true, []), Layout("ping", false, []),
     Layout("handshake", true, HandshakeRequest()), Layout("handshake", false, HandshakeAnswer()),
      Layout("open_handle", true, OpenRequest()), Layout("open_handle", false, OpenAnswer()),
      Layout("close_handle", true, One("handle", LongwordT)),
      Layout("read_file", true, ReadRequest()), Layout("read_file", false, One("data", ArrayT)),
      Layout("write_file", true, WriteRequest()), Layout("write_file", false, []),
      Layout("find_next_file", true, FindNextRequest()), Layout("find_next_file", false, FindNextAnswer()),
      Layout("launch_executable", true, LaunchRequest()), Layout("launch_executable", false, []),
      Layout("executable_done", true, One("result_code", LongwordT)), Layout("executable_done", false, []) ]
  }

  /** The schema of the protocol. */
  function RlNetSchema(): seq<Layout> {
    WithCommon(RequestHeader(), AnswerHeader(), OwnFields())
  }

  /** The names of the common header fields. */
  predicate HeaderName(name: string) {
    || name == "hdr_type" || name == "hdr_flags" || name == "hdr_length"
    || name == "hdr_sequence_num" || name == "hdr_in_reply_to"
  }

  predicate OneArray(fields: seq<Field>) {
    forall i, j :: 0 <= i < j < |fields| ==> !(fields[i].ty.ArrayT? && fields[j].ty.ArrayT?)
  }

  /** Fields that may follow a common header. */
  predicate OwnOk(fields: seq<Field>) {
    && |fields| <= 6 && Distinct(fields) && OneArray(fields)
    && (forall i :: 0 <= i < |fields| ==> !HeaderName(fields[i].name))
  }

  /** No name of the header starts like this. */
  lemma NotHeader(name: string)
    requires |name| < 4 || name[0] != 'h' || name[3] != '_'
    ensures !HeaderName(name)
  {
  }

  lemma HandshakeRequestOk()
    ensures OwnOk(HandshakeRequest())
  {
    var fields := HandshakeRequest();
    forall i | 0 <= i < |fields|
      ensures !HeaderName(fields[i].name)
    {
      NotHeader(fields[i].name);
    }
  }

  lemma HandshakeAnswerOk()
    ensures OwnOk(HandshakeAnswer())
  {
    var fields := HandshakeAnswer();
    forall i | 0 <= i < |fields|
      ensures !HeaderName(fields[i].name)
    {
      NotHeader(fields[i].name);
    }
  }

  lemma OpenAnswerOk()
    ensures OwnOk(OpenAnswer())
  {
    var fields := OpenAnswer();
    forall i | 0 <= i < |fields|
      ensures !HeaderName(fields[i].name)
    {
      NotHeader(fields[i].name);
    }
  }

  lemma ReadRequestOk()
    ensures OwnOk(ReadRequest())
  {
    var fields := ReadRequest();
    forall i | 0 <= i < |fields|
      ensures !HeaderName(fields[i].name)
    {
      NotHeader(fields[i].name);
    }
  }

  lemma FindNextAnswerOk()
    ensures OwnOk(FindNextAnswer())
  {
    var fields := FindNextAnswer();
    forall i | 0 <= i < |fields|
      ensures !HeaderName(fields[i].name)
    {
      NotHeader(fields[i].name);
    }
  }

  lemma ShortListsOk()
    ensures OwnOk(OpenRequest()) && OwnOk(WriteRequest()) && OwnOk(FindNextRequest()) && OwnOk(LaunchRequest())
    ensures OwnOk([])
  {
    NotHeader("path");
    NotHeader("mode");
    NotHeader("handle");
    NotHeader("data");
    NotHeader("reset");
    NotHeader("arguments");
  }

  lemma OneOk(name: string, ty: NetType)
    requires |name| < 4 || name[0] != 'h' || name[3] != '_'
    ensures OwnOk(One(name, ty))
  {
    NotHeader(name);
  }

  lemma OwnFieldsOk(i: nat)
    requires i < |OwnFields()|
    ensures OwnOk(OwnFields()[i].fields) && OwnFields()[i].name != "*"
  {
    HandshakeRequestOk();
    HandshakeAnswerOk();
    OpenAnswerOk();
    ReadRequestOk();
    FindNextAnswerOk();
    ShortListsOk();
    OneOk("error_code", LongwordT);
    OneOk("handle", LongwordT);
    OneOk("data", ArrayT);
    OneOk("result_code", LongwordT);
    hide OwnOk, HandshakeRequest, HandshakeAnswer, OpenRequest, OpenAnswer, ReadRequest, WriteRequest,
      FindNextRequest, FindNextAnswer, LaunchRequest, One;
  }

  /** A common header in front of own fields. */
  lemma HeaderAndOwn(header: seq<Field>, own: seq<Field>)
    requires OwnOk(own) && (header == RequestHeader() || header == AnswerHeader())
    ensures Distinct(header + own) && HasHeader(header + own) && |header + own| <= 10 && OneArray(header + own)
  {
    var fields := header + own;
    forall i | 0 <= i < |header|
      ensures HeaderName(header[i].name) && !header[i].ty.ArrayT?
    {
    }
    assert Distinct(header);
    hide HeaderName;
    forall i, j | 0 <= i < j < |fields|
      ensures fields[i].name != fields[j].name
    {
      if j < |header| {
        assert fields[i] == header[i] && fields[j] == header[j];
      } else if i < |header| {
        assert fields[i] == header[i] && fields[j] == own[j - |header|];
      } else {
        assert fields[i] == own[i - |header|] && fields[j] == own[j - |header|];
      }
    }
  }

  lemma RlNetLayout(i: nat)
    requires i < |RlNetSchema()|
    ensures var fields := RlNetSchema()[i].fields;
      Distinct(fields) && HasHeader(fields) && |fields| <= 10 && OneArray(fields)
  {
    OwnFieldsOk(i);
    hide OwnFields, RequestHeader, AnswerHeader, OwnOk, Distinct, HasHeader, OneArray;
    var own := OwnFields()[i];
    HeaderAndOwn(if own.isRequest then RequestHeader() else AnswerHeader(), own.fields);
  }

  /** The description of the protocol compiles to its schema, which is one that the codec theorems apply to. */
  lemma RlNetCompiles()
    ensures Scan(Describe(RequestHeader(), AnswerHeader(), OwnFields())).Sections?
    ensures Compile(Describe(RequestHeader(), AnswerHeader(), OwnFields())) == RlNetSchema()
    ensures IsSchema(RlNetSchema())
  {
    forall i | 0 <= i < |OwnFields()|
      ensures OwnFields()[i].name != "*"
    {
      OwnFieldsOk(i);
    }
    hide OwnFields, RequestHeader, AnswerHeader, Distinct, HasHeader;
    DescribeCompiles(RequestHeader(), AnswerHeader(), OwnFields());
    forall i | 0 <= i < |RlNetSchema()|
      ensures Distinct(RlNetSchema()[i].fields) && HasHeader(RlNetSchema()[i].fields)
    {
      RlNetLayout(i);
    }
  }

  // ---------- sizes ----------

  /** Strings of at most 255 bytes and arrays of at most 4096. */
  predicate Moderate(fields: seq<Field>, r: Record) {
    forall i :: 0 <= i < |fields| ==>
      && (Get(r, fields[i]).Str? ==> |Get(r, fields[i]).s| <= 255)
      && (Get(r, fields[i]).Arr? ==> fields[i].ty.ArrayT? && |Get(r, fields[i]).a| <= 4096)
  }

  function Arrays(fields: seq<Field>): nat {
    if fields == [] then 0 else (if fields[0].ty.ArrayT? then 1 else 0) + Arrays(fields[1..])
  }

  lemma {:induction false} AtMostOneArray(fields: seq<Field>)
    requires OneArray(fields)
    ensures Arrays(fields) <= 1
    ensures (forall i :: 0 <= i < |fields| ==> !fields[i].ty.ArrayT?) ==> Arrays(fields) == 0
  {
    if fields == [] {
    } else {
      AtMostOneArray(fields[1..]);
    }
  }

  lemma {:induction false} LengthBound(fields: seq<Field>, r: Record)
    requires Moderate(fields, r)
    ensures WireLength(fields, r) <= 257 * |fields| + 3843 * Arrays(fields)
  {
    if fields == [] {
    } else {
      var rest := fields[1..];
      assert forall i :: 0 <= i < |rest| ==> rest[i] == fields[i + 1];
      LengthBound(rest, r);
      VarBytesBound(Get(r, fields[0]));
      assert ([fields[0]] + VarOf(rest))[1..] == VarOf(rest);
      assert ([fields[0]] + FixedOf(rest))[1..] == FixedOf(rest);
    }
  }

  lemma VarBytesBound(v: Value)
    ensures v.Str? && |v.s| <= 255 ==> |VarBytes(v)| <= 257
    ensures v.Arr? && |v.a| <= 4096 ==> |VarBytes(v)| <= 4100
    ensures v.Num? ==> |VarBytes(v)| == 0
  {
  }

  /**
   Every message of the protocol whose strings have at most 255 bytes and whose
   arrays at most 4096 can be sent: it fits in one output buffer of 8192 bytes.
   */
  lemma EveryMessageFits(r: Record)
    requires HasKind(RlNetSchema(), r) && IsMessage(RlNetSchema()[r[HDR_TYPE].n].fields, r)
    requires Moderate(RlNetSchema()[r[HDR_TYPE].n].fields, r)
    ensures Sendable(RlNetSchema(), r, 8192)
  {
    var fields := RlNetSchema()[r[HDR_TYPE].n].fields;
    RlNetLayout(r[HDR_TYPE].n);
    hide RlNetSchema, IsMessage;
    AtMostOneArray(fields);
    LengthBound(fields, r);
    ModerateStrings(fields, r);
  }

  lemma {:induction false} ModerateStrings(fields: seq<Field>, r: Record)
    requires Moderate(fields, r)
    ensures ShortStrings(VarOf(fields), r)
  {
    if fields == [] {
    } else {
      var rest := fields[1..];
      assert forall i :: 0 <= i < |rest| ==> rest[i] == fields[i + 1];
      ModerateStrings(rest, r);
    }
  }
}
