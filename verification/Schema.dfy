/**
 The message compiler of src/mkmsg.py: how a list of description lines becomes
 a list of message layouts. Lines are taken after tokenising.
 */
module Schema {
  import opened Base

  datatype NetType = ByteT | WordT | LongwordT | StringT | ArrayT

  predicate VariableLength(t: NetType) {
    t.StringT? || t.ArrayT?
  }

  /** Bytes of a fixed-size type; the compiler's table has no size for the others and never asks. */
  function Size(t: NetType): (n: nat)
    ensures !VariableLength(t) ==> n == 1 || n == 2 || n == 4
  {
    match t
    case ByteT => 1
    case WordT => 2
    case LongwordT => 4
    case StringT => 0
    case ArrayT => 0
  }

  datatype Field = Field(name: string, ty: NetType)

  datatype Line = Section(name: string, isRequest: bool) | FieldDef(field: Field)

  datatype Layout = Layout(name: string, isRequest: bool, fields: seq<Field>)

  function FixedOf(fields: seq<Field>): (r: seq<Field>)
    ensures forall i :: 0 <= i < |r| ==> !VariableLength(r[i].ty)
  {
    if fields == [] then []
    else if VariableLength(fields[0].ty) then FixedOf(fields[1..])
    else [fields[0]] + FixedOf(fields[1..])
  }

  function VarOf(fields: seq<Field>): (r: seq<Field>)
    ensures forall i :: 0 <= i < |r| ==> VariableLength(r[i].ty)
  {
    if fields == [] then []
    else if VariableLength(fields[0].ty) then [fields[0]] + VarOf(fields[1..])
    else VarOf(fields[1..])
  }

  function TotalSize(fields: seq<Field>): (n: nat)
  {
    if fields == [] then 0 else Size(fields[0].ty) + TotalSize(fields[1..])
  }

  lemma FixedStep(fields: seq<Field>)
    ensures FixedOf(fields) ==
      if fields == [] then [] else (if VariableLength(fields[0].ty) then [] else [fields[0]]) + FixedOf(fields[1..])
  {
  }

  lemma {:induction false} FixedAppend(xs: seq<Field>, ys: seq<Field>)
    ensures FixedOf(xs + ys) == FixedOf(xs) + FixedOf(ys)
  {
    hide FixedOf, VariableLength;
    FixedStep(xs);
    if xs == [] {
      assert xs + ys == ys;
    } else {
      FixedStep(xs + ys);
      FixedAppend(xs[1..], ys);
      assert (xs + ys)[0] == xs[0] && (xs + ys)[1..] == xs[1..] + ys;
      Associative(if VariableLength(xs[0].ty) then [] else [xs[0]], FixedOf(xs[1..]), FixedOf(ys));
    }
  }

  lemma VarStep(fields: seq<Field>)
    ensures VarOf(fields) ==
      if fields == [] then [] else (if VariableLength(fields[0].ty) then [fields[0]] else []) + VarOf(fields[1..])
  {
  }

  lemma {:induction false} VarAppend(xs: seq<Field>, ys: seq<Field>)
    ensures VarOf(xs + ys) == VarOf(xs) + VarOf(ys)
  {
    hide VarOf, VariableLength;
    VarStep(xs);
    if xs == [] {
      assert xs + ys == ys;
    } else {
      VarStep(xs + ys);
      VarAppend(xs[1..], ys);
      assert (xs + ys)[0] == xs[0] && (xs + ys)[1..] == xs[1..] + ys;
      Associative(if VariableLength(xs[0].ty) then [xs[0]] else [], VarOf(xs[1..]), VarOf(ys));
    }
  }

  /** One more field goes to exactly one of the two lists. */
  lemma PartitionInsert(xs: seq<Field>, f: Field)
    ensures FixedOf(xs + [f]) == if VariableLength(f.ty) then FixedOf(xs) else FixedOf(xs) + [f]
    ensures VarOf(xs + [f]) == if VariableLength(f.ty) then VarOf(xs) + [f] else VarOf(xs)
    ensures FixedOf([f] + xs) == if VariableLength(f.ty) then FixedOf(xs) else [f] + FixedOf(xs)
    ensures VarOf([f] + xs) == if VariableLength(f.ty) then [f] + VarOf(xs) else VarOf(xs)
  {
    FixedAppend(xs, [f]);
    VarAppend(xs, [f]);
    assert [f][1..] == [];
    assert ([f] + xs)[1..] == xs;
  }

  lemma {:induction false} TotalSizeAppend(xs: seq<Field>, ys: seq<Field>)
    ensures TotalSize(xs + ys) == TotalSize(xs) + TotalSize(ys)
  {
    if xs == [] {
      assert xs + ys == ys;
    } else {
      TotalSizeAppend(xs[1..], ys);
      assert (xs + ys)[1..] == xs[1..] + ys;
    }
  }

  lemma SizeInsert(xs: seq<Field>, f: Field)
    ensures TotalSize(xs + [f]) == TotalSize([f] + xs) == TotalSize(xs) + Size(f.ty)
  {
    TotalSizeAppend(xs, [f]);
    assert [f][1..] == [];
    assert ([f] + xs)[1..] == xs;
  }

  /** class Message of the compiler: three field lists and a running size, kept consistent by insertion. */
  class Message {
    const name: string
    const isRequest: bool
    var allFields: seq<Field>
    var fixedFields: seq<Field>
    var varFields: seq<Field>
    var fixedSize: nat

    ghost predicate Valid()
      reads this
    {
      && fixedFields == FixedOf(allFields)
      && varFields == VarOf(allFields)
      && fixedSize == TotalSize(fixedFields)
    }

    ghost function View(): Layout
      reads this
    {
      Layout(name, isRequest, allFields)
    }

    constructor (name: string, isRequest: bool)
      ensures Valid() && allFields == []
      ensures this.name == name && this.isRequest == isRequest
    {
      this.name, this.isRequest := name, isRequest;
      allFields, fixedFields, varFields, fixedSize := [], [], [], 0;
    }

    method InsertField(f: Field, append: bool)
      requires Valid()
      modifies this
      ensures Valid()
      ensures allFields == if append then old(allFields) + [f] else [f] + old(allFields)
    {
      PartitionInsert(allFields, f);
      if VariableLength(f.ty) {
        varFields := if append then varFields + [f] else [f] + varFields;
      } else {
        SizeInsert(fixedFields, f);
        fixedFields := if append then fixedFields + [f] else [f] + fixedFields;
        fixedSize := fixedSize + Size(f.ty);
      }
      allFields := if append then allFields + [f] else [f] + allFields;
    }

    method PrependField(f: Field)
      requires Valid()
      modifies this
      ensures Valid() && allFields == [f] + old(allFields)
    {
      InsertField(f, false);
    }

    method AddField(f: Field)
      requires Valid()
      modifies this
      ensures Valid() && allFields == old(allFields) + [f]
    {
      InsertField(f, true);
    }
  }

  /** Which message a field line belongs to: none yet, a common section, or the latest message. */
  datatype Target = NoSection | CommonRequest | CommonAnswer | Latest

  datatype Sections =
    | Rejected
    | Sections(request: seq<Field>, answer: seq<Field>, own: seq<Layout>, target: Target)

  const EMPTY := Sections([], [], [], NoSection)

  function AddLine(s: Sections, line: Line): (r: Sections)
  {
    if s.Rejected? then Rejected else
    match line
    case Section(name, isRequest) =>
      if name == "*" then s.(target := if isRequest then CommonRequest else CommonAnswer)
      else s.(own := s.own + [Layout(name, isRequest, [])], target := Latest)
    case FieldDef(f) =>
      match s.target
      case NoSection => Rejected
      case CommonRequest => s.(request := s.request + [f])
      case CommonAnswer => s.(answer := s.answer + [f])
      case Latest =>
        if s.own == [] then Rejected
        else var last := s.own[|s.own| - 1];
             s.(own := s.own[..|s.own| - 1] + [last.(fields := last.fields + [f])])
  }

  /** What the description says: common sections apart, then each message with its own fields. */
  function Scan(lines: seq<Line>): (s: Sections)
    ensures s.Sections? && s.target == Latest ==> s.own != []
  {
    if lines == [] then EMPTY else AddLine(Scan(lines[..|lines| - 1]), lines[|lines| - 1])
  }

  /** A description is refused exactly if it begins with the definition of a field, which belongs to no section. */
  lemma {:induction false} RejectedExactly(lines: seq<Line>)
    ensures Scan(lines).Rejected? <==> lines != [] && lines[0].FieldDef?
    ensures Scan(lines).Sections? ==> (Scan(lines).target == NoSection <==> lines == [])
    decreases |lines|
  {
    if |lines| <= 1 {
      assert |lines| == 1 ==> lines[..0] == [];
    } else {
      RejectedExactly(lines[..|lines| - 1]);
    }
  }

  function Common(s: Sections, isRequest: bool): seq<Field>
    requires s.Sections?
  {
    if isRequest then s.request else s.answer
  }

  /** The layouts the compiler emits code for: common fields of the right kind first, then the own fields. */
  function Compile(lines: seq<Line>): (r: seq<Layout>)
    requires Scan(lines).Sections?
    ensures |r| == |Scan(lines).own|
  {
    var s := Scan(lines);
    seq(|s.own|, i requires 0 <= i < |s.own| =>
      s.own[i].(fields := Common(s, s.own[i].isRequest) + s.own[i].fields))
  }

  function Reversed(xs: seq<Field>): (r: seq<Field>)
    ensures |r| == |xs|
    ensures forall i :: 0 <= i < |xs| ==> r[i] == xs[|xs| - 1 - i]
  {
    seq(|xs|, i requires 0 <= i < |xs| => xs[|xs| - 1 - i])
  }

  /** The distribution step: reversed, then prepended one by one, which restores the order. */
  method PrependAll(m: Message, common: seq<Field>)
    requires m.Valid()
    modifies m
    ensures m.Valid() && m.allFields == common + old(m.allFields)
  {
    var reversed := Reversed(common);
    for j := 0 to |reversed|
      invariant m.Valid()
      invariant m.allFields == common[|common| - j..] + old(m.allFields)
    {
      m.PrependField(reversed[j]);
      assert [common[|common| - 1 - j]] + common[|common| - j..] == common[|common| - (j + 1)..];
    }
  }

  /** The compiler's message objects are distinct and hold these layouts. */
  ghost predicate Holds(messages: seq<Message>, layouts: seq<Layout>)
    reads messages
  {
    && |messages| == |layouts|
    && (forall i, j :: 0 <= i < j < |messages| ==> messages[i] != messages[j])
    && (forall i :: 0 <= i < |messages| ==> messages[i].Valid())
    && (forall i :: 0 <= i < |messages| ==> messages[i].View() == layouts[i])
  }

  lemma HoldsMore(messages: seq<Message>, layouts: seq<Layout>, m: Message)
    requires Holds(messages, layouts) && m !in messages && m.Valid()
    ensures Holds(messages + [m], layouts + [m.View()])
  {
  }

  /** The local variables of mkmsg while it scans. */
  class Scanner {
    const request: Message
    const answer: Message
    var messages: seq<Message>
    var current: Message?

    ghost predicate Valid(s: Sections)
      reads this, request, answer, messages
    {
      && s.Sections?
      && request != answer && request !in messages && answer !in messages
      && request.Valid() && request.allFields == s.request
      && answer.Valid() && answer.allFields == s.answer
      && Holds(messages, s.own)
      && match s.target
         case NoSection => current == null
         case CommonRequest => current == request
         case CommonAnswer => current == answer
         case Latest => messages != [] && current == messages[|messages| - 1]
    }

    constructor ()
      ensures Valid(EMPTY) && fresh(request) && fresh(answer) && fresh(messages)
    {
      request := new Message("*common*", true);
      answer := new Message("*common*", false);
      messages := [];
      current := null;
    }

    /** A "name/type" line. */
    method Select(name: string, isRequest: bool, ghost s: Sections)
      requires Valid(s)
      modifies this
      ensures Valid(AddLine(s, Section(name, isRequest)))
      ensures |old(messages)| <= |messages| && messages[..|old(messages)|] == old(messages)
      ensures forall i :: |old(messages)| <= i < |messages| ==> fresh(messages[i])
    {
      hide Holds;
      if name == "*" {
        current := if isRequest then request else answer;
      } else {
        var m := new Message(name, isRequest);
        HoldsMore(messages, s.own, m);
        current, messages := m, messages + [m];
      }
    }

    /** A field line: ok is false where the script stops with an exception. */
    method Define(f: Field, ghost s: Sections) returns (ok: bool)
      requires Valid(s)
      modifies current
      ensures ok <==> AddLine(s, FieldDef(f)).Sections?
      ensures ok ==> Valid(AddLine(s, FieldDef(f)))
    {
      if current == null {
        return false;
      }
      current.AddField(f);
      ok := true;
    }

    method Feed(line: Line, ghost s: Sections) returns (ok: bool)
      requires Valid(s)
      modifies this, current
      ensures ok <==> AddLine(s, line).Sections?
      ensures ok ==> Valid(AddLine(s, line))
      ensures |old(messages)| <= |messages| && messages[..|old(messages)|] == old(messages)
      ensures forall i :: |old(messages)| <= i < |messages| ==> fresh(messages[i])
    {
      match line
      case Section(name, isRequest) =>
        Select(name, isRequest, s);
        ok := true;
      case FieldDef(f) =>
        ok := Define(f, s);
    }
  }

  lemma ScanNothing(lines: seq<Line>)
    ensures Scan(lines[..0]) == EMPTY
  {
  }

  lemma ScanMore(lines: seq<Line>, n: nat)
    requires n < |lines|
    ensures Scan(lines[..n + 1]) == AddLine(Scan(lines[..n]), lines[n])
  {
    assert lines[..n + 1][..n] == lines[..n];
  }

  method ScanLines(lines: seq<Line>) returns (ok: bool, scanner: Scanner)
    ensures ok <==> Scan(lines).Sections?
    ensures ok ==> scanner.Valid(Scan(lines))
    ensures ok ==> forall i :: 0 <= i < |scanner.messages| ==> fresh(scanner.messages[i])
  {
    hide Scan, AddLine;
    scanner := new Scanner();
    ok := true;
    ghost var s := EMPTY;
    ScanNothing(lines);
    for n := 0 to |lines|
      invariant fresh(scanner) && fresh(scanner.request) && fresh(scanner.answer)
      invariant forall i :: 0 <= i < |scanner.messages| ==> fresh(scanner.messages[i])
      invariant s == Scan(lines[..n])
      invariant scanner.Valid(s)
    {
      ScanMore(lines, n);
      ok := scanner.Feed(lines[n], s);
      s := AddLine(s, lines[n]);
      if !ok {
        RejectedForever(lines, n + 1);
        return;
      }
    }
    assert lines[..|lines|] == lines;
  }

  lemma {:induction false} RejectedForever(lines: seq<Line>, n: nat)
    requires n <= |lines| && Scan(lines[..n]).Rejected?
    ensures Scan(lines).Rejected?
    decreases |lines| - n
  {
    if n == |lines| {
      assert lines[..n] == lines;
    } else {
      assert lines[..n + 1][..n] == lines[..n];
      RejectedForever(lines, n + 1);
    }
  }

  /** One message of the distribution loop; the others keep their layouts. */
  method PrependAt(messages: seq<Message>, ghost layouts: seq<Layout>, k: nat, common: seq<Field>)
    returns (ghost changed: seq<Layout>)
    requires Holds(messages, layouts) && k < |messages|
    modifies messages[k]
    ensures changed == layouts[k := layouts[k].(fields := common + layouts[k].fields)]
    ensures Holds(messages, changed)
  {
    changed := layouts[k := layouts[k].(fields := common + layouts[k].fields)];
    PrependAll(messages[k], common);
  }

  /** The layouts after k messages have received their common fields. */
  ghost predicate Distributed(lines: seq<Line>, layouts: seq<Layout>, k: nat)
    requires Scan(lines).Sections?
  {
    var own := Scan(lines).own;
    && |layouts| == |own| && k <= |own|
    && (forall i :: 0 <= i < k ==> layouts[i] == Compile(lines)[i])
    && (forall i :: k <= i < |own| ==> layouts[i] == own[i])
  }

  /** The distribution loop of mkmsg. */
  method Distribute(messages: seq<Message>, request: seq<Field>, answer: seq<Field>, ghost lines: seq<Line>)
    requires Scan(lines).Sections? && Holds(messages, Scan(lines).own)
    requires request == Scan(lines).request && answer == Scan(lines).answer
    modifies messages
    ensures Holds(messages, Compile(lines))
  {
    ghost var layouts := Scan(lines).own;
    for k := 0 to |messages|
      invariant Holds(messages, layouts)
      invariant Distributed(lines, layouts, k)
    {
      assert messages[k].View() == layouts[k];
      var common := if messages[k].isRequest then request else answer;
      layouts := PrependAt(messages, layouts, k, common);
    }
    assert layouts == Compile(lines);
  }

  /** mkmsg up to code generation: every message ends up laid out as Compile says, with consistent lists. */
  method Mkmsg(lines: seq<Line>) returns (ok: bool, messages: seq<Message>)
    ensures ok <==> Scan(lines).Sections?
    ensures ok ==> Holds(messages, Compile(lines))
  {
    messages := [];
    var scanner;
    ok, scanner := ScanLines(lines);
    if ok {
      messages := scanner.messages;
      Distribute(messages, scanner.request.allFields, scanner.answer.allFields, lines);
    }
  }
}
