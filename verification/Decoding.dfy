/**
 What a decoder accepts: of which sizes it takes the encoding of a message, and
 that whatever it takes, is the encoding of the message that it gives.
 */
module Decoding {
  import opened Base
  import opened ByteOrder
  import opened Schema
  import opened Codec
  import opened RoundTrip

  // ---------- cut messages ----------

  /** How many bytes of its last value a decoder does without: one of a string, the length's four of an array. */
  function Slack(v: Value): (k: nat)
    ensures k <= 4
  {
    match v
    case Num(_) => 0
    case Str(s) => if s == [] then 0 else 1
    case Arr(a) => if |a| < 4 then |a| else 4
  }

  lemma StringNeeds(name: string, s: seq<Byte>, pre: seq<Byte>, suf: seq<Byte>, size: int, record: Record)
    requires |s| <= 255 && forall i :: 0 <= i < |s| ==> s[i] != 0
    ensures var d := DecodeString(pre + VarBytes(Str(s)) + suf, |pre|, size, name, record);
      if size >= |VarBytes(Str(s))| - Slack(Str(s))
      then d == Decoded(record[name := Str(s)], |pre| + |VarBytes(Str(s))|, size - |VarBytes(Str(s))|)
      else d == Malformed
  {
    var mem := pre + VarBytes(Str(s)) + suf;
    assert mem[|pre|] == |s|;
    assert mem[|pre| + 1..] == s + [0] + suf;
    assert mem[|pre| + 1 + |s|] == (s + [0] + suf)[|s|] == 0;
    UpToNulStops(s, suf);
  }

  lemma ArrayNeeds(name: string, a: seq<Byte>, pre: seq<Byte>, suf: seq<Byte>, size: int, record: Record)
    requires |a| < 0x7fff_fffc && size < 0x8000_0000
    ensures var d := DecodeArray(pre + VarBytes(Arr(a)) + suf, |pre|, size, name, record);
      if size >= |VarBytes(Arr(a))| - Slack(Arr(a))
      then d == Decoded(record[name := Arr(a)], |pre| + |VarBytes(Arr(a))|, size - |VarBytes(Arr(a))|)
      else d == Malformed
  {
    var mem := pre + VarBytes(Arr(a)) + suf;
    assert mem[|pre|..|pre| + 4] == BigEndian(4, |a|);
    assert mem[|pre| + 4..|pre| + 4 + |a|] == a;
    WidthLimits();
    IntRoundTrip(4, |a|);
    InRange(|a|);
    if size >= 4 {
      InRange(size - (|a| + 4));
    }
    hide BigEndian, FromBigEndian, Signed32;
  }

  lemma InRange(x: int)
    requires -0x8000_0000 <= x < 0x8000_0000
    ensures Signed32(x) == x
  {
  }

  lemma VarNeeds(f: Field, v: Value, pre: seq<Byte>, suf: seq<Byte>, size: int, record: Record)
    requires VariableLength(f.ty) && Typed(f.ty, v) && (v.Str? ==> |v.s| <= 255) && size < 0x8000_0000
    ensures var d := DecodeVar(pre + VarBytes(v) + suf, |pre|, size, f, record);
      if size >= |VarBytes(v)| - Slack(v)
      then d == Decoded(record[f.name := v], |pre| + |VarBytes(v)|, size - |VarBytes(v)|)
      else d == Malformed
  {
    match v
    case Str(s) => StringNeeds(f.name, s, pre, suf, size, record);
    case Arr(a) => ArrayNeeds(f.name, a, pre, suf, size, record);
  }

  /** The bytes that a decoder does without at the end of these fields. */
  function LastSlack(fields: seq<Field>, r: Record): (k: nat)
    ensures k <= 4
  {
    if fields == [] then 0 else Slack(Get(r, fields[|fields| - 1]))
  }

  lemma LastSlackTail(fields: seq<Field>, r: Record)
    requires |fields| > 1
    ensures LastSlack(fields[1..], r) == LastSlack(fields, r)
  {
  }

  lemma AtLeastTwo(v: Value)
    requires !v.Num?
    ensures |VarBytes(v)| - Slack(v) >= 2
  {
    hide BigEndian;
  }

  lemma {:induction false} WireAtLeastTwo(fields: seq<Field>, r: Record)
    requires fields != [] && VarReady(fields, r)
    ensures |VarWire(fields, r)| - LastSlack(fields, r) >= 2
  {
    AtLeastTwo(Get(r, fields[0]));
    hide VarBytes, Typed;
    if |fields| > 1 {
      LastSlackTail(fields, r);
      WireAtLeastTwo(fields[1..], r);
    } else {
      assert fields[1..] == [];
    }
  }

  lemma {:induction false} VarsNeed(fields: seq<Field>, r: Record, pre: seq<Byte>, suf: seq<Byte>, size: int,
                                    record: Record)
    requires fields != [] && VarReady(fields, r) && ShortStrings(fields, r) && size < 0x8000_0000
    ensures var d := DecodeVars(fields, pre + VarWire(fields, r) + suf, |pre|, size, record);
      if size >= |VarWire(fields, r)| - LastSlack(fields, r)
      then d == Decoded(Fill(fields, r, record), |pre| + |VarWire(fields, r)|, size - |VarWire(fields, r)|)
      else d == Malformed
    decreases |fields|
  {
    hide VarBytes, DecodeVar, Typed, Slack;
    var f, rest := fields[0], fields[1..];
    var v := Get(r, f);
    var mem := pre + VarWire(fields, r) + suf;
    VarNeeds(f, v, pre, VarWire(rest, r) + suf, size, record);
    Reassociated(pre, VarBytes(v), VarWire(rest, r), suf);
    if rest == [] {
      assert VarWire(rest, r) == [] && mem == pre + VarBytes(v) + suf;
    } else {
      LastSlackTail(fields, r);
      WireAtLeastTwo(rest, r);
      SlackBelow(v);
      if size >= |VarBytes(v)| - Slack(v) {
        VarsNeed(rest, r, pre + VarBytes(v), suf, size - |VarBytes(v)|, record[f.name := v]);
      }
    }
  }

  lemma SlackBelow(v: Value)
    ensures Slack(v) <= |VarBytes(v)|
  {
    hide BigEndian;
  }

  lemma MessageNeeds(fields: seq<Field>, r: Record, suf: seq<Byte>, size: int)
    requires IsMessage(fields, r) && Encodable(fields, r, 0x7fff_ffff) && size < 0x8000_0000
    ensures var n := |Wire(fields, r)|;
      var d := DecodeMessage(fields, Wire(fields, r) + suf, 0, size);
      if size >= n - LastSlack(VarOf(fields), r) then d == Decoded(Stamped(r, n), n, size - n) else d == Malformed
  {
    hide *;
    var n := WireLength(fields, r);
    var stamped := Stamped(r, n);
    ReadyToDecode(fields, r, n);
    FillMessage(fields, stamped);
    WireParts(fields, r);
    SameSlack(fields, r, n);
    var vars := VarOf(fields);
    var fixed, tail := FixedWire(FixedOf(fields), stamped), VarWire(vars, r);
    var mem, middle := Wire(fields, r) + suf, Fill(FixedOf(fields), stamped, map[]);
    if size < TotalSize(FixedOf(fields)) {
      SmallMessage(fields, mem, size);
    } else {
      DecodeFixedWire(FixedOf(fields), stamped, [], tail + suf, size, map[]);
      assert [] + fixed + (tail + suf) == mem;
      DecodeParts(fields, mem, size, middle, |fixed|, size - |fixed|);
      assert fixed + tail + suf == mem;
      if vars == [] {
        NoVars(mem, |fixed|, size - |fixed|, middle, stamped);
        assert tail == [];
      } else {
        VarsNeed(vars, stamped, fixed, suf, size - |fixed|, middle);
      }
    }
    if vars != [] {
      WireAtLeastTwo(vars, stamped);
    }
  }

  lemma SmallMessage(fields: seq<Field>, mem: seq<Byte>, size: int)
    requires size < TotalSize(FixedOf(fields))
    ensures DecodeMessage(fields, mem, 0, size) == Malformed
  {
  }

  lemma NoVars(mem: seq<Byte>, cursor: nat, size: int, record: Record, r: Record)
    ensures DecodeVars([], mem, cursor, size, record) == Decoded(record, cursor, size)
    ensures Fill([], r, record) == record && LastSlack([], r) == 0
  {
  }

  lemma SameSlack(fields: seq<Field>, r: Record, n: nat)
    requires IsMessage(fields, r)
    ensures LastSlack(VarOf(fields), Stamped(r, n)) == LastSlack(VarOf(fields), r)
    ensures VarOf(fields) == [] ==> LastSlack(VarOf(fields), r) == 0
  {
    LengthFieldIsWord(fields);
    PartsOf(fields);
    var vars := VarOf(fields);
    if vars != [] {
      assert vars[|vars| - 1] in fields && VariableLength(vars[|vars| - 1].ty);
    }
  }

  /**
   Of which sizes a message is taken, for every schema: all that leave the
   message whole, but for a last byte that its last string, or the last four that
   its last array has over its length's, does not need. Then it is decoded to
   itself; and else it is refused, whatever follows it in the buffer.
   */
  lemma TakenSizes(schema: seq<Layout>, r: Record, suf: seq<Byte>, size: int)
    requires Sendable(schema, r, 0xffff) && size < 0x8000_0000
    ensures var wire, vars := MessageWire(schema, r), VarOf(schema[r[HDR_TYPE].n].fields);
      var d := Decode(schema, wire + suf, size);
      if size >= |wire| - LastSlack(vars, r)
      then d == Decoded(r[HDR_LENGTH := Num(|wire|)], |wire|, size - |wire|)
      else d == Malformed
  {
    hide DecodeMessage, Wire, VarOf, FixedOf, IsMessage, WireLength, ShortStrings, LastSlack;
    var fields := schema[r[HDR_TYPE].n].fields;
    HeaderAgreement(fields, r);
    EncodableMore(fields, r);
    assert (Wire(fields, r) + suf)[0] == r[HDR_TYPE].n;
    MessageNeeds(fields, r, suf, size);
    FixedAtLeastFour(fields, r);
  }

  lemma EncodableMore(fields: seq<Field>, r: Record)
    requires Encodable(fields, r, 0xffff)
    ensures Encodable(fields, r, 0x7fff_ffff) && ShortStrings(VarOf(fields), r) && |Wire(fields, r)| < 0x10000
  {
    hide VarWire, FixedWire, VarOf, FixedOf;
  }

  lemma FixedAtLeastFour(fields: seq<Field>, r: Record)
    requires IsMessage(fields, r) && ShortStrings(VarOf(fields), r)
    ensures |Wire(fields, r)| - LastSlack(VarOf(fields), r) >= 4
  {
    hide VarWire, FixedWire, VarReady, Typed;
    HeaderStaysFirst(fields);
    HeaderSize(FixedOf(fields));
    WireParts(fields, r);
    DecoderReady(fields, r);
    hide Wire, IsMessage, HasHeader, LastSlack, ShortStrings;
    if VarOf(fields) != [] {
      WireAtLeastTwo(VarOf(fields), r);
    } else {
      NoVars([], 0, 0, r, r);
    }
  }

  lemma HeaderSize(fields: seq<Field>)
    requires HasHeader(fields)
    ensures TotalSize(fields) >= 4
  {
    var one, two := fields[1..], fields[2..];
    assert one[1..] == two;
    assert TotalSize(two) == Size(fields[2].ty) + TotalSize(two[1..]);
    assert TotalSize(one) == Size(fields[1].ty) + TotalSize(two);
  }

  // ---------- what is taken is an encoding ----------

  /** The same value under every name that the fields do not have. */
  ghost predicate Leaves(record: Record, record': Record, fields: seq<Field>) {
    forall name: string :: !Named(fields, name) ==>
      (name in record' <==> name in record) && (name in record ==> record'[name] == record[name])
  }

  lemma LeavesStep(record: Record, v: Value, record': Record, fields: seq<Field>)
    requires fields != [] && Leaves(record[fields[0].name := v], record', fields[1..])
    ensures Leaves(record, record', fields)
  {
    forall name: string | !Named(fields, name)
      ensures (name in record' <==> name in record) && (name in record ==> record'[name] == record[name])
    {
      NamedHead(fields, name);
    }
  }

  lemma DistinctTail(fields: seq<Field>)
    requires fields != [] && Distinct(fields)
    ensures Distinct(fields[1..]) && !Named(fields[1..], fields[0].name)
  {
    assert forall i :: 0 <= i < |fields[1..]| ==> fields[1..][i] == fields[i + 1];
  }

  /** The first of different names is not among the others. */
  lemma FirstStays(record: Record, v: Value, record': Record, fields: seq<Field>)
    requires fields != [] && Distinct(fields) && Leaves(record[fields[0].name := v], record', fields[1..])
    ensures fields[0].name in record' && record'[fields[0].name] == v && Distinct(fields[1..])
  {
    DistinctTail(fields);
  }

  ghost predicate AllTyped(fields: seq<Field>, r: Record) {
    forall i :: 0 <= i < |fields| ==> fields[i].name in r && Typed(fields[i].ty, r[fields[i].name])
  }

  lemma TypedStep(fields: seq<Field>, r: Record)
    requires fields != [] && AllTyped(fields[1..], r)
    requires fields[0].name in r && Typed(fields[0].ty, r[fields[0].name])
    ensures AllTyped(fields, r)
  {
    assert forall i :: 0 < i < |fields| ==> fields[i] == fields[1..][i - 1];
  }

  /** The fields that have been decoded to d are in memory as they would be encoded. */
  ghost predicate FixedRead(fields: seq<Field>, mem: seq<Byte>, cursor: nat, size: int, record: Record, d: Decoded) {
    && d.Decoded? && d.cursor == cursor + TotalSize(fields) <= |mem| && d.size == size - TotalSize(fields)
    && FixedWire(fields, d.record) == mem[cursor..d.cursor]
    && Leaves(record, d.record, fields) && AllTyped(fields, d.record)
  }

  lemma FixedReadStep(fields: seq<Field>, mem: seq<Byte>, cursor: nat, size: int, record: Record, d: Decoded)
    requires fields != [] && Distinct(fields) && !VariableLength(fields[0].ty)
    requires cursor + Size(fields[0].ty) <= |mem|
    requires var k := Size(fields[0].ty);
      var v := Num(FromBigEndian(mem[cursor..cursor + k]));
      FixedRead(fields[1..], mem, cursor + k, size - k, record[fields[0].name := v], d)
    ensures FixedRead(fields, mem, cursor, size, record, d)
  {
    hide FromBigEndian, BigEndian, Leaves, AllTyped, Distinct;
    var f, k := fields[0], Size(fields[0].ty);
    var part := mem[cursor..cursor + k];
    var v := Num(FromBigEndian(part));
    BytesRoundTrip(part);
    FirstStays(record, v, d.record, fields);
    LeavesStep(record, v, d.record, fields);
    TypedStep(fields, d.record);
    assert mem[cursor..d.cursor] == part + mem[cursor + k..d.cursor];
  }

  lemma {:induction false} FixedTaken(fields: seq<Field>, mem: seq<Byte>, cursor: nat, size: int, record: Record)
    requires Distinct(fields) && forall i :: 0 <= i < |fields| ==> !VariableLength(fields[i].ty)
    requires DecodeFixed(fields, mem, cursor, size, record).Decoded? && cursor <= |mem|
    ensures FixedRead(fields, mem, cursor, size, record, DecodeFixed(fields, mem, cursor, size, record))
    decreases |fields|
  {
    if fields == [] {
    } else {
      hide FixedRead, FromBigEndian, Distinct, FixedWire;
      var k := Size(fields[0].ty);
      DistinctTail(fields);
      FixedTaken(fields[1..], mem, cursor + k, size - k,
                 record[fields[0].name := Num(FromBigEndian(mem[cursor..cursor + k]))]);
      FixedReadStep(fields, mem, cursor, size, record, DecodeFixed(fields, mem, cursor, size, record));
    }
  }

  lemma {:induction false} UpToNulIs(s: seq<Byte>, n: nat)
    requires n < |s| && s[n] == 0
    ensures |UpToNul(s)| <= n && UpToNul(s) <= s
    ensures forall i :: 0 <= i < |UpToNul(s)| ==> UpToNul(s)[i] != 0
    decreases |s|
  {
    if s[0] == 0 {
    } else {
      UpToNulIs(s[1..], n - 1);
    }
  }

  /** A value of variable length that was decoded is in memory as it would be encoded, unless a NUL cut it. */
  lemma VarTaken(f: Field, mem: seq<Byte>, cursor: nat, size: int, record: Record)
    requires VariableLength(f.ty) && cursor <= |mem| < 0x7fff_fffc && -4 <= size < 0x8000_0000
    requires DecodeVar(mem, cursor, size, f, record).Decoded?
    ensures var d := DecodeVar(mem, cursor, size, f, record);
      && f.name in d.record && d.record == record[f.name := d.record[f.name]] && Typed(f.ty, d.record[f.name])
      && cursor + |VarBytes(d.record[f.name])| <= d.cursor <= |mem| && d.size == size - (d.cursor - cursor) >= -4
      && (cursor + |VarBytes(d.record[f.name])| == d.cursor ==>
            VarBytes(d.record[f.name]) == mem[cursor..d.cursor])
  {
    if f.ty.StringT? {
      StringTaken(f.name, mem, cursor, size, record);
    } else {
      ArrayTaken(f.name, mem, cursor, size, record);
    }
  }

  lemma StringTaken(name: string, mem: seq<Byte>, cursor: nat, size: int, record: Record)
    requires cursor <= |mem| && DecodeString(mem, cursor, size, name, record).Decoded?
    ensures var d := DecodeString(mem, cursor, size, name, record);
      && name in d.record && d.record == record[name := d.record[name]] && Typed(StringT, d.record[name])
      && cursor + |VarBytes(d.record[name])| <= d.cursor <= |mem| && d.size == size - (d.cursor - cursor) >= -1
      && (cursor + |VarBytes(d.record[name])| == d.cursor ==> VarBytes(d.record[name]) == mem[cursor..d.cursor])
  {
    var n: nat := mem[cursor];
    var rest := mem[cursor + 1..];
    assert rest[n] == mem[cursor + 1 + n];
    UpToNulIs(rest, n);
    var s := UpToNul(rest);
    if |s| == n {
      assert s == mem[cursor + 1..cursor + 1 + n];
      assert VarBytes(Str(s)) == mem[cursor..cursor + n + 2];
    }
  }

  lemma ArrayTaken(name: string, mem: seq<Byte>, cursor: nat, size: int, record: Record)
    requires cursor <= |mem| < 0x7fff_fffc && -4 <= size < 0x8000_0000
    requires DecodeArray(mem, cursor, size, name, record).Decoded?
    ensures var d := DecodeArray(mem, cursor, size, name, record);
      && name in d.record && d.record == record[name := d.record[name]] && Typed(ArrayT, d.record[name])
      && cursor + |VarBytes(d.record[name])| == d.cursor <= |mem| && d.size == size - (d.cursor - cursor) >= -4
      && VarBytes(d.record[name]) == mem[cursor..d.cursor]
  {
    var part := mem[cursor..cursor + 4];
    var n := FromBigEndian(part);
    BytesRoundTrip(part);
    InRange(n);
    InRange(size - (n + 4));
    hide FromBigEndian, BigEndian, Signed32;
    var a := mem[cursor + 4..cursor + 4 + n];
    assert mem[cursor..cursor + 4 + n] == part + a;
  }

  /** The same for fields of variable length, unless a NUL has cut a string. */
  ghost predicate VarsRead(fields: seq<Field>, mem: seq<Byte>, cursor: nat, size: int, record: Record, d: Decoded) {
    && d.Decoded? && cursor + |VarWire(fields, d.record)| <= d.cursor <= |mem|
    && d.size == size - (d.cursor - cursor) >= -4
    && (cursor + |VarWire(fields, d.record)| == d.cursor ==> VarWire(fields, d.record) == mem[cursor..d.cursor])
    && Leaves(record, d.record, fields) && AllTyped(fields, d.record)
  }

  lemma VarsReadStep(fields: seq<Field>, mem: seq<Byte>, cursor: nat, size: int, record: Record, one: Decoded,
                     d: Decoded)
    requires fields != [] && Distinct(fields) && cursor <= |mem| && one.Decoded?
    requires fields[0].name in one.record && one.record == record[fields[0].name := one.record[fields[0].name]]
    requires Typed(fields[0].ty, one.record[fields[0].name]) && one.size == size - (one.cursor - cursor)
    requires cursor + |VarBytes(one.record[fields[0].name])| <= one.cursor <= |mem|
    requires cursor + |VarBytes(one.record[fields[0].name])| == one.cursor ==>
      VarBytes(one.record[fields[0].name]) == mem[cursor..one.cursor]
    requires VarsRead(fields[1..], mem, one.cursor, one.size, one.record, d)
    ensures VarsRead(fields, mem, cursor, size, record, d)
  {
    hide VarBytes, Typed, Leaves, AllTyped, Distinct;
    var v := one.record[fields[0].name];
    FirstStays(record, v, d.record, fields);
    LeavesStep(record, v, d.record, fields);
    TypedStep(fields, d.record);
    assert VarWire(fields, d.record) == VarBytes(v) + VarWire(fields[1..], d.record);
    assert mem[cursor..d.cursor] == mem[cursor..one.cursor] + mem[one.cursor..d.cursor];
  }

  lemma {:induction false} VarsTaken(fields: seq<Field>, mem: seq<Byte>, cursor: nat, size: int, record: Record)
    requires Distinct(fields) && forall i :: 0 <= i < |fields| ==> VariableLength(fields[i].ty)
    requires cursor <= |mem| < 0x7fff_fffc && -4 <= size < 0x8000_0000
    requires DecodeVars(fields, mem, cursor, size, record).Decoded?
    ensures VarsRead(fields, mem, cursor, size, record, DecodeVars(fields, mem, cursor, size, record))
    decreases |fields|
  {
    if fields == [] {
    } else {
      hide DecodeVar, Typed, VarBytes, VarsRead, Distinct, VarWire;
      VarTaken(fields[0], mem, cursor, size, record);
      var one := DecodeVar(mem, cursor, size, fields[0], record);
      DistinctTail(fields);
      VarsTaken(fields[1..], mem, one.cursor, one.size, one.record);
      VarsReadStep(fields, mem, cursor, size, record, one, DecodeVars(fields, mem, cursor, size, record));
    }
  }

  // ---------- whole messages ----------

  lemma {:induction false} PartsDistinct(fields: seq<Field>)
    requires Distinct(fields)
    ensures Distinct(FixedOf(fields)) && Distinct(VarOf(fields))
    ensures forall name :: Named(FixedOf(fields), name) ==> !Named(VarOf(fields), name)
  {
    hide Named;
    if fields == [] {
      forall name: string
        ensures !Named([], name)
      {
        NamedNone(name);
      }
    } else {
      var rest := fields[1..];
      DistinctTail(fields);
      PartsDistinct(rest);
      NamedSplit(rest, fields[0].name);
      forall name: string
        ensures Named(FixedOf(fields), name) ==> !Named(VarOf(fields), name)
      {
        if VariableLength(fields[0].ty) {
          NamedHead(VarOf(fields), name);
        } else {
          NamedHead(FixedOf(fields), name);
        }
      }
      if VariableLength(fields[0].ty) {
        DistinctCons(fields[0], VarOf(rest));
      } else {
        DistinctCons(fields[0], FixedOf(rest));
      }
    }
  }

  lemma NamedNone(name: string)
    ensures !Named([], name)
  {
  }

  lemma DistinctCons(f: Field, rest: seq<Field>)
    requires Distinct(rest) && !Named(rest, f.name)
    ensures Distinct([f] + rest)
  {
  }

  lemma DecodeHalves(fields: seq<Field>, mem: seq<Byte>, size: int)
    requires DecodeMessage(fields, mem, 0, size).Decoded?
    ensures size >= TotalSize(FixedOf(fields)) && DecodeFixed(FixedOf(fields), mem, 0, size, map[]).Decoded?
    ensures var one := DecodeFixed(FixedOf(fields), mem, 0, size, map[]);
      DecodeMessage(fields, mem, 0, size) == DecodeVars(VarOf(fields), mem, one.cursor, one.size, one.record)
  {
    hide DecodeFixed, DecodeVars;
  }

  lemma {:induction false} SameFixedWire(fields: seq<Field>, r: Record, s: Record)
    requires forall i :: 0 <= i < |fields| ==> Get(r, fields[i]) == Get(s, fields[i])
    ensures FixedWire(fields, r) == FixedWire(fields, s)
  {
    if fields == [] {
    } else {
      SameFixedWire(fields[1..], r, s);
    }
  }

  lemma KeepsFixed(fixed: seq<Field>, vars: seq<Field>, r: Record, s: Record)
    requires Leaves(r, s, vars) && (forall name :: Named(fixed, name) ==> !Named(vars, name)) && AllTyped(fixed, r)
    ensures FixedWire(fixed, s) == FixedWire(fixed, r) && AllTyped(fixed, s)
  {
    forall i | 0 <= i < |fixed|
      ensures Get(s, fixed[i]) == Get(r, fixed[i]) && fixed[i].name in s && Typed(fixed[i].ty, s[fixed[i].name])
    {
      assert Named(fixed, fixed[i].name);
    }
    SameFixedWire(fixed, s, r);
  }

  /** A field is among the fixed ones or among the others. */
  lemma {:induction false} InParts(fields: seq<Field>, i: nat)
    requires i < |fields|
    ensures fields[i] in FixedOf(fields) || fields[i] in VarOf(fields)
  {
    if i == 0 {
    } else {
      InParts(fields[1..], i - 1);
    }
  }

  /** The decoded record has the names of the fields and no others, with values of their types. */
  lemma TakenIsMessage(fields: seq<Field>, r: Record, s: Record)
    requires Distinct(fields) && HasHeader(fields)
    requires Leaves(map[], r, FixedOf(fields)) && Leaves(r, s, VarOf(fields))
    requires AllTyped(FixedOf(fields), s) && AllTyped(VarOf(fields), s)
    ensures IsMessage(fields, s)
  {
    forall i | 0 <= i < |fields|
      ensures fields[i].name in s && Typed(fields[i].ty, s[fields[i].name])
    {
      InParts(fields, i);
    }
    hide AllTyped, Typed;
    forall name: string
      ensures name in s <==> Named(fields, name)
    {
      NamedSplit(fields, name);
      if Named(fields, name) {
        var i :| 0 <= i < |fields| && fields[i].name == name;
        assert fields[i].name in s;
      }
    }
    forall name: string
      ensures name in s <==> name in set f <- fields :: f.name
    {
      NamedSet(fields, name);
    }
  }

  lemma NamedSet(fields: seq<Field>, name: string)
    ensures Named(fields, name) <==> name in set f <- fields :: f.name
  {
    if f :| f in fields && f.name == name {
      var i :| 0 <= i < |fields| && fields[i] == f;
      assert fields[i].name == name;
    }
  }

  /** The record is that of the bytes: a message whose parts stand there, whole if no NUL has cut a string. */
  ghost predicate IsTaken(fields: seq<Field>, mem: seq<Byte>, size: int, d: Decoded) {
    && d.Decoded? && d.cursor <= |mem| && d.size == size - d.cursor >= -4 && IsMessage(fields, d.record)
    && WireLength(fields, d.record) <= d.cursor && TotalSize(FixedOf(fields)) <= |mem|
    && FixedWire(FixedOf(fields), d.record) == mem[..TotalSize(FixedOf(fields))]
    && (WireLength(fields, d.record) == d.cursor ==>
          FixedWire(FixedOf(fields), d.record) + VarWire(VarOf(fields), d.record) == mem[..d.cursor])
  }

  lemma WholeRead(fields: seq<Field>, mem: seq<Byte>, size: int, one: Decoded, d: Decoded)
    requires Distinct(fields) && HasHeader(fields)
    requires forall name :: Named(FixedOf(fields), name) ==> !Named(VarOf(fields), name)
    requires FixedRead(FixedOf(fields), mem, 0, size, map[], one)
    requires VarsRead(VarOf(fields), mem, one.cursor, one.size, one.record, d)
    ensures IsTaken(fields, mem, size, d)
  {
    hide FixedOf, VarOf, FixedWire, VarWire, TotalSize, Leaves, AllTyped, Named, Distinct, HasHeader, IsMessage;
    KeepsFixed(FixedOf(fields), VarOf(fields), one.record, d.record);
    TakenIsMessage(fields, one.record, d.record);
    assert mem[..d.cursor] == mem[0..one.cursor] + mem[one.cursor..d.cursor];
  }

  /** A message that was decoded consists of the decoded parts. */
  lemma MessageTaken(fields: seq<Field>, mem: seq<Byte>, size: int)
    requires Distinct(fields) && HasHeader(fields) && |mem| < 0x7fff_fffc && size < 0x8000_0000
    requires DecodeMessage(fields, mem, 0, size).Decoded?
    ensures IsTaken(fields, mem, size, DecodeMessage(fields, mem, 0, size))
  {
    hide *;
    PartsDistinct(fields);
    var fixed, vars := FixedOf(fields), VarOf(fields);
    DecodeHalves(fields, mem, size);
    var one := DecodeFixed(fixed, mem, 0, size, map[]);
    FixedTaken(fixed, mem, 0, size, map[]);
    FixedCursor(fixed, mem, size, map[], one);
    VarsTaken(vars, mem, one.cursor, one.size, one.record);
    WholeRead(fields, mem, size, one, DecodeVars(vars, mem, one.cursor, one.size, one.record));
  }

  lemma FixedCursor(fields: seq<Field>, mem: seq<Byte>, size: int, record: Record, d: Decoded)
    requires FixedRead(fields, mem, 0, size, record, d) && size >= TotalSize(fields)
    ensures d.Decoded? && d.cursor <= |mem| && 0 <= d.size <= size
  {
  }

  /**
   What a decoder takes, for every schema and all bytes: a message of the kind
   in the first byte. It has read no further than there are bytes, and at most
   four beyond the size it was given. The fixed part stands in memory as the
   encoder would write it, and so does the whole message, but for a string that
   is cut at a NUL within it; then the record is shorter than what was read.
   */
  lemma TakenIsEncoded(schema: seq<Layout>, mem: seq<Byte>, size: int)
    requires IsSchema(schema) && |mem| < 0x7fff_fffc && size < 0x8000_0000 && Decode(schema, mem, size).Decoded?
    ensures mem != [] && mem[0] < |schema|
    ensures var d := Decode(schema, mem, size);
      && IsTaken(schema[mem[0]].fields, mem, size, d)
      && d.record[HDR_TYPE] == Num(mem[0])
  {
    hide IsTaken, DecodeMessage;
    var fields := schema[mem[0]].fields;
    MessageTaken(fields, mem, size);
    FirstByte(fields, mem, size, Decode(schema, mem, size));
  }

  lemma FirstByte(fields: seq<Field>, mem: seq<Byte>, size: int, d: Decoded)
    requires IsTaken(fields, mem, size, d) && mem != []
    ensures HDR_TYPE in d.record && d.record[HDR_TYPE] == Num(mem[0])
  {
    hide WireLength, VarWire, Typed, Distinct;
    var fixed := FixedOf(fields);
    HeaderStaysFirst(fields);
    assert fixed[..3][0] == fields[0];
    HeaderSize(fixed);
    TypeByte(fields, d.record);
    assert FixedWire(fixed, d.record)[0] == FixedBytes(fixed[0], d.record)[0];
  }

  lemma TypeByte(fields: seq<Field>, r: Record)
    requires IsMessage(fields, r)
    ensures HDR_TYPE in r && r[HDR_TYPE].Num? && FixedBytes(fields[0], r) == [r[HDR_TYPE].n]
  {
    assert Typed(fields[0].ty, r[fields[0].name]);
    WidthLimits();
    OneByte(r[HDR_TYPE].n);
  }
}
