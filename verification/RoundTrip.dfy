/** What the generated coders are for: decoding undoes encoding, for every schema. */
module RoundTrip {
  import opened Base
  import opened ByteOrder
  import opened Schema
  import opened Codec
  import opened Framing

  /** The record that decoding the fields one after the other builds up. */
  function Fill(fields: seq<Field>, r: Record, record: Record): Record {
    if fields == [] then record else Fill(fields[1..], r, record[fields[0].name := Get(r, fields[0])])
  }

  ghost predicate Named(fields: seq<Field>, name: string) {
    exists i :: 0 <= i < |fields| && fields[i].name == name
  }

  lemma {:induction false} FillLookup(fields: seq<Field>, r: Record, record: Record, name: string)
    requires forall i :: 0 <= i < |fields| ==> fields[i].name in r
    ensures name in Fill(fields, r, record) <==> Named(fields, name) || name in record
    ensures Named(fields, name) ==> Fill(fields, r, record)[name] == r[name]
    ensures !Named(fields, name) && name in record ==> Fill(fields, r, record)[name] == record[name]
  {
    if fields == [] {
    } else {
      var rest := fields[1..];
      var record' := record[fields[0].name := Get(r, fields[0])];
      FillLookup(rest, r, record', name);
      assert forall i :: 0 <= i < |rest| ==> rest[i] == fields[i + 1];
      if Named(rest, name) {
        var i :| 0 <= i < |rest| && rest[i].name == name;
        assert fields[i + 1].name == name;
      }
    }
  }

  lemma Reassociated(pre: seq<Byte>, x: seq<Byte>, y: seq<Byte>, suf: seq<Byte>)
    ensures pre + (x + y) + suf == pre + x + (y + suf)
    ensures pre + (x + y) + suf == (pre + x) + y + suf
  {
  }

  /** A fixed-size field of r, read back from the place it was written to. */
  lemma FixedSlice(f: Field, r: Record, pre: seq<Byte>, tail: seq<Byte>)
    requires !VariableLength(f.ty) && Typed(f.ty, Get(r, f))
    ensures Num(FromBigEndian((pre + FixedBytes(f, r) + tail)[|pre|..|pre| + Size(f.ty)])) == Get(r, f)
  {
    assert (pre + FixedBytes(f, r) + tail)[|pre|..|pre| + Size(f.ty)] == FixedBytes(f, r);
    IntRoundTrip(Size(f.ty), Get(r, f).n);
  }

  /** One field of the fixed part: the decoder moves past it and files its value. */
  lemma DecodeFixedStep(fields: seq<Field>, r: Record, pre: seq<Byte>, suf: seq<Byte>, size: int, record: Record)
    requires fields != [] && FixedReady(fields, r)
    ensures
      var f, rest := fields[0], fields[1..];
      var pre' := pre + FixedBytes(f, r);
      && FixedReady(rest, r)
      && |pre'| == |pre| + Size(f.ty)
      && DecodeFixed(fields, pre + FixedWire(fields, r) + suf, |pre|, size, record)
         == DecodeFixed(rest, pre' + FixedWire(rest, r) + suf, |pre'|, size - Size(f.ty), record[f.name := Get(r, f)])
  {
    hide Typed, FixedBytes, FromBigEndian;
    var f, rest := fields[0], fields[1..];
    FixedSlice(f, r, pre, FixedWire(rest, r) + suf);
    Reassociated(pre, FixedBytes(f, r), FixedWire(rest, r), suf);
  }

  lemma {:induction false} DecodeFixedWire(fields: seq<Field>, r: Record, pre: seq<Byte>,
                                           suf: seq<Byte>, size: int, record: Record)
    requires FixedReady(fields, r)
    ensures DecodeFixed(fields, pre + FixedWire(fields, r) + suf, |pre|, size, record)
         == Decoded(Fill(fields, r, record), |pre| + TotalSize(fields), size - TotalSize(fields))
    decreases fields
  {
    hide FixedReady, Typed, FixedBytes, FromBigEndian, FixedWire;
    if fields == [] {
    } else {
      var f, rest := fields[0], fields[1..];
      DecodeFixedStep(fields, r, pre, suf, size, record);
      DecodeFixedWire(rest, r, pre + FixedBytes(f, r), suf, size - Size(f.ty), record[f.name := Get(r, f)]);
    }
  }

  lemma DecodeStringBytes(name: string, s: seq<Byte>, pre: seq<Byte>, suf: seq<Byte>, size: int, record: Record)
    requires |s| <= 255 && |s| + 2 <= size
    requires forall i :: 0 <= i < |s| ==> s[i] != 0
    ensures DecodeString(pre + VarBytes(Str(s)) + suf, |pre|, size, name, record)
         == Decoded(record[name := Str(s)], |pre| + |s| + 2, size - (|s| + 2))
  {
    var mem := pre + VarBytes(Str(s)) + suf;
    assert mem[|pre|] == |s|;
    assert mem[|pre| + 1..] == s + [0] + suf;
    assert mem[|pre| + 1 + |s|] == (s + [0] + suf)[|s|] == 0;
    UpToNulStops(s, suf);
  }

  lemma DecodeArrayBytes(name: string, a: seq<Byte>, pre: seq<Byte>, suf: seq<Byte>, size: int, record: Record)
    requires |a| + 4 <= size < 0x8000_0000
    ensures DecodeArray(pre + VarBytes(Arr(a)) + suf, |pre|, size, name, record)
         == Decoded(record[name := Arr(a)], |pre| + |a| + 4, size - (|a| + 4))
  {
    var mem := pre + VarBytes(Arr(a)) + suf;
    assert mem[|pre|..|pre| + 4] == BigEndian(4, |a|);
    assert mem[|pre| + 4..|pre| + 4 + |a|] == a;
    WidthLimits();
    IntRoundTrip(4, |a|);
    SmallSigned(|a|);
    SmallSigned(size - (|a| + 4));
    hide BigEndian;
    hide FromBigEndian;
    hide Signed32;
  }

  lemma SmallSigned(x: int)
    requires 0 <= x < 0x8000_0000
    ensures Signed32(x) == x
  {
  }

  lemma DecodeVarBytes(f: Field, v: Value, pre: seq<Byte>, suf: seq<Byte>, size: int, record: Record)
    requires VariableLength(f.ty) && Typed(f.ty, v) && Fits(v, size) && size < 0x8000_0000
    ensures DecodeVar(pre + VarBytes(v) + suf, |pre|, size, f, record)
         == Decoded(record[f.name := v], |pre| + |VarBytes(v)|, size - |VarBytes(v)|)
  {
    match v
    case Str(s) => DecodeStringBytes(f.name, s, pre, suf, size, record);
    case Arr(a) => DecodeArrayBytes(f.name, a, pre, suf, size, record);
  }

  predicate VarReady(fields: seq<Field>, r: Record) {
    forall i :: 0 <= i < |fields| ==> VariableLength(fields[i].ty) && Typed(fields[i].ty, Get(r, fields[i]))
  }

  lemma VarParts(fields: seq<Field>, r: Record, size: int)
    requires fields != [] && VarReady(fields, r)
    requires ShortStrings(fields, r) && |VarWire(fields, r)| <= size
    ensures VarReady(fields[1..], r) && ShortStrings(fields[1..], r)
    ensures VarWire(fields, r) == VarBytes(Get(r, fields[0])) + VarWire(fields[1..], r)
    ensures VariableLength(fields[0].ty) && Typed(fields[0].ty, Get(r, fields[0])) && Fits(Get(r, fields[0]), size)
  {
  }

  /** One field of the variable part. */
  lemma DecodeVarStep(fields: seq<Field>, r: Record, pre: seq<Byte>, suf: seq<Byte>, size: int, record: Record)
    requires fields != [] && VarReady(fields, r)
    requires ShortStrings(fields, r) && |VarWire(fields, r)| <= size < 0x8000_0000
    ensures
      var f, rest := fields[0], fields[1..];
      var v := Get(r, f);
      var pre' := pre + VarBytes(v);
      && VarReady(rest, r) && ShortStrings(rest, r)
      && |VarWire(fields, r)| == |VarBytes(v)| + |VarWire(rest, r)|
      && DecodeVars(fields, pre + VarWire(fields, r) + suf, |pre|, size, record)
         == DecodeVars(rest, pre' + VarWire(rest, r) + suf, |pre'|, size - |VarBytes(v)|, record[f.name := v])
  {
    hide VarBytes, DecodeVar, Typed, Fits, VarWire, VarReady, ShortStrings;
    VarParts(fields, r, size);
    var f, rest := fields[0], fields[1..];
    DecodeVarBytes(f, Get(r, f), pre, VarWire(rest, r) + suf, size, record);
    Reassociated(pre, VarBytes(Get(r, f)), VarWire(rest, r), suf);
  }

  lemma {:induction false} DecodeVarWire(fields: seq<Field>, r: Record, pre: seq<Byte>,
                                         suf: seq<Byte>, size: int, record: Record)
    requires VarReady(fields, r) && ShortStrings(fields, r) && |VarWire(fields, r)| <= size < 0x8000_0000
    ensures DecodeVars(fields, pre + VarWire(fields, r) + suf, |pre|, size, record)
         == Decoded(Fill(fields, r, record), |pre| + |VarWire(fields, r)|, size - |VarWire(fields, r)|)
    decreases fields
  {
    hide VarReady, ShortStrings, VarBytes, DecodeVar;
    if fields == [] {
    } else {
      var f, rest := fields[0], fields[1..];
      DecodeVarStep(fields, r, pre, suf, size, record);
      hide VarWire;
      DecodeVarWire(rest, r, pre + VarBytes(Get(r, f)), suf, size - |VarBytes(Get(r, f))|, record[f.name := Get(r, f)]);
    }
  }

  /** The parts of a message, as the decoder lemmas want them. */
  lemma DecoderReady(fields: seq<Field>, r: Record)
    requires IsMessage(fields, r) && ShortStrings(VarOf(fields), r)
    ensures FixedReady(FixedOf(fields), r) && VarReady(VarOf(fields), r)
  {
    LengthFieldIsWord(fields);
    PartsReady(fields, r);
    PartsOf(fields);
    forall i | 0 <= i < |VarOf(fields)|
      ensures VariableLength(VarOf(fields)[i].ty) && Typed(VarOf(fields)[i].ty, Get(r, VarOf(fields)[i]))
    {
      assert VarOf(fields)[i] in fields;
    }
  }

  /** Stamping the length keeps a message a message. */
  lemma StampedIsMessage(fields: seq<Field>, r: Record, n: nat)
    requires IsMessage(fields, r)
    ensures IsMessage(fields, Stamped(r, n))
    ensures VarWire(VarOf(fields), Stamped(r, n)) == VarWire(VarOf(fields), r)
    ensures ShortStrings(VarOf(fields), r) ==> ShortStrings(VarOf(fields), Stamped(r, n))
  {
    WidthLimits();
    LengthFieldIsWord(fields);
    PartsReady(fields, r);
    PartsOf(fields);
    assert fields[2] in fields;
    assert HDR_LENGTH in r;
    var vars := VarOf(fields);
    forall i | 0 <= i < |vars|
      ensures Get(Stamped(r, n), vars[i]) == Get(r, vars[i])
    {
      assert vars[i] in fields && VariableLength(vars[i].ty);
    }
    SameVarWire(vars, Stamped(r, n), r);
  }

  lemma {:induction false} SameVarWire(fields: seq<Field>, r: Record, s: Record)
    requires forall i :: 0 <= i < |fields| ==> Get(r, fields[i]) == Get(s, fields[i])
    ensures VarWire(fields, r) == VarWire(fields, s)
  {
    if fields == [] {
    } else {
      SameVarWire(fields[1..], r, s);
    }
  }

  lemma {:induction false} NamedSplit(fields: seq<Field>, name: string)
    ensures Named(fields, name) <==> Named(FixedOf(fields), name) || Named(VarOf(fields), name)
  {
    if fields == [] {
    } else {
      NamedSplit(fields[1..], name);
      NamedHead(fields, name);
      if VariableLength(fields[0].ty) {
        NamedHead(VarOf(fields), name);
      } else {
        NamedHead(FixedOf(fields), name);
      }
    }
  }

  lemma NamedHead(fields: seq<Field>, name: string)
    requires fields != []
    ensures Named(fields, name) <==> fields[0].name == name || Named(fields[1..], name)
  {
    if Named(fields, name) {
      var i :| 0 <= i < |fields| && fields[i].name == name;
      if i > 0 {
        assert fields[1..][i - 1].name == name;
      }
    }
    if Named(fields[1..], name) {
      var i :| 0 <= i < |fields[1..]| && fields[1..][i].name == name;
      assert fields[i + 1].name == name;
    }
  }

  /** Filing every field of a message in an empty record gives the message back. */
  lemma FillMessage(fields: seq<Field>, r: Record)
    requires IsMessage(fields, r)
    ensures Fill(VarOf(fields), r, Fill(FixedOf(fields), r, map[])) == r
  {
    LengthFieldIsWord(fields);
    PartsReady(fields, r);
    PartsOf(fields);
    var fixed := Fill(FixedOf(fields), r, map[]);
    var all := Fill(VarOf(fields), r, fixed);
    forall name: string
      ensures name in all <==> name in r
      ensures name in r ==> all[name] == r[name]
    {
      FillLookup(FixedOf(fields), r, map[], name);
      FillLookup(VarOf(fields), r, fixed, name);
      NamedSplit(fields, name);
      assert Named(fields, name) <==> name in r;
    }
  }

  /** What the decoder lemmas ask of the stamped message. */
  lemma ReadyToDecode(fields: seq<Field>, r: Record, n: nat)
    requires IsMessage(fields, r) && Encodable(fields, r, 0x7fff_ffff)
    ensures
      var stamped := Stamped(r, n);
      && IsMessage(fields, stamped)
      && FixedReady(FixedOf(fields), stamped) && VarReady(VarOf(fields), stamped)
      && ShortStrings(VarOf(fields), stamped)
      && VarWire(VarOf(fields), stamped) == VarWire(VarOf(fields), r)
      && |VarWire(VarOf(fields), r)| <= 0x7fff_ffff
      && |FixedWire(FixedOf(fields), stamped)| == TotalSize(FixedOf(fields))
  {
    StampedIsMessage(fields, r, n);
    DecoderReady(fields, Stamped(r, n));
  }

  /** Decoding the wire image of a message, whatever follows it in the buffer. */
  lemma DecodeWire(fields: seq<Field>, r: Record, suf: seq<Byte>)
    requires IsMessage(fields, r) && Encodable(fields, r, 0x7fff_ffff)
    ensures DecodeMessage(fields, Wire(fields, r) + suf, 0, |Wire(fields, r)|)
         == Decoded(Stamped(r, |Wire(fields, r)|), |Wire(fields, r)|, 0)
  {
    hide *;
    var n := WireLength(fields, r);
    var stamped := Stamped(r, n);
    ReadyToDecode(fields, r, n);
    FillMessage(fields, stamped);
    WireParts(fields, r);
    var fixed, vars := FixedWire(FixedOf(fields), stamped), VarWire(VarOf(fields), r);
    var middle := Fill(FixedOf(fields), stamped, map[]);
    DecodeFixedWire(FixedOf(fields), stamped, [], vars + suf, n, map[]);
    assert [] + fixed + (vars + suf) == Wire(fields, r) + suf;
    DecodeParts(fields, Wire(fields, r) + suf, n, middle, |fixed|, |vars|);
    assert fixed + vars + suf == Wire(fields, r) + suf;
    DecodeVarWire(VarOf(fields), stamped, fixed, suf, |vars|, middle);
  }

  lemma DecodeParts(fields: seq<Field>, mem: seq<Byte>, size: int, middle: Record, at: nat, left: int)
    requires size >= TotalSize(FixedOf(fields))
    requires DecodeFixed(FixedOf(fields), mem, 0, size, map[]) == Decoded(middle, at, left)
    ensures DecodeMessage(fields, mem, 0, size) == DecodeVars(VarOf(fields), mem, at, left, middle)
  {
  }

  lemma LengthMark(pre: seq<Byte>, n: nat, suf: seq<Byte>)
    requires |pre| == 2 && n < 0x10000
    ensures PeekIncoming(pre + BigEndian(2, n) + suf) == n
  {
    WordBytes(n);
    var s := pre + [n / 256, n % 256] + suf;
    assert s[2] == n / 256 && s[3] == n % 256;
  }

  /** The first three fields on the wire. */
  lemma HeaderFields(fields: seq<Field>, r: Record)
    requires IsMessage(fields, r) && r[HDR_LENGTH].Num?
    ensures HasHeader(fields) && r[HDR_TYPE].Num? && FixedBytes(fields[0], r) == [r[HDR_TYPE].n]
    ensures |FixedBytes(fields[1], r)| == 1 && FixedBytes(fields[2], r) == BigEndian(2, r[HDR_LENGTH].n)
  {
    hide Distinct, BigEndian;
    assert Typed(fields[0].ty, r[fields[0].name]);
    WidthLimits();
    OneByte(r[HDR_TYPE].n);
  }

  lemma OneByte(n: nat)
    requires n < 256
    ensures BigEndian(1, n) == [n]
  {
    assert BigEndian(1, n) == BigEndian(0, n / 256) + [n % 256];
  }

  /** The encoding begins with the kind, a byte of flags and the length. */
  lemma HeaderBytes(fields: seq<Field>, r: Record) returns (flags: seq<Byte>, rest: seq<Byte>)
    requires IsMessage(fields, r) && r[HDR_LENGTH].Num?
    ensures |flags| == 1 && r[HDR_TYPE].Num?
    ensures FixedWire(FixedOf(fields), r) == [r[HDR_TYPE].n] + flags + BigEndian(2, r[HDR_LENGTH].n) + rest
  {
    hide FixedOf, FixedWire, FixedBytes, BigEndian, IsMessage;
    HeaderFields(fields, r);
    HeaderStaysFirst(fields);
    var fixed := FixedOf(fields);
    assert fixed[..3][0] == fields[0] && fixed[..3][1] == fields[1] && fixed[..3][2] == fields[2];
    HeadOfFixedWire(fixed, r);
    flags, rest := FixedBytes(fields[1], r), FixedWire(fixed[3..], r);
  }

  /**
   What peer_peek_incoming and the decoder table look at: byte 0 is the message
   kind, bytes 2 and 3 the length of the whole message.
   */
  lemma HeaderAgreement(fields: seq<Field>, r: Record)
    requires IsMessage(fields, r)
    ensures |Wire(fields, r)| >= 4
    ensures Wire(fields, r)[0] == r[HDR_TYPE].n
    ensures |Wire(fields, r)| < 0x10000 ==> forall suf :: PeekIncoming(Wire(fields, r) + suf) == |Wire(fields, r)|
  {
    hide *;
    var n := WireLength(fields, r);
    StampedIsMessage(fields, r, n);
    HeaderKeepsKind(fields, r, n);
    var flags, rest := HeaderBytes(fields, Stamped(r, n));
    WireParts(fields, r);
    var head, tail := [r[HDR_TYPE].n] + flags, rest + VarWire(VarOf(fields), r);
    assert Wire(fields, r) == head + BigEndian(2, n % 0x10000) + tail;
    if n < 0x10000 {
      forall suf: seq<Byte>
        ensures PeekIncoming(Wire(fields, r) + suf) == n
      {
        PeekedLength(head, n, tail, suf);
      }
    }
  }

  lemma PeekedLength(head: seq<Byte>, n: nat, tail: seq<Byte>, suf: seq<Byte>)
    requires |head| == 2 && n < 0x10000
    ensures PeekIncoming(head + BigEndian(2, n) + tail + suf) == n
  {
    hide PeekIncoming, BigEndian;
    LengthMark(head, n, tail + suf);
    assert head + BigEndian(2, n) + tail + suf == head + BigEndian(2, n) + (tail + suf);
  }

  lemma HeaderKeepsKind(fields: seq<Field>, r: Record, n: nat)
    requires IsMessage(fields, r)
    ensures HDR_TYPE in r && r[HDR_TYPE].Num? && r[HDR_TYPE].n < 256
    ensures HDR_TYPE in Stamped(r, n) && Stamped(r, n)[HDR_TYPE] == r[HDR_TYPE]
    ensures HDR_LENGTH in Stamped(r, n) && Stamped(r, n)[HDR_LENGTH] == Num(n % 0x10000)
  {
    WidthLimits();
    assert fields[0].name in r && Typed(fields[0].ty, r[fields[0].name]);
    assert fields[0].name != fields[2].name;
  }

  lemma HeadOfFixedWire(fields: seq<Field>, r: Record)
    requires HasHeader(fields)
    ensures FixedWire(fields, r) ==
      FixedBytes(fields[0], r) + FixedBytes(fields[1], r) + FixedBytes(fields[2], r) + FixedWire(fields[3..], r)
  {
    var one, two := fields[1..], fields[2..];
    assert one[1..] == two && two[1..] == fields[3..];
    assert FixedWire(two, r) == FixedBytes(fields[2], r) + FixedWire(two[1..], r);
    assert FixedWire(one, r) == FixedBytes(fields[1], r) + FixedWire(two, r);
    assert FixedWire(fields, r) == FixedBytes(fields[0], r) + FixedWire(one, r);
  }

  /** A list of messages that mkmsg can compile: at most 256 kinds, the common header first. */
  predicate IsSchema(schema: seq<Layout>) {
    && |schema| <= 256
    && forall i :: 0 <= i < |schema| ==> Distinct(schema[i].fields) && HasHeader(schema[i].fields)
  }

  /** A message of the given schema, with its own kind in the header, that fits in room bytes. */
  predicate Sendable(schema: seq<Layout>, r: Record, room: int) {
    && HasKind(schema, r)
    && IsMessage(schema[r[HDR_TYPE].n].fields, r)
    && Encodable(schema[r[HDR_TYPE].n].fields, r, room)
  }

  predicate HasKind(schema: seq<Layout>, r: Record) {
    HDR_TYPE in r && r[HDR_TYPE].Num? && r[HDR_TYPE].n < |schema|
  }

  function MessageWire(schema: seq<Layout>, r: Record): (s: seq<Byte>) {
    if HasKind(schema, r) then Wire(schema[r[HDR_TYPE].n].fields, r) else []
  }

  /** rl_encode_msg: picks the encoder by the kind in the record. */
  method EncodeMsg(schema: seq<Layout>, r: Record, buffer: array<Byte>, size: int) returns (ok: bool, used: nat)
    requires HasKind(schema, r)
    requires IsMessage(schema[r[HDR_TYPE].n].fields, r)
    requires TotalSize(FixedOf(schema[r[HDR_TYPE].n].fields)) <= buffer.Length && size <= buffer.Length
    modifies buffer
    ensures ok <==> Accepts(schema[r[HDR_TYPE].n].fields, r, size)
    ensures ok ==> used == |MessageWire(schema, r)| <= buffer.Length && buffer[..used] == MessageWire(schema, r)
    ensures TotalSize(FixedOf(schema[r[HDR_TYPE].n].fields)) <= size ==>
              (ok <==> Sendable(schema, r, size)) && (ok ==> used <= size)
  {
    if TotalSize(FixedOf(schema[r[HDR_TYPE].n].fields)) <= size {
      AcceptsEncodable(schema[r[HDR_TYPE].n].fields, r, size);
    }
    var result := EncodeMessage(schema[r[HDR_TYPE].n].fields, r, buffer, size);
    if result == -1 {
      return false, 0;
    }
    ok, used := true, result;
  }

  /**
   The codec's purpose, for every schema: what the receiver decodes is the
   message that was encoded, with its length filled in; the kind is the same and
   the message is consumed exactly, whatever bytes follow it.
   */
  lemma CodecRoundTrip(schema: seq<Layout>, r: Record, room: nat, suf: seq<Byte>)
    requires Sendable(schema, r, room) && room < 0x10000
    ensures
      var wire := MessageWire(schema, r);
      Decode(schema, wire + suf, |wire|) == Decoded(r[HDR_LENGTH := Num(|wire|)], |wire|, 0)
  {
    var fields := schema[r[HDR_TYPE].n].fields;
    HeaderAgreement(fields, r);
    DecodeWire(fields, r, suf);
    assert (Wire(fields, r) + suf)[0] == r[HDR_TYPE].n;
  }
}
