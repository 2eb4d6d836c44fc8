/**
 The encoders and decoders that src/mkmsg.py generates, together with the
 string and array coders of src/protocol.c, for any schema.
 */
module Codec {
  import opened Base
  import opened ByteOrder
  import opened Schema

  const HDR_TYPE := "hdr_type"
  const HDR_LENGTH := "hdr_length"

  /** The contents of one struct field. A string is what precedes its terminating NUL. */
  datatype Value = Num(n: nat) | Str(s: seq<Byte>) | Arr(a: seq<Byte>)

  type Record = map<string, Value>

  predicate Typed(t: NetType, v: Value) {
    match t
    case StringT => v.Str? && forall i :: 0 <= i < |v.s| ==> v.s[i] != 0
    case ArrayT => v.Arr? && |v.a| < 0x7fff_fffc
    case _ => v.Num? && v.n < Pow256(Size(t))
  }

  predicate WellTyped(fields: seq<Field>, r: Record) {
    forall i :: 0 <= i < |fields| ==> fields[i].name in r && Typed(fields[i].ty, r[fields[i].name])
  }

  /** Field names of a C struct differ. */
  predicate Distinct(fields: seq<Field>) {
    forall i, j :: 0 <= i < j < |fields| ==> fields[i].name != fields[j].name
  }

  /** The first three common fields, which every message of src/rlnet.msg starts with. */
  predicate HasHeader(fields: seq<Field>) {
    && |fields| >= 3
    && fields[0] == Field(HDR_TYPE, ByteT)
    && fields[1].ty == ByteT
    && fields[2] == Field(HDR_LENGTH, WordT)
  }

  // ---------- wire images ----------

  function VarBytes(v: Value): (s: seq<Byte>) {
    match v
    case Num(_) => []
    case Str(s) => [|s| % 256] + s + [0]
    case Arr(a) => BigEndian(4, |a|) + a
  }

  /** Field f of r; a field that the record lacks counts as zero. */
  function Get(r: Record, f: Field): (v: Value) {
    if f.name in r then r[f.name] else Num(0)
  }

  function FixedBytes(f: Field, r: Record): (s: seq<Byte>)
    ensures |s| == Size(f.ty)
  {
    BigEndian(Size(f.ty), if Get(r, f).Num? then Get(r, f).n else 0)
  }

  function FixedWire(fields: seq<Field>, r: Record): (s: seq<Byte>)
    ensures |s| == TotalSize(fields)
  {
    if fields == [] then [] else FixedBytes(fields[0], r) + FixedWire(fields[1..], r)
  }

  function VarWire(fields: seq<Field>, r: Record): (s: seq<Byte>) {
    if fields == [] then [] else VarBytes(Get(r, fields[0])) + VarWire(fields[1..], r)
  }

  function WireLength(fields: seq<Field>, r: Record): (n: nat) {
    TotalSize(FixedOf(fields)) + |VarWire(VarOf(fields), r)|
  }

  /** The record as it arrives: its length field is filled in by the encoder, cut to the width of the field. */
  function Stamped(r: Record, n: nat): Record {
    r[HDR_LENGTH := Num(n % 0x10000)]
  }

  /** The bytes of a message on the wire: fixed-size fields first, whatever their place in the description. */
  function Wire(fields: seq<Field>, r: Record): (s: seq<Byte>)
    ensures |s| == WireLength(fields, r)
  {
    FixedWire(FixedOf(fields), Stamped(r, WireLength(fields, r))) + VarWire(VarOf(fields), r)
  }

  predicate ShortStrings(fields: seq<Field>, r: Record) {
    forall i :: 0 <= i < |fields| && Get(r, fields[i]).Str? ==> |Get(r, fields[i]).s| <= 255
  }

  /** The messages that can be sent in size bytes. */
  predicate Encodable(fields: seq<Field>, r: Record, size: int) {
    ShortStrings(VarOf(fields), r) && WireLength(fields, r) <= size
  }

  /** Exactly the messages that the generated encoder accepts. It looks at the size only for variable-length fields. */
  predicate Accepts(fields: seq<Field>, r: Record, size: int) {
    ShortStrings(VarOf(fields), r) && (VarOf(fields) == [] || WireLength(fields, r) <= size)
  }

  /** With room for the fixed fields, it accepts what can be sent. */
  lemma AcceptsEncodable(fields: seq<Field>, r: Record, size: int)
    requires TotalSize(FixedOf(fields)) <= size
    ensures Accepts(fields, r, size) <==> Encodable(fields, r, size)
  {
  }

  /** No string of the message is longer than its one-byte length can say. */
  predicate StringsFit(fields: seq<Field>, r: Record) {
    forall f <- fields :: VariableLength(f.ty) && Get(r, f).Str? ==> |Get(r, f).s| <= 255
  }

  /**
   What an encoder accepts: where there are fields of variable length, strings
   of at most 255 characters in a message that fits; where there are none, it does
   not look at the size.
   */
  lemma AcceptsExactly(fields: seq<Field>, r: Record, size: int)
    ensures (forall f <- fields :: !VariableLength(f.ty)) ==> Accepts(fields, r, size)
    ensures (exists f <- fields :: VariableLength(f.ty)) ==>
      (Accepts(fields, r, size) <==> StringsFit(fields, r) && |Wire(fields, r)| <= size)
  {
    VarOfIs(fields);
    var vars := VarOf(fields);
    assert forall i :: 0 <= i < |vars| ==> vars[i] in vars;
    hide VarOf, FixedOf, VarWire, FixedWire;
    if StringsFit(fields, r) {
      assert ShortStrings(vars, r);
    }
    if ShortStrings(vars, r) {
      forall f <- fields | VariableLength(f.ty) && Get(r, f).Str?
        ensures |Get(r, f).s| <= 255
      {
        assert f in vars;
      }
    }
    assert vars == [] ==> ShortStrings(vars, r);
  }

  /** The fields of variable length, all of them and no others. */
  lemma {:induction false} VarOfIs(fields: seq<Field>)
    ensures forall f :: f in VarOf(fields) <==> f in fields && VariableLength(f.ty)
  {
    if fields == [] {
    } else {
      VarOfIs(fields[1..]);
      assert fields == [fields[0]] + fields[1..];
    }
  }

  // ---------- encoding ----------

  method EncodeString(buffer: array<Byte>, cursor: nat, size: int, s: seq<Byte>)
    returns (ok: bool, next: nat, left: int)
    requires cursor + size <= buffer.Length
    modifies buffer
    ensures ok <==> |s| <= 255 && |s| + 2 <= size
    ensures !ok ==> buffer[..] == old(buffer[..])
    ensures ok ==> next == cursor + |s| + 2 && left == size - (|s| + 2)
    ensures ok ==> buffer[..] == Splice(old(buffer[..]), cursor, VarBytes(Str(s)))
  {
    next, left := cursor, size;
    if size < 2 || |s| + 2 > size || |s| > 255 {
      return false, next, left;
    }
    ghost var before := buffer[..];
    buffer[cursor] := |s|;
    assert buffer[..] == Splice(before, cursor, [|s|]);
    CopyBytes(buffer, cursor + 1, s + [0]);
    SpliceAppend(before, cursor, [|s|], s + [0]);
    assert [|s|] + (s + [0]) == VarBytes(Str(s));
    ok, next, left := true, cursor + |s| + 2, size - (|s| + 2);
  }

  method EncodeArray(buffer: array<Byte>, cursor: nat, size: int, a: seq<Byte>)
    returns (ok: bool, next: nat, left: int)
    requires cursor + size <= buffer.Length && |a| < 0x7fff_fffc
    modifies buffer
    ensures ok <==> |a| + 4 <= size
    ensures !ok ==> buffer[..] == old(buffer[..])
    ensures ok ==> next == cursor + |a| + 4 && left == size - (|a| + 4)
    ensures ok ==> buffer[..] == Splice(old(buffer[..]), cursor, VarBytes(Arr(a)))
  {
    next, left := cursor, size;
    if size < 4 + |a| {
      return false, next, left;
    }
    next := EncodeInt4(buffer, cursor, |a|);
    CopyBytes(buffer, next, a);
    SpliceAppend(old(buffer[..]), cursor, BigEndian(4, |a|), a);
    ok, next, left := true, next + |a|, size - (4 + |a|);
  }

  method EncodeInt(buffer: array<Byte>, cursor: nat, t: NetType, v: nat) returns (next: nat)
    requires !VariableLength(t) && cursor + Size(t) <= buffer.Length && v < Pow256(Size(t))
    modifies buffer
    ensures next == cursor + Size(t)
    ensures buffer[..] == Splice(old(buffer[..]), cursor, BigEndian(Size(t), v))
  {
    WidthLimits();
    match t
    case ByteT => next := EncodeInt1(buffer, cursor, v);
    case WordT => next := EncodeInt2(buffer, cursor, v);
    case LongwordT => next := EncodeInt4(buffer, cursor, v);
  }

  lemma WidthLimits()
    ensures Pow256(1) == 0x100 && Pow256(2) == 0x10000 && Pow256(4) == 0x1_0000_0000
  {
    assert Pow256(3) == 0x100_0000;
  }

  /** A variable-length value the encoder takes: strings are limited by their one-byte length. */
  predicate Fits(v: Value, size: int) {
    (v.Str? ==> |v.s| <= 255) && |VarBytes(v)| <= size
  }

  method EncodeVar(buffer: array<Byte>, cursor: nat, size: int, v: Value)
    returns (ok: bool, next: nat, left: int)
    requires !v.Num? && (v.Arr? ==> |v.a| < 0x7fff_fffc) && cursor + size <= buffer.Length
    modifies buffer
    ensures ok <==> Fits(v, size)
    ensures ok ==> next == cursor + |VarBytes(v)| && left == size - |VarBytes(v)|
    ensures ok ==> buffer[..] == Splice(old(buffer[..]), cursor, VarBytes(v))
  {
    match v
    case Str(s) => ok, next, left := EncodeString(buffer, cursor, size, s);
    case Arr(a) => ok, next, left := EncodeArray(buffer, cursor, size, a);
  }

  /** Values of the variable-length kinds, within the range of a C int. */
  predicate AllVariable(fields: seq<Field>, r: Record) {
    forall i :: 0 <= i < |fields| ==>
      !Get(r, fields[i]).Num? && (Get(r, fields[i]).Arr? ==> |Get(r, fields[i]).a| < 0x7fff_fffc)
  }

  lemma VarWireStep(fields: seq<Field>, i: nat, r: Record, done: seq<Byte>)
    requires i < |fields|
    ensures done + VarWire(fields[i..], r) == (done + VarBytes(Get(r, fields[i]))) + VarWire(fields[i + 1..], r)
  {
    assert fields[i..][1..] == fields[i + 1..];
  }

  lemma VarWireNothing(r: Record, done: seq<Byte>)
    ensures done + VarWire([], r) == done
  {
  }

  /**
   The variable part of a generated encoder: a step per field, giving up at the
   first one that is too long or does not fit.
   */
  method EncodeVars(fields: seq<Field>, r: Record, buffer: array<Byte>, cursor: nat, size: int)
    returns (ok: bool, left: int)
    requires AllVariable(fields, r)
    requires cursor <= buffer.Length && cursor + size <= buffer.Length
    modifies buffer
    ensures ok <==> ShortStrings(fields, r) && (fields == [] || |VarWire(fields, r)| <= size)
    ensures ok ==> cursor + |VarWire(fields, r)| <= buffer.Length && left == size - |VarWire(fields, r)|
    ensures ok ==> buffer[..] == Splice(old(buffer[..]), cursor, VarWire(fields, r))
  {
    hide Splice, VarWire, VarBytes;
    ghost var before, total := buffer[..], VarWire(fields, r);
    ghost var done: seq<Byte> := [];
    var next := cursor;
    left := size;
    assert fields[0..] == fields;
    SpliceNothing(before, cursor);
    for i := 0 to |fields|
      invariant forall k :: 0 <= k < i && Get(r, fields[k]).Str? ==> |Get(r, fields[k]).s| <= 255
      invariant total == done + VarWire(fields[i..], r)
      invariant next == cursor + |done| <= buffer.Length && left == size - |done|
      invariant i == 0 || |done| <= size
      invariant buffer[..] == Splice(before, cursor, done)
    {
      VarWireStep(fields, i, r, done);
      ghost var piece := VarBytes(Get(r, fields[i]));
      ok, next, left := EncodeVar(buffer, next, left, Get(r, fields[i]));
      if !ok {
        return;
      }
      SpliceAppend(before, cursor, done, piece);
      done := done + piece;
    }
    assert fields[|fields|..] == [];
    VarWireNothing(r, done);
    ok := true;
  }

  /** The generated encoder skips its length field and fills it in last: b is want except for that mark. */
  ghost predicate Unmarked(b: seq<Byte>, place: Option<nat>, mark: seq<Byte>, want: seq<Byte>) {
    match place
    case None => b == want
    case Some(at) => at + |mark| <= |b| && Splice(b, at, mark) == want
  }

  lemma UnmarkedStore(b: seq<Byte>, place: Option<nat>, mark: seq<Byte>, want: seq<Byte>, at: nat, x: seq<Byte>)
    requires Unmarked(b, place, mark, want) && |want| == |b| && at + |x| <= |b|
    requires place.Some? ==> place.value + |mark| <= at
    ensures Unmarked(Splice(b, at, x), place, mark, Splice(want, at, x))
  {
    if place.Some? {
      SpliceCommute(b, place.value, mark, at, x);
    }
  }

  lemma FixedWireStep(fields: seq<Field>, i: nat, r: Record, done: seq<Byte>)
    requires i < |fields|
    ensures done + FixedWire(fields[i..], r) == (done + FixedBytes(fields[i], r)) + FixedWire(fields[i + 1..], r)
  {
    assert fields[i..][1..] == fields[i + 1..];
  }

  predicate FixedReady(fields: seq<Field>, r: Record) {
    forall i :: 0 <= i < |fields| ==>
      && !VariableLength(fields[i].ty)
      && Typed(fields[i].ty, Get(r, fields[i]))
      && (fields[i].name == HDR_LENGTH ==> fields[i].ty == WordT)
  }

  predicate HasLengthField(fields: seq<Field>) {
    exists i :: 0 <= i < |fields| && fields[i].name == HDR_LENGTH
  }

  lemma FieldReady(fields: seq<Field>, i: nat, r: Record)
    requires FixedReady(fields, r) && i < |fields|
    ensures !VariableLength(fields[i].ty) && Typed(fields[i].ty, Get(r, fields[i]))
    ensures fields[i].name == HDR_LENGTH ==> fields[i].ty == WordT
  {
  }

  /** One field of it: the length field is passed over, any other stored. */
  method EncodeFixedField(f: Field, r: Record, buffer: array<Byte>, cursor: nat, place: Option<nat>, ghost n: nat,
                          ghost want: seq<Byte>) returns (next: nat, place': Option<nat>)
    requires !VariableLength(f.ty) && Typed(f.ty, Get(r, f)) && (f.name == HDR_LENGTH ==> f.ty == WordT && place.None?)
    requires cursor + Size(f.ty) <= buffer.Length == |want|
    requires Unmarked(buffer[..], place, BigEndian(2, n % 0x10000), want)
    requires place.Some? ==> place.value + 2 <= cursor
    modifies buffer
    ensures next == cursor + Size(f.ty) && place' == if f.name == HDR_LENGTH then Some(cursor) else place
    ensures Unmarked(buffer[..], place', BigEndian(2, n % 0x10000), Splice(want, cursor, FixedBytes(f, Stamped(r, n))))
  {
    hide Splice, BigEndian, Unmarked;
    ghost var mark := BigEndian(2, n % 0x10000);
    next, place' := cursor, place;
    if f.name == HDR_LENGTH {
      MarkPlaced(buffer[..], mark, want, cursor);
      place' := Some(cursor);
      next := cursor + 2;
    } else {
      UnmarkedStore(buffer[..], place, mark, want, cursor, FixedBytes(f, r));
      next := EncodeInt(buffer, cursor, f.ty, Get(r, f).n);
    }
  }

  /** The first i fields are done: their bytes are put in before, up to the cursor, but for the length field. */
  ghost predicate FixedDone(fields: seq<Field>, i: nat, stamped: Record, mark: seq<Byte>, before: seq<Byte>,
                            now: seq<Byte>, cursor: nat, place: Option<nat>, done: seq<Byte>)
  {
    && i <= |fields| && |now| == |before|
    && FixedWire(fields, stamped) == done + FixedWire(fields[i..], stamped)
    && cursor == |done|
    && (place.Some? ==> place.value + 2 <= cursor)
    && (place.Some? <==> HasLengthField(fields[..i]))
    && cursor <= |before| && Unmarked(now, place, mark, Splice(before, 0, done))
  }

  lemma FixedDoneStart(fields: seq<Field>, stamped: Record, mark: seq<Byte>, before: seq<Byte>)
    ensures FixedDone(fields, 0, stamped, mark, before, before, 0, None, [])
  {
    NoLengthField(fields[..0]);
    assert fields[0..] == fields;
    SpliceNothing(before, 0);
  }

  /** The next field may be encoded. */
  lemma FixedDoneNext(fields: seq<Field>, i: nat, r: Record, n: nat, mark: seq<Byte>, before: seq<Byte>,
                      now: seq<Byte>, cursor: nat, place: Option<nat>, done: seq<Byte>)
    requires FixedReady(fields, r) && Distinct(fields) && TotalSize(fields) <= |before| && i < |fields|
    requires FixedDone(fields, i, Stamped(r, n), mark, before, now, cursor, place, done)
    ensures !VariableLength(fields[i].ty) && Typed(fields[i].ty, Get(r, fields[i]))
    ensures fields[i].name == HDR_LENGTH ==> fields[i].ty == WordT && place.None?
    ensures |FixedBytes(fields[i], Stamped(r, n))| == Size(fields[i].ty)
    ensures cursor + Size(fields[i].ty) <= |before|
  {
    FieldReady(fields, i, r);
    LengthFieldSeen(fields, i);
    assert |done + FixedWire(fields[i..], Stamped(r, n))| == TotalSize(fields);
    assert |FixedWire(fields[i..], Stamped(r, n))| >= Size(fields[i].ty);
  }

  lemma FixedDoneStep(fields: seq<Field>, i: nat, stamped: Record, mark: seq<Byte>, before: seq<Byte>,
                      now: seq<Byte>, cursor: nat, place: Option<nat>, done: seq<Byte>,
                      now': seq<Byte>, place': Option<nat>)
    requires i < |fields| && Distinct(fields)
    requires FixedDone(fields, i, stamped, mark, before, now, cursor, place, done)
    requires |FixedBytes(fields[i], stamped)| == Size(fields[i].ty) && cursor + Size(fields[i].ty) <= |before|
    requires fields[i].name == HDR_LENGTH ==> Size(fields[i].ty) == 2
    requires place' == (if fields[i].name == HDR_LENGTH then Some(cursor) else place) && |now'| == |before|
    requires Unmarked(now', place', mark, Splice(Splice(before, 0, done), cursor, FixedBytes(fields[i], stamped)))
    ensures FixedDone(fields, i + 1, stamped, mark, before, now', cursor + Size(fields[i].ty), place',
                      done + FixedBytes(fields[i], stamped))
  {
    hide FixedWire, Distinct, HasLengthField, FixedBytes, Splice, Unmarked, Size;
    FixedWireStep(fields, i, stamped, done);
    LengthFieldSeen(fields, i);
    SpliceAppend(before, 0, done, FixedBytes(fields[i], stamped));
  }

  lemma FixedDoneEnd(fields: seq<Field>, stamped: Record, mark: seq<Byte>, before: seq<Byte>,
                     now: seq<Byte>, cursor: nat, place: Option<nat>, done: seq<Byte>)
    requires FixedDone(fields, |fields|, stamped, mark, before, now, cursor, place, done)
    ensures done == FixedWire(fields, stamped) && (place.Some? <==> HasLengthField(fields))
  {
    assert fields[|fields|..] == [];
    FixedWireNothing(stamped, done);
    assert fields[..|fields|] == fields;
  }

  /** The fixed part of a generated encoder. place is where the length field goes, n what it will hold. */
  method EncodeFixed(fields: seq<Field>, r: Record, buffer: array<Byte>, ghost n: nat)
    returns (place: Option<nat>)
    requires FixedReady(fields, r) && Distinct(fields) && TotalSize(fields) <= buffer.Length
    modifies buffer
    ensures place.Some? ==> place.value + 2 <= TotalSize(fields)
    ensures place.Some? <==> HasLengthField(fields)
    ensures Unmarked(buffer[..], place, BigEndian(2, n % 0x10000),
                     Splice(old(buffer[..]), 0, FixedWire(fields, Stamped(r, n))))
  {
    hide Splice, BigEndian, Unmarked, FixedWire, HasLengthField, FixedReady, Distinct, Stamped, FixedBytes;
    ghost var before, mark, stamped := buffer[..], BigEndian(2, n % 0x10000), Stamped(r, n);
    ghost var done: seq<Byte> := [];
    var cursor := 0;
    place := None;
    FixedDoneStart(fields, stamped, mark, before);
    for i := 0 to |fields|
      invariant FixedDone(fields, i, stamped, mark, before, buffer[..], cursor, place, done)
    {
      ghost var now, at, placed := buffer[..], cursor, place;
      FixedDoneNext(fields, i, r, n, mark, before, now, cursor, place, done);
      cursor, place := EncodeFixedField(fields[i], r, buffer, cursor, place, n, Splice(before, 0, done));
      FixedDoneStep(fields, i, stamped, mark, before, now, at, placed, done, buffer[..], place);
      done := done + FixedBytes(fields[i], stamped);
    }
    FixedDoneEnd(fields, stamped, mark, before, buffer[..], cursor, place, done);
  }

  lemma NoLengthField(fields: seq<Field>)
    requires fields == []
    ensures !HasLengthField(fields)
  {
  }

  lemma FixedWireNothing(r: Record, done: seq<Byte>)
    ensures done + FixedWire([], r) == done
  {
  }

  lemma LengthFieldSeen(fields: seq<Field>, i: nat)
    requires Distinct(fields) && i < |fields|
    ensures fields[i].name == HDR_LENGTH ==> !HasLengthField(fields[..i])
    ensures HasLengthField(fields[..i + 1]) <==> HasLengthField(fields[..i]) || fields[i].name == HDR_LENGTH
  {
    if fields[i].name == HDR_LENGTH {
      assert fields[..i + 1][i].name == HDR_LENGTH;
    }
    forall k | 0 <= k < i && fields[..i][k].name == HDR_LENGTH
      ensures fields[..i + 1][k].name == HDR_LENGTH
    {
    }
  }

  lemma MarkPlaced(b: seq<Byte>, mark: seq<Byte>, want: seq<Byte>, at: nat)
    requires Unmarked(b, None, mark, want) && at + |mark| <= |b|
    ensures Unmarked(b, Some(at), mark, Splice(want, at, mark))
  {
  }

  /** What a message handed to the encoder must be: a value for every field of the struct, of the right type. */
  predicate IsMessage(fields: seq<Field>, r: Record) {
    && Distinct(fields) && HasHeader(fields) && WellTyped(fields, r)
    && r.Keys == set f <- fields :: f.name
  }

  lemma {:induction false} HeaderStaysFirst(fields: seq<Field>)
    requires HasHeader(fields)
    ensures HasHeader(FixedOf(fields))
    ensures FixedOf(fields)[..3] == fields[..3]
  {
    var one, two := fields[1..], fields[2..];
    assert one[1..] == two;
    assert FixedOf(two) == [fields[2]] + FixedOf(two[1..]);
    assert FixedOf(one) == [fields[1]] + FixedOf(two);
    assert FixedOf(fields) == [fields[0]] + FixedOf(one);
  }

  lemma {:induction false} PartsReady(fields: seq<Field>, r: Record)
    requires WellTyped(fields, r) && Distinct(fields)
    requires forall i :: 0 <= i < |fields| && fields[i].name == HDR_LENGTH ==> fields[i].ty == WordT
    ensures FixedReady(FixedOf(fields), r) && AllVariable(VarOf(fields), r)
    ensures Distinct(FixedOf(fields)) && Distinct(VarOf(fields))
  {
    PartsDistinct(fields);
    if fields == [] {
    } else {
      var rest := fields[1..];
      assert Distinct(rest);
      PartsReady(rest, r);
      hide Distinct;
    }
  }

  lemma {:induction false} PartsDistinct(fields: seq<Field>)
    requires Distinct(fields)
    ensures Distinct(FixedOf(fields)) && Distinct(VarOf(fields))
  {
    if fields == [] {
    } else {
      PartsDistinct(fields[1..]);
      PartsOf(fields[1..]);
    }
  }

  /** The fields of the two parts are fields of the message. */
  lemma {:induction false} PartsOf(fields: seq<Field>)
    ensures forall i :: 0 <= i < |FixedOf(fields)| ==> FixedOf(fields)[i] in fields
    ensures forall i :: 0 <= i < |VarOf(fields)| ==> VarOf(fields)[i] in fields
  {
    if fields == [] {
    } else {
      PartsOf(fields[1..]);
      assert fields == [fields[0]] + fields[1..];
    }
  }

  lemma LengthFieldIsWord(fields: seq<Field>)
    requires Distinct(fields) && HasHeader(fields)
    ensures forall i :: 0 <= i < |fields| && fields[i].name == HDR_LENGTH ==> fields[i].ty == WordT
  {
    forall i | 0 <= i < |fields| && i != 2
      ensures fields[i].name != HDR_LENGTH
    {
    }
  }

  /** What the two halves of the encoder need to know. */
  lemma EncoderReady(fields: seq<Field>, r: Record)
    requires IsMessage(fields, r)
    ensures FixedReady(FixedOf(fields), r) && Distinct(FixedOf(fields)) && HasLengthField(FixedOf(fields))
    ensures AllVariable(VarOf(fields), r)
  {
    LengthFieldIsWord(fields);
    PartsReady(fields, r);
    HeaderStaysFirst(fields);
    assert FixedOf(fields)[2] == FixedOf(fields)[..3][2];
  }

  /** A generated encoder: -1 exactly when the message is not encodable in size bytes, else the bytes used. */
  method EncodeMessage(fields: seq<Field>, r: Record, buffer: array<Byte>, size: int) returns (result: int)
    requires IsMessage(fields, r)
    requires TotalSize(FixedOf(fields)) <= buffer.Length && size <= buffer.Length
    modifies buffer
    ensures result == if Accepts(fields, r, size) then WireLength(fields, r) else -1
    ensures result != -1 ==> WireLength(fields, r) <= buffer.Length
    ensures result != -1 ==> buffer[..] == Splice(old(buffer[..]), 0, Wire(fields, r))
  {
    hide *;
    EncoderReady(fields, r);
    ghost var before := buffer[..];
    ghost var n := WireLength(fields, r);
    ghost var fixed, vars := FixedWire(FixedOf(fields), Stamped(r, n)), VarWire(VarOf(fields), r);
    WireParts(fields, r);
    var start := TotalSize(FixedOf(fields));
    var place := EncodeFixed(FixedOf(fields), r, buffer, n);
    ghost var afterFixed := buffer[..];
    var ok, left := EncodeVars(VarOf(fields), r, buffer, start, size - start);
    if !ok {
      return -1;
    }
    UnmarkedStore(afterFixed, place, BigEndian(2, n % 0x10000), Splice(before, 0, fixed), start, vars);
    SpliceAppend(before, 0, fixed, vars);
    ghost var unmarked := buffer[..];
    var end := EncodeInt2(buffer, place.value, (size - left) % 0x10000);
    result := size - left;
    Marked(unmarked, place.value, BigEndian(2, n % 0x10000), Splice(before, 0, fixed + vars));
  }

  lemma WireParts(fields: seq<Field>, r: Record)
    ensures Wire(fields, r) == FixedWire(FixedOf(fields), Stamped(r, WireLength(fields, r))) + VarWire(VarOf(fields), r)
    ensures WireLength(fields, r) == TotalSize(FixedOf(fields)) + |VarWire(VarOf(fields), r)|
    ensures VarOf(fields) == [] ==> VarWire(VarOf(fields), r) == []
    ensures forall size ::
      Accepts(fields, r, size) <==>
      ShortStrings(VarOf(fields), r) && (VarOf(fields) == [] || WireLength(fields, r) <= size)
  {
  }

  lemma Marked(b: seq<Byte>, at: nat, mark: seq<Byte>, want: seq<Byte>)
    requires Unmarked(b, Some(at), mark, want) && at + |mark| <= |b|
    ensures Splice(b, at, mark) == want
  {
  }

  // ---------- decoding ----------

  /**
   The decoders read from mem, of which size bytes belong to the message. Their
   bounds checks are slack, so they may look past those: Overrun is a read past mem itself.
   */
  datatype Decoded =
    | Decoded(record: Record, cursor: nat, size: int)
    | Malformed
    | Overrun

  function UpToNul(s: seq<Byte>): (r: seq<Byte>) {
    if s == [] || s[0] == 0 then [] else [s[0]] + UpToNul(s[1..])
  }

  lemma {:induction false} UpToNulStops(s: seq<Byte>, tail: seq<Byte>)
    requires forall i :: 0 <= i < |s| ==> s[i] != 0
    ensures UpToNul(s + [0] + tail) == s
  {
    if s == [] {
      assert ([] + [0] + tail)[0] == 0;
    } else {
      UpToNulStops(s[1..], tail);
      assert (s + [0] + tail)[1..] == s[1..] + [0] + tail;
    }
  }

  function DecodeString(mem: seq<Byte>, cursor: nat, size: int, name: string, record: Record): Decoded {
    if size < 2 then Malformed
    else if cursor >= |mem| then Overrun
    else if mem[cursor] >= size then Malformed
    else if cursor + 1 + mem[cursor] >= |mem| then Overrun
    else if mem[cursor + 1 + mem[cursor]] != 0 then Malformed
    else Decoded(record[name := Str(UpToNul(mem[cursor + 1..]))], cursor + 1 + mem[cursor] + 1, size - mem[cursor] - 2)
  }

  function Signed32(x: int): int {
    var u := x % 0x1_0000_0000;
    if u < 0x8000_0000 then u else u - 0x1_0000_0000
  }

  function DecodeArray(mem: seq<Byte>, cursor: nat, size: int, name: string, record: Record): Decoded {
    if size < 4 then Malformed
    else if cursor + 4 > |mem| then Overrun
    else
      var length := FromBigEndian(mem[cursor..cursor + 4]);
      if Signed32(length) > size then Malformed
      else if cursor + 4 + length > |mem| then Overrun
      else Decoded(record[name := Arr(mem[cursor + 4..cursor + 4 + length])], cursor + 4 + length,
                   Signed32(size - (length + 4)))
  }

  function DecodeVar(mem: seq<Byte>, cursor: nat, size: int, f: Field, record: Record): Decoded {
    if f.ty.StringT? then DecodeString(mem, cursor, size, f.name, record)
    else DecodeArray(mem, cursor, size, f.name, record)
  }

  function DecodeVars(fields: seq<Field>, mem: seq<Byte>, cursor: nat, size: int, record: Record): Decoded {
    if fields == [] then Decoded(record, cursor, size)
    else match DecodeVar(mem, cursor, size, fields[0], record)
      case Decoded(record', cursor', size') => DecodeVars(fields[1..], mem, cursor', size', record')
      case failure => failure
  }

  function DecodeFixed(fields: seq<Field>, mem: seq<Byte>, cursor: nat, size: int, record: Record): Decoded {
    if fields == [] then Decoded(record, cursor, size)
    else
      var k := Size(fields[0].ty);
      if cursor + k > |mem| then Overrun
      else DecodeFixed(fields[1..], mem, cursor + k, size - k,
                       record[fields[0].name := Num(FromBigEndian(mem[cursor..cursor + k]))])
  }

  /** What a generated decoder makes of the message that starts at cursor. */
  function DecodeMessage(fields: seq<Field>, mem: seq<Byte>, cursor: nat, size: int): Decoded {
    if size < TotalSize(FixedOf(fields)) then Malformed
    else match DecodeFixed(FixedOf(fields), mem, cursor, size, map[])
      case Decoded(record, cursor', size') => DecodeVars(VarOf(fields), mem, cursor', size', record)
      case failure => failure
  }

  /** rl_decode_msg: the first byte picks the decoder. */
  function Decode(schema: seq<Layout>, mem: seq<Byte>, size: int): Decoded {
    if size < 4 then Malformed
    else if mem == [] then Overrun
    else if mem[0] >= |schema| then Malformed
    else DecodeMessage(schema[mem[0]].fields, mem, 0, size)
  }

  method DecodeIntInto(buffer: array<Byte>, cursor: nat, t: NetType) returns (v: nat, next: nat)
    requires !VariableLength(t) && cursor + Size(t) <= buffer.Length
    ensures next == cursor + Size(t) && v == FromBigEndian(buffer[cursor..next])
  {
    match t {
      case ByteT => v, next := DecodeInt1(buffer, cursor);
      case WordT => v, next := DecodeInt2(buffer, cursor);
      case LongwordT => v, next := DecodeInt4(buffer, cursor);
    }
    WidthLimits();
    IntRoundTrip(Size(t), v);
  }

  method DecodeStringAt(buffer: array<Byte>, cursor: nat, size: int, name: string, record: Record) returns (r: Decoded)
    ensures r == DecodeString(buffer[..], cursor, size, name, record)
  {
    if size < 2 {
      return Malformed;
    }
    if cursor >= buffer.Length {
      return Overrun;
    }
    var length := buffer[cursor];
    if length >= size {
      return Malformed;
    }
    if cursor + 1 + length >= buffer.Length {
      return Overrun;
    }
    if buffer[cursor + 1 + length] != 0 {
      return Malformed;
    }
    r := Decoded(record[name := Str(UpToNul(buffer[..][cursor + 1..]))], cursor + length + 2, size - (length + 2));
  }

  method DecodeArrayAt(buffer: array<Byte>, cursor: nat, size: int, name: string, record: Record) returns (r: Decoded)
    ensures r == DecodeArray(buffer[..], cursor, size, name, record)
  {
    if size < 4 {
      return Malformed;
    }
    if cursor + 4 > buffer.Length {
      return Overrun;
    }
    var length, next := DecodeIntInto(buffer, cursor, LongwordT);
    assert buffer[cursor..next] == buffer[..][cursor..cursor + 4];
    if Signed32(length) > size {
      return Malformed;
    }
    if next + length > buffer.Length {
      return Overrun;
    }
    assert buffer[next..next + length] == buffer[..][next..next + length];
    r := Decoded(record[name := Arr(buffer[next..next + length])], next + length, Signed32(size - (length + 4)));
  }

  /** The variable part of a generated decoder. */
  method DecodeVarsAt(fields: seq<Field>, buffer: array<Byte>, cursor: nat, size: int, record: Record)
    returns (r: Decoded)
    ensures r == DecodeVars(fields, buffer[..], cursor, size, record)
  {
    ghost var mem := buffer[..];
    r := Decoded(record, cursor, size);
    assert fields[0..] == fields;
    for i := 0 to |fields|
      invariant r.Decoded?
      invariant DecodeVars(fields, mem, cursor, size, record)
        == DecodeVars(fields[i..], mem, r.cursor, r.size, r.record)
    {
      assert fields[i..][1..] == fields[i + 1..];
      if fields[i].ty.StringT? {
        r := DecodeStringAt(buffer, r.cursor, r.size, fields[i].name, r.record);
      } else {
        r := DecodeArrayAt(buffer, r.cursor, r.size, fields[i].name, r.record);
      }
      if !r.Decoded? {
        return;
      }
    }
  }

  /** The fixed part of a generated decoder. */
  method DecodeFixedAt(fields: seq<Field>, buffer: array<Byte>, cursor: nat, size: int, record: Record)
    returns (r: Decoded)
    requires forall i :: 0 <= i < |fields| ==> !VariableLength(fields[i].ty)
    ensures r == DecodeFixed(fields, buffer[..], cursor, size, record)
  {
    ghost var mem := buffer[..];
    r := Decoded(record, cursor, size);
    assert fields[0..] == fields;
    for i := 0 to |fields|
      invariant r.Decoded?
      invariant DecodeFixed(fields, mem, cursor, size, record)
        == DecodeFixed(fields[i..], mem, r.cursor, r.size, r.record)
    {
      assert fields[i..][1..] == fields[i + 1..];
      var k := Size(fields[i].ty);
      if r.cursor + k > buffer.Length {
        return Overrun;
      }
      var v, next := DecodeIntInto(buffer, r.cursor, fields[i].ty);
      assert buffer[r.cursor..next] == mem[r.cursor..next];
      r := Decoded(r.record[fields[i].name := Num(v)], next, r.size - k);
    }
  }

  method DecodeMessageAt(fields: seq<Field>, buffer: array<Byte>, cursor: nat, size: int) returns (r: Decoded)
    ensures r == DecodeMessage(fields, buffer[..], cursor, size)
  {
    if size < TotalSize(FixedOf(fields)) {
      return Malformed;
    }
    r := DecodeFixedAt(FixedOf(fields), buffer, cursor, size, map[]);
    if r.Decoded? {
      r := DecodeVarsAt(VarOf(fields), buffer, r.cursor, r.size, r.record);
    }
  }

  method DecodeMsg(schema: seq<Layout>, buffer: array<Byte>, size: int) returns (r: Decoded)
    ensures r == Decode(schema, buffer[..], size)
  {
    if size < 4 {
      return Malformed;
    }
    if buffer.Length == 0 {
      return Overrun;
    }
    var kind := buffer[0];
    if kind >= |schema| {
      return Malformed;
    }
    r := DecodeMessageAt(schema[kind].fields, buffer, 0, size);
  }
}
