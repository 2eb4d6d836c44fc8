/** Bytes, the usual option type, and the few facts about sequences that the other modules share. */
module Base {

  type Byte = b: int | 0 <= b < 256

  datatype Option<+T> = None | Some(value: T)

  function Min(a: int, b: int): (m: int)
    ensures m <= a && m <= b && (m == a || m == b)
  {
    if a < b then a else b
  }

  /** Smallest k with n <= k * unit. */
  function CeilDiv(n: nat, unit: nat): (k: nat)
    requires unit > 0
    ensures n <= k * unit && (k > 0 ==> (k - 1) * unit < n)
  {
    var k := (n + unit - 1) / unit;
    assert n + unit - 1 == k * unit + (n + unit - 1) % unit;
    k
  }

  lemma Associative<T>(x: seq<T>, y: seq<T>, z: seq<T>)
    ensures x + (y + z) == (x + y) + z
  {
  }

  function Flatten(parts: seq<seq<Byte>>): (s: seq<Byte>) {
    if parts == [] then [] else parts[0] + Flatten(parts[1..])
  }

  lemma FlattenStep(xs: seq<seq<Byte>>)
    ensures Flatten(xs) == if xs == [] then [] else xs[0] + Flatten(xs[1..])
  {
  }

  lemma {:induction false} FlattenAppend(xs: seq<seq<Byte>>, ys: seq<seq<Byte>>)
    ensures Flatten(xs + ys) == Flatten(xs) + Flatten(ys)
  {
    hide Flatten;
    FlattenStep(xs);
    if xs == [] {
      assert xs + ys == ys;
    } else {
      FlattenStep(xs + ys);
      FlattenAppend(xs[1..], ys);
      assert (xs + ys)[0] == xs[0] && (xs + ys)[1..] == xs[1..] + ys;
      Associative(xs[0], Flatten(xs[1..]), Flatten(ys));
    }
  }

  lemma FlattenSnoc(xs: seq<seq<Byte>>, x: seq<Byte>)
    ensures Flatten(xs + [x]) == Flatten(xs) + x
  {
    FlattenAppend(xs, [x]);
    assert Flatten([x]) == x + Flatten([]);
  }

  /** A byte string with the bytes from position at on replaced by data. */
  function Splice(s: seq<Byte>, at: nat, data: seq<Byte>): (r: seq<Byte>)
    requires at + |data| <= |s|
    ensures |r| == |s|
  {
    s[..at] + data + s[at + |data|..]
  }

  lemma SpliceNothing(s: seq<Byte>, at: nat)
    requires at <= |s|
    ensures Splice(s, at, []) == s
  {
  }

  /** A slice of a slice is a slice. */
  lemma SubSlice(data: seq<Byte>, a: nat, b: nat, i: nat, j: nat)
    requires a <= b <= |data| && i <= j <= b - a
    ensures data[a..b][i..j] == data[a + i..a + j]
  {
    var x, y := data[a..b][i..j], data[a + i..a + j];
    assert |x| == |y| && forall k :: 0 <= k < |x| ==> x[k] == data[a..b][i + k] == y[k];
  }

  /** Two stores next to each other are one store. */
  lemma SpliceAppend(s: seq<Byte>, at: nat, x: seq<Byte>, y: seq<Byte>)
    requires at + |x| + |y| <= |s|
    ensures Splice(Splice(s, at, x), at + |x|, y) == Splice(s, at, x + y)
  {
    var once := Splice(s, at, x);
    assert once[..at + |x|] == s[..at] + x;
    assert once[at + |x| + |y|..] == s[at + |x| + |y|..];
  }

  /** Stores to disjoint places commute. */
  lemma SpliceCommute(s: seq<Byte>, a: nat, x: seq<Byte>, b: nat, y: seq<Byte>)
    requires a + |x| <= b && b + |y| <= |s|
    ensures Splice(Splice(s, a, x), b, y) == Splice(Splice(s, b, y), a, x)
  {
    var s1, s2 := Splice(s, a, x), Splice(s, b, y);
    assert s1[..b] == s[..a] + x + s[a + |x|..b];
    assert s1[b + |y|..] == s[b + |y|..];
    assert s2[..a] == s[..a];
    assert s2[a + |x|..] == s[a + |x|..b] + y + s[b + |y|..];
  }

  /** rl_memcpy. */
  method CopyBytes(dest: array<Byte>, at: nat, data: seq<Byte>)
    requires at + |data| <= dest.Length
    modifies dest
    ensures dest[..] == Splice(old(dest[..]), at, data)
  {
    for i := 0 to |data|
      invariant forall k :: 0 <= k < at ==> dest[k] == old(dest[k])
      invariant forall k :: at <= k < at + i ==> dest[k] == data[k - at]
      invariant forall k :: at + i <= k < dest.Length ==> dest[k] == old(dest[k])
    {
      dest[at + i] := data[i];
    }
  }

  /** rl_memmove: the direction of the copy keeps overlapping source bytes from being overwritten too early. */
  method MoveBytes(buf: array<Byte>, dst: nat, src: nat, len: nat)
    requires dst + len <= buf.Length && src + len <= buf.Length
    modifies buf
    ensures buf[..] == Splice(old(buf[..]), dst, old(buf[src..src + len]))
  {
    hide Splice;
    ghost var before := buf[..];
    assert before[src..src + len] == buf[src..src + len];
    if src < dst {
      var n := len;
      while n > 0
        invariant 0 <= n <= len
        invariant forall k :: 0 <= k < dst + n ==> buf[k] == before[k]
        invariant forall k :: dst + n <= k < dst + len ==> buf[k] == before[src + (k - dst)]
        invariant forall k :: dst + len <= k < buf.Length ==> buf[k] == before[k]
      {
        n := n - 1;
        buf[dst + n] := buf[src + n];
      }
    } else if dst < src {
      for n := 0 to len
        invariant forall k :: 0 <= k < dst ==> buf[k] == before[k]
        invariant forall k :: dst <= k < dst + n ==> buf[k] == before[src + (k - dst)]
        invariant forall k :: dst + n <= k < buf.Length ==> buf[k] == before[k]
      {
        buf[dst + n] := buf[src + n];
      }
    }
    SpliceIs(before, dst, src, len, buf[..]);
  }

  lemma SpliceIs(before: seq<Byte>, dst: nat, src: nat, len: nat, after: seq<Byte>)
    requires dst + len <= |before| == |after| && src + len <= |before|
    requires forall k :: 0 <= k < |before| ==> after[k] == before[if dst <= k < dst + len then src + (k - dst) else k]
    ensures after == Splice(before, dst, before[src..src + len])
  {
  }
}
