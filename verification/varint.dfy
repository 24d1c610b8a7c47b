/** Base 128 varints: their bytes, the generated loops that write and read them, and Go's integer conversions. */
module Varints {
  import opened Base

  const TwoTo63: nat := 0x8000_0000_0000_0000
  const TwoTo64: nat := 0x1_0000_0000_0000_0000
  const TwoTo31: nat := 0x8000_0000

  datatype PbError = IntOverflow | UnexpectedEof | InvalidLength | EndGroup | IllegalTag | WrongWireType
    | IllegalWireType

  /** A value read from the front of some bytes, and how many bytes it took. */
  datatype Read = Read(value: nat, size: nat)

  /** The low 32 and 64 bits as signed integers, as Go's int32 and int conversions take them. */
  function ToInt32(v: nat): int {
    var w := v % TwoTo32;
    if w < TwoTo31 then w else w - TwoTo32
  }

  function ToInt(v: nat): int {
    var w := v % TwoTo64;
    if w < TwoTo63 then w else w - TwoTo64
  }

  lemma SmallWord(v: nat)
    requires v < TwoTo64
    ensures v % TwoTo64 == v
  {
  }

  lemma SmallInt32(v: nat)
    requires v < TwoTo31
    ensures ToInt32(v) == v
  {
  }

  function Varint(v: nat): (s: Bytes)
    ensures s != []
  {
    if v < 128 then [v] else [v % 128 + 128] + Varint(v / 128)
  }

  /** The varint at the front of s, of at most budget groups of seven bits. */
  function ReadVarint(s: Bytes, budget: nat): (r: Result<Read, PbError>)
    ensures r.Ok? ==> 1 <= r.value.size <= |s| && r.value.size <= budget
    decreases |s|
  {
    if budget == 0 then Err(IntOverflow)
    else if s == [] then Err(UnexpectedEof)
    else if s[0] < 128 then Ok(Read(s[0], 1))
    else match ReadVarint(s[1..], budget - 1)
      case Err(e) => Err(e)
      case Ok(Read(v, n)) => Ok(Read(Group(s[0]) + 128 * v, n + 1))
  }

  /** The seven bits that a byte of a varint carries. */
  function Group(b: byte): nat {
    b % 128
  }

  /** Ten groups of seven bits, as the readers' shifts 0, 7, ..., 63. */
  function GetVarint(s: Bytes): (r: Result<Read, PbError>)
    ensures r.Ok? ==> 1 <= r.value.size <= |s|
  {
    ReadVarint(s, 10)
  }

  /** Bytes after a complete varint do not matter. */
  lemma {:induction false} ReadVarintLocal(a: Bytes, b: Bytes, budget: nat)
    requires ReadVarint(a, budget).Ok?
    ensures ReadVarint(a + b, budget) == ReadVarint(a, budget)
    decreases budget
  {
    if a[0] >= 128 {
      ReadVarintLocal(a[1..], b, budget - 1);
      assert (a + b)[1..] == a[1..] + b;
    }
  }

  function Groups(n: nat): nat {
    if n == 0 then 1 else 128 * Groups(n - 1)
  }

  lemma {:induction false} ReadsBack(v: nat, rest: Bytes, budget: nat)
    requires v < Groups(budget) && budget > 0
    ensures ReadVarint(Varint(v) + rest, budget) == Ok(Read(v, |Varint(v)|))
    decreases budget
  {
    var s := Varint(v) + rest;
    assert s[0] == Varint(v)[0];
    if v >= 128 {
      ReadsBack(v / 128, rest, budget - 1);
      assert s[1..] == Varint(v / 128) + rest;
      assert Group(s[0]) == v % 128;
    }
  }

  /** Every 64-bit value is read back from its varint, whatever follows it. */
  lemma VarintRoundTrip(v: nat, rest: Bytes)
    requires v < TwoTo64
    ensures GetVarint(Varint(v) + rest) == Ok(Read(v, |Varint(v)|))
  {
    assert Groups(10) == 128 * 128 * 128 * 128 * 128 * Groups(5);
    ReadsBack(v, rest, 10);
  }

  /** The number of bytes of x as a varint. */
  method SovMixnet(x: nat) returns (n: nat)
    ensures n == |Varint(x)|
  {
    n := 0;
    var v := x;
    while true
      invariant n + |Varint(v)| == |Varint(x)|
      decreases v
    {
      n := n + 1;
      v := v / 128;
      if v == 0 {
        break;
      }
    }
  }

  /** What an array holds after a piece is written at an offset of what it held. */
  function Written(was: Bytes, offset: nat, piece: Bytes): Bytes
    requires offset + |piece| <= |was|
  {
    was[..offset] + piece + was[offset + |piece|..]
  }

  lemma WrittenOn(was: Bytes, offset: nat, a: Bytes, b: Bytes)
    requires offset + |a| + |b| <= |was|
    ensures Written(Written(was, offset, a), offset + |a|, b) == Written(was, offset, a + b)
  {
    assert Written(was, offset, a)[..offset + |a|] == was[..offset] + a;
    assert Written(was, offset, a)[offset + |a| + |b|..] == was[offset + |a| + |b|..];
  }

  /** Writes v at the offset, and leaves everything else as it was. */
  method EncodeVarintMixnet(a: array<byte>, offset: nat, v: nat) returns (end: nat)
    requires offset + |Varint(v)| <= a.Length
    modifies a
    ensures end == offset + |Varint(v)|
    ensures a[..] == Written(old(a[..]), offset, Varint(v))
  {
    ghost var was := a[..];
    ghost var done: Bytes := [];
    var i, w := offset, v;
    assert a[..] == Written(was, offset, done);
    while w >= 128
      invariant i == offset + |done| && done + Varint(w) == Varint(v)
      invariant a[..] == Written(was, offset, done)
    {
      VarintOn(done, w);
      var b: byte := w % 128 + 128;
      PutByte(a, i, b, was, offset, done);
      done := done + [b];
      w := w / 128;
      i := i + 1;
    }
    assert Varint(w) == [w];
    PutByte(a, i, w, was, offset, done);
    end := i + 1;
  }

  lemma VarintOn(done: Bytes, w: nat)
    requires w >= 128
    ensures w % 128 + 128 < 256 && done + Varint(w) == done + [w % 128 + 128] + Varint(w / 128)
  {
    Appended(done, w % 128 + 128, Varint(w / 128));
  }

  lemma Appended(done: Bytes, b: byte, rest: Bytes)
    ensures done + ([b] + rest) == done + [b] + rest
  {
  }

  /** Writes one byte after what has been written. */
  method PutByte(a: array<byte>, i: nat, b: byte, ghost was: Bytes, ghost offset: nat, ghost done: Bytes)
    requires i == offset + |done| < a.Length == |was| && a[..] == Written(was, offset, done)
    modifies a
    ensures a[..] == Written(was, offset, done + [b])
  {
    a[i] := b;
    assert a[..] == Written(Written(was, offset, done), i, [b]);
    WrittenOn(was, offset, done, [b]);
  }

  /**
   * Reads a varint at position i: the groups of seven bits are combined by shifts, so the
   * accumulator is a sum of disjoint parts. Integers are unbounded here; where the code
   * accumulates in a 32-bit or 64-bit variable, the caller takes the value modulo its width.
   */
  method ReadVarintAt(s: Bytes, i: nat) returns (r: Result<Read, PbError>)
    requires i <= |s|
    ensures r == GetVarint(s[i..])
  {
    var k: nat, acc: nat, scale: nat, pos: nat := 0, 0, 1, i;
    ghost var rest := s[i..];
    while true
      invariant k <= 10 && pos == i + k <= |s| && rest == s[pos..]
      invariant Continues(s[i..], rest, acc, scale, k)
      decreases 10 - k
    {
      if 7 * k >= 64 {
        return Err(IntOverflow);
      }
      if pos >= |s| {
        return Err(UnexpectedEof);
      }
      var b := s[pos];
      ContinuesOn(s[i..], rest, acc, scale, k);
      pos, rest := pos + 1, rest[1..];
      acc := Or(acc, Group(b), scale);
      if b < 128 {
        return Ok(Read(acc, pos - i));
      }
      k, scale := k + 1, scale * 128;
    }
  }

  /** The accumulator with a group put at the place where it has only zeros. */
  function Or(acc: nat, group: nat, scale: nat): nat {
    acc + group * scale
  }

  /** After k groups the result is the accumulator plus what the rest reads as, scaled. */
  ghost predicate Continues(whole: Bytes, rest: Bytes, acc: nat, scale: nat, k: nat) {
    k <= 10 && GetVarint(whole) == match ReadVarint(rest, 10 - k)
      case Err(e) => Err(e)
      case Ok(Read(v, n)) => Ok(Read(Or(acc, v, scale), n + k))
  }

  lemma ContinuesOn(whole: Bytes, rest: Bytes, acc: nat, scale: nat, k: nat)
    requires Continues(whole, rest, acc, scale, k) && k < 10 && rest != []
    ensures rest[0] < 128 ==> GetVarint(whole) == Ok(Read(Or(acc, Group(rest[0]), scale), k + 1))
    ensures rest[0] >= 128 ==> Continues(whole, rest[1..], Or(acc, Group(rest[0]), scale), scale * 128, k + 1)
  {
    if rest[0] >= 128 {
      match ReadVarint(rest[1..], 9 - k)
      case Err(_) =>
      case Ok(Read(v, _)) => Scaled(Group(rest[0]), v, scale);
    }
  }

  lemma Scaled(low: nat, v: nat, scale: nat)
    ensures (low + 128 * v) * scale == low * scale + v * (scale * 128)
  {
  }
}
