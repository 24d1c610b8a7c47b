/** Values shared by the models: bytes, optional results and big-endian words. */
module Base {
  type byte = x: int | 0 <= x < 256
  type Bytes = seq<byte>

  const TwoTo32: nat := 0x1_0000_0000

  datatype Option<+T> = None | Some(value: T)
  datatype Result<+T, +E> = Ok(value: T) | Err(error: E)

  /** A list without the element at one place. */
  function Without<T>(s: seq<T>, k: nat): seq<T>
    requires k < |s|
  {
    s[..k] + s[k + 1..]
  }

  predicate Distinct<T(==)>(s: seq<T>) {
    forall i, j :: 0 <= i < j < |s| ==> s[i] != s[j]
  }

  /** A mention of a number. What is stated for every mention is only unfolded where a proof makes one. */
  predicate Unfold(k: nat) { true }

  function Zeros(n: nat): Bytes {
    seq(n, _ => 0)
  }

  /** The big-endian value of a byte string (binary.BigEndian.Uint64 on eight bytes). */
  function BigEndian(s: Bytes): nat {
    if s == [] then 0 else BigEndian(s[..|s| - 1]) * 256 + s[|s| - 1]
  }

  /** Byte strings of one length with the same big-endian value are equal. */
  lemma {:induction false} BigEndianInjective(a: Bytes, b: Bytes)
    requires |a| == |b| && BigEndian(a) == BigEndian(b)
    ensures a == b
  {
    if a != [] {
      BigEndianInjective(a[..|a| - 1], b[..|b| - 1]);
      assert a == a[..|a| - 1] + [a[|a| - 1]];
      assert b == b[..|b| - 1] + [b[|b| - 1]];
    }
  }

  /** The four big-endian bytes of a 32-bit word (binary.BigEndian.PutUint32). */
  function PutUint32(v: nat): (s: Bytes)
    requires v < TwoTo32
    ensures |s| == 4
  {
    [v / 256 / 256 / 256, v / 256 / 256 % 256, v / 256 % 256, v % 256]
  }

  lemma PutUint32RoundTrip(v: nat)
    requires v < TwoTo32
    ensures BigEndian(PutUint32(v)) == v
  {
    var a, b, c, d: byte := v / 256 / 256 / 256, v / 256 / 256 % 256, v / 256 % 256, v % 256;
    BigEndianSnoc([], a);
    BigEndianSnoc([a], b);
    BigEndianSnoc([a, b], c);
    BigEndianSnoc([a, b, c], d);
    assert [] + [a] == [a] && [a] + [b] == [a, b] && [a, b] + [c] == [a, b, c];
    assert PutUint32(v) == [a, b, c] + [d];
  }

  lemma BigEndianSnoc(s: Bytes, b: byte)
    ensures BigEndian(s + [b]) == BigEndian(s) * 256 + b
  {
    assert (s + [b])[..|s|] == s;
  }
}
