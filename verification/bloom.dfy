/** The Bloom filter: bits in a byte array, set and tested at hashed positions. */
module Bloom {
  import opened Base

  /** SipHash-2-4-128 of some bytes under the key (i, 666666): its two 64-bit words. */
  type SipHash = (nat, Bytes) -> (nat, nat)

  /** 1 << k */
  function Mask(k: nat): bv8
    requires k < 8
  {
    if k == 0 then 1 else if k == 1 then 2 else if k == 2 then 4 else if k == 3 then 8
    else if k == 4 then 16 else if k == 5 then 32 else if k == 6 then 64 else 128
  }

  predicate Bit(b: byte, k: nat)
    requires k < 8
  {
    (b as bv8) & Mask(k) != 0
  }

  /** A byte with one more bit set. */
  function OrBit(b: byte, k: nat): (r: byte)
    requires k < 8
    ensures forall j :: 0 <= j < 8 ==> (Bit(r, j) <==> Bit(b, j) || j == k)
  {
    MaskOr(b as bv8, k);
    ((b as bv8) | Mask(k)) as byte
  }

  lemma MaskOr(b: bv8, k: nat)
    requires k < 8
    ensures forall j :: 0 <= j < 8 ==> ((b | Mask(k)) & Mask(j) != 0 <==> b & Mask(j) != 0 || j == k)
  {
  }

  predicate BitAt(data: Bytes, bit: nat)
    requires bit < 8 * |data|
  {
    Bit(data[bit / 8], bit % 8)
  }

  /** The i-th 32-bit hash of x. */
  function HashWord(sip: SipHash, x: Bytes, i: nat): (w: nat)
    ensures w < TwoTo32
  {
    var words := sip(i / 4, x);
    if i % 4 == 0 then words.0 % TwoTo32
    else if i % 4 == 1 then words.0 / TwoTo32 % TwoTo32
    else if i % 4 == 2 then words.1 % TwoTo32
    else words.1 / TwoTo32 % TwoTo32
  }

  /** The number of bits, as the code's uint32 has it. */
  function BitCount(len: nat): nat {
    len * 8 % TwoTo32
  }

  /** The bit that the i-th hash of x stands for in a filter of len bytes. */
  function Position(sip: SipHash, x: Bytes, i: nat, len: nat): (bit: nat)
    requires BitCount(len) > 0
    ensures bit < 8 * len
  {
    HashWord(sip, x, i) % BitCount(len)
  }

  /** The filter has a bit for every hash: it has bits, or there is no hash. */
  predicate Usable(numHashes: nat, len: nat) {
    numHashes == 0 || BitCount(len) > 0
  }

  /** All the bits of x are set. */
  ghost predicate Covers(sip: SipHash, data: Bytes, numHashes: nat, x: Bytes)
    requires Usable(numHashes, |data|)
  {
    forall i :: 0 <= i < numHashes ==> BitAt(data, Position(sip, x, i, |data|))
  }

  /** One of the first n bits of x is this one. */
  ghost predicate HasPosition(sip: SipHash, x: Bytes, n: nat, len: nat, bit: nat)
    requires BitCount(len) > 0
  {
    exists i :: 0 <= i < n && Position(sip, x, i, len) == bit
  }

  /** The data are those of before with the bits of x set too. */
  ghost predicate Added(sip: SipHash, was: Bytes, data: Bytes, numHashes: nat, x: Bytes)
    requires BitCount(|was|) > 0
  {
    && |data| == |was|
    && forall bit {:trigger BitAt(data, bit)} :: 0 <= bit < 8 * |was| ==>
      (BitAt(data, bit) <==> BitAt(was, bit) || HasPosition(sip, x, numHashes, |was|, bit))
  }

  /** The bits are exactly those of the elements. */
  ghost predicate Represents(sip: SipHash, data: Bytes, numHashes: nat, elements: seq<Bytes>)
    requires BitCount(|data|) > 0
  {
    forall bit {:trigger BitAt(data, bit)} :: 0 <= bit < 8 * |data| ==>
      (BitAt(data, bit) <==> SomePosition(sip, elements, numHashes, |data|, bit))
  }

  ghost predicate SomePosition(sip: SipHash, elements: seq<Bytes>, numHashes: nat, len: nat, bit: nat)
    requires BitCount(len) > 0
  {
    exists e :: 0 <= e < |elements| && HasPosition(sip, elements[e], numHashes, len, bit)
  }

  lemma SomePositionOn(sip: SipHash, elements: seq<Bytes>, x: Bytes, numHashes: nat, len: nat, bit: nat)
    requires BitCount(len) > 0
    ensures SomePosition(sip, elements + [x], numHashes, len, bit)
      <==> SomePosition(sip, elements, numHashes, len, bit) || HasPosition(sip, x, numHashes, len, bit)
  {
    var more := elements + [x];
    if HasPosition(sip, x, numHashes, len, bit) {
      assert HasPosition(sip, more[|elements|], numHashes, len, bit);
    }
    if e :| 0 <= e < |elements| && HasPosition(sip, elements[e], numHashes, len, bit) {
      assert HasPosition(sip, more[e], numHashes, len, bit);
    }
    if e :| 0 <= e < |more| && HasPosition(sip, more[e], numHashes, len, bit) {
      assert e < |elements| ==> HasPosition(sip, elements[e], numHashes, len, bit);
    }
  }

  /** Adding an element to a filter of some elements gives the filter of one more. */
  lemma RepresentsOn(sip: SipHash, was: Bytes, data: Bytes, numHashes: nat, elements: seq<Bytes>, x: Bytes)
    requires BitCount(|was|) > 0 && Represents(sip, was, numHashes, elements) && Added(sip, was, data, numHashes, x)
    ensures Represents(sip, data, numHashes, elements + [x])
  {
    forall bit | 0 <= bit < 8 * |data|
      ensures BitAt(data, bit) <==> SomePosition(sip, elements + [x], numHashes, |data|, bit)
    {
      SomePositionOn(sip, elements, x, numHashes, |data|, bit);
      assert BitAt(was, bit) <==> SomePosition(sip, elements, numHashes, |was|, bit);
    }
  }

  /** No element of a filter is ever missed. */
  lemma NoFalseNegatives(sip: SipHash, data: Bytes, numHashes: nat, elements: seq<Bytes>, e: nat)
    requires BitCount(|data|) > 0 && Represents(sip, data, numHashes, elements) && e < |elements|
    ensures Covers(sip, data, numHashes, elements[e])
  {
    forall i | 0 <= i < numHashes ensures BitAt(data, Position(sip, elements[e], i, |data|)) {
      assert HasPosition(sip, elements[e], numHashes, |data|, Position(sip, elements[e], i, |data|));
      assert SomePosition(sip, elements, numHashes, |data|, Position(sip, elements[e], i, |data|));
    }
  }

  /** The first numHashes hashes, filled in four at a time. */
  method Hash(sip: SipHash, x: Bytes, numHashes: nat) returns (hs: seq<nat>)
    ensures |hs| == numHashes && forall i :: 0 <= i < numHashes ==> hs[i] == HashWord(sip, x, i)
  {
    var res := new nat[numHashes + 3](_ => 0);
    for i := 0 to (numHashes + 3) / 4
      invariant forall j :: 0 <= j < 4 * i ==> res[j] == HashWord(sip, x, j)
    {
      var (h1, h2) := sip(i, x);
      res[i * 4] := h1 % TwoTo32;
      res[i * 4 + 1] := h1 / TwoTo32 % TwoTo32;
      res[i * 4 + 2] := h2 % TwoTo32;
      res[i * 4 + 3] := h2 / TwoTo32 % TwoTo32;
    }
    hs := res[..numHashes];
  }

  class Filter {
    const sip: SipHash
    var numHashes: nat
    var data: array<byte>

    constructor (sip: SipHash, sizeBits: nat, numHashes: nat)
      ensures this.sip == sip && this.numHashes == numHashes && fresh(data)
      ensures data[..] == Zeros((sizeBits + 7) / 8)
    {
      this.sip, this.numHashes := sip, numHashes;
      this.data := new byte[(sizeBits + 7) / 8](_ => 0);
    }

    /** Sets the bits of x, and no others. */
    method Set(x: Bytes)
      requires BitCount(data.Length) > 0
      modifies data
      ensures Added(sip, old(data[..]), data[..], numHashes, x)
    {
      var hs := Hash(sip, x, numHashes);
      var n := BitCount(data.Length);
      ghost var was := data[..];
      for i := 0 to |hs|
        invariant Added(sip, was, data[..], i, x)
      {
        ghost var before := data[..];
        var bit := hs[i] % n;
        data[bit / 8] := OrBit(data[bit / 8], bit % 8);
        assert data[..] == before[bit / 8 := OrBit(before[bit / 8], bit % 8)];
        BitAdded(sip, was, before, data[..], i, x);
      }
    }

    /** Whether all the bits of x are set. */
    method Test(x: Bytes) returns (ok: bool)
      requires Usable(numHashes, data.Length)
      ensures ok <==> Covers(sip, data[..], numHashes, x)
    {
      var hs := Hash(sip, x, numHashes);
      var n := BitCount(data.Length);
      assert |hs| > 0 ==> n > 0;
      for i := 0 to |hs|
        invariant forall j :: 0 <= j < i ==> BitAt(data[..], Position(sip, x, j, data.Length))
      {
        var bit := hs[i] % n;
        assert bit == Position(sip, x, i, data.Length) && BitAt(data[..], bit) == Bit(data[bit / 8], bit % 8);
        if !Bit(data[bit / 8], bit % 8) {
          return false;
        }
      }
      return true;
    }

    /** The number of hashes as a 32-bit word, then the bytes. */
    method MarshalBinary() returns (s: Bytes)
      ensures s == Marshalled(numHashes, data[..])
    {
      s := PutUint32(numHashes % TwoTo32) + data[..];
    }

    /** Replaces the filter by the one that some bytes hold; the code keeps a slice of them, here it is a copy. */
    method UnmarshalBinary(s: Bytes) returns (ok: bool)
      modifies this
      ensures ok <==> |s| >= 4
      ensures ok ==> numHashes == BigEndian(s[..4]) && data[..] == s[4..] && fresh(data)
      ensures !ok ==> numHashes == old(numHashes) && data == old(data)
    {
      if |s| < 4 {
        return false;
      }
      numHashes := BigEndian(s[..4]);
      data := new byte[|s| - 4](i requires 0 <= i < |s| - 4 => s[4 + i]);
      return true;
    }
  }

  lemma BitAdded(sip: SipHash, was: Bytes, before: Bytes, data: Bytes, i: nat, x: Bytes)
    requires BitCount(|was|) > 0 && Added(sip, was, before, i, x)
    requires var bit := Position(sip, x, i, |was|); data == before[bit / 8 := OrBit(before[bit / 8], bit % 8)]
    ensures Added(sip, was, data, i + 1, x)
  {
    var at := Position(sip, x, i, |was|);
    forall bit | 0 <= bit < 8 * |was|
      ensures BitAt(data, bit) <==> BitAt(was, bit) || HasPosition(sip, x, i + 1, |was|, bit)
    {
      assert BitAt(data, bit) <==> BitAt(before, bit) || bit == at;
      assert HasPosition(sip, x, i + 1, |was|, bit) <==> HasPosition(sip, x, i, |was|, bit) || bit == at;
    }
  }

  function Marshalled(numHashes: nat, data: Bytes): Bytes {
    PutUint32(numHashes % TwoTo32) + data
  }

  /** A filter with fewer than 2^32 hashes is read back from its bytes. */
  lemma FilterRoundTrip(numHashes: nat, data: Bytes)
    requires numHashes < TwoTo32
    ensures var s := Marshalled(numHashes, data); |s| >= 4 && BigEndian(s[..4]) == numHashes && s[4..] == data
  {
    LowWord(numHashes);
    PutUint32RoundTrip(numHashes);
    HeadSplits(PutUint32(numHashes), data);
  }

  lemma LowWord(v: nat)
    requires v < TwoTo32
    ensures v % TwoTo32 == v
  {
  }

  lemma HeadSplits(head: Bytes, data: Bytes)
    ensures (head + data)[..|head|] == head && (head + data)[|head|..] == data
  {
  }

  /** An empty filter represents no elements. */
  lemma EmptyFilter(sip: SipHash, len: nat, numHashes: nat)
    requires BitCount(len) > 0
    ensures Represents(sip, Zeros(len), numHashes, [])
  {
    forall bit | 0 <= bit < 8 * len ensures !BitAt(Zeros(len), bit) {
    }
  }
}
