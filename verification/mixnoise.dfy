/** The noise that a mixer of the add-friend or the dialing service adds to a round. */
module MixNoise {
  import opened Base
  import opened MixChain
  import opened MixRouting

  /** How many messages the first mailboxes get, by the numbers drawn for them. */
  function Total(draws: seq<nat>, n: nat): nat
    requires n <= |draws|
  {
    if n == 0 then 0 else Total(draws, n - 1) + draws[n - 1]
  }

  function Repeat(x: nat, k: nat): (r: seq<nat>)
    ensures |r| == k && forall i :: 0 <= i < k ==> r[i] == x
  {
    if k == 0 then [] else Repeat(x, k - 1) + [x]
  }

  /** The mailboxes of those messages, in order. */
  function Slots(draws: seq<nat>, n: nat): (r: seq<nat>)
    requires n <= |draws|
    ensures |r| == Total(draws, n) && forall i :: 0 <= i < |r| ==> r[i] < n
  {
    if n == 0 then [] else Slots(draws, n - 1) + Repeat(n - 1, draws[n - 1])
  }

  lemma {:induction false} TotalGrows(draws: seq<nat>, n: nat, m: nat)
    requires n <= m <= |draws|
    ensures Total(draws, n) <= Total(draws, m)
    decreases m - n
  {
    if n < m {
      TotalGrows(draws, n, m - 1);
    }
  }

  /** How often a mailbox is in a list. */
  function CountOf(s: seq<nat>, b: nat): nat {
    if s == [] then 0 else CountOf(s[..|s| - 1], b) + if s[|s| - 1] == b then 1 else 0
  }

  lemma {:induction false} CountAppend(s: seq<nat>, x: nat, k: nat, b: nat)
    ensures CountOf(s + Repeat(x, k), b) == CountOf(s, b) + if x == b then k else 0
    decreases k
  {
    if k == 0 {
      assert s + Repeat(x, 0) == s;
    } else {
      CountAppend(s, x, k - 1, b);
      var t := s + Repeat(x, k);
      assert t[..|t| - 1] == s + Repeat(x, k - 1);
    }
  }

  /** Each mailbox gets exactly as many messages as were drawn for it. */
  lemma {:induction false} SlotsCount(draws: seq<nat>, n: nat, b: nat)
    requires n <= |draws|
    ensures CountOf(Slots(draws, n), b) == if b < n then draws[b] else 0
    decreases n
  {
    if n > 0 {
      SlotsCount(draws, n - 1, b);
      CountAppend(Slots(draws, n - 1), n - 1, draws[n - 1], b);
    }
  }

  /** A noise message for a mailbox: to mailbox 0 it is all zeros, to any other it ends in random bytes. */
  predicate NoiseMessage(size: nat, mailbox: nat, msg: Bytes) {
    && 4 <= size == |msg| && mailbox < TwoTo32 && msg[..4] == PutUint32(mailbox)
    && (mailbox == 0 ==> msg == Zeros(size))
  }

  /** Onion i is a noise message for its mailbox, sealed for the mixers that follow. */
  ghost predicate SealedNoise(p: Params, keys: seq<Bytes>, mailbox: nat, onion: Bytes) {
    p.round < TwoTo32 && exists msg, eph ::
      NoiseMessage(p.sizeIncoming, mailbox, msg) && |eph| == |keys| && onion == SealOnion(p, msg, keys, eph)
  }

  /**
   * Draws a number of messages for every mailbox, 0 among them, and seals them all. The total is counted
   * in 32 bits: when it wraps, the list of mailboxes is too short and writing it panics, and only then.
   */
  method GenerateNoise(p: Params, keys: seq<Bytes>, draws: seq<nat>, random: nat -> Bytes,
                       ephemerals: nat -> seq<Bytes>)
    returns (r: Option<seq<Bytes>>)
    requires p.round < TwoTo32 && p.sizeIncoming >= 4 && |draws| <= TwoTo32
    requires forall i :: |random(i)| == p.sizeIncoming - 4
    requires forall i :: |ephemerals(i)| == |keys|
    ensures r == None <==> Total(draws, |draws|) >= TwoTo32
    ensures r.Some? ==> |r.value| == Total(draws, |draws|)
    ensures r.Some? ==> forall i :: 0 <= i < |r.value| ==> SealedNoise(p, keys, Slots(draws, |draws|)[i], r.value[i])
  {
    var noiseTotal := CountNoise(draws);
    var mailbox := new nat[noiseTotal];
    var ok := FillMailboxes(draws, mailbox);
    if !ok {
      return None;
    }
    var noise := SealNoise(p, keys, mailbox[..], random, ephemerals);
    return Some(noise);
  }

  method SealNoise(p: Params, keys: seq<Bytes>, mailbox: seq<nat>, random: nat -> Bytes, ephemerals: nat -> seq<Bytes>)
    returns (noise: seq<Bytes>)
    requires p.round < TwoTo32 && p.sizeIncoming >= 4 && forall i :: 0 <= i < |mailbox| ==> mailbox[i] < TwoTo32
    requires forall i :: |random(i)| == p.sizeIncoming - 4
    requires forall i :: |ephemerals(i)| == |keys|
    ensures |noise| == |mailbox| && forall i :: 0 <= i < |noise| ==> SealedNoise(p, keys, mailbox[i], noise[i])
  {
    var out := new Bytes[|mailbox|](_ => []);
    for i := 0 to out.Length
      invariant forall j :: 0 <= j < i ==> SealedNoise(p, keys, mailbox[j], out[j])
    {
      var msg := MakeMessage(p.sizeIncoming, mailbox[i], random(i));
      var onion := SealOnion(p, msg, keys, ephemerals(i));
      assert SealedNoise(p, keys, mailbox[i], onion);
      out[i] := onion;
    }
    return out[..];
  }

  method MakeMessage(size: nat, mailbox: nat, random: Bytes) returns (msg: Bytes)
    requires size >= 4 && |random| == size - 4 && mailbox < TwoTo32
    ensures NoiseMessage(size, mailbox, msg)
  {
    msg := PutUint32(mailbox) + if mailbox != 0 then random else Zeros(size - 4);
    assert mailbox == 0 ==> msg == Zeros(size);
  }

  method CountNoise(draws: seq<nat>) returns (noiseTotal: nat)
    ensures noiseTotal == Total(draws, |draws|) % TwoTo32
  {
    noiseTotal := 0;
    for b := 0 to |draws|
      invariant noiseTotal == Total(draws, b) % TwoTo32
    {
      WrapAdd(Total(draws, b), draws[b]);
      noiseTotal := (noiseTotal + draws[b]) % TwoTo32;
    }
  }

  lemma WrapAdd(a: nat, b: nat)
    ensures (a % TwoTo32 + b) % TwoTo32 == (a + b) % TwoTo32
  {
    assert a + b == a % TwoTo32 + b + TwoTo32 * (a / TwoTo32);
    WrapAway(a % TwoTo32 + b, a / TwoTo32);
  }

  lemma {:induction false} WrapAway(x: nat, k: nat)
    ensures (x + TwoTo32 * k) % TwoTo32 == x % TwoTo32
    decreases k
  {
    if k > 0 {
      WrapAway(x, k - 1);
      assert x + TwoTo32 * k == x + TwoTo32 * (k - 1) + TwoTo32;
    }
  }

  /** Writes the mailbox of every message; false is a write outside of the list. */
  method FillMailboxes(draws: seq<nat>, mailbox: array<nat>) returns (ok: bool)
    requires mailbox.Length <= Total(draws, |draws|)
    modifies mailbox
    ensures ok <==> mailbox.Length == Total(draws, |draws|)
    ensures ok ==> mailbox[..] == Slots(draws, |draws|)
  {
    var idx := 0;
    for b := 0 to |draws|
      invariant idx == Total(draws, b) <= mailbox.Length && mailbox[..idx] == Slots(draws, b)
    {
      for i := 0 to draws[b]
        invariant idx == Total(draws, b) + i <= mailbox.Length && mailbox[..idx] == Slots(draws, b) + Repeat(b, i)
      {
        if idx >= mailbox.Length {
          TotalGrows(draws, b + 1, |draws|);
          return false;
        }
        mailbox[idx] := b;
        assert mailbox[..idx + 1] == mailbox[..idx] + [b];
        assert Repeat(b, i + 1) == Repeat(b, i) + [b];
        idx := idx + 1;
      }
    }
    assert mailbox[..mailbox.Length] == mailbox[..];
    return true;
  }

  /** The onion is noise of some mailbox for the mixers that follow. */
  ghost predicate IsNoise(p: Params, next: seq<Mixer>, onion: Bytes) {
    exists mailbox :: SealedNoise(p, OnionKeys(p, next), mailbox, onion)
  }

  lemma NoiseIsHonest(p: Params, next: seq<Mixer>, onion: Bytes)
    requires IsNoise(p, next, onion)
    ensures p.round < TwoTo32 && NoiseOnion(p, next, onion)
  {
    var mailbox :| SealedNoise(p, OnionKeys(p, next), mailbox, onion);
    var msg, eph :| NoiseMessage(p.sizeIncoming, mailbox, msg) && |eph| == |OnionKeys(p, next)|
      && onion == SealOnion(p, msg, OnionKeys(p, next), eph);
  }

  /** What each mixer generates is honest noise. */
  lemma GeneratedIsHonest(p: Params, hops: seq<Mixer>)
    requires p.round < TwoTo32
    requires forall h, k :: 0 <= h < |hops| && 0 <= k < |hops[h].noise| ==> IsNoise(p, hops[h + 1..], hops[h].noise[k])
    ensures HonestNoise(p, hops)
  {
    forall h, k | 0 <= h < |hops| && 0 <= k < |hops[h].noise| ensures NoiseOnion(p, hops[h + 1..], hops[h].noise[k]) {
      NoiseIsHonest(p, hops[h + 1..], hops[h].noise[k]);
    }
  }
}
