/**
 * The mix chain as a function of its inputs: what one hop does to a batch of
 * onions and to the replies that come back, and what a chain of hops does.
 * The round state machine that computes these functions in place is in MixRound.
 */
module MixChain {
  import opened Base

  /** NaCl box overhead: the Poly1305 tag. */
  const BoxOverhead: nat := 16
  /** An onion layer is a 32-byte ephemeral public key followed by a box. */
  const KeySize: nat := 32
  const OnionOverhead: nat := KeySize + BoxOverhead

  /** NaCl box, as the mixers use it. */
  datatype Crypto = Crypto(
    publicKey: Bytes -> Bytes,
    precompute: (Bytes, Bytes) -> Bytes,
    seal: (Bytes, Bytes, Bytes) -> Bytes,
    open: (Bytes, Bytes, Bytes) -> Option<Bytes>)
  {
    ghost predicate Lawful() {
      && (forall m, n, k :: open(seal(m, n, k), n, k) == Some(m))
      && (forall m, n, k :: |seal(m, n, k)| == |m| + BoxOverhead)
      && (forall c, n, k :: open(c, n, k).Some? ==> |c| == |open(c, n, k).value| + BoxOverhead)
      && (forall a :: |publicKey(a)| == KeySize)
      && (forall a, b :: precompute(publicKey(a), b) == precompute(publicKey(b), a))
    }
  }

  function ForwardNonce(round: nat): Bytes
    requires round < TwoTo32
  {
    PutUint32(round) + [0] + Zeros(19)
  }

  function BackwardNonce(round: nat): Bytes
    requires round < TwoTo32
  {
    PutUint32(round) + [1] + Zeros(19)
  }

  /** A permutation of n slots and its inverse. */
  datatype Shuffler = Shuffler(to: seq<nat>, from: seq<nat>) {
    ghost predicate Valid(n: nat) {
      && |to| == n && |from| == n
      && (forall i :: 0 <= i < n ==> to[i] < n && from[to[i]] == i)
      && (forall i :: 0 <= i < n ==> from[i] < n && to[from[i]] == i)
    }

    function Shuffle<T>(s: seq<T>): (r: seq<T>)
      requires Valid(|s|)
      ensures |r| == |s|
      ensures forall i :: 0 <= i < |s| ==> r[to[i]] == s[i]
    {
      seq(|s|, k requires 0 <= k < |s| => s[from[k]])
    }

    function Unshuffle<T>(s: seq<T>): (r: seq<T>)
      requires Valid(|s|)
      ensures |r| == |s|
      ensures forall i :: 0 <= i < |s| ==> r[i] == s[to[i]]
    {
      seq(|s|, k requires 0 <= k < |s| => s[to[k]])
    }
  }

  /** What is fixed for a round of one service. */
  datatype Params = Params(crypto: Crypto, round: nat, sizeIncoming: nat, sizeReply: nat) {
    ghost predicate Valid() {
      crypto.Lawful() && round < TwoTo32 && sizeIncoming >= 8
    }
  }

  /**
   * One mixer with the choices it makes in a round: its noise, its permutation
   * for every batch size and the fresh key it draws for every slot.
   */
  datatype Mixer = Mixer(priv: Bytes, noise: seq<Bytes>, shuffle: nat -> Shuffler, freshKey: nat -> Bytes) {
    ghost predicate Valid() {
      forall n :: shuffle(n).Valid(n)
    }
  }

  ghost predicate ValidChain(p: Params, hops: seq<Mixer>) {
    p.Valid() && |hops| > 0 && forall h :: 0 <= h < |hops| ==> hops[h].Valid()
  }

  /** The onion size a mixer with hopsLeft mixers from itself to the end accepts. */
  function OnionSize(p: Params, hopsLeft: nat): nat {
    hopsLeft * OnionOverhead + p.sizeIncoming
  }

  /** The size of the replies such a mixer seals. */
  function ReplyMsgSize(p: Params, hopsLeft: nat): nat
    requires hopsLeft > 0
  {
    (hopsLeft - 1) * BoxOverhead + p.sizeReply
  }

  /** The key a slot's onion shares with the mixer. */
  function SlotKey(p: Params, m: Mixer, onion: Bytes): Bytes
    requires |onion| >= KeySize
  {
    p.crypto.precompute(onion[..KeySize], m.priv)
  }

  /** The message a mixer finds in one onion: None when the size is wrong or the box does not open. */
  function OpenOnion(p: Params, m: Mixer, hopsLeft: nat, onion: Bytes): Option<Bytes>
    requires p.round < TwoTo32 && hopsLeft > 0
  {
    if |onion| != OnionSize(p, hopsLeft) then None
    else p.crypto.open(onion[KeySize..], ForwardNonce(p.round), SlotKey(p, m, onion))
  }

  function OpenAll(p: Params, m: Mixer, hopsLeft: nat, batch: seq<Bytes>): (r: seq<Option<Bytes>>)
    requires p.round < TwoTo32 && hopsLeft > 0
    ensures |r| == |batch|
  {
    seq(|batch|, i requires 0 <= i < |batch| => OpenOnion(p, m, hopsLeft, batch[i]))
  }

  /** Opened messages all carry the eight bytes that filtering reads. */
  ghost predicate Readable(incoming: seq<Option<Bytes>>) {
    forall i :: 0 <= i < |incoming| && incoming[i].Some? ==> |incoming[i].value| >= 8
  }

  /** The deduplication key: the last eight bytes as a big-endian word. */
  function DedupKey(msg: Bytes): nat
    requires |msg| >= 8
  {
    BigEndian(msg[|msg| - 8..])
  }

  /** Slot i opened, and no earlier slot opened to the same deduplication key. */
  ghost predicate Kept(incoming: seq<Option<Bytes>>, i: nat)
    requires Readable(incoming) && i < |incoming|
  {
    && incoming[i].Some?
    && forall j :: 0 <= j < i && incoming[j].Some? ==> DedupKey(incoming[j].value) != DedupKey(incoming[i].value)
  }

  /** The messages kept among the first n slots, in slot order. */
  ghost function KeptMessages(incoming: seq<Option<Bytes>>, n: nat): (r: seq<Bytes>)
    requires Readable(incoming) && n <= |incoming|
    ensures |r| <= n
  {
    if n == 0 then []
    else KeptMessages(incoming, n - 1) + (if Kept(incoming, n - 1) then [incoming[n - 1].value] else [])
  }

  ghost function AllKept(incoming: seq<Option<Bytes>>): seq<Bytes>
    requires Readable(incoming)
  {
    KeptMessages(incoming, |incoming|)
  }

  /** The slot that the j-th kept message among the first n slots came from. */
  ghost function SlotOf(incoming: seq<Option<Bytes>>, n: nat, j: nat): (i: nat)
    requires Readable(incoming) && n <= |incoming| && j < |KeptMessages(incoming, n)|
    ensures i < n && Kept(incoming, i) && |KeptMessages(incoming, i)| == j
    ensures KeptMessages(incoming, n)[j] == incoming[i].value
  {
    if Kept(incoming, n - 1) && j == |KeptMessages(incoming, n - 1)| then n - 1
    else SlotOf(incoming, n - 1, j)
  }

  /** A kept slot's message sits at the index counting the kept slots before it. */
  lemma {:induction false} KeptAt(incoming: seq<Option<Bytes>>, n: nat, i: nat)
    requires Readable(incoming) && i < n <= |incoming| && Kept(incoming, i)
    ensures |KeptMessages(incoming, i)| < |KeptMessages(incoming, n)|
    ensures KeptMessages(incoming, n)[|KeptMessages(incoming, i)|] == incoming[i].value
    ensures SlotOf(incoming, n, |KeptMessages(incoming, i)|) == i
  {
    if i < n - 1 {
      KeptAt(incoming, n - 1, i);
    }
  }

  lemma OpenedReadable(p: Params, m: Mixer, hopsLeft: nat, batch: seq<Bytes>)
    requires p.Valid() && hopsLeft > 0
    ensures Readable(OpenAll(p, m, hopsLeft, batch))
    ensures forall i :: 0 <= i < |batch| && OpenAll(p, m, hopsLeft, batch)[i].Some? ==>
      |OpenAll(p, m, hopsLeft, batch)[i].value| == OnionSize(p, hopsLeft - 1)
  {
    forall i | 0 <= i < |batch| && OpenAll(p, m, hopsLeft, batch)[i].Some?
      ensures |OpenAll(p, m, hopsLeft, batch)[i].value| == OnionSize(p, hopsLeft - 1)
    {
      assert OpenAll(p, m, hopsLeft, batch)[i] == OpenOnion(p, m, hopsLeft, batch[i]);
    }
  }

  /** The opened slots of the first hop of a chain. */
  ghost function Incoming(p: Params, hops: seq<Mixer>, batch: seq<Bytes>): (r: seq<Option<Bytes>>)
    requires ValidChain(p, hops)
    ensures |r| == |batch| && Readable(r)
  {
    OpenedReadable(p, hops[0], |hops|, batch);
    OpenAll(p, hops[0], |hops|, batch)
  }

  /** What the first hop has to send on: the kept messages, then its noise. */
  ghost function Collected(p: Params, hops: seq<Mixer>, batch: seq<Bytes>): seq<Bytes>
    requires ValidChain(p, hops)
  {
    AllKept(Incoming(p, hops, batch)) + hops[0].noise
  }

  /** The batch the next hop receives. */
  ghost function Outgoing(p: Params, hops: seq<Mixer>, batch: seq<Bytes>): seq<Bytes>
    requires ValidChain(p, hops)
  {
    var c := Collected(p, hops, batch);
    hops[0].shuffle(|c|).Shuffle(c)
  }

  /** The messages the last mixer of the chain hands to its service. */
  ghost function Delivered(p: Params, hops: seq<Mixer>, batch: seq<Bytes>): seq<Bytes>
    requires ValidChain(p, hops)
    decreases |hops|
  {
    if |hops| == 1 then Collected(p, hops, batch)
    else Delivered(p, hops[1..], Outgoing(p, hops, batch))
  }

  /** The reply a mixer seals for slot i, given the replies to its kept messages. */
  ghost function SealSlot(p: Params, hops: seq<Mixer>, batch: seq<Bytes>, replies: seq<Bytes>, i: nat): Bytes
    requires ValidChain(p, hops) && i < |batch|
    requires |replies| >= |AllKept(Incoming(p, hops, batch))|
  {
    var inc := Incoming(p, hops, batch);
    if Kept(inc, i) then
      KeptAt(inc, |inc|, i);
      var r := replies[|KeptMessages(inc, i)|];
      if |r| == ReplyMsgSize(p, |hops|) then p.crypto.seal(r, BackwardNonce(p.round), SlotKey(p, hops[0], batch[i]))
      else Dummy(p, hops, i)
    else Dummy(p, hops, i)
  }

  /** The sealed zeros that stand in for a reply, under a key nobody else holds. */
  function Dummy(p: Params, hops: seq<Mixer>, i: nat): Bytes
    requires |hops| > 0 && p.round < TwoTo32
  {
    p.crypto.seal(Zeros(ReplyMsgSize(p, |hops|)), BackwardNonce(p.round), hops[0].freshKey(i))
  }

  ghost function SealReplies(p: Params, hops: seq<Mixer>, batch: seq<Bytes>, replies: seq<Bytes>): (r: seq<Bytes>)
    requires ValidChain(p, hops)
    requires |replies| >= |AllKept(Incoming(p, hops, batch))|
    ensures |r| == |batch|
  {
    seq(|batch|, i requires 0 <= i < |batch| => SealSlot(p, hops, batch, replies, i))
  }

  /** The replies the first hop has for its kept messages: the service's, or the next hop's put back in order. */
  ghost function Back(p: Params, hops: seq<Mixer>, batch: seq<Bytes>, answers: seq<Bytes>): (r: seq<Bytes>)
    requires ValidChain(p, hops) && |answers| == |Delivered(p, hops, batch)|
    ensures |r| >= |AllKept(Incoming(p, hops, batch))|
    decreases |hops|, 0
  {
    if |hops| == 1 then answers
    else
      var c := Collected(p, hops, batch);
      var replies := Replies(p, hops[1..], Outgoing(p, hops, batch), answers);
      hops[0].shuffle(|c|).Unshuffle(replies)[..|AllKept(Incoming(p, hops, batch))|]
  }

  /** The replies of the first mixer when the service answers answers to the delivered messages. */
  ghost function Replies(p: Params, hops: seq<Mixer>, batch: seq<Bytes>, answers: seq<Bytes>): (r: seq<Bytes>)
    requires ValidChain(p, hops) && |answers| == |Delivered(p, hops, batch)|
    ensures |r| == |batch|
    decreases |hops|, 1
  {
    SealReplies(p, hops, batch, Back(p, hops, batch, answers))
  }
}
