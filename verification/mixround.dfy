/**
 * The state a mixer keeps for one round, filled in place, and the calls by which
 * one mixer runs the rest of the chain. Every method is proved against MixChain.
 */
module MixRound {
  import opened Base
  import opened MixChain

  datatype Span = Span(start: nat, count: nat) {
    predicate Has(i: nat) {
      start <= i < start + count
    }
  }

  /** The pieces in which a batch of n travels: they stay inside it and leave nothing out. */
  ghost predicate Covers(spans: seq<Span>, n: nat) {
    && (forall s :: 0 <= s < |spans| ==> spans[s].start + spans[s].count <= n)
    && (forall i: nat :: i < n ==> i in Filled(spans))
  }

  /** The slots that the pieces reach. */
  ghost function Filled(spans: seq<Span>): iset<nat> {
    iset s, i: nat | s in spans && s.Has(i) :: i
  }

  lemma FilledStep(spans: seq<Span>, k: nat)
    requires k < |spans|
    ensures Filled(spans[..k + 1]) == Filled(spans[..k]) + Filled([Span(spans[k].start, spans[k].count)])
    ensures forall i: nat :: i in Filled(spans[..k + 1]) ==> i in Filled(spans[..k]) || spans[k].Has(i)
  {
    assert spans[..k + 1] == spans[..k] + [spans[k]];
    assert Span(spans[k].start, spans[k].count) == spans[k];
  }

  /** The service behind the last mixer; a handler that fails gives None. */
  datatype Service = Service(
    twoWay: seq<Bytes> -> Option<seq<Bytes>>,
    oneWay: seq<Bytes> -> Option<string>)
  {
    /** Two-way handlers answer every message, in order. */
    ghost predicate Aligned() {
      forall ms :: twoWay(ms).Some? ==> |twoWay(ms).value| == |ms|
    }
  }

  /** The pieces of a batch, in the order in which they happen to arrive. */
  type Transport = nat -> seq<Span>

  ghost predicate ValidTransport(net: Transport) {
    forall n :: Covers(net(n), n)
  }

  /** How the slots of a batch are shared out between workers, each with its slots in the order it takes them. */
  type Sharing = nat -> seq<seq<nat>>

  /** Each slot is one worker's, once. */
  ghost predicate Shares(workers: seq<seq<nat>>, n: nat) {
    && (forall w :: 0 <= w < |workers| ==> Distinct(workers[w]) && Below(workers[w], n))
    && (forall i: nat :: i < n ==> Taken(workers, i))
    && (forall v, w :: 0 <= v < w < |workers| ==> Disjoint(workers[v], workers[w]))
  }

  predicate Below(slots: seq<nat>, n: nat) {
    forall k :: 0 <= k < |slots| ==> slots[k] < n
  }

  ghost predicate Taken(workers: seq<seq<nat>>, i: nat) {
    exists w :: 0 <= w < |workers| && i in workers[w]
  }

  predicate Disjoint(a: seq<nat>, b: seq<nat>) {
    forall i :: i in a ==> i !in b
  }

  ghost predicate ValidSharing(share: Sharing) {
    forall n :: Shares(share(n), n)
  }

  /** Whose key seals a reply: a slot's shared key, a slot's fresh key, or none. */
  datatype Source = SharedOf(slot: nat) | FreshOf(slot: nat) | NoKey

  /** What sealing works on: the index map, the replies from further down, and the keys of the slots. */
  datatype Sealing = Sealing(
    crypto: Crypto, nonce: Bytes, size: nat, index: seq<int>, rs: seq<Bytes>, shared: seq<Bytes>, fresher: nat -> Bytes)
  {
    /** The indices are those of the replies, and the slots are some of the batch's. */
    ghost predicate Fits(slots: seq<nat>) {
      && |shared| == |index| && (forall i :: 0 <= i < |index| ==> -1 <= index[i] < |rs|)
      && Below(slots, |index|)
    }

    /** The slot has a reply of the right size. */
    predicate HasReply(i: nat)
      requires i < |index| && -1 <= index[i] < |rs|
    {
      index[i] > -1 && |rs[index[i]]| == size
    }

    /**
     * The key that a worker holds when it seals its k-th slot: the slot's own, or what it held before when it sets
     * none.
     */
    ghost function KeySource(slots: seq<nat>, k: nat): (r: Source)
      requires Fits(slots) && k < |slots|
      ensures r.SharedOf? ==> r.slot < |index|
      decreases k
    {
      var v := index[slots[k]];
      if size != if v > -1 then |rs[v]| else 0 then FreshOf(slots[k])
      else if v > -1 then SharedOf(slots[k])
      else if k == 0 then NoKey
      else KeySource(slots, k - 1)
    }

    function KeyOf(source: Source): Option<Bytes>
      requires source.SharedOf? ==> source.slot < |shared|
    {
      match source
      case SharedOf(slot) => Some(shared[slot])
      case FreshOf(slot) => Some(fresher(slot))
      case NoKey => None
    }

    ghost function Held(slots: seq<nat>, k: nat): Option<Bytes>
      requires Fits(slots) && k < |slots|
    {
      KeyOf(KeySource(slots, k))
    }

    ghost function HeldBefore(slots: seq<nat>, k: nat): Option<Bytes>
      requires Fits(slots) && k <= |slots|
    {
      if k == 0 then None else Held(slots, k - 1)
    }

    /** The worker holds some key at each of its slots. */
    ghost predicate KeysHeld(slots: seq<nat>)
      requires Fits(slots)
    {
      forall k :: 0 <= k < |slots| ==> KeySource(slots, k) != NoKey
    }

    /** What a worker seals for its k-th slot. */
    ghost function Sealed(slots: seq<nat>, k: nat): Bytes
      requires Fits(slots) && k < |slots| && KeySource(slots, k) != NoKey
    {
      var i := slots[k];
      (crypto.seal)(if HasReply(i) then rs[index[i]] else Zeros(size), nonce, KeyOf(KeySource(slots, k)).value)
    }

    /** A slot's reply under a key of its own. */
    function OwnReply(i: nat): Bytes
      requires i < |shared| == |index| && -1 <= index[i] < |rs|
    {
      if HasReply(i) then (crypto.seal)(rs[index[i]], nonce, shared[i])
      else (crypto.seal)(Zeros(size), nonce, fresher(i))
    }

    /** The worker's slots hold what it seals for them. */
    ghost predicate SealedShare(slots: seq<nat>, out: seq<Bytes>)
      requires Fits(slots) && KeysHeld(slots) && |out| == |index|
    {
      forall k :: 0 <= k < |slots| ==> out[slots[k]] == Sealed(slots, k)
    }

    /** A slot is sealed under its own key exactly when replies are not empty or the slot has a message. */
    lemma OwnKeyIff(slots: seq<nat>, k: nat)
      requires Fits(slots) && Distinct(slots) && k < |slots|
      ensures size > 0 || index[slots[k]] > -1 <==> KeySource(slots, k) != NoKey && KeySource(slots, k).slot == slots[k]
      ensures size > 0 ==> KeySource(slots, k) == if HasReply(slots[k]) then SharedOf(slots[k]) else FreshOf(slots[k])
    {
      var v := index[slots[k]];
      assert -1 <= v < |rs|;
      if size == 0 && v == -1 {
        TakenOver(slots, k);
        if KeySource(slots, k) != NoKey {
          var j :| 0 <= j < k && KeySource(slots, k).slot == slots[j];
          assert slots[j] != slots[k];
        }
      }
    }

    /** What a worker takes over comes from a slot before. */
    lemma {:induction false} TakenOver(slots: seq<nat>, k: nat)
      requires Fits(slots) && k < |slots| && size == 0 && index[slots[k]] == -1
      ensures KeySource(slots, k) != NoKey ==> exists j :: 0 <= j < k && KeySource(slots, k).slot == slots[j]
      decreases k
    {
      if k > 0 {
        assert KeySource(slots, k) == KeySource(slots, k - 1);
        var v := index[slots[k - 1]];
        assert -1 <= v < |rs|;
        if v == -1 {
          TakenOver(slots, k - 1);
        } else {
          assert KeySource(slots, k - 1).slot == slots[k - 1];
        }
      }
    }

    /**
     * With empty replies, a slot without a message takes over the key of the worker's slot before it; a worker's
     * first slot has none.
     */
    lemma EmptyReplyTakesKey(slots: seq<nat>, k: nat)
      requires Fits(slots) && k < |slots| && size == 0 && index[slots[k]] == -1
      ensures KeySource(slots, k) == if k == 0 then NoKey else KeySource(slots, k - 1)
    {
    }

    /** With empty replies, a slot's key is the one of the last slot with a message that its worker took up to it. */
    lemma {:induction false} EmptyReplySource(slots: seq<nat>, k: nat)
      requires Fits(slots) && k < |slots| && size == 0
      ensures KeySource(slots, k) == NoKey <==> forall j :: 0 <= j <= k ==> index[slots[j]] == -1
      ensures forall j :: 0 <= j <= k && index[slots[j]] > -1 && (forall l :: j < l <= k ==> index[slots[l]] == -1) ==>
        KeySource(slots, k) != NoKey && KeySource(slots, k).slot == slots[j]
      decreases k
    {
      if k > 0 && index[slots[k]] == -1 {
        EmptyReplySource(slots, k - 1);
        EmptyReplyTakesKey(slots, k);
      }
    }

    /** With empty replies, a worker comes to no slot without a key exactly when its first slot has a message. */
    lemma EmptyRepliesHeldIff(slots: seq<nat>)
      requires Fits(slots) && size == 0
      ensures KeysHeld(slots) <==> slots == [] || index[slots[0]] > -1
    {
      if slots != [] {
        EmptyReplySource(slots, 0);
      }
      if slots != [] && index[slots[0]] > -1 {
        forall k | 0 <= k < |slots| ensures KeySource(slots, k) != NoKey {
          EmptyReplySource(slots, k);
        }
      }
    }

    /** When replies are not empty a worker has keys for all of its slots, and seals each under its own. */
    lemma OwnReplies(slots: seq<nat>)
      requires Fits(slots) && Distinct(slots) && size > 0
      ensures KeysHeld(slots) && forall k :: 0 <= k < |slots| ==> Sealed(slots, k) == OwnReply(slots[k])
    {
      forall k | 0 <= k < |slots| ensures KeySource(slots, k) != NoKey && Sealed(slots, k) == OwnReply(slots[k]) {
        OwnKeyIff(slots, k);
      }
    }

    ghost predicate AllFit(workers: seq<seq<nat>>) {
      forall w :: 0 <= w < |workers| ==> Fits(workers[w])
    }

    /** No worker is without a key. */
    ghost predicate AllHeld(workers: seq<seq<nat>>)
      requires AllFit(workers)
    {
      forall w :: 0 <= w < |workers| ==> KeysHeld(workers[w])
    }

    ghost predicate AllSealed(workers: seq<seq<nat>>, out: seq<Bytes>)
      requires AllFit(workers) && AllHeld(workers) && |out| == |index|
    {
      forall w :: 0 <= w < |workers| ==> SealedShare(workers[w], out)
    }

    /** Whatever worker takes a slot, its reply is sealed under the slot's own key. */
    lemma OwnReplyAt(workers: seq<seq<nat>>, out: seq<Bytes>, i: nat)
      requires size > 0 && i < |index| == |out| && Shares(workers, |out|)
      requires AllFit(workers) && AllHeld(workers) && AllSealed(workers, out)
      ensures |shared| == |index| && -1 <= index[i] < |rs| && out[i] == OwnReply(i)
    {
      assert Taken(workers, i);
      var w :| 0 <= w < |workers| && i in workers[w];
      OwnReplies(workers[w]);
    }

    /** What another worker writes leaves a worker's slots as they are. */
    lemma StillSealed(slots: seq<nat>, others: seq<nat>, before: seq<Bytes>, after: seq<Bytes>)
      requires Fits(slots) && KeysHeld(slots) && Disjoint(slots, others) && |before| == |after| == |index|
      requires SealedShare(slots, before) && forall i :: 0 <= i < |after| && i !in others ==> after[i] == before[i]
      ensures SealedShare(slots, after)
    {
      forall k | 0 <= k < |slots| ensures after[slots[k]] == Sealed(slots, k) {
        assert slots[k] in slots;
      }
    }
  }

  /** One worker, with the slots it takes. */
  method SealShare(c: Sealing, slots: seq<nat>, out: array<Bytes>) returns (ok: bool)
    requires c.Fits(slots) && Distinct(slots) && out.Length == |c.index|
    modifies out
    ensures ok == c.KeysHeld(slots) && (ok ==> c.SealedShare(slots, out[..]))
    ensures forall i :: 0 <= i < out.Length && i !in slots ==> out[i] == old(out[i])
  {
    var key: Option<Bytes> := None;
    for k := 0 to |slots|
      invariant key == c.HeldBefore(slots, k)
      invariant forall j :: 0 <= j < k ==> c.KeySource(slots, j) != NoKey && out[slots[j]] == c.Sealed(slots, j)
      invariant forall i :: 0 <= i < out.Length && i !in slots ==> out[i] == old(out[i])
    {
      key := SealNext(c, slots, k, key, out);
      if key == None {
        return false;
      }
    }
    return true;
  }

  /** A worker's k-th slot, with the key it held before. */
  method SealNext(c: Sealing, slots: seq<nat>, k: nat, before: Option<Bytes>, out: array<Bytes>)
    returns (key: Option<Bytes>)
    requires c.Fits(slots) && k < |slots| && before == c.HeldBefore(slots, k) && out.Length == |c.index|
    modifies out
    ensures key == c.Held(slots, k) && (key.Some? <==> c.KeySource(slots, k) != NoKey)
    ensures key.Some? ==> out[slots[k]] == c.Sealed(slots, k)
    ensures forall i :: 0 <= i < out.Length && i != slots[k] ==> out[i] == old(out[i])
  {
    var i := slots[k];
    var msg: Bytes := [];
    var v := c.index[i];
    key := before;
    if v > -1 {
      msg := c.rs[v];
      key := Some(c.shared[i]);
    }
    if |msg| != c.size {
      msg := Zeros(c.size);
      key := Some((c.fresher)(i));
    }
    if key.Some? {
      assert msg == if c.HasReply(i) then c.rs[v] else Zeros(c.size);
      out[i] := (c.crypto.seal)(msg, c.nonce, key.value);
    }
  }

  /** All the workers, one after the other: they write different slots. */
  method SealAll(c: Sealing, workers: seq<seq<nat>>, out: array<Bytes>) returns (ok: bool)
    requires out.Length == |c.index| && Shares(workers, out.Length) && c.AllFit(workers)
    modifies out
    ensures ok == c.AllHeld(workers) && (ok ==> c.AllSealed(workers, out[..]))
  {
    for w := 0 to |workers|
      invariant forall v :: 0 <= v < w ==> c.KeysHeld(workers[v]) && c.SealedShare(workers[v], out[..])
    {
      ghost var before := out[..];
      ok := SealShare(c, workers[w], out);
      if !ok {
        return false;
      }
      forall v | 0 <= v < w ensures c.SealedShare(workers[v], out[..]) {
        assert Disjoint(workers[v], workers[w]);
        c.StillSealed(workers[v], workers[w], before, out[..]);
      }
    }
    return true;
  }

  /** Each of the first n slots has the index of its message among the kept ones, or -1. */
  ghost predicate Indexed(inc: seq<Option<Bytes>>, index: seq<int>, n: nat)
    requires Readable(inc) && n <= |inc|
  {
    |index| == n && forall i :: 0 <= i < n ==> index[i] == if Kept(inc, i) then |KeptMessages(inc, i)| else -1
  }

  /** The keys seen are those of the messages in the first n slots. */
  ghost predicate SeenKeys(inc: seq<Option<Bytes>>, seen: map<nat, bool>, n: nat)
    requires Readable(inc) && n <= |inc|
  {
    forall key :: key in seen <==> exists j :: 0 <= j < n && inc[j].Some? && DedupKey(inc[j].value) == key
  }

  lemma SeenStep(inc: seq<Option<Bytes>>, seen: map<nat, bool>, i: nat)
    requires Readable(inc) && i < |inc| && SeenKeys(inc, seen, i)
    ensures inc[i].None? ==> SeenKeys(inc, seen, i + 1)
    ensures inc[i].Some? ==>
      var key := DedupKey(inc[i].value);
      && SeenKeys(inc, seen[key := true], i + 1) && (key in seen ==> SeenKeys(inc, seen, i + 1))
      && (Kept(inc, i) <==> key !in seen)
  {
  }

  ghost predicate AgreeOn(out: seq<Bytes>, all: seq<Bytes>, f: iset<nat>) {
    |out| == |all| && forall i: nat :: i < |out| && i in f ==> out[i] == all[i]
  }

  lemma PlacedAgree(spans: seq<Span>, k: nat, before: seq<Bytes>, after: seq<Bytes>, all: seq<Bytes>)
    requires k < |spans| && AgreeOn(before, all, Filled(spans[..k])) && |after| == |all|
    requires forall i: nat :: i < |after| ==> after[i] == if spans[k].Has(i) then all[i] else before[i]
    ensures AgreeOn(after, all, Filled(spans[..k + 1]))
  {
    FilledStep(spans, k);
  }

  /** Copies a piece of the replies to its place. */
  method Place(out: array<Bytes>, at: nat, piece: seq<Bytes>)
    requires at + |piece| <= out.Length
    modifies out
    ensures forall i :: 0 <= i < out.Length ==>
      out[i] == if at <= i < at + |piece| then piece[i - at] else old(out[i])
  {
    for j := 0 to |piece|
      invariant forall i :: 0 <= i < out.Length ==> out[i] == if at <= i < at + j then piece[i - at] else old(out[i])
    {
      out[at + j] := piece[j];
    }
  }

  class RoundState {
    const p: Params
    const mixer: Mixer
    const hopsLeft: nat
    const bidirectional: bool
    const net: Transport
    const share: Sharing

    var numIncoming: nat
    var incoming: array<Option<Bytes>>
    var sharedKeys: array<Bytes>
    var acceptingOnions: bool
    /** The filtered messages, and for each slot the index of its message there or -1. */
    var collected: seq<Bytes>
    var incomingIndex: seq<int>
    var replies: array<Bytes>
    var noise: seq<Bytes>
    var closed: bool
    var closeResult: string
    var failed: bool

    constructor (p: Params, mixer: Mixer, hopsLeft: nat, bidirectional: bool, net: Transport, share: Sharing)
      ensures this.p == p && this.mixer == mixer && this.hopsLeft == hopsLeft && this.bidirectional == bidirectional
      ensures this.net == net && this.share == share && Untouched()
    {
      this.p, this.mixer, this.hopsLeft, this.bidirectional := p, mixer, hopsLeft, bidirectional;
      this.net, this.share := net, share;
      numIncoming, acceptingOnions := 0, false;
      incoming := new Option<Bytes>[0];
      sharedKeys, replies := new Bytes[0], new Bytes[0];
      collected, incomingIndex, noise := [], [], mixer.noise;
      closed, closeResult, failed := false, "", false;
    }

    /** No onion has been added yet, and the noise of the round is ready. */
    ghost predicate Untouched()
      reads this
    {
      numIncoming == 0 && incoming.Length == sharedKeys.Length == 0 && noise == mixer.noise && !closed && !failed
    }

    /** The state between adding onions and closing. */
    ghost predicate Adding()
      reads this
    {
      && p.Valid() && hopsLeft > 0 && mixer.Valid()
      && incoming.Length == numIncoming
      && (bidirectional ==> sharedKeys.Length == numIncoming)
    }

    /** The arrays that adding onions writes. */
    ghost function Buffers(): set<object>
      reads this
    {
      if numIncoming == 0 then {} else if bidirectional then {incoming as object, sharedKeys} else {incoming}
    }

    /** The slots that the first pieces of a batch have filled hold what their onions open to; the rest are empty. */
    ghost predicate FilledBy(batch: seq<Bytes>, filled: iset<nat>)
      reads this, incoming, sharedKeys
      requires Adding()
    {
      && |batch| == numIncoming
      && (forall i :: 0 <= i < numIncoming && i in filled ==> incoming[i] == OpenOnion(p, mixer, hopsLeft, batch[i]))
      && (forall i :: 0 <= i < numIncoming && i !in filled ==> incoming[i] == None)
      && (bidirectional ==> forall i :: 0 <= i < numIncoming && i in filled && |batch[i]| == OnionSize(p, hopsLeft) ==>
            sharedKeys[i] == SlotKey(p, mixer, batch[i]))
    }

    /** Every onion of the batch has been opened into its slot. */
    ghost predicate Received(batch: seq<Bytes>)
      reads this, incoming, sharedKeys
      requires Adding()
    {
      && |batch| == numIncoming
      && incoming[..] == OpenAll(p, mixer, hopsLeft, batch)
      && (bidirectional ==> forall i :: 0 <= i < numIncoming && |batch[i]| == OnionSize(p, hopsLeft) ==>
            sharedKeys[i] == SlotKey(p, mixer, batch[i]))
    }

    /**
     * The start of an AddOnions stream that announces total onions. When there are no slots yet it makes
     * that many empty ones and turns accepting on, which also happens again after an empty batch is closed;
     * otherwise a total other than the number of slots is refused. Nothing else changes.
     */
    method OpenStream(total: nat) returns (ok: bool)
      requires Adding()
      modifies this`numIncoming, this`incoming, this`sharedKeys, this`acceptingOnions
      ensures Adding() && ok == (old(numIncoming) == 0 || old(numIncoming) == total)
      ensures numIncoming == if old(numIncoming) == 0 then total else old(numIncoming)
      ensures old(numIncoming) != 0 ==>
        acceptingOnions == old(acceptingOnions) && incoming == old(incoming) && sharedKeys == old(sharedKeys)
      ensures old(numIncoming) == 0 ==>
        && acceptingOnions && fresh(Buffers()) && ((incoming as object != sharedKeys) || total == 0)
        && forall i :: 0 <= i < total ==> incoming[i] == None
    {
      if numIncoming == 0 {
        acceptingOnions := true;
        numIncoming := total;
        incoming := new Option<Bytes>[total](_ => None);
        if bidirectional {
          sharedKeys := new Bytes[total](_ => []);
        }
      } else if numIncoming != total {
        return false;
      }
      return true;
    }

    /**
     * One request of an AddOnions stream: a piece of the batch, which fills exactly its slots as long as onions are
     * accepted.
     */
    method AddOnions(offset: nat, onions: seq<Bytes>, ghost batch: seq<Bytes>, ghost filled: iset<nat>)
      returns (ok: bool)
      requires Adding() && FilledBy(batch, filled) && ((incoming as object != sharedKeys) || numIncoming == 0)
      requires offset + |onions| <= numIncoming ==> onions == batch[offset..offset + |onions|]
      modifies Buffers()
      ensures Adding() && ok == (offset + |onions| <= numIncoming)
      ensures FilledBy(batch, if ok && acceptingOnions then filled + Filled([Span(offset, |onions|)]) else filled)
      ensures !(ok && acceptingOnions) ==> incoming[..] == old(incoming[..]) && sharedKeys[..] == old(sharedKeys[..])
    {
      if offset + |onions| > numIncoming {
        return false;
      }
      ghost var span := Span(offset, |onions|);
      assert forall i: nat :: i in Filled([span]) <==> span.Has(i);
      assert FilledBy(batch, filled);
      if acceptingOnions {
        label before:
        Decrypt(offset, onions);
        forall i | 0 <= i < numIncoming && span.Has(i)
          ensures incoming[i] == OpenOnion(p, mixer, hopsLeft, batch[i])
        {
          assert onions[i - offset] == batch[i];
          assert old@before(incoming[i]) == OpenOnion(p, mixer, hopsLeft, batch[i]) || old@before(incoming[i]) == None;
        }
      }
      ok := true;
    }

    /** One job of a decryption worker. */
    method Decrypt(offset: nat, onions: seq<Bytes>)
      requires Adding() && offset + |onions| <= numIncoming && (incoming as object != sharedKeys || numIncoming == 0)
      modifies Buffers()
      ensures forall i :: 0 <= i < numIncoming ==>
        incoming[i] == if offset <= i < offset + |onions| && |onions[i - offset]| == OnionSize(p, hopsLeft)
                       then OpenOnion(p, mixer, hopsLeft, onions[i - offset]) else old(incoming[i])
      ensures bidirectional ==> forall i :: 0 <= i < numIncoming ==>
        sharedKeys[i] == if offset <= i < offset + |onions| && |onions[i - offset]| == OnionSize(p, hopsLeft)
                         then SlotKey(p, mixer, onions[i - offset]) else old(sharedKeys[i])
    {
      var nonce := ForwardNonce(p.round);
      var expectedSize := OnionSize(p, hopsLeft);
      for k := 0 to |onions|
        invariant forall i :: 0 <= i < numIncoming ==>
          incoming[i] == if offset <= i < offset + k && |onions[i - offset]| == OnionSize(p, hopsLeft)
                         then OpenOnion(p, mixer, hopsLeft, onions[i - offset]) else old(incoming[i])
        invariant bidirectional ==> forall i :: 0 <= i < numIncoming ==>
          sharedKeys[i] == if offset <= i < offset + k && |onions[i - offset]| == OnionSize(p, hopsLeft)
                           then SlotKey(p, mixer, onions[i - offset]) else old(sharedKeys[i])
      {
        var onion := onions[k];
        if |onion| != expectedSize {
          continue;
        }
        var theirPublic := onion[..KeySize];
        var key := p.crypto.precompute(theirPublic, mixer.priv);
        if bidirectional {
          sharedKeys[offset + k] := key;
        }
        incoming[offset + k] := p.crypto.open(onion[KeySize..], nonce, key);
      }
    }

    /** Drops unopened slots and repeated deduplication keys, remembering where each slot's message went. */
    method FilterIncoming()
      requires Readable(incoming[..])
      modifies this`collected, this`incomingIndex
      ensures Filtered()
    {
      ghost var inc := incoming[..];
      var incomingValid: seq<Bytes> := [];
      var index: seq<int> := [];
      var seen: map<nat, bool> := map[];
      for i := 0 to incoming.Length
        invariant incoming[..] == inc && incomingValid == KeptMessages(inc, i)
        invariant Indexed(inc, index, i) && SeenKeys(inc, seen, i)
      {
        SeenStep(inc, seen, i);
        match incoming[i]
        case None =>
          index := index + [-1];
        case Some(msg) =>
          var msgkey := BigEndian(msg[|msg| - 8..]);
          if msgkey in seen {
            index := index + [-1];
          } else {
            seen := seen[msgkey := true];
            index := index + [|incomingValid|];
            incomingValid := incomingValid + [msg];
          }
      }
      collected := incomingValid;
      incomingIndex := index;
    }

    /** What sealing works on in this round. */
    function Seals(rs: seq<Bytes>): Sealing
      reads `incomingIndex, `sharedKeys, sharedKeys
      requires p.round < TwoTo32 && hopsLeft > 0
    {
      Sealing(p.crypto, BackwardNonce(p.round), ReplyMsgSize(p, hopsLeft), incomingIndex, rs, sharedKeys[..],
          mixer.freshKey)
    }

    function Workers(): seq<seq<nat>>
      reads `incomingIndex
    {
      share(|incomingIndex|)
    }

    /**
     * Seals the reply of every slot, or zeros under a fresh key when the slot has none of the right size,
     * each slot by the worker it is shared out to, under the key that KeySource names. No key is a nil dereference.
     */
    method EncryptReplies(rs: seq<Bytes>) returns (ok: bool)
      requires p.round < TwoTo32 && hopsLeft > 0 && Shares(Workers(), |incomingIndex|)
      requires Seals(rs).AllFit(Workers())
      modifies this`replies
      ensures fresh(replies) && replies.Length == |incomingIndex|
      ensures ok == Seals(rs).AllHeld(Workers()) && (ok ==> Seals(rs).AllSealed(Workers(), replies[..]))
    {
      var c := Seals(rs);
      var out := new Bytes[|incomingIndex|](_ => []);
      ok := SealAll(c, Workers(), out);
      replies := out;
      assert Seals(rs) == c;
    }

    /** Reads a slice of the sealed replies. */
    method GetOnions(offset: nat, count: nat) returns (r: Result<seq<Bytes>, string>)
      ensures r.Ok? <==> bidirectional && offset + count <= replies.Length
      ensures r.Ok? ==> r.value == replies[offset..offset + count]
    {
      if !bidirectional {
        return Err("GetOnions on a one-way service");
      }
      if offset + count > replies.Length {
        return Err("invalid offset and count");
      }
      r := Ok(replies[offset..offset + count]);
    }

    /** Takes in a whole batch, in the pieces and the order in which it arrives. */
    method ReceiveBatch(onions: seq<Bytes>)
      requires Adding() && numIncoming == 0 && ValidTransport(net)
      modifies this`numIncoming, this`incoming, this`sharedKeys, this`acceptingOnions
      ensures Adding() && Received(onions) && fresh(Buffers())
    {
      var spans := net(|onions|);
      var accepted := OpenStream(|onions|);
      assert accepted;
      AddPieces(onions, spans);
      FilledIsReceived(onions, Filled(spans));
    }

    /** The pieces of a batch, one after the other. */
    method AddPieces(onions: seq<Bytes>, spans: seq<Span>)
      requires Adding() && numIncoming == |onions| && acceptingOnions && Covers(spans, |onions|)
      requires FilledBy(onions, iset{}) && ((incoming as object != sharedKeys) || numIncoming == 0)
      modifies Buffers()
      ensures Adding() && FilledBy(onions, Filled(spans))
    {
      ghost var filled: iset<nat> := iset{};
      for k := 0 to |spans|
        invariant FilledBy(onions, filled) && filled == Filled(spans[..k])
      {
        var s := spans[k];
        var ok := AddOnions(s.start, onions[s.start..s.start + s.count], onions, filled);
        FilledStep(spans, k);
        filled := Filled(spans[..k + 1]);
      }
      assert spans[..|spans|] == spans;
    }

    lemma FilledIsReceived(batch: seq<Bytes>, filled: iset<nat>)
      requires Adding() && |batch| == numIncoming && FilledBy(batch, filled)
      requires forall i: nat :: i < |batch| ==> i in filled
      ensures Received(batch)
    {
    }

    /** Reads all replies back, in the pieces and the order in which they arrive. */
    method FetchReplies(n: nat) returns (r: seq<Bytes>)
      requires bidirectional && replies.Length == n && ValidTransport(net)
      ensures r == replies[..]
    {
      var out := new Bytes[n](_ => []);
      var spans := net(n);
      for k := 0 to |spans|
        invariant AgreeOn(out[..], replies[..], Filled(spans[..k]))
      {
        var s := spans[k];
        var got := GetOnions(s.start, s.count);
        ghost var before := out[..];
        Place(out, s.start, got.value);
        PlacedAgree(spans, k, before, out[..], replies[..]);
      }
      assert spans[..|spans|] == spans;
      r := out[..];
    }

    /** What closing the round of a batch must leave behind, given the service's handlers. */
    ghost predicate ClosedWith(hops: seq<Mixer>, batch: seq<Bytes>, svc: Service, r: Result<string, string>)
      reads this, replies
      requires ValidChain(p, hops) && svc.Aligned()
    {
      if bidirectional then
        match svc.twoWay(Delivered(p, hops, batch))
        case None => failed && r.Err?
        case Some(answers) => !failed && r == Ok("") && replies[..] == Replies(p, hops, batch, answers)
      else
        match svc.oneWay(Delivered(p, hops, batch))
        case None => failed && r.Err?
        case Some(result) => !failed && r == Ok(result) && closeResult == result
    }

    /** Ends the round: filters, mixes in noise, runs the rest of the chain and seals what comes back. */
    method CloseRound(rest: seq<RoundState>, svc: Service, ghost batch: seq<Bytes>) returns (r: Result<string, string>)
      requires svc.Aligned() && (bidirectional ==> p.sizeReply > 0) && ValidSharing(share)
      requires Adding() && |rest| == hopsLeft - 1 && this !in rest && ReadyChain(p, rest, bidirectional)
      requires closed || (Received(batch) && !failed && noise == mixer.noise)
      modifies this, rest
      decreases |rest|, 5
      ensures old(closed) ==> unchanged(this) && unchanged(rest)
      ensures old(closed) ==> r == if failed then Err("round failed") else Ok(closeResult)
      ensures closed && (!old(closed) ==> !acceptingOnions)
      ensures !old(closed) ==> ClosedWith(Mixers([this] + rest), batch, svc, r)
    {
      if closed {
        return if failed then Err("round failed") else Ok(closeResult);
      }
      acceptingOnions := false;
      closed := true;
      r := CloseOpenRound(rest, svc, batch);
    }

    method CloseOpenRound(rest: seq<RoundState>, svc: Service, ghost batch: seq<Bytes>)
      returns (r: Result<string, string>)
      requires svc.Aligned() && (bidirectional ==> p.sizeReply > 0) && ValidSharing(share)
      requires Adding() && |rest| == hopsLeft - 1 && this !in rest && ReadyChain(p, rest, bidirectional)
      requires Received(batch) && !failed && noise == mixer.noise
      modifies this`collected, this`incomingIndex, this`noise, this`failed, this`replies, this`closeResult, rest
      decreases |rest|, 4
      ensures ClosedWith(Mixers([this] + rest), batch, svc, r)
    {
      ghost var hops := FullChain(rest, batch);
      var outgoing := CollectOutgoing(hops, batch);
      if bidirectional {
        r := FinishTwoWay(rest, svc, outgoing, hops, batch);
      } else {
        r := FinishOneWay(rest, svc, outgoing, hops, batch);
      }
    }

    /** Filters the batch and appends the noise. */
    method CollectOutgoing(ghost hops: seq<Mixer>, ghost batch: seq<Bytes>) returns (outgoing: seq<Bytes>)
      requires ValidChain(p, hops) && hops[0] == mixer
      requires incoming[..] == Incoming(p, hops, batch) && noise == mixer.noise
      modifies this`collected, this`incomingIndex, this`noise
      ensures Filtered() && outgoing == Collected(p, hops, batch) && noise == []
    {
      FilterIncoming();
      outgoing := collected + noise;
      noise := [];
    }

    lemma FullChain(rest: seq<RoundState>, batch: seq<Bytes>) returns (hops: seq<Mixer>)
      requires Adding() && |rest| == hopsLeft - 1 && ReadyChain(p, rest, bidirectional) && Received(batch)
      ensures hops == [mixer] + Mixers(rest) == Mixers([this] + rest)
      ensures ValidChain(p, hops) && incoming[..] == Incoming(p, hops, batch)
    {
      hops := [mixer] + Mixers(rest);
    }

    /** The slots are filtered: every slot has its message's index among the collected ones. */
    ghost predicate Filtered()
      reads this, incoming
    {
      && Readable(incoming[..]) && collected == AllKept(incoming[..])
      && Indexed(incoming[..], incomingIndex, incoming.Length)
    }

    method FinishTwoWay(rest: seq<RoundState>, svc: Service, outgoing: seq<Bytes>, ghost hops: seq<Mixer>,
                        ghost batch: seq<Bytes>)
      returns (r: Result<string, string>)
      requires bidirectional && svc.Aligned() && p.sizeReply > 0 && !failed && ValidSharing(share)
      requires Adding() && this !in rest && ReadyChain(p, rest, true)
      requires hops == [mixer] + Mixers(rest) && |hops| == hopsLeft && ValidChain(p, hops)
      requires Received(batch) && Filtered() && incoming[..] == Incoming(p, hops, batch)
      requires outgoing == Collected(p, hops, batch)
      modifies this`failed, this`replies, rest
      decreases |rest|, 3
      ensures ClosedWith(hops, batch, svc, r)
    {
      var back := RelayTwoWay(p, mixer, rest, svc, outgoing, |collected|, hops, batch);
      if back.None? {
        failed := true;
        return Err("RunRound");
      }
      SealAndStore(back.value, hops, batch);
      r := Ok("");
    }

    method FinishOneWay(rest: seq<RoundState>, svc: Service, outgoing: seq<Bytes>, ghost hops: seq<Mixer>,
                        ghost batch: seq<Bytes>)
      returns (r: Result<string, string>)
      requires !bidirectional && svc.Aligned() && !failed
      requires Adding() && this !in rest && ReadyChain(p, rest, false)
      requires hops == [mixer] + Mixers(rest) && ValidChain(p, hops) && outgoing == Collected(p, hops, batch)
      modifies this`failed, this`closeResult, rest
      decreases |rest|, 3
      ensures ClosedWith(hops, batch, svc, r)
    {
      var result := RelayOneWay(p, mixer, rest, svc, outgoing, hops, batch);
      if result.None? {
        failed := true;
        return Err("RunRound");
      }
      closeResult := result.value;
      r := Ok(result.value);
    }

    /** EncryptReplies, stated over the chain. */
    method SealAndStore(rs: seq<Bytes>, ghost hops: seq<Mixer>, ghost batch: seq<Bytes>)
      requires Adding() && bidirectional && p.sizeReply > 0 && ValidSharing(share)
      requires ValidChain(p, hops) && hops[0] == mixer && |hops| == hopsLeft
      requires Received(batch) && incoming[..] == Incoming(p, hops, batch)
      requires Filtered() && |rs| >= |AllKept(incoming[..])|
      modifies this`replies
      ensures replies[..] == SealReplies(p, hops, batch, rs)
    {
      ghost var c := Seals(rs);
      IndexFits(hops, batch, rs);
      forall w | 0 <= w < |Workers()| ensures c.KeysHeld(Workers()[w]) {
        c.OwnReplies(Workers()[w]);
      }
      var ok := EncryptReplies(rs);
      forall i | 0 <= i < numIncoming ensures replies[i] == SealSlot(p, hops, batch, rs, i) {
        c.OwnReplyAt(Workers(), replies[..], i);
        OwnReplyIsSlots(hops, batch, rs, i);
      }
    }

    lemma IndexFits(hops: seq<Mixer>, batch: seq<Bytes>, rs: seq<Bytes>)
      requires Adding() && bidirectional && ValidSharing(share) && Received(batch) && Filtered()
      requires |rs| >= |AllKept(incoming[..])|
      ensures Shares(Workers(), |incomingIndex|) && Seals(rs).AllFit(Workers())
      ensures forall i :: 0 <= i < |incomingIndex| ==> -1 <= incomingIndex[i] < |rs|
    {
      var inc := incoming[..];
      forall i | 0 <= i < |incomingIndex| ensures -1 <= incomingIndex[i] < |rs| {
        if Kept(inc, i) {
          KeptAt(inc, |inc|, i);
        }
      }
    }

    lemma OwnReplyIsSlots(hops: seq<Mixer>, batch: seq<Bytes>, rs: seq<Bytes>, i: nat)
      requires Adding() && bidirectional && ValidChain(p, hops)
      requires hops[0] == mixer && |hops| == hopsLeft && i < numIncoming
      requires Received(batch) && incoming[..] == Incoming(p, hops, batch)
      requires Filtered() && |rs| >= |AllKept(incoming[..])|
      requires -1 <= incomingIndex[i] < |rs|
      ensures Seals(rs).OwnReply(i) == SealSlot(p, hops, batch, rs, i)
    {
      var inc := incoming[..];
      if Kept(inc, i) {
        KeptAt(inc, |inc|, i);
        assert inc[i] == OpenOnion(p, hops[0], |hops|, batch[i]);
      }
    }
  }

  ghost function Mixers(chain: seq<RoundState>): (r: seq<Mixer>)
    ensures |r| == |chain|
  {
    seq(|chain|, k requires 0 <= k < |chain| => chain[k].mixer)
  }

  /** Mixers that know their place in the chain and have not started on the round. */
  ghost predicate ReadyChain(p: Params, chain: seq<RoundState>, bidirectional: bool)
    reads chain
  {
    && p.Valid()
    && (forall k :: 0 <= k < |chain| ==>
          && chain[k].p == p && chain[k].hopsLeft == |chain| - k && chain[k].bidirectional == bidirectional
          && chain[k].mixer.Valid() && ValidTransport(chain[k].net) && ValidSharing(chain[k].share) &&
              chain[k].Untouched() &&
              chain[k].closeResult == "")
    && (forall j, k :: 0 <= j < k < |chain| ==> chain[j] != chain[k])
  }

  /** Hands a collected batch to the next mixer, shuffled, or to the service at the end of the chain. */
  method RelayTwoWay(p: Params, mixer: Mixer, rest: seq<RoundState>, svc: Service, outgoing: seq<Bytes>,
                     numNonNoise: nat,
                     ghost hops: seq<Mixer>, ghost batch: seq<Bytes>)
    returns (r: Option<seq<Bytes>>)
    requires ReadyChain(p, rest, true) && svc.Aligned() && p.sizeReply > 0
    requires mixer.Valid() && hops == [mixer] + Mixers(rest) && ValidChain(p, hops)
    requires outgoing == Collected(p, hops, batch) && numNonNoise == |AllKept(Incoming(p, hops, batch))|
    modifies rest
    decreases |rest|, 2
    ensures match svc.twoWay(Delivered(p, hops, batch))
      case None => r == None
      case Some(answers) => r == Some(Back(p, hops, batch, answers))
  {
    if rest != [] {
      assert hops[1..] == Mixers(rest);
      var shuffler := mixer.shuffle(|outgoing|);
      var replies := RunRoundBidirectional(p, rest, svc, shuffler.Shuffle(outgoing));
      if replies.None? {
        return None;
      }
      r := Some(shuffler.Unshuffle(replies.value)[..numNonNoise]);
    } else {
      r := svc.twoWay(outgoing);
    }
  }

  method RelayOneWay(p: Params, mixer: Mixer, rest: seq<RoundState>, svc: Service, outgoing: seq<Bytes>,
                     ghost hops: seq<Mixer>, ghost batch: seq<Bytes>)
    returns (r: Option<string>)
    requires ReadyChain(p, rest, false) && svc.Aligned()
    requires mixer.Valid() && hops == [mixer] + Mixers(rest) && ValidChain(p, hops)
    requires outgoing == Collected(p, hops, batch)
    modifies rest
    decreases |rest|, 2
    ensures r == svc.oneWay(Delivered(p, hops, batch))
  {
    if rest != [] {
      assert hops[1..] == Mixers(rest);
      var shuffler := mixer.shuffle(|outgoing|);
      r := RunRoundUnidirectional(p, rest, svc, shuffler.Shuffle(outgoing));
    } else {
      r := svc.oneWay(outgoing);
    }
  }

  /** Runs a two-way round on a chain: the replies are those of the chain of mixers. */
  method RunRoundBidirectional(p: Params, chain: seq<RoundState>, svc: Service, onions: seq<Bytes>)
    returns (r: Option<seq<Bytes>>)
    requires |chain| > 0 && ReadyChain(p, chain, true) && svc.Aligned() && p.sizeReply > 0
    modifies chain
    decreases |chain|, 1
    ensures match svc.twoWay(Delivered(p, Mixers(chain), onions))
      case None => r == None
      case Some(answers) => r == Some(Replies(p, Mixers(chain), onions, answers))
  {
    var closed := SendAndClose(p, chain, svc, onions);
    if closed.Err? {
      return None;
    }
    var replies := chain[0].FetchReplies(|onions|);
    r := Some(replies);
  }

  /** Runs a one-way round on a chain: the result is the service's for the delivered messages. */
  method RunRoundUnidirectional(p: Params, chain: seq<RoundState>, svc: Service, onions: seq<Bytes>)
    returns (r: Option<string>)
    requires |chain| > 0 && ReadyChain(p, chain, false) && svc.Aligned()
    modifies chain
    decreases |chain|, 1
    ensures r == svc.oneWay(Delivered(p, Mixers(chain), onions))
  {
    var closed := SendAndClose(p, chain, svc, onions);
    r := if closed.Ok? then Some(closed.value) else None;
  }

  /** Sends a batch to the first mixer of the chain, piece by piece, and closes its round. */
  method SendAndClose(p: Params, chain: seq<RoundState>, svc: Service, onions: seq<Bytes>)
    returns (r: Result<string, string>)
    requires |chain| > 0 && ReadyChain(p, chain, chain[0].bidirectional) && svc.Aligned()
    requires chain[0].bidirectional ==> p.sizeReply > 0
    modifies chain
    decreases |chain|, 0
    ensures chain[0].ClosedWith(Mixers(chain), onions, svc, r)
  {
    var first, rest := chain[0], chain[1..];
    first.ReceiveBatch(onions);
    assert [first] + rest == chain;
    r := first.CloseRound(rest, svc, onions);
  }
}
