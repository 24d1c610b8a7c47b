/**
 * What a chain of mixers guarantees, for every chain length, batch, permutation and noise:
 * where replies go, what is delivered and how large everything is.
 */
module MixRouting {
  import opened Base
  import opened MixChain

  /** A message wrapped by the mixers holding keys, the first one outermost. */
  function SealLayers(p: Params, keys: seq<Bytes>, reply: Bytes): Bytes
    requires p.round < TwoTo32
  {
    if keys == [] then reply
    else p.crypto.seal(SealLayers(p, keys[1..], reply), BackwardNonce(p.round), keys[0])
  }

  /** A client removing the layers of a reply with the keys of its onion. */
  function OpenLayers(p: Params, keys: seq<Bytes>, sealed: Bytes): Option<Bytes>
    requires p.round < TwoTo32
  {
    if keys == [] then Some(sealed)
    else match p.crypto.open(sealed, BackwardNonce(p.round), keys[0])
      case None => None
      case Some(inner) => OpenLayers(p, keys[1..], inner)
  }

  lemma {:induction false} OpenSealedLayers(p: Params, keys: seq<Bytes>, reply: Bytes)
    requires p.Valid()
    ensures OpenLayers(p, keys, SealLayers(p, keys, reply)) == Some(reply)
    ensures |SealLayers(p, keys, reply)| == |reply| + |keys| * BoxOverhead
  {
    if keys != [] {
      OpenSealedLayers(p, keys[1..], reply);
    }
  }

  /** Peeling the first n layers of an onion: the keys met on the way and what is left. */
  function Peel(p: Params, hops: seq<Mixer>, n: nat, onion: Bytes): (r: Option<(seq<Bytes>, Bytes)>)
    requires p.round < TwoTo32 && n <= |hops|
    ensures r.Some? ==> |r.value.0| == n
    decreases n
  {
    if n == 0 then Some(([], onion))
    else match OpenOnion(p, hops[0], |hops|, onion)
      case None => None
      case Some(msg) =>
        match Peel(p, hops[1..], n - 1, msg)
        case None => None
        case Some((keys, rest)) => Some(([SlotKey(p, hops[0], onion)] + keys, rest))
  }

  /** Where the kept slot i of the first hop is in the next hop's batch. */
  ghost function NextSlot(p: Params, hops: seq<Mixer>, batch: seq<Bytes>, i: nat): (j: nat)
    requires ValidChain(p, hops) && i < |batch| && Kept(Incoming(p, hops, batch), i)
    ensures j < |Outgoing(p, hops, batch)|
    ensures Outgoing(p, hops, batch)[j] == Incoming(p, hops, batch)[i].value
  {
    var inc, c := Incoming(p, hops, batch), Collected(p, hops, batch);
    KeptAt(inc, |inc|, i);
    hops[0].shuffle(|c|).to[|KeptMessages(inc, i)|]
  }

  /** What becomes of a slot: its message is answered, or it is lost at some depth, in some slot there. */
  datatype Fate = Answered(pos: nat) | Lost(depth: nat, slot: nat)

  ghost function FateOf(p: Params, hops: seq<Mixer>, batch: seq<Bytes>, answers: seq<Bytes>, i: nat): Fate
    requires ValidChain(p, hops) && i < |batch| && |answers| == |Delivered(p, hops, batch)|
    decreases |hops|
  {
    var inc := Incoming(p, hops, batch);
    if !Kept(inc, i) then Lost(0, i)
    else if |hops| == 1 then
      KeptAt(inc, |inc|, i);
      var pos := |KeptMessages(inc, i)|;
      if |answers[pos]| == p.sizeReply then Answered(pos) else Lost(0, i)
    else
      match FateOf(p, hops[1..], Outgoing(p, hops, batch), answers, NextSlot(p, hops, batch, i))
      case Answered(pos) => Answered(pos)
      case Lost(d, s) => Lost(d + 1, s)
  }

  lemma SealedSize(p: Params, msg: Bytes, nonce: Bytes, key: Bytes)
    requires p.Valid()
    ensures |p.crypto.seal(msg, nonce, key)| == |msg| + BoxOverhead
  {
  }

  lemma SlotSize(p: Params, hops: seq<Mixer>, batch: seq<Bytes>, replies: seq<Bytes>, i: nat)
    requires ValidChain(p, hops) && i < |batch| && |replies| >= |AllKept(Incoming(p, hops, batch))|
    ensures |SealSlot(p, hops, batch, replies, i)| == |hops| * BoxOverhead + p.sizeReply
  {
    var inc := Incoming(p, hops, batch);
    SealedSize(p, Zeros(ReplyMsgSize(p, |hops|)), BackwardNonce(p.round), hops[0].freshKey(i));
    if Kept(inc, i) {
      KeptAt(inc, |inc|, i);
      SealedSize(p, replies[|KeptMessages(inc, i)|], BackwardNonce(p.round), SlotKey(p, hops[0], batch[i]));
    }
  }

  lemma ReplyAt(p: Params, hops: seq<Mixer>, batch: seq<Bytes>, answers: seq<Bytes>, i: nat)
    requires ValidChain(p, hops) && i < |batch| && |answers| == |Delivered(p, hops, batch)|
    ensures Replies(p, hops, batch, answers)[i] == SealSlot(p, hops, batch, Back(p, hops, batch, answers), i)
    ensures |Replies(p, hops, batch, answers)[i]| == |hops| * BoxOverhead + p.sizeReply
  {
    SlotSize(p, hops, batch, Back(p, hops, batch, answers), i);
  }

  /** Every reply of a mixer has exactly the size the mixer before it expects. */
  lemma ReplySizes(p: Params, hops: seq<Mixer>, batch: seq<Bytes>, answers: seq<Bytes>)
    requires ValidChain(p, hops) && |answers| == |Delivered(p, hops, batch)|
    ensures forall i :: 0 <= i < |batch| ==> |Replies(p, hops, batch, answers)[i]| == ReplyMsgSize(p, |hops| + 1)
  {
    forall i | 0 <= i < |batch| ensures |Replies(p, hops, batch, answers)[i]| == ReplyMsgSize(p, |hops| + 1) {
      ReplyAt(p, hops, batch, answers, i);
    }
  }

  /** One hop of the way back: a kept slot's reply is the next hop's reply, sealed under the slot's key. */
  lemma ReplyStep(p: Params, hops: seq<Mixer>, batch: seq<Bytes>, answers: seq<Bytes>, i: nat)
    requires ValidChain(p, hops) && i < |batch| && |answers| == |Delivered(p, hops, batch)|
    requires |hops| > 1 && Kept(Incoming(p, hops, batch), i)
    ensures Replies(p, hops, batch, answers)[i] == p.crypto.seal(
      Replies(p, hops[1..], Outgoing(p, hops, batch), answers)[NextSlot(p, hops, batch, i)],
      BackwardNonce(p.round), SlotKey(p, hops[0], batch[i]))
  {
    var inc := Incoming(p, hops, batch);
    var inner := Replies(p, hops[1..], Outgoing(p, hops, batch), answers);
    var v := |KeptMessages(inc, i)|;
    KeptAt(inc, |inc|, i);
    ReplyAt(p, hops, batch, answers, i);
    ReplyAt(p, hops[1..], Outgoing(p, hops, batch), answers, NextSlot(p, hops, batch, i));
    assert Back(p, hops, batch, answers)[v] == inner[NextSlot(p, hops, batch, i)];
  }

  /** The onion holds the message, and the reply is the answer wrapped in the keys of the onion's layers. */
  predicate AnsweredBy(p: Params, hops: seq<Mixer>, onion: Bytes, msg: Bytes, answer: Bytes, reply: Bytes)
    requires p.round < TwoTo32
  {
    && Peel(p, hops, |hops|, onion).Some?
    && var (keys, rest) := Peel(p, hops, |hops|, onion).value;
    rest == msg && reply == SealLayers(p, keys, answer)
  }

  /** The reply is the dummy of a hop, wrapped in the keys of the layers before. */
  predicate LostAt(p: Params, hops: seq<Mixer>, onion: Bytes, depth: nat, slot: nat, reply: Bytes)
    requires p.round < TwoTo32
  {
    && depth < |hops| && Peel(p, hops, depth, onion).Some?
    && reply == SealLayers(p, Peel(p, hops, depth, onion).value.0, Dummy(p, hops[depth..], slot))
  }

  /** What slot i must get back when its fate is f. */
  ghost predicate Routed(p: Params, hops: seq<Mixer>, batch: seq<Bytes>, answers: seq<Bytes>, i: nat, f: Fate)
    requires ValidChain(p, hops) && i < |batch| && |answers| == |Delivered(p, hops, batch)|
  {
    var reply := Replies(p, hops, batch, answers)[i];
    match f
    case Answered(pos) =>
      && pos < |answers| && |answers[pos]| == p.sizeReply
      && AnsweredBy(p, hops, batch[i], Delivered(p, hops, batch)[pos], answers[pos], reply)
    case Lost(depth, slot) => LostAt(p, hops, batch[i], depth, slot, reply)
  }

  /**
   * Reply routing. A slot whose fate is an answer gets the service's answer to the very
   * message its onion holds, wrapped in the keys of its own onion; any other slot gets a
   * dummy of the hop that lost it, wrapped in the keys of the hops before.
   */
  lemma {:induction false} ReplyRouting(p: Params, hops: seq<Mixer>, batch: seq<Bytes>, answers: seq<Bytes>, i: nat)
    requires ValidChain(p, hops) && i < |batch| && |answers| == |Delivered(p, hops, batch)|
    ensures Routed(p, hops, batch, answers, i, FateOf(p, hops, batch, answers, i))
  {
    var inc := Incoming(p, hops, batch);
    if !Kept(inc, i) {
      ReplyAt(p, hops, batch, answers, i);
      assert hops[0..] == hops;
    } else if |hops| == 1 {
      LastHopRouted(p, hops, batch, answers, i);
    } else {
      var out, j := Outgoing(p, hops, batch), NextSlot(p, hops, batch, i);
      ReplyRouting(p, hops[1..], out, answers, j);
      RoutedStep(p, hops, batch, answers, i, FateOf(p, hops[1..], out, answers, j));
    }
  }

  lemma LastHopRouted(p: Params, hops: seq<Mixer>, batch: seq<Bytes>, answers: seq<Bytes>, i: nat)
    requires ValidChain(p, hops) && i < |batch| && |answers| == |Delivered(p, hops, batch)|
    requires |hops| == 1 && Kept(Incoming(p, hops, batch), i)
    ensures Routed(p, hops, batch, answers, i, FateOf(p, hops, batch, answers, i))
  {
    var inc := Incoming(p, hops, batch);
    ReplyAt(p, hops, batch, answers, i);
    KeptAt(inc, |inc|, i);
    assert inc[i] == OpenOnion(p, hops[0], 1, batch[i]);
    assert Peel(p, hops[1..], 0, inc[i].value) == Some(([], inc[i].value));
    var key := SlotKey(p, hops[0], batch[i]);
    assert SealLayers(p, [key], answers[|KeptMessages(inc, i)|])
        == p.crypto.seal(answers[|KeptMessages(inc, i)|], BackwardNonce(p.round), key);
    assert hops[0..] == hops;
  }

  lemma RoutedStep(p: Params, hops: seq<Mixer>, batch: seq<Bytes>, answers: seq<Bytes>, i: nat, f: Fate)
    requires ValidChain(p, hops) && i < |batch| && |answers| == |Delivered(p, hops, batch)|
    requires |hops| > 1 && Kept(Incoming(p, hops, batch), i)
    requires Routed(p, hops[1..], Outgoing(p, hops, batch), answers, NextSlot(p, hops, batch, i), f)
    ensures Routed(p, hops, batch, answers, i, match f case Answered(pos) => f case Lost(d, s) => Lost(d + 1, s))
  {
    assert Incoming(p, hops, batch)[i] == OpenOnion(p, hops[0], |hops|, batch[i]);
    ReplyStep(p, hops, batch, answers, i);
    var reply := Replies(p, hops[1..], Outgoing(p, hops, batch), answers)[NextSlot(p, hops, batch, i)];
    match f
    case Answered(pos) => AnsweredStep(p, hops, batch[i], Delivered(p, hops, batch)[pos], answers[pos], reply);
    case Lost(depth, slot) => LostStep(p, hops, batch[i], depth, slot, reply);
  }

  lemma AnsweredStep(p: Params, hops: seq<Mixer>, onion: Bytes, msg: Bytes, answer: Bytes, reply: Bytes)
    requires p.round < TwoTo32 && hops != [] && OpenOnion(p, hops[0], |hops|, onion).Some?
    requires AnsweredBy(p, hops[1..], OpenOnion(p, hops[0], |hops|, onion).value, msg, answer, reply)
    ensures AnsweredBy(p, hops, onion, msg, answer,
      p.crypto.seal(reply, BackwardNonce(p.round), SlotKey(p, hops[0], onion)))
  {
    PeelStep(p, hops, onion, |hops| - 1);
    var keys := Peel(p, hops[1..], |hops| - 1, OpenOnion(p, hops[0], |hops|, onion).value).value.0;
    SealStep(p, SlotKey(p, hops[0], onion), keys, answer);
  }

  lemma LostStep(p: Params, hops: seq<Mixer>, onion: Bytes, depth: nat, slot: nat, reply: Bytes)
    requires p.round < TwoTo32 && hops != [] && OpenOnion(p, hops[0], |hops|, onion).Some?
    requires LostAt(p, hops[1..], OpenOnion(p, hops[0], |hops|, onion).value, depth, slot, reply)
    ensures LostAt(p, hops, onion, depth + 1, slot,
      p.crypto.seal(reply, BackwardNonce(p.round), SlotKey(p, hops[0], onion)))
  {
    PeelStep(p, hops, onion, depth);
    var keys := Peel(p, hops[1..], depth, OpenOnion(p, hops[0], |hops|, onion).value).value.0;
    SealStep(p, SlotKey(p, hops[0], onion), keys, Dummy(p, hops[depth + 1..], slot));
  }

  lemma SealStep(p: Params, key: Bytes, keys: seq<Bytes>, inner: Bytes)
    requires p.round < TwoTo32
    ensures SealLayers(p, [key] + keys, inner) ==
      p.crypto.seal(SealLayers(p, keys, inner), BackwardNonce(p.round), key)
  {
    assert ([key] + keys)[1..] == keys;
  }

  /** The layers peeled from the next hop's onion, extended by the layer of this hop. */
  lemma PeelStep(p: Params, hops: seq<Mixer>, onion: Bytes, n: nat)
    requires p.round < TwoTo32 && n < |hops|
    requires OpenOnion(p, hops[0], |hops|, onion).Some?
    requires Peel(p, hops[1..], n, OpenOnion(p, hops[0], |hops|, onion).value).Some?
    ensures var (keys, rest) := Peel(p, hops[1..], n, OpenOnion(p, hops[0], |hops|, onion).value).value;
      Peel(p, hops, n + 1, onion) == Some(([SlotKey(p, hops[0], onion)] + keys, rest))
    ensures hops[1..][n..] == hops[n + 1..]
  {
  }

  /* ---- one-way delivery ---- */

  /** Where a delivered message can come from: a client slot, or a noise message of some hop. */
  datatype Source = Client(slot: nat) | Noise(hop: nat, index: nat)

  predicate IsSource(hops: seq<Mixer>, batch: seq<Bytes>, s: Source) {
    match s
    case Client(i) => i < |batch|
    case Noise(h, k) => h < |hops| && k < |hops[h].noise|
  }

  /** The delivered position of a source, if no hop drops it. */
  ghost function Arrival(p: Params, hops: seq<Mixer>, batch: seq<Bytes>, s: Source): Option<nat>
    requires ValidChain(p, hops) && IsSource(hops, batch, s)
    decreases |hops|
  {
    match s
    case Client(i) =>
      var inc := Incoming(p, hops, batch);
      if !Kept(inc, i) then None
      else if |hops| == 1 then Some(|KeptMessages(inc, i)|)
      else Arrival(p, hops[1..], Outgoing(p, hops, batch), Client(NextSlot(p, hops, batch, i)))
    case Noise(0, k) =>
      var at := |AllKept(Incoming(p, hops, batch))| + k;
      if |hops| == 1 then Some(at)
      else
        var c := Collected(p, hops, batch);
        Arrival(p, hops[1..], Outgoing(p, hops, batch), Client(hops[0].shuffle(|c|).to[at]))
    case Noise(h, k) => Arrival(p, hops[1..], Outgoing(p, hops, batch), Noise(h - 1, k))
  }

  /** The source collected at position at of the first hop, before it shuffles. */
  ghost function CollectedFrom(p: Params, hops: seq<Mixer>, batch: seq<Bytes>, at: nat): (s: Source)
    requires ValidChain(p, hops) && at < |Collected(p, hops, batch)|
    ensures IsSource(hops, batch, s)
  {
    var inc := Incoming(p, hops, batch);
    var kept := |AllKept(inc)|;
    if at < kept then Client(SlotOf(inc, |inc|, at)) else Noise(0, at - kept)
  }

  /** The source of a delivered position. */
  ghost function Origin(p: Params, hops: seq<Mixer>, batch: seq<Bytes>, pos: nat): (s: Source)
    requires ValidChain(p, hops) && pos < |Delivered(p, hops, batch)|
    ensures IsSource(hops, batch, s)
    decreases |hops|
  {
    if |hops| == 1 then CollectedFrom(p, hops, batch, pos)
    else match Origin(p, hops[1..], Outgoing(p, hops, batch), pos)
      case Client(j) =>
        var c := Collected(p, hops, batch);
        CollectedFrom(p, hops, batch, hops[0].shuffle(|c|).from[j])
      case Noise(h, k) => Noise(h + 1, k)
  }

  /** What a source carries to the end of the chain. */
  function Carried(p: Params, hops: seq<Mixer>, batch: seq<Bytes>, s: Source): Option<Bytes>
    requires p.round < TwoTo32 && IsSource(hops, batch, s)
  {
    match s
    case Client(i) => Core(p, hops, batch[i])
    case Noise(h, k) => Core(p, hops[h + 1..], hops[h].noise[k])
  }

  /** What is left of an onion when all hops have peeled it. */
  function Core(p: Params, hops: seq<Mixer>, onion: Bytes): Option<Bytes>
    requires p.round < TwoTo32
  {
    var peeled := Peel(p, hops, |hops|, onion);
    if peeled.Some? then Some(peeled.value.1) else None
  }

  lemma CoreStep(p: Params, hops: seq<Mixer>, onion: Bytes)
    requires p.round < TwoTo32
    ensures hops == [] ==> Core(p, hops, onion) == Some(onion)
    ensures hops != [] && OpenOnion(p, hops[0], |hops|, onion).Some? ==>
      Core(p, hops, onion) == Core(p, hops[1..], OpenOnion(p, hops[0], |hops|, onion).value)
  {
  }

  /** Every delivered message comes from a source that arrives there and carried exactly it. */
  lemma {:induction false} DeliveredHasSource(p: Params, hops: seq<Mixer>, batch: seq<Bytes>, pos: nat)
    requires ValidChain(p, hops) && pos < |Delivered(p, hops, batch)|
    ensures Arrival(p, hops, batch, Origin(p, hops, batch, pos)) == Some(pos)
    ensures Carried(p, hops, batch, Origin(p, hops, batch, pos)) == Some(Delivered(p, hops, batch)[pos])
  {
    if |hops| > 1 {
      var c, out := Collected(p, hops, batch), Outgoing(p, hops, batch);
      DeliveredHasSource(p, hops[1..], out, pos);
      match Origin(p, hops[1..], out, pos)
      case Client(j) => CollectedArrives(p, hops, batch, hops[0].shuffle(|c|).from[j]);
      case Noise(h, k) => LaterNoise(p, hops, batch, h, k);
    } else {
      CollectedArrives(p, hops, batch, pos);
    }
  }

  /** Noise of a later hop means the same to the whole chain as to the chain without its first hop. */
  lemma LaterNoise(p: Params, hops: seq<Mixer>, batch: seq<Bytes>, h: nat, k: nat)
    requires ValidChain(p, hops) && |hops| > 1 && IsSource(hops[1..], Outgoing(p, hops, batch), Noise(h, k))
    ensures Arrival(p, hops, batch, Noise(h + 1, k)) == Arrival(p, hops[1..], Outgoing(p, hops, batch), Noise(h, k))
    ensures Carried(p, hops, batch, Noise(h + 1, k)) == Carried(p, hops[1..], Outgoing(p, hops, batch), Noise(h, k))
  {
    LaterNoiseArrives(p, hops, batch, h, k);
    LaterNoiseCarries(p, hops, batch, h, k);
  }

  lemma LaterNoiseCarries(p: Params, hops: seq<Mixer>, batch: seq<Bytes>, h: nat, k: nat)
    requires ValidChain(p, hops) && |hops| > 1 && IsSource(hops[1..], Outgoing(p, hops, batch), Noise(h, k))
    ensures IsSource(hops, batch, Noise(h + 1, k))
    ensures Carried(p, hops, batch, Noise(h + 1, k)) == Carried(p, hops[1..], Outgoing(p, hops, batch), Noise(h, k))
  {
    assert hops[1..][h + 1..] == hops[h + 2..] && hops[1..][h] == hops[h + 1];
  }

  lemma LaterNoiseArrives(p: Params, hops: seq<Mixer>, batch: seq<Bytes>, h: nat, k: nat)
    requires ValidChain(p, hops) && |hops| > 1 && IsSource(hops[1..], Outgoing(p, hops, batch), Noise(h, k))
    ensures IsSource(hops, batch, Noise(h + 1, k))
    ensures Arrival(p, hops, batch, Noise(h + 1, k)) == Arrival(p, hops[1..], Outgoing(p, hops, batch), Noise(h, k))
  {
    assert hops[1..][h] == hops[h + 1];
  }

  /** The source at a collected position goes where that position goes, and carries what it carries. */
  ghost predicate GoesOnAs(p: Params, hops: seq<Mixer>, batch: seq<Bytes>, s: Source, at: nat)
    requires ValidChain(p, hops) && IsSource(hops, batch, s) && at < |Collected(p, hops, batch)|
  {
    var c := Collected(p, hops, batch);
    if |hops| == 1 then Arrival(p, hops, batch, s) == Some(at) && Carried(p, hops, batch, s) == Some(c[at])
    else
      var out, j := Outgoing(p, hops, batch), hops[0].shuffle(|c|).to[at];
      && Arrival(p, hops, batch, s) == Arrival(p, hops[1..], out, Client(j))
      && Carried(p, hops, batch, s) == Carried(p, hops[1..], out, Client(j))
  }

  lemma ClientGoesOn(p: Params, hops: seq<Mixer>, batch: seq<Bytes>, i: nat)
    requires ValidChain(p, hops) && i < |batch| && Kept(Incoming(p, hops, batch), i)
    ensures |KeptMessages(Incoming(p, hops, batch), i)| < |Collected(p, hops, batch)|
    ensures GoesOnAs(p, hops, batch, Client(i), |KeptMessages(Incoming(p, hops, batch), i)|)
  {
    var inc := Incoming(p, hops, batch);
    KeptAt(inc, |inc|, i);
    assert inc[i] == OpenOnion(p, hops[0], |hops|, batch[i]);
    CoreStep(p, hops, batch[i]);
    if |hops| == 1 {
      CoreStep(p, hops[1..], inc[i].value);
    } else {
      assert Outgoing(p, hops, batch)[NextSlot(p, hops, batch, i)] == inc[i].value;
    }
  }

  lemma NoiseGoesOn(p: Params, hops: seq<Mixer>, batch: seq<Bytes>, k: nat)
    requires ValidChain(p, hops) && k < |hops[0].noise|
    ensures GoesOnAs(p, hops, batch, Noise(0, k), |AllKept(Incoming(p, hops, batch))| + k)
  {
    var c, at := Collected(p, hops, batch), |AllKept(Incoming(p, hops, batch))| + k;
    assert c[at] == hops[0].noise[k];
    if |hops| == 1 {
      CoreStep(p, hops[1..], c[at]);
    } else {
      assert Outgoing(p, hops, batch)[hops[0].shuffle(|c|).to[at]] == c[at];
    }
  }

  lemma CollectedArrives(p: Params, hops: seq<Mixer>, batch: seq<Bytes>, at: nat)
    requires ValidChain(p, hops) && at < |Collected(p, hops, batch)|
    ensures GoesOnAs(p, hops, batch, CollectedFrom(p, hops, batch, at), at)
  {
    var inc := Incoming(p, hops, batch);
    if at < |AllKept(inc)| {
      ClientGoesOn(p, hops, batch, SlotOf(inc, |inc|, at));
    } else {
      NoiseGoesOn(p, hops, batch, at - |AllKept(inc)|);
    }
  }

  /** A position whose next slot is the origin further on is the origin here. */
  lemma OriginBefore(p: Params, hops: seq<Mixer>, batch: seq<Bytes>, at: nat, pos: nat)
    requires ValidChain(p, hops) && |hops| > 1 && at < |Collected(p, hops, batch)|
    requires pos < |Delivered(p, hops[1..], Outgoing(p, hops, batch))|
    requires Origin(p, hops[1..], Outgoing(p, hops, batch), pos) ==
      Client(hops[0].shuffle(|Collected(p, hops, batch)|).to[at])
    ensures pos < |Delivered(p, hops, batch)| && Origin(p, hops, batch, pos) == CollectedFrom(p, hops, batch, at)
  {
  }

  /** A source arrives at one position at most, and that position names it as its origin. */
  lemma {:induction false} ArrivalIsUnique(p: Params, hops: seq<Mixer>, batch: seq<Bytes>, s: Source)
    requires ValidChain(p, hops) && IsSource(hops, batch, s) && Arrival(p, hops, batch, s).Some?
    ensures Arrival(p, hops, batch, s).value < |Delivered(p, hops, batch)|
    ensures Origin(p, hops, batch, Arrival(p, hops, batch, s).value) == s
    decreases |hops|
  {
    match s
    case Client(i) => ClientArrival(p, hops, batch, i);
    case Noise(h, k) =>
      if h == 0 {
        NoiseArrival(p, hops, batch, k);
      } else {
        ArrivalIsUnique(p, hops[1..], Outgoing(p, hops, batch), Noise(h - 1, k));
      }
  }

  lemma {:induction false} ClientArrival(p: Params, hops: seq<Mixer>, batch: seq<Bytes>, i: nat)
    requires ValidChain(p, hops) && IsSource(hops, batch, Client(i)) && Arrival(p, hops, batch, Client(i)).Some?
    ensures Arrival(p, hops, batch, Client(i)).value < |Delivered(p, hops, batch)|
    ensures Origin(p, hops, batch, Arrival(p, hops, batch, Client(i)).value) == Client(i)
    decreases |hops|, 0
  {
    var inc := Incoming(p, hops, batch);
    KeptAt(inc, |inc|, i);
    if |hops| > 1 {
      var out, j := Outgoing(p, hops, batch), NextSlot(p, hops, batch, i);
      ClientArrival(p, hops[1..], out, j);
      OriginBefore(p, hops, batch, |KeptMessages(inc, i)|, Arrival(p, hops[1..], out, Client(j)).value);
    }
  }

  lemma NoiseArrival(p: Params, hops: seq<Mixer>, batch: seq<Bytes>, k: nat)
    requires ValidChain(p, hops) && IsSource(hops, batch, Noise(0, k)) && Arrival(p, hops, batch, Noise(0, k)).Some?
    ensures Arrival(p, hops, batch, Noise(0, k)).value < |Delivered(p, hops, batch)|
    ensures Origin(p, hops, batch, Arrival(p, hops, batch, Noise(0, k)).value) == Noise(0, k)
  {
    var at := |AllKept(Incoming(p, hops, batch))| + k;
    assert CollectedFrom(p, hops, batch, at) == Noise(0, k);
    if |hops| > 1 {
      var out, j := Outgoing(p, hops, batch), hops[0].shuffle(|Collected(p, hops, batch)|).to[at];
      ClientArrival(p, hops[1..], out, j);
      OriginBefore(p, hops, batch, at, Arrival(p, hops[1..], out, Client(j)).value);
    }
  }

  /** No two sources are delivered to one position, and so no source is delivered twice. */
  lemma DeliveryIsInjective(p: Params, hops: seq<Mixer>, batch: seq<Bytes>, s: Source, t: Source)
    requires ValidChain(p, hops) && IsSource(hops, batch, s) && IsSource(hops, batch, t)
    requires Arrival(p, hops, batch, s).Some? && Arrival(p, hops, batch, s) == Arrival(p, hops, batch, t)
    ensures s == t
  {
    ArrivalIsUnique(p, hops, batch, s);
    ArrivalIsUnique(p, hops, batch, t);
  }

  /* ---- honest onions ---- */

  /** An onion for the mixers with public keys pubs, built with one ephemeral private key per layer. */
  function SealOnion(p: Params, msg: Bytes, pubs: seq<Bytes>, ephemerals: seq<Bytes>): Bytes
    requires p.round < TwoTo32 && |pubs| == |ephemerals|
  {
    if pubs == [] then msg
    else p.crypto.publicKey(ephemerals[0]) + p.crypto.seal(
      SealOnion(p, msg, pubs[1..], ephemerals[1..]), ForwardNonce(p.round), p.crypto.precompute(pubs[0], ephemerals[0]))
  }

  function OnionKeys(p: Params, hops: seq<Mixer>): seq<Bytes> {
    seq(|hops|, h requires 0 <= h < |hops| => p.crypto.publicKey(hops[h].priv))
  }

  function SharedKeys(p: Params, hops: seq<Mixer>, ephemerals: seq<Bytes>): seq<Bytes>
    requires |hops| == |ephemerals|
  {
    seq(|hops|, h requires 0 <= h < |hops| => p.crypto.precompute(OnionKeys(p, hops)[h], ephemerals[h]))
  }

  /** A sealed onion has the size each mixer expects and peels to its message under the sender's keys. */
  lemma {:induction false} SealedOnionPeels(p: Params, hops: seq<Mixer>, msg: Bytes, ephemerals: seq<Bytes>)
    requires p.Valid() && |hops| == |ephemerals| && |msg| == p.sizeIncoming
    ensures |SealOnion(p, msg, OnionKeys(p, hops), ephemerals)| == OnionSize(p, |hops|)
    ensures Peel(p, hops, |hops|, SealOnion(p, msg, OnionKeys(p, hops), ephemerals))
      == Some((SharedKeys(p, hops, ephemerals), msg))
  {
    if hops == [] {
      assert SharedKeys(p, hops, ephemerals) == [];
    } else {
      var pubs := OnionKeys(p, hops);
      assert pubs[1..] == OnionKeys(p, hops[1..]);
      var inner := SealOnion(p, msg, pubs[1..], ephemerals[1..]);
      SealedOnionPeels(p, hops[1..], msg, ephemerals[1..]);
      SealedLayerOpens(p, hops[0], |hops|, inner, ephemerals[0]);
      assert SharedKeys(p, hops, ephemerals)
          == [p.crypto.precompute(pubs[0], ephemerals[0])] + SharedKeys(p, hops[1..], ephemerals[1..]);
    }
  }

  /** One layer: the mixer finds what was sealed for it, under the key the sender used. */
  lemma SealedLayerOpens(p: Params, m: Mixer, hopsLeft: nat, inner: Bytes, ephemeral: Bytes)
    requires p.Valid() && hopsLeft > 0 && |inner| == OnionSize(p, hopsLeft - 1)
    ensures var key := p.crypto.precompute(p.crypto.publicKey(m.priv), ephemeral);
      var onion := p.crypto.publicKey(ephemeral) + p.crypto.seal(inner, ForwardNonce(p.round), key);
      && |onion| == OnionSize(p, hopsLeft)
      && OpenOnion(p, m, hopsLeft, onion) == Some(inner) && SlotKey(p, m, onion) == key
  {
    var key := p.crypto.precompute(p.crypto.publicKey(m.priv), ephemeral);
    var head, box := p.crypto.publicKey(ephemeral), p.crypto.seal(inner, ForwardNonce(p.round), key);
    assert (head + box)[..KeySize] == head && (head + box)[KeySize..] == box;
  }

  /** Every hop's noise is onions for the hops after it, as GenerateNoise builds them. */
  ghost predicate HonestNoise(p: Params, hops: seq<Mixer>) {
    p.round < TwoTo32 && forall h, k :: 0 <= h < |hops| && 0 <= k < |hops[h].noise| ==>
        NoiseOnion(p, hops[h + 1..], hops[h].noise[k])
  }

  ghost predicate NoiseOnion(p: Params, next: seq<Mixer>, onion: Bytes)
    requires p.round < TwoTo32
  {
    exists msg, eph :: |msg| == p.sizeIncoming && |eph| == |next| && onion == SealOnion(p, msg, OnionKeys(p, next), eph)
  }

  /** What a hop collects has the size the next hop expects, its own noise included. */
  lemma CollectedSizes(p: Params, hops: seq<Mixer>, batch: seq<Bytes>, at: nat)
    requires ValidChain(p, hops) && HonestNoise(p, hops) && at < |Collected(p, hops, batch)|
    ensures |Collected(p, hops, batch)[at]| == OnionSize(p, |hops| - 1)
  {
    var inc := Incoming(p, hops, batch);
    OpenedReadable(p, hops[0], |hops|, batch);
    if at < |AllKept(inc)| {
      var i := SlotOf(inc, |inc|, at);
    } else {
      var onion := hops[0].noise[at - |AllKept(inc)|];
      assert NoiseOnion(p, hops[1..], onion);
      var msg, eph :| |msg| == p.sizeIncoming && |eph| == |hops| - 1 &&
          onion == SealOnion(p, msg, OnionKeys(p, hops[1..]), eph);
      SealedOnionPeels(p, hops[1..], msg, eph);
    }
  }

  lemma HonestTail(p: Params, hops: seq<Mixer>)
    requires HonestNoise(p, hops) && hops != []
    ensures HonestNoise(p, hops[1..])
  {
    forall h, k | 0 <= h < |hops[1..]| && 0 <= k < |hops[1..][h].noise|
      ensures NoiseOnion(p, hops[1..][h + 1..], hops[1..][h].noise[k])
    {
      assert hops[1..][h + 1..] == hops[h + 1 + 1..];
      assert NoiseOnion(p, hops[h + 1 + 1..], hops[h + 1].noise[k]);
    }
  }

  /** Everything the first hop sends on has the size the next hop accepts. */
  lemma OutgoingSizes(p: Params, hops: seq<Mixer>, batch: seq<Bytes>)
    requires ValidChain(p, hops) && HonestNoise(p, hops)
    ensures forall j :: 0 <= j < |Outgoing(p, hops, batch)| ==>
      |Outgoing(p, hops, batch)[j]| == OnionSize(p, |hops| - 1)
  {
    var c := Collected(p, hops, batch);
    forall j | 0 <= j < |Outgoing(p, hops, batch)|
      ensures |Outgoing(p, hops, batch)[j]| == OnionSize(p, |hops| - 1)
    {
      CollectedSizes(p, hops, batch, hops[0].shuffle(|c|).from[j]);
    }
  }

  /** The batches the mixers of a chain receive. */
  ghost function BatchAt(p: Params, hops: seq<Mixer>, batch: seq<Bytes>, h: nat): seq<Bytes>
    requires ValidChain(p, hops) && h < |hops|
  {
    if h == 0 then batch else BatchAt(p, hops[1..], Outgoing(p, hops, batch), h - 1)
  }

  /** At no position after the first does an honest chain receive, or finally deliver, a message of the wrong size. */
  lemma {:induction false} ForwardSizes(p: Params, hops: seq<Mixer>, batch: seq<Bytes>)
    requires ValidChain(p, hops) && HonestNoise(p, hops)
    ensures forall h, j :: 0 < h < |hops| && 0 <= j < |BatchAt(p, hops, batch, h)| ==>
      |BatchAt(p, hops, batch, h)[j]| == OnionSize(p, |hops| - h)
    ensures forall j :: 0 <= j < |Delivered(p, hops, batch)| ==> |Delivered(p, hops, batch)[j]| == p.sizeIncoming
    decreases |hops|
  {
    if |hops| > 1 {
      var out := Outgoing(p, hops, batch);
      HonestTail(p, hops);
      OutgoingSizes(p, hops, batch);
      ForwardSizes(p, hops[1..], out);
      forall h, j | 0 < h < |hops| && 0 <= j < |BatchAt(p, hops, batch, h)|
        ensures |BatchAt(p, hops, batch, h)[j]| == OnionSize(p, |hops| - h)
      {
        assert BatchAt(p, hops, batch, h) == BatchAt(p, hops[1..], out, h - 1);
      }
    } else {
      forall j | 0 <= j < |Delivered(p, hops, batch)| ensures |Delivered(p, hops, batch)[j]| == p.sizeIncoming {
        CollectedSizes(p, hops, batch, j);
      }
    }
  }

  /* ---- sealed messages that are first with their deduplication keys ---- */

  /** Slot i holds the message, sealed for the chain. */
  ghost predicate IsSealed(p: Params, hops: seq<Mixer>, batch: seq<Bytes>, i: nat, msg: Bytes, ephemerals: seq<Bytes>) {
    && ValidChain(p, hops) && i < |batch| && |msg| == p.sizeIncoming && |ephemerals| == |hops|
    && batch[i] == SealOnion(p, msg, OnionKeys(p, hops), ephemerals)
  }

  /** What the first hop finds in the onion. */
  function Inner(p: Params, hops: seq<Mixer>, msg: Bytes, ephemerals: seq<Bytes>): Bytes
    requires p.round < TwoTo32 && |hops| == |ephemerals| > 0
  {
    SealOnion(p, msg, OnionKeys(p, hops[1..]), ephemerals[1..])
  }

  function Tail(msg: Bytes): Bytes
    requires |msg| >= 8
  {
    msg[|msg| - 8..]
  }

  /** Deduplication keys are equal exactly when the last eight bytes are. */
  lemma SameKeyIff(a: Bytes, b: Bytes)
    requires |a| >= 8 && |b| >= 8
    ensures DedupKey(a) == DedupKey(b) <==> Tail(a) == Tail(b)
  {
    if DedupKey(a) == DedupKey(b) {
      BigEndianInjective(Tail(a), Tail(b));
    }
  }

  /** The sealed onion opens at the first hop, to its inner layer. */
  lemma SealedOpens(p: Params, hops: seq<Mixer>, batch: seq<Bytes>, i: nat, msg: Bytes, ephemerals: seq<Bytes>)
    requires IsSealed(p, hops, batch, i, msg, ephemerals)
    ensures Incoming(p, hops, batch)[i] == Some(Inner(p, hops, msg, ephemerals))
    ensures |Inner(p, hops, msg, ephemerals)| >= 8
  {
    assert OnionKeys(p, hops)[1..] == OnionKeys(p, hops[1..]);
    SealedOnionPeels(p, hops[1..], msg, ephemerals[1..]);
    SealedLayerOpens(p, hops[0], |hops|, Inner(p, hops, msg, ephemerals), ephemerals[0]);
  }

  /** No message that the first hop finds in an earlier slot ends in the same eight bytes. */
  ghost predicate FirstHere(p: Params, hops: seq<Mixer>, batch: seq<Bytes>, i: nat, msg: Bytes, ephemerals: seq<Bytes>)
    requires IsSealed(p, hops, batch, i, msg, ephemerals)
  {
    var inc := Incoming(p, hops, batch);
    SealedOpens(p, hops, batch, i, msg, ephemerals);
    forall j :: 0 <= j < i && inc[j].Some? ==> Tail(inc[j].value) != Tail(Inner(p, hops, msg, ephemerals))
  }

  lemma FirstIsKept(p: Params, hops: seq<Mixer>, batch: seq<Bytes>, i: nat, msg: Bytes, ephemerals: seq<Bytes>)
    requires IsSealed(p, hops, batch, i, msg, ephemerals)
    ensures Kept(Incoming(p, hops, batch), i) <==> FirstHere(p, hops, batch, i, msg, ephemerals)
  {
    var inc := Incoming(p, hops, batch);
    SealedOpens(p, hops, batch, i, msg, ephemerals);
    forall j | 0 <= j < i && inc[j].Some?
      ensures DedupKey(inc[j].value) == DedupKey(inc[i].value) <==> Tail(inc[j].value) == Tail(inc[i].value)
    {
      SameKeyIff(inc[j].value, inc[i].value);
    }
  }

  /** The next hop's batch holds the message sealed for the rest of the chain. */
  lemma SealedGoesOn(p: Params, hops: seq<Mixer>, batch: seq<Bytes>, i: nat, msg: Bytes, ephemerals: seq<Bytes>)
    requires IsSealed(p, hops, batch, i, msg, ephemerals) && |hops| > 1 && Kept(Incoming(p, hops, batch), i)
    ensures IsSealed(p, hops[1..], Outgoing(p, hops, batch), NextSlot(p, hops, batch, i), msg, ephemerals[1..])
  {
    SealedOpens(p, hops, batch, i, msg, ephemerals);
  }

  /** At each hop the onion's inner layer is the first message that ends in its eight bytes. */
  ghost predicate FirstAtEachHop(p: Params, hops: seq<Mixer>, batch: seq<Bytes>, i: nat, msg: Bytes,
                                 ephemerals: seq<Bytes>)
    requires IsSealed(p, hops, batch, i, msg, ephemerals)
    decreases |hops|
  {
    && FirstHere(p, hops, batch, i, msg, ephemerals)
    && (|hops| == 1 || (
          FirstIsKept(p, hops, batch, i, msg, ephemerals);
          SealedGoesOn(p, hops, batch, i, msg, ephemerals);
          FirstAtEachHop(p, hops[1..], Outgoing(p, hops, batch), NextSlot(p, hops, batch, i), msg, ephemerals[1..])))
  }

  /** A sealed message arrives exactly when it is first with its deduplication key at each hop. */
  lemma {:induction false} SealedArrivesIff(p: Params, hops: seq<Mixer>, batch: seq<Bytes>, i: nat, msg: Bytes,
                                            ephemerals: seq<Bytes>)
    requires IsSealed(p, hops, batch, i, msg, ephemerals)
    ensures Arrival(p, hops, batch, Client(i)).Some? <==> FirstAtEachHop(p, hops, batch, i, msg, ephemerals)
    decreases |hops|
  {
    FirstIsKept(p, hops, batch, i, msg, ephemerals);
    if |hops| > 1 && Kept(Incoming(p, hops, batch), i) {
      SealedGoesOn(p, hops, batch, i, msg, ephemerals);
      SealedArrivesIff(p, hops[1..], Outgoing(p, hops, batch), NextSlot(p, hops, batch, i), msg, ephemerals[1..]);
    }
  }

  /** A slot is answered exactly when it arrives and its answer has the service's reply size. */
  lemma {:induction false} AnsweredIff(p: Params, hops: seq<Mixer>, batch: seq<Bytes>, answers: seq<Bytes>, i: nat)
    requires ValidChain(p, hops) && i < |batch| && |answers| == |Delivered(p, hops, batch)|
    ensures var arrival := Arrival(p, hops, batch, Client(i));
      && (arrival.Some? ==> arrival.value < |answers|)
      && (FateOf(p, hops, batch, answers, i).Answered? <==> arrival.Some? && |answers[arrival.value]| == p.sizeReply)
      && (FateOf(p, hops, batch, answers, i).Answered? ==>
          FateOf(p, hops, batch, answers, i) == Answered(arrival.value))
    decreases |hops|
  {
    var inc := Incoming(p, hops, batch);
    if Kept(inc, i) {
      if |hops| == 1 {
        KeptAt(inc, |inc|, i);
      } else {
        AnsweredIff(p, hops[1..], Outgoing(p, hops, batch), answers, NextSlot(p, hops, batch, i));
      }
    }
  }

  /**
   * A client's sealed message that is first with its deduplication key at each hop is delivered, at exactly one
   * position.
   */
  lemma ClientDelivered(p: Params, hops: seq<Mixer>, batch: seq<Bytes>, i: nat, msg: Bytes, ephemerals: seq<Bytes>)
    returns (pos: nat)
    requires IsSealed(p, hops, batch, i, msg, ephemerals) && FirstAtEachHop(p, hops, batch, i, msg, ephemerals)
    ensures Arrival(p, hops, batch, Client(i)) == Some(pos)
    ensures pos < |Delivered(p, hops, batch)| && Delivered(p, hops, batch)[pos] == msg
    ensures forall q :: 0 <= q < |Delivered(p, hops, batch)| ==> (Origin(p, hops, batch, q) == Client(i) <==> q == pos)
  {
    SealedArrivesIff(p, hops, batch, i, msg, ephemerals);
    ArrivalIsUnique(p, hops, batch, Client(i));
    pos := Arrival(p, hops, batch, Client(i)).value;
    DeliveredHasSource(p, hops, batch, pos);
    SealedOnionPeels(p, hops, msg, ephemerals);
    forall q | 0 <= q < |Delivered(p, hops, batch)| && Origin(p, hops, batch, q) == Client(i) ensures q == pos {
      DeliveredHasSource(p, hops, batch, q);
    }
  }

  /**
   * The client's view: the service sees the message that it sealed, at one position, and when the answer
   * for that position has the service's reply size, the client's own keys open the reply to it.
   */
  lemma ClientRoundTrip(p: Params, hops: seq<Mixer>, batch: seq<Bytes>, answers: seq<Bytes>,
                        i: nat, msg: Bytes, ephemerals: seq<Bytes>) returns (pos: nat)
    requires IsSealed(p, hops, batch, i, msg, ephemerals) && FirstAtEachHop(p, hops, batch, i, msg, ephemerals)
    requires |answers| == |Delivered(p, hops, batch)|
    ensures pos < |answers| && Delivered(p, hops, batch)[pos] == msg
    ensures |answers[pos]| == p.sizeReply ==>
      OpenLayers(p, SharedKeys(p, hops, ephemerals), Replies(p, hops, batch, answers)[i]) == Some(answers[pos])
  {
    pos := ClientDelivered(p, hops, batch, i, msg, ephemerals);
    AnsweredIff(p, hops, batch, answers, i);
    SealedOnionPeels(p, hops, msg, ephemerals);
    ReplyRouting(p, hops, batch, answers, i);
    OpenSealedLayers(p, SharedKeys(p, hops, ephemerals), answers[pos]);
  }
}
