/**
 * From a friend request to a call: the add-friend protocol, the two keywheels, the mix chain and the dialing mailbox
 * together.
 */
module FriendCalls {
  import opened Base
  import opened Keywheel
  import opened Bloom
  import opened Dialing
  import opened MixChain
  import opened MixRouting
  import A = AddFriend

  /** The secrets that operations put on a wheel, oldest first. */
  function PutsOf(ops: seq<WheelOp>): seq<(string, RoundSecret)> {
    if ops == [] then []
    else
      var op := ops[|ops| - 1];
      PutsOf(ops[..|ops| - 1]) + if op.PutOp? then [(op.username, RoundSecret(op.round, op.secret))] else []
  }

  /** The last secret put for a user. */
  predicate IsLastPut(puts: seq<(string, RoundSecret)>, username: string, i: nat) {
    i < |puts| && puts[i].0 == username && forall k :: i < k < |puts| ==> puts[k].0 != username
  }

  /** A user who is on the wheel has the secret that was put for it last. */
  lemma {:induction false} LifeIsLastPut(ops: seq<WheelOp>, username: string) returns (i: nat)
    requires LifeOf(ops, username).Some?
    ensures IsLastPut(PutsOf(ops), username, i) && PutsOf(ops)[i].1 == LifeOf(ops, username).value.put
  {
    var op, before := ops[|ops| - 1], ops[..|ops| - 1];
    if op.PutOp? && op.username == username {
      i := |PutsOf(before)|;
    } else {
      i := LifeIsLastPut(before, username);
    }
  }

  /**
   * The wheel went through these operations: its puts are those of the client, and it was erased and cleaned up in
   * between.
   */
  ghost predicate WheelOf(s: A.State, ops: seq<WheelOp>, friend: string) {
    && PutsOf(ops) == s.puts && LifeOf(ops, friend).Some? && Rounds(LifeOf(ops, friend).value.erased)
  }

  /** Over a run of the protocol the two clients made each other friends, and wrote once to each other for it. */
  ghost predicate AreFriends(v: A.World, a: string, b: string, i: nat, j: nat, aOps: seq<WheelOp>, bOps: seq<WheelOp>) {
    && a in v.clients && b in v.clients && WheelOf(v.clients[a], aOps, b) && WheelOf(v.clients[b], bOps, a)
    && IsLastPut(v.clients[a].puts, b, i) && IsLastPut(v.clients[b].puts, a, j)
    && v.clients[a].puts[i].1.round == v.clients[b].puts[j].1.round
    && A.WroteOnce(v.net, a, b, v.clients[a].puts[i].1.round) && A.WroteOnce(v.net, b, a, v.clients[a].puts[i].1.round)
  }

  /**
   * Two clients whose last friendship with each other is of one dial round have wheels that agree, after any run of
   * the protocol and any erasures.
   */
  lemma FriendsWheelsAgree(h: Hashes, g: A.Group, w: A.World, events: seq<A.Event>, a: string, b: string, i: nat,
                           j: nat, aOps: seq<WheelOp>, bOps: seq<WheelOp>)
    requires g.Lawful() && A.Initial(w) && AreFriends(A.Run(g, w, events), a, b, i, j, aOps, bOps)
    ensures b in Run(h, map[], aOps) && a in Run(h, map[], bOps)
    ensures Agree(h, Run(h, map[], aOps)[b], Run(h, map[], bOps)[a])
  {
    A.FriendsAgree(g, w, events, a, b, i, j);
    var k := LifeIsLastPut(aOps, b);
    var l := LifeIsLastPut(bOps, a);
    assert k == i && l == j;
    FriendsAgree(h, aOps, b, bOps, a);
  }

  /** The wheels of the two have each other, and have not passed the round. */
  ghost predicate StillHave(aWheel: Secrets, bWheel: Secrets, a: string, b: string, round: nat) {
    b in aWheel && a in bWheel && aWheel[b].round <= round && bWheel[a].round <= round
  }

  /**
   * A call between friends is heard. After any run of the add-friend protocol in which the two made each
   * other friends, and whatever their wheels went through since, a call that the one sends through the mix
   * chain, first with its deduplication key at each hop, is heard by the other with the caller's name, the
   * intent and the caller's own session key, as long as neither wheel has passed the round; and the intent
   * is heard exactly when it is one of the intents.
   */
  lemma FriendsCallIsHeard(h: Hashes, g: A.Group, w: A.World, events: seq<A.Event>, a: string, b: string, i: nat,
                           j: nat, aOps: seq<WheelOp>, bOps: seq<WheelOp>, aWheel: Secrets, bWheel: Secrets,
                           sip: SipHash, sizes: Sizing, sha256: string -> Bytes,
                           intent: int, numIntents: nat, numMailboxes: nat,
                           p: Params, hops: seq<Mixer>, batch: seq<Bytes>, slot: nat, ephemerals: seq<Bytes>,
                           shuffler: Shuffler, mailboxes: map<nat, Bytes>)
    requires g.Lawful() && A.Initial(w) && AreFriends(A.Run(g, w, events), a, b, i, j, aOps, bOps)
    requires aWheel == Run(h, map[], aOps) && bWheel == Run(h, map[], bOps) && StillHave(aWheel, bWheel, a, b, p.round)
    requires h.Lawful() && |sha256(b)| == 32 && b != "" && 0 < numMailboxes < TwoTo32 && numIntents <= TwoTo32
    requires var msg := CallMessage(h, sha256, aWheel[b], b, p.round, intent, numMailboxes);
      && p.sizeIncoming == SizeMixMessage && IsSealed(p, hops, batch, slot, msg, ephemerals)
      && FirstAtEachHop(p, hops, batch, slot, msg, ephemerals)
    requires PublishedFrom(sip, sizes, shuffler, p, hops, batch, mailboxes)
    ensures var mbox := MailboxAmong(sha256, b, numMailboxes);
      && mbox in mailboxes
      && (0 <= intent < numIntents <==>
            HearsIntent(h, sip, a, b, aWheel[b], bWheel, p.round, intent, numIntents, mailboxes[mbox]))
  {
    FriendsWheelsAgree(h, g, w, events, a, b, i, j, aOps, bOps);
    OwnIntentHeardIff(h, sip, sizes, sha256, a, b, aWheel[b], bWheel, intent, numIntents, numMailboxes,
                      p, hops, batch, slot, ephemerals, shuffler, mailboxes);
  }
}
