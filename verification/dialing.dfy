/** Dialing: the message a call travels in, the last mixer's grouping into filters, and what callees hear. */
module Dialing {
  import opened Base
  import opened Bloom
  import opened Keywheel
  import opened MixChain
  import opened MixRouting

  const SizeMixMessage: nat := 4 + TokenSize

  /** The dialing message on the wire: a mailbox and a token. */
  function MixMessage(mailbox: nat, token: Bytes): (m: Bytes)
    requires mailbox < TwoTo32 && |token| == TokenSize
    ensures |m| == SizeMixMessage
  {
    PutUint32(mailbox) + token
  }

  function MailboxOf(m: Bytes): nat
    requires |m| == SizeMixMessage
  {
    BigEndian(m[..4])
  }

  function TokenOf(m: Bytes): Bytes
    requires |m| == SizeMixMessage
  {
    m[4..]
  }

  lemma MixMessageRoundTrip(mailbox: nat, token: Bytes)
    requires mailbox < TwoTo32 && |token| == TokenSize
    ensures MailboxOf(MixMessage(mailbox, token)) == mailbox && TokenOf(MixMessage(mailbox, token)) == token
  {
    PutUint32RoundTrip(mailbox);
    assert MixMessage(mailbox, token)[..4] == PutUint32(mailbox);
  }

  /** The mailbox of a user among some mailboxes, from the first word of the hash of its name; 0 for no user. */
  function MailboxAmong(sha256: string -> Bytes, username: string, numMailboxes: nat): (mbox: nat)
    requires 0 < numMailboxes < TwoTo32 && |sha256(username)| == 32
    ensures mbox <= numMailboxes && (mbox == 0 <==> username == "")
  {
    var k := BigEndian(sha256(username)[..4]);
    var mbox := k % numMailboxes + 1;
    if username == "" then 0 else mbox
  }

  /**
   * The mailbox of a user. With no mailboxes, a number that nothing checks, it divides by zero, whoever the user is.
   */
  function UsernameToMailbox(sha256: string -> Bytes, username: string, numMailboxes: nat): (mbox: Option<nat>)
    requires numMailboxes < TwoTo32 && |sha256(username)| == 32
    ensures mbox == None <==> numMailboxes == 0
    ensures mbox.Some? ==> mbox.value <= numMailboxes && (mbox.value == 0 <==> username == "")
  {
    if numMailboxes == 0 then None else Some(MailboxAmong(sha256, username, numMailboxes))
  }

  /** The message is for a mailbox other than the one for dummies. */
  predicate IsFor(m: Bytes, mbox: nat) {
    |m| == SizeMixMessage && MailboxOf(m) == mbox != 0
  }

  /** The tokens for a mailbox, in the order of the messages. */
  function TokensFor(messages: seq<Bytes>, mbox: nat): seq<Bytes> {
    if messages == [] then []
    else
      var m := messages[|messages| - 1];
      TokensFor(messages[..|messages| - 1], mbox) + if IsFor(m, mbox) then [TokenOf(m)] else []
  }

  /** A token is among a mailbox's tokens exactly when a message brings it there. */
  lemma {:induction false} TokensForHas(messages: seq<Bytes>, mbox: nat, token: Bytes)
    ensures token in TokensFor(messages, mbox) <==> exists m :: m in messages && IsFor(m, mbox) && TokenOf(m) == token
  {
    if messages != [] {
      var before, last := messages[..|messages| - 1], messages[|messages| - 1];
      TokensForHas(before, mbox, token);
      assert messages == before + [last];
    }
  }

  /** bloom.Optimal: the bits and hashes for a number of tokens. */
  type Sizing = nat -> (nat, nat)

  ghost predicate GoodSizing(sizes: Sizing) {
    forall n :: BitCount((sizes(n).0 + 7) / 8) > 0 && sizes(n).1 < TwoTo32
  }

  /** A mailbox's bytes are a filter of exactly its tokens. */
  ghost predicate HoldsTokens(sip: SipHash, sizes: Sizing, mailbox: Bytes, tokens: seq<Bytes>) {
    exists data: Bytes ::
      && |data| == (sizes(|tokens|).0 + 7) / 8 && BitCount(|data|) > 0
      && mailbox == Marshalled(sizes(|tokens|).1, data) && Represents(sip, data, sizes(|tokens|).1, tokens)
  }

  /** The groups after the first messages. */
  ghost predicate Grouped(groups: map<nat, seq<Bytes>>, messages: seq<Bytes>) {
    forall mbox: nat :: if mbox in groups then groups[mbox] == TokensFor(messages, mbox) != []
        else TokensFor(messages, mbox) == []
  }

  lemma GroupedOn(groups: map<nat, seq<Bytes>>, messages: seq<Bytes>, n: nat, more: map<nat, seq<Bytes>>)
    requires n < |messages| && Grouped(groups, messages[..n])
    requires var m := messages[n];
      if |m| == SizeMixMessage && MailboxOf(m) != 0 then
        var mbox := MailboxOf(m);
        more == groups[mbox := (if mbox in groups then groups[mbox] else []) + [TokenOf(m)]]
      else more == groups
    ensures Grouped(more, messages[..n + 1])
  {
    assert messages[..n + 1][..n] == messages[..n] && messages[..n + 1][n] == messages[n];
    forall mbox: nat
      ensures if mbox in more then more[mbox] == TokensFor(messages[..n + 1], mbox) != []
        else TokensFor(messages[..n + 1], mbox) == []
    {
      assert mbox in groups <==> TokensFor(messages[..n], mbox) != [];
    }
  }

  /** The last mixer's grouping of tokens by mailbox. */
  method GroupTokens(messages: seq<Bytes>) returns (groups: map<nat, seq<Bytes>>)
    ensures Grouped(groups, messages)
  {
    groups := map[];
    for n := 0 to |messages|
      invariant Grouped(groups, messages[..n])
    {
      var m := messages[n];
      ghost var before := groups;
      if |m| == SizeMixMessage && MailboxOf(m) != 0 {
        var mbox := MailboxOf(m);
        groups := groups[mbox := (if mbox in groups then groups[mbox] else []) + [TokenOf(m)]];
      }
      GroupedOn(before, messages, n, groups);
    }
    assert messages[..|messages|] == messages;
  }

  /** A filter of some tokens, as bytes. */
  method FilterOf(sip: SipHash, sizes: Sizing, tokens: seq<Bytes>) returns (mailbox: Bytes)
    requires GoodSizing(sizes)
    ensures HoldsTokens(sip, sizes, mailbox, tokens)
  {
    var (bits, numHashes) := sizes(|tokens|);
    assert BitCount((sizes(|tokens|).0 + 7) / 8) > 0;
    var f := new Filter(sip, bits, numHashes);
    EmptyFilter(sip, (bits + 7) / 8, numHashes);
    assert tokens[..0] == [];
    for i := 0 to |tokens|
      invariant f.data.Length == (bits + 7) / 8 && f.numHashes == numHashes && f.sip == sip && fresh(f) && fresh(f.data)
      invariant Represents(sip, f.data[..], numHashes, tokens[..i])
    {
      ghost var was := f.data[..];
      f.Set(tokens[i]);
      RepresentsOn(sip, was, f.data[..], numHashes, tokens[..i], tokens[i]);
      assert tokens[..i + 1] == tokens[..i] + [tokens[i]];
    }
    assert tokens[..|tokens|] == tokens;
    mailbox := f.MarshalBinary();
  }

  /** The mailboxes are those that messages are for, each a filter of its tokens. */
  ghost predicate Published(sip: SipHash, sizes: Sizing, messages: seq<Bytes>, mailboxes: map<nat, Bytes>) {
    && (forall mbox: nat :: mbox in mailboxes <==> TokensFor(messages, mbox) != [])
    && (forall mbox: nat :: mbox in mailboxes ==> HoldsTokens(sip, sizes, mailboxes[mbox], TokensFor(messages, mbox)))
  }

  /** The last mixer: it shuffles the messages, groups their tokens and publishes a filter per mailbox. */
  method HandleMessages(sip: SipHash, sizes: Sizing, shuffler: Shuffler, messages: seq<Bytes>)
    returns (mailboxes: map<nat, Bytes>)
    requires GoodSizing(sizes) && shuffler.Valid(|messages|)
    ensures Published(sip, sizes, shuffler.Shuffle(messages), mailboxes)
  {
    var shuffled := shuffler.Shuffle(messages);
    var groups := GroupTokens(shuffled);
    mailboxes := map[];
    var todo := groups.Keys;
    while todo != {}
      invariant todo <= groups.Keys && mailboxes.Keys == groups.Keys - todo
      invariant forall mbox: nat :: mbox in mailboxes ==>
        HoldsTokens(sip, sizes, mailboxes[mbox], TokensFor(shuffled, mbox))
      decreases todo
    {
      var mbox :| mbox in todo;
      todo := todo - {mbox};
      var mailbox := FilterOf(sip, sizes, groups[mbox]);
      mailboxes := mailboxes[mbox := mailbox];
    }
  }

  /* ---- what a callee hears ---- */

  datatype IncomingCall = IncomingCall(username: string, intent: nat, round: nat, sessionKey: Bytes)

  /** The filter that a mailbox's bytes are read as: too few bytes leave the empty filter without hashes. */
  function HashesIn(mailbox: Bytes): nat {
    if |mailbox| < 4 then 0 else BigEndian(mailbox[..4])
  }

  function BitsIn(mailbox: Bytes): Bytes {
    if |mailbox| < 4 then [] else mailbox[4..]
  }

  /** The token is in the mailbox, as far as its filter can tell. */
  ghost predicate Hears(sip: SipHash, mailbox: Bytes, token: Bytes) {
    Usable(HashesIn(mailbox), |BitsIn(mailbox)|) && Covers(sip, BitsIn(mailbox), HashesIn(mailbox), token)
  }

  /** The calls a user hears in a round: those whose tokens the mailbox has. */
  ghost predicate IsHeard(h: Hashes, sip: SipHash, secrets: Secrets, me: string, round: nat, numIntents: nat,
                          mailbox: Bytes, call: IncomingCall) {
    && call.username in secrets && secrets[call.username].round <= round
    && call.round == round && call.intent < numIntents
    && Some(call.sessionKey) == SessionKeyOf(h, secrets[call.username], round)
    && Hears(sip, mailbox, DialToken(h, secrets[call.username], round, me, call.intent).value)
  }

  /** A filter of some tokens has each of them. */
  lemma HeldIsHeard(sip: SipHash, sizes: Sizing, mailbox: Bytes, tokens: seq<Bytes>, token: Bytes)
    requires GoodSizing(sizes) && HoldsTokens(sip, sizes, mailbox, tokens) && token in tokens
    ensures Hears(sip, mailbox, token)
  {
    var data: Bytes :| |data| == (sizes(|tokens|).0 + 7) / 8 && BitCount(|data|) > 0
      && mailbox == Marshalled(sizes(|tokens|).1, data) && Represents(sip, data, sizes(|tokens|).1, tokens);
    FilterRoundTrip(sizes(|tokens|).1, data);
    var e :| 0 <= e < |tokens| && tokens[e] == token;
    NoFalseNegatives(sip, data, sizes(|tokens|).1, tokens, e);
  }

  /** A mailbox of fewer than four bytes, or one without hashes, is heard as having every token. */
  lemma ShortMailboxHasAll(sip: SipHash, mailbox: Bytes, token: Bytes)
    requires |mailbox| < 4 || BigEndian(mailbox[..4]) == 0
    ensures Hears(sip, mailbox, token)
  {
  }

  /** Two wheels agree on a friendship: the same secret in every round that both still have. */
  ghost predicate Agree(h: Hashes, a: RoundSecret, b: RoundSecret) {
    forall q :: q >= a.round && q >= b.round ==> SecretAt(h, a, q) == SecretAt(h, b, q)
  }

  /** Wheels that got the same secret agree, whatever each has erased since. */
  lemma ErasuresAgree(h: Hashes, put: RoundSecret, a: seq<nat>, b: seq<nat>)
    requires Rounds(a) && Rounds(b)
    ensures Agree(h, AfterErasures(h, put, a), AfterErasures(h, put, b))
  {
    var x, y := AfterErasures(h, put, a), AfterErasures(h, put, b);
    ErasuresReach(h, put, a);
    ErasuresReach(h, put, b);
    forall q | q >= x.round && q >= y.round ensures SecretAt(h, x, q) == SecretAt(h, y, q) {
      ErasedQueries(h, put, a, q);
      ErasedQueries(h, put, b, q);
    }
  }

  /** Two users whose wheels got the same secret for each other last agree, whatever else their wheels went through. */
  lemma FriendsAgree(h: Hashes, aOps: seq<WheelOp>, b: string, bOps: seq<WheelOp>, a: string)
    requires LifeOf(aOps, b).Some? && LifeOf(bOps, a).Some? && LifeOf(aOps, b).value.put == LifeOf(bOps, a).value.put
    requires Rounds(LifeOf(aOps, b).value.erased) && Rounds(LifeOf(bOps, a).value.erased)
    ensures b in Run(h, map[], aOps) && a in Run(h, map[], bOps)
    ensures Agree(h, Run(h, map[], aOps)[b], Run(h, map[], bOps)[a])
  {
    RunKeeps(h, aOps, b);
    RunKeeps(h, bOps, a);
    ErasuresAgree(h, LifeOf(aOps, b).value.put, LifeOf(aOps, b).value.erased, LifeOf(bOps, a).value.erased);
  }

  /** The published mailbox of a user has every token that was delivered for it. */
  lemma DeliveredIsPublished(sip: SipHash, sizes: Sizing, shuffler: Shuffler, messages: seq<Bytes>,
                             mailboxes: map<nat, Bytes>,
                             k: nat, mbox: nat, token: Bytes)
    requires GoodSizing(sizes) && shuffler.Valid(|messages|)
    requires Published(sip, sizes, shuffler.Shuffle(messages), mailboxes)
    requires k < |messages| && 0 < mbox < TwoTo32 && |token| == TokenSize && messages[k] == MixMessage(mbox, token)
    ensures mbox in mailboxes && Hears(sip, mailboxes[mbox], token)
  {
    var shuffled := shuffler.Shuffle(messages);
    MixMessageRoundTrip(mbox, token);
    assert shuffled[shuffler.to[k]] == messages[k] && IsFor(messages[k], mbox);
    TokensForHas(shuffled, mbox, token);
    HeldIsHeard(sip, sizes, mailboxes[mbox], TokensFor(shuffled, mbox), token);
  }

  /** A token made by a caller whose wheel agrees with the callee's is the callee's for that caller. */
  lemma SameToken(h: Hashes, sip: SipHash, caller: string, callee: string, callerWheel: RoundSecret,
                  calleeSecrets: Secrets, round: nat, intent: int, numIntents: nat, mailbox: Bytes)
    requires caller in calleeSecrets && Agree(h, callerWheel, calleeSecrets[caller])
    requires callerWheel.round <= round && calleeSecrets[caller].round <= round && intent % TwoTo32 < numIntents
    requires Hears(sip, mailbox, DialToken(h, callerWheel, round, callee, intent).value)
    ensures IsHeard(h, sip, calleeSecrets, callee, round, numIntents, mailbox,
      IncomingCall(caller, intent % TwoTo32, round, SessionKeyOf(h, callerWheel, round).value))
  {
    assert SecretAt(h, callerWheel, round) == SecretAt(h, calleeSecrets[caller], round);
  }

  /** The message that a call is sent as. */
  function CallMessage(h: Hashes, sha256: string -> Bytes, callerWheel: RoundSecret, callee: string, round: nat,
                       intent: int, numMailboxes: nat): Bytes
    requires h.Lawful() && 0 < numMailboxes < TwoTo32 && |sha256(callee)| == 32 && callerWheel.round <= round
  {
    MixMessage(MailboxAmong(sha256, callee, numMailboxes), DialToken(h, callerWheel, round, callee, intent).value)
  }

  /** The last mixer's mailboxes hold what the chain delivered. */
  ghost predicate PublishedFrom(sip: SipHash, sizes: Sizing, shuffler: Shuffler, p: Params, hops: seq<Mixer>,
                                batch: seq<Bytes>, mailboxes: map<nat, Bytes>)
    requires ValidChain(p, hops)
  {
    && GoodSizing(sizes) && shuffler.Valid(|Delivered(p, hops, batch)|)
    && Published(sip, sizes, shuffler.Shuffle(Delivered(p, hops, batch)), mailboxes)
  }

  /**
   * A call reaches its callee: it is sealed for the chain in slot i of the batch, it is first with its
   * deduplication key at each hop, and the two wheels agree. Then its token is in the callee's mailbox, and
   * the callee hears that caller and the intent modulo 2^32, when that is an intent, in that round, with
   * the caller's own session key, whatever else is in the batch.
   */
  lemma CallIsHeard(h: Hashes, sip: SipHash, sizes: Sizing, sha256: string -> Bytes,
                    caller: string, callee: string, callerWheel: RoundSecret, calleeSecrets: Secrets,
                    intent: int, numIntents: nat, numMailboxes: nat,
                    p: Params, hops: seq<Mixer>, batch: seq<Bytes>, i: nat, ephemerals: seq<Bytes>,
                    shuffler: Shuffler, mailboxes: map<nat, Bytes>)
    requires h.Lawful() && |sha256(callee)| == 32 && callee != "" && 0 < numMailboxes < TwoTo32
    requires caller in calleeSecrets && Agree(h, callerWheel, calleeSecrets[caller])
    requires callerWheel.round <= p.round && calleeSecrets[caller].round <= p.round
    requires var msg := CallMessage(h, sha256, callerWheel, callee, p.round, intent, numMailboxes);
      && p.sizeIncoming == SizeMixMessage && IsSealed(p, hops, batch, i, msg, ephemerals)
      && FirstAtEachHop(p, hops, batch, i, msg, ephemerals)
    requires PublishedFrom(sip, sizes, shuffler, p, hops, batch, mailboxes)
    ensures var mbox := MailboxAmong(sha256, callee, numMailboxes);
      && mbox in mailboxes && Hears(sip, mailboxes[mbox], DialToken(h, callerWheel, p.round, callee, intent).value)
      && (intent % TwoTo32 < numIntents ==>
            IsHeard(h, sip, calleeSecrets, callee, p.round, numIntents, mailboxes[mbox],
              IncomingCall(caller, intent % TwoTo32, p.round, SessionKeyOf(h, callerWheel, p.round).value)))
  {
    var mbox := MailboxAmong(sha256, callee, numMailboxes);
    var token := DialToken(h, callerWheel, p.round, callee, intent).value;
    var pos := ClientDelivered(p, hops, batch, i, MixMessage(mbox, token), ephemerals);
    DeliveredIsPublished(sip, sizes, shuffler, Delivered(p, hops, batch), mailboxes, pos, mbox, token);
    if intent % TwoTo32 < numIntents {
      SameToken(h, sip, caller, callee, callerWheel, calleeSecrets, p.round, intent, numIntents, mailboxes[mbox]);
    }
  }

  /** The callee is told of a call with the very intent that the caller gave, and the caller's own session key. */
  ghost predicate HearsIntent(h: Hashes, sip: SipHash, caller: string, callee: string, callerWheel: RoundSecret,
                              calleeSecrets: Secrets, round: nat, intent: int, numIntents: nat, mailbox: Bytes)
    requires callerWheel.round <= round
  {
    exists k: nat :: k == intent && IsHeard(h, sip, calleeSecrets, callee, round, numIntents, mailbox,
      IncomingCall(caller, k, round, SessionKeyOf(h, callerWheel, round).value))
  }

  lemma HearsIntentIff(h: Hashes, sip: SipHash, caller: string, callee: string, callerWheel: RoundSecret,
                       calleeSecrets: Secrets, round: nat, intent: int, numIntents: nat, mailbox: Bytes)
    requires caller in calleeSecrets && Agree(h, callerWheel, calleeSecrets[caller])
    requires callerWheel.round <= round && calleeSecrets[caller].round <= round && numIntents <= TwoTo32
    requires Hears(sip, mailbox, DialToken(h, callerWheel, round, callee, intent).value)
    ensures 0 <= intent < numIntents <==>
      HearsIntent(h, sip, caller, callee, callerWheel, calleeSecrets, round, intent, numIntents, mailbox)
  {
    if 0 <= intent < numIntents {
      assert intent % TwoTo32 == intent;
      SameToken(h, sip, caller, callee, callerWheel, calleeSecrets, round, intent, numIntents, mailbox);
    }
  }

  /** The callee of a call that reaches it hears the caller's own intent exactly when that is one of the intents. */
  lemma OwnIntentHeardIff(h: Hashes, sip: SipHash, sizes: Sizing, sha256: string -> Bytes,
                          caller: string, callee: string, callerWheel: RoundSecret, calleeSecrets: Secrets,
                          intent: int, numIntents: nat, numMailboxes: nat,
                          p: Params, hops: seq<Mixer>, batch: seq<Bytes>, i: nat, ephemerals: seq<Bytes>,
                          shuffler: Shuffler, mailboxes: map<nat, Bytes>)
    requires h.Lawful() && |sha256(callee)| == 32 && callee != "" && 0 < numMailboxes < TwoTo32 && numIntents <= TwoTo32
    requires caller in calleeSecrets && Agree(h, callerWheel, calleeSecrets[caller])
    requires callerWheel.round <= p.round && calleeSecrets[caller].round <= p.round
    requires var msg := CallMessage(h, sha256, callerWheel, callee, p.round, intent, numMailboxes);
      && p.sizeIncoming == SizeMixMessage && IsSealed(p, hops, batch, i, msg, ephemerals)
      && FirstAtEachHop(p, hops, batch, i, msg, ephemerals)
    requires PublishedFrom(sip, sizes, shuffler, p, hops, batch, mailboxes)
    ensures var mbox := MailboxAmong(sha256, callee, numMailboxes);
      && mbox in mailboxes
      && (0 <= intent < numIntents <==>
            HearsIntent(h, sip, caller, callee, callerWheel, calleeSecrets, p.round, intent, numIntents,
                mailboxes[mbox]))
  {
    CallIsHeard(h, sip, sizes, sha256, caller, callee, callerWheel, calleeSecrets, intent, numIntents, numMailboxes,
                p, hops, batch, i, ephemerals, shuffler, mailboxes);
    HearsIntentIff(h, sip, caller, callee, callerWheel, calleeSecrets, p.round, intent, numIntents,
                   mailboxes[MailboxAmong(sha256, callee, numMailboxes)]);
  }

  /** Intents that differ by a multiple of 2^32 make the same token. */
  lemma IntentsWrap(h: Hashes, rs: RoundSecret, round: nat, username: string, intent: int, other: int)
    requires intent % TwoTo32 == other % TwoTo32
    ensures DialToken(h, rs, round, username, intent) == DialToken(h, rs, round, username, other)
  {
  }

  /** An intent of 2^32 + 1, which changing a call's intent does not refuse, is heard as 1 and never as itself. */
  lemma WrappedIntentIsHeard(h: Hashes, sip: SipHash, caller: string, callee: string, callerWheel: RoundSecret,
                             calleeSecrets: Secrets, round: nat, numIntents: nat, mailbox: Bytes)
    requires caller in calleeSecrets && Agree(h, callerWheel, calleeSecrets[caller])
    requires callerWheel.round <= round && calleeSecrets[caller].round <= round && 1 < numIntents <= TwoTo32
    requires Hears(sip, mailbox, DialToken(h, callerWheel, round, callee, TwoTo32 + 1).value)
    ensures HearsIntent(h, sip, caller, callee, callerWheel, calleeSecrets, round, 1, numIntents, mailbox)
    ensures !HearsIntent(h, sip, caller, callee, callerWheel, calleeSecrets, round, TwoTo32 + 1, numIntents, mailbox)
  {
    IntentsWrap(h, callerWheel, round, callee, TwoTo32 + 1, 1);
    HearsIntentIff(h, sip, caller, callee, callerWheel, calleeSecrets, round, 1, numIntents, mailbox);
    HearsIntentIff(h, sip, caller, callee, callerWheel, calleeSecrets, round, TwoTo32 + 1, numIntents, mailbox);
  }
}
