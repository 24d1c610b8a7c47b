/** The dialing side of a client: queued calls, what it sends each round, and what it makes of its mailbox. */
module DialClient {
  import opened Base
  import opened Bloom
  import opened Keywheel
  import opened Dialing
  import opened MixChain

  const IntentMax: nat := 3

  class OutgoingCall {
    const username: string
    var intent: int
    var sentRound: nat
    var dialToken: Option<Bytes>
    var sessionKey: Option<Bytes>

    constructor (username: string, intent: int)
      ensures this.username == username && this.intent == intent
      ensures sentRound == 0 && dialToken == None && sessionKey == None
    {
      this.username, this.intent, sentRound, dialToken, sessionKey := username, intent, 0, None, None;
    }

    /** The intent can change until the call's token is made; the new one is not checked. */
    method UpdateIntent(intent: int) returns (ok: bool)
      modifies this`intent
      ensures ok <==> dialToken == None
      ensures this.intent == if ok then intent else old(this.intent)
    {
      if dialToken != None {
        return false;
      }
      this.intent := intent;
      return true;
    }

    /** Makes the call's token and session key, once, for the round it is sent in. */
    method ComputeKeys(wheel: Wheel) returns (token: Option<Bytes>, key: Option<Bytes>)
      modifies this`dialToken, this`sessionKey
      ensures token == dialToken && key == sessionKey
      ensures old(sentRound == 0 || dialToken.Some?) ==> dialToken == old(dialToken) && sessionKey == old(sessionKey)
      ensures old(sentRound != 0 && dialToken == None) ==>
        && dialToken == TokenFor(wheel.h, wheel.secrets, username, sentRound, intent)
        && sessionKey == KeyFor(wheel.h, wheel.secrets, username, sentRound)
    {
      if sentRound == 0 || dialToken != None {
        return dialToken, sessionKey;
      }
      var t := wheel.OutgoingDialToken(username, sentRound, intent);
      var k := wheel.SessionKey(username, sentRound);
      dialToken, sessionKey := t, k;
      return dialToken, sessionKey;
    }
  }

  function TokenFor(h: Hashes, secrets: Secrets, username: string, round: nat, intent: int): Option<Bytes> {
    if username in secrets then DialToken(h, secrets[username], round, username, intent) else None
  }

  function KeyFor(h: Hashes, secrets: Secrets, username: string, round: nat): Option<Bytes> {
    if username in secrets then SessionKeyOf(h, secrets[username], round) else None
  }

  /** The calls that are not to a user, in their order. */
  function CallsNotTo(calls: seq<OutgoingCall>, username: string): (r: seq<OutgoingCall>)
    ensures (forall i :: 0 <= i < |r| ==> r[i] in calls && r[i].username != username) && |r| <= |calls|
    ensures forall i :: 0 <= i < |calls| && calls[i].username != username ==> calls[i] in r
    ensures (forall i, j :: 0 <= i < j < |calls| ==> calls[i] != calls[j]) ==>
      forall i, j :: 0 <= i < j < |r| ==> r[i] != r[j]
  {
    if calls == [] then []
    else
      var before, last := calls[..|calls| - 1], calls[|calls| - 1];
      assert calls == before + [last];
      CallsNotTo(before, username) + if last.username != username then [last] else []
  }

  class Client {
    const username: string
    const wheel: Wheel
    const sip: SipHash
    const sha256: string -> Bytes
    var outgoingCalls: seq<OutgoingCall>
    var lastDialingRound: nat

    /** The calls in the queue are different objects, and none has been sent. */
    ghost predicate Valid()
      reads this, outgoingCalls
    {
      && wheel.h.Lawful() && (forall u :: |sha256(u)| == 32)
      && (forall i, j :: 0 <= i < j < |outgoingCalls| ==> outgoingCalls[i] != outgoingCalls[j])
      && (forall c :: c in outgoingCalls ==> c.sentRound == 0 && c.dialToken == None)
    }

    constructor (username: string, wheel: Wheel, sip: SipHash, sha256: string -> Bytes)
      requires wheel.h.Lawful() && forall u :: |sha256(u)| == 32
      ensures Valid() && this.username == username && this.wheel == wheel && this.sip == sip && this.sha256 == sha256
      ensures outgoingCalls == []
    {
      this.username, this.wheel, this.sip, this.sha256 := username, wheel, sip, sha256;
      outgoingCalls, lastDialingRound := [], 0;
    }

    /** Queues a call to a friend. Too large an intent is a panic; a negative one is not. */
    method Call(friend: string, intent: int) returns (call: OutgoingCall?, panics: bool)
      requires Valid()
      modifies this`outgoingCalls
      ensures Valid() && (panics <==> intent >= IntentMax)
      ensures call == null <==> panics || friend !in wheel.secrets
      ensures call == null ==> outgoingCalls == old(outgoingCalls)
      ensures call != null ==> fresh(call) && call.username == friend && call.intent == intent
      ensures call != null ==> call.sentRound == 0 && call.dialToken == None
      ensures call != null ==> outgoingCalls == old(outgoingCalls) + [call]
    {
      if intent >= IntentMax {
        return null, true;
      }
      panics := false;
      if !wheel.Exists(friend) {
        return null, false;
      }
      call := new OutgoingCall(friend, intent);
      outgoingCalls := outgoingCalls + [call];
    }

    /** Takes a call out of the queue, if it is still there. */
    method Cancel(call: OutgoingCall) returns (ok: bool)
      requires Valid()
      modifies this`outgoingCalls
      ensures Valid() && ok == (call in old(outgoingCalls)) && call !in outgoingCalls
      ensures !ok ==> outgoingCalls == old(outgoingCalls)
      ensures ok ==> exists k :: 0 <= k < |old(outgoingCalls)| && outgoingCalls == Without(old(outgoingCalls), k)
    {
      var calls := outgoingCalls;
      var index := -1;
      for i := 0 to |calls|
        invariant -1 <= index < i
        invariant if index < 0 then call !in calls[..i] else calls[index] == call
      {
        if calls[i] == call {
          index := i;
        }
      }
      if index == -1 {
        assert calls[..|calls|] == calls;
        return false;
      }
      outgoingCalls := Without(calls, index);
      return true;
    }

    /** Forgets a friend: its secret goes from the wheel, and the calls to it from the queue. */
    method RemoveFriend(friend: string)
      requires Valid()
      modifies this`outgoingCalls, wheel
      ensures Valid() && wheel.secrets == old(wheel.secrets) - {friend}
      ensures outgoingCalls == CallsNotTo(old(outgoingCalls), friend)
    {
      wheel.Remove(friend);
      var calls: seq<OutgoingCall> := [];
      for i := 0 to |outgoingCalls|
        invariant outgoingCalls == old(outgoingCalls) && calls == CallsNotTo(outgoingCalls[..i], friend)
      {
        if outgoingCalls[i].username != friend {
          calls := calls + [outgoingCalls[i]];
        }
        assert outgoingCalls[..i + 1][..i] == outgoingCalls[..i];
      }
      assert outgoingCalls[..|outgoingCalls|] == outgoingCalls;
      outgoingCalls := calls;
    }

    method NextOutgoingCall() returns (call: OutgoingCall?)
      requires Valid()
      modifies this`outgoingCalls
      ensures Valid()
      ensures old(outgoingCalls) == [] ==> call == null && outgoingCalls == []
      ensures old(outgoingCalls) != [] ==>
        call == old(outgoingCalls)[0] && outgoingCalls == old(outgoingCalls)[1..] && call !in outgoingCalls
    {
      call := null;
      if |outgoingCalls| > 0 {
        call := outgoingCalls[0];
        outgoingCalls := outgoingCalls[1..];
      }
    }

    /**
     * The message for a round: the first queued call's token for its callee's mailbox, or a dummy.
     * None stands for a panic: there is no token, because the friend or the secret of the round is gone or the
     * round is 0; or there is a call and the service has no mailboxes.
     */
    method SendDialing(round: nat, numMailboxes: nat) returns (msg: Option<Bytes>, call: OutgoingCall?)
      requires Valid() && numMailboxes < TwoTo32
      modifies this, outgoingCalls
      ensures Valid() && lastDialingRound == round
      ensures old(outgoingCalls) == [] ==>
        call == null && msg == Some(MixMessage(0, Zeros(TokenSize))) && outgoingCalls == []
      ensures old(outgoingCalls) != [] ==>
        && call == old(outgoingCalls)[0] && outgoingCalls == old(outgoingCalls)[1..]
        && call.sentRound == round && call.intent == old(outgoingCalls[0].intent)
        && call.dialToken == (if round == 0 then None
            else TokenFor(wheel.h, wheel.secrets, call.username, round, call.intent))
        && (call.dialToken.Some? ==> |call.dialToken.value| == TokenSize)
        && (call.dialToken.Some? ==> call.sessionKey == KeyFor(wheel.h, wheel.secrets, call.username, round))
        && msg == if call.dialToken == None || numMailboxes == 0 then None
                  else Some(MixMessage(MailboxAmong(sha256, call.username, numMailboxes), call.dialToken.value))
    {
      lastDialingRound := round;
      call := NextOutgoingCall();
      if call == null {
        return Some(MixMessage(0, Zeros(TokenSize))), call;
      }
      call.sentRound := round;
      var token, key := call.ComputeKeys(wheel);
      var mbox := UsernameToMailbox(sha256, call.username, numMailboxes);
      msg := if token == None || mbox == None then None else Some(MixMessage(mbox.value, token.value));
    }

    /**
     * Reports the calls that the mailbox has, then erases the round's keys. None stands for the code's
     * division by zero, when the mailbox has hashes but no bits and there is a token to look for.
     */
    method ScanBloomFilter(round: nat, mailbox: Bytes) returns (calls: Option<seq<IncomingCall>>)
      modifies wheel
      ensures calls == None <==>
        !Usable(HashesIn(mailbox), |BitsIn(mailbox)|) &&
          exists u :: u in old(wheel.secrets) && old(wheel.secrets)[u].round <= round
      ensures calls.Some? ==> forall call ::
        call in calls.value <==> IsHeard(wheel.h, sip, old(wheel.secrets), username, round, IntentMax, mailbox, call)
      ensures wheel.secrets == if calls.Some? then ErasedAll(wheel.h, old(wheel.secrets), round) else old(wheel.secrets)
    {
      var filter := new Filter(sip, 0, 0);
      var decoded := filter.UnmarshalBinary(mailbox);
      assert filter.numHashes == HashesIn(mailbox) && filter.data[..] == BitsIn(mailbox);
      var allTokens := wheel.IncomingDialTokens(username, round, IntentMax);
      if filter.numHashes > 0 && BitCount(filter.data.Length) == 0 && |allTokens| > 0 {
        assert allTokens[0].fromUsername in wheel.secrets;
        return None;
      }
      var heard: seq<IncomingCall> := [];
      for n := 0 to |allTokens|
        invariant fresh(filter) && fresh(filter.data) && filter.numHashes == HashesIn(mailbox)
        invariant filter.data[..] == BitsIn(mailbox)
        invariant wheel.secrets == old(wheel.secrets)
        invariant forall call ::
          call in heard <==> HeardAmong(wheel.h, sip, wheel.secrets, username, round, mailbox, allTokens[..n], call)
      {
        var more := ScanTokens(filter, allTokens[n], round, mailbox);
        ghost var before := heard;
        heard := heard + more;
        assert allTokens[..n + 1] == allTokens[..n] + [allTokens[n]];
      }
      assert allTokens[..|allTokens|] == allTokens;
      AllHeard(wheel.h, sip, wheel.secrets, username, round, mailbox, allTokens);
      wheel.EraseKeys(round);
      return Some(heard);
    }

    /** The calls from one friend. */
    method ScanTokens(filter: Filter, user: UserDialTokens, round: nat, mailbox: Bytes)
      returns (calls: seq<IncomingCall>)
      requires IsEntry(wheel.h, wheel.secrets, user, round, username, IntentMax)
      requires filter.sip == sip && filter.numHashes == HashesIn(mailbox) && filter.data[..] == BitsIn(mailbox)
      requires Usable(HashesIn(mailbox), |BitsIn(mailbox)|)
      ensures forall call :: call in calls <==>
        call.username == user.fromUsername &&
            IsHeard(wheel.h, sip, wheel.secrets, username, round, IntentMax, mailbox, call)
    {
      calls := [];
      for intent := 0 to IntentMax
        invariant forall call :: call in calls <==>
          call.username == user.fromUsername && call.intent < intent
          && IsHeard(wheel.h, sip, wheel.secrets, username, round, IntentMax, mailbox, call)
      {
        var token := user.tokens[intent];
        assert DialToken(wheel.h, wheel.secrets[user.fromUsername], round, username, intent) == Some(token);
        var ok := filter.Test(token);
        if ok {
          var key := wheel.SessionKey(user.fromUsername, round);
          calls := calls + [IncomingCall(user.fromUsername, intent, round, key.value)];
        }
      }
    }
  }

  /** The call is heard, and from one of the friends listed. */
  ghost predicate HeardAmong(h: Hashes, sip: SipHash, secrets: Secrets, me: string, round: nat, mailbox: Bytes,
                             tokens: seq<UserDialTokens>, call: IncomingCall) {
    && (exists n :: 0 <= n < |tokens| && tokens[n].fromUsername == call.username)
    && IsHeard(h, sip, secrets, me, round, IntentMax, mailbox, call)
  }

  lemma AllHeard(h: Hashes, sip: SipHash, secrets: Secrets, me: string, round: nat, mailbox: Bytes,
                 tokens: seq<UserDialTokens>)
    requires Listed(h, secrets, secrets.Keys, tokens, round, me, IntentMax)
    ensures forall call ::
      HeardAmong(h, sip, secrets, me, round, mailbox, tokens, call) <==>
          IsHeard(h, sip, secrets, me, round, IntentMax, mailbox, call)
  {
  }

  /**
   * A round between two clients: the caller sends its next call, the last mixer publishes the filters of
   * all the messages it got, and the callee scans its mailbox. If their wheels agree, the callee reports
   * the call with the caller's name, intent and session key.
   */
  method DialingRound(caller: Client, callee: Client, round: nat, numMailboxes: nat, before: seq<Bytes>,
                      after: seq<Bytes>,
                      sizes: Sizing, shuffler: Shuffler)
    returns (call: OutgoingCall, heard: Option<seq<IncomingCall>>)
    requires caller.Valid() && caller != callee && caller.wheel != callee.wheel && caller.wheel.h == callee.wheel.h
    requires caller.sha256 == callee.sha256 && callee.username != ""
    requires 0 < round && 0 < numMailboxes < TwoTo32 && GoodSizing(sizes) && shuffler.Valid(|before| + 1 + |after|)
    requires caller.outgoingCalls != [] && caller.outgoingCalls[0].username == callee.username
    requires callee.username in caller.wheel.secrets && caller.wheel.secrets[callee.username].round <= round
    requires caller.username in callee.wheel.secrets && callee.wheel.secrets[caller.username].round <= round
    requires Agree(caller.wheel.h, caller.wheel.secrets[callee.username], callee.wheel.secrets[caller.username])
    requires caller.outgoingCalls[0].intent % TwoTo32 < IntentMax
    modifies caller, caller.outgoingCalls, callee.wheel
    ensures call == old(caller.outgoingCalls)[0] && call.sentRound == round && call.sessionKey.Some?
    ensures heard.Some? ==> IncomingCall(caller.username, call.intent % TwoTo32, round,
      call.sessionKey.value) in heard.value
    ensures heard.Some?
  {
    ghost var h, a, b := caller.wheel.h, caller.wheel.secrets[callee.username], callee.wheel.secrets;
    var msg, sent := caller.SendDialing(round, numMailboxes);
    call := sent;
    var messages := before + [msg.value] + after;
    var mailboxes := HandleMessages(callee.sip, sizes, shuffler, messages);
    var mbox := MailboxAmong(callee.sha256, callee.username, numMailboxes);
    assert messages[|before|] == msg.value;
    DeliveredIsPublished(callee.sip, sizes, shuffler, messages, mailboxes, |before|, mbox, call.dialToken.value);
    SameToken(h, callee.sip, caller.username, callee.username, a, b, round, call.intent, IntentMax, mailboxes[mbox]);
    heard := callee.ScanBloomFilter(round, mailboxes[mbox]);
  }

  /** A mailbox too short to be a filter is reported as calls from every friend with every intent. */
  lemma ShortMailboxReportsAll(h: Hashes, sip: SipHash, secrets: Secrets, me: string, round: nat, mailbox: Bytes,
                               friend: string, intent: nat)
    requires |mailbox| < 4 && friend in secrets && secrets[friend].round <= round && intent < IntentMax
    ensures IsHeard(h, sip, secrets, me, round, IntentMax, mailbox,
      IncomingCall(friend, intent, round, SessionKeyOf(h, secrets[friend], round).value))
  {
    ShortMailboxHasAll(sip, mailbox, DialToken(h, secrets[friend], round, me, intent).value);
  }
}
