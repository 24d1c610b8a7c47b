/** The client's add-friend handlers over its queues of request objects. */
module AddFriendClient {
  import opened Base
  import opened Keywheel
  import opened AddFriend

  /** A queued request. Only those that a client made a request with, and those it loaded, know their client. */
  class OutgoingRequest {
    const v: Outgoing
    const hasClient: bool
    constructor (v: Outgoing, hasClient: bool)
      ensures this.v == v && this.hasClient == hasClient
    {
      this.v, this.hasClient := v, hasClient;
    }
  }

  datatype CancelResult = Cancelled | TooLate | Panics

  class SentRequest {
    const v: Sent
    constructor (v: Sent)
      ensures this.v == v
    {
      this.v := v;
    }
  }

  class IncomingRequest {
    const v: Incoming
    constructor (v: Incoming)
      ensures this.v == v
    {
      this.v := v;
    }
  }

  function OutValues(q: seq<OutgoingRequest>): seq<Outgoing> {
    seq(|q|, i requires 0 <= i < |q| => q[i].v)
  }

  function SentValues(q: seq<SentRequest>): seq<Sent> {
    seq(|q|, i requires 0 <= i < |q| => q[i].v)
  }

  function InValues(q: seq<IncomingRequest>): seq<Incoming> {
    seq(|q|, i requires 0 <= i < |q| => q[i].v)
  }

  /** Where an object is in a queue without repetitions, or the queue's length. */
  ghost predicate At<T>(q: seq<T>, x: T, k: nat) {
    k <= |q| && (if k < |q| then q[k] == x else x !in q)
  }

  /** The queue without one object. */
  function Dropped<T>(q: seq<T>, k: nat): seq<T>
    requires k <= |q|
  {
    if k < |q| then Without(q, k) else q
  }

  /** Slicing an object out of a queue by filtering. */
  method Filter<T(==)>(q: seq<T>, x: T, ghost k: nat) returns (r: seq<T>)
    requires Distinct(q) && At(q, x, k)
    ensures r == Dropped(q, k) && Distinct(r)
  {
    r := [];
    for i := 0 to |q|
      invariant r == if i <= k then q[..i] else q[..k] + q[k + 1..i]
    {
      if q[i] != x {
        assert i != k;
        r := r + [q[i]];
      } else {
        assert i == k;
      }
    }
  }

  /** The last place where an object is, found by going through the whole queue. */
  method IndexOf<T(==)>(q: seq<T>, x: T) returns (index: int)
    ensures -1 <= index < |q|
    ensures if index < 0 then x !in q else q[index] == x
  {
    index := -1;
    for i := 0 to |q|
      invariant -1 <= index < i
      invariant if index < 0 then x !in q[..i] else q[index] == x
    {
      if q[i] == x {
        index := i;
      }
    }
    assert q[..|q|] == q;
  }

  class Client {
    const g: Group
    const me: string
    const longTermKey: Bytes
    const wheel: Wheel
    var lastDialingRound: nat
    var outgoing: seq<OutgoingRequest>
    var sent: seq<SentRequest>
    var incoming: seq<IncomingRequest>
    var friends: map<string, Bytes>
    /** The secrets put on the wheel, oldest first. */
    ghost var puts: seq<(string, RoundSecret)>

    /** No request object is twice in a queue. */
    ghost predicate Valid()
      reads this
    {
      Distinct(outgoing) && Distinct(sent) && Distinct(incoming)
    }

    /** The client as a state of the protocol. */
    ghost function St(): State
      reads this
    {
      State(me, longTermKey, lastDialingRound, OutValues(outgoing), SentValues(sent), InValues(incoming), friends, puts)
    }

    constructor (g: Group, me: string, longTermKey: Bytes, wheel: Wheel)
      ensures Valid() && this.g == g && this.wheel == wheel
      ensures St() == State(me, longTermKey, 0, [], [], [], map[], [])
    {
      this.g, this.me, this.longTermKey, this.wheel := g, me, longTermKey, wheel;
      lastDialingRound, outgoing, sent, incoming, friends, puts := 0, [], [], [], map[], [];
    }

    method SendFriendRequest(username: string, key: Bytes) returns (req: OutgoingRequest)
      requires Valid()
      modifies this`outgoing
      ensures Valid() && St() == old(St()).(outgoing := old(St()).outgoing + [Outgoing(username, key, false, 0)])
      ensures outgoing == old(outgoing) + [req] && req.hasClient
    {
      req := new OutgoingRequest(Outgoing(username, key, false, 0), true);
      outgoing := outgoing + [req];
    }

    /** Queues a confirmation, which does not know its client; the incoming request stays where it is. */
    method Approve(r: IncomingRequest) returns (out: OutgoingRequest)
      requires Valid()
      modifies this`outgoing
      ensures Valid()
      ensures St() == old(St()).(outgoing := old(St()).outgoing + [Outgoing(r.v.username, [], true, r.v.dialRound)])
      ensures outgoing == old(outgoing) + [out] && !out.hasClient
    {
      out := new OutgoingRequest(Outgoing(r.v.username, [], true, r.v.dialRound), false);
      outgoing := outgoing + [out];
    }

    method Reject(r: IncomingRequest) returns (ok: bool)
      requires Valid()
      modifies this`incoming
      ensures Valid() && ok == (r in old(incoming))
      ensures exists k :: At(old(incoming), r, k) && incoming == Dropped(old(incoming), k)
    {
      var index := IndexOf(incoming, r);
      if index == -1 {
        assert At(incoming, r, |incoming|);
        return false;
      }
      assert At(incoming, r, index);
      incoming := incoming[..index] + incoming[index + 1..];
      return true;
    }

    /**
     * Takes a request out of the queue, when it is still there. A request that does not know its client dereferences
     * nil.
     */
    method Cancel(r: OutgoingRequest) returns (result: CancelResult)
      requires Valid()
      modifies this`outgoing
      ensures Valid() && result == if !r.hasClient then Panics else if r in old(outgoing) then Cancelled else TooLate
      ensures result.Cancelled? ==>
        exists k: nat :: k < |old(outgoing)| && At(old(outgoing), r, k) && outgoing == Without(old(outgoing), k)
      ensures !result.Cancelled? ==> outgoing == old(outgoing)
    {
      if !r.hasClient {
        return Panics;
      }
      var index := IndexOf(outgoing, r);
      if index == -1 {
        return TooLate;
      }
      assert At(outgoing, r, index);
      outgoing := outgoing[..index] + outgoing[index + 1..];
      return Cancelled;
    }

    method MatchToIncoming(s: SentRequest) returns (r: IncomingRequest?, ghost k: nat)
      ensures k == FirstIncoming(InValues(incoming), s.v, 0)
      ensures if k < |incoming| then r == incoming[k] else r == null
    {
      for i := 0 to |incoming|
        invariant FirstIncoming(InValues(incoming), s.v, 0) == FirstIncoming(InValues(incoming), s.v, i)
      {
        if incoming[i].v.username == s.v.username && incoming[i].v.dialRound == s.v.dialRound {
          return incoming[i], i;
        }
      }
      return null, |incoming|;
    }

    method MatchToSent(r: IncomingRequest) returns (s: SentRequest?, ghost k: nat)
      ensures k == FirstSent(SentValues(sent), r.v, 0)
      ensures if k < |sent| then s == sent[k] else s == null
    {
      for i := 0 to |sent|
        invariant FirstSent(SentValues(sent), r.v, 0) == FirstSent(SentValues(sent), r.v, i)
      {
        if r.v.username == sent[i].v.username && r.v.dialRound == sent[i].v.dialRound {
          return sent[i], i;
        }
      }
      return null, |sent|;
    }

    /** Makes a friend: puts the shared secret, keeps the long-term key and takes both requests out of their queues. */
    method NewFriend(r: IncomingRequest, s: SentRequest, ghost k: nat, ghost n: nat)
      requires Valid() && At(incoming, r, k) && At(sent, s, n)
      modifies this`friends, this`incoming, this`sent, this`puts, wheel
      ensures Valid() && incoming == Dropped(old(incoming), k) && sent == Dropped(old(sent), n)
      ensures friends == old(friends)[r.v.username := r.v.longTermKey]
      ensures var put := RoundSecret(r.v.dialRound, (g.shared)(r.v.dhPublic, s.v.dhPrivate));
        puts == old(puts) + [(r.v.username, put)] && wheel.secrets == old(wheel.secrets)[r.v.username := put]
    {
      var sharedKey := (g.shared)(r.v.dhPublic, s.v.dhPrivate);
      wheel.Put(r.v.username, r.v.dialRound, sharedKey);
      puts := puts + [(r.v.username, RoundSecret(r.v.dialRound, sharedKey))];
      friends := friends[r.v.username := r.v.longTermKey];
      incoming := Filter(incoming, r, k);
      sent := Filter(sent, s, n);
    }

    /** The add-friend round's onion: the next queued request goes out, and may complete a friendship. */
    method SendOnion(dhPrivate: Bytes) returns (letter: Option<(string, Incoming)>)
      requires Valid()
      modifies this, wheel
      ensures Valid() && St() == AfterSend(g, old(St()), dhPrivate)
      ensures letter == if old(outgoing) == [] || old(outgoing)[0].v.username == "" then None
        else var s := SentOf(old(St()), old(outgoing)[0].v, dhPrivate); Some((s.username, IntroOf(g, old(St()), s)))
    {
      if |outgoing| == 0 {
        return None;
      }
      var out := outgoing[0].v;
      outgoing := outgoing[1..];
      assert OutValues(outgoing) == OutValues(old(outgoing))[1..];
      if out.username == "" {
        return None;
      }
      var s := new SentRequest(Sent(out.username, out.expectedKey, out.confirmation,
        if out.confirmation then out.dialRound else lastDialingRound, dhPrivate));
      letter := Some((out.username, Incoming(me, longTermKey, (g.publicKey)(dhPrivate), s.v.dialRound)));
      SettleSent(s);
    }

    method SettleSent(s: SentRequest)
      requires Valid() && s !in sent
      modifies this`friends, this`incoming, this`sent, this`puts, wheel
      ensures Valid() && St() == Settle(g, old(St()), s.v)
    {
      var r, k := MatchToIncoming(s);
      if r != null {
        NewFriend(r, s, k, |sent|);
        assert InValues(incoming) == Without(InValues(old(incoming)), k);
      } else {
        sent := sent + [s];
      }
    }

    /** A verified introduction from the mailbox completes a friendship or is queued. */
    method Decode(intro: Incoming)
      requires Valid()
      modifies this, wheel
      ensures Valid() && St() == AfterDecode(g, old(St()), intro)
    {
      var r := new IncomingRequest(intro);
      var s, n := MatchToSent(r);
      if s != null {
        NewFriend(r, s, |incoming|, n);
        assert SentValues(sent) == Without(SentValues(old(sent)), n);
      } else {
        incoming := incoming + [r];
      }
    }
  }
}
