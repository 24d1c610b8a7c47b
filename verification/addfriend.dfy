/** The add-friend protocol between clients as a state machine over all of their runs. */
module AddFriend {
  import opened Base
  import opened Keywheel
  import opened SortedKeys

  /** Curve25519, as box.GenerateKey and box.Precompute use it. */
  datatype Group = Group(publicKey: Bytes -> Bytes, shared: (Bytes, Bytes) -> Bytes) {
    ghost predicate Lawful() {
      forall a, b {:trigger shared(publicKey(a), b)} :: shared(publicKey(a), b) == shared(publicKey(b), a)
    }
  }

  /** A queued request; the dial round counts only for a confirmation. */
  datatype Outgoing = Outgoing(username: string, expectedKey: Bytes, confirmation: bool, dialRound: nat)
  /** The private part of a request that was sent. */
  datatype Sent = Sent(username: string, expectedKey: Bytes, confirmation: bool, dialRound: nat, dhPrivate: Bytes)
  /** A request that came in, and the introduction that carries it. */
  datatype Incoming = Incoming(username: string, longTermKey: Bytes, dhPublic: Bytes, dialRound: nat)

  /** A client: its queues, its friends' long-term keys, and the secrets it put on its wheel, oldest first. */
  datatype State = State(
    me: string, longTermKey: Bytes, lastDialingRound: nat,
    outgoing: seq<Outgoing>, sent: seq<Sent>, incoming: seq<Incoming>,
    friends: map<string, Bytes>, puts: seq<(string, RoundSecret)>)

  predicate Matches(in_: Incoming, sent: Sent) {
    in_.username == sent.username && in_.dialRound == sent.dialRound
  }

  /** The first incoming request that matches a sent one, or the end of the queue. */
  function FirstIncoming(queue: seq<Incoming>, sent: Sent, k: nat): (r: nat)
    requires k <= |queue|
    ensures k <= r <= |queue| && (r < |queue| ==> Matches(queue[r], sent))
    ensures forall i :: k <= i < r ==> !Matches(queue[i], sent)
    decreases |queue| - k
  {
    if k == |queue| || Matches(queue[k], sent) then k else FirstIncoming(queue, sent, k + 1)
  }

  function FirstSent(queue: seq<Sent>, in_: Incoming, k: nat): (r: nat)
    requires k <= |queue|
    ensures k <= r <= |queue| && (r < |queue| ==> Matches(in_, queue[r]))
    ensures forall i :: k <= i < r ==> !Matches(in_, queue[i])
    decreases |queue| - k
  {
    if k == |queue| || Matches(in_, queue[k]) then k else FirstSent(queue, in_, k + 1)
  }

  /** The friendship that an incoming and a sent request make. */
  function Befriend(g: Group, s: State, in_: Incoming, sent: Sent): State {
    s.(friends := s.friends[in_.username := in_.longTermKey],
       puts := s.puts + [(in_.username, RoundSecret(in_.dialRound, (g.shared)(in_.dhPublic, sent.dhPrivate)))])
  }

  /** What genIntro makes of a queued request: a confirmation keeps its dial round, a new request takes the latest. */
  function SentOf(s: State, out: Outgoing, dhPrivate: Bytes): Sent {
    Sent(out.username, out.expectedKey, out.confirmation, if out.confirmation then out.dialRound
        else s.lastDialingRound, dhPrivate)
  }

  function IntroOf(g: Group, s: State, sent: Sent): Incoming {
    Incoming(s.me, s.longTermKey, (g.publicKey)(sent.dhPrivate), sent.dialRound)
  }

  /** A request that went out completes a friendship with the first incoming one it matches, or waits. */
  function Settle(g: Group, s: State, sent: Sent): State {
    var i := FirstIncoming(s.incoming, sent, 0);
    if i < |s.incoming| then Befriend(g, s.(incoming := Without(s.incoming, i)), s.incoming[i], sent)
    else s.(sent := s.sent + [sent])
  }

  /** The client after an add-friend round's onion went out. */
  function AfterSend(g: Group, s: State, dhPrivate: Bytes): State {
    if s.outgoing == [] then s
    else
      var t := s.(outgoing := s.outgoing[1..]);
      if s.outgoing[0].username == "" then t else Settle(g, t, SentOf(s, s.outgoing[0], dhPrivate))
  }

  /** The client after it decoded an introduction. */
  function AfterDecode(g: Group, s: State, in_: Incoming): State {
    var i := FirstSent(s.sent, in_, 0);
    if i < |s.sent| then Befriend(g, s.(sent := Without(s.sent, i)), in_, s.sent[i])
    else s.(incoming := s.incoming + [in_])
  }

  /* ---- all the clients and the network ---- */

  /** An introduction on its way: who made it for whom, in which dial round, and with which private key. */
  datatype Letter = Letter(sender: string, receiver: string, intro: Incoming, dhPrivate: Bytes)

  datatype World = World(clients: map<string, State>, net: seq<Letter>)

  datatype Event =
    | Request(user: string, to_: string, expectedKey: Bytes)
    | Approve(user: string, in_: Incoming)
    | Reject(user: string, index: nat)
    | Cancel(user: string, index: nat)
    | DialRound(user: string, round: nat)
    | Send(user: string, dhPrivate: Bytes)
    | Deliver(letter: nat)

  function UserOf(w: World, e: Event): string {
    match e
    case Deliver(n) => if n < |w.net| then w.net[n].receiver else ""
    case Request(u, _, _) => u
    case Approve(u, _) => u
    case Reject(u, _) => u
    case Cancel(u, _) => u
    case DialRound(u, _) => u
    case Send(u, _) => u
  }

  /** What an event does to the client it happens at. */
  function Local(g: Group, w: World, s: State, e: Event): State {
    match e
    case Request(_, to_, key) => s.(outgoing := s.outgoing + [Outgoing(to_, key, false, 0)])
    case Approve(_, in_) => s.(outgoing := s.outgoing + [Outgoing(in_.username, [], true, in_.dialRound)])
    case Reject(_, i) => if i < |s.incoming| then s.(incoming := Without(s.incoming, i)) else s
    case Cancel(_, i) => if i < |s.outgoing| then s.(outgoing := Without(s.outgoing, i)) else s
    case DialRound(_, round) => s.(lastDialingRound := round)
    case Send(_, key) => AfterSend(g, s, key)
    case Deliver(n) => if n < |w.net| then AfterDecode(g, s, w.net[n].intro) else s
  }

  /** The letter an event puts on the network, if any. */
  function Mailed(g: Group, s: State, e: Event): seq<Letter> {
    if e.Send? && s.outgoing != [] && s.outgoing[0].username != "" then
      var sent := SentOf(s, s.outgoing[0], e.dhPrivate);
      [Letter(s.me, sent.username, IntroOf(g, s, sent), e.dhPrivate)]
    else []
  }

  /**
   * One event. The network keeps every letter, and may deliver each to its receiver never, late, out of
   * order or more than once. Events at users that do not exist do nothing.
   */
  function Step(g: Group, w: World, e: Event): World {
    var u := UserOf(w, e);
    if u !in w.clients then w
    else World(w.clients[u := Local(g, w, w.clients[u], e)], w.net + Mailed(g, w.clients[u], e))
  }

  function Run(g: Group, w: World, events: seq<Event>): World {
    if events == [] then w else Step(g, Run(g, w, events[..|events| - 1]), events[|events| - 1])
  }

  ghost predicate Initial(w: World) {
    w.net == [] && forall u :: u in w.clients ==> var s := w.clients[u];
      s.me == u && s.outgoing == [] && s.sent == [] && s.incoming == [] && s.puts == []
  }

  /* ---- what every run keeps ---- */

  /** The letter says what its sender's request said. */
  ghost predicate Genuine(g: Group, l: Letter) {
    l.intro.username == l.sender && l.intro.dhPublic == (g.publicKey)(l.dhPrivate)
  }

  ghost predicate Wrote(net: seq<Letter>, sender: string, receiver: string, dialRound: nat, dhPrivate: Bytes) {
    exists n :: 0 <= n < |net| && net[n].sender == sender && net[n].receiver == receiver
      && net[n].intro.dialRound == dialRound && net[n].dhPrivate == dhPrivate
  }

  /** A sent request has its letter. */
  ghost predicate SentWrote(net: seq<Letter>, me: string, sent: Sent) {
    Wrote(net, me, sent.username, sent.dialRound, sent.dhPrivate)
  }

  /** An incoming request came in a letter. */
  ghost predicate CameIn(g: Group, net: seq<Letter>, me: string, in_: Incoming) {
    exists key :: in_.dhPublic == (g.publicKey)(key) && Wrote(net, in_.username, me, in_.dialRound, key)
  }

  /** A secret on the wheel was made from one letter each way. */
  ghost predicate PutFrom(g: Group, net: seq<Letter>, me: string, put: (string, RoundSecret)) {
    exists mine, theirs ::
      Wrote(net, me, put.0, put.1.round, mine) && Wrote(net, put.0, me, put.1.round, theirs)
      && put.1.secret == (g.shared)((g.publicKey)(theirs), mine)
  }

  /** No incoming and sent request wait for each other. */
  ghost predicate NoPairWaits(s: State) {
    forall i, j :: 0 <= i < |s.incoming| && 0 <= j < |s.sent| ==> !Matches(s.incoming[i], s.sent[j])
  }

  ghost predicate Traced(g: Group, net: seq<Letter>, s: State) {
    && (forall i :: 0 <= i < |s.sent| ==> SentWrote(net, s.me, s.sent[i]))
    && (forall i :: 0 <= i < |s.incoming| ==> CameIn(g, net, s.me, s.incoming[i]))
    && (forall i :: 0 <= i < |s.puts| ==> PutFrom(g, net, s.me, s.puts[i]))
  }

  ghost predicate Inv(g: Group, w: World) {
    && (forall n :: 0 <= n < |w.net| ==> Genuine(g, w.net[n]))
    && (forall u :: u in w.clients ==>
        w.clients[u].me == u && NoPairWaits(w.clients[u]) && Traced(g, w.net, w.clients[u]))
  }

  lemma WroteMore(net: seq<Letter>, more: seq<Letter>)
    ensures forall a, b, r, k {:trigger Wrote(net + more, a, b, r, k)} :: Wrote(net, a, b, r, k) ==>
      Wrote(net + more, a, b, r, k)
  {
    forall a, b, r, k | Wrote(net, a, b, r, k) ensures Wrote(net + more, a, b, r, k) {
      var n :| 0 <= n < |net| && net[n].sender == a && net[n].receiver == b && net[n].intro.dialRound == r &&
          net[n].dhPrivate == k;
      assert (net + more)[n] == net[n];
    }
  }

  lemma TracedMore(g: Group, net: seq<Letter>, more: seq<Letter>, s: State)
    requires Traced(g, net, s)
    ensures Traced(g, net + more, s)
  {
    WroteMore(net, more);
    forall i | 0 <= i < |s.incoming| ensures CameIn(g, net + more, s.me, s.incoming[i]) {
      var key :| s.incoming[i].dhPublic == (g.publicKey)(key) &&
          Wrote(net, s.incoming[i].username, s.me, s.incoming[i].dialRound, key);
      assert Wrote(net + more, s.incoming[i].username, s.me, s.incoming[i].dialRound, key);
    }
    forall i | 0 <= i < |s.puts| ensures PutFrom(g, net + more, s.me, s.puts[i]) {
      var put := s.puts[i];
      var mine, theirs :| Wrote(net, s.me, put.0, put.1.round, mine) && Wrote(net, put.0, s.me, put.1.round, theirs)
        && put.1.secret == (g.shared)((g.publicKey)(theirs), mine);
      assert Wrote(net + more, s.me, put.0, put.1.round, mine) && Wrote(net + more, put.0, s.me, put.1.round, theirs);
    }
  }

  /** A friendship made of a traced incoming and a traced sent request is traced. */
  lemma BefriendTraced(g: Group, net: seq<Letter>, s: State, in_: Incoming, sent: Sent)
    requires Traced(g, net, s) && CameIn(g, net, s.me, in_) && SentWrote(net, s.me, sent) && Matches(in_, sent)
    ensures Traced(g, net, Befriend(g, s, in_, sent))
  {
    var key :| in_.dhPublic == (g.publicKey)(key) && Wrote(net, in_.username, s.me, in_.dialRound, key);
    var t := Befriend(g, s, in_, sent);
    assert Wrote(net, s.me, t.puts[|s.puts|].0, in_.dialRound, sent.dhPrivate);
    assert PutFrom(g, net, s.me, t.puts[|s.puts|]);
    forall i | 0 <= i < |t.puts| ensures PutFrom(g, net, t.me, t.puts[i]) {
      assert i < |s.puts| ==> t.puts[i] == s.puts[i];
    }
  }

  lemma SettleKeeps(g: Group, net: seq<Letter>, s: State, sent: Sent)
    requires NoPairWaits(s) && Traced(g, net, s) && SentWrote(net, s.me, sent)
    ensures var t := Settle(g, s, sent); t.me == s.me && NoPairWaits(t) && Traced(g, net, t)
  {
    var i := FirstIncoming(s.incoming, sent, 0);
    if i < |s.incoming| {
      var t := s.(incoming := Without(s.incoming, i));
      assert forall j :: 0 <= j < |t.incoming| ==> t.incoming[j] == s.incoming[if j < i then j else j + 1];
      BefriendTraced(g, net, t, s.incoming[i], sent);
    }
  }

  lemma SendKeeps(g: Group, net: seq<Letter>, s: State, e: Event)
    requires e.Send? && NoPairWaits(s) && Traced(g, net, s)
    ensures var t := AfterSend(g, s, e.dhPrivate);
      t.me == s.me && NoPairWaits(t) && Traced(g, net + Mailed(g, s, e), t)
    ensures forall n :: 0 <= n < |Mailed(g, s, e)| ==> Genuine(g, Mailed(g, s, e)[n])
  {
    var more := Mailed(g, s, e);
    TracedMore(g, net, more, s);
    if s.outgoing != [] && s.outgoing[0].username != "" {
      var sent := SentOf(s, s.outgoing[0], e.dhPrivate);
      assert (net + more)[|net|] == more[0];
      assert SentWrote(net + more, s.me, sent);
      SettleKeeps(g, net + more, s.(outgoing := s.outgoing[1..]), sent);
    }
  }

  lemma DecodeKeeps(g: Group, net: seq<Letter>, s: State, in_: Incoming)
    requires NoPairWaits(s) && Traced(g, net, s) && CameIn(g, net, s.me, in_)
    ensures var t := AfterDecode(g, s, in_); t.me == s.me && NoPairWaits(t) && Traced(g, net, t)
  {
    var i := FirstSent(s.sent, in_, 0);
    if i < |s.sent| {
      var t := s.(sent := Without(s.sent, i));
      assert forall j :: 0 <= j < |t.sent| ==> t.sent[j] == s.sent[if j < i then j else j + 1];
      BefriendTraced(g, net, t, in_, s.sent[i]);
    }
  }

  lemma LocalKeeps(g: Group, w: World, u: string, e: Event)
    requires Inv(g, w) && u in w.clients && u == UserOf(w, e)
    ensures var t := Local(g, w, w.clients[u], e);
      t.me == u && NoPairWaits(t) && Traced(g, w.net + Mailed(g, w.clients[u], e), t)
    ensures forall n :: 0 <= n < |Mailed(g, w.clients[u], e)| ==> Genuine(g, Mailed(g, w.clients[u], e)[n])
  {
    var s := w.clients[u];
    TracedMore(g, w.net, Mailed(g, s, e), s);
    match e
    case Send(_, _) => SendKeeps(g, w.net, s, e);
    case Deliver(n) =>
      assert w.net + [] == w.net;
      if n < |w.net| {
        var l := w.net[n];
        assert Genuine(g, l);
        assert Wrote(w.net, l.intro.username, s.me, l.intro.dialRound, l.dhPrivate);
        DecodeKeeps(g, w.net, s, l.intro);
      }
    case Reject(_, i) =>
      var t := Local(g, w, s, e);
      assert i < |s.incoming| ==> forall j :: 0 <= j < |t.incoming| ==>
          t.incoming[j] == s.incoming[if j < i then j else j + 1];
    case _ =>
  }

  lemma StepKeeps(g: Group, w: World, e: Event)
    requires Inv(g, w)
    ensures Inv(g, Step(g, w, e))
  {
    var u := UserOf(w, e);
    if u in w.clients {
      LocalKeeps(g, w, u, e);
      forall v | v in w.clients && v != u ensures Traced(g, Step(g, w, e).net, w.clients[v]) {
        TracedMore(g, w.net, Mailed(g, w.clients[u], e), w.clients[v]);
      }
    }
  }

  lemma {:induction false} RunKeeps(g: Group, w: World, events: seq<Event>)
    requires Initial(w)
    ensures Inv(g, Run(g, w, events))
  {
    if events != [] {
      RunKeeps(g, w, events[..|events| - 1]);
      StepKeeps(g, Run(g, w, events[..|events| - 1]), events[|events| - 1]);
    }
  }

  /** In no run do an incoming and a sent request of one user and dial round wait in a client's queues together. */
  lemma QueuesNeverPair(g: Group, w: World, events: seq<Event>, u: string, i: nat, j: nat)
    requires Initial(w) && u in Run(g, w, events).clients
    requires i < |Run(g, w, events).clients[u].incoming| && j < |Run(g, w, events).clients[u].sent|
    ensures !Matches(Run(g, w, events).clients[u].incoming[i], Run(g, w, events).clients[u].sent[j])
  {
    RunKeeps(g, w, events);
    assert NoPairWaits(Run(g, w, events).clients[u]);
  }

  /** The sender wrote to the receiver at most once for a dial round. */
  ghost predicate WroteOnce(net: seq<Letter>, sender: string, receiver: string, dialRound: nat) {
    forall m, n :: 0 <= m < n < |net| ==>
      !(net[m].sender == net[n].sender == sender && net[m].receiver == net[n].receiver == receiver
        && net[m].intro.dialRound == net[n].intro.dialRound == dialRound)
  }

  lemma WroteSame(net: seq<Letter>, a: string, b: string, round: nat, k: Bytes, l: Bytes)
    requires WroteOnce(net, a, b, round) && Wrote(net, a, b, round, k) && Wrote(net, a, b, round, l)
    ensures k == l
  {
    var m :| 0 <= m < |net| && net[m].sender == a && net[m].receiver == b && net[m].intro.dialRound == round &&
        net[m].dhPrivate == k;
    var n :| 0 <= n < |net| && net[n].sender == a && net[n].receiver == b && net[n].intro.dialRound == round &&
        net[n].dhPrivate == l;
    assert m == n;
  }

  /**
   * Agreement: over any run with lost, late, reordered or repeated letters, two clients that each made the
   * other a friend at one dial round put the same secret at that round, if each wrote to the other at most
   * once for it.
   */
  lemma FriendsAgree(g: Group, w: World, events: seq<Event>, a: string, b: string, i: nat, j: nat)
    requires g.Lawful() && Initial(w)
    requires var v := Run(g, w, events);
      && a in v.clients && b in v.clients && i < |v.clients[a].puts| && j < |v.clients[b].puts|
      && v.clients[a].puts[i].0 == b && v.clients[b].puts[j].0 == a
      && v.clients[a].puts[i].1.round == v.clients[b].puts[j].1.round
      && WroteOnce(v.net, a, b, v.clients[a].puts[i].1.round) && WroteOnce(v.net, b, a, v.clients[a].puts[i].1.round)
    ensures Run(g, w, events).clients[a].puts[i].1 == Run(g, w, events).clients[b].puts[j].1
  {
    var v := Run(g, w, events);
    RunKeeps(g, w, events);
    var p, q := v.clients[a].puts[i], v.clients[b].puts[j];
    var round := p.1.round;
    assert PutFrom(g, v.net, a, p) && PutFrom(g, v.net, b, q);
    var x, y :| Wrote(v.net, a, b, round, x) && Wrote(v.net, b, a, round, y) &&
        p.1.secret == (g.shared)((g.publicKey)(y), x);
    var z, t :| Wrote(v.net, b, a, round, z) && Wrote(v.net, a, b, round, t) &&
        q.1.secret == (g.shared)((g.publicKey)(t), z);
    WroteSame(v.net, a, b, round, x, t);
    WroteSame(v.net, b, a, round, y, z);
  }

  /** Only two keys give the secret that they share. */
  ghost predicate Collisionless(g: Group) {
    forall a, b, c, d {:trigger (g.shared)((g.publicKey)(a), b), (g.shared)((g.publicKey)(c), d)} ::
      (g.shared)((g.publicKey)(a), b) == (g.shared)((g.publicKey)(c), d) ==> (a == c && b == d) || (a == d && b == c)
  }

  /** Every letter has a key of its own. */
  ghost predicate FreshKeys(net: seq<Letter>) {
    forall m, n :: 0 <= m < n < |net| ==> net[m].dhPrivate != net[n].dhPrivate
  }

  ghost predicate IsLetter(net: seq<Letter>, m: nat, sender: string, receiver: string, dialRound: nat) {
    m < |net| && net[m].sender == sender && net[m].receiver == receiver && net[m].intro.dialRound == dialRound
  }

  /** The secret that one letter's key shares with another letter. */
  function SecretOf(g: Group, net: seq<Letter>, mine: nat, theirs: nat): Bytes
    requires mine < |net| && theirs < |net|
  {
    (g.shared)((g.publicKey)(net[theirs].dhPrivate), net[mine].dhPrivate)
  }

  /** The secret put comes of two letters, the user's own and the friend's. */
  ghost predicate MadeFrom(g: Group, net: seq<Letter>, me: string, put: (string, RoundSecret), mine: nat, theirs: nat) {
    && IsLetter(net, mine, me, put.0, put.1.round) && IsLetter(net, theirs, put.0, me, put.1.round)
    && put.1.secret == SecretOf(g, net, mine, theirs)
  }

  lemma WroteLetter(net: seq<Letter>, a: string, b: string, round: nat, key: Bytes) returns (m: nat)
    requires Wrote(net, a, b, round, key)
    ensures IsLetter(net, m, a, b, round) && net[m].dhPrivate == key
  {
    m :| 0 <= m < |net| && net[m].sender == a && net[m].receiver == b && net[m].intro.dialRound == round &&
        net[m].dhPrivate == key;
  }

  /** Every secret that a run puts on a wheel is made from two letters. */
  lemma PutIsMade(g: Group, w: World, events: seq<Event>, a: string, i: nat) returns (mine: nat, theirs: nat)
    requires Initial(w) && a in Run(g, w, events).clients && i < |Run(g, w, events).clients[a].puts|
    ensures MadeFrom(g, Run(g, w, events).net, a, Run(g, w, events).clients[a].puts[i], mine, theirs)
  {
    var v := Run(g, w, events);
    RunKeeps(g, w, events);
    var p := v.clients[a].puts[i];
    assert PutFrom(g, v.net, a, p);
    var x, y :| Wrote(v.net, a, p.0, p.1.round, x) && Wrote(v.net, p.0, a, p.1.round, y) &&
        p.1.secret == (g.shared)((g.publicKey)(y), x);
    mine := WroteLetter(v.net, a, p.0, p.1.round, x);
    theirs := WroteLetter(v.net, p.0, a, p.1.round, y);
  }

  /** Secrets made from letters with keys of their own are equal exactly when the letters are the same. */
  lemma SecretsEqualIff(g: Group, net: seq<Letter>, m: nat, n: nat, k: nat, l: nat)
    requires g.Lawful() && Collisionless(g) && FreshKeys(net) && m < |net| && n < |net| && k < |net| && l < |net|
    ensures SecretOf(g, net, m, n) == SecretOf(g, net, k, l) <==> (m == k && n == l) || (m == l && n == k)
  {
  }

  /** Both secrets come of the same two letters, one each way. */
  ghost predicate FromOnePair(g: Group, net: seq<Letter>, a: string, p: (string, RoundSecret), b: string,
                              q: (string, RoundSecret))
  {
    exists m, n :: MadeFrom(g, net, a, p, m, n) && MadeFrom(g, net, b, q, n, m)
  }

  /** The letters that two agreeing secrets are made of are the same. */
  lemma SameLetters(g: Group, net: seq<Letter>, a: string, p: (string, RoundSecret), b: string,
                    q: (string, RoundSecret), m: nat, n: nat, k: nat, l: nat)
    requires g.Lawful() && Collisionless(g) && FreshKeys(net) && p.0 == b && q.0 == a && p.1 == q.1
    requires MadeFrom(g, net, a, p, m, n) && MadeFrom(g, net, b, q, k, l)
    ensures FromOnePair(g, net, a, p, b, q)
  {
    SecretsEqualIff(g, net, m, n, k, l);
    assert SecretOf(g, net, n, m) == SecretOf(g, net, m, n);
    assert MadeFrom(g, net, b, q, n, m);
  }

  /**
   * Agreement, exactly: over any run, when secrets do not collide and every letter has a key of its own, two puts of
   * two clients for each other at one dial round agree if and only if they were made from the same two letters, one
   * each way.
   */
  lemma PutsAgreeIff(g: Group, w: World, events: seq<Event>, a: string, b: string, i: nat, j: nat)
    requires g.Lawful() && Collisionless(g) && Initial(w) && FreshKeys(Run(g, w, events).net)
    requires var v := Run(g, w, events);
      && a in v.clients && b in v.clients && i < |v.clients[a].puts| && j < |v.clients[b].puts|
      && v.clients[a].puts[i].0 == b && v.clients[b].puts[j].0 == a
      && v.clients[a].puts[i].1.round == v.clients[b].puts[j].1.round
    ensures var v := Run(g, w, events);
      && (v.clients[a].puts[i].1 == v.clients[b].puts[j].1 <==>
          FromOnePair(g, v.net, a, v.clients[a].puts[i], b, v.clients[b].puts[j]))
  {
    var v := Run(g, w, events);
    var p, q := v.clients[a].puts[i], v.clients[b].puts[j];
    if p.1 == q.1 {
      var m, n := PutIsMade(g, w, events, a, i);
      var k, l := PutIsMade(g, w, events, b, j);
      SameLetters(g, v.net, a, p, b, q, m, n, k, l);
    } else if FromOnePair(g, v.net, a, p, b, q) {
      var m, n :| MadeFrom(g, v.net, a, p, m, n) && MadeFrom(g, v.net, b, q, n, m);
      SecretsEqualIff(g, v.net, m, n, n, m);
    }
  }

  function Pair(a: Bytes, b: Bytes): Bytes {
    Zeros(|a|) + [1] + a + b
  }

  lemma PairLength(a: Bytes, b: Bytes, c: Bytes, d: Bytes)
    requires Pair(a, b) == Pair(c, d)
    ensures |a| <= |c|
  {
    assert forall k :: 0 <= k < |a| ==> Pair(a, b)[k] == 0;
    assert Pair(c, d)[|c|] == 1;
  }

  lemma PairInjective(a: Bytes, b: Bytes, c: Bytes, d: Bytes)
    requires Pair(a, b) == Pair(c, d)
    ensures a == c && b == d
  {
    PairLength(a, b, c, d);
    PairLength(c, d, a, b);
    var n := |a|;
    assert Pair(a, b)[n + 1..2 * n + 1] == a && Pair(c, d)[n + 1..2 * n + 1] == c;
    assert Pair(a, b)[2 * n + 1..] == b && Pair(c, d)[2 * n + 1..] == d;
  }

  function Both(a: Bytes, b: Bytes): Bytes {
    if Less(a, b) then Pair(a, b) else Pair(b, a)
  }

  lemma BothIff(a: Bytes, b: Bytes, c: Bytes, d: Bytes)
    ensures Both(a, b) == Both(b, a)
    ensures Both(a, b) == Both(c, d) ==> (a == c && b == d) || (a == d && b == c)
  {
    LessTrichotomy(a, b);
    if Both(a, b) == Both(c, d) {
      var (p, q) := if Less(a, b) then (a, b) else (b, a);
      var (r, t) := if Less(c, d) then (c, d) else (d, c);
      PairInjective(p, q, r, t);
    }
  }

  /** There are such groups. */
  lemma CollisionlessExists() returns (g: Group)
    ensures g.Lawful() && Collisionless(g)
  {
    g := Group(k => k, Both);
    forall a, b, c, d ensures Both(a, b) == Both(b, a) &&
        (Both(a, b) == Both(c, d) ==> (a == c && b == d) || (a == d && b == c))
    {
      BothIff(a, b, c, d);
    }
  }

  lemma RunOn(g: Group, w: World, events: seq<Event>, e: Event)
    ensures Run(g, w, events + [e]) == Step(g, Run(g, w, events), e)
  {
    assert (events + [e])[..|events|] == events;
  }

  /* ---- two clients, a and b, in any group ---- */

  function NewClient(me: string): State {
    State(me, [], 0, [], [], [], map[], [])
  }

  function Duo(a: State, b: State, net: seq<Letter>): World {
    World(map["a" := a, "b" := b], net)
  }

  /** A request of a to b, and a letter of each to the other. */
  function Asked(expectedKey: Bytes, key: Bytes): Sent {
    Sent("b", expectedKey, false, 0, key)
  }

  function LetterOfA(g: Group, key: Bytes): Letter {
    Letter("a", "b", Incoming("a", [], (g.publicKey)(key), 0), key)
  }

  function LetterOfB(g: Group, key: Bytes): Letter {
    Letter("b", "a", Incoming("b", [], (g.publicKey)(key), 0), key)
  }

  /** Client b when it has answered a's letter. */
  function Answered(g: Group, theirs: Bytes, mine: Bytes): State {
    Befriend(g, NewClient("b"), LetterOfA(g, theirs).intro, Sent("a", [], true, 0, mine))
  }

  /** One more event, at client a. */
  lemma RunOfA(g: Group, w: World, events: seq<Event>, a: State, b: State, net: seq<Letter>, e: Event, after: State,
               mailed: seq<Letter>)
    returns (more: seq<Event>)
    requires Run(g, w, events) == Duo(a, b, net)
    requires UserOf(Duo(a, b, net), e) == "a" && Local(g, Duo(a, b, net), a, e) == after
    requires net + Mailed(g, a, e) == mailed
    ensures Run(g, w, more) == Duo(after, b, mailed)
  {
    more := events + [e];
    RunOn(g, w, events, e);
    assert Duo(a, b, net).clients["a" := after] == Duo(after, b, mailed).clients;
  }

  /** One more event, at client b. */
  lemma RunOfB(g: Group, w: World, events: seq<Event>, a: State, b: State, net: seq<Letter>, e: Event, after: State,
               mailed: seq<Letter>)
    returns (more: seq<Event>)
    requires Run(g, w, events) == Duo(a, b, net)
    requires UserOf(Duo(a, b, net), e) == "b" && Local(g, Duo(a, b, net), b, e) == after
    requires net + Mailed(g, b, e) == mailed
    ensures Run(g, w, more) == Duo(a, after, mailed)
  {
    more := events + [e];
    RunOn(g, w, events, e);
    assert Duo(a, b, net).clients["b" := after] == Duo(a, after, mailed).clients;
  }

  /** Client a asks for b and its letter goes out. */
  lemma Asks(g: Group, w: World, before: seq<Event>, sent: seq<Sent>, net: seq<Letter>, expectedKey: Bytes, key: Bytes)
    returns (events: seq<Event>)
    requires Run(g, w, before) == Duo(NewClient("a").(sent := sent), NewClient("b"), net)
    ensures Run(g, w, events) ==
      Duo(NewClient("a").(sent := sent + [Asked(expectedKey, key)]), NewClient("b"), net + [LetterOfA(g, key)])
  {
    var a, b := NewClient("a").(sent := sent), NewClient("b");
    var asking := a.(outgoing := [Outgoing("b", expectedKey, false, 0)]);
    events := RunOfA(g, w, before, a, b, net, Request("a", "b", expectedKey), asking, net);
    AskGoesOut(g, asking, expectedKey, key);
    events := RunOfA(g, w, events, asking, b, net, Send("a", key), a.(sent := sent + [Asked(expectedKey, key)]),
      net + [LetterOfA(g, key)]);
  }

  lemma AskGoesOut(g: Group, s: State, expectedKey: Bytes, key: Bytes)
    requires s == NewClient("a").(sent := s.sent, outgoing := [Outgoing("b", expectedKey, false, 0)])
    ensures AfterSend(g, s, key) == s.(outgoing := [], sent := s.sent + [Asked(expectedKey, key)])
    ensures Mailed(g, s, Send("a", key)) == [LetterOfA(g, key)]
  {
    assert s.outgoing[1..] == [];
  }

  /** Client b gets one of a's letters, approves it and answers. */
  lemma Answers(g: Group, w: World, before: seq<Event>, a: State, net: seq<Letter>, n: nat, theirs: Bytes, mine: Bytes)
    returns (events: seq<Event>)
    requires Run(g, w, before) == Duo(a, NewClient("b"), net) && n < |net| && net[n] == LetterOfA(g, theirs)
    ensures Run(g, w, events) == Duo(a, Answered(g, theirs, mine), net + [LetterOfB(g, mine)])
  {
    var intro := LetterOfA(g, theirs).intro;
    var got := NewClient("b").(incoming := [intro]);
    var approved := got.(outgoing := [Outgoing("a", [], true, 0)]);
    events := RunOfB(g, w, before, a, NewClient("b"), net, Deliver(n), got, net);
    events := RunOfB(g, w, events, a, got, net, Approve("b", intro), approved, net);
    AnswerGoesOut(g, approved, theirs, mine);
    events := RunOfB(g, w, events, a, approved, net, Send("b", mine), Answered(g, theirs, mine),
        net + [LetterOfB(g, mine)]);
  }

  lemma AnswerGoesOut(g: Group, s: State, theirs: Bytes, mine: Bytes)
    requires s == NewClient("b").(incoming := [LetterOfA(g, theirs).intro], outgoing := [Outgoing("a", [], true, 0)])
    ensures AfterSend(g, s, mine) == Answered(g, theirs, mine)
    ensures Mailed(g, s, Send("b", mine)) == [LetterOfB(g, mine)]
  {
    var sent := Sent("a", [], true, 0, mine);
    assert s.outgoing[1..] == [];
    assert FirstIncoming(s.incoming, sent, 0) == 0;
    assert Without(s.incoming, 0) == [];
  }

  /** Client a gets the answer, and matches it to its first request. */
  lemma MatchesFirst(g: Group, w: World, before: seq<Event>, sent: seq<Sent>, b: State, net: seq<Letter>, n: nat,
                     key: Bytes)
    returns (events: seq<Event>)
    requires Run(g, w, before) == Duo(NewClient("a").(sent := sent), b, net)
    requires n < |net| && net[n] == LetterOfB(g, key) && sent != [] && Matches(net[n].intro, sent[0])
    ensures Run(g, w, events) ==
      Duo(Befriend(g, NewClient("a").(sent := sent[1..]), LetterOfB(g, key).intro, sent[0]), b, net)
  {
    assert FirstSent(sent, net[n].intro, 0) == 0;
    assert Without(sent, 0) == sent[1..];
    events := RunOfA(g, w, before, NewClient("a").(sent := sent), b, net, Deliver(n),
      Befriend(g, NewClient("a").(sent := sent[1..]), net[n].intro, sent[0]), net);
  }

  lemma AsksTwice(g: Group, x: Bytes, y: Bytes) returns (events: seq<Event>)
    ensures Run(g, Duo(NewClient("a"), NewClient("b"), []), events) ==
      Duo(NewClient("a").(sent := [Asked([], x), Asked([], y)]), NewClient("b"), [LetterOfA(g, x), LetterOfA(g, y)])
  {
    var w := Duo(NewClient("a"), NewClient("b"), []);
    assert [] + [Asked([], x)] == [Asked([], x)] && [] + [LetterOfA(g, x)] == [LetterOfA(g, x)];
    events := Asks(g, w, [], [], [], [], x);
    assert [Asked([], x)] + [Asked([], y)] == [Asked([], x), Asked([], y)];
    assert [LetterOfA(g, x)] + [LetterOfA(g, y)] == [LetterOfA(g, x), LetterOfA(g, y)];
    events := Asks(g, w, events, [Asked([], x)], [LetterOfA(g, x)], [], y);
  }

  /** Client b answers the second of a's two letters, and a matches the answer to its first request. */
  lemma AnswersSecond(g: Group, w: World, before: seq<Event>, x: Bytes, y: Bytes, z: Bytes) returns (events: seq<Event>)
    requires Run(g, w, before) ==
      Duo(NewClient("a").(sent := [Asked([], x), Asked([], y)]), NewClient("b"), [LetterOfA(g, x), LetterOfA(g, y)])
    ensures Run(g, w, events) ==
      Duo(Befriend(g, NewClient("a").(sent := [Asked([], y)]), LetterOfB(g, z).intro, Asked([], x)), Answered(g, y, z),
        [LetterOfA(g, x), LetterOfA(g, y), LetterOfB(g, z)])
  {
    var sent, net := [Asked([], x), Asked([], y)], [LetterOfA(g, x), LetterOfA(g, y), LetterOfB(g, z)];
    assert [LetterOfA(g, x), LetterOfA(g, y)] + [LetterOfB(g, z)] == net && sent[1..] == [Asked([], y)];
    events := Answers(g, w, before, NewClient("a").(sent := sent), net[..2], 1, y, z);
    events := MatchesFirst(g, w, events, sent, Answered(g, y, z), net, 2, z);
  }

  /**
   * Writing twice for one dial round is enough to leave two friends with different secrets: in every lawful
   * group there is a run of two new clients in which b wrote to a once and a wrote to b with the keys x and y,
   * and in which their only puts agree exactly when x and y give the same secret with b's key z.
   */
  lemma TwoLettersDisagree(g: Group, x: Bytes, y: Bytes, z: Bytes) returns (w: World, events: seq<Event>)
    requires g.Lawful()
    ensures Initial(w) && w.clients.Keys == {"a", "b"}
    ensures var v := Run(g, w, events);
      && v.clients.Keys == {"a", "b"} && |v.clients["a"].puts| == 1 && |v.clients["b"].puts| == 1
      && v.clients["a"].puts[0].0 == "b" && v.clients["b"].puts[0].0 == "a"
      && v.clients["a"].puts[0].1.round == v.clients["b"].puts[0].1.round == 0
      && WroteOnce(v.net, "b", "a", 0) && |v.net| == 3
      && (v.clients["a"].puts[0].1 == v.clients["b"].puts[0].1 <==>
          (g.shared)((g.publicKey)(z), x) == (g.shared)((g.publicKey)(z), y))
  {
    w := Duo(NewClient("a"), NewClient("b"), []);
    events := AsksTwice(g, x, y);
    events := AnswersSecond(g, w, events, x, y, z);
    assert (g.shared)((g.publicKey)(z), y) == (g.shared)((g.publicKey)(y), z);
  }

  /* ---- whose key a friend is kept with ---- */

  type Keys = map<string, Bytes>

  /** The long-term keys of all clients; no event changes one. */
  function KeysOf(w: World): Keys {
    map u | u in w.clients :: w.clients[u].longTermKey
  }

  predicate HasKey(keys: Keys, username: string, key: Bytes) {
    username in keys && keys[username] == key
  }

  /** Every introduction that waits, and every friend, has the long-term key of the user it names. */
  predicate KeepsKeys(keys: Keys, s: State) {
    && HasKey(keys, s.me, s.longTermKey)
    && (forall i :: 0 <= i < |s.incoming| ==> HasKey(keys, s.incoming[i].username, s.incoming[i].longTermKey))
    && (forall u :: u in s.friends ==> HasKey(keys, u, s.friends[u]))
  }

  predicate LetterKeys(keys: Keys, l: Letter) {
    HasKey(keys, l.intro.username, l.intro.longTermKey)
  }

  predicate LettersKeep(keys: Keys, net: seq<Letter>) {
    forall n :: 0 <= n < |net| ==> LetterKeys(keys, net[n])
  }

  predicate ClientsKeep(keys: Keys, clients: map<string, State>) {
    forall u :: u in clients ==> KeepsKeys(keys, clients[u])
  }

  predicate HaveKeys(keys: Keys, clients: map<string, State>) {
    forall u {:trigger clients[u]} :: u in clients ==> HasKey(keys, u, clients[u].longTermKey)
  }

  predicate KeysInv(keys: Keys, w: World) {
    HaveKeys(keys, w.clients) && LettersKeep(keys, w.net) && ClientsKeep(keys, w.clients)
  }

  lemma SettleKeepsKeys(keys: Keys, g: Group, s: State, sent: Sent)
    requires KeepsKeys(keys, s)
    ensures KeepsKeys(keys, Settle(g, s, sent)) && Settle(g, s, sent).longTermKey == s.longTermKey
  {
    var i := FirstIncoming(s.incoming, sent, 0);
    if i < |s.incoming| {
      var t := Without(s.incoming, i);
      assert forall j :: 0 <= j < |t| ==> t[j] == s.incoming[if j < i then j else j + 1];
    }
  }

  lemma SendKeepsKeys(keys: Keys, g: Group, s: State, e: Event)
    requires e.Send? && KeepsKeys(keys, s)
    ensures KeepsKeys(keys, AfterSend(g, s, e.dhPrivate)) && AfterSend(g, s, e.dhPrivate).longTermKey == s.longTermKey
    ensures LettersKeep(keys, Mailed(g, s, e))
  {
    if s.outgoing != [] && s.outgoing[0].username != "" {
      SettleKeepsKeys(keys, g, s.(outgoing := s.outgoing[1..]), SentOf(s, s.outgoing[0], e.dhPrivate));
    }
  }

  lemma DecodeKeepsKeys(keys: Keys, g: Group, s: State, in_: Incoming)
    requires KeepsKeys(keys, s) && HasKey(keys, in_.username, in_.longTermKey)
    ensures KeepsKeys(keys, AfterDecode(g, s, in_)) && AfterDecode(g, s, in_).longTermKey == s.longTermKey
  {
  }

  lemma RejectKeepsKeys(keys: Keys, s: State, i: nat)
    requires KeepsKeys(keys, s) && i < |s.incoming|
    ensures KeepsKeys(keys, s.(incoming := Without(s.incoming, i)))
  {
    var t := Without(s.incoming, i);
    assert forall j :: 0 <= j < |t| ==> t[j] == s.incoming[if j < i then j else j + 1];
  }

  lemma LocalKeepsKeys(keys: Keys, g: Group, w: World, s: State, e: Event)
    requires KeepsKeys(keys, s) && LettersKeep(keys, w.net)
    ensures KeepsKeys(keys, Local(g, w, s, e)) && Local(g, w, s, e).longTermKey == s.longTermKey
    ensures LettersKeep(keys, Mailed(g, s, e))
  {
    match e
    case Send(_, key) => SendKeepsKeys(keys, g, s, e);
    case Deliver(n) =>
      if n < |w.net| {
        assert LetterKeys(keys, w.net[n]);
        DecodeKeepsKeys(keys, g, s, w.net[n].intro);
      }
    case Reject(_, i) =>
      if i < |s.incoming| {
        RejectKeepsKeys(keys, s, i);
      }
    case _ =>
  }

  lemma StepKeepsKeys(keys: Keys, g: Group, w: World, e: Event)
    requires KeysInv(keys, w)
    ensures KeysInv(keys, Step(g, w, e))
  {
    var u := UserOf(w, e);
    if u in w.clients {
      var s := w.clients[u];
      LocalKeepsKeys(keys, g, w, s, e);
      WithHaveKeys(keys, w.clients, u, Local(g, w, s, e));
      WithClientsKeep(keys, w.clients, u, Local(g, w, s, e));
      MoreLettersKeep(keys, w.net, Mailed(g, s, e));
    }
  }

  lemma WithHaveKeys(keys: Keys, clients: map<string, State>, u: string, t: State)
    requires HaveKeys(keys, clients) && u in clients && t.longTermKey == clients[u].longTermKey
    ensures HaveKeys(keys, clients[u := t])
  {
    assert HasKey(keys, u, clients[u].longTermKey);
  }

  lemma WithClientsKeep(keys: Keys, clients: map<string, State>, u: string, t: State)
    requires ClientsKeep(keys, clients) && KeepsKeys(keys, t)
    ensures ClientsKeep(keys, clients[u := t])
  {
    var after := clients[u := t];
    forall c | c in after ensures KeepsKeys(keys, after[c]) {
      if c != u {
        assert after[c] == clients[c];
      }
    }
  }

  lemma MoreLettersKeep(keys: Keys, net: seq<Letter>, more: seq<Letter>)
    requires LettersKeep(keys, net) && LettersKeep(keys, more)
    ensures LettersKeep(keys, net + more)
  {
  }

  lemma {:induction false} RunKeepsKeys(g: Group, w: World, events: seq<Event>)
    requires StartsWithKeys(w)
    ensures KeysInv(KeysOf(w), Run(g, w, events))
  {
    if events != [] {
      RunKeepsKeys(g, w, events[..|events| - 1]);
      StepKeepsKeys(KeysOf(w), g, Run(g, w, events[..|events| - 1]), events[|events| - 1]);
    }
  }

  /** The request that goes out with an event and completes a friendship. */
  function CompletedBySend(s: State, key: Bytes): Option<Sent> {
    if s.outgoing == [] || s.outgoing[0].username == "" then None
    else
      var sent := SentOf(s, s.outgoing[0], key);
      if FirstIncoming(s.incoming, sent, 0) < |s.incoming| then Some(sent) else None
  }

  /** The request that an introduction answers. */
  function CompletedByDecode(s: State, in_: Incoming): Option<Sent> {
    var i := FirstSent(s.sent, in_, 0);
    if i < |s.sent| then Some(s.sent[i]) else None
  }

  /** The request of a client that an event makes a friendship of. */
  function Completed(w: World, s: State, e: Event): Option<Sent> {
    match e
    case Send(_, key) => CompletedBySend(s, key)
    case Deliver(n) => if n < |w.net| then CompletedByDecode(s, w.net[n].intro) else None
    case _ => None
  }

  lemma CompletedIsFriend(g: Group, w: World, s: State, e: Event)
    requires Completed(w, s, e).Some?
    ensures Completed(w, s, e).value.username in Local(g, w, s, e).friends
  {
  }

  /** The clients start with friends, if any, that they have the right keys of. */
  ghost predicate StartsWithKeys(w: World) {
    Initial(w) && forall u :: u in w.clients ==> KeepsKeys(KeysOf(w), w.clients[u])
  }

  /**
   * Over every run, a friendship keeps the long-term key that the friend really has. So the key that the
   * request expected is respected exactly when the request expected the friend's own key, which is settled
   * before the request is made: nothing compares the two later.
   */
  lemma ExpectedKeyRespectedIff(g: Group, w: World, events: seq<Event>, e: Event, u: string, sent: Sent)
    requires StartsWithKeys(w) && u == UserOf(Run(g, w, events), e) && u in Run(g, w, events).clients
    requires Completed(Run(g, w, events), Run(g, w, events).clients[u], e) == Some(sent)
    ensures var friends := Run(g, w, events + [e]).clients[u].friends;
      && sent.username in w.clients && sent.username in friends
      && (friends[sent.username] == sent.expectedKey <==> w.clients[sent.username].longTermKey == sent.expectedKey)
  {
    RunOn(g, w, events, e);
    RunKeepsKeys(g, w, events + [e]);
    CompletedIsFriend(g, Run(g, w, events), Run(g, w, events).clients[u], e);
    FriendsKeys(KeysOf(w), Run(g, w, events + [e]), u, sent.username);
  }

  lemma FriendsKeys(keys: Keys, v: World, u: string, friend: string)
    requires KeysInv(keys, v) && u in v.clients && friend in v.clients[u].friends
    ensures friend in keys && v.clients[u].friends[friend] == keys[friend]
  {
    assert KeepsKeys(keys, v.clients[u]);
  }

  lemma DuoStarts()
    ensures StartsWithKeys(Duo(NewClient("a"), NewClient("b"), []))
  {
  }

  /**
   * In every group there is a run in which a client asks for a friend with a key that is not the friend's, and
   * keeps the friend with another.
   */
  lemma WrongKeyIsKept(g: Group, wrong: Bytes, x: Bytes, z: Bytes) returns (w: World, events: seq<Event>)
    requires wrong != []
    ensures StartsWithKeys(w)
    ensures var v := Run(g, w, events);
      && "a" in v.clients && v.clients["a"].sent == [Asked(wrong, x)] && UserOf(v, Deliver(1)) == "a"
      && Completed(v, v.clients["a"], Deliver(1)) == Some(Asked(wrong, x))
    ensures var v := Run(g, w, events + [Deliver(1)]);
      "a" in v.clients && "b" in v.clients["a"].friends && v.clients["a"].friends["b"] != Asked(wrong, x).expectedKey
  {
    w := Duo(NewClient("a"), NewClient("b"), []);
    DuoStarts();
    var sent, net := [Asked(wrong, x)], [LetterOfA(g, x)];
    assert [] + sent == sent && [] + net == net;
    events := Asks(g, w, [], [], [], wrong, x);
    events := Answers(g, w, events, NewClient("a").(sent := sent), net, 0, x, z);
    assert FirstSent(sent, LetterOfB(g, z).intro, 0) == 0;
    assert (net + [LetterOfB(g, z)])[1] == LetterOfB(g, z);
    RunOn(g, w, events, Deliver(1));
    ExpectedKeyRespectedIff(g, w, events, Deliver(1), "a", Asked(wrong, x));
    assert w.clients["b"].longTermKey == [];
  }
}
