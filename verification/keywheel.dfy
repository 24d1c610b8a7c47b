/** The keywheel: one ratcheting secret per friend, its queries, and what erasing does to them. */
module Keywheel {
  import opened Base

  /** The keyed hashes: hash1 ratchets, hash2 makes dial tokens and hash3 session keys. */
  datatype Hashes = Hashes(
    hash1: (Bytes, nat) -> Bytes,
    hash2: (Bytes, nat, nat, string) -> Bytes,
    hash3: (Bytes, nat) -> Bytes)
  {
    ghost predicate Lawful() {
      forall k, r, i, u {:trigger hash2(k, r, i, u)} :: |hash2(k, r, i, u)| == TokenSize
    }
  }

  const TokenSize: nat := 32

  datatype RoundSecret = RoundSecret(round: nat, secret: Bytes)

  type Secrets = map<string, RoundSecret>

  /** The secret of a later round, from that of a round. */
  function Ratchet(h: Hashes, secret: Bytes, round: nat, later: nat): Bytes
    requires round <= later
    decreases later
  {
    if round == later then secret else (h.hash1)(Ratchet(h, secret, round, later - 1), later - 1)
  }

  /** The secret of a round: none for the rounds before the one that is kept. */
  function SecretAt(h: Hashes, rs: RoundSecret, round: nat): Option<Bytes> {
    if rs.round > round then None else Some(Ratchet(h, rs.secret, rs.round, round))
  }

  function SessionKeyOf(h: Hashes, rs: RoundSecret, round: nat): Option<Bytes> {
    match SecretAt(h, rs, round)
    case None => None
    case Some(s) => Some((h.hash3)(s, round))
  }

  /** The token for a call to a user; the intent is hashed as a 32-bit word. */
  function DialToken(h: Hashes, rs: RoundSecret, round: nat, username: string, intent: int): Option<Bytes> {
    match SecretAt(h, rs, round)
    case None => None
    case Some(s) => Some((h.hash2)(s, round, intent % TwoTo32, username))
  }

  datatype UserDialTokens = UserDialTokens(fromUsername: string, tokens: seq<Bytes>)

  function TokensFrom(h: Hashes, friend: string, rs: RoundSecret, round: nat, me: string,
                      numIntents: nat): UserDialTokens
    requires rs.round <= round
  {
    var key := Ratchet(h, rs.secret, rs.round, round);
    UserDialTokens(friend, seq(numIntents, i => (h.hash2)(key, round, i % TwoTo32, me)))
  }

  /** The entry is that of a friend whose secret has not passed the round. */
  predicate IsEntry(h: Hashes, m: Secrets, t: UserDialTokens, round: nat, me: string, numIntents: nat) {
    && t.fromUsername in m && m[t.fromUsername].round <= round
    && t == TokensFrom(h, t.fromUsername, m[t.fromUsername], round, me, numIntents)
  }

  /** One entry for every friend among those given whose secret has not passed the round. */
  ghost predicate Listed(h: Hashes, m: Secrets, friends: set<string>, all: seq<UserDialTokens>, round: nat,
                         me: string, numIntents: nat) {
    && (forall i :: 0 <= i < |all| ==> IsEntry(h, m, all[i], round, me, numIntents) && all[i].fromUsername in friends)
    && (forall i, j :: 0 <= i < j < |all| ==> all[i].fromUsername != all[j].fromUsername)
    && (forall u :: u in friends && u in m && m[u].round <= round ==>
        exists i :: 0 <= i < |all| && all[i].fromUsername == u)
  }

  lemma ListedOn(h: Hashes, m: Secrets, friends: set<string>, all: seq<UserDialTokens>, round: nat, me: string,
                 numIntents: nat,
                 u: string, more: seq<UserDialTokens>)
    requires Listed(h, m, friends, all, round, me, numIntents) && u in m && u !in friends
    requires if m[u].round <= round then more == all + [TokensFrom(h, u, m[u], round, me, numIntents)] else more == all
    ensures Listed(h, m, friends + {u}, more, round, me, numIntents)
  {
    forall v | v in friends + {u} && v in m && m[v].round <= round
        ensures exists i :: 0 <= i < |more| && more[i].fromUsername == v {
      if v == u {
        assert more[|all|].fromUsername == u;
      } else {
        var i :| 0 <= i < |all| && all[i].fromUsername == v;
        assert more[i].fromUsername == v;
      }
    }
  }

  /** What erasing a round's keys makes of a secret: it moves to the next round unless it is past it already. */
  function Erased(h: Hashes, rs: RoundSecret, round: nat): RoundSecret {
    var newRound := (round + 1) % TwoTo32;
    match SecretAt(h, rs, newRound)
    case None => rs
    case Some(s) => RoundSecret(newRound, s)
  }

  function ErasedAll(h: Hashes, m: Secrets, round: nat): Secrets {
    map u | u in m :: Erased(h, m[u], round)
  }

  /** The secret after any sequence of erasures. */
  function AfterErasures(h: Hashes, rs: RoundSecret, rounds: seq<nat>): RoundSecret {
    if rounds == [] then rs else Erased(h, AfterErasures(h, rs, rounds[..|rounds| - 1]), rounds[|rounds| - 1])
  }

  /** The round after the largest erased one, leaving out the last round there is; 0 when there is none. */
  function Horizon(rounds: seq<nat>): nat {
    if rounds == [] then 0
    else
      var before, last := Horizon(rounds[..|rounds| - 1]), rounds[|rounds| - 1];
      if last != TwoTo32 - 1 && last + 1 > before then last + 1 else before
  }

  ghost predicate Rounds(rounds: seq<nat>) {
    forall i :: 0 <= i < |rounds| ==> rounds[i] < TwoTo32
  }

  lemma {:induction false} RatchetOn(h: Hashes, secret: Bytes, a: nat, b: nat, c: nat)
    requires a <= b <= c
    ensures Ratchet(h, Ratchet(h, secret, a, b), b, c) == Ratchet(h, secret, a, c)
    decreases c
  {
    if b < c {
      RatchetOn(h, secret, a, b, c - 1);
    }
  }

  /** Which round the horizon is depends on the set of erased rounds only. */
  lemma {:induction false} HorizonIsLargest(rounds: seq<nat>)
    requires Rounds(rounds)
    ensures forall i :: 0 <= i < |rounds| && rounds[i] != TwoTo32 - 1 ==> rounds[i] < Horizon(rounds)
    ensures Horizon(rounds) == 0 || (Horizon(rounds) < TwoTo32 && Horizon(rounds) - 1 in rounds)
  {
    if rounds != [] {
      var before := rounds[..|rounds| - 1];
      HorizonIsLargest(before);
      assert rounds == before + [rounds[|rounds| - 1]];
    }
  }

  lemma ErasedFrom(h: Hashes, rs: RoundSecret, at: nat, round: nat)
    requires rs.round <= at && round < TwoTo32
    ensures var next := if round != TwoTo32 - 1 && round + 1 > at then round + 1 else at;
      Erased(h, RoundSecret(at, Ratchet(h, rs.secret, rs.round, at)), round) ==
          RoundSecret(next, Ratchet(h, rs.secret, rs.round, next))
  {
    if round != TwoTo32 - 1 && at <= round + 1 {
      RatchetOn(h, rs.secret, rs.round, at, round + 1);
    }
  }

  /** After any erasures the wheel keeps exactly the secret of the later of its own round and the horizon. */
  lemma {:induction false} ErasuresReach(h: Hashes, rs: RoundSecret, rounds: seq<nat>)
    requires Rounds(rounds)
    ensures var until := if rs.round > Horizon(rounds) then rs.round else Horizon(rounds);
      AfterErasures(h, rs, rounds) == RoundSecret(until, Ratchet(h, rs.secret, rs.round, until))
  {
    if rounds != [] {
      var before, last := rounds[..|rounds| - 1], rounds[|rounds| - 1];
      ErasuresReach(h, rs, before);
      ErasedFrom(h, rs, AfterErasures(h, rs, before).round, last);
    }
  }

  /** Erasing refines never erasing: a query is answered the same, or the round is one below the horizon. */
  lemma ErasedQueries(h: Hashes, rs: RoundSecret, rounds: seq<nat>, q: nat)
    requires Rounds(rounds)
    ensures SecretAt(h, AfterErasures(h, rs, rounds), q) == if q < Horizon(rounds) then None else SecretAt(h, rs, q)
  {
    ErasuresReach(h, rs, rounds);
    var mid := AfterErasures(h, rs, rounds);
    if mid.round <= q {
      RatchetOn(h, rs.secret, rs.round, mid.round, q);
    }
  }

  /** No query at or below an erased round returns a key, unless that round is the last one there is. */
  lemma ErasedRoundsAreGone(h: Hashes, rs: RoundSecret, rounds: seq<nat>, i: nat, q: nat, username: string, intent: int)
    requires Rounds(rounds) && i < |rounds| && rounds[i] != TwoTo32 - 1 && q <= rounds[i]
    ensures SessionKeyOf(h, AfterErasures(h, rs, rounds), q) == None
    ensures DialToken(h, AfterErasures(h, rs, rounds), q, username, intent) == None
  {
    HorizonIsLargest(rounds);
    ErasedQueries(h, rs, rounds, q);
  }

  /** Erasing the last round there is changes nothing: the next round wraps to 0. */
  lemma LastRoundIsNotErased(h: Hashes, rs: RoundSecret)
    ensures Erased(h, rs, TwoTo32 - 1) == rs
    ensures SecretAt(h, Erased(h, rs, TwoTo32 - 1), TwoTo32 - 1).Some? <==> rs.round < TwoTo32
  {
  }

  /** Two orders of the same erasures leave the same secret. */
  lemma ErasureOrder(h: Hashes, rs: RoundSecret, a: seq<nat>, b: seq<nat>)
    requires Rounds(a) && Rounds(b) && forall r :: r in a <==> r in b
    ensures AfterErasures(h, rs, a) == AfterErasures(h, rs, b)
  {
    HorizonIsLargest(a);
    HorizonIsLargest(b);
    ErasuresReach(h, rs, a);
    ErasuresReach(h, rs, b);
  }

  /* ---- whole runs ---- */

  datatype WheelOp = PutOp(username: string, round: nat, secret: Bytes) | RemoveOp(username: string)
    | EraseOp(round: nat)

  function Apply(h: Hashes, m: Secrets, op: WheelOp): Secrets {
    match op
    case PutOp(u, round, secret) => m[u := RoundSecret(round, secret)]
    case RemoveOp(u) => m - {u}
    case EraseOp(round) => ErasedAll(h, m, round)
  }

  function Run(h: Hashes, m: Secrets, ops: seq<WheelOp>): Secrets {
    if ops == [] then m else Apply(h, Run(h, m, ops[..|ops| - 1]), ops[|ops| - 1])
  }

  /** What a run did to one friend: the secret put last, unless it was removed, and the rounds erased since. */
  datatype Life = Life(put: RoundSecret, erased: seq<nat>)

  function LifeOf(ops: seq<WheelOp>, u: string): Option<Life> {
    if ops == [] then None
    else
      var before := LifeOf(ops[..|ops| - 1], u);
      match ops[|ops| - 1]
      case PutOp(v, round, secret) => if u == v then Some(Life(RoundSecret(round, secret), [])) else before
      case RemoveOp(v) => if u == v then None else before
      case EraseOp(round) => if before == None then None
          else Some(Life(before.value.put, before.value.erased + [round]))
  }

  /** In any run a friend's secret is the one put last, ratcheted past the rounds erased since then. */
  lemma {:induction false} RunKeeps(h: Hashes, ops: seq<WheelOp>, u: string)
    ensures u in Run(h, map[], ops) <==> LifeOf(ops, u).Some?
    ensures u in Run(h, map[], ops) ==>
      Run(h, map[], ops)[u] == AfterErasures(h, LifeOf(ops, u).value.put, LifeOf(ops, u).value.erased)
  {
    if ops != [] {
      var before := ops[..|ops| - 1];
      RunKeeps(h, before, u);
      if ops[|ops| - 1].EraseOp? && LifeOf(before, u).Some? {
        var erased, round := LifeOf(before, u).value.erased, ops[|ops| - 1].round;
        assert (erased + [round])[..|erased|] == erased;
      }
    }
  }

  class Wheel {
    const h: Hashes
    var secrets: map<string, RoundSecret>

    constructor (h: Hashes)
      ensures this.h == h && secrets == map[]
    {
      this.h, secrets := h, map[];
    }

    method Put(username: string, round: nat, secret: Bytes)
      modifies this
      ensures secrets == old(secrets)[username := RoundSecret(round, secret)]
    {
      secrets := secrets[username := RoundSecret(round, secret)];
    }

    method Remove(username: string)
      modifies this
      ensures secrets == old(secrets) - {username}
    {
      secrets := secrets - {username};
    }

    predicate Exists(username: string)
      reads this
    {
      username in secrets
    }

    /** The ratchet loop. */
    method GetSecret(rs: RoundSecret, round: nat) returns (r: Option<Bytes>)
      ensures r == SecretAt(h, rs, round)
    {
      if rs.round == round {
        return Some(rs.secret);
      }
      if rs.round > round {
        return None;
      }
      var secret := rs.secret;
      for k := rs.round to round
        invariant secret == Ratchet(h, rs.secret, rs.round, k)
      {
        secret := (h.hash1)(secret, k);
      }
      return Some(secret);
    }

    method SessionKey(username: string, round: nat) returns (r: Option<Bytes>)
      ensures r == if username in secrets then SessionKeyOf(h, secrets[username], round) else None
    {
      if username !in secrets || secrets[username].round > round {
        return None;
      }
      var key := GetSecret(secrets[username], round);
      return Some((h.hash3)(key.value, round));
    }

    method OutgoingDialToken(username: string, round: nat, intent: int) returns (r: Option<Bytes>)
      ensures r == if username in secrets then DialToken(h, secrets[username], round, username, intent) else None
    {
      if username !in secrets || secrets[username].round > round {
        return None;
      }
      var key := GetSecret(secrets[username], round);
      return Some((h.hash2)(key.value, round, intent % TwoTo32, username));
    }

    /** The tokens that calls to this user would carry, one entry per friend, in any order. */
    method IncomingDialTokens(myUsername: string, round: nat, numIntents: nat) returns (all: seq<UserDialTokens>)
      ensures Listed(h, secrets, secrets.Keys, all, round, myUsername, numIntents)
    {
      all := [];
      var todo := secrets.Keys;
      while todo != {}
        invariant todo <= secrets.Keys && Listed(h, secrets, secrets.Keys - todo, all, round, myUsername, numIntents)
        decreases todo
      {
        var friend :| friend in todo;
        ghost var before, friends := all, secrets.Keys - todo;
        var rs := secrets[friend];
        if rs.round <= round {
          var tokens := UserTokens(friend, rs, round, myUsername, numIntents);
          all := all + [tokens];
        }
        ListedOn(h, secrets, friends, before, round, myUsername, numIntents, friend, all);
        todo := todo - {friend};
        assert friends + {friend} == secrets.Keys - todo;
      }
      assert secrets.Keys - todo == secrets.Keys;
    }

    method UserTokens(friend: string, rs: RoundSecret, round: nat, me: string, numIntents: nat)
      returns (u: UserDialTokens)
      requires rs.round <= round
      ensures u == TokensFrom(h, friend, rs, round, me, numIntents)
    {
      var key := GetSecret(rs, round);
      var tokens: seq<Bytes> := [];
      for i := 0 to numIntents
        invariant |tokens| == i && forall j :: 0 <= j < i ==>
          tokens[j] == TokensFrom(h, friend, rs, round, me, numIntents).tokens[j]
      {
        tokens := tokens + [(h.hash2)(key.value, round, i % TwoTo32, me)];
      }
      u := UserDialTokens(friend, tokens);
      assert u.tokens == TokensFrom(h, friend, rs, round, me, numIntents).tokens;
    }

    method EraseKeys(round: nat)
      modifies this
      ensures secrets == ErasedAll(h, old(secrets), round)
    {
      var newRound := (round + 1) % TwoTo32;
      var todo := secrets.Keys;
      while todo != {}
        invariant secrets.Keys == old(secrets).Keys && todo <= secrets.Keys
        invariant forall u :: u in secrets ==>
          secrets[u] == if u in todo then old(secrets)[u] else Erased(h, old(secrets)[u], round)
        decreases todo
      {
        var u :| u in todo;
        todo := todo - {u};
        var newSecret := GetSecret(secrets[u], newRound);
        if newSecret.Some? {
          secrets := secrets[u := RoundSecret(newRound, newSecret.value)];
        }
      }
    }
  }
}
