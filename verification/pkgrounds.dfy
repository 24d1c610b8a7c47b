/** The PKG's commit and reveal rounds, and what two clients that verify the same round agree on. */
module PkgRounds {
  import opened Base
  import opened SortedKeys

  const HexKeySize: nat := 64
  const CommitmentSize: nat := 32

  /** A round's keys in encoded form: the IBE master key and the BLS key. */
  datatype RoundKeys = RoundKeys(master: Bytes, bls: Bytes)

  datatype RoundState = RoundState(keys: RoundKeys, revealSignature: Option<Bytes>)

  type Rounds = map<nat, RoundState>

  /** commitTo and Ed25519. */
  datatype Scheme = Scheme(
    commitTo: RoundKeys -> Bytes,
    publicKey: Bytes -> Bytes,
    sign: (Bytes, Bytes) -> Bytes,
    verify: (Bytes, Bytes, Bytes) -> bool)
  {
    ghost predicate Lawful() {
      && (forall a :: |commitTo(a)| == CommitmentSize)
      && (forall k :: |publicKey(k)| * 2 == HexKeySize)
      && (forall k, m {:trigger sign(k, m)} :: verify(publicKey(k), m, sign(k, m)))
    }
  }

  /* ---- the signed message ---- */

  datatype Entry = Entry(hexkey: Bytes, commitment: Bytes)

  /** "Commitments" */
  const Label: Bytes := [67, 111, 109, 109, 105, 116, 109, 101, 110, 116, 115]

  function Flatten(entries: seq<Entry>): Bytes {
    if entries == [] then [] else entries[0].hexkey + entries[0].commitment + Flatten(entries[1..])
  }

  function Message(round: nat, entries: seq<Entry>): Bytes
    requires round < TwoTo32
  {
    Label + PutUint32(round) + Flatten(entries)
  }

  /** All keys and commitments have their fixed widths. */
  predicate Wide(entries: seq<Entry>) {
    forall i :: 0 <= i < |entries| ==> |entries[i].hexkey| == HexKeySize && |entries[i].commitment| == CommitmentSize
  }

  lemma {:induction false} FlattenInjective(a: seq<Entry>, b: seq<Entry>)
    requires Wide(a) && Wide(b) && Flatten(a) == Flatten(b)
    ensures a == b
  {
    FlattenSize(a);
    FlattenSize(b);
    if a != [] {
      var x, y := Flatten(a), Flatten(b);
      assert x[..HexKeySize] == a[0].hexkey && y[..HexKeySize] == b[0].hexkey;
      assert x[HexKeySize..HexKeySize + CommitmentSize] == a[0].commitment &&
          y[HexKeySize..HexKeySize + CommitmentSize] == b[0].commitment;
      assert x[HexKeySize + CommitmentSize..] == Flatten(a[1..]) && y[HexKeySize + CommitmentSize..] == Flatten(b[1..]);
      FlattenInjective(a[1..], b[1..]);
      assert a == [a[0]] + a[1..] && b == [b[0]] + b[1..];
    }
  }

  lemma {:induction false} FlattenSize(a: seq<Entry>)
    requires Wide(a)
    ensures |Flatten(a)| == |a| * (HexKeySize + CommitmentSize)
  {
    if a != [] {
      FlattenSize(a[1..]);
    }
  }

  /** A commitments message says which round it is for, and which keys and commitments it lists. */
  lemma MessageInjective(r: nat, a: seq<Entry>, q: nat, b: seq<Entry>)
    requires r < TwoTo32 && q < TwoTo32 && Wide(a) && Wide(b) && Message(r, a) == Message(q, b)
    ensures r == q && a == b
  {
    var m := Message(r, a);
    assert m[|Label|..|Label| + 4] == PutUint32(r) && m[|Label|..|Label| + 4] == PutUint32(q);
    PutUint32RoundTrip(r);
    PutUint32RoundTrip(q);
    assert m[|Label| + 4..] == Flatten(a) && m[|Label| + 4..] == Flatten(b);
    FlattenInjective(a, b);
  }

  /** The entries of some commitments, in ascending order of their keys. */
  ghost predicate EntriesFor(commitments: map<Bytes, Bytes>, entries: seq<Entry>) {
    && Ascending(Keys(entries)) && (forall k :: k in Keys(entries) <==> k in commitments)
    && forall i :: 0 <= i < |entries| ==>
        entries[i].hexkey in commitments && entries[i].commitment == commitments[entries[i].hexkey]
  }

  function Keys(entries: seq<Entry>): (r: seq<Bytes>)
    ensures |r| == |entries| && forall i :: 0 <= i < |r| ==> r[i] == entries[i].hexkey
  {
    if entries == [] then [] else [entries[0].hexkey] + Keys(entries[1..])
  }

  lemma EntriesUnique(commitments: map<Bytes, Bytes>, a: seq<Entry>, b: seq<Entry>)
    requires EntriesFor(commitments, a) && EntriesFor(commitments, b)
    ensures a == b
  {
    AscendingUnique(Keys(a), Keys(b));
    forall i | 0 <= i < |a| ensures a[i] == b[i] {
      assert Keys(a)[i] == a[i].hexkey && Keys(b)[i] == b[i].hexkey;
    }
  }

  /* ---- the server ---- */

  /**
   * The rounds after a commit: the round is added, and every round before the one before it is deleted, the 32-bit
   * round - 1 wrapping.
   */
  function AfterCommit(rounds: Rounds, round: nat, drawn: RoundKeys): Rounds {
    var added := if round in rounds then rounds else rounds[round := RoundState(drawn, None)];
    var oldest := (round - 1) % TwoTo32;
    map r | r in added && r >= oldest :: added[r]
  }

  /** The rounds that the log has a signed commitments message for are all different. */
  ghost predicate OnePerRound(signed: seq<(nat, Bytes)>) {
    forall i, j :: 0 <= i < j < |signed| ==> signed[i].0 != signed[j].0
  }

  ghost predicate SignedFor(signed: seq<(nat, Bytes)>, round: nat) {
    exists i :: 0 <= i < |signed| && signed[i].0 == round
  }

  ghost predicate IsMessage(round: nat, m: Bytes) {
    round < TwoTo32 && exists entries :: Wide(entries) && m == Message(round, entries)
  }

  /** No round has been signed for twice, and none that is kept without a signature has been signed for. */
  ghost predicate SignsOnce(rounds: Rounds, signed: seq<(nat, Bytes)>) {
    && OnePerRound(signed)
    && (forall r :: r in rounds ==> r < TwoTo32)
    && (forall r :: r in rounds && rounds[r].revealSignature == None ==> !SignedFor(signed, r))
    && (forall i :: 0 <= i < |signed| ==> IsMessage(signed[i].0, signed[i].1))
  }

  /** What holds when commits come in order: at most the last round and the one before it are kept. */
  ghost predicate Recent(rounds: Rounds, signed: seq<(nat, Bytes)>, last: nat) {
    && (forall r :: r in rounds ==> r == last || r == last - 1)
    && (last == 0 ==> rounds == map[])
    && (last > 0 ==> last in rounds)
    && (forall r: nat :: SignedFor(signed, r) ==> r <= last)
  }

  lemma CommitSignsOnce(rounds: Rounds, signed: seq<(nat, Bytes)>, round: nat, drawn: RoundKeys)
    requires SignsOnce(rounds, signed) && round < TwoTo32
    ensures SignsOnce(AfterCommit(rounds, round, drawn), signed) <==>
      round == 0 || round in rounds || !SignedFor(signed, round)
  {
    var after := AfterCommit(rounds, round, drawn);
    if round != 0 && round !in rounds {
      assert round in after && after[round].revealSignature == None;
    }
  }

  lemma CommitStaysRecent(rounds: Rounds, signed: seq<(nat, Bytes)>, last: nat, round: nat, drawn: RoundKeys)
    requires SignsOnce(rounds, signed) && Recent(rounds, signed, last) && 1 <= round < TwoTo32 && last <= round
    ensures var after := AfterCommit(rounds, round, drawn);
      SignsOnce(after, signed) && Recent(after, signed, round) && |after| <= 2
  {
    CommitSignsOnce(rounds, signed, round, drawn);
    SubsetSize(AfterCommit(rounds, round, drawn).Keys, {round, round - 1});
  }

  lemma RevealSignsOnce(rounds: Rounds, signed: seq<(nat, Bytes)>, last: nat, round: nat, sig: Bytes, msg: Bytes)
    requires SignsOnce(rounds, signed) && round in rounds
    requires rounds[round].revealSignature == None && IsMessage(round, msg)
    ensures var after := rounds[round := RoundState(rounds[round].keys, Some(sig))];
      && SignsOnce(after, signed + [(round, msg)])
      && (Recent(rounds, signed, last) ==> Recent(after, signed + [(round, msg)], last))
  {
    NewlySigned(signed, round, msg);
    forall i | 0 <= i < |signed| ensures signed[i].0 != round {
      assert SignedFor(signed, signed[i].0);
    }
  }

  datatype RevealReply = RevealReply(keys: RoundKeys, signature: Bytes)
  datatype PkgError = RoundNotFound | BadCommitment

  class Server {
    const scheme: Scheme
    const privateKey: Bytes
    var rounds: map<nat, RoundState>
    /** The commitments messages signed so far, and the last round committed to (0 before the first). */
    ghost var signed: seq<(nat, Bytes)>
    ghost var last: nat

    ghost predicate Valid()
      reads this
    {
      scheme.Lawful() && SignsOnce(rounds, signed)
    }

    ghost predicate InOrder()
      reads this
    {
      Recent(rounds, signed, last)
    }

    constructor (scheme: Scheme, privateKey: Bytes)
      requires scheme.Lawful()
      ensures Valid() && InOrder() && last == 0 && this.scheme == scheme
      ensures this.privateKey == privateKey && rounds == map[] && signed == []
    {
      this.scheme, this.privateKey, rounds := scheme, privateKey, map[];
      signed, last := [], 0;
    }

    /**
     * Commits to a round's keys. The server can then still sign at most once per round exactly unless the
     * commit brings back a round that was signed for and has been deleted; commits in order never do.
     */
    method Commit(round: nat, drawn: RoundKeys) returns (commitment: Bytes)
      requires Valid() && round < TwoTo32
      modifies this
      ensures rounds == AfterCommit(old(rounds), round, drawn) && signed == old(signed) && last == round
      ensures commitment == scheme.commitTo(if round in old(rounds) then old(rounds)[round].keys else drawn)
      ensures Valid() <==> round == 0 || round in old(rounds) || !SignedFor(old(signed), round)
      ensures old(InOrder()) && 1 <= round && old(last) <= round ==> Valid() && InOrder() && |rounds| <= 2
    {
      ghost var before := rounds;
      if round !in rounds {
        rounds := rounds[round := RoundState(drawn, None)];
      }
      var st := rounds[round];
      ghost var added := rounds;
      var oldest := (round - 1) % TwoTo32;
      var todo := rounds.Keys;
      while todo != {}
        invariant todo <= added.Keys
        invariant forall r :: r in rounds <==> r in added && (r in todo || r >= oldest)
        invariant forall r :: r in rounds ==> rounds[r] == added[r]
        modifies this`rounds
        decreases todo
      {
        var r :| r in todo;
        todo := todo - {r};
        if r < oldest {
          rounds := rounds - {r};
        }
      }
      assert rounds == AfterCommit(before, round, drawn);
      last := round;
      commitment := scheme.commitTo(st.keys);
      CommitSignsOnce(before, signed, round, drawn);
      if Recent(before, signed, old(last)) && 1 <= round && old(last) <= round {
        CommitStaysRecent(before, signed, old(last), round, drawn);
      }
    }

    /** The signature over some commitments, if the round's own is among them and all have their widths. */
    method SignCommitments(keys: RoundKeys, round: nat, commitments: map<Bytes, Bytes>)
      returns (sig: Option<Bytes>, ghost entries: seq<Entry>)
      requires scheme.Lawful() && round < TwoTo32
      ensures sig.Some? <==> GoodCommitments(scheme, privateKey, keys, commitments)
      ensures sig.Some? ==> IsMessage(round, Message(round, entries))
      ensures sig.Some? ==> SignsEntries(scheme, privateKey, round, commitments, entries, sig.value)
    {
      entries := [];
      var own := Hex(scheme.publicKey(privateKey));
      var expected := scheme.commitTo(keys);
      if own !in commitments || commitments[own] != expected {
        return None, entries;
      }
      var ok, list := ListEntries(commitments, |expected|);
      if !ok {
        return None, entries;
      }
      return Some(scheme.sign(privateKey, Message(round, list))), list;
    }

    /** Signs the commitments of a round once, if its own is among them; later reveals give the same signature. */
    method Reveal(round: nat, commitments: map<Bytes, Bytes>)
      returns (r: Result<RevealReply, PkgError>, ghost entries: seq<Entry>)
      requires Valid()
      modifies this`rounds, this`signed
      ensures Valid() && (old(InOrder()) ==> InOrder())
      ensures Revealed(scheme, privateKey, old(rounds), old(signed), rounds, signed, round, commitments, entries, r)
    {
      entries := [];
      if round !in rounds {
        return Err(RoundNotFound), entries;
      }
      var st := rounds[round];
      if st.revealSignature == None {
        var sig;
        sig, entries := SignCommitments(st.keys, round, commitments);
        if sig == None {
          return Err(BadCommitment), entries;
        }
        Record(round, sig.value, Message(round, entries));
      }
      return Ok(RevealReply(st.keys, rounds[round].revealSignature.value)), entries;
    }

    /** Keeps the signature of a round, and logs the message it signs. */
    method Record(round: nat, sig: Bytes, ghost msg: Bytes)
      requires Valid() && round in rounds && rounds[round].revealSignature == None && IsMessage(round, msg)
      modifies this`rounds, this`signed
      ensures Valid() && (old(InOrder()) ==> InOrder())
      ensures rounds == old(rounds)[round := RoundState(old(rounds)[round].keys, Some(sig))]
      ensures signed == old(signed) + [(round, msg)]
    {
      RevealSignsOnce(rounds, signed, last, round, sig, msg);
      rounds := rounds[round := RoundState(rounds[round].keys, Some(sig))];
      signed := signed + [(round, msg)];
    }
  }

  /** The signature is over the entries of the commitments. */
  ghost predicate SignsEntries(scheme: Scheme, privateKey: Bytes, round: nat, commitments: map<Bytes, Bytes>,
                               entries: seq<Entry>, sig: Bytes) {
    round < TwoTo32 && EntriesFor(commitments, entries) && sig == scheme.sign(privateKey, Message(round, entries))
  }

  /* ---- whole runs of a PKG ---- */

  /** A PKG's rounds and the commitments messages that it has signed. */
  datatype PkgState = PkgState(rounds: Rounds, signed: seq<(nat, Bytes)>)

  datatype Act = CommitTo(round: nat, drawn: RoundKeys) | RevealOf(round: nat, commitments: map<Bytes, Bytes>)

  ghost predicate Acts(scheme: Scheme, privateKey: Bytes, s: PkgState, act: Act, t: PkgState) {
    match act
    case CommitTo(round, drawn) => round < TwoTo32 && t == PkgState(AfterCommit(s.rounds, round, drawn), s.signed)
    case RevealOf(round, commitments) =>
      exists entries, r :: Revealed(scheme, privateKey, s.rounds, s.signed, t.rounds, t.signed, round, commitments,
          entries, r)
  }

  /** A run from a PKG that has just started. */
  ghost predicate IsRun(scheme: Scheme, privateKey: Bytes, acts: seq<Act>, states: seq<PkgState>) {
    && |states| == |acts| + 1 && states[0] == PkgState(map[], [])
    && forall i :: 0 <= i < |acts| ==> Acts(scheme, privateKey, states[i], acts[i], states[i + 1])
  }

  /** The round of the last commit, or 0 before the first. */
  function LastCommit(acts: seq<Act>): nat {
    if acts == [] then 0
    else
      var act := acts[|acts| - 1];
      if act.CommitTo? then act.round else LastCommit(acts[..|acts| - 1])
  }

  /** Commit rounds start at 1 and never decrease. */
  predicate CommitsInOrder(acts: seq<Act>) {
    acts == [] || (
      var act, before := acts[|acts| - 1], acts[..|acts| - 1];
      CommitsInOrder(before) && (act.CommitTo? ==> 1 <= act.round && LastCommit(before) <= act.round))
  }

  lemma RevealKeeps(scheme: Scheme, privateKey: Bytes, s: PkgState, t: PkgState, last: nat, round: nat,
                    commitments: map<Bytes, Bytes>, entries: seq<Entry>, r: Result<RevealReply, PkgError>)
    requires scheme.Lawful() && SignsOnce(s.rounds, s.signed)
    requires Revealed(scheme, privateKey, s.rounds, s.signed, t.rounds, t.signed, round, commitments, entries, r)
    ensures SignsOnce(t.rounds, t.signed) && (Recent(s.rounds, s.signed, last) ==> Recent(t.rounds, t.signed, last))
  {
    if round in s.rounds && s.rounds[round].revealSignature == None && r.Ok? {
      assert Wide(entries);
      RevealSignsOnce(s.rounds, s.signed, last, round, r.value.signature, Message(round, entries));
    }
  }

  /** Over every run whose commits come in order, a PKG signs at most once per round and keeps at most two rounds. */
  lemma {:induction false} RunSignsOnce(scheme: Scheme, privateKey: Bytes, acts: seq<Act>, states: seq<PkgState>)
    requires scheme.Lawful() && IsRun(scheme, privateKey, acts, states) && CommitsInOrder(acts)
    ensures var s := states[|acts|];
      SignsOnce(s.rounds, s.signed) && Recent(s.rounds, s.signed, LastCommit(acts)) && |s.rounds| <= 2
  {
    if acts != [] {
      var n := |acts| - 1;
      RunSignsOnce(scheme, privateKey, acts[..n], states[..n + 1]);
      var s, t, last := states[n], states[n + 1], LastCommit(acts[..n]);
      match acts[n]
      case CommitTo(round, drawn) => CommitStaysRecent(s.rounds, s.signed, last, round, drawn);
      case RevealOf(round, commitments) =>
        var entries, r :| Revealed(scheme, privateKey, s.rounds, s.signed, t.rounds, t.signed, round, commitments,
            entries, r);
        RevealKeeps(scheme, privateKey, s, t, last, round, commitments, entries, r);
        SubsetSize(t.rounds.Keys, {last, last - 1});
    }
  }

  /* ---- signing twice ---- */

  /** A server's own key in hex, and the commitments that list nothing but its own. */
  function OwnKey(scheme: Scheme, privateKey: Bytes): Bytes {
    Hex(scheme.publicKey(privateKey))
  }

  function OwnCommitments(scheme: Scheme, privateKey: Bytes, keys: RoundKeys): map<Bytes, Bytes> {
    map[OwnKey(scheme, privateKey) := scheme.commitTo(keys)]
  }

  function OwnMessage(scheme: Scheme, privateKey: Bytes, round: nat, keys: RoundKeys): Bytes
    requires round < TwoTo32
  {
    Message(round, [Entry(OwnKey(scheme, privateKey), scheme.commitTo(keys))])
  }

  /** The state after the server signed its own commitment for a round. */
  function OwnRevealed(scheme: Scheme, privateKey: Bytes, s: PkgState, round: nat): PkgState
    requires round in s.rounds && round < TwoTo32
  {
    var keys := s.rounds[round].keys;
    var msg := OwnMessage(scheme, privateKey, round, keys);
    PkgState(s.rounds[round := RoundState(keys, Some(scheme.sign(privateKey, msg)))], s.signed + [(round, msg)])
  }

  lemma OwnReveal(scheme: Scheme, privateKey: Bytes, s: PkgState, round: nat)
    requires scheme.Lawful() && round in s.rounds && round < TwoTo32 && s.rounds[round].revealSignature == None
    ensures Acts(scheme, privateKey, s, RevealOf(round, OwnCommitments(scheme, privateKey, s.rounds[round].keys)),
                 OwnRevealed(scheme, privateKey, s, round))
  {
    var keys := s.rounds[round].keys;
    var own, commitments := OwnKey(scheme, privateKey), OwnCommitments(scheme, privateKey, keys);
    var entries := [Entry(own, scheme.commitTo(keys))];
    assert Keys(entries) == [own];
    assert EntriesFor(commitments, entries);
    var t := OwnRevealed(scheme, privateKey, s, round);
    var sig := scheme.sign(privateKey, Message(round, entries));
    assert Revealed(scheme, privateKey, s.rounds, s.signed, t.rounds, t.signed, round, commitments, entries,
        Ok(RevealReply(keys, sig)));
  }

  /** In the state a reveal can make the server sign a second message for a round. */
  ghost predicate SignsTwice(scheme: Scheme, privateKey: Bytes, s: PkgState) {
    exists round, commitments, t :: Acts(scheme, privateKey, s, RevealOf(round, commitments), t) &&
        !OnePerRound(t.signed)
  }

  /**
   * After a commit the server can be made to sign twice for a round exactly when the commit brings back a round that
   * was signed for and deleted.
   */
  lemma SignsTwiceIff(scheme: Scheme, privateKey: Bytes, s: PkgState, round: nat, drawn: RoundKeys)
    requires scheme.Lawful() && SignsOnce(s.rounds, s.signed) && round < TwoTo32
    ensures SignsTwice(scheme, privateKey, PkgState(AfterCommit(s.rounds, round, drawn), s.signed))
      <==> round != 0 && round !in s.rounds && SignedFor(s.signed, round)
  {
    var after := PkgState(AfterCommit(s.rounds, round, drawn), s.signed);
    CommitSignsOnce(s.rounds, s.signed, round, drawn);
    if round != 0 && round !in s.rounds && SignedFor(s.signed, round) {
      var t := OwnRevealed(scheme, privateKey, after, round);
      OwnReveal(scheme, privateKey, after, round);
      var i :| 0 <= i < |s.signed| && s.signed[i].0 == round;
      assert t.signed[i].0 == t.signed[|s.signed|].0;
    } else {
      SignsOnceStays(scheme, privateKey, after);
    }
  }

  lemma SignsOnceStays(scheme: Scheme, privateKey: Bytes, s: PkgState)
    requires scheme.Lawful() && SignsOnce(s.rounds, s.signed)
    ensures !SignsTwice(scheme, privateKey, s)
  {
    forall round, commitments, t | Acts(scheme, privateKey, s, RevealOf(round, commitments), t)
        ensures OnePerRound(t.signed) {
      var entries, r :| Revealed(scheme, privateKey, s.rounds, s.signed, t.rounds, t.signed, round, commitments,
          entries, r);
      RevealKeeps(scheme, privateKey, s, t, 0, round, commitments, entries, r);
    }
  }

  /** Commit, reveal, commit two rounds on, commit to the first round again, reveal. */
  function GoingBack(scheme: Scheme, privateKey: Bytes, round: nat, a: RoundKeys, b: RoundKeys,
                     c: RoundKeys): seq<Act> {
    [CommitTo(round, a), RevealOf(round, OwnCommitments(scheme, privateKey, a)), CommitTo(round + 2, b),
     CommitTo(round, c), RevealOf(round, OwnCommitments(scheme, privateKey, c))]
  }

  /**
   * A run that goes back: the round that was deleted gets new keys, and is signed for a second time. The
   * two messages differ exactly when the commitments to the old and the new keys do.
   */
  lemma GoingBackSignsTwice(scheme: Scheme, privateKey: Bytes, round: nat, a: RoundKeys, b: RoundKeys, c: RoundKeys)
    returns (states: seq<PkgState>)
    requires scheme.Lawful() && 1 <= round < TwoTo32 - 2
    ensures IsRun(scheme, privateKey, GoingBack(scheme, privateKey, round, a, b, c), states)
    ensures states[5].signed == [(round, OwnMessage(scheme, privateKey, round, a)),
      (round, OwnMessage(scheme, privateKey, round, c))]
    ensures OwnMessage(scheme, privateKey, round, a) != OwnMessage(scheme, privateKey, round, c) <==>
      scheme.commitTo(a) != scheme.commitTo(c)
  {
    var s0, s1, s2 := FirstSigned(scheme, privateKey, round, a);
    var s3, s4 := BroughtBack(scheme, privateKey, round, b, c, s2);
    var s5 := SecondSigned(scheme, privateKey, round, c, s4);
    states := RunOfFive(scheme, privateKey, s0, CommitTo(round, a), s1,
        RevealOf(round, OwnCommitments(scheme, privateKey, a)), s2,
      CommitTo(round + 2, b), s3, CommitTo(round, c), s4, RevealOf(round, OwnCommitments(scheme, privateKey, c)), s5);
    OwnMessages(scheme, privateKey, round, a, c);
  }

  lemma RunOfFive(scheme: Scheme, privateKey: Bytes, s0: PkgState, a0: Act, s1: PkgState, a1: Act, s2: PkgState,
                  a2: Act, s3: PkgState, a3: Act, s4: PkgState, a4: Act, s5: PkgState) returns (states: seq<PkgState>)
    requires s0 == PkgState(map[], [])
    requires Acts(scheme, privateKey, s0, a0, s1) && Acts(scheme, privateKey, s1, a1, s2)
    requires Acts(scheme, privateKey, s2, a2, s3)
    requires Acts(scheme, privateKey, s3, a3, s4) && Acts(scheme, privateKey, s4, a4, s5)
    ensures IsRun(scheme, privateKey, [a0, a1, a2, a3, a4], states) && states[5] == s5
  {
    states := [s0, s1, s2, s3, s4, s5];
  }

  lemma SecondSigned(scheme: Scheme, privateKey: Bytes, round: nat, c: RoundKeys, s: PkgState) returns (t: PkgState)
    requires scheme.Lawful() && round in s.rounds && round < TwoTo32 && s.rounds[round] == RoundState(c, None)
    ensures Acts(scheme, privateKey, s, RevealOf(round, OwnCommitments(scheme, privateKey, c)), t)
    ensures t.signed == s.signed + [(round, OwnMessage(scheme, privateKey, round, c))]
  {
    t := OwnRevealed(scheme, privateKey, s, round);
    OwnReveal(scheme, privateKey, s, round);
  }

  lemma FirstSigned(scheme: Scheme, privateKey: Bytes, round: nat, a: RoundKeys)
    returns (s0: PkgState, s1: PkgState, s2: PkgState)
    requires scheme.Lawful() && 1 <= round < TwoTo32 - 2
    ensures s0 == PkgState(map[], []) && Acts(scheme, privateKey, s0, CommitTo(round, a), s1)
    ensures Acts(scheme, privateKey, s1, RevealOf(round, OwnCommitments(scheme, privateKey, a)), s2)
    ensures s2.rounds.Keys == {round} && s2.signed == [(round, OwnMessage(scheme, privateKey, round, a))]
  {
    s0, s1 := PkgState(map[], []), PkgState(map[round := RoundState(a, None)], []);
    assert AfterCommit(s0.rounds, round, a) == s1.rounds;
    s2 := OwnRevealed(scheme, privateKey, s1, round);
    OwnReveal(scheme, privateKey, s1, round);
    assert s2.signed == [(round, OwnMessage(scheme, privateKey, round, a))];
  }

  lemma BroughtBack(scheme: Scheme, privateKey: Bytes, round: nat, b: RoundKeys, c: RoundKeys, s: PkgState)
    returns (t: PkgState, u: PkgState)
    requires s.rounds.Keys == {round} && 1 <= round < TwoTo32 - 2
    ensures Acts(scheme, privateKey, s, CommitTo(round + 2, b), t) && Acts(scheme, privateKey, t, CommitTo(round, c), u)
    ensures round in u.rounds && u.rounds[round] == RoundState(c, None) && u.signed == s.signed
  {
    t := PkgState(map[round + 2 := RoundState(b, None)], s.signed);
    assert AfterCommit(s.rounds, round + 2, b) == t.rounds;
    u := PkgState(AfterCommit(t.rounds, round, c), s.signed);
  }

  lemma OwnMessages(scheme: Scheme, privateKey: Bytes, round: nat, a: RoundKeys, c: RoundKeys)
    requires scheme.Lawful() && round < TwoTo32
    ensures OwnMessage(scheme, privateKey, round, a) != OwnMessage(scheme, privateKey, round, c) <==>
      scheme.commitTo(a) != scheme.commitTo(c)
  {
    var own := OwnKey(scheme, privateKey);
    if OwnMessage(scheme, privateKey, round, a) == OwnMessage(scheme, privateKey, round, c) {
      MessageInjective(round, [Entry(own, scheme.commitTo(a))], round, [Entry(own, scheme.commitTo(c))]);
    }
  }

  /**
   * What a reveal gives and does: errors change nothing, a first reveal signs and logs, later ones repeat its
   * signature.
   */
  ghost predicate Revealed(scheme: Scheme, privateKey: Bytes, before: Rounds, log: seq<(nat, Bytes)>, rounds: Rounds,
                           signed: seq<(nat, Bytes)>,
                           round: nat, commitments: map<Bytes, Bytes>, entries: seq<Entry>, r: Result<RevealReply,
                               PkgError>) {
    if round !in before then r == Err(RoundNotFound) && rounds == before && signed == log
    else
      var st := before[round];
      if st.revealSignature == None && !GoodCommitments(scheme, privateKey, st.keys, commitments) then
        r == Err(BadCommitment) && rounds == before && signed == log
      else
        && r.Ok? && r.value.keys == st.keys
        && if st.revealSignature.Some? then
             Some(r.value.signature) == st.revealSignature && rounds == before && signed == log
           else
             && rounds == before[round := RoundState(st.keys, Some(r.value.signature))]
             && SignsEntries(scheme, privateKey, round, commitments, entries, r.value.signature)
             && signed == log + [(round, Message(round, entries))]
  }

  /** The server's own commitment is right, and every key and commitment has its width. */
  ghost predicate GoodCommitments(scheme: Scheme, privateKey: Bytes, keys: RoundKeys, commitments: map<Bytes, Bytes>) {
    var own := Hex(scheme.publicKey(privateKey));
    && own in commitments && commitments[own] == scheme.commitTo(keys)
    && forall k :: k in commitments ==> |k| == HexKeySize && |commitments[k]| == CommitmentSize
  }

  lemma NewlySigned(signed: seq<(nat, Bytes)>, round: nat, msg: Bytes)
    ensures forall r :: SignedFor(signed + [(round, msg)], r) <==> SignedFor(signed, r) || r == round
  {
    var more := signed + [(round, msg)];
    assert more[|signed|].0 == round;
    forall r | SignedFor(signed, r) ensures SignedFor(more, r) {
      var i :| 0 <= i < |signed| && signed[i].0 == r;
      assert more[i].0 == r;
    }
  }

  lemma {:induction false} SubsetSize(a: set<nat>, b: set<int>)
    requires forall x :: x in a ==> x in b
    ensures |a| <= |b|
  {
    if a != {} {
      var x :| x in a;
      SubsetSize(a - {x}, b - {x});
    }
  }

  /** The entries in ascending order of keys, unless some key or commitment is of the wrong width. */
  method ListEntries(commitments: map<Bytes, Bytes>, size: nat) returns (ok: bool, entries: seq<Entry>)
    ensures ok <==> forall k :: k in commitments ==> |k| == HexKeySize && |commitments[k]| == size
    ensures ok ==> EntriesFor(commitments, entries)
    ensures ok ==> forall i :: 0 <= i < |entries| ==>
      |entries[i].hexkey| == HexKeySize && |entries[i].commitment| == size
  {
    var hexkeys := KeyList(commitments);
    SortAscending(hexkeys);
    hexkeys := Sort(hexkeys);
    ok, entries := ListInOrder(commitments, hexkeys, size);
    if ok {
      AllListed(commitments, hexkeys, entries, size);
    }
  }

  /** The entries of some keys in their order, up to a key or commitment of the wrong width. */
  method ListInOrder(commitments: map<Bytes, Bytes>, hexkeys: seq<Bytes>, size: nat)
    returns (ok: bool, entries: seq<Entry>)
    requires forall i :: 0 <= i < |hexkeys| ==> hexkeys[i] in commitments
    ensures ok ==> Keys(entries) == hexkeys && forall j :: 0 <= j < |entries| ==> Listed(commitments, entries[j], size)
    ensures !ok ==> exists k :: k in commitments && !(|k| == HexKeySize && |commitments[k]| == size)
  {
    entries := [];
    for i := 0 to |hexkeys|
      invariant Keys(entries) == hexkeys[..i]
      invariant forall j :: 0 <= j < |entries| ==> Listed(commitments, entries[j], size)
    {
      var hexkey := hexkeys[i];
      if |hexkey| != HexKeySize || |commitments[hexkey]| != size {
        return false, [];
      }
      KeysOn(entries, Entry(hexkey, commitments[hexkey]));
      entries := entries + [Entry(hexkey, commitments[hexkey])];
      assert hexkeys[..i + 1] == hexkeys[..i] + [hexkey];
    }
    assert hexkeys[..|hexkeys|] == hexkeys;
    return true, entries;
  }

  /** When the entries are of the right width and no key is missing, all keys and commitments are. */
  lemma AllListed(commitments: map<Bytes, Bytes>, hexkeys: seq<Bytes>, entries: seq<Entry>, size: nat)
    requires Keys(entries) == hexkeys && forall k :: k in commitments ==> k in hexkeys
    requires forall j :: 0 <= j < |entries| ==> Listed(commitments, entries[j], size)
    ensures forall k :: k in commitments ==> |k| == HexKeySize && |commitments[k]| == size
  {
    forall k | k in commitments ensures |k| == HexKeySize && |commitments[k]| == size {
      var i :| 0 <= i < |hexkeys| && hexkeys[i] == k;
      assert entries[i].hexkey == Keys(entries)[i] == k && Listed(commitments, entries[i], size);
    }
  }

  /** The entry is one of the commitments, and its key and commitment have their widths. */
  predicate Listed(commitments: map<Bytes, Bytes>, e: Entry, size: nat) {
    && e.hexkey in commitments && e.commitment == commitments[e.hexkey]
    && |e.hexkey| == HexKeySize && |e.commitment| == size
  }

  lemma KeysOn(entries: seq<Entry>, e: Entry)
    ensures Keys(entries + [e]) == Keys(entries) + [e.hexkey]
  {
  }

  /** The keys of a map, in any order. */
  method KeyList(m: map<Bytes, Bytes>) returns (keys: seq<Bytes>)
    ensures (forall k :: k in keys <==> k in m) && forall i, j :: 0 <= i < j < |keys| ==> keys[i] != keys[j]
  {
    keys := [];
    var todo := m.Keys;
    while todo != {}
      invariant todo <= m.Keys && forall k :: k in keys <==> k in m && k !in todo
      invariant forall i, j :: 0 <= i < j < |keys| ==> keys[i] != keys[j]
      decreases todo
    {
      var k :| k in todo;
      todo, keys := todo - {k}, keys + [k];
    }
  }

  /* ---- the clients ---- */

  type RoundSettings = map<Bytes, RevealReply>

  function HexKeys(keys: seq<Bytes>): (r: seq<Bytes>)
    ensures |r| == |keys| && forall i :: 0 <= i < |r| ==> r[i] == Hex(keys[i])
  {
    seq(|keys|, i requires 0 <= i < |keys| => Hex(keys[i]))
  }

  /** The entries that a client recomputes from the revealed keys. */
  function Recomputed(scheme: Scheme, settings: RoundSettings, hexkeys: seq<Bytes>): (r: seq<Entry>)
    ensures |r| == |hexkeys| && forall i :: 0 <= i < |r| ==> r[i].hexkey == hexkeys[i]
  {
    seq(|hexkeys|, i requires 0 <= i < |hexkeys| =>
      Entry(hexkeys[i], if hexkeys[i] in settings then scheme.commitTo(settings[hexkeys[i]].keys) else []))
  }

  /** Every key's reveal is there, and signs the recomputed commitments of them all. */
  predicate Verified(scheme: Scheme, settings: RoundSettings, round: nat, keys: seq<Bytes>)
    requires round < TwoTo32
  {
    && (forall i :: 0 <= i < |keys| ==> Hex(keys[i]) in settings)
    && var msg := Message(round, Recomputed(scheme, settings, Sort(HexKeys(keys))));
      forall i :: 0 <= i < |keys| ==> scheme.verify(keys[i], msg, settings[Hex(keys[i])].signature)
  }

  /** The client's check of a round's settings. */
  method Verify(scheme: Scheme, settings: RoundSettings, round: nat, keys: seq<Bytes>) returns (ok: bool)
    requires round < TwoTo32
    ensures ok == Verified(scheme, settings, round, keys)
  {
    var hexkeys := Sort(HexKeys(keys));
    var entries: seq<Entry> := [];
    for i := 0 to |hexkeys|
      invariant entries == Recomputed(scheme, settings, hexkeys)[..i]
      invariant forall j :: 0 <= j < i ==> hexkeys[j] in settings
    {
      var hexkey := hexkeys[i];
      if hexkey !in settings {
        SortedHex(keys, hexkey);
        return false;
      }
      entries := entries + [Entry(hexkey, scheme.commitTo(settings[hexkey].keys))];
    }
    forall i | 0 <= i < |keys| ensures Hex(keys[i]) in settings {
      SortedHex(keys, Hex(keys[i]));
    }
    assert entries == Recomputed(scheme, settings, hexkeys);
    var msg := Message(round, entries);
    for i := 0 to |keys|
      invariant forall j :: 0 <= j < i ==> scheme.verify(keys[j], msg, settings[Hex(keys[j])].signature)
    {
      if !scheme.verify(keys[i], msg, settings[Hex(keys[i])].signature) {
        return false;
      }
    }
    return true;
  }

  lemma SortedHex(keys: seq<Bytes>, k: Bytes)
    ensures k in Sort(HexKeys(keys)) <==> exists i :: 0 <= i < |keys| && Hex(keys[i]) == k
  {
    SortKeeps(HexKeys(keys));
    assert k in multiset(Sort(HexKeys(keys))) <==> k in multiset(HexKeys(keys));
    if i :| 0 <= i < |keys| && Hex(keys[i]) == k {
      assert HexKeys(keys)[i] == k;
    }
  }

  /* ---- agreement ---- */

  /**
   * The signature that the settings hold for a PKG is not forged: it verifies for no commitments message but those
   * the PKG signed.
   */
  ghost predicate Unforged(scheme: Scheme, pub: Bytes, signed: seq<(nat, Bytes)>, settings: RoundSettings) {
    Hex(pub) in settings ==>
      forall m :: scheme.verify(pub, m, settings[Hex(pub)].signature) && Label <= m ==>
          exists i :: 0 <= i < |signed| && signed[i].1 == m
  }

  /** Commitments do not collide on the keys that two clients hold. */
  ghost predicate Binding(scheme: Scheme, a: RoundSettings, b: RoundSettings) {
    forall j, k :: j in a && k in b && scheme.commitTo(a[j].keys) == scheme.commitTo(b[k].keys) ==>
        a[j].keys == b[k].keys
  }

  lemma RecomputedWide(scheme: Scheme, settings: RoundSettings, round: nat, keys: seq<Bytes>)
    requires scheme.Lawful() && round < TwoTo32 && Verified(scheme, settings, round, keys)
    requires forall i :: 0 <= i < |keys| ==> |keys[i]| * 2 == HexKeySize
    ensures Wide(Recomputed(scheme, settings, Sort(HexKeys(keys))))
  {
    var hexkeys := Sort(HexKeys(keys));
    var entries := Recomputed(scheme, settings, hexkeys);
    forall i | 0 <= i < |entries| ensures |entries[i].hexkey| == HexKeySize &&
        |entries[i].commitment| == CommitmentSize {
      SortedHex(keys, hexkeys[i]);
      assert hexkeys[i] in hexkeys && hexkeys[i] in settings;
      assert entries[i] == Entry(hexkeys[i], scheme.commitTo(settings[hexkeys[i]].keys));
    }
  }

  /** The message that a client checked is the one the honest server signed for the round. */
  lemma CheckedIsSigned(scheme: Scheme, pub: Bytes, signed: seq<(nat, Bytes)>, settings: RoundSettings, round: nat,
                        keys: seq<Bytes>)
    returns (i: nat)
    requires scheme.Lawful() && round < TwoTo32 && Unforged(scheme, pub, signed, settings) && pub in keys
    requires forall i :: 0 <= i < |signed| ==> IsMessage(signed[i].0, signed[i].1)
    requires forall i :: 0 <= i < |keys| ==> |keys[i]| * 2 == HexKeySize
    requires Verified(scheme, settings, round, keys)
    ensures i < |signed| && signed[i] == (round, Message(round, Recomputed(scheme, settings, Sort(HexKeys(keys)))))
  {
    var entries := Recomputed(scheme, settings, Sort(HexKeys(keys)));
    var m := Message(round, entries);
    RecomputedWide(scheme, settings, round, keys);
    var j :| 0 <= j < |keys| && keys[j] == pub;
    assert scheme.verify(pub, m, settings[Hex(pub)].signature);
    assert Label <= m;
    i :| 0 <= i < |signed| && signed[i].1 == m;
    var others :| Wide(others) && signed[i].1 == Message(signed[i].0, others);
    MessageInjective(round, entries, signed[i].0, others);
  }

  /**
   * Two clients that verify settings of one round, with an honest PKG in common that signed at most once
   * for it, hold the same set of PKGs and the same keys for each.
   */
  lemma ClientsAgree(scheme: Scheme, pub: Bytes, signed: seq<(nat, Bytes)>, round: nat,
                     a: RoundSettings, aKeys: seq<Bytes>, b: RoundSettings, bKeys: seq<Bytes>)
    requires scheme.Lawful() && round < TwoTo32 && OnePerRound(signed)
    requires Unforged(scheme, pub, signed, a) && Unforged(scheme, pub, signed, b) && Binding(scheme, a, b)
    requires forall i :: 0 <= i < |signed| ==> IsMessage(signed[i].0, signed[i].1)
    requires pub in aKeys && pub in bKeys
    requires forall k :: k in aKeys || k in bKeys ==> |k| * 2 == HexKeySize
    requires Verified(scheme, a, round, aKeys) && Verified(scheme, b, round, bKeys)
    ensures forall k :: k in aKeys <==> k in bKeys
    ensures forall k :: k in aKeys ==> Hex(k) in a && Hex(k) in b && a[Hex(k)].keys == b[Hex(k)].keys
  {
    var i := CheckedIsSigned(scheme, pub, signed, a, round, aKeys);
    var j := CheckedIsSigned(scheme, pub, signed, b, round, bKeys);
    assert i == j;
    RecomputedWide(scheme, a, round, aKeys);
    RecomputedWide(scheme, b, round, bKeys);
    var x, y := Sort(HexKeys(aKeys)), Sort(HexKeys(bKeys));
    MessageInjective(round, Recomputed(scheme, a, x), round, Recomputed(scheme, b, y));
    SameHexKeys(scheme, a, x, b, y);
    forall k | k in aKeys ensures k in bKeys && Hex(k) in a && Hex(k) in b && a[Hex(k)].keys == b[Hex(k)].keys {
      KeyInOther(aKeys, bKeys, k);
      SharedKey(scheme, a, b, x, aKeys, bKeys, k);
    }
    forall k | k in bKeys ensures k in aKeys {
      KeyInOther(bKeys, aKeys, k);
    }
  }

  /**
   * So it is for every honest PKG whose commits came in order: whatever else happened in its run, two
   * clients that verify settings of one round with it in common hold the same PKGs and the same keys.
   */
  lemma ClientsAgreeOverRun(scheme: Scheme, privateKey: Bytes, acts: seq<Act>, states: seq<PkgState>, round: nat,
                            a: RoundSettings, aKeys: seq<Bytes>, b: RoundSettings, bKeys: seq<Bytes>)
    requires scheme.Lawful() && round < TwoTo32 && IsRun(scheme, privateKey, acts, states) && CommitsInOrder(acts)
    requires var signed := states[|acts|].signed;
      Unforged(scheme, scheme.publicKey(privateKey), signed, a) &&
          Unforged(scheme, scheme.publicKey(privateKey), signed, b)
    requires Binding(scheme, a, b)
    requires scheme.publicKey(privateKey) in aKeys && scheme.publicKey(privateKey) in bKeys
    requires forall k :: k in aKeys || k in bKeys ==> |k| * 2 == HexKeySize
    requires Verified(scheme, a, round, aKeys) && Verified(scheme, b, round, bKeys)
    ensures forall k :: k in aKeys <==> k in bKeys
    ensures forall k :: k in aKeys ==> Hex(k) in a && Hex(k) in b && a[Hex(k)].keys == b[Hex(k)].keys
  {
    RunSignsOnce(scheme, privateKey, acts, states);
    ClientsAgree(scheme, scheme.publicKey(privateKey), states[|acts|].signed, round, a, aKeys, b, bKeys);
  }

  lemma SameHexKeys(scheme: Scheme, a: RoundSettings, x: seq<Bytes>, b: RoundSettings, y: seq<Bytes>)
    requires Recomputed(scheme, a, x) == Recomputed(scheme, b, y)
    ensures x == y
  {
    forall i | 0 <= i < |x| ensures x[i] == y[i] {
      assert Recomputed(scheme, a, x)[i] == Recomputed(scheme, b, y)[i];
    }
  }

  lemma KeyInOther(aKeys: seq<Bytes>, bKeys: seq<Bytes>, k: Bytes)
    requires k in aKeys && Sort(HexKeys(aKeys)) == Sort(HexKeys(bKeys))
    ensures k in bKeys && Hex(k) in Sort(HexKeys(aKeys))
  {
    SortedHex(aKeys, Hex(k));
    SortedHex(bKeys, Hex(k));
    var j :| 0 <= j < |bKeys| && Hex(bKeys[j]) == Hex(k);
    HexInjective(bKeys[j], k);
  }

  lemma SharedKey(scheme: Scheme, a: RoundSettings, b: RoundSettings, x: seq<Bytes>, aKeys: seq<Bytes>,
                  bKeys: seq<Bytes>, k: Bytes)
    requires Binding(scheme, a, b) && Recomputed(scheme, a, x) == Recomputed(scheme, b, x) && Hex(k) in x
    requires k in aKeys && k in bKeys
    requires (forall i :: 0 <= i < |aKeys| ==> Hex(aKeys[i]) in a) && forall i :: 0 <= i < |bKeys| ==>
      Hex(bKeys[i]) in b
    ensures Hex(k) in a && Hex(k) in b && a[Hex(k)].keys == b[Hex(k)].keys
  {
    var n :| 0 <= n < |x| && x[n] == Hex(k);
    assert Recomputed(scheme, a, x)[n] == Recomputed(scheme, b, x)[n];
  }

  /** Settings whose reveals sign the very commitments that they open, for distinct keys, verify. */
  lemma HonestSettingsVerify(scheme: Scheme, commitments: map<Bytes, Bytes>, entries: seq<Entry>,
                             settings: RoundSettings, round: nat, keys: seq<Bytes>)
    requires scheme.Lawful() && round < TwoTo32 && EntriesFor(commitments, entries)
    requires forall i, j :: 0 <= i < j < |keys| ==> keys[i] != keys[j]
    requires forall k :: k in commitments <==> exists i :: 0 <= i < |keys| && Hex(keys[i]) == k
    requires forall i :: 0 <= i < |keys| ==>
      && Hex(keys[i]) in settings && commitments[Hex(keys[i])] == scheme.commitTo(settings[Hex(keys[i])].keys)
      && scheme.verify(keys[i], Message(round, entries), settings[Hex(keys[i])].signature)
    ensures Verified(scheme, settings, round, keys)
  {
    var hexkeys := HexKeys(keys);
    forall i, j | 0 <= i < j < |keys| ensures hexkeys[i] != hexkeys[j] {
      if Hex(keys[i]) == Hex(keys[j]) {
        HexInjective(keys[i], keys[j]);
      }
    }
    SortAscending(hexkeys);
    HonestEntries(scheme, commitments, settings, keys);
    EntriesUnique(commitments, entries, Recomputed(scheme, settings, Sort(hexkeys)));
  }

  lemma HonestEntries(scheme: Scheme, commitments: map<Bytes, Bytes>, settings: RoundSettings, keys: seq<Bytes>)
    requires Ascending(Sort(HexKeys(keys)))
    requires forall k :: k in commitments <==> exists i :: 0 <= i < |keys| && Hex(keys[i]) == k
    requires forall i :: 0 <= i < |keys| ==>
      Hex(keys[i]) in settings && commitments[Hex(keys[i])] == scheme.commitTo(settings[Hex(keys[i])].keys)
    ensures EntriesFor(commitments, Recomputed(scheme, settings, Sort(HexKeys(keys))))
  {
    var sorted := Sort(HexKeys(keys));
    var recomputed := Recomputed(scheme, settings, sorted);
    assert Keys(recomputed) == sorted;
    forall k ensures k in sorted <==> k in commitments {
      SortedHex(keys, k);
    }
    forall i | 0 <= i < |recomputed|
        ensures recomputed[i].hexkey in commitments && recomputed[i].commitment == commitments[recomputed[i].hexkey] {
      SortedHex(keys, sorted[i]);
    }
  }

  /** Committing to round 0 keeps no round but the last there is. */
  lemma RoundZeroIsDropped(rounds: Rounds, keys: RoundKeys)
    requires forall r :: r in rounds ==> r < TwoTo32 - 1
    ensures AfterCommit(rounds, 0, keys) == map[]
  {
  }
}
