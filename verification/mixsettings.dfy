/** The mixer's rounds before mixing: fresh onion keys, and settings that are signed once per round. */
module MixSettings {
  import opened Base

  const KeySize: nat := 32

  datatype Settings = Settings(service: string, round: nat, onionKeys: seq<Bytes>, serviceData: Bytes)

  /**
   * A round that a mixer has opened: its chain length and place, its onion key, and its signature once settings are
   * set.
   */
  datatype Round = Round(chain: nat, myPos: nat, onionKey: Bytes, signature: Option<Bytes>)

  type Rounds = map<(string, nat), Round>

  /** What the mixer is set up with: its key, its services, their parsers and Ed25519 signing of settings. */
  datatype Setup = Setup(publicKey: Bytes, services: set<string>, parses: (string, Bytes) -> bool,
                         sign: Settings -> Bytes)

  datatype MixError = UnknownService | BadChainKey | NotInChain | BadKeySize | RoundNotFound | BadServiceData
    | BadKeyCount | BadOwnKey

  /** The mixer's place in the chain is the last one with its key. */
  function MyPos(chain: seq<Bytes>, me: Bytes): (r: Option<nat>)
    ensures r.Some? ==> r.value < |chain| && chain[r.value] == me && forall i :: r.value < i < |chain| ==>
      chain[i] != me
    ensures r == None ==> me !in chain
  {
    if chain == [] then None
    else if chain[|chain| - 1] == me then Some(|chain| - 1)
    else MyPos(chain[..|chain| - 1], me)
  }

  /** The settings as received; a key that is longer than it should be is cut off. */
  function FromProto(s: Settings): Result<Settings, MixError> {
    if forall i :: 0 <= i < |s.onionKeys| ==> |s.onionKeys[i]| >= KeySize
    then Ok(s.(onionKeys := seq(|s.onionKeys|,
        i requires 0 <= i < |s.onionKeys| => if |s.onionKeys[i]| >= KeySize then s.onionKeys[i][..KeySize] else [])))
    else Err(BadKeySize)
  }

  /** Opening a round: one that is open keeps its key, a new one gets the key that was drawn. */
  function Opened(m: Setup, rounds: Rounds, service: string, round: nat, chain: seq<Bytes>,
                  drawn: Bytes): Result<Round, MixError> {
    if service !in m.services then Err(UnknownService)
    else if (service, round) in rounds then Ok(rounds[(service, round)])
    else if exists i :: 0 <= i < |chain| && |chain[i]| != KeySize then Err(BadChainKey)
    else match MyPos(chain, m.publicKey)
      case None => Err(NotInChain)
      case Some(pos) => Ok(Round(|chain|, pos, drawn, None))
  }

  /** What becomes of a round when settings for it are received, before they are signed or refused. */
  function Checked(m: Setup, rounds: Rounds, s: Settings): Result<Round, MixError> {
    if (s.service, s.round) !in rounds then Err(RoundNotFound)
    else
      var st := rounds[(s.service, s.round)];
      if !m.parses(s.service, s.serviceData) then Err(BadServiceData)
      else if st.signature.Some? then Ok(st)
      else if |s.onionKeys| != st.chain then Err(BadKeyCount)
      else if st.myPos >= |s.onionKeys| || s.onionKeys[st.myPos] != st.onionKey then Err(BadOwnKey)
      else Ok(st)
  }

  datatype Event =
    | NewRound(service: string, round: nat, chain: seq<Bytes>, drawn: Bytes)
    | SetSettings(settings: Settings)
    | DeleteRound(service: string, round: nat)

  /** Settings that were signed, with the mixer's place and key in them. */
  datatype Signed = Signed(settings: Settings, pos: nat, own: Bytes)

  /** The rounds that are open, the keys drawn for rounds so far, and the settings signed so far. */
  datatype State = State(rounds: Rounds, drawn: seq<Bytes>, signed: seq<Signed>)

  function Step(m: Setup, w: State, e: Event): State {
    match e
    case NewRound(service, round, chain, drawn) =>
      (match Opened(m, w.rounds, service, round, chain, drawn)
        case Err(_) => w
        case Ok(st) => if (service, round) in w.rounds then w
            else w.(rounds := w.rounds[(service, round) := st], drawn := w.drawn + [drawn]))
    case SetSettings(received) =>
      (match FromProto(received)
        case Err(_) => w
        case Ok(s) => (match Checked(m, w.rounds, s)
          case Err(_) => w
          case Ok(st) =>
            if st.signature.Some? then w
            else w.(rounds := w.rounds[(s.service, s.round) := st.(signature := Some(m.sign(s)))],
                signed := w.signed + [Signed(s, st.myPos, st.onionKey)])))
    case DeleteRound(service, round) => w.(rounds := w.rounds - {(service, round)})
  }

  function Run(m: Setup, w: State, events: seq<Event>): State {
    if events == [] then w else Step(m, Run(m, w, events[..|events| - 1]), events[|events| - 1])
  }

  /** The settings were signed for this open round. */
  predicate IsFor(x: Signed, key: (string, nat), st: Round) {
    (x.settings.service, x.settings.round) == key && x.own == st.onionKey
  }

  /** Open rounds have different keys, all of them drawn. */
  ghost predicate KeysDiffer(w: State) {
    && (forall k :: k in w.rounds ==> w.rounds[k].onionKey in w.drawn)
    && (forall k, l {:trigger w.rounds[k], w.rounds[l]} :: k in w.rounds && l in w.rounds && k != l ==>
        w.rounds[k].onionKey != w.rounds[l].onionKey)
  }

  ghost predicate SignedOnce(w: State) {
    forall i, j :: 0 <= i < j < |w.signed| ==> w.signed[i].own != w.signed[j].own
  }

  /** Settings signed for an open round's key are that round's, which has its signature. */
  ghost predicate SignedForRounds(w: State) {
    forall k, i {:trigger w.rounds[k], w.signed[i]} ::
      k in w.rounds && 0 <= i < |w.signed| && w.signed[i].own == w.rounds[k].onionKey ==>
        w.rounds[k].signature.Some? && IsFor(w.signed[i], k, w.rounds[k])
  }

  /** Each key belongs to one round at most, and was signed for at most once. */
  ghost predicate Inv(w: State) {
    && KeysDiffer(w) && SignedOnce(w) && SignedForRounds(w)
    && (forall i :: 0 <= i < |w.signed| ==> SignedOk(w, w.signed[i]))
  }

  /** The signed settings list the mixer's key at its place. */
  predicate SignedOk(w: State, x: Signed) {
    x.own in w.drawn && x.pos < |x.settings.onionKeys| && x.settings.onionKeys[x.pos] == x.own
  }

  lemma OpenKeeps(w: State, k: (string, nat), st: Round)
    requires Inv(w) && k !in w.rounds && st.onionKey !in w.drawn && st.signature == None
    ensures Inv(w.(rounds := w.rounds[k := st], drawn := w.drawn + [st.onionKey]))
  {
    var v := w.(rounds := w.rounds[k := st], drawn := w.drawn + [st.onionKey]);
    forall i | 0 <= i < |w.signed| ensures SignedOk(v, w.signed[i]) {
      assert SignedOk(w, w.signed[i]);
    }
  }

  lemma SignKeeps(w: State, k: (string, nat), sig: Bytes, s: Settings)
    requires Inv(w) && k in w.rounds && w.rounds[k].signature == None && (s.service, s.round) == k
    requires w.rounds[k].myPos < |s.onionKeys| && s.onionKeys[w.rounds[k].myPos] == w.rounds[k].onionKey
    ensures var st := w.rounds[k];
      Inv(w.(rounds := w.rounds[k := st.(signature := Some(sig))],
          signed := w.signed + [Signed(s, st.myPos, st.onionKey)]))
  {
    var st := w.rounds[k];
    var v := w.(rounds := w.rounds[k := st.(signature := Some(sig))],
        signed := w.signed + [Signed(s, st.myPos, st.onionKey)]);
    forall i | 0 <= i < |w.signed| ensures v.signed[i] == w.signed[i] && v.signed[i].own != st.onionKey {
      assert SignedForRounds(w);
    }
    SignedGrows(w, v);
    SignKeepsRounds(w, v, k);
    forall i | 0 <= i < |v.signed| ensures SignedOk(v, v.signed[i]) {
      assert i < |w.signed| ==> SignedOk(w, w.signed[i]);
    }
  }

  /** What is signed last is signed for its own round. */
  lemma SignKeepsRounds(w: State, v: State, k: (string, nat))
    requires KeysDiffer(w) && SignedForRounds(w) && k in w.rounds && v.drawn == w.drawn
    requires v.rounds.Keys == w.rounds.Keys && v.rounds[k].signature.Some?
    requires v.rounds[k].onionKey == w.rounds[k].onionKey
    requires forall l :: l in w.rounds && l != k ==> v.rounds[l] == w.rounds[l]
    requires |v.signed| == |w.signed| + 1 && IsFor(v.signed[|w.signed|], k, v.rounds[k])
    requires forall i :: 0 <= i < |w.signed| ==> v.signed[i] == w.signed[i] && v.signed[i].own != w.rounds[k].onionKey
    ensures KeysDiffer(v) && SignedForRounds(v)
  {
    forall l | l in v.rounds ensures v.rounds[l].onionKey == w.rounds[l].onionKey {
    }
    forall l, i | l in v.rounds && 0 <= i < |v.signed| && v.signed[i].own == v.rounds[l].onionKey
      ensures v.rounds[l].signature.Some? && IsFor(v.signed[i], l, v.rounds[l])
    {
      if i < |w.signed| {
        assert v.signed[i] == w.signed[i];
      }
    }
  }

  /**
   * With one more signed settings at the end, for a key that none of the others has, the keys are still all
   * different.
   */
  lemma SignedGrows(w: State, v: State)
    requires |v.signed| == |w.signed| + 1 && v.signed[..|w.signed|] == w.signed
    requires SignedOnce(w)
    requires forall i :: 0 <= i < |w.signed| ==> v.signed[i].own != v.signed[|w.signed|].own
    ensures SignedOnce(v)
  {
    forall i, j | 0 <= i < j < |v.signed| ensures v.signed[i].own != v.signed[j].own {
      assert v.signed[i] == w.signed[i];
      if j < |w.signed| {
        assert v.signed[j] == w.signed[j];
      }
    }
  }

  lemma StepKeeps(m: Setup, w: State, e: Event)
    requires Inv(w) && Distinct(Step(m, w, e).drawn)
    ensures Inv(Step(m, w, e))
  {
    match e
    case NewRound(service, round, chain, drawn) =>
      if (service, round) !in w.rounds && Opened(m, w.rounds, service, round, chain, drawn).Ok? {
        DrawnIsNew(w.drawn, drawn);
        OpenKeeps(w, (service, round), Opened(m, w.rounds, service, round, chain, drawn).value);
      }
    case SetSettings(received) =>
      if FromProto(received).Ok? {
        var s := FromProto(received).value;
        if Checked(m, w.rounds, s).Ok? && Checked(m, w.rounds, s).value.signature == None {
          SignKeeps(w, (s.service, s.round), m.sign(s), s);
        }
      }
    case DeleteRound(service, round) =>
      forall i | 0 <= i < |w.signed| ensures SignedOk(Step(m, w, e), w.signed[i]) {
        assert SignedOk(w, w.signed[i]);
      }
  }

  lemma DrawnIsNew(drawn: seq<Bytes>, key: Bytes)
    requires Distinct(drawn + [key])
    ensures key !in drawn
  {
    var more := drawn + [key];
    forall i | 0 <= i < |drawn| ensures drawn[i] != key {
      assert more[i] == drawn[i] && more[|drawn|] == key;
    }
  }

  lemma {:induction false} RunKeeps(m: Setup, events: seq<Event>)
    requires Distinct(Run(m, State(map[], [], []), events).drawn)
    ensures Inv(Run(m, State(map[], [], []), events))
  {
    if events != [] {
      var before := Run(m, State(map[], [], []), events[..|events| - 1]);
      DrawnGrows(m, before, events[|events| - 1]);
      RunKeeps(m, events[..|events| - 1]);
      StepKeeps(m, before, events[|events| - 1]);
    }
  }

  lemma DrawnGrows(m: Setup, w: State, e: Event)
    requires Distinct(Step(m, w, e).drawn)
    ensures Distinct(w.drawn)
  {
    var v := Step(m, w, e);
    forall i, j | 0 <= i < j < |w.drawn| ensures w.drawn[i] != w.drawn[j] {
      assert v.drawn[i] == w.drawn[i] && v.drawn[j] == w.drawn[j];
    }
  }

  /** Over every run in which onion keys are not drawn twice, settings signed for one own key are the same settings. */
  lemma SettingsAgree(m: Setup, events: seq<Event>, i: nat, j: nat)
    requires Distinct(Run(m, State(map[], [], []), events).drawn)
    requires var signed := Run(m, State(map[], [], []), events).signed;
      i < |signed| && j < |signed| && signed[i].own == signed[j].own
    ensures i == j
    ensures var x := Run(m, State(map[], [], []), events).signed[i];
      x.pos < |x.settings.onionKeys| && x.settings.onionKeys[x.pos] == x.own
  {
    RunKeeps(m, events);
    var w := Run(m, State(map[], [], []), events);
    assert SignedOk(w, w.signed[i]);
  }

  /** Two signed settings that have the same key at the same place, the mixer's place in both, are the same. */
  lemma SamePlaceSameSettings(m: Setup, events: seq<Event>, i: nat, j: nat)
    requires Distinct(Run(m, State(map[], [], []), events).drawn)
    requires var signed := Run(m, State(map[], [], []), events).signed;
      && i < |signed| && j < |signed| && signed[i].pos == signed[j].pos
      && signed[i].pos < |signed[i].settings.onionKeys| && signed[j].pos < |signed[j].settings.onionKeys|
      && signed[i].settings.onionKeys[signed[i].pos] == signed[j].settings.onionKeys[signed[j].pos]
    ensures Run(m, State(map[], [], []), events).signed[i].settings ==
      Run(m, State(map[], [], []), events).signed[j].settings
  {
    RunKeeps(m, events);
    var w := Run(m, State(map[], [], []), events);
    assert SignedOk(w, w.signed[i]) && SignedOk(w, w.signed[j]);
    SettingsAgree(m, events, i, j);
  }

  /* ---- the server ---- */

  class Server {
    const m: Setup
    var rounds: map<(string, nat), Round>
    ghost var drawn: seq<Bytes>
    ghost var signed: seq<Signed>

    ghost function St(): State
      reads this
    {
      State(rounds, drawn, signed)
    }

    constructor (m: Setup)
      ensures this.m == m && St() == State(map[], [], [])
    {
      this.m, rounds, drawn, signed := m, map[], [], [];
    }

    method OpenRound(service: string, round: nat, chain: seq<Bytes>, key: Bytes) returns (r: Result<Bytes, MixError>)
      modifies this
      ensures St() == Step(m, old(St()), NewRound(service, round, chain, key))
      ensures r == match Opened(m, old(rounds), service, round, chain, key) case Err(e) => Err(e) case Ok(st) =>
        Ok(st.onionKey)
    {
      if service !in m.services {
        return Err(UnknownService);
      }
      if (service, round) in rounds {
        return Ok(rounds[(service, round)].onionKey);
      }
      var myPos := None;
      for i := 0 to |chain|
        invariant forall j :: 0 <= j < i ==> |chain[j]| == KeySize
        invariant myPos == MyPos(chain[..i], m.publicKey)
      {
        if |chain[i]| != KeySize {
          return Err(BadChainKey);
        }
        if chain[i] == m.publicKey {
          myPos := Some(i);
        }
        assert chain[..i + 1][..i] == chain[..i];
      }
      assert chain[..|chain|] == chain;
      if myPos == None {
        return Err(NotInChain);
      }
      rounds := rounds[(service, round) := Round(|chain|, myPos.value, key, None)];
      drawn := drawn + [key];
      return Ok(key);
    }

    method SetRoundSettings(received: Settings) returns (r: Result<Bytes, MixError>)
      modifies this
      ensures St() == Step(m, old(St()), SetSettings(received))
      ensures r == match FromProto(received)
        case Err(e) => Err(e)
        case Ok(s) => match Checked(m, old(rounds), s)
          case Err(e) => Err(e)
          case Ok(st) => Ok(if st.signature.Some? then st.signature.value else m.sign(s))
    {
      var proto := FromProto(received);
      if proto.Err? {
        return Err(proto.error);
      }
      var s := proto.value;
      if (s.service, s.round) !in rounds {
        return Err(RoundNotFound);
      }
      var st := rounds[(s.service, s.round)];
      if !m.parses(s.service, s.serviceData) {
        return Err(BadServiceData);
      }
      if st.signature.Some? {
        return Ok(st.signature.value);
      }
      if |s.onionKeys| != st.chain {
        return Err(BadKeyCount);
      }
      if st.myPos >= |s.onionKeys| || s.onionKeys[st.myPos] != st.onionKey {
        return Err(BadOwnKey);
      }
      rounds := rounds[(s.service, s.round) := st.(signature := Some(m.sign(s)))];
      signed := signed + [Signed(s, st.myPos, st.onionKey)];
      return Ok(m.sign(s));
    }

    method DeleteRound(service: string, round: nat) returns (ok: bool)
      modifies this
      ensures ok == ((service, round) in old(rounds)) && St() == Step(m, old(St()), Event.DeleteRound(service, round))
    {
      ok := (service, round) in rounds;
      if !ok {
        assert rounds - {(service, round)} == rounds;
        return;
      }
      rounds := rounds - {(service, round)};
    }
  }
}
