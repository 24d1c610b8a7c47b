/** The config server: its store of configs, the walk that answers chain requests, and what clients make of it. */
module ConfigServer {
  import opened Base
  import opened ConfigChain

  type Store = map<string, Signed>

  /* ---- the walk back through any store ---- */

  datatype ChainReply = Chain(configs: seq<Signed>) | BadRequest | Panics(missing: string)

  /** The walk is over at a config whose previous hash is the one the client has, or empty. */
  predicate EndsAt(c: Content, have: string) {
    c.prevHash == have || c.prevHash == ""
  }

  /**
   * The reply of a walk from the config stored under h that takes at most n steps back; none when it is
   * still going then. The walk panics at a previous hash that is not stored.
   */
  function Reply(all: Store, h: string, have: string, n: nat): Option<ChainReply>
    requires h in all
    decreases n
  {
    var prev := all[h].content.prevHash;
    if EndsAt(all[h].content, have) then Some(Chain([all[h]]))
    else if prev !in all then Some(Panics(prev))
    else if n == 0 then None
    else match Reply(all, prev, have, n - 1)
      case Some(Chain(configs)) => Some(Chain([all[h]] + configs))
      case other => other
  }

  /** A walk that has come to its end is the same with more steps allowed. */
  lemma {:induction false} ReplyStays(all: Store, h: string, have: string, n: nat, m: nat)
    requires h in all && n <= m && Reply(all, h, have, n).Some?
    ensures Reply(all, h, have, m) == Reply(all, h, have, n)
    decreases n
  {
    if !EndsAt(all[h].content, have) && all[h].content.prevHash in all {
      ReplyStays(all, all[h].content.prevHash, have, n - 1, m - 1);
    }
  }

  /** The request for the chain from want back to have gets a chain. */
  ghost predicate Answered(all: Store, want: string, have: string)
    requires want in all
  {
    exists n: nat :: Reply(all, want, have, n).Some? && Reply(all, want, have, n).value.Chain?
  }

  /** Every chain request for a stored config gets a chain: no walk panics, and none goes on for ever. */
  ghost predicate Walkable(all: Store) {
    forall want, have :: want in all && have != "" ==> Answered(all, want, have)
  }

  /** Every stored config is valid and kept under its hash. */
  ghost predicate Keyed(s: Scheme, all: Store) {
    s.Lawful() && forall h :: h in all ==> s.Hash(all[h].content) == h && s.Validate(all[h].content)
  }

  lemma KeptContent(s: Scheme, all: Store, next: Signed, k: string)
    requires Keyed(s, all) && k in all
    ensures all[s.Hash(next.content) := next][k].content == all[k].content
  {
    if k == s.Hash(next.content) {
      s.HashInjective(all[k].content, next.content);
    }
  }

  lemma AddKeyed(s: Scheme, all: Store, next: Signed)
    requires Keyed(s, all) && s.Validate(next.content)
    ensures Keyed(s, all[s.Hash(next.content) := next])
  {
  }

  /** Adding a config changes no walk that was answered, but for the signatures of a config that is replaced. */
  lemma {:induction false} AnsweredStays(s: Scheme, all: Store, next: Signed, h: string, have: string, n: nat)
    requires Keyed(s, all) && h in all && Reply(all, h, have, n).Some? && Reply(all, h, have, n).value.Chain?
    ensures var r := Reply(all[s.Hash(next.content) := next], h, have, n); r.Some? && r.value.Chain?
    decreases n
  {
    KeptContent(s, all, next, h);
    if !EndsAt(all[h].content, have) {
      AnsweredStays(s, all, next, all[h].content.prevHash, have, n - 1);
    }
  }

  /** A config whose previous hash is its own, which is not stored otherwise, is walked round for ever. */
  lemma {:induction false} OwnPredecessorIsEndless(all: Store, h: string, have: string, n: nat)
    requires h in all && all[h].content.prevHash == h && !EndsAt(all[h].content, have)
    ensures Reply(all, h, have, n) == None
  {
    if n > 0 {
      OwnPredecessorIsEndless(all, h, have, n - 1);
    }
  }

  /** The config is a root, or its previous hash is stored. */
  predicate Hangs(all: Store, next: Content) {
    next.prevHash == "" || next.prevHash in all
  }

  lemma HangingAnswered(s: Scheme, all: Store, next: Signed, have: string)
    requires Keyed(s, all) && Walkable(all) && Hangs(all, next.content) && have != ""
    ensures Answered(all[s.Hash(next.content) := next], s.Hash(next.content), have)
  {
    var h, prev := s.Hash(next.content), next.content.prevHash;
    var after := all[h := next];
    if EndsAt(next.content, have) {
      assert Reply(after, h, have, 0) == Some(Chain([next]));
    } else {
      assert Answered(all, prev, have);
      var n: nat :| Reply(all, prev, have, n).Some? && Reply(all, prev, have, n).value.Chain?;
      AnsweredStays(s, all, next, prev, have, n);
      assert Reply(after, h, have, n + 1).Some? && Reply(after, h, have, n + 1).value.Chain?;
    }
  }

  /**
   * A config that hangs on nothing stored: the walk from it panics at once, or goes round for ever when it names
   * itself.
   */
  lemma DanglingReply(all: Store, h: string, next: Signed, have: string, n: nat)
    requires !Hangs(all, next.content) && have != next.content.prevHash
    ensures Reply(all[h := next], h, have, n) == if next.content.prevHash == h then None
      else Some(Panics(next.content.prevHash))
  {
    if next.content.prevHash == h {
      OwnPredecessorIsEndless(all[h := next], h, have, n);
    }
  }

  lemma DanglingUnanswered(all: Store, h: string, next: Signed)
    requires !Hangs(all, next.content)
    ensures !Walkable(all[h := next])
  {
    var after, prev := all[h := next], next.content.prevHash;
    var have := prev + "x";
    assert have != prev && have != "" by {
      assert |have| == |prev| + 1;
    }
    if Walkable(after) {
      assert Answered(after, h, have);
      var n: nat :| Reply(after, h, have, n).Some? && Reply(after, h, have, n).value.Chain?;
      DanglingReply(all, h, next, have, n);
      assert false;
    }
  }

  /**
   * Adding a config to a store that answers every request keeps it so exactly when the config is a root or its
   * previous hash is stored.
   */
  lemma WalkableIff(s: Scheme, all: Store, next: Signed)
    requires Keyed(s, all) && Walkable(all)
    ensures Walkable(all[s.Hash(next.content) := next]) <==> Hangs(all, next.content)
  {
    var h := s.Hash(next.content);
    var after := all[h := next];
    if Hangs(all, next.content) {
      forall want, have | want in after && have != "" ensures Answered(after, want, have) {
        if want == h {
          HangingAnswered(s, all, next, have);
        } else {
          assert Answered(all, want, have);
          var n: nat :| Reply(all, want, have, n).Some? && Reply(all, want, have, n).value.Chain?;
          AnsweredStays(s, all, next, want, have, n);
        }
      }
    } else {
      DanglingUnanswered(all, h, next);
    }
  }

  /** The first config of a service, installed by hand with a previous hash that is not stored. */
  const Dangling: Signed := Signed(Content(2, "Dialing", 0, 9, "lost", Some([]), [], 2), map[])

  /** With it the request for the chain back to any other config panics, in every scheme that takes its inner config. */
  lemma DanglingPanics(s: Scheme, have: string, n: nat)
    requires s.Lawful() && s.innerValid([]) && s.Hash(Dangling.content) != "lost" && have != "lost"
    ensures s.Validate(Dangling.content)
    ensures Reply(map[][s.Hash(Dangling.content) := Dangling], s.Hash(Dangling.content), have, n) ==
      Some(Panics("lost"))
  {
    DanglingReply(map[], s.Hash(Dangling.content), Dangling, have, n);
  }

  /* ---- stores in which every config follows the one before ---- */

  /** Every stored config is kept under its hash, and follows from a stored one unless it is a root. */
  ghost predicate Closed(s: Scheme, all: Store) {
    s.Lawful() && forall h {:trigger Stored(s, all, h)} :: h in all ==> Stored(s, all, h)
  }

  ghost predicate Stored(s: Scheme, all: Store, h: string)
    requires h in all
  {
    var c := all[h].content;
    && s.Hash(c) == h && s.Validate(c)
    && (c.prevHash != "" ==> c.prevHash in all && Follows(s, all[h], all[c.prevHash].content))
  }

  ghost predicate Follows(s: Scheme, next: Signed, prev: Content) {
    s.Link(next, prev) && prev.created < next.content.created && prev.service == next.content.service
  }

  /** The configs older than a time: the walk only goes back through them. */
  ghost function Older(all: Store, t: int): set<string> {
    set h | h in all && all[h].content.created < t
  }

  /** The configs from h back to the one after have, or to a root. */
  ghost function Walk(s: Scheme, all: Store, h: string, have: string): (r: seq<Signed>)
    requires Closed(s, all) && h in all
    ensures r != [] && r[0] == all[h]
    decreases Older(all, all[h].content.created)
  {
    var prev := all[h].content.prevHash;
    assert Stored(s, all, h);
    if prev == have || prev == "" then [all[h]]
    else
      OlderShrinks(s, all, h);
      [all[h]] + Walk(s, all, prev, have)
  }

  lemma OlderShrinks(s: Scheme, all: Store, h: string)
    requires Closed(s, all) && h in all && all[h].content.prevHash != ""
    ensures all[h].content.prevHash in all
    ensures Older(all, all[all[h].content.prevHash].content.created) < Older(all, all[h].content.created)
  {
    assert Stored(s, all, h);
    var prev := all[h].content.prevHash;
    assert prev in Older(all, all[h].content.created) && prev !in Older(all, all[prev].content.created);
  }

  /** Following previous hashes from h leads to the config with hash have. */
  ghost predicate Ancestor(s: Scheme, all: Store, have: string, h: string)
    requires Closed(s, all) && h in all
    decreases Older(all, all[h].content.created)
  {
    var prev := all[h].content.prevHash;
    assert Stored(s, all, h);
    prev != "" && (prev == have || (OlderShrinks(s, all, h); Ancestor(s, all, have, prev)))
  }

  lemma ContentAt(s: Scheme, all: Store, h: string, c: Content)
    requires Closed(s, all) && h in all
    ensures s.Hash(c) == h <==> all[h].content == c
  {
    assert Stored(s, all, h);
  }

  /** The config is a root, or follows a stored one. */
  ghost predicate Rooted(s: Scheme, all: Store, next: Signed) {
    var p := next.content.prevHash;
    p != "" ==> p in all && Follows(s, next, all[p].content)
  }

  /** Replacing or adding a config that fits keeps the store closed. */
  lemma StoreAdd(s: Scheme, all: Store, next: Signed)
    requires Closed(s, all) && s.Validate(next.content) && Rooted(s, all, next)
    ensures Closed(s, all[s.Hash(next.content) := next])
  {
    var h := s.Hash(next.content);
    var after := all[h := next];
    forall k | k in all ensures after[k].content == all[k].content {
      if k == h {
        ContentAt(s, all, h, next.content);
      }
    }
    forall k | k in after ensures Stored(s, after, k) {
      if k != h {
        assert Stored(s, all, k);
      }
    }
  }

  lemma StoreAddIff(s: Scheme, all: Store, next: Signed)
    requires Closed(s, all) && s.Validate(next.content)
    ensures Closed(s, all[s.Hash(next.content) := next]) <==> Rooted(s, all, next)
  {
    var h := s.Hash(next.content);
    var after := all[h := next];
    if Rooted(s, all, next) {
      StoreAdd(s, all, next);
    }
    if Closed(s, after) {
      assert Stored(s, after, h);
    }
  }

  /** In such a store every walk ends, without a panic, and takes no more steps than there are configs. */
  lemma {:induction false} ClosedAnswers(s: Scheme, all: Store, h: string, have: string)
    requires Closed(s, all) && h in all
    ensures Reply(all, h, have, |Older(all, all[h].content.created)|) == Some(Chain(Walk(s, all, h, have)))
    decreases Older(all, all[h].content.created)
  {
    var prev := all[h].content.prevHash;
    assert Stored(s, all, h);
    if !EndsAt(all[h].content, have) {
      OlderShrinks(s, all, h);
      ClosedAnswers(s, all, prev, have);
      var a, b := Older(all, all[prev].content.created), Older(all, all[h].content.created);
      SmallerSet(a, b);
      ReplyStays(all, prev, have, |a|, |b| - 1);
      ReplyGoesOn(s, all, h, have, |b|);
    }
  }

  lemma ReplyGoesOn(s: Scheme, all: Store, h: string, have: string, n: nat)
    requires Closed(s, all) && h in all && n > 0 && !EndsAt(all[h].content, have)
    requires var prev := all[h].content.prevHash;
      prev in all && Reply(all, prev, have, n - 1) == Some(Chain(Walk(s, all, prev, have)))
    ensures Reply(all, h, have, n) == Some(Chain(Walk(s, all, h, have)))
  {
    OlderShrinks(s, all, h);
  }

  lemma SmallerSet(a: set<string>, b: set<string>)
    requires a < b
    ensures |a| < |b|
  {
    var x :| x in b && x !in a;
    assert |b| == |b - a| + |a|;
    assert x in b - a;
  }

  lemma ClosedWalkable(s: Scheme, all: Store)
    requires Closed(s, all)
    ensures Keyed(s, all) && Walkable(all)
  {
    forall h | h in all ensures s.Hash(all[h].content) == h && s.Validate(all[h].content) {
      assert Stored(s, all, h);
    }
    forall want, have | want in all && have != "" ensures Answered(all, want, have) {
      ClosedAnswers(s, all, want, have);
    }
  }

  /** The configs so far, and the walk from at, make the whole walk. */
  ghost predicate WalkedTo(all: Store, want: string, have: string, at: string, configs: seq<Signed>, n: nat, m: nat)
    requires want in all && at in all
  {
    && m <= n && Reply(all, at, have, m).Some? && Reply(all, want, have, n).Some?
    && match Reply(all, at, have, m).value
       case Chain(more) => Reply(all, want, have, n).value == Chain(configs + more[1..]) && more != [] &&
           more[0] == all[at]
       case other => Reply(all, want, have, n).value == other
  }

  lemma WalkedOn(all: Store, want: string, have: string, at: string, configs: seq<Signed>, n: nat, m: nat)
    requires want in all && at in all && WalkedTo(all, want, have, at, configs, n, m)
    requires !EndsAt(all[at].content, have) && all[at].content.prevHash in all
    ensures var prev := all[at].content.prevHash;
      m > 0 && WalkedTo(all, want, have, prev, configs + [all[prev]], n, m - 1)
  {
    var prev := all[at].content.prevHash;
    match Reply(all, prev, have, m - 1).value
    case Chain(more) =>
      assert more != [] && more[0] == all[prev];
      assert ([all[at]] + more)[1..] == more;
      assert configs + more == configs + [all[prev]] + more[1..];
    case _ =>
  }

  /** The walk's loop. It ends when the walk does; n bounds its steps. */
  method WalkBack(all: Store, want: string, have: string, ghost n: nat) returns (r: ChainReply)
    requires want in all && Reply(all, want, have, n).Some?
    ensures r == Reply(all, want, have, n).value
  {
    var configs := [all[want]];
    var prevHash := all[want].content.prevHash;
    ghost var at, m := want, n;
    assert WalkedTo(all, want, have, want, configs, n, n) by {
      match Reply(all, want, have, n).value
      case Chain(more) => assert configs + more[1..] == more;
      case _ =>
    }
    while prevHash != have && prevHash != ""
      invariant at in all && all[at].content.prevHash == prevHash && WalkedTo(all, want, have, at, configs, n, m)
      decreases m
    {
      if prevHash !in all {
        return Panics(prevHash);
      }
      WalkedOn(all, want, have, at, configs, n, m);
      var prevConfig := all[prevHash];
      configs := configs + [prevConfig];
      at, m := prevHash, m - 1;
      prevHash := prevConfig.content.prevHash;
    }
    assert configs + [all[at]][1..] == configs;
    return Chain(configs);
  }

  /* ---- whole runs of a server ---- */

  /** The stored configs, and for every service the hash of its current one. */
  datatype ServerState = ServerState(all: Store, current: map<string, string>)

  /** A config installed by hand, or sent as the next one of its service. */
  datatype Change = Install(config: Signed) | Next(config: Signed)

  /** Every config is stored under its hash; every current config is stored, and is of the service it is current for. */
  ghost predicate ValidState(s: Scheme, st: ServerState) {
    && Keyed(s, st.all)
    && forall service :: service in st.current ==> CurrentFits(st, service)
  }

  predicate CurrentFits(st: ServerState, service: string)
    requires service in st.current
  {
    st.current[service] in st.all && st.all[st.current[service]].content.service == service
  }

  /** A valid config that names its service's current config and follows it. */
  ghost predicate IsNext(s: Scheme, st: ServerState, config: Signed) {
    var c := config.content;
    && s.Validate(c) && c.service in st.current && c.prevHash == st.current[c.service]
    && c.prevHash in st.all && Follows(s, config, st.all[c.prevHash].content)
  }

  function Made(s: Scheme, st: ServerState, config: Signed): ServerState {
    var h := s.Hash(config.content);
    ServerState(st.all[h := config], st.current[config.content.service := h])
  }

  ghost function Changed(s: Scheme, st: ServerState, change: Change): ServerState {
    match change
    case Install(config) => if s.Validate(config.content) then Made(s, st, config) else st
    case Next(config) => if IsNext(s, st, config) then Made(s, st, config) else st
  }

  ghost function AfterChanges(s: Scheme, changes: seq<Change>): ServerState {
    if changes == [] then ServerState(map[], map[])
    else Changed(s, AfterChanges(s, changes[..|changes| - 1]), changes[|changes| - 1])
  }

  lemma MadeIsValid(s: Scheme, st: ServerState, config: Signed)
    requires ValidState(s, st) && s.Validate(config.content)
    ensures ValidState(s, Made(s, st, config))
  {
    var t := Made(s, st, config);
    AddKeyed(s, st.all, config);
    forall service | service in t.current ensures CurrentFits(t, service) {
      if service != config.content.service {
        assert CurrentFits(st, service);
        KeptContent(s, st.all, config, st.current[service]);
      }
    }
  }

  lemma ChangedIsValid(s: Scheme, st: ServerState, change: Change)
    requires ValidState(s, st)
    ensures ValidState(s, Changed(s, st, change))
  {
    if s.Validate(change.config.content) {
      MadeIsValid(s, st, change.config);
    }
  }

  /** What is installed by hand is a root. */
  predicate InstallsRoots(changes: seq<Change>) {
    forall k :: 0 <= k < |changes| && changes[k].Install? ==> changes[k].config.content.prevHash == ""
  }

  /** Over every run in which only roots are installed by hand, every config follows the one before. */
  lemma {:induction false} RunCloses(s: Scheme, changes: seq<Change>)
    requires s.Lawful() && InstallsRoots(changes)
    ensures ValidState(s, AfterChanges(s, changes)) && Closed(s, AfterChanges(s, changes).all)
  {
    if changes != [] {
      var before, change := changes[..|changes| - 1], changes[|changes| - 1];
      RunCloses(s, before);
      var st := AfterChanges(s, before);
      ChangedIsValid(s, st, change);
      if Changed(s, st, change) != st {
        StoreAdd(s, st.all, change.config);
      }
    }
  }

  /** What is installed by hand hangs on what is stored then. */
  ghost predicate InstallsHang(s: Scheme, changes: seq<Change>) {
    forall k :: 0 <= k < |changes| && changes[k].Install? ==>
      Hangs(AfterChanges(s, changes[..k]).all, changes[k].config.content)
  }

  /**
   * Over every run in which what is installed by hand is a root or names a stored config, every chain request is
   * answered.
   */
  lemma {:induction false} RunAnswers(s: Scheme, changes: seq<Change>)
    requires s.Lawful() && InstallsHang(s, changes)
    ensures ValidState(s, AfterChanges(s, changes)) && Walkable(AfterChanges(s, changes).all)
  {
    if changes != [] {
      var before, change := changes[..|changes| - 1], changes[|changes| - 1];
      forall k | 0 <= k < |before| && before[k].Install?
        ensures Hangs(AfterChanges(s, before[..k]).all, before[k].config.content)
      {
        assert before[..k] == changes[..k] && changes[k] == before[k];
      }
      RunAnswers(s, before);
      var st := AfterChanges(s, before);
      ChangedIsValid(s, st, change);
      if Changed(s, st, change) != st {
        WalkableIff(s, st.all, change.config);
      }
    }
  }

  /**
   * Chain completeness over every run in which only roots are installed by hand: the walk for a stored
   * config ends with a chain, and a client accepts it exactly when the config it has is a proper ancestor
   * of the one it wants, and that has not expired.
   */
  lemma ChainCompleteOverRun(s: Scheme, changes: seq<Change>, have: Signed, want: string, now: int) returns (n: nat)
    requires s.Lawful() && InstallsRoots(changes) && want in AfterChanges(s, changes).all
    ensures var all, hv := AfterChanges(s, changes).all, s.Hash(have.content);
      && Closed(s, all) && Reply(all, want, hv, n) == Some(Chain(Walk(s, all, want, hv)))
      && (s.Accepts(have, want, Walk(s, all, want, hv), now) <==>
            Ancestor(s, all, hv, want) && now <= all[want].content.expires)
  {
    var all := AfterChanges(s, changes).all;
    RunCloses(s, changes);
    n := |Older(all, all[want].content.created)|;
    ClosedAnswers(s, all, want, s.Hash(have.content));
    ChainAcceptedIff(s, all, have, want, now);
  }

  lemma OneLink(s: Scheme, next: Signed, prev: Signed)
    ensures s.Linked([next, prev]) <==> s.Link(next, prev.content)
  {
    assert s.Linked([next, prev]) <==> s.Link([next, prev][0], [next, prev][1].content);
  }

  class Server {
    const scheme: Scheme
    var allConfigs: map<string, Signed>
    var currentConfig: map<string, string>

    function St(): ServerState
      reads this
    {
      ServerState(allConfigs, currentConfig)
    }

    ghost predicate Valid()
      reads this
    {
      ValidState(scheme, St())
    }

    constructor (scheme: Scheme)
      requires scheme.Lawful()
      ensures Valid() && this.scheme == scheme && allConfigs == map[] && currentConfig == map[]
      ensures Closed(scheme, allConfigs) && Walkable(allConfigs)
    {
      this.scheme, allConfigs, currentConfig := scheme, map[], map[];
    }

    /**
     * Installs a config by hand, with no check of where it comes from. Every chain request is still
     * answered exactly when it is a root or its previous hash is stored; and every config still follows
     * the one before exactly when it is a root or follows a stored config.
     */
    method SetCurrentConfig(config: Signed) returns (ok: bool)
      requires Valid()
      modifies this
      ensures Valid() && ok == scheme.Validate(config.content) && St() == Changed(scheme, old(St()), Install(config))
      ensures Walkable(old(allConfigs)) ==> (Walkable(allConfigs) <==> !ok || Hangs(old(allConfigs), config.content))
      ensures Closed(scheme, old(allConfigs)) ==>
        (Closed(scheme, allConfigs) <==> !ok || Rooted(scheme, old(allConfigs), config))
    {
      ok := scheme.Validate(config.content);
      if ok {
        ghost var all := allConfigs;
        MakeCurrent(config);
        if Walkable(all) {
          WalkableIff(scheme, all, config);
        }
        if Closed(scheme, all) {
          StoreAddIff(scheme, all, config);
        }
      }
    }

    /** Stores a config and makes it the current one of its service. */
    method MakeCurrent(config: Signed)
      requires Valid() && scheme.Validate(config.content)
      modifies this
      ensures Valid() && St() == Made(scheme, old(St()), config)
    {
      MadeIsValid(scheme, St(), config);
      var hash := scheme.Hash(config.content);
      currentConfig := currentConfig[config.content.service := hash];
      allConfigs := allConfigs[hash := config];
    }

    /** The next config of a service replaces the current one exactly when it is valid and follows it. */
    method NewConfig(nextConfig: Signed) returns (ok: bool)
      requires Valid()
      modifies this
      ensures Valid() && ok == IsNext(scheme, old(St()), nextConfig)
      ensures St() == Changed(scheme, old(St()), Next(nextConfig))
      ensures Walkable(old(allConfigs)) ==> Walkable(allConfigs)
      ensures Closed(scheme, old(allConfigs)) ==> Closed(scheme, allConfigs)
    {
      if !scheme.Validate(nextConfig.content) {
        return false;
      }
      var service := nextConfig.content.service;
      if service !in currentConfig {
        return false;
      }
      assert CurrentFits(St(), service);
      var prevHash := currentConfig[service];
      if nextConfig.content.prevHash != prevHash {
        return false;
      }
      var prevConfig := allConfigs[prevHash];
      if !(nextConfig.content.created > prevConfig.content.created) {
        return false;
      }
      ok := VerifyConfigChain(scheme, [nextConfig, prevConfig]);
      OneLink(scheme, nextConfig, prevConfig);
      if ok {
        ghost var all := allConfigs;
        MakeCurrent(nextConfig);
        if Walkable(all) {
          WalkableIff(scheme, all, nextConfig);
        }
        if Closed(scheme, all) {
          StoreAdd(scheme, all, nextConfig);
        }
      }
    }

    /**
     * The chain walk over the store as it is. It is a walk that ends, after at most n steps: with a chain, or in a
     * panic.
     */
    method GetChain(have: string, want: string, ghost n: nat) returns (r: ChainReply)
      requires want in allConfigs ==> Reply(allConfigs, want, have, n).Some?
      ensures r == if have == "" || want == "" || want !in allConfigs then BadRequest
        else Reply(allConfigs, want, have, n).value
    {
      if have == "" || want == "" || want !in allConfigs {
        return BadRequest;
      }
      r := WalkBack(allConfigs, want, have, n);
    }
  }

  /* ---- what clients get ---- */

  lemma {:induction false} WalkLinked(s: Scheme, all: Store, h: string, have: Signed)
    requires Closed(s, all) && h in all && Ancestor(s, all, s.Hash(have.content), h)
    ensures s.Linked(Walk(s, all, h, s.Hash(have.content)) + [have])
    ensures have.content.created < all[h].content.created && have.content.service == all[h].content.service
    decreases Older(all, all[h].content.created)
  {
    var hv, prev := s.Hash(have.content), all[h].content.prevHash;
    var walk := Walk(s, all, h, hv) + [have];
    assert Stored(s, all, h);
    assert Stored(s, all, prev);
    if prev == hv {
      s.HashInjective(all[prev].content, have.content);
      assert walk == [all[h], have];
    } else {
      OlderShrinks(s, all, h);
      WalkLinked(s, all, prev, have);
      var rest := Walk(s, all, prev, hv) + [have];
      assert walk == [all[h]] + rest;
      forall i | 0 <= i < |walk| - 1 ensures s.Link(walk[i], walk[i + 1].content) {
        if i > 0 {
          assert s.Link(rest[i - 1], rest[i].content);
        }
      }
    }
  }

  lemma {:induction false} WalkEndsAtAncestor(s: Scheme, all: Store, h: string, have: string)
    requires Closed(s, all) && h in all && have != ""
    ensures var walk := Walk(s, all, h, have); walk[|walk| - 1].content.prevHash == have <==> Ancestor(s, all, have, h)
    decreases Older(all, all[h].content.created)
  {
    var prev := all[h].content.prevHash;
    if prev != have && prev != "" {
      OlderShrinks(s, all, h);
      WalkEndsAtAncestor(s, all, prev, have);
    }
  }

  /**
   * A client accepts the server's chain exactly when the config it has is a proper ancestor of the one it wants, and
   * that has not expired.
   */
  lemma ChainAcceptedIff(s: Scheme, all: Store, have: Signed, want: string, now: int)
    requires Closed(s, all) && want in all
    ensures s.Accepts(have, want, Walk(s, all, want, s.Hash(have.content)), now)
      <==> Ancestor(s, all, s.Hash(have.content), want) && now <= all[want].content.expires
  {
    var hv := s.Hash(have.content);
    var walk := Walk(s, all, want, hv);
    assert Stored(s, all, want);
    WalkEndsAtAncestor(s, all, want, hv);
    if Ancestor(s, all, hv, want) {
      WalkLinked(s, all, want, have);
    }
    if s.Accepts(have, want, walk, now) {
      assert s.Link((walk + [have])[|walk| - 1], (walk + [have])[|walk|].content);
    }
  }

  /** Whoever answers the client, what it accepts agrees with an honest server's store. */
  lemma AcceptedIsStored(s: Scheme, all: Store, have: Signed, want: string, configs: seq<Signed>, now: int, i: nat)
    requires Closed(s, all) && want in all && Ancestor(s, all, s.Hash(have.content), want)
    requires s.Accepts(have, want, configs, now)
    requires i < |configs| && i < |Walk(s, all, want, s.Hash(have.content))|
    ensures configs[i].content == Walk(s, all, want, s.Hash(have.content))[i].content
  {
    assert Stored(s, all, want);
    s.HashInjective(all[want].content, configs[0].content);
    ChainAcceptedIff(s, all, have, want, now);
    ChainsAgree(s, have, want, configs, Walk(s, all, want, s.Hash(have.content)), now, now, i);
  }

  /** A client that follows an honest server gets to every later config of its service. */
  method Update(server: Server, have: Signed, want: string, now: int) returns (r: Result<seq<Signed>, FetchError>)
    requires Closed(server.scheme, server.allConfigs) && want in server.allConfigs
    requires Ancestor(server.scheme, server.allConfigs, server.scheme.Hash(have.content), want)
    ensures r.Ok? <==> now <= server.allConfigs[want].content.expires
    ensures r.Ok? ==> r.value != [] && r.value[0] == server.allConfigs[want] && r.value[|r.value| - 1] == have
    ensures r.Ok? ==> server.scheme.Linked(r.value)
  {
    assert Stored(server.scheme, server.allConfigs, want);
    ghost var n := |Older(server.allConfigs, server.allConfigs[want].content.created)|;
    ClosedAnswers(server.scheme, server.allConfigs, want, server.scheme.Hash(have.content));
    var reply := server.GetChain(server.scheme.Hash(have.content), want, n);
    ChainAcceptedIff(server.scheme, server.allConfigs, have, want, now);
    r := FetchAndVerifyChain(server.scheme, have, want, reply.configs, now);
  }
}
