/** The chain of signed configs: what it means to be a link, what clients check, and what follows from it. */
module ConfigChain {
  import opened Base

  datatype Guardian = Guardian(username: string, key: Bytes, pqKey: Bytes)

  /** Everything in a config that is signed and hashed: all but the signatures. */
  datatype Content = Content(
    version: int, service: string, created: int, expires: int, prevHash: string,
    inner: Option<Bytes>, guardians: seq<Guardian>, minClientVersion: int)

  /** Signatures are kept by Ed25519 key; the code keys them by its base32 form. */
  datatype Signed = Signed(content: Content, signatures: map<Bytes, Bytes>)

  const SignedConfigVersion: int := 2
  const PublicKeySize: nat := 32
  const PqPublicKeySize: nat := 1952
  const EdSignatureSize: nat := 64
  const HybridSignatureSize: nat := 64 + 3309

  /** The cryptography: the encoded signing message, its digest, and the two signature schemes. */
  datatype Scheme = Scheme(
    message: Content -> Bytes,
    digest: Bytes -> string,
    edVerify: (Bytes, Bytes, Bytes) -> bool,
    pqUnpacks: Bytes -> bool,
    pqVerify: (Bytes, Bytes, Bytes) -> bool,
    innerValid: Bytes -> bool)
  {
    /** Encodings and digests do not collide, and no digest is the empty string. */
    ghost predicate Lawful() {
      && (forall a, b {:trigger message(a), message(b)} :: message(a) == message(b) ==> a == b)
      && (forall a, b {:trigger digest(a), digest(b)} :: digest(a) == digest(b) ==> a == b)
      && (forall a {:trigger digest(a)} :: digest(a) != "")
    }

    /** No ML-DSA signature of a message verifies under two public keys. */
    ghost predicate KeyBound() {
      forall k, l, m, s {:trigger pqVerify(k, m, s), pqVerify(l, m, s)} :: pqVerify(k, m, s) && pqVerify(l, m, s) ==>
          k == l
    }

    function Hash(c: Content): string {
      digest(message(c))
    }

    lemma HashInjective(a: Content, b: Content)
      requires Lawful() && Hash(a) == Hash(b)
      ensures a == b
    {
    }

    /** Both halves of the guardian's hybrid signature are there and verify. */
    predicate SignedBy(c: Signed, g: Guardian) {
      && g.key in c.signatures
      && var sig := c.signatures[g.key];
        && |sig| == HybridSignatureSize
        && edVerify(g.key, message(c.content), sig[..EdSignatureSize])
        && pqUnpacks(g.pqKey)
        && pqVerify(g.pqKey, message(c.content), sig[EdSignatureSize..])
    }

    /** Verify: the config's own guardians all signed it. */
    predicate SelfSigned(c: Signed) {
      forall i :: 0 <= i < |c.content.guardians| ==> SignedBy(c, c.content.guardians[i])
    }

    predicate Validate(c: Content) {
      && c.version == SignedConfigVersion && c.minClientVersion <= SignedConfigVersion
      && (forall i :: 0 <= i < |c.guardians| ==> ValidGuardian(c.guardians[i]))
      && c.service != "" && c.inner.Some? && innerValid(c.inner.value)
    }

    /** One config may follow another. */
    ghost predicate Link(curr: Signed, prev: Content) {
      && curr.content.prevHash == Hash(prev)
      && (forall i :: 0 <= i < |prev.guardians| ==> SignedBy(curr, prev.guardians[i]))
      && (forall i :: 0 <= i < |curr.content.guardians| && !HasKey(prev.guardians, curr.content.guardians[i].key) ==>
            SignedBy(curr, curr.content.guardians[i]))
    }

    /** Newest first, every config may follow the next one. */
    ghost predicate Linked(configs: seq<Signed>) {
      forall i :: 0 <= i < |configs| - 1 ==> Link(configs[i], configs[i + 1].content)
    }

    /** What a client that has one config accepts as the chain to a config it wants. */
    ghost predicate Accepts(have: Signed, want: string, configs: seq<Signed>, now: int) {
      configs != [] && AcceptsNewest(have.content, want, configs[0].content, now) && Linked(configs + [have])
    }

    predicate AcceptsNewest(have: Content, want: string, c: Content, now: int) {
      && Validate(c) && Hash(c) == want && c.service == have.service
      && have.created < c.created && now <= c.expires
    }
  }

  predicate ValidGuardian(g: Guardian) {
    |g.key| == PublicKeySize && |g.pqKey| == PqPublicKeySize && g.username != ""
  }

  predicate HasKey(guardians: seq<Guardian>, key: Bytes) {
    exists i :: 0 <= i < |guardians| && guardians[i].key == key
  }

  /* ---- the checks ---- */

  /** The config chain verifier, newest config first. */
  method VerifyConfigChain(s: Scheme, configs: seq<Signed>) returns (ok: bool)
    requires |configs| >= 2
    ensures ok <==> s.Linked(configs)
  {
    for i := 0 to |configs| - 1
      invariant forall j :: 0 <= j < i ==> s.Link(configs[j], configs[j + 1].content)
    {
      ok := VerifyLink(s, configs[i], configs[i + 1].content);
      if !ok {
        return false;
      }
    }
    return true;
  }

  method VerifyLink(s: Scheme, curr: Signed, prev: Content) returns (ok: bool)
    ensures ok <==> s.Link(curr, prev)
  {
    if curr.content.prevHash != s.Hash(prev) {
      return false;
    }
    var verified: map<Bytes, bool> := map[];
    for i := 0 to |prev.guardians|
      invariant forall j :: 0 <= j < i ==> s.SignedBy(curr, prev.guardians[j])
      invariant forall k :: k in verified <==> HasKey(prev.guardians[..i], k)
    {
      var guardian := prev.guardians[i];
      if !s.SignedBy(curr, guardian) {
        return false;
      }
      KeyAdded(prev.guardians, i);
      verified := verified[guardian.key := true];
    }
    assert prev.guardians[..|prev.guardians|] == prev.guardians;
    for i := 0 to |curr.content.guardians|
      invariant forall j :: 0 <= j < i && !HasKey(prev.guardians, curr.content.guardians[j].key) ==>
        s.SignedBy(curr, curr.content.guardians[j])
    {
      var guardian := curr.content.guardians[i];
      if guardian.key in verified {
        continue;
      }
      if !s.SignedBy(curr, guardian) {
        return false;
      }
    }
    return true;
  }

  lemma KeyAdded(guardians: seq<Guardian>, i: nat)
    requires i < |guardians|
    ensures forall k :: HasKey(guardians[..i + 1], k) <==> HasKey(guardians[..i], k) || k == guardians[i].key
  {
    assert guardians[..i + 1] == guardians[..i] + [guardians[i]];
    assert (guardians[..i] + [guardians[i]])[i] == guardians[i];
    forall k | HasKey(guardians[..i], k) ensures HasKey(guardians[..i + 1], k) {
      var j :| 0 <= j < i && guardians[..i][j].key == k;
      assert guardians[..i + 1][j].key == k;
    }
  }

  datatype FetchError = NoConfigs | InvalidConfig | WrongHash | WrongService | NotNewer | Expired | BadChain

  /** The client's checks on what the server sent, once it is decoded. */
  method FetchAndVerifyChain(s: Scheme, have: Signed, want: string, received: seq<Signed>, now: int)
    returns (r: Result<seq<Signed>, FetchError>)
    ensures r.Ok? <==> s.Accepts(have, want, received, now)
    ensures r.Ok? ==> r.value == received + [have]
  {
    if |received| == 0 {
      return Err(NoConfigs);
    }
    var newConfig := received[0].content;
    if !s.Validate(newConfig) {
      return Err(InvalidConfig);
    }
    if s.Hash(newConfig) != want {
      return Err(WrongHash);
    }
    if newConfig.service != have.content.service {
      return Err(WrongService);
    }
    if !(newConfig.created > have.content.created) {
      return Err(NotNewer);
    }
    if now > newConfig.expires {
      return Err(Expired);
    }
    var configs := received + [have];
    var ok := VerifyConfigChain(s, configs);
    return if ok then Ok(configs) else Err(BadChain);
  }

  /* ---- what acceptance gives ---- */

  /** Two chains that a client accepts between the same two configs agree while both run. */
  lemma {:induction false} ChainsAgree(s: Scheme, have: Signed, want: string, a: seq<Signed>, b: seq<Signed>,
                                       now: int, later: int, i: nat)
    requires s.Lawful() && s.Accepts(have, want, a, now) && s.Accepts(have, want, b, later)
    requires i < |a| && i < |b|
    ensures a[i].content == b[i].content
    decreases i
  {
    if i == 0 {
      s.HashInjective(a[0].content, b[0].content);
    } else {
      ChainsAgree(s, have, want, a, b, now, later, i - 1);
      assert s.Link((a + [have])[i - 1], (a + [have])[i].content) &&
          s.Link((b + [have])[i - 1], (b + [have])[i].content);
      s.HashInjective(a[i].content, b[i].content);
    }
  }

  /** A chain that goes on after another has ended passes the client's own config again. */
  lemma LongerChainRevisits(s: Scheme, have: Signed, want: string, a: seq<Signed>, b: seq<Signed>, now: int, later: int)
    requires s.Lawful() && s.Accepts(have, want, a, now) && s.Accepts(have, want, b, later) && |a| < |b|
    ensures b[|a|].content == have.content
  {
    var n := |a|;
    ChainsAgree(s, have, want, a, b, now, later, n - 1);
    assert s.Link((a + [have])[n - 1], (a + [have])[n].content) && s.Link((b + [have])[n - 1], (b + [have])[n].content);
    s.HashInjective(b[n].content, have.content);
  }

  /** The guardians that a new config keeps by Ed25519 key but gives another ML-DSA key. */
  predicate KeepsPqKeys(curr: Content, prev: Content) {
    forall i, j :: 0 <= i < |curr.guardians| && 0 <= j < |prev.guardians| ==>
      curr.guardians[i].key == prev.guardians[j].key ==> curr.guardians[i].pqKey == prev.guardians[j].pqKey
  }

  /**
   * A config that may follow another is signed by all of its own guardians exactly when it changes no kept guardian's
   * ML-DSA key.
   */
  lemma LinkIsSelfSigned(s: Scheme, curr: Signed, prev: Content)
    requires s.KeyBound() && s.Link(curr, prev)
    ensures s.SelfSigned(curr) <==> KeepsPqKeys(curr.content, prev)
  {
    var guardians := curr.content.guardians;
    if KeepsPqKeys(curr.content, prev) {
      forall i | 0 <= i < |guardians| ensures s.SignedBy(curr, guardians[i]) {
        if j :| 0 <= j < |prev.guardians| && prev.guardians[j].key == guardians[i].key {
          assert s.SignedBy(curr, prev.guardians[j]);
        }
      }
    }
    if s.SelfSigned(curr) {
      forall i, j | 0 <= i < |guardians| && 0 <= j < |prev.guardians| && guardians[i].key == prev.guardians[j].key
        ensures guardians[i].pqKey == prev.guardians[j].pqKey
      {
        assert s.SignedBy(curr, guardians[i]) && s.SignedBy(curr, prev.guardians[j]);
      }
    }
  }

  /** A guardian's hybrid signature of a message is good under a key of each kind. */
  predicate Signs(s: Scheme, key: Bytes, pqKey: Bytes, msg: Bytes, sig: Bytes) {
    && |sig| == HybridSignatureSize && s.edVerify(key, msg, sig[..EdSignatureSize])
    && s.pqUnpacks(pqKey) && s.pqVerify(pqKey, msg, sig[EdSignatureSize..])
  }

  /**
   * The verifier accepts configs that do not pass Verify, in every scheme: a guardian of the config before
   * keeps its Ed25519 key under another ML-DSA key, and signs with the old one.
   */
  lemma AcceptedNeedNotVerify(s: Scheme, curr: Signed, prev: Content, i: nat, j: nat)
    requires s.Lawful() && s.KeyBound() && curr.content.prevHash == s.Hash(prev)
    requires i < |prev.guardians| && j < |curr.content.guardians|
    requires prev.guardians[i].key == curr.content.guardians[j].key
    requires prev.guardians[i].pqKey != curr.content.guardians[j].pqKey
    requires forall g :: g in prev.guardians ==>
      g.key in curr.signatures && Signs(s, g.key, g.pqKey, s.message(curr.content), curr.signatures[g.key])
    requires forall g :: g in curr.content.guardians ==> HasKey(prev.guardians, g.key)
    ensures s.Link(curr, prev) && !s.SelfSigned(curr)
  {
    assert s.SignedBy(curr, prev.guardians[i]);
    assert !s.SignedBy(curr, curr.content.guardians[j]);
  }

  /** The scheme with signatures that are the key they verify under, padded to their size. */
  function WithToySignatures(s: Scheme): Scheme {
    s.(edVerify := (k, m, sig) => k <= sig, pqUnpacks := _ => true,
       pqVerify := (k, m, sig) => k <= sig && |k| == PqPublicKeySize, innerValid := _ => true)
  }

  /** There are such configs: the toy signatures keep any lawful encoding and digest lawful, and allow one. */
  lemma AcceptedUnverifiedExists(s: Scheme) returns (curr: Signed, prev: Content)
    requires s.Lawful()
    ensures var t := WithToySignatures(s);
      t.Lawful() && t.KeyBound() && t.Validate(curr.content) && t.Validate(prev) && t.Link(curr, prev) &&
          !t.SelfSigned(curr)
  {
    var t := WithToySignatures(s);
    var key := Zeros(PublicKeySize);
    var pqOld, pqNew := Zeros(PqPublicKeySize), [1] + Zeros(PqPublicKeySize - 1);
    var sig := key + Zeros(EdSignatureSize - PublicKeySize) + pqOld + Zeros(3309 - PqPublicKeySize);
    prev := Content(2, "Dialing", 0, 9, "", Some([]), [Guardian("g", key, pqOld)], 2);
    curr := Signed(Content(2, "Dialing", 1, 9, t.Hash(prev), Some([]), [Guardian("g", key, pqNew)], 2),
        map[key := sig]);
    assert sig[EdSignatureSize..] == pqOld + Zeros(3309 - PqPublicKeySize);
    assert key <= sig[..EdSignatureSize];
    assert pqOld[0] != pqNew[0];
    forall k: Bytes, l: Bytes, m: Bytes, x: Bytes | t.pqVerify(k, m, x) && t.pqVerify(l, m, x) ensures k == l {
      assert k == x[..PqPublicKeySize] == l;
    }
    assert prev.guardians[0].key == key;
    AcceptedNeedNotVerify(t, curr, prev, 0, 0);
  }
}
