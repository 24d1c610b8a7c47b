/** Add-friend mailboxes: the last mixer strings the introductions together, and clients cut them apart again. */
module AddFriendMailbox {
  import opened Base
  import opened MixChain
  import opened MixRouting

  /** The add-friend message on the wire: a mailbox and an encrypted introduction of a fixed size. */
  function MixMessage(size: nat, mailbox: nat, intro: Bytes): (m: Bytes)
    requires mailbox < TwoTo32 && |intro| == size
    ensures |m| == 4 + size
  {
    PutUint32(mailbox) + intro
  }

  predicate IsFor(size: nat, m: Bytes, mbox: nat) {
    |m| == 4 + size && BigEndian(m[..4]) == mbox != 0
  }

  /** The introductions for a mailbox, in the order of the messages. */
  function IntrosFor(size: nat, messages: seq<Bytes>, mbox: nat): (r: seq<Bytes>)
    ensures forall i :: 0 <= i < |r| ==> |r[i]| == size
  {
    if messages == [] then []
    else
      var m := messages[|messages| - 1];
      IntrosFor(size, messages[..|messages| - 1], mbox) + if IsFor(size, m, mbox) then [m[4..]] else []
  }

  function Join(pieces: seq<Bytes>): Bytes {
    if pieces == [] then [] else pieces[0] + Join(pieces[1..])
  }

  lemma {:induction false} JoinSnoc(pieces: seq<Bytes>, last: Bytes)
    ensures Join(pieces + [last]) == Join(pieces) + last
  {
    if pieces == [] {
      assert [last][1..] == [];
    } else {
      JoinSnoc(pieces[1..], last);
      assert (pieces + [last])[0] == pieces[0] && (pieces + [last])[1..] == pieces[1..] + [last];
      assert pieces[0] + (Join(pieces[1..]) + last) == Join(pieces) + last;
    }
  }

  /** Pieces of one size, from the front; what is left over at the end is dropped. */
  function Cut(size: nat, data: Bytes): seq<Bytes>
    requires size > 0
  {
    if |data| < size then [] else [data[..size]] + Cut(size, data[size..])
  }

  /** Cutting apart what was strung together gives the pieces back, in order. */
  lemma {:induction false} CutJoin(size: nat, pieces: seq<Bytes>)
    requires size > 0 && forall i :: 0 <= i < |pieces| ==> |pieces[i]| == size
    ensures Cut(size, Join(pieces)) == pieces
    ensures |Join(pieces)| == |pieces| * size
  {
    if pieces != [] {
      var data := Join(pieces);
      CutJoin(size, pieces[1..]);
      assert data[..size] == pieces[0] && data[size..] == Join(pieces[1..]);
    }
  }

  lemma MultipleDivides(n: nat, size: nat)
    requires size > 0
    ensures n * size % size == 0 && (n > 0 ==> n * size > 0)
  {
    var q, r := n * size / size, n * size % size;
    assert (n - q) * size == r;
    if n > q {
      AtLeast(n - q, size);
    } else if n < q {
      AtLeast(q - n, size);
    }
  }

  lemma AtLeast(k: nat, size: nat)
    requires k > 0
    ensures k * size >= size
  {
  }

  /** The mailboxes after the first messages. */
  ghost predicate Gathered(size: nat, mailboxes: map<nat, Bytes>, messages: seq<Bytes>) {
    forall mbox: nat ::
      if mbox in mailboxes then mailboxes[mbox] == Join(IntrosFor(size, messages, mbox)) &&
          IntrosFor(size, messages, mbox) != []
      else IntrosFor(size, messages, mbox) == []
  }

  lemma GatheredOn(size: nat, mailboxes: map<nat, Bytes>, messages: seq<Bytes>, n: nat, more: map<nat, Bytes>)
    requires n < |messages| && Gathered(size, mailboxes, messages[..n])
    requires var m := messages[n];
      if |m| == 4 + size && BigEndian(m[..4]) != 0 then
        var mbox := BigEndian(m[..4]);
        more == mailboxes[mbox := (if mbox in mailboxes then mailboxes[mbox] else []) + m[4..]]
      else more == mailboxes
    ensures Gathered(size, more, messages[..n + 1])
  {
    var m := messages[n];
    assert messages[..n + 1][..n] == messages[..n] && messages[..n + 1][n] == m;
    forall mbox: nat
      ensures if mbox in more then more[mbox] == Join(IntrosFor(size, messages[..n + 1], mbox)) &&
        IntrosFor(size, messages[..n + 1], mbox) != []
              else IntrosFor(size, messages[..n + 1], mbox) == []
    {
      var before := IntrosFor(size, messages[..n], mbox);
      assert mbox in mailboxes <==> before != [];
      assert IntrosFor(size, messages[..n + 1], mbox) == before + if IsFor(size, m, mbox) then [m[4..]] else [];
      if IsFor(size, m, mbox) {
        JoinSnoc(before, m[4..]);
        assert more[mbox] == (if mbox in mailboxes then Join(before) else []) + m[4..];
        assert before == [] ==> Join(before) == [];
      } else {
        assert before + [] == before;
      }
    }
  }

  /** The last mixer: it shuffles the messages and appends each introduction to its mailbox. */
  method HandleMessages(size: nat, shuffler: Shuffler, messages: seq<Bytes>) returns (mailboxes: map<nat, Bytes>)
    requires shuffler.Valid(|messages|)
    ensures Gathered(size, mailboxes, shuffler.Shuffle(messages))
  {
    var shuffled := shuffler.Shuffle(messages);
    mailboxes := map[];
    for n := 0 to |shuffled|
      invariant Gathered(size, mailboxes, shuffled[..n])
    {
      var m := shuffled[n];
      ghost var before := mailboxes;
      if |m| == 4 + size && BigEndian(m[..4]) != 0 {
        var mbox := BigEndian(m[..4]);
        mailboxes := mailboxes[mbox := (if mbox in mailboxes then mailboxes[mbox] else []) + m[4..]];
      }
      GatheredOn(size, before, shuffled, n, mailboxes);
    }
    assert shuffled[..|shuffled|] == shuffled;
  }

  /** The client cuts its mailbox into introductions, unless the size says it is malformed. */
  method SplitMailbox(size: nat, mailbox: Bytes) returns (intros: Option<seq<Bytes>>)
    requires size > 0
    ensures intros == if |mailbox| == 0 || |mailbox| % size != 0 then None else Some(Cut(size, mailbox))
  {
    if |mailbox| == 0 || |mailbox| % size != 0 {
      return None;
    }
    var r: seq<Bytes> := [];
    var at := 0;
    assert mailbox[0..] == mailbox;
    while |mailbox| - at >= size
      invariant 0 <= at <= |mailbox| && r + Cut(size, mailbox[at..]) == Cut(size, mailbox)
    {
      assert mailbox[at..][..size] == mailbox[at..at + size] && mailbox[at..][size..] == mailbox[at + size..];
      r := r + [mailbox[at..at + size]];
      at := at + size;
    }
    assert Cut(size, mailbox[at..]) == [] && r + [] == r;
    return Some(r);
  }

  /** A user finds in its mailbox exactly the introductions that were delivered for it, in the shuffled order. */
  method ReadMailbox(size: nat, shuffler: Shuffler, messages: seq<Bytes>, mbox: nat) returns (intros: seq<Bytes>)
    requires size > 0 && shuffler.Valid(|messages|)
    ensures intros == IntrosFor(size, shuffler.Shuffle(messages), mbox)
  {
    var mailboxes := HandleMessages(size, shuffler, messages);
    ghost var pieces := IntrosFor(size, shuffler.Shuffle(messages), mbox);
    if mbox !in mailboxes {
      return [];
    }
    CutJoin(size, pieces);
    MultipleDivides(|pieces|, size);
    var cut := SplitMailbox(size, mailboxes[mbox]);
    intros := cut.value;
  }

  /** Every introduction in a mailbox was delivered for it, and every one delivered for it is in the mailbox. */
  lemma {:induction false} IntrosForHas(size: nat, messages: seq<Bytes>, mbox: nat, intro: Bytes)
    ensures intro in IntrosFor(size, messages, mbox) <==>
      exists m :: m in messages && IsFor(size, m, mbox) && m[4..] == intro
  {
    if messages != [] {
      var before, last := messages[..|messages| - 1], messages[|messages| - 1];
      IntrosForHas(size, before, mbox, intro);
      assert messages == before + [last];
    }
  }

  /**
   * An introduction sent through the chain, that is first with its deduplication key at each hop, is in its mailbox.
   */
  lemma IntroArrives(size: nat, p: Params, hops: seq<Mixer>, batch: seq<Bytes>, i: nat, ephemerals: seq<Bytes>,
                     shuffler: Shuffler, mbox: nat, intro: Bytes)
    requires ValidChain(p, hops) && p.sizeIncoming == 4 + size && i < |batch| && |ephemerals| == |hops|
    requires 0 < mbox < TwoTo32 && |intro| == size
    requires batch[i] == SealOnion(p, MixMessage(size, mbox, intro), OnionKeys(p, hops), ephemerals)
    requires FirstAtEachHop(p, hops, batch, i, MixMessage(size, mbox, intro), ephemerals)
    requires shuffler.Valid(|Delivered(p, hops, batch)|)
    ensures intro in IntrosFor(size, shuffler.Shuffle(Delivered(p, hops, batch)), mbox)
  {
    var m := MixMessage(size, mbox, intro);
    var pos := ClientDelivered(p, hops, batch, i, m, ephemerals);
    var shuffled := shuffler.Shuffle(Delivered(p, hops, batch));
    assert shuffled[shuffler.to[pos]] == m;
    PutUint32RoundTrip(mbox);
    assert m[..4] == PutUint32(mbox) && m[4..] == intro;
    assert IsFor(size, m, mbox);
    IntrosForHas(size, shuffled, mbox, intro);
  }
}
