/** Hex encoding and the sorting of hex keys, as the PKG protocol uses them. */
module SortedKeys {
  import opened Base

  function HexDigit(n: nat): byte
    requires n < 16
  {
    if n < 10 then 48 + n else 87 + n
  }

  /** hex.EncodeToString */
  function Hex(b: Bytes): (r: Bytes)
    ensures |r| == 2 * |b|
  {
    if b == [] then [] else [HexDigit(b[0] / 16), HexDigit(b[0] % 16)] + Hex(b[1..])
  }

  lemma {:induction false} HexInjective(a: Bytes, b: Bytes)
    requires Hex(a) == Hex(b)
    ensures a == b
  {
    assert |a| == |b|;
    if a != [] {
      assert Hex(a)[0] == Hex(b)[0] && Hex(a)[1] == Hex(b)[1];
      assert Hex(a)[2..] == Hex(a[1..]) && Hex(b)[2..] == Hex(b[1..]);
      HexInjective(a[1..], b[1..]);
      assert a == [a[0]] + a[1..] && b == [b[0]] + b[1..];
    }
  }

  /** The order of strings, byte by byte. */
  predicate Less(a: Bytes, b: Bytes) {
    if b == [] then false
    else if a == [] then true
    else a[0] < b[0] || (a[0] == b[0] && Less(a[1..], b[1..]))
  }

  lemma {:induction false} LessTrichotomy(a: Bytes, b: Bytes)
    ensures !(Less(a, b) && Less(b, a))
    ensures Less(a, b) || Less(b, a) <==> a != b
  {
    if a != [] && b != [] {
      LessTrichotomy(a[1..], b[1..]);
      assert a == [a[0]] + a[1..] && b == [b[0]] + b[1..];
    }
  }

  lemma {:induction false} LessTransitive(a: Bytes, b: Bytes, c: Bytes)
    requires Less(a, b) && Less(b, c)
    ensures Less(a, c)
  {
    if a != [] && a[0] == b[0] == c[0] {
      LessTransitive(a[1..], b[1..], c[1..]);
    }
  }

  /** sort.Strings, by insertion. */
  function Sort(s: seq<Bytes>): seq<Bytes> {
    if s == [] then [] else Insert(s[0], Sort(s[1..]))
  }

  function Insert(x: Bytes, s: seq<Bytes>): seq<Bytes> {
    if s == [] || !Less(s[0], x) then [x] + s else [s[0]] + Insert(x, s[1..])
  }

  lemma {:induction false} InsertKeeps(x: Bytes, s: seq<Bytes>)
    ensures multiset(Insert(x, s)) == multiset(s)[x := multiset(s)[x] + 1]
  {
    if s != [] {
      assert s == [s[0]] + s[1..];
      if Less(s[0], x) {
        InsertKeeps(x, s[1..]);
      }
    }
  }

  lemma {:induction false} SortKeeps(s: seq<Bytes>)
    ensures multiset(Sort(s)) == multiset(s)
  {
    if s != [] {
      SortKeeps(s[1..]);
      InsertKeeps(s[0], Sort(s[1..]));
      assert s == [s[0]] + s[1..];
    }
  }

  /** Every string is before the ones after it. */
  predicate Ascending(s: seq<Bytes>) {
    s == [] || ((forall x :: x in s[1..] ==> Less(s[0], x)) && Ascending(s[1..]))
  }

  lemma {:induction false} InsertAscending(x: Bytes, s: seq<Bytes>)
    requires Ascending(s) && x !in s
    ensures Ascending(Insert(x, s))
  {
    if s == [] || !Less(s[0], x) {
      assert ([x] + s)[1..] == s;
      forall y | y in s ensures Less(x, y) {
        LessTrichotomy(x, s[0]);
        if y != s[0] {
          assert y in s[1..];
          LessTransitive(x, s[0], y);
        }
      }
    } else {
      InsertAscending(x, s[1..]);
      InsertKeeps(x, s[1..]);
      var r := [s[0]] + Insert(x, s[1..]);
      assert r[1..] == Insert(x, s[1..]);
      forall y | y in r[1..] ensures Less(s[0], y) {
        assert y in multiset(Insert(x, s[1..]));
        assert y != x ==> y in multiset(s[1..]);
      }
    }
  }

  /** Distinct strings are sorted into ascending order. */
  lemma {:induction false} SortAscending(s: seq<Bytes>)
    requires forall i, j :: 0 <= i < j < |s| ==> s[i] != s[j]
    ensures Ascending(Sort(s)) && forall x :: x in Sort(s) <==> x in s
  {
    SortKeeps(s);
    forall x ensures x in Sort(s) <==> x in s {
      assert x in multiset(Sort(s)) <==> x in multiset(s);
    }
    if s != [] {
      SortAscending(s[1..]);
      InsertAscending(s[0], Sort(s[1..]));
    }
  }

  lemma HeadIsFirst(s: seq<Bytes>, x: Bytes)
    requires Ascending(s) && x in s
    ensures x == s[0] || Less(s[0], x)
    ensures x in s[1..] <==> x != s[0]
  {
    assert s == [s[0]] + s[1..];
    LessTrichotomy(s[0], x);
  }

  /** There is only one ascending order of some strings. */
  lemma {:induction false} AscendingUnique(a: seq<Bytes>, b: seq<Bytes>)
    requires Ascending(a) && Ascending(b) && forall x :: x in a <==> x in b
    ensures a == b
    decreases |a|
  {
    if a != [] {
      assert a[0] in b;
      HeadIsFirst(b, a[0]);
      HeadIsFirst(a, b[0]);
      LessTrichotomy(a[0], b[0]);
      forall x ensures x in a[1..] <==> x in b[1..] {
        if x in a {
          HeadIsFirst(a, x);
          HeadIsFirst(b, x);
        }
      }
      AscendingUnique(a[1..], b[1..]);
      assert a == [a[0]] + a[1..] && b == [b[0]] + b[1..];
    } else {
      HasElement(b);
    }
  }

  lemma HasElement(s: seq<Bytes>)
    ensures s == [] || exists x :: x in s
  {
    if s != [] {
      assert s[0] in s;
    }
  }
}
