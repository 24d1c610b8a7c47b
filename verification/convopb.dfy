/**
 * The wire format of the mixnet messages. The generated code repeats one pattern per message; here
 * the pattern is written once, over a schema that lists a message's fields in order.
 */
module Convopb {
  import opened Base
  import opened Varints

  /** The kinds of field that the messages have; strings travel as their bytes. */
  datatype Kind =
    | BytesField
    | Uint32Field
    | RepeatedBytes
    | RepeatedMessage(of: Schema)
    | OptionalMessage(of: Schema)
  datatype Field = Field(num: nat, kind: Kind)
  datatype Schema = Schema(fields: seq<Field>)

  datatype Content =
    | Blob(bytes: Bytes)
    | Number(n: nat)
    | Blobs(blobs: seq<Bytes>)
    | Messages(msgs: seq<Message>)
    | Pointer(msg: Option<Message>)
  datatype Message = Message(contents: seq<Content>)

  /** Distinct field numbers, small enough for one-byte tags. */
  predicate WellFormed(s: Schema) {
    && (forall i :: 0 <= i < |s.fields| ==> 1 <= s.fields[i].num <= 15)
    && (forall i, j :: 0 <= i < j < |s.fields| ==> s.fields[i].num != s.fields[j].num)
    && (forall i :: 0 <= i < |s.fields| && Nested(s.fields[i].kind) ==> WellFormed(s.fields[i].kind.of))
  }

  predicate Nested(kind: Kind) {
    kind.RepeatedMessage? || kind.OptionalMessage?
  }

  predicate WellFormedKind(kind: Kind) {
    Nested(kind) ==> WellFormed(kind.of)
  }

  predicate WellFormedField(f: Field) {
    1 <= f.num <= 15 && WellFormedKind(f.kind)
  }

  /** The message has the schema's fields, and its numbers have 32 bits. */
  predicate Typed(s: Schema, m: Message)
    decreases m
  {
    |m.contents| == |s.fields| && forall i :: 0 <= i < |s.fields| ==> TypedContent(s.fields[i].kind, m.contents[i])
  }

  predicate TypedContent(kind: Kind, c: Content)
    decreases c
  {
    match kind
    case BytesField => c.Blob?
    case Uint32Field => c.Number? && c.n < TwoTo32
    case RepeatedBytes => c.Blobs?
    case RepeatedMessage(of) => c.Messages? && forall i :: 0 <= i < |c.msgs| ==> Typed(of, c.msgs[i])
    case OptionalMessage(of) => c.Pointer? && (c.msg.Some? ==> Typed(of, c.msg.value))
  }

  /** A new message: empty strings, zeros and nil pointers. */
  function Zero(s: Schema): (m: Message)
    ensures Typed(s, m)
  {
    Message(seq(|s.fields|, i requires 0 <= i < |s.fields| => ZeroContent(s.fields[i].kind)))
  }

  function ZeroContent(kind: Kind): (c: Content)
    ensures TypedContent(kind, c)
  {
    match kind
    case BytesField => Blob([])
    case Uint32Field => Number(0)
    case RepeatedBytes => Blobs([])
    case RepeatedMessage(_) => Messages([])
    case OptionalMessage(_) => Pointer(None)
  }

  /* ---- writing ---- */

  const VarintType: nat := 0
  const LengthType: nat := 2

  function Tag(f: Field): (b: byte)
    requires WellFormedField(f)
  {
    f.num * 8 + if f.kind.Uint32Field? then VarintType else LengthType
  }

  /** A length-delimited record. */
  function Record(f: Field, body: Bytes): Bytes
    requires WellFormedField(f)
  {
    [Tag(f)] + Varint(|body|) + body
  }

  function Records(f: Field, bodies: seq<Bytes>): Bytes
    requires WellFormedField(f)
  {
    if bodies == [] then [] else Record(f, bodies[0]) + Records(f, bodies[1..])
  }

  /** The bytes of a message: its fields in order, without those that are empty. */
  function Encode(s: Schema, m: Message): Bytes
    requires WellFormed(s) && Typed(s, m)
    decreases m, 1, 0
  {
    EncodeFrom(s, m, 0)
  }

  function EncodeFrom(s: Schema, m: Message, k: nat): Bytes
    requires WellFormed(s) && Typed(s, m) && k <= |s.fields|
    decreases m, 0, |s.fields| - k
  {
    if k == |s.fields| then [] else EncodeContent(s.fields[k], m.contents[k]) + EncodeFrom(s, m, k + 1)
  }

  function EncodeContent(f: Field, c: Content): Bytes
    requires WellFormedField(f) && TypedContent(f.kind, c)
    decreases c, 1, 0
  {
    match f.kind
    case BytesField => if c.bytes == [] then [] else Record(f, c.bytes)
    case Uint32Field => if c.n == 0 then [] else [Tag(f)] + Varint(c.n)
    case RepeatedBytes => Records(f, c.blobs)
    case RepeatedMessage(of) => Records(f, EncodeEach(f, c))
    case OptionalMessage(of) => if c.msg == None then [] else Record(f, Encode(of, c.msg.value))
  }

  function EncodeEach(f: Field, c: Content): (bodies: seq<Bytes>)
    requires WellFormedField(f) && f.kind.RepeatedMessage? && TypedContent(f.kind, c)
    ensures |bodies| == |c.msgs|
    decreases c, 0, 0
  {
    seq(|c.msgs|, i requires 0 <= i < |c.msgs| => Encode(f.kind.of, c.msgs[i]))
  }

  /* ---- reading ---- */

  /** How many bytes a field of any kind takes, tag included; it may point beyond the bytes there are. */
  function Skip(data: Bytes): (r: Result<nat, PbError>)
    requires data != []
    ensures r.Ok? ==> r.value >= 1
    decreases |data|, 1, 0
  {
    match GetVarint(data)
    case Err(e) => Err(e)
    case Ok(Read(wire, n)) =>
      match wire % 8
      case 0 => (match GetVarint(data[n..]) case Err(e) => Err(e) case Ok(Read(_, size)) => Ok(n + size))
      case 1 => Ok(n + 8)
      case 2 => (match GetVarint(data[n..])
        case Err(e) => Err(e)
        case Ok(Read(v, size)) => if ToInt(v) < 0 then Err(InvalidLength) else Ok(n + size + ToInt(v)))
      case 3 => SkipGroup(data, n)
      case 4 => Ok(n)
      case 5 => Ok(n + 4)
      case _ => Err(IllegalWireType)
  }

  /** The position after the group whose next field is at position i. */
  function SkipGroup(data: Bytes, i: nat): (r: Result<nat, PbError>)
    requires i >= 1
    ensures r.Ok? ==> r.value >= 1
    decreases |data|, 0, |data| - i
  {
    if i >= |data| then Err(UnexpectedEof)
    else match GetVarint(data[i..])
      case Err(e) => Err(e)
      case Ok(Read(wire, n)) =>
        if wire % 8 == 4 then Ok(i + n)
        else match Skip(data[i..])
          case Err(e) => Err(e)
          case Ok(next) => SkipGroup(data, i + next)
  }

  /** The position of the field with a number, or the number of fields. */
  function FieldWith(s: Schema, num: int, k: nat): (r: nat)
    requires k <= |s.fields|
    ensures k <= r <= |s.fields|
    ensures r < |s.fields| ==> s.fields[r].num == num
    decreases |s.fields| - k
  {
    if k == |s.fields| || s.fields[k].num == num then k else FieldWith(s, num, k + 1)
  }

  /** The field number and the wire type in a tag, as the readers cut them out of 64 bits. */
  function FieldNumber(wire: nat): int {
    ToInt32(wire % TwoTo64 / 8)
  }

  function TypeOf(wire: nat): nat {
    wire % 8
  }

  lemma TagParts(num: nat, wireType: nat)
    requires num < 0x2000_0000 && wireType < 8
    ensures TypeOf(num * 8 + wireType) == wireType && num * 8 + wireType < TwoTo32
    ensures FieldNumber(num * 8 + wireType) == num
  {
    SmallWord(num * 8 + wireType);
    Eighth(num, wireType);
    SmallInt32(num);
  }

  lemma Eighth(num: nat, wireType: nat)
    requires wireType < 8
    ensures (num * 8 + wireType) / 8 == num && (num * 8 + wireType) % 8 == wireType
  {
  }

  /** A tag's field number and wire type, and how many bytes it took. */
  function ReadTag(data: Bytes): (r: Result<(int, nat, nat), PbError>)
    ensures r.Ok? ==> 1 <= r.value.2 <= |data|
  {
    match GetVarint(data)
    case Err(e) => Err(e)
    case Ok(Read(wire, n)) =>
      var num, wireType := FieldNumber(wire), TypeOf(wire);
      if wireType == 4 then Err(EndGroup)
      else if num <= 0 then Err(IllegalTag)
      else Ok((num, wireType, n))
  }

  /** A length-delimited body, and how many bytes it took with its length. */
  function Delimited(data: Bytes): (r: Result<(Bytes, nat), PbError>)
    ensures r.Ok? ==> |r.value.0| < r.value.1 <= |data|
  {
    match GetVarint(data)
    case Err(e) => Err(e)
    case Ok(Read(v, n)) =>
      var length := ToInt(v);
      if length < 0 then Err(InvalidLength)
      else if n + length > |data| then Err(UnexpectedEof)
      else Ok((data[n..n + length], n + length))
  }

  /** Reading one field: the message with it, and how many bytes it took. */
  function ReadField(s: Schema, data: Bytes, m: Message): (r: Result<(Message, nat), PbError>)
    requires WellFormed(s) && Typed(s, m) && data != []
    ensures r.Ok? ==> Typed(s, r.value.0) && 1 <= r.value.1 <= |data|
    decreases |data|, 1, 0
  {
    match ReadTag(data)
    case Err(e) => Err(e)
    case Ok((num, wireType, n)) =>
      var k := FieldWith(s, num, 0);
      if k == |s.fields| then
        match Skip(data)
        case Err(e) => Err(e)
        case Ok(skippy) => if skippy > |data| then Err(UnexpectedEof) else Ok((m, skippy))
      else
        match ReadContent(s.fields[k].kind, wireType, data[n..], m.contents[k])
        case Err(e) => Err(e)
        case Ok((c, size)) => Ok((Message(m.contents[k := c]), n + size))
  }

  /** Reading the value of a known field, after its tag. */
  function ReadContent(kind: Kind, wireType: nat, data: Bytes, c: Content): (r: Result<(Content, nat), PbError>)
    requires WellFormedKind(kind) && TypedContent(kind, c)
    ensures r.Ok? ==> TypedContent(kind, r.value.0) && 1 <= r.value.1 <= |data|
    decreases |data|, 1, 0
  {
    if kind.Uint32Field? then
      if wireType != VarintType then Err(WrongWireType)
      else match GetVarint(data)
        case Err(e) => Err(e)
        case Ok(Read(v, n)) => Ok((Number(v % TwoTo32), n))
    else if wireType != LengthType then Err(WrongWireType)
    else match Delimited(data)
      case Err(e) => Err(e)
      case Ok((body, size)) =>
        match Absorb(kind, body, c)
        case Err(e) => Err(e)
        case Ok(d) => Ok((d, size))
  }

  /** A length-delimited body replaces bytes, is appended to a repeated field, and is read into a pointer's message. */
  function Absorb(kind: Kind, body: Bytes, c: Content): (r: Result<Content, PbError>)
    requires WellFormedKind(kind) && !kind.Uint32Field? && TypedContent(kind, c)
    ensures r.Ok? ==> TypedContent(kind, r.value)
    decreases |body|, 3, 0
  {
    match kind
    case BytesField => Ok(Blob(body))
    case RepeatedBytes => Ok(Blobs(c.blobs + [body]))
    case RepeatedMessage(of) => (match Decode(of, body, Zero(of))
      case Err(e) => Err(e)
      case Ok(m) => Ok(Messages(c.msgs + [m])))
    case OptionalMessage(of) => (match Decode(of, body, if c.msg == None then Zero(of) else c.msg.value)
      case Err(e) => Err(e)
      case Ok(m) => Ok(Pointer(Some(m))))
  }

  /** Reading bytes into a message that may already hold something. */
  function Decode(s: Schema, data: Bytes, m: Message): (r: Result<Message, PbError>)
    requires WellFormed(s) && Typed(s, m)
    ensures r.Ok? ==> Typed(s, r.value)
    decreases |data|, 2, 0
  {
    if data == [] then Ok(m)
    else match ReadField(s, data, m)
      case Err(e) => Err(e)
      case Ok((next, n)) => Decode(s, data[n..], next)
  }

  /* ---- what follows a field does not matter ---- */

  lemma {:induction false} SkipLocal(a: Bytes, b: Bytes)
    requires a != [] && Skip(a).Ok?
    ensures Skip(a + b) == Skip(a)
    decreases |a|, 1, 0
  {
    ReadVarintLocal(a, b, 10);
    var wire, n := GetVarint(a).value.value, GetVarint(a).value.size;
    assert (a + b)[n..] == a[n..] + b;
    if wire % 8 == 0 || wire % 8 == 2 {
      ReadVarintLocal(a[n..], b, 10);
    } else if wire % 8 == 3 {
      SkipGroupLocal(a, b, n);
    }
  }

  lemma {:induction false} SkipGroupLocal(a: Bytes, b: Bytes, i: nat)
    requires i >= 1 && SkipGroup(a, i).Ok?
    ensures SkipGroup(a + b, i) == SkipGroup(a, i)
    decreases |a|, 0, |a| - i
  {
    assert (a + b)[i..] == a[i..] + b;
    ReadVarintLocal(a[i..], b, 10);
    if GetVarint(a[i..]).value.value % 8 != 4 {
      SkipLocal(a[i..], b);
      SkipGroupLocal(a, b, i + Skip(a[i..]).value);
    }
  }

  lemma DelimitedLocal(a: Bytes, b: Bytes)
    requires Delimited(a).Ok?
    ensures Delimited(a + b) == Delimited(a)
  {
    ReadVarintLocal(a, b, 10);
    var Read(v, n) := GetVarint(a).value;
    assert (a + b)[n..n + ToInt(v)] == a[n..n + ToInt(v)];
  }

  lemma ReadTagLocal(a: Bytes, b: Bytes)
    requires ReadTag(a).Ok?
    ensures ReadTag(a + b) == ReadTag(a)
  {
    ReadVarintLocal(a, b, 10);
  }

  lemma ReadContentLocal(kind: Kind, wireType: nat, a: Bytes, b: Bytes, c: Content)
    requires WellFormedKind(kind) && TypedContent(kind, c) && ReadContent(kind, wireType, a, c).Ok?
    ensures ReadContent(kind, wireType, a + b, c) == ReadContent(kind, wireType, a, c)
  {
    if kind.Uint32Field? {
      ReadVarintLocal(a, b, 10);
    } else {
      DelimitedLocal(a, b);
    }
  }

  lemma ReadFieldLocal(s: Schema, a: Bytes, b: Bytes, m: Message)
    requires WellFormed(s) && Typed(s, m) && a != [] && ReadField(s, a, m).Ok?
    ensures ReadField(s, a + b, m) == ReadField(s, a, m)
  {
    ReadTagLocal(a, b);
    if FieldWith(s, ReadTag(a).value.0, 0) == |s.fields| {
      SkipLocal(a, b);
    } else {
      KnownFieldLocal(s, a, b, m);
    }
  }

  lemma KnownFieldLocal(s: Schema, a: Bytes, b: Bytes, m: Message)
    requires WellFormed(s) && Typed(s, m) && a != [] && ReadField(s, a, m).Ok?
    requires ReadTag(a).Ok? && ReadTag(a + b) == ReadTag(a) && FieldWith(s, ReadTag(a).value.0, 0) < |s.fields|
    ensures ReadField(s, a + b, m) == ReadField(s, a, m)
  {
    var (num, wireType, n) := ReadTag(a).value;
    var k := FieldWith(s, num, 0);
    assert (a + b)[n..] == a[n..] + b;
    ReadContentLocal(s.fields[k].kind, wireType, a[n..], b, m.contents[k]);
  }

  /** The first field of a concatenation. */
  lemma DecodeFirst(s: Schema, a: Bytes, b: Bytes, m: Message) returns (next: Message, n: nat)
    requires WellFormed(s) && Typed(s, m) && Decode(s, a, m).Ok? && a != []
    ensures Typed(s, next) && 1 <= n <= |a| && Decode(s, a, m) == Decode(s, a[n..], next)
    ensures Decode(s, a + b, m) == Decode(s, a[n..] + b, next)
  {
    var field := ReadField(s, a, m).value;
    next, n := field.0, field.1;
    ReadFieldLocal(s, a, b, m);
    assert a + b == a[..n] + (a[n..] + b);
    DecodeStep(s, a[..n], a[n..] + b, m, next);
  }

  /** Reading a concatenation is reading its parts one after the other. */
  lemma {:induction false} DecodeConcat(s: Schema, a: Bytes, b: Bytes, m: Message)
    requires WellFormed(s) && Typed(s, m) && Decode(s, a, m).Ok?
    ensures Decode(s, a + b, m) == Decode(s, b, Decode(s, a, m).value)
    decreases |a|
  {
    if a == [] {
      assert a + b == b;
    } else {
      var next, n := DecodeFirst(s, a, b, m);
      DecodeConcat(s, a[n..], b, next);
    }
  }

  /** Fields that all have numbers the schema does not have. */
  predicate Unknown(s: Schema, data: Bytes) {
    data == [] || (
      && ReadTag(data).Ok? && FieldWith(s, ReadTag(data).value.0, 0) == |s.fields|
      && Skip(data).Ok? && Skip(data).value <= |data| && Unknown(s, data[Skip(data).value..]))
  }

  /** Unknown fields between well-formed parts change nothing. */
  lemma UnknownIgnored(s: Schema, a: Bytes, u: Bytes, b: Bytes, m: Message)
    requires WellFormed(s) && Typed(s, m) && Decode(s, a, m).Ok?
    requires Unknown(s, u)
    ensures Decode(s, a + u + b, m) == Decode(s, a + b, m)
  {
    var after := Decode(s, a, m).value;
    UnknownSkipped(s, u, after);
    DecodeConcat(s, a, u, m);
    DecodeConcat(s, a + u, b, m);
    DecodeConcat(s, a, b, m);
  }

  lemma {:induction false} UnknownSkipped(s: Schema, u: Bytes, m: Message)
    requires WellFormed(s) && Typed(s, m) && Unknown(s, u)
    ensures Decode(s, u, m) == Ok(m)
    decreases |u|
  {
    if u != [] {
      UnknownSkipped(s, u[Skip(u).value..], m);
    }
  }

  /* ---- well-formed fields of any kind ---- */

  /** A field of the wire format; a group holds fields of its own, up to an end tag. */
  datatype Wire =
    | VarintWire(num: nat, value: nat)
    | Fixed64Wire(num: nat, bytes: Bytes)
    | LengthWire(num: nat, bytes: Bytes)
    | GroupWire(num: nat, fields: seq<Wire>)
    | Fixed32Wire(num: nat, bytes: Bytes)

  const EndGroupType: nat := 4

  function WireType(w: Wire): nat {
    match w
    case VarintWire(_, _) => 0
    case Fixed64Wire(_, _) => 1
    case LengthWire(_, _) => 2
    case GroupWire(_, _) => 3
    case Fixed32Wire(_, _) => 5
  }

  /** Field numbers have 29 bits, and every value its width. */
  predicate GoodWire(w: Wire) {
    && 1 <= w.num < 0x2000_0000
    && match w
       case VarintWire(_, value) => value < TwoTo64
       case Fixed64Wire(_, bytes) => |bytes| == 8
       case LengthWire(_, bytes) => |bytes| < TwoTo63
       case GroupWire(_, fields) => forall i :: 0 <= i < |fields| ==> GoodWire(fields[i])
       case Fixed32Wire(_, bytes) => |bytes| == 4
  }

  predicate GoodWires(ws: seq<Wire>) {
    forall i :: 0 <= i < |ws| ==> GoodWire(ws[i])
  }

  function WireTag(w: Wire): Bytes {
    Varint(w.num * 8 + WireType(w))
  }

  function EndTag(num: nat): Bytes {
    Varint(num * 8 + EndGroupType)
  }

  /** The bytes of a field. */
  function WireBytes(w: Wire): Bytes {
    WireTag(w) + match w
      case VarintWire(_, value) => Varint(value)
      case Fixed64Wire(_, bytes) => bytes
      case LengthWire(_, bytes) => Varint(|bytes|) + bytes
      case GroupWire(num, fields) => WiresBytes(fields) + EndTag(num)
      case Fixed32Wire(_, bytes) => bytes
  }

  function WiresBytes(ws: seq<Wire>): Bytes {
    if ws == [] then [] else WireBytes(ws[0]) + WiresBytes(ws[1..])
  }

  /** What a field holds behind its tag. */
  function WireBody(w: Wire): Bytes {
    WireBytes(w)[|WireTag(w)|..]
  }

  /** The tag at the front of a field. */
  lemma TagAtFront(w: Wire, rest: Bytes)
    requires GoodWire(w)
    ensures var data := WireBytes(w) + rest;
      && GetVarint(data) == Ok(Read(w.num * 8 + WireType(w), |WireTag(w)|)) &&
          (w.num * 8 + WireType(w)) % 8 == WireType(w)
      && data[|WireTag(w)|..] == WireBody(w) + rest && |WireBytes(w)| == |WireTag(w)| + |WireBody(w)|
  {
    TagParts(w.num, WireType(w));
    assert WireBytes(w) + rest == WireTag(w) + (WireBody(w) + rest);
    VarintRoundTrip(w.num * 8 + WireType(w), WireBody(w) + rest);
  }

  /** The piece is skipped by exactly its length when this follows, and is no end of a group. */
  predicate SkipsTo(piece: Bytes, rest: Bytes)
    requires piece != []
  {
    var data := piece + rest;
    Skip(data) == Ok(|piece|) && GetVarint(data).Ok? && TypeOf(GetVarint(data).value.value) != EndGroupType
  }

  ghost predicate Skippable(piece: Bytes) {
    piece != [] && forall rest :: SkipsTo(piece, rest)
  }

  function Joined(pieces: seq<Bytes>): Bytes {
    if pieces == [] then [] else pieces[0] + Joined(pieces[1..])
  }

  /** The function tells where the group ends whose next field is at a position. */
  ghost predicate EndsOf(f: nat -> Result<nat, PbError>, data: Bytes) {
    forall k {:trigger Unfold(k)} :: Unfold(k) ==> forall j :: j >= 1 ==> f(j) == SkipGroup(data, j)
  }

  /** The pieces of a group are skipped up to the end tag that belongs to it. */
  lemma {:induction false} SkipPieces(f: nat -> Result<nat, PbError>, data: Bytes, i: nat, pieces: seq<Bytes>, num: nat,
                                      rest: Bytes)
    requires EndsOf(f, data) && 1 <= i <= |data| && data[i..] == Joined(pieces) + (EndTag(num) + rest)
    requires 1 <= num < 0x2000_0000 && forall k :: 0 <= k < |pieces| ==> Skippable(pieces[k])
    ensures f(i) == Ok(i + |Joined(pieces)| + |EndTag(num)|)
    decreases |pieces|
  {
    var tail := EndTag(num) + rest;
    if pieces == [] {
      assert Joined(pieces) + tail == tail;
      GroupEnds(f, data, i, num, rest);
    } else {
      Regroup(pieces[0], Joined(pieces[1..]), tail);
      GroupGoesOn(f, data, i, pieces[0], Joined(pieces[1..]) + tail);
      SkipPieces(f, data, i + |pieces[0]|, pieces[1..], num, rest);
    }
  }

  lemma GroupEnds(f: nat -> Result<nat, PbError>, data: Bytes, i: nat, num: nat, rest: Bytes)
    requires EndsOf(f, data) && 1 <= i <= |data| && data[i..] == EndTag(num) + rest && num < 0x2000_0000
    ensures f(i) == Ok(i + |EndTag(num)|)
  {
    assert Unfold(0);
    TagParts(num, EndGroupType);
    VarintRoundTrip(num * 8 + EndGroupType, rest);
  }

  lemma GroupGoesOn(f: nat -> Result<nat, PbError>, data: Bytes, i: nat, piece: Bytes, after: Bytes)
    requires EndsOf(f, data) && 1 <= i <= |data| && data[i..] == piece + after && Skippable(piece)
    ensures i + |piece| <= |data| && data[i + |piece|..] == after && f(i) == f(i + |piece|)
  {
    assert Unfold(0);
    assert SkipsTo(piece, after);
    assert data[i + |piece|..] == data[i..][|piece|..];
  }

  lemma {:induction false} WiresJoined(ws: seq<Wire>, pieces: seq<Bytes>)
    requires |ws| == |pieces| && forall k :: 0 <= k < |ws| ==> pieces[k] == WireBytes(ws[k])
    ensures WiresBytes(ws) == Joined(pieces)
    decreases |ws|
  {
    if ws != [] {
      WiresJoined(ws[1..], pieces[1..]);
    }
  }

  /** A well-formed field is skipped by exactly its length, whatever follows it. */
  lemma {:induction false} SkipWire(w: Wire, rest: Bytes)
    requires GoodWire(w)
    ensures WireBytes(w) != [] && Skip(WireBytes(w) + rest) == Ok(|WireBytes(w)|)
    decreases w
  {
    TagAtFront(w, rest);
    match w
    case VarintWire(_, value) => VarintRoundTrip(value, rest);
    case LengthWire(_, bytes) => SkipLength(w, rest);
    case GroupWire(_, fields) =>
      forall k | 0 <= k < |fields| ensures Skippable(WireBytes(fields[k])) {
        forall r ensures WireBytes(fields[k]) != [] && SkipsTo(WireBytes(fields[k]), r) {
          SkipWire(fields[k], r);
          TagAtFront(fields[k], r);
        }
      }
      SkipWholeGroup(w, rest);
    case _ =>
  }

  lemma SkipWholeGroup(w: Wire, rest: Bytes)
    requires GoodWire(w) && w.GroupWire?
    requires forall k :: 0 <= k < |w.fields| ==> Skippable(WireBytes(w.fields[k]))
    ensures Skip(WireBytes(w) + rest) == Ok(|WireBytes(w)|)
  {
    var pieces := seq(|w.fields|, k requires 0 <= k < |w.fields| => WireBytes(w.fields[k]));
    var data, n := WireBytes(w) + rest, |WireTag(w)|;
    TagAtFront(w, rest);
    WiresJoined(w.fields, pieces);
    Regroup(Joined(pieces), EndTag(w.num), rest);
    var f := (j: nat) => if j == 0 then Err(UnexpectedEof) else SkipGroup(data, j);
    SkipPieces(f, data, n, pieces, w.num, rest);
    GroupSkips(data, w.num, n, f(n));
  }

  /** Skipping a group goes on behind its tag. */
  lemma GroupSkips(data: Bytes, num: nat, n: nat, end: Result<nat, PbError>)
    requires GetVarint(data) == Ok(Read(num * 8 + 3, n)) && n >= 1 && SkipGroup(data, n) == end
    ensures data != [] && Skip(data) == end
  {
    Eighth(num, 3);
  }

  lemma SkipLength(w: Wire, rest: Bytes)
    requires GoodWire(w) && w.LengthWire?
    ensures Skip(WireBytes(w) + rest) == Ok(|WireBytes(w)|)
  {
    TagAtFront(w, rest);
    LengthBody(w);
    Regroup(Varint(|w.bytes|), w.bytes, rest);
    VarintRoundTrip(|w.bytes|, w.bytes + rest);
  }

  lemma LengthBody(w: Wire)
    requires w.LengthWire?
    ensures WireBody(w) == Varint(|w.bytes|) + w.bytes
  {
  }

  lemma Regroup(a: Bytes, b: Bytes, c: Bytes)
    ensures (a + b) + c == a + (b + c)
  {
  }

  lemma WiresUnfold(ws: seq<Wire>)
    requires ws != []
    ensures WiresBytes(ws) == WireBytes(ws[0]) + WiresBytes(ws[1..])
  {
  }

  /** Well-formed fields whose numbers the schema does not have are unknown fields to the reader. */
  lemma {:induction false} WiresUnknown(s: Schema, ws: seq<Wire>)
    requires GoodWires(ws) && forall i :: 0 <= i < |ws| ==> FieldWith(s, ws[i].num, 0) == |s.fields|
    ensures Unknown(s, WiresBytes(ws))
    decreases |ws|
  {
    if ws != [] {
      var w, rest := ws[0], WiresBytes(ws[1..]);
      WiresUnfold(ws);
      SkipWire(w, rest);
      TagFound(w, rest);
      WiresUnknown(s, ws[1..]);
      UnknownFirst(s, WireBytes(w), rest, w.num);
    }
  }

  lemma TagFound(w: Wire, rest: Bytes)
    requires GoodWire(w)
    ensures ReadTag(WireBytes(w) + rest).Ok? && ReadTag(WireBytes(w) + rest).value.0 == w.num
  {
    TagAtFront(w, rest);
    TagRead(WireBytes(w) + rest, w.num, WireType(w), |WireTag(w)|);
  }

  lemma TagRead(data: Bytes, num: nat, wireType: nat, n: nat)
    requires 1 <= num < 0x2000_0000 && wireType < 8 && wireType != EndGroupType
    requires GetVarint(data) == Ok(Read(num * 8 + wireType, n))
    ensures ReadTag(data) == Ok((num as int, wireType, n))
  {
    TagParts(num, wireType);
  }

  lemma OneByte(b: byte, rest: Bytes)
    requires b < 128
    ensures GetVarint([b] + rest) == Ok(Read(b, 1))
  {
    assert ([b] + rest)[0] == b;
  }

  lemma UnknownFirst(s: Schema, first: Bytes, rest: Bytes, num: nat)
    requires first != [] && Skip(first + rest) == Ok(|first|) && Unknown(s, rest)
    requires ReadTag(first + rest).Ok? && ReadTag(first + rest).value.0 == num && FieldWith(s, num, 0) == |s.fields|
    ensures Unknown(s, first + rest)
  {
    assert (first + rest)[|first|..] == rest;
  }

  /**
   * Fields of numbers that the schema does not have, of any kind and with any groups in them, change nothing wherever
   * they stand.
   */
  lemma WiresIgnored(s: Schema, a: Bytes, ws: seq<Wire>, b: Bytes, m: Message)
    requires WellFormed(s) && Typed(s, m) && Decode(s, a, m).Ok? && GoodWires(ws)
    requires forall i, j :: 0 <= i < |ws| && 0 <= j < |s.fields| ==> ws[i].num != s.fields[j].num
    ensures Decode(s, a + WiresBytes(ws) + b, m) == Decode(s, a + b, m)
  {
    WiresUnknown(s, ws);
    UnknownIgnored(s, a, WiresBytes(ws), b, m);
  }

  /* ---- reading what was written ---- */

  /** What a message becomes when another one is read into it. */
  function Merge(s: Schema, a: Message, b: Message): (r: Message)
    requires Typed(s, a) && Typed(s, b)
    ensures Typed(s, r)
    decreases b
  {
    Message(seq(|s.fields|, i requires 0 <= i < |s.fields| =>
        MergeContent(s.fields[i].kind, a.contents[i], b.contents[i])))
  }

  /** Set fields replace, repeated fields are appended, and messages behind pointers are merged. */
  function MergeContent(kind: Kind, a: Content, b: Content): (r: Content)
    requires TypedContent(kind, a) && TypedContent(kind, b)
    ensures TypedContent(kind, r)
    decreases b
  {
    match kind
    case BytesField => if b.bytes == [] then a else b
    case Uint32Field => if b.n == 0 then a else b
    case RepeatedBytes => Blobs(a.blobs + b.blobs)
    case RepeatedMessage(_) => Messages(a.msgs + b.msgs)
    case OptionalMessage(of) =>
      if b.msg == None then a
      else Pointer(Some(Merge(of, if a.msg == None then Zero(of) else a.msg.value, b.msg.value)))
  }

  /** Reading a message into a new one gives the message itself. */
  lemma {:induction false} MergeZero(s: Schema, m: Message)
    requires Typed(s, m)
    ensures Merge(s, Zero(s), m) == m
    decreases m
  {
    forall i | 0 <= i < |s.fields| ensures Merge(s, Zero(s), m).contents[i] == m.contents[i] {
      if s.fields[i].kind.OptionalMessage? && m.contents[i].msg.Some? {
        MergeZero(s.fields[i].kind.of, m.contents[i].msg.value);
      }
    }
  }

  /** The field of a well-formed schema is found under its number. */
  lemma {:induction false} FieldFound(s: Schema, k: nat, j: nat)
    requires WellFormed(s) && j <= k < |s.fields|
    ensures FieldWith(s, s.fields[k].num, j) == k
    decreases k - j
  {
    if j < k {
      FieldFound(s, k, j + 1);
    }
  }

  lemma ReadsTagBytes(f: Field, rest: Bytes)
    requires WellFormedField(f)
    ensures ReadTag([Tag(f)] + rest) == Ok((f.num, if f.kind.Uint32Field? then VarintType else LengthType, 1))
  {
    var wireType := if f.kind.Uint32Field? then VarintType else LengthType;
    OneByte(Tag(f), rest);
    TagRead([Tag(f)] + rest, f.num, wireType, 1);
  }

  /** A tag leads to its field. */
  lemma ReadsTag(s: Schema, k: nat, rest: Bytes, m: Message, c: Content, size: nat)
    requires WellFormed(s) && Typed(s, m) && k < |s.fields|
    requires var kind := s.fields[k].kind;
      ReadContent(kind, if kind.Uint32Field? then VarintType else LengthType, rest, m.contents[k]) == Ok((c, size))
    ensures ReadField(s, [Tag(s.fields[k])] + rest, m) == Ok((Message(m.contents[k := c]), 1 + size))
  {
    ReadsTagBytes(s.fields[k], rest);
    FieldFound(s, k, 0);
    assert ([Tag(s.fields[k])] + rest)[1..] == rest;
  }

  lemma DecodeStep(s: Schema, a: Bytes, rest: Bytes, m: Message, next: Message)
    requires WellFormed(s) && Typed(s, m) && Typed(s, next) && a != []
    requires ReadField(s, a + rest, m) == Ok((next, |a|))
    ensures Decode(s, a + rest, m) == Decode(s, rest, next)
  {
    assert (a + rest)[|a|..] == rest;
  }

  lemma TypedUpdate(s: Schema, m: Message, k: nat, c: Content)
    requires Typed(s, m) && k < |s.fields| && TypedContent(s.fields[k].kind, c)
    ensures Typed(s, Message(m.contents[k := c]))
  {
  }

  lemma DelimitedAt(data: Bytes, n: nat, body: Bytes)
    requires GetVarint(data) == Ok(Read(|body|, n)) && |body| < TwoTo63
    requires n + |body| <= |data| && data[n..n + |body|] == body
    ensures Delimited(data) == Ok((body, n + |body|))
  {
    assert ToInt(|body|) == |body|;
  }

  lemma Middle(a: Bytes, b: Bytes, c: Bytes)
    ensures (a + (b + c))[|a|..|a| + |b|] == b
  {
  }

  lemma ReadsBody(body: Bytes, rest: Bytes)
    requires |body| < TwoTo63
    ensures Delimited(Varint(|body|) + (body + rest)) == Ok((body, |Varint(|body|)| + |body|))
  {
    VarintRoundTrip(|body|, body + rest);
    Middle(Varint(|body|), body, rest);
    DelimitedAt(Varint(|body|) + (body + rest), |Varint(|body|)|, body);
  }

  lemma RecordSplit(f: Field, body: Bytes, rest: Bytes)
    requires WellFormedField(f)
    ensures Record(f, body) + rest == [Tag(f)] + (Varint(|body|) + (body + rest))
    ensures |Record(f, body)| == 1 + (|Varint(|body|)| + |body|)
  {
  }

  /** A record is absorbed by its field. */
  lemma ReadsRecord(s: Schema, k: nat, body: Bytes, rest: Bytes, m: Message, d: Content)
    requires WellFormed(s) && Typed(s, m) && k < |s.fields| && !s.fields[k].kind.Uint32Field? && |body| < TwoTo63
    requires TypedContent(s.fields[k].kind, d) && Absorb(s.fields[k].kind, body, m.contents[k]) == Ok(d)
    ensures Typed(s, Message(m.contents[k := d]))
    ensures Decode(s, Record(s.fields[k], body) + rest, m) == Decode(s, rest, Message(m.contents[k := d]))
  {
    TypedUpdate(s, m, k, d);
    ReadsBody(body, rest);
    RecordSplit(s.fields[k], body, rest);
    ReadsTag(s, k, Varint(|body|) + (body + rest), m, d, |Varint(|body|)| + |body|);
    DecodeStep(s, Record(s.fields[k], body), rest, m, Message(m.contents[k := d]));
  }

  lemma ReadsValue(kind: Kind, v: nat, rest: Bytes, c: Content)
    requires kind.Uint32Field? && TypedContent(kind, c) && v < TwoTo32
    ensures ReadContent(kind, VarintType, Varint(v) + rest, c) == Ok((Number(v), |Varint(v)|))
  {
    VarintRoundTrip(v, rest);
  }

  lemma ReadsNumber(s: Schema, k: nat, v: nat, rest: Bytes, m: Message)
    requires WellFormed(s) && Typed(s, m) && k < |s.fields| && s.fields[k].kind.Uint32Field? && v < TwoTo32
    ensures Typed(s, Message(m.contents[k := Number(v)]))
    ensures Decode(s, [Tag(s.fields[k])] + Varint(v) + rest, m) == Decode(s, rest, Message(m.contents[k := Number(v)]))
  {
    var f := s.fields[k];
    var after := Varint(v) + rest;
    ReadsValue(f.kind, v, rest, m.contents[k]);
    TypedUpdate(s, m, k, Number(v));
    ReadsTag(s, k, after, m, Number(v), |Varint(v)|);
    var piece := [Tag(f)] + Varint(v);
    assert piece + rest == [Tag(f)] + after;
    DecodeStep(s, piece, rest, m, Message(m.contents[k := Number(v)]));
  }

  lemma {:induction false} RecordsBound(f: Field, bodies: seq<Bytes>)
    requires WellFormedField(f)
    ensures forall i :: 0 <= i < |bodies| ==> |bodies[i]| <= |Records(f, bodies)|
  {
    if bodies != [] {
      RecordsBound(f, bodies[1..]);
      assert forall i :: 1 <= i < |bodies| ==> bodies[i] == bodies[1..][i - 1];
    }
  }

  /** Records of a repeated field whose bodies read as the given items. */
  ghost predicate ReadAs(kind: Kind, bodies: seq<Bytes>, c: Content)
    requires WellFormedKind(kind) && TypedContent(kind, c)
  {
    match kind
    case RepeatedBytes => c.blobs == bodies
    case RepeatedMessage(of) =>
      |c.msgs| == |bodies| && forall i :: 0 <= i < |bodies| ==> Decode(of, bodies[i], Zero(of)) == Ok(c.msgs[i])
    case _ => false
  }

  function Rest(c: Content): Content
    requires (c.Blobs? && c.blobs != []) || (c.Messages? && c.msgs != [])
  {
    if c.Blobs? then Blobs(c.blobs[1..]) else Messages(c.msgs[1..])
  }

  /** Absorbing the first body and then merging the rest is merging them all. */
  lemma AbsorbFirst(kind: Kind, bodies: seq<Bytes>, a: Content, c: Content) returns (d: Content)
    requires WellFormedKind(kind) && TypedContent(kind, a)
    requires TypedContent(kind, c) && ReadAs(kind, bodies, c) && bodies != []
    ensures TypedContent(kind, d) && Absorb(kind, bodies[0], a) == Ok(d)
    ensures TypedContent(kind, Rest(c)) && ReadAs(kind, bodies[1..], Rest(c))
    ensures MergeContent(kind, d, Rest(c)) == MergeContent(kind, a, c)
  {
    d := Absorb(kind, bodies[0], a).value;
    if kind.RepeatedBytes? {
      assert a.blobs + [bodies[0]] + bodies[1..] == a.blobs + bodies;
    } else {
      assert a.msgs + [c.msgs[0]] + c.msgs[1..] == a.msgs + c.msgs;
    }
  }

  lemma NothingMerged(kind: Kind, bodies: seq<Bytes>, a: Content, c: Content)
    requires WellFormedKind(kind) && TypedContent(kind, a)
    requires TypedContent(kind, c) && ReadAs(kind, bodies, c) && bodies == []
    ensures MergeContent(kind, a, c) == a
  {
    if kind.RepeatedBytes? {
      assert a.blobs + c.blobs == a.blobs;
    } else {
      assert a.msgs + c.msgs == a.msgs;
    }
  }

  lemma {:induction false} ReadsRecords(s: Schema, k: nat, bodies: seq<Bytes>, c: Content, rest: Bytes, m: Message)
    requires WellFormed(s) && Typed(s, m) && k < |s.fields| && TypedContent(s.fields[k].kind, c)
    requires ReadAs(s.fields[k].kind, bodies, c) && forall i :: 0 <= i < |bodies| ==> |bodies[i]| < TwoTo63
    ensures Decode(s, Records(s.fields[k], bodies) + rest, m)
      == Decode(s, rest, Message(m.contents[k := MergeContent(s.fields[k].kind, m.contents[k], c)]))
    decreases |bodies|
  {
    var f := s.fields[k];
    if bodies == [] {
      NothingMerged(f.kind, bodies, m.contents[k], c);
      assert m.contents[k := m.contents[k]] == m.contents;
      assert Records(f, bodies) + rest == rest;
    } else {
      var d := FirstRecord(s, k, bodies, c, rest, m);
      ReadsRecords(s, k, bodies[1..], Rest(c), rest, Message(m.contents[k := d]));
      assert m.contents[k := d][k := MergeContent(f.kind, d, Rest(c))] ==
          m.contents[k := MergeContent(f.kind, m.contents[k], c)];
    }
  }

  /** The first of some records. */
  lemma FirstRecord(s: Schema, k: nat, bodies: seq<Bytes>, c: Content, rest: Bytes, m: Message) returns (d: Content)
    requires WellFormed(s) && Typed(s, m) && k < |s.fields| && TypedContent(s.fields[k].kind, c)
    requires ReadAs(s.fields[k].kind, bodies, c) && bodies != [] && |bodies[0]| < TwoTo63
    ensures TypedContent(s.fields[k].kind, d) && Typed(s, Message(m.contents[k := d]))
    ensures TypedContent(s.fields[k].kind, Rest(c)) && ReadAs(s.fields[k].kind, bodies[1..], Rest(c))
    ensures MergeContent(s.fields[k].kind, d, Rest(c)) == MergeContent(s.fields[k].kind, m.contents[k], c)
    ensures Decode(s, Records(s.fields[k], bodies) + rest, m) ==
      Decode(s, Records(s.fields[k], bodies[1..]) + rest, Message(m.contents[k := d]))
  {
    var f := s.fields[k];
    var after := Records(f, bodies[1..]) + rest;
    d := AbsorbFirst(f.kind, bodies, m.contents[k], c);
    ReadsRecord(s, k, bodies[0], after, m, d);
    assert Records(f, bodies) + rest == Record(f, bodies[0]) + after;
  }

  /** The fields before k merged, the others not yet. */
  function MergedTo(s: Schema, a: Message, b: Message, k: nat): (r: Message)
    requires Typed(s, a) && Typed(s, b) && k <= |s.fields|
    ensures Typed(s, r)
  {
    Message(Merge(s, a, b).contents[..k] + a.contents[k..])
  }

  lemma MergedStep(s: Schema, a: Message, b: Message, k: nat)
    requires Typed(s, a) && Typed(s, b) && k < |s.fields|
    ensures var cur := MergedTo(s, a, b, k);
      Message(cur.contents[k := MergeContent(s.fields[k].kind, cur.contents[k], b.contents[k])]) ==
          MergedTo(s, a, b, k + 1)
  {
  }

  /** Reading the bytes of a field's value, followed by anything, merges the value into the field. */
  lemma {:induction false} ReadsContent(s: Schema, k: nat, c: Content, rest: Bytes, m: Message)
    requires WellFormed(s) && Typed(s, m) && k < |s.fields| && TypedContent(s.fields[k].kind, c)
    requires |EncodeContent(s.fields[k], c)| < TwoTo63
    ensures Decode(s, EncodeContent(s.fields[k], c) + rest, m)
      == Decode(s, rest, Message(m.contents[k := MergeContent(s.fields[k].kind, m.contents[k], c)]))
    decreases c, 1, 0
  {
    var f, a := s.fields[k], m.contents[k];
    var bytes := EncodeContent(f, c);
    if bytes == [] {
      EmptyContent(f, a, c);
      assert bytes + rest == rest && m.contents[k := a] == m.contents;
    } else {
      match f.kind
      case BytesField => ReadsRecord(s, k, c.bytes, rest, m, c);
      case Uint32Field => ReadsNumber(s, k, c.n, rest, m);
      case RepeatedBytes =>
        RecordsBound(f, c.blobs);
        ReadsRecords(s, k, c.blobs, c, rest, m);
      case RepeatedMessage(of) =>
        RecordsBound(f, EncodeEach(f, c));
        EachReads(f, c);
        ReadsRecords(s, k, EncodeEach(f, c), c, rest, m);
      case OptionalMessage(of) =>
        var start := if a.msg == None then Zero(of) else a.msg.value;
        DecodeEncode(of, c.msg.value, start);
        ReadsRecord(s, k, Encode(of, c.msg.value), rest, m, MergeContent(f.kind, a, c));
    }
  }

  lemma EmptyContent(f: Field, a: Content, c: Content)
    requires WellFormedField(f) && TypedContent(f.kind, a) && TypedContent(f.kind, c) && EncodeContent(f, c) == []
    ensures MergeContent(f.kind, a, c) == a
  {
  }

  lemma {:induction false} EachReads(f: Field, c: Content)
    requires WellFormedField(f) && f.kind.RepeatedMessage? && TypedContent(f.kind, c)
    requires |Records(f, EncodeEach(f, c))| < TwoTo63
    ensures ReadAs(f.kind, EncodeEach(f, c), c)
    decreases c, 0, 0
  {
    RecordsBound(f, EncodeEach(f, c));
    forall i | 0 <= i < |c.msgs| ensures Decode(f.kind.of, EncodeEach(f, c)[i], Zero(f.kind.of)) == Ok(c.msgs[i]) {
      assert EncodeEach(f, c)[i] == Encode(f.kind.of, c.msgs[i]);
      DecodeEncode(f.kind.of, c.msgs[i], Zero(f.kind.of));
      MergeZero(f.kind.of, c.msgs[i]);
    }
  }

  lemma {:induction false} ReadsFrom(s: Schema, m: Message, base: Message, k: nat)
    requires WellFormed(s) && Typed(s, m) && Typed(s, base) && k <= |s.fields| && |EncodeFrom(s, m, k)| < TwoTo63
    ensures Decode(s, EncodeFrom(s, m, k), MergedTo(s, base, m, k)) == Ok(Merge(s, base, m))
    decreases m, 0, |s.fields| - k
  {
    var cur := MergedTo(s, base, m, k);
    if k == |s.fields| {
      assert cur == Merge(s, base, m);
    } else {
      MergedStep(s, base, m, k);
      ReadsContent(s, k, m.contents[k], EncodeFrom(s, m, k + 1), cur);
      ReadsFrom(s, m, base, k + 1);
    }
  }

  /** Reading the bytes of a message into another one merges the two. */
  lemma {:induction false} DecodeEncode(s: Schema, m: Message, base: Message)
    requires WellFormed(s) && Typed(s, m) && Typed(s, base) && |Encode(s, m)| < TwoTo63
    ensures Decode(s, Encode(s, m), base) == Ok(Merge(s, base, m))
    decreases m, 1, 0
  {
    ReadsFrom(s, m, base, 0);
    assert MergedTo(s, base, m, 0) == base;
  }

  /** Every message is read back from its bytes into a new message. */
  lemma RoundTrip(s: Schema, m: Message)
    requires WellFormed(s) && Typed(s, m) && |Encode(s, m)| < TwoTo63
    ensures Decode(s, Encode(s, m), Zero(s)) == Ok(m)
  {
    DecodeEncode(s, m, Zero(s));
    MergeZero(s, m);
  }

  /** The bytes of two messages one after the other read as their merge, wherever unknown fields stand. */
  lemma ConcatMerges(s: Schema, a: Message, u: Bytes, b: Message)
    requires WellFormed(s) && Typed(s, a) && Typed(s, b) && |Encode(s, a)| < TwoTo63 && |Encode(s, b)| < TwoTo63
    requires Unknown(s, u)
    ensures Decode(s, Encode(s, a) + u + Encode(s, b), Zero(s)) == Ok(Merge(s, a, b))
  {
    RoundTrip(s, a);
    UnknownIgnored(s, Encode(s, a), u, Encode(s, b), Zero(s));
    DecodeConcat(s, Encode(s, a), Encode(s, b), Zero(s));
    DecodeEncode(s, b, a);
  }
}
