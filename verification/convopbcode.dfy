/**
 * The generated functions on buffers: Size, MarshalTo, Unmarshal and skipMixnet. What the generated
 * code unrolls field by field for each message is here a loop over the message's schema.
 */
module ConvopbCode {
  import opened Base
  import opened Varints
  import opened Convopb

  /* ---- Size ---- */

  method Size(s: Schema, m: Message) returns (n: nat)
    requires WellFormed(s) && Typed(s, m)
    ensures n == |Encode(s, m)|
    decreases m, 1, 0
  {
    n := 0;
    for k := 0 to |s.fields|
      invariant n + |EncodeFrom(s, m, k)| == |Encode(s, m)|
    {
      var l := SizeOfField(s.fields[k], m.contents[k]);
      n := n + l;
    }
  }

  method SizeOfField(f: Field, c: Content) returns (n: nat)
    requires WellFormedField(f) && TypedContent(f.kind, c)
    ensures n == |EncodeContent(f, c)|
    decreases c, 1, 0
  {
    n := 0;
    match f.kind
    case BytesField =>
      var l := |c.bytes|;
      if l > 0 {
        var sov := SovMixnet(l);
        n := 1 + l + sov;
      }
    case Uint32Field =>
      if c.n != 0 {
        var sov := SovMixnet(c.n);
        n := 1 + sov;
      }
    case RepeatedBytes =>
      for i := 0 to |c.blobs|
        invariant n + |Records(f, c.blobs[i..])| == |Records(f, c.blobs)|
      {
        RecordsFrom(f, c.blobs, i);
        var l := |c.blobs[i]|;
        var sov := SovMixnet(l);
        n := n + 1 + l + sov;
      }
    case RepeatedMessage(of) =>
      ghost var bodies := EncodeEach(f, c);
      for i := 0 to |c.msgs|
        invariant n + |Records(f, bodies[i..])| == |Records(f, bodies)|
      {
        RecordsFrom(f, bodies, i);
        var l := Size(of, c.msgs[i]);
        var sov := SovMixnet(l);
        n := n + 1 + l + sov;
      }
    case OptionalMessage(of) =>
      if c.msg != None {
        var l := Size(of, c.msg.value);
        var sov := SovMixnet(l);
        n := 1 + l + sov;
      }
  }

  lemma RecordsFrom(f: Field, bodies: seq<Bytes>, i: nat)
    requires WellFormedField(f) && i < |bodies|
    ensures Records(f, bodies[i..]) == Record(f, bodies[i]) + Records(f, bodies[i + 1..])
  {
    assert bodies[i..][1..] == bodies[i + 1..];
  }

  /* ---- MarshalTo ---- */

  method Copy(a: array<byte>, i: nat, src: Bytes) returns (end: nat)
    requires i + |src| <= a.Length
    modifies a
    ensures end == i + |src| && a[..] == Written(old(a[..]), i, src)
  {
    forall j | 0 <= j < |src| {
      a[i + j] := src[j];
    }
    end := i + |src|;
  }

  /** Writes a tag and a varint, the value of a number field or the length of what follows. */
  method PutHead(f: Field, v: nat, a: array<byte>, i: nat) returns (end: nat)
    requires WellFormedField(f) && i + 1 + |Varint(v)| <= a.Length
    modifies a
    ensures end == i + 1 + |Varint(v)| && a[..] == Written(old(a[..]), i, [Tag(f)] + Varint(v))
  {
    ghost var was := a[..];
    a[i] := Tag(f);
    assert a[..] == Written(was, i, [Tag(f)]);
    end := EncodeVarintMixnet(a, i + 1, v);
    WrittenOn(was, i, [Tag(f)], Varint(v));
  }

  method PutRecord(f: Field, body: Bytes, a: array<byte>, i: nat) returns (end: nat)
    requires WellFormedField(f) && i + |Record(f, body)| <= a.Length
    modifies a
    ensures end == i + |Record(f, body)| && a[..] == Written(old(a[..]), i, Record(f, body))
  {
    ghost var was := a[..];
    var j := PutHead(f, |body|, a, i);
    end := Copy(a, j, body);
    WrittenOn(was, i, [Tag(f)] + Varint(|body|), body);
  }

  /** A record whose body is a message, written in place after its length. */
  method PutMessage(f: Field, s: Schema, m: Message, a: array<byte>, i: nat) returns (end: nat)
    requires WellFormedField(f) && WellFormed(s) && Typed(s, m) && i + |Record(f, Encode(s, m))| <= a.Length
    modifies a
    ensures end == i + |Record(f, Encode(s, m))| && a[..] == Written(old(a[..]), i, Record(f, Encode(s, m)))
    decreases m, 2, 0
  {
    ghost var was := a[..];
    var l := Size(s, m);
    ghost var head, body := [Tag(f)] + Varint(l), Encode(s, m);
    assert Record(f, body) == head + body;
    var j := PutHead(f, l, a, i);
    assert a[..] == Written(was, i, head) && j == i + |head|;
    var n := MarshalTo(s, m, a, j);
    WrittenOn(was, i, head, body);
    end := j + n;
  }

  /** The fields before k have been encoded. */
  ghost predicate EncodedTo(s: Schema, m: Message, k: nat, done: Bytes)
    requires WellFormed(s) && Typed(s, m) && k <= |s.fields|
  {
    done + EncodeFrom(s, m, k) == Encode(s, m)
  }

  lemma EncodedOn(s: Schema, m: Message, k: nat, done: Bytes)
    requires WellFormed(s) && Typed(s, m) && k < |s.fields| && EncodedTo(s, m, k, done)
    ensures var piece := EncodeContent(s.fields[k], m.contents[k]);
      |done| + |piece| <= |Encode(s, m)| && EncodedTo(s, m, k + 1, done + piece)
  {
    assert EncodeFrom(s, m, k) == EncodeContent(s.fields[k], m.contents[k]) + EncodeFrom(s, m, k + 1);
  }

  /** Writes the message from a position on, and nothing else; it returns the number of bytes. */
  method MarshalTo(s: Schema, m: Message, a: array<byte>, base: nat) returns (n: nat)
    requires WellFormed(s) && Typed(s, m) && base + |Encode(s, m)| <= a.Length
    modifies a
    ensures n == |Encode(s, m)| && a[..] == Written(old(a[..]), base, Encode(s, m))
    decreases m, 1, 0
  {
    ghost var was := a[..];
    ghost var done: Bytes := [];
    var i := base;
    assert a[..] == Written(was, base, done);
    for k := 0 to |s.fields|
      invariant i == base + |done| <= a.Length && EncodedTo(s, m, k, done)
      invariant a[..] == Written(was, base, done)
    {
      ghost var piece := EncodeContent(s.fields[k], m.contents[k]);
      EncodedOn(s, m, k, done);
      i := MarshalField(s.fields[k], m.contents[k], a, i);
      WrittenOn(was, base, done, piece);
      done := done + piece;
    }
    assert done == Encode(s, m);
    n := i - base;
  }

  method MarshalField(f: Field, c: Content, a: array<byte>, base: nat) returns (i: nat)
    requires WellFormedField(f) && TypedContent(f.kind, c) && base + |EncodeContent(f, c)| <= a.Length
    modifies a
    ensures i == base + |EncodeContent(f, c)| && a[..] == Written(old(a[..]), base, EncodeContent(f, c))
    decreases c, 1, 0
  {
    i := base;
    assert a[..] == Written(a[..], base, []);
    match f.kind
    case BytesField =>
      if |c.bytes| > 0 {
        i := PutRecord(f, c.bytes, a, i);
      }
    case Uint32Field =>
      if c.n != 0 {
        i := PutHead(f, c.n, a, i);
      }
    case RepeatedBytes => i := MarshalBlobs(f, c.blobs, a, i);
    case RepeatedMessage(_) => i := MarshalMessages(f, c, a, i);
    case OptionalMessage(of) =>
      if c.msg != None {
        i := PutMessage(f, of, c.msg.value, a, i);
      }
  }

  /** The records before k have been written. */
  ghost predicate RecordedTo(f: Field, bodies: seq<Bytes>, k: nat, done: Bytes)
    requires WellFormedField(f) && k <= |bodies|
  {
    done + Records(f, bodies[k..]) == Records(f, bodies)
  }

  lemma RecordedOn(f: Field, bodies: seq<Bytes>, k: nat, done: Bytes)
    requires WellFormedField(f) && k < |bodies| && RecordedTo(f, bodies, k, done)
    ensures |done| + |Record(f, bodies[k])| <= |Records(f, bodies)|
    ensures RecordedTo(f, bodies, k + 1, done + Record(f, bodies[k]))
  {
    RecordsFrom(f, bodies, k);
    assert done + Records(f, bodies[k..]) == done + Record(f, bodies[k]) + Records(f, bodies[k + 1..]);
  }

  lemma RecordedAll(f: Field, bodies: seq<Bytes>, done: Bytes)
    requires WellFormedField(f)
    ensures RecordedTo(f, bodies, 0, [])
    ensures RecordedTo(f, bodies, |bodies|, done) ==> done == Records(f, bodies)
  {
    assert bodies[0..] == bodies && [] + Records(f, bodies) == Records(f, bodies);
    assert done + [] == done;
  }

  method MarshalBlobs(f: Field, blobs: seq<Bytes>, a: array<byte>, base: nat) returns (i: nat)
    requires WellFormedField(f) && base + |Records(f, blobs)| <= a.Length
    modifies a
    ensures i == base + |Records(f, blobs)| && a[..] == Written(old(a[..]), base, Records(f, blobs))
  {
    ghost var was := a[..];
    ghost var done: Bytes := [];
    i := base;
    assert a[..] == Written(was, base, done);
    RecordedAll(f, blobs, []);
    for k := 0 to |blobs|
      invariant i == base + |done| && RecordedTo(f, blobs, k, done)
      invariant a[..] == Written(was, base, done)
    {
      RecordedOn(f, blobs, k, done);
      i := PutRecord(f, blobs[k], a, i);
      WrittenOn(was, base, done, Record(f, blobs[k]));
      done := done + Record(f, blobs[k]);
    }
    RecordedAll(f, blobs, done);
  }

  method MarshalMessages(f: Field, c: Content, a: array<byte>, base: nat) returns (i: nat)
    requires WellFormedField(f) && f.kind.RepeatedMessage? && TypedContent(f.kind, c)
    requires base + |Records(f, EncodeEach(f, c))| <= a.Length
    modifies a
    ensures i == base + |Records(f, EncodeEach(f, c))|
    ensures a[..] == Written(old(a[..]), base, Records(f, EncodeEach(f, c)))
    decreases c, 0, 0
  {
    ghost var bodies := EncodeEach(f, c);
    ghost var was := a[..];
    ghost var done: Bytes := [];
    i := base;
    assert a[..] == Written(was, base, done);
    RecordedAll(f, bodies, []);
    for k := 0 to |c.msgs|
      invariant i == base + |done| && RecordedTo(f, bodies, k, done)
      invariant a[..] == Written(was, base, done)
    {
      RecordedOn(f, bodies, k, done);
      i := PutMessage(f, f.kind.of, c.msgs[k], a, i);
      ghost var record := Record(f, bodies[k]);
      WrittenOn(was, base, done, record);
      done := done + record;
    }
    RecordedAll(f, bodies, done);
  }

  /** A new buffer that holds the message and nothing more. */
  method Marshal(s: Schema, m: Message) returns (data: array<byte>)
    requires WellFormed(s) && Typed(s, m)
    ensures fresh(data) && data[..] == Encode(s, m)
  {
    var size := Size(s, m);
    data := new byte[size](_ => 0);
    var n := MarshalTo(s, m, data, 0);
    assert n == size;
  }

  /* ---- reading ---- */

  /** Skips a field. The code's loop returns in its first round, so it is an if here, and its end is never reached. */
  method SkipMixnet(data: Bytes) returns (r: Result<nat, PbError>)
    requires data != []
    ensures r == Skip(data)
    decreases |data|, 1, 0
  {
    var l, iNdEx := |data|, 0;
    if iNdEx < l {
      assert data[0..] == data;
      var wire := ReadVarintAt(data, iNdEx);
      if wire.Err? {
        return Err(wire.error);
      }
      iNdEx := wire.value.size;
      match wire.value.value % 8 {
        case 0 =>
          var v := ReadVarintAt(data, iNdEx);
          return if v.Err? then Err(v.error) else Ok(iNdEx + v.value.size);
        case 1 =>
          return Ok(iNdEx + 8);
        case 2 =>
          var v := ReadVarintAt(data, iNdEx);
          if v.Err? {
            return Err(v.error);
          }
          var length := ToInt(v.value.value);
          if length < 0 {
            return Err(InvalidLength);
          }
          return Ok(iNdEx + v.value.size + length);
        case 3 =>
          r := SkipToGroupEnd(data, iNdEx);
          return;
        case 4 =>
          return Ok(iNdEx);
        case 5 =>
          return Ok(iNdEx + 4);
        case _ =>
          return Err(IllegalWireType);
      }
    }
    assert false;
  }

  /** Skips the fields of a group up to and with its end tag. */
  method SkipToGroupEnd(data: Bytes, from: nat) returns (r: Result<nat, PbError>)
    requires from >= 1
    ensures r == SkipGroup(data, from)
    decreases |data|, 0, 0
  {
    var iNdEx := from;
    while true
      invariant iNdEx >= 1 && SkipGroup(data, iNdEx) == SkipGroup(data, from)
      decreases |data| - iNdEx
    {
      var start := iNdEx;
      if iNdEx >= |data| {
        return Err(UnexpectedEof);
      }
      var inner := ReadVarintAt(data, iNdEx);
      if inner.Err? {
        return Err(inner.error);
      }
      iNdEx := iNdEx + inner.value.size;
      if inner.value.value % 8 == 4 {
        return Ok(iNdEx);
      }
      var next := SkipMixnet(data[start..]);
      if next.Err? {
        return Err(next.error);
      }
      iNdEx := start + next.value;
    }
  }

  /** Reads the bytes into a message, field by field. */
  method Unmarshal(s: Schema, data: Bytes, start: Message) returns (r: Result<Message, PbError>)
    requires WellFormed(s) && Typed(s, start)
    ensures r == Decode(s, data, start)
    decreases |data|, 1, 0
  {
    var l, iNdEx, m := |data|, 0, start;
    assert data[0..] == data;
    while iNdEx < l
      invariant 0 <= iNdEx <= l && Typed(s, m)
      invariant Decode(s, data[iNdEx..], m) == Decode(s, data, start)
    {
      var field := UnmarshalField(s, data, iNdEx, m);
      if field.Err? {
        return Err(field.error);
      }
      assert data[iNdEx..][field.value.1..] == data[iNdEx + field.value.1..];
      m, iNdEx := field.value.0, iNdEx + field.value.1;
    }
    return Ok(m);
  }

  /** One round of the reader's loop: the message with the field, and the field's size. */
  method UnmarshalField(s: Schema, data: Bytes, preIndex: nat, m: Message) returns (r: Result<(Message, nat), PbError>)
    requires WellFormed(s) && Typed(s, m) && preIndex < |data|
    ensures r == ReadField(s, data[preIndex..], m)
    decreases |data|, 0, 1
  {
    var tag := ReadVarintAt(data, preIndex);
    if tag.Err? {
      return Err(tag.error);
    }
    var Read(wire, n) := tag.value;
    var fieldNum, wireType := FieldNumber(wire), TypeOf(wire);
    if wireType == 4 {
      return Err(EndGroup);
    }
    if fieldNum <= 0 {
      return Err(IllegalTag);
    }
    var k := FieldWith(s, fieldNum, 0);
    if k == |s.fields| {
      var skippy := SkipMixnet(data[preIndex..]);
      if skippy.Err? {
        return Err(skippy.error);
      }
      if preIndex + skippy.value > |data| {
        return Err(UnexpectedEof);
      }
      return Ok((m, skippy.value));
    }
    assert data[preIndex..][n..] == data[preIndex + n..];
    var known := UnmarshalContent(s.fields[k].kind, wireType, data, preIndex + n, m.contents[k]);
    if known.Err? {
      return Err(known.error);
    }
    return Ok((Message(m.contents[k := known.value.0]), n + known.value.1));
  }

  /** The value of a known field, whose tag ends at position i. */
  method UnmarshalContent(kind: Kind, wireType: nat, data: Bytes, i: nat, c: Content)
    returns (r: Result<(Content, nat), PbError>)
    requires WellFormedKind(kind) && TypedContent(kind, c) && 1 <= i <= |data|
    ensures r == ReadContent(kind, wireType, data[i..], c)
    decreases |data|, 0, 0
  {
    if kind.Uint32Field? {
      if wireType != VarintType {
        return Err(WrongWireType);
      }
      var v := ReadVarintAt(data, i);
      return if v.Err? then Err(v.error) else Ok((Number(v.value.value % TwoTo32), v.value.size));
    }
    if wireType != LengthType {
      return Err(WrongWireType);
    }
    var v := ReadVarintAt(data, i);
    if v.Err? {
      return Err(v.error);
    }
    var Read(len, n) := v.value;
    var length := ToInt(len);
    if length < 0 {
      return Err(InvalidLength);
    }
    var postIndex := i + n + length;
    if postIndex > |data| {
      return Err(UnexpectedEof);
    }
    var body := data[i + n..postIndex];
    assert body == data[i..][n..n + length];
    match kind {
      case BytesField => return Ok((Blob(body), n + length));
      case RepeatedBytes => return Ok((Blobs(c.blobs + [body]), n + length));
      case RepeatedMessage(of) =>
        var m := Unmarshal(of, body, Zero(of));
        return if m.Err? then Err(m.error) else Ok((Messages(c.msgs + [m.value]), n + length));
      case OptionalMessage(of) =>
        var m := Unmarshal(of, body, if c.msg == None then Zero(of) else c.msg.value);
        return if m.Err? then Err(m.error) else Ok((Pointer(Some(m.value)), n + length));
    }
  }

  /** Marshalling a message and unmarshalling the buffer into a new message gives the message back. */
  method MarshalUnmarshal(s: Schema, m: Message) returns (r: Result<Message, PbError>)
    requires WellFormed(s) && Typed(s, m) && |Encode(s, m)| < TwoTo63
    ensures r == Ok(m)
  {
    var data := Marshal(s, m);
    RoundTrip(s, m);
    r := Unmarshal(s, data[..], Zero(s));
  }

  /* ---- the messages ---- */

  const NothingSchema := Schema([])
  const NewRoundRequest := Schema([Field(1, BytesField), Field(2, Uint32Field),
      Field(3, RepeatedMessage(PublicServerConfig))])
  const PublicServerConfig := Schema([Field(1, BytesField), Field(2, BytesField)])
  const NewRoundResponse := Schema([Field(1, BytesField)])
  const RoundSettings := Schema([Field(1, BytesField), Field(2, Uint32Field), Field(3, RepeatedBytes),
      Field(4, BytesField)])
  const SetRoundSettingsRequest := Schema([Field(1, OptionalMessage(RoundSettings))])
  const RoundSettingsSignature := Schema([Field(1, BytesField)])
  const AddOnionsRequest := Schema([Field(1, Uint32Field), Field(2, RepeatedBytes)])
  const CloseRoundRequest := Schema([Field(1, BytesField), Field(2, Uint32Field)])
  const CloseRoundResponse := Schema([Field(1, BytesField)])
  const GetOnionsRequest := Schema([Field(1, BytesField), Field(2, Uint32Field), Field(3, Uint32Field),
      Field(4, Uint32Field)])
  const GetOnionsResponse := Schema([Field(1, Uint32Field), Field(2, RepeatedBytes)])
  const DeleteRoundRequest := Schema([Field(1, BytesField), Field(2, Uint32Field)])

  const MixnetSchemas := [
    NothingSchema, NewRoundRequest, PublicServerConfig, NewRoundResponse, RoundSettings, SetRoundSettingsRequest,
    RoundSettingsSignature, AddOnionsRequest, CloseRoundRequest, CloseRoundResponse, GetOnionsRequest,
    GetOnionsResponse, DeleteRoundRequest]

  lemma Numbered(s: Schema)
    requires |s.fields| <= 15 && forall i :: 0 <= i < |s.fields| ==>
      s.fields[i].num == i + 1 && WellFormedKind(s.fields[i].kind)
    ensures WellFormed(s)
  {
  }

  lemma SchemasWellFormed(s: Schema)
    requires s in MixnetSchemas
    ensures WellFormed(s)
  {
    Numbered(PublicServerConfig);
    Numbered(RoundSettings);
    Numbered(s);
  }

  /** Every message of the mixnet protocol is read back from what it is written as. */
  lemma MixnetMessages(s: Schema, m: Message)
    requires s in MixnetSchemas && Typed(s, m)
    ensures WellFormed(s)
    ensures |Encode(s, m)| < TwoTo63 ==> Decode(s, Encode(s, m), Zero(s)) == Ok(m)
  {
    SchemasWellFormed(s);
    if |Encode(s, m)| < TwoTo63 {
      RoundTrip(s, m);
    }
  }
}
