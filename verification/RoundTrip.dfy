/**
 The codec's two round trips. Writing then reading returns the message exactly when
 the message is well formed; reading then writing then reading returns what was read.
 Both rest on the lengths: what is written is as long as the length accounting says,
 and rewriting what was read at most triples it.
 */
module RoundTrip {
  import opened Wrappers
  import opened Octets
  import opened Utf8
  import opened Messages

  // ---- what a message must be to survive the wire ---------------------

  /** An attribute the wire can name, with groups at most `room` deep. */
  predicate WellFormedAttribute(a: Attribute, room: nat)
    decreases a, 1
  {
    match a
    case ErrorCode(Other(v), _) => !(1 <= v <= 14)
    case Unknown(t, _) => t < 0x80 && !(1 <= t <= 18)
    case Group(_, _, attributes) => room > 0 && AllWellFormed(attributes, room - 1)
    case _ => true
  }

  predicate AllWellFormed(s: seq<Attribute>, room: nat)
    decreases s, 0
  {
    s == [] || (WellFormedAttribute(s[0], room) && AllWellFormed(s[1..], room))
  }

  predicate WellFormed(m: Message) {
    m.version < 8 && AllWellFormed(m.attributes, MAX_DEPTH)
  }

  // ---- lengths --------------------------------------------------------

  /** What `Encode` emits is what the length accounting says. */
  lemma {:induction false} EncodedLength(a: Attribute)
    ensures 2 + |Value(a)| == UnpaddedLen(a)
    ensures |Encode(a)| == PaddedLen(a)
    decreases a, 1
  {
    if a.Group? {
      EncodedAllLength(a.attributes);
    }
  }

  lemma {:induction false} EncodedAllLength(s: seq<Attribute>)
    ensures |EncodeAll(s)| == PaddedSum(s)
    decreases s, 0
  {
    hide Encode, Pad4, UnpaddedLen;
    if s != [] {
      EncodedLength(s[0]);
      EncodedAllLength(s[1..]);
    }
  }

  lemma {:induction false} PaddedSumAligned(s: seq<Attribute>)
    ensures PaddedSum(s) % 4 == 0
  {
    hide UnpaddedLen, Pad4;
    if s != [] {
      PaddedSumAligned(s[1..]);
    }
  }

  /** An attribute's octets are its type, its length and its value, and zeros up to the next multiple of four. */
  lemma PaddingIsZero(a: Attribute, i: nat)
    requires UnpaddedLen(a) <= i < |Encode(a)|
    ensures Encode(a)[i] == 0 && i < UnpaddedLen(a) + 3 && |Encode(a)| % 4 == 0
    ensures Encode(a)[2..UnpaddedLen(a)] == Value(a) && Encode(a)[0] % 2 == (if a.Unknown? then 0 else 1)
  {
    EncodedLength(a);
    LengthAtLeastTwo(a);
  }

  /** The length octet tells the truth exactly when it can. */
  lemma LengthOctetIsExact(a: Attribute)
    ensures Encode(a)[1] == 2 + |Value(a)| <==> UnpaddedLen(a) <= MAX_LENGTH
  {
    EncodedLength(a);
  }

  lemma {:induction false} FitMembers(s: seq<Attribute>)
    ensures FirstUnfit(s).None? <==> AllFit(s)
  {
    if s != [] {
      FitMembers(s[1..]);
    }
  }

  // ---- write, then read -----------------------------------------------

  /** The first attribute is cut from its octets whatever follows them. */
  lemma EncodedFrames(a: Attribute, rest: seq<Byte>)
    requires Fits(a)
    ensures var data := Encode(a) + rest;
            && |data| >= 2 && data[0] == TypeOctet(a) && data[1] == UnpaddedLen(a) <= |data|
            && data[2..data[1]] == Value(a) && Rest(data) == rest
  {
    EncodedLength(a);
    var data := Encode(a) + rest;
    assert data[2..data[1]] == Value(a);
    assert data[|Encode(a)|..] == rest;
  }

  lemma ReadBackFixed(a: Attribute, depth: nat)
    requires a.Id? || a.PriorityAttr? || a.RequestStatus?
    ensures ParseValue(AttrType(a), true, Value(a), depth) == Ok(Parsed([a], []))
  {
    match a
    case Id(kind, v) =>
    case PriorityAttr(p) =>
    case RequestStatus(status, position) => assert StatusOf(status.AsU8()) == Some(status);
  }

  lemma ReadBackCode(code: Code, details: seq<Byte>, depth: nat)
    requires WellFormedAttribute(ErrorCode(code, details), 0)
    ensures ParseValue(6, true, [code.AsU8()] + details, depth) == Ok(Parsed([ErrorCode(code, details)], []))
  {
    assert ([code.AsU8()] + details)[1..] == details;
    CodeReads(code);
  }

  lemma CodeReads(code: Code)
    ensures CodeOf(code.AsU8()) == code <==> (code.Other? ==> !(1 <= code.value <= 14))
  {
  }

  lemma ReadBackText(kind: TextKind, text: Text, depth: nat)
    requires |text| <= MAX_VALUE_LEN
    ensures ParseValue(AttrType(TextAttr(kind, text)), true, text, depth) == Ok(Parsed([TextAttr(kind, text)], []))
  {
    hide TextValue;
    TextValueIdentity(text);
  }

  lemma ReadBackOctets(a: Attribute, depth: nat)
    requires a.ErrorCode? || a.TextAttr? || a.List? || a.Unknown?
    requires Fits(a) && WellFormedAttribute(a, 0)
    ensures ParseValue(AttrType(a), !a.Unknown?, Value(a), depth) == Ok(Parsed([a], []))
  {
    match a
    case ErrorCode(code, details) => hide ParseValue; ReadBackCode(code, details, depth);
    case TextAttr(kind, text) => hide ParseValue; ReadBackText(kind, text, depth);
    case List(kind, octets) =>
    case Unknown(t, octets) =>
  }

  /** One unfolding of the reader, for an attribute read and what reading the rest gives. */
  lemma ReadStep(data: seq<Byte>, a: Attribute, others: seq<Attribute>, depth: nat)
    requires data != [] && ParseAttribute(data, depth) == Ok(Parsed([a], []))
    requires ParseAttributes(Rest(data), depth) == Ok(Parsed(others, []))
    ensures ParseAttributes(data, depth) == Ok(Parsed([a] + others, []))
  {
    var none: seq<Byte> := [];
    assert none + none == none;
  }

  lemma ReadFirst(data: seq<Byte>, a: Attribute, depth: nat)
    requires |data| >= 2 && 2 <= data[1] <= |data| && Fits(a)
    requires ParseValue(data[0] / 2, data[0] % 2 == 1, data[2..data[1]], depth) == Ok(Parsed([a], []))
    ensures ParseAttribute(data, depth) == Ok(Parsed([a], []))
  {
    assert AllFit([a][1..]);
  }

  lemma ReadGroup(kind: GroupKind, value: seq<Byte>, s: seq<Attribute>, depth: nat)
    requires depth < MAX_DEPTH && |value| >= 2
    requires ParseAttributes(value[2..], depth + 1) == Ok(Parsed(s, []))
    ensures ParseValue(GroupType(kind), true, value, depth) ==
            Ok(Parsed([Group(kind, U16OfBytes(value[0], value[1]), s)], []))
  {
    assert GroupKindOf(GroupType(kind)) == kind;
  }

  lemma ReadBackGroup(a: Attribute, depth: nat)
    requires a.Group? && depth < MAX_DEPTH
    requires ParseAttributes(EncodeAll(a.attributes), depth + 1) == Ok(Parsed(a.attributes, []))
    ensures ParseValue(AttrType(a), true, Value(a), depth) == Ok(Parsed([a], []))
  {
    hide ParseAttributes, ParseValue, EncodeAll;
    var value := Value(a);
    assert value[2..] == EncodeAll(a.attributes);
    assert U16OfBytes(value[0], value[1]) == a.id;
    ReadGroup(a.groupKind, value, a.attributes, depth);
  }

  lemma {:induction false} ReadBackValue(a: Attribute, depth: nat)
    requires depth <= MAX_DEPTH && Fits(a) && WellFormedAttribute(a, MAX_DEPTH - depth)
    ensures ParseValue(AttrType(a), !a.Unknown?, Value(a), depth) == Ok(Parsed([a], []))
    decreases a, 1
  {
    hide ParseAttributes, ParseValue, EncodeAll, Value, AttrType, UnpaddedLen;
    if a.Group? {
      ReadBackAll(a.attributes, depth + 1);
      ReadBackGroup(a, depth);
    } else if a.Id? || a.PriorityAttr? || a.RequestStatus? {
      ReadBackFixed(a, depth);
    } else {
      ReadBackOctets(a, depth);
    }
  }

  lemma TypeOctetReads(a: Attribute, room: nat)
    requires WellFormedAttribute(a, room)
    ensures TypeOctet(a) / 2 == AttrType(a) && (TypeOctet(a) % 2 == 1) == !a.Unknown?
  {
  }

  lemma {:induction false} ReadBackAll(s: seq<Attribute>, depth: nat)
    requires depth <= MAX_DEPTH && AllFit(s) && AllWellFormed(s, MAX_DEPTH - depth)
    ensures ParseAttributes(EncodeAll(s), depth) == Ok(Parsed(s, []))
    decreases s, 0
  {
    if s != [] {
      ReadBackValue(s[0], depth);
      ReadBackAll(s[1..], depth);
      ReadBackStep(s, depth);
    }
  }

  lemma ReadBackStep(s: seq<Attribute>, depth: nat)
    requires s != [] && depth <= MAX_DEPTH && Fits(s[0]) && WellFormedAttribute(s[0], MAX_DEPTH - depth)
    requires ParseValue(AttrType(s[0]), !s[0].Unknown?, Value(s[0]), depth) == Ok(Parsed([s[0]], []))
    requires ParseAttributes(EncodeAll(s[1..]), depth) == Ok(Parsed(s[1..], []))
    ensures ParseAttributes(EncodeAll(s), depth) == Ok(Parsed(s, []))
  {
    hide ParseAttributes, ParseAttribute, ParseValue, Encode, Value, AttrType, TypeOctet, UnpaddedLen, Rest;
    var data := Encode(s[0]) + EncodeAll(s[1..]);
    EncodedFrames(s[0], EncodeAll(s[1..]));
    TypeOctetReads(s[0], MAX_DEPTH - depth);
    LengthAtLeastTwo(s[0]);
    ReadFirst(data, s[0], depth);
    ReadStep(data, s[0], s[1..], depth);
    assert s == [s[0]] + s[1..];
  }

  lemma LengthAtLeastTwo(a: Attribute)
    ensures UnpaddedLen(a) >= 2
  {
  }

  lemma HeaderOctets(m: Message, payloadLen: nat, rest: seq<Byte>)
    requires payloadLen <= MAX_PAYLOAD_LEN
    ensures |HeaderBytes(m, payloadLen)| == COMMON_HEADER_LEN
    ensures var data := HeaderBytes(m, payloadLen) + rest;
            && data[0] == m.version % 8 * 32 + (if m.responder then 16 else 0) && data[1] == m.primitive.AsU8()
            && data[2] == payloadLen / 4 / 0x100 && data[3] == payloadLen / 4 % 0x100
            && data[4..8] == BytesOfU32(m.conferenceId)
            && data[8..10] == BytesOfU16(m.transactionId) && data[10..12] == BytesOfU16(m.userId)
  {
  }

  lemma HeaderNumbers(a: Byte, b: Byte, c: Byte, d: Byte, conference: U32, t: seq<Byte>, transaction: U16)
    ensures [a, b, c, d] == BytesOfU32(conference) ==> U32OfBytes(a, b, c, d) == conference
    ensures t == BytesOfU16(transaction) ==> |t| == 2 && U16OfBytes(t[0], t[1]) == transaction
  {
    if [a, b, c, d] == BytesOfU32(conference) {
      assert [a, b, c, d][0] == a && [a, b, c, d][1] == b && [a, b, c, d][2] == c && [a, b, c, d][3] == d;
      assert U16OfBytes(a, b) == conference / 0x1_0000;
      assert U16OfBytes(c, d) == conference % 0x1_0000;
    }
  }

  lemma PrimitiveReads(p: Primitive)
    ensures PrimitiveOf(p.AsU8()) == Some(p)
  {
  }

  lemma FlagsRead(version: Byte, responder: bool, flags: Byte)
    requires flags == version % 8 * 32 + (if responder then 16 else 0)
    ensures flags / 32 == version % 8 && (flags / 16 % 2 == 1) == responder && flags / 8 % 2 == 0
  {
  }

  lemma FourthBit(b: Byte)
    ensures b / 8 % 2 == 1 <==> b % 16 >= 8
  {
  }

  lemma HeaderFields(data: seq<Byte>, m: Message, payloadLen: nat)
    requires |data| >= COMMON_HEADER_LEN && payloadLen <= MAX_PAYLOAD_LEN && payloadLen % 4 == 0
    requires data[0] == m.version % 8 * 32 + (if m.responder then 16 else 0) && data[1] == m.primitive.AsU8()
    requires U16OfBytes(data[2], data[3]) == payloadLen / 4
    requires EchoOf(data) == Echo(m.version % 8, m.conferenceId, m.transactionId, m.userId)
    ensures ParseHeader(data) ==
            Ok(Header(m.version % 8, m.responder, None, m.primitive, m.conferenceId, m.transactionId, m.userId,
                      payloadLen))
  {
    hide PrimitiveOf, Primitive.AsU8, EchoOf, U16OfBytes;
    PrimitiveReads(m.primitive);
    FlagsRead(m.version, m.responder, data[0]);
  }

  /** Header fields come back from the twelve octets written, well formed or not. */
  lemma HeaderReadsBack(m: Message, payloadLen: nat, data: seq<Byte>)
    requires payloadLen <= MAX_PAYLOAD_LEN && payloadLen % 4 == 0 && HeaderBytes(m, payloadLen) <= data
    ensures |HeaderBytes(m, payloadLen)| == COMMON_HEADER_LEN
    ensures ParseHeader(data) ==
            Ok(Header(m.version % 8, m.responder, None, m.primitive, m.conferenceId, m.transactionId, m.userId,
                      payloadLen))
  {
    hide HeaderBytes, ParseHeader, BytesOfU32, BytesOfU16;
    var rest := data[|HeaderBytes(m, payloadLen)|..];
    assert data == HeaderBytes(m, payloadLen) + rest;
    HeaderOctets(m, payloadLen, rest);
    assert data[4..8] == [data[4], data[5], data[6], data[7]];
    HeaderNumbers(data[4], data[5], data[6], data[7], m.conferenceId, data[8..10], m.transactionId);
    HeaderNumbers(data[4], data[5], data[6], data[7], m.conferenceId, data[10..12], m.userId);
    HeaderFields(data, m, payloadLen);
  }

  /**
   Write then read: the octets of a well-formed message read back as that message
   and tell where they end, whatever follows them.
   */
  lemma WriteThenRead(m: Message, rest: seq<Byte>)
    requires WellFormed(m) && ToBytes(m).Ok?
    ensures ParsePrefix(ToBytes(m).value + rest) == Ok((m, |ToBytes(m).value|))
    ensures Parse(ToBytes(m).value) == Ok(m)
  {
    WriteThenReadPrefix(m, rest);
    WriteThenReadPrefix(m, []);
    assert ToBytes(m).value + [] == ToBytes(m).value;
  }

  lemma WrittenIs(m: Message)
    requires ToBytes(m).Ok?
    ensures AllFit(m.attributes) && |EncodeAll(m.attributes)| <= MAX_PAYLOAD_LEN
    ensures |EncodeAll(m.attributes)| % 4 == 0
    ensures ToBytes(m).value == HeaderBytes(m, |EncodeAll(m.attributes)|) + EncodeAll(m.attributes)
  {
    FitMembers(m.attributes);
    EncodedAllLength(m.attributes);
    PaddedSumAligned(m.attributes);
  }

  lemma WriteThenReadPrefix(m: Message, rest: seq<Byte>)
    requires WellFormed(m) && ToBytes(m).Ok?
    ensures ParsePrefix(ToBytes(m).value + rest) == Ok((m, |ToBytes(m).value|))
  {
    hide HeaderBytes, ParseHeader, ParsePrefix, ParseAttributes, ToBytes;
    WrittenIs(m);
    ReadBackAll(m.attributes, 0);
    ReadWritten(m, EncodeAll(m.attributes), rest);
    assert HeaderBytes(m, |EncodeAll(m.attributes)|) + EncodeAll(m.attributes) + rest
        == HeaderBytes(m, |EncodeAll(m.attributes)|) + (EncodeAll(m.attributes) + rest);
  }

  lemma ReadWritten(m: Message, body: seq<Byte>, rest: seq<Byte>)
    requires m.version < 8 && |body| <= MAX_PAYLOAD_LEN && |body| % 4 == 0
    requires ParseAttributes(body, 0) == Ok(Parsed(m.attributes, []))
    ensures |HeaderBytes(m, |body|)| == COMMON_HEADER_LEN
    ensures ParsePrefix(HeaderBytes(m, |body|) + (body + rest)) == Ok((m, COMMON_HEADER_LEN + |body|))
  {
    hide HeaderBytes, ParseHeader, ParsePrefix, ParseAttributes;
    var header := HeaderBytes(m, |body|);
    HeaderReadsBack(m, |body|, header + (body + rest));
    PayloadOf(header, body, rest);
    ReadMessage(header + (body + rest), ParseHeader(header + (body + rest)).value, body, m.attributes);
  }

  lemma ReadMessage(data: seq<Byte>, h: Header, payload: seq<Byte>, s: seq<Attribute>)
    requires ParseHeader(data) == Ok(h) && h.fragment.None? && h.MessageLen() <= |data|
    requires data[h.HeaderLen()..h.MessageLen()] == payload && ParseAttributes(payload, 0) == Ok(Parsed(s, []))
    ensures ParsePrefix(data) ==
            Ok((Message(h.version, h.responder, h.primitive, h.conferenceId, h.transactionId, h.userId, s),
                h.MessageLen()))
  {
  }

  lemma PayloadOf(header: seq<Byte>, body: seq<Byte>, rest: seq<Byte>)
    ensures (header + (body + rest))[|header|..|header| + |body|] == body
  {
  }

  /** No two well-formed messages share their octets, nor is one's a prefix of the other's. */
  lemma WritingIsInjective(m: Message, n: Message, rest: seq<Byte>)
    requires WellFormed(m) && WellFormed(n) && ToBytes(m).Ok? && ToBytes(n).Ok?
    requires ToBytes(m).value + rest == ToBytes(n).value
    ensures m == n && rest == []
  {
    WriteThenRead(m, rest);
    WriteThenRead(n, []);
    assert ToBytes(n).value + [] == ToBytes(n).value;
  }

  // ---- read, then write -----------------------------------------------

  /** What is read is well formed, fits, and rewritten is at most three times as long. */
  lemma {:induction false} ParsedIsWritable(data: seq<Byte>, depth: nat)
    requires depth <= MAX_DEPTH && ParseAttributes(data, depth).Ok?
    ensures var s := ParseAttributes(data, depth).value.attributes;
            AllFit(s) && AllWellFormed(s, MAX_DEPTH - depth) && PaddedSum(s) <= 3 * |data|
    decreases |data|, 2
  {
    if data != [] {
      FirstIsWritable(data, depth);
      ParsedIsWritable(Rest(data), depth);
    }
  }

  lemma {:induction false} FirstIsWritable(data: seq<Byte>, depth: nat)
    requires depth <= MAX_DEPTH && data != [] && ParseAttribute(data, depth).Ok?
    ensures var s := ParseAttribute(data, depth).value.attributes;
            && |s| == 1 && Fits(s[0]) && WellFormedAttribute(s[0], MAX_DEPTH - depth)
            && PaddedLen(s[0]) <= 3 * (|data| - |Rest(data)|)
    decreases |data|, 1
  {
    ValueIsWritable(data[0] / 2, data[0] % 2 == 1, data[2..data[1]], depth);
  }

  lemma {:induction false} ValueIsWritable(t: Byte, mandatory: bool, value: seq<Byte>, depth: nat)
    requires t < 0x80 && depth <= MAX_DEPTH && ParseValue(t, mandatory, value, depth).Ok?
    ensures var s := ParseValue(t, mandatory, value, depth).value.attributes;
            && |s| == 1 && WellFormedAttribute(s[0], MAX_DEPTH - depth)
            && PaddedLen(s[0]) <= 3 * (2 + |value|)
    decreases |value|, 3
  {
    if t in [7, 8, 9, 12, 13] {
      TextIsWritable(t, mandatory, value, depth);
    } else if 14 <= t <= 18 {
      ParsedIsWritable(value[2..], depth + 1);
      GroupIsWritable(t, mandatory, value, depth);
    } else {
      OctetsAreWritable(t, mandatory, value, depth);
    }
  }

  lemma TextIsWritable(t: Byte, mandatory: bool, value: seq<Byte>, depth: nat)
    requires t in [7, 8, 9, 12, 13]
    ensures var a := TextAttr(TextKindOf(t), TextValue(value));
            && ParseValue(t, mandatory, value, depth) == Ok(Parsed([a], []))
            && PaddedLen(a) <= 3 * (2 + |value|)
  {
    hide Lossy;
    LossyTriples(value);
    LossyIsValid(value);
  }

  lemma GroupIsWritable(t: Byte, mandatory: bool, value: seq<Byte>, depth: nat)
    requires 14 <= t <= 18 && depth < MAX_DEPTH && |value| >= 2 && ParseAttributes(value[2..], depth + 1).Ok?
    requires var s := ParseAttributes(value[2..], depth + 1).value.attributes;
             AllWellFormed(s, MAX_DEPTH - depth - 1) && PaddedSum(s) <= 3 * |value[2..]|
    ensures ParseValue(t, mandatory, value, depth).Ok?
    ensures var s := ParseValue(t, mandatory, value, depth).value.attributes;
            && |s| == 1 && WellFormedAttribute(s[0], MAX_DEPTH - depth)
            && PaddedLen(s[0]) <= 3 * (2 + |value|)
  {
    hide ParseAttributes;
    PaddedSumAligned(ParseAttributes(value[2..], depth + 1).value.attributes);
  }

  lemma OctetsAreWritable(t: Byte, mandatory: bool, value: seq<Byte>, depth: nat)
    requires t < 0x80 && t !in [7, 8, 9, 12, 13] && !(14 <= t <= 18) && ParseValue(t, mandatory, value, depth).Ok?
    ensures var s := ParseValue(t, mandatory, value, depth).value.attributes;
            && |s| == 1 && WellFormedAttribute(s[0], 0) && !s[0].Group?
            && PaddedLen(s[0]) <= 3 * (2 + |value|)
  {
    hide ParseAttributes, StatusOf, PriorityOf;
  }

  /**
   What is read is well formed, and the only thing that can keep it from being
   written is the whole payload's length, which is at most three times what was read.
   */
  lemma ReadIsWellFormed(data: seq<Byte>, m: Message)
    requires Parse(data) == Ok(m)
    ensures WellFormed(m) && AllFit(m.attributes)
    ensures PaddedSum(m.attributes) <= 3 * (|data| - COMMON_HEADER_LEN)
    ensures ToBytes(m).Err? <==> PaddedSum(m.attributes) > MAX_PAYLOAD_LEN
    ensures ToBytes(m).Err? ==> ToBytes(m).error == PayloadTooLong
  {
    hide HeaderBytes;
    var h := ParseHeader(data).value;
    ParsedIsWritable(data[h.HeaderLen()..h.MessageLen()], 0);
    FitMembers(m.attributes);
    EncodedAllLength(m.attributes);
  }

  /**
   Read, write, read: what is read from a frame that writing cannot overflow, every
   datagram among them, is written, and what is written reads as the same message.
   */
  lemma ReadWriteRead(data: seq<Byte>, m: Message) returns (again: seq<Byte>)
    requires Parse(data) == Ok(m) && 3 * (|data| - COMMON_HEADER_LEN) <= MAX_PAYLOAD_LEN
    ensures ToBytes(m) == Ok(again) && Parse(again) == Ok(m)
  {
    hide Parse, ToBytes, WellFormed;
    ReadIsWellFormed(data, m);
    WriteThenRead(m, []);
    again := ToBytes(m).value;
  }

  /** Reading what was written returns the message exactly when it is well formed. */
  lemma RoundTripsExactlyWhenWellFormed(m: Message)
    requires ToBytes(m).Ok?
    ensures Parse(ToBytes(m).value) == Ok(m) <==> WellFormed(m)
  {
    if WellFormed(m) {
      WriteThenRead(m, []);
    }
    if Parse(ToBytes(m).value) == Ok(m) {
      ReadIsWellFormed(ToBytes(m).value, m);
    }
  }

  /** An attribute that does not fit is refused by its type, the first of them. */
  lemma {:induction false} FirstUnfitIs(s: seq<Attribute>, i: nat)
    requires i < |s| && !Fits(s[i]) && forall j :: 0 <= j < i ==> Fits(s[j])
    ensures FirstUnfit(s) == Some(s[i])
    decreases i
  {
    if i > 0 {
      FirstUnfitIs(s[1..], i - 1);
    }
  }

  lemma RefusedForTheFirst(m: Message, i: nat)
    requires i < |m.attributes| && !Fits(m.attributes[i]) && forall j :: 0 <= j < i ==> Fits(m.attributes[j])
    ensures ToBytes(m) == Err(AttributeTooLong(AttrType(m.attributes[i])))
  {
    hide Fits, EncodeAll, AttrType;
    FirstUnfitIs(m.attributes, i);
  }

  /** A message is written exactly when every attribute fits and the payload does. */
  lemma WritesExactlyWhen(m: Message)
    ensures ToBytes(m).Ok? <==> AllFit(m.attributes) && PaddedSum(m.attributes) <= MAX_PAYLOAD_LEN
    ensures ToBytes(m).Ok? ==> |ToBytes(m).value| == COMMON_HEADER_LEN + PaddedSum(m.attributes)
  {
    FitMembers(m.attributes);
    EncodedAllLength(m.attributes);
    if ToBytes(m).Ok? {
      WrittenIs(m);
    }
  }
}
