/**
 The writer and the reader as the program runs them: one appends to a vector and
 patches each length octet once it is known, the other consumes its input attribute
 by attribute. Each is proved to compute what `Messages` specifies.
 */
module Codec {
  import opened Wrappers
  import opened Octets
  import opened Utf8
  import opened Messages
  import opened RoundTrip

  /** Appends the attribute, patches its length and pads to four octets from where it started. */
  method Write(a: Attribute, out: Buffer)
    modifies out
    ensures out.bytes == old(out.bytes) + Encode(a)
    decreases a, 1
  {
    hide Value, TypeOctet, UnpaddedLen;
    var start := |out.bytes|;
    out.Push(TypeOctet(a));
    out.Push(0);
    WriteValue(a, out);
    ghost var unpadded := [TypeOctet(a), LengthOctet(a)] + Value(a);
    assert out.bytes == old(out.bytes) + ([TypeOctet(a), 0] + Value(a));
    out.Patch(start + 1, Min(UnpaddedLen(a), MAX_LENGTH));
    assert out.bytes == old(out.bytes) + unpadded;
    while (|out.bytes| - start) % 4 != 0
      invariant |unpadded| <= |out.bytes| - start <= Pad4(|unpadded|)
      invariant out.bytes == old(out.bytes) + unpadded + Zeros(|out.bytes| - start - |unpadded|)
      decreases Pad4(|unpadded|) - (|out.bytes| - start)
    {
      out.Push(0);
    }
    assert out.bytes == old(out.bytes) + (unpadded + Zeros(Pad4(|unpadded|) - |unpadded|));
  }

  method WriteValue(a: Attribute, out: Buffer)
    modifies out
    ensures out.bytes == old(out.bytes) + Value(a)
    decreases a, 0
  {
    hide BytesOfU16, EncodeAll, ValidUtf8;
    match a
    case Id(_, v) => out.Extend(BytesOfU16(v));
    case PriorityAttr(p) => WritePair(p.AsU8() * 32, 0, out);
    case RequestStatus(status, position) => WritePair(status.AsU8(), position, out);
    case ErrorCode(code, details) =>
      out.Push(code.AsU8());
      out.Extend(details);
      assert out.bytes == old(out.bytes) + ([code.AsU8()] + details);
    case TextAttr(_, text) => out.Extend(text);
    case List(_, octets) => out.Extend(octets);
    case Unknown(_, octets) => out.Extend(octets);
    case Group(_, id, attributes) =>
      out.Extend(BytesOfU16(id));
      WriteAll(attributes, out);
      assert out.bytes == old(out.bytes) + (BytesOfU16(id) + EncodeAll(attributes));
  }

  method WritePair(x: Byte, y: Byte, out: Buffer)
    modifies out
    ensures out.bytes == old(out.bytes) + [x, y]
  {
    out.Push(x);
    out.Push(y);
  }

  method WriteAll(attributes: seq<Attribute>, out: Buffer)
    modifies out
    ensures out.bytes == old(out.bytes) + EncodeAll(attributes)
    decreases attributes, 2
  {
    hide Encode, EncodeAll;
    EncodeNone(attributes[..0]);
    var i := 0;
    while i < |attributes|
      invariant 0 <= i <= |attributes|
      invariant out.bytes == old(out.bytes) + EncodeAll(attributes[..i])
    {
      Write(attributes[i], out);
      EncodeSnoc(attributes[..i], attributes[i]);
      assert attributes[..i + 1] == attributes[..i] + [attributes[i]];
      i := i + 1;
    }
    assert attributes[..i] == attributes;
  }

  lemma EncodeNone(s: seq<Attribute>)
    requires s == []
    ensures EncodeAll(s) == []
  {
  }

  lemma {:induction false} EncodeSnoc(s: seq<Attribute>, a: Attribute)
    ensures EncodeAll(s + [a]) == EncodeAll(s) + Encode(a)
  {
    hide Encode;
    if s == [] {
      assert [a][1..] == [];
      assert [] + [a] == [a];
    } else {
      EncodeSnoc(s[1..], a);
      assert (s + [a])[1..] == s[1..] + [a];
    }
  }

  /** The message on the wire. */
  method MessageToBytes(m: Message) returns (r: Result<seq<Byte>, EncodeError>)
    ensures r == ToBytes(m)
  {
    hide Encode, EncodeAll, Fits, HeaderBytes, FirstUnfit;
    var body := new Buffer();
    var i := 0;
    EncodeNone(m.attributes[..0]);
    assert m.attributes[0..] == m.attributes;
    while i < |m.attributes|
      invariant 0 <= i <= |m.attributes|
      invariant fresh(body)
      invariant body.bytes == EncodeAll(m.attributes[..i])
      invariant FirstUnfit(m.attributes) == FirstUnfit(m.attributes[i..])
    {
      var a := m.attributes[i];
      UnfitStep(m.attributes[i..]);
      if !Fits(a) {
        return Err(AttributeTooLong(AttrType(a)));
      }
      Write(a, body);
      EncodeSnoc(m.attributes[..i], a);
      assert m.attributes[..i + 1] == m.attributes[..i] + [a];
      assert m.attributes[i..][1..] == m.attributes[i + 1..];
      i := i + 1;
    }
    UnfitStep(m.attributes[i..]);
    assert m.attributes[..i] == m.attributes;
    if |body.bytes| > MAX_PAYLOAD_LEN {
      return Err(PayloadTooLong);
    }
    var out := new Buffer();
    WriteHeader(m, |body.bytes|, out);
    assert out.bytes == HeaderBytes(m, |body.bytes|);
    out.Extend(body.bytes);
    r := Ok(out.bytes);
  }

  method WriteHeader(m: Message, payloadLen: nat, out: Buffer)
    requires payloadLen <= MAX_PAYLOAD_LEN
    modifies out
    ensures out.bytes == old(out.bytes) + HeaderBytes(m, payloadLen)
  {
    out.Push(m.version % 8 * 32 + if m.responder then 16 else 0);
    out.Push(m.primitive.AsU8());
    out.Extend(BytesOfU16(payloadLen / 4));
    out.Extend(BytesOfU32(m.conferenceId));
    out.Extend(BytesOfU16(m.transactionId));
    out.Extend(BytesOfU16(m.userId));
  }

  lemma UnfitStep(s: seq<Attribute>)
    ensures FirstUnfit(s) == if s == [] then None else if !Fits(s[0]) then Some(s[0]) else FirstUnfit(s[1..])
  {
  }

  /** Reads the attributes of `data`, noting the mandatory types it does not understand. */
  method ReadAttributes(data: seq<Byte>, unknown: Buffer, echo: Echo, depth: nat)
    returns (r: Result<seq<Attribute>, ParseError>)
    modifies unknown
    ensures match ParseAttributes(data, depth)
            case Ok(p) => r == Ok(p.attributes) && unknown.bytes == old(unknown.bytes) + p.unknown
            case Err(kind) => r == Err(ParseError(kind, Some(echo)))
    decreases |data|, 2
  {
    hide ParseAttributes, ParseAttribute, ParseValue, AllFit, Fits;
    var rest, out := data, [];
    while rest != []
      invariant |rest| <= |data|
      invariant ParsesOn(ParseAttributes(data, depth), ParseAttributes(rest, depth), out,
                         old(unknown.bytes), unknown.bytes)
      decreases |rest|
    {
      if |rest| < 2 {
        ShortFails(rest, depth);
        return Err(ParseError(Truncated, Some(echo)));
      }
      var attrType, len := rest[0] / 2, rest[1];
      if len < 2 || len > |rest| {
        BadLengthFails(rest, depth);
        return Err(ParseError(BadAttributeLength(attrType), Some(echo)));
      }
      ghost var whole := ParseAttributes(data, depth);
      ghost var outBefore, before := out, unknown.bytes;
      var attribute := ReadValue(attrType, rest[0] % 2 == 1, rest[2..len], unknown, echo, depth);
      OneStep(rest, depth);
      if attribute.Err? {
        return Err(attribute.error);
      }
      if !Fits(attribute.value) {
        return Err(ParseError(BadAttributeLength(attrType), Some(echo)));
      }
      out := out + [attribute.value];
      var padded := Pad4(len);
      rest := rest[Min(padded, |rest|)..];
      AdvanceParse(whole, ParseAttributes(rest, depth), outBefore, attribute.value, old(unknown.bytes), before,
                   unknown.bytes[|before|..]);
      assert before + unknown.bytes[|before|..] == unknown.bytes;
    }
    EmptyParses(rest, depth);
    assert out + [] == out && unknown.bytes + [] == unknown.bytes;
    r := Ok(out);
  }

  lemma EmptyParses(data: seq<Byte>, depth: nat)
    requires data == []
    ensures ParseAttributes(data, depth) == Ok(Parsed([], []))
  {
  }

  lemma ShortFails(data: seq<Byte>, depth: nat)
    requires |data| == 1
    ensures ParseAttributes(data, depth) == Err(Truncated)
  {
  }

  lemma BadLengthFails(data: seq<Byte>, depth: nat)
    requires |data| >= 2 && !(2 <= data[1] <= |data|)
    ensures ParseAttributes(data, depth) == Err(BadAttributeLength(data[0] / 2))
  {
  }

  /** One attribute's worth of the reader, from its value's reading and the rest's. */
  ghost function Onward(value: Result<Parsed, ErrorKind>, t: Byte, rest: Result<Parsed, ErrorKind>)
    : Result<Parsed, ErrorKind>
  {
    if value.Err? then value
    else if |value.value.attributes| == 1 && !Fits(value.value.attributes[0]) then Err(BadAttributeLength(t))
    else if rest.Err? then rest
    else Ok(Parsed(value.value.attributes + rest.value.attributes, value.value.unknown + rest.value.unknown))
  }

  lemma OneStep(data: seq<Byte>, depth: nat)
    requires |data| >= 2 && 2 <= data[1] <= |data|
    requires var v := ParseValue(data[0] / 2, data[0] % 2 == 1, data[2..data[1]], depth);
             v.Ok? ==> |v.value.attributes| == 1
    ensures ParseAttributes(data, depth) ==
            Onward(ParseValue(data[0] / 2, data[0] % 2 == 1, data[2..data[1]], depth), data[0] / 2,
                   ParseAttributes(data[Min(Pad4(data[1]), |data|)..], depth))
  {
    hide ParseValue, Fits;
    var v := ParseValue(data[0] / 2, data[0] % 2 == 1, data[2..data[1]], depth);
    if v.Ok? {
      assert v.value.attributes[1..] == [];
      assert AllFit(v.value.attributes[1..]);
      assert AllFit(v.value.attributes) == Fits(v.value.attributes[0]);
    }
    assert Rest(data) == data[Min(Pad4(data[1]), |data|)..];
    assert ParseAttribute(data, depth) ==
           if v.Ok? && !Fits(v.value.attributes[0]) then Err(BadAttributeLength(data[0] / 2)) else v;
  }

  /** How far a reader has come: `whole` is what it must give, `left` what the rest gives. */
  ghost predicate ParsesOn(whole: Result<Parsed, ErrorKind>, left: Result<Parsed, ErrorKind>,
                           out: seq<Attribute>, before: seq<Byte>, now: seq<Byte>)
  {
    match left
    case Err(kind) => whole == left
    case Ok(p) =>
      && whole.Ok? && whole.value.attributes == out + p.attributes
      && before + whole.value.unknown == now + p.unknown
  }

  lemma AdvanceParse(whole: Result<Parsed, ErrorKind>, left: Result<Parsed, ErrorKind>, out: seq<Attribute>,
                     a: Attribute, before: seq<Byte>, now: seq<Byte>, types: seq<Byte>)
    requires Fits(a)
    requires ParsesOn(whole, Onward(Ok(Parsed([a], types)), AttrType(a), left), out, before, now)
    ensures ParsesOn(whole, left, out + [a], before, now + types)
  {
    if left.Ok? {
      assert Onward(Ok(Parsed([a], types)), AttrType(a), left) ==
             Ok(Parsed([a] + left.value.attributes, types + left.value.unknown));
      assert out + ([a] + left.value.attributes) == out + [a] + left.value.attributes;
      assert now + (types + left.value.unknown) == now + types + left.value.unknown;
    }
  }

  method ReadValue(t: Byte, mandatory: bool, value: seq<Byte>, unknown: Buffer, echo: Echo, depth: nat)
    returns (r: Result<Attribute, ParseError>)
    modifies unknown
    ensures match ParseValue(t, mandatory, value, depth)
            case Ok(p) =>
              && r.Ok? && p.attributes == [r.value]
              && unknown.bytes == old(unknown.bytes) + p.unknown
            case Err(kind) => r == Err(ParseError(kind, Some(echo)))
    decreases |value|, 3
  {
    var bad := Err(ParseError(BadAttributeValue(t), Some(echo)));
    if 1 <= t <= 3 {
      if |value| < 2 { return bad; }
      var kind := if t == 1 then BeneficiaryId else if t == 2 then FloorId else FloorRequestId;
      r := Ok(Id(kind, U16OfBytes(value[0], value[1])));
    } else if t == 4 {
      if |value| < 2 { return bad; }
      r := Ok(PriorityAttr(PriorityOf(value[0] / 32)));
    } else if t == 5 {
      if |value| < 2 { return bad; }
      var status := StatusOf(value[0]);
      if status.None? { return bad; }
      r := Ok(RequestStatus(status.value, value[1]));
    } else if t == 6 {
      if |value| < 1 { return bad; }
      r := Ok(ErrorCode(CodeOf(value[0]), value[1..]));
    } else if t in [7, 8, 9, 12, 13] {
      var text := TextOf(value);
      r := Ok(TextAttr(TextKindOf(t), text));
    } else if 10 <= t <= 11 {
      r := Ok(List(if t == 10 then SupportedAttributes else SupportedPrimitives, value));
    } else if 14 <= t <= 18 {
      if depth >= MAX_DEPTH || |value| < 2 { return bad; }
      var inner := ReadAttributes(value[2..], unknown, echo, depth + 1);
      if inner.Err? { return Err(inner.error); }
      r := Ok(Group(GroupKindOf(t), U16OfBytes(value[0], value[1]), inner.value));
    } else {
      if mandatory { unknown.Push(t); }
      r := Ok(Unknown(t, value));
    }
  }

  /** Reads the message at the front of `data` and how many octets it took. */
  method ReadPrefix(data: seq<Byte>) returns (r: Result<(Message, nat), ParseError>)
    ensures r == ParsePrefix(data)
  {
    var header := ParseHeader(data);
    if header.Err? { return Err(header.error); }
    var h := header.value;
    var echo := h.AsEcho();
    if h.fragment.Some? { return Err(ParseError(Fragmented, Some(echo))); }
    var start, end := h.HeaderLen(), h.HeaderLen() + h.payloadLen;
    if |data| < end { return Err(ParseError(Truncated, Some(echo))); }
    var unknown := new Buffer();
    var attributes := ReadAttributes(data[start..end], unknown, echo, 0);
    if attributes.Err? { return Err(attributes.error); }
    assert ParseAttributes(data[start..end], 0).value.unknown == unknown.bytes;
    if unknown.bytes != [] { return Err(ParseError(UnknownMandatory(unknown.bytes), Some(echo))); }
    r := Ok((Message(h.version, h.responder, h.primitive, h.conferenceId, h.transactionId, h.userId,
                     attributes.value), end));
  }
}
