/**
 Attributes marked as mandatory that the program does not define. Which those are is a matter of
 the octets alone: the type octets at attribute starts, at every group depth. A message is refused
 for them exactly when everything else about it reads, and the refusal lists them in order.
 */
module MandatoryAttributes {
  import opened Wrappers
  import opened Octets
  import opened Messages
  import opened RoundTrip
  import Utf8

  /** The types at attribute starts, at every depth, that have the mandatory bit and are not 1 to 18. */
  function NotUnderstood(data: seq<Byte>): seq<Byte>
    decreases |data|
  {
    if |data| < 2 || !(2 <= data[1] <= |data|) then []
    else
      var t: nat, end: nat := data[0] / 2, data[1];
      (if data[0] % 2 == 1 && (t == 0 || t > 18) then [t] else [])
      + (if 14 <= t <= 18 && end >= 4 then NotUnderstood(data[4..end]) else [])
      + NotUnderstood(data[Min(Pad4(end), |data|)..])
  }

  // ---- the reader lists exactly those ---------------------------------

  lemma {:induction false} ListedExactly(data: seq<Byte>, depth: nat)
    requires ParseAttributes(data, depth).Ok?
    ensures ParseAttributes(data, depth).value.unknown == NotUnderstood(data)
    decreases |data|, 2
  {
    hide ParseValue, AllFit;
    if data != [] {
      ListedInValue(data[0] / 2, data[0] % 2 == 1, data[2..data[1]], depth);
      ListedExactly(Rest(data), depth);
      FirstIsListed(data);
    }
  }

  /** One unfolding, by the value of the first attribute. */
  lemma FirstIsListed(data: seq<Byte>)
    requires |data| >= 2 && 2 <= data[1] <= |data|
    ensures NotUnderstood(data) == InValue(data[0] / 2, data[0] % 2 == 1, data[2..data[1]]) + NotUnderstood(Rest(data))
  {
    if data[1] >= 4 {
      assert data[2..data[1]][2..] == data[4..data[1]];
    }
  }

  /** What one attribute contributes: its own type or those in it. */
  function InValue(t: Byte, mandatory: bool, value: seq<Byte>): seq<Byte> {
    (if mandatory && (t == 0 || t > 18) then [t] else [])
    + (if 14 <= t <= 18 && |value| >= 2 then NotUnderstood(value[2..]) else [])
  }

  lemma {:induction false} ListedInValue(t: Byte, mandatory: bool, value: seq<Byte>, depth: nat)
    requires t < 0x80 && ParseValue(t, mandatory, value, depth).Ok?
    ensures ParseValue(t, mandatory, value, depth).value.unknown == InValue(t, mandatory, value)
    decreases |value|, 3
  {
    hide ParseAttributes, StatusOf, PriorityOf, CodeOf, Utf8.TextValue, NotUnderstood;
    if 14 <= t <= 18 {
      ListedExactly(value[2..], depth + 1);
    }
  }

  /** What is listed is of no type the program defines. */
  lemma {:induction false} ListedAreUndefined(data: seq<Byte>)
    ensures forall i :: 0 <= i < |NotUnderstood(data)| ==> NotUnderstood(data)[i] < 0x80 && !(1 <= NotUnderstood(data)[i] <= 18)
    decreases |data|
  {
    if |data| >= 2 && 2 <= data[1] <= |data| {
      if data[1] >= 4 {
        ListedAreUndefined(data[4..data[1]]);
      }
      ListedAreUndefined(Rest(data));
    }
  }

  /** The octets of the attributes, where a whole message without fragments is at the front. */
  function Payload(data: seq<Byte>): Option<seq<Byte>> {
    if |data| >= COMMON_HEADER_LEN && !FragmentFlag(data) && |data| >= COMMON_HEADER_LEN + PayloadLen(data) then
      Some(data[COMMON_HEADER_LEN..COMMON_HEADER_LEN + PayloadLen(data)])
    else None
  }

  /**
   A message is refused for attributes not understood exactly when its primitive is known, it is
   whole, its attributes read, and there are some; the refusal lists them all, in order.
   */
  lemma RefusedExactlyWhen(data: seq<Byte>, types: seq<Byte>)
    ensures Parse(data).Err? && Parse(data).error.kind == UnknownMandatory(types) <==>
            && Payload(data).Some? && PrimitiveOf(data[1]).Some? && ParseAttributes(Payload(data).value, 0).Ok?
            && types == NotUnderstood(Payload(data).value) != []
    ensures Parse(data).Ok? ==> Payload(data).Some? && NotUnderstood(Payload(data).value) == []
  {
    hide ParseAttributes, EchoOf, PrimitiveOf, NotUnderstood, PayloadLen;
    if Payload(data).Some? {
      if ParseAttributes(Payload(data).value, 0).Ok? {
        ListedExactly(Payload(data).value, 0);
      } else {
        AttributeErrors(Payload(data).value, 0);
      }
    }
  }

  /** What can be wrong with attributes that do not read. */
  lemma {:induction false} AttributeErrors(data: seq<Byte>, depth: nat)
    requires ParseAttributes(data, depth).Err?
    ensures var e := ParseAttributes(data, depth).error;
            e.Truncated? || e.BadAttributeLength? || e.BadAttributeValue?
    decreases |data|, 2
  {
    hide ParseValue, AllFit;
    if ParseAttribute(data, depth).Ok? {
      AttributeErrors(Rest(data), depth);
    } else if 2 <= |data| && 2 <= data[1] <= |data| {
      ValueErrors(data[0] / 2, data[0] % 2 == 1, data[2..data[1]], depth);
    }
  }

  lemma {:induction false} ValueErrors(t: Byte, mandatory: bool, value: seq<Byte>, depth: nat)
    ensures ParseValue(t, mandatory, value, depth).Err? ==>
              var e := ParseValue(t, mandatory, value, depth).error;
              e.Truncated? || e.BadAttributeLength? || e.BadAttributeValue?
    decreases |value|, 3
  {
    hide ParseAttributes, StatusOf, PriorityOf, CodeOf, Utf8.TextValue;
    if 14 <= t <= 18 && |value| >= 2 && ParseAttributes(value[2..], depth + 1).Err? {
      AttributeErrors(value[2..], depth + 1);
    }
  }

  // ---- reading what another program marks -----------------------------

  /** The octets of an attribute with the mandatory bit on unknown ones of the types given too. */
  function Marked(a: Attribute, types: set<Byte>): seq<Byte>
    decreases a, 1
  {
    var unpadded := [TypeOctet(a) + (if Marks(a, types) then 1 else 0), LengthOctet(a)] + MarkedValue(a, types);
    unpadded + Zeros(Pad4(|unpadded|) - |unpadded|)
  }

  predicate Marks(a: Attribute, types: set<Byte>) {
    a.Unknown? && a.unknownType in types
  }

  function MarkedValue(a: Attribute, types: set<Byte>): seq<Byte>
    decreases a, 0
  {
    if a.Group? then BytesOfU16(a.id) + MarkedAll(a.attributes, types) else Value(a)
  }

  function MarkedAll(s: seq<Attribute>, types: set<Byte>): seq<Byte>
    decreases s, 0
  {
    if s == [] then [] else Marked(s[0], types) + MarkedAll(s[1..], types)
  }

  /** The marked ones among the attributes, at every depth. */
  function MarkedIn(a: Attribute, types: set<Byte>): seq<Byte>
    decreases a, 1
  {
    if a.Group? then MarkedTypes(a.attributes, types) else if Marks(a, types) then [a.unknownType] else []
  }

  function MarkedTypes(s: seq<Attribute>, types: set<Byte>): seq<Byte>
    decreases s, 0
  {
    if s == [] then [] else MarkedIn(s[0], types) + MarkedTypes(s[1..], types)
  }

  lemma {:induction false} MarkedLength(a: Attribute, types: set<Byte>)
    ensures 2 + |MarkedValue(a, types)| == UnpaddedLen(a) && |Marked(a, types)| == PaddedLen(a)
    decreases a, 1
  {
    hide Value;
    EncodedLength(a);
    if a.Group? {
      MarkedAllLength(a.attributes, types);
    }
  }

  lemma {:induction false} MarkedAllLength(s: seq<Attribute>, types: set<Byte>)
    ensures |MarkedAll(s, types)| == PaddedSum(s)
    decreases s, 0
  {
    hide Marked, Pad4, UnpaddedLen;
    if s != [] {
      MarkedLength(s[0], types);
      MarkedAllLength(s[1..], types);
    }
  }

  lemma MarkedFrames(a: Attribute, types: set<Byte>, rest: seq<Byte>)
    requires Fits(a)
    ensures var data := Marked(a, types) + rest;
            && |data| >= 2 && data[0] == TypeOctet(a) + (if Marks(a, types) then 1 else 0)
            && data[1] == UnpaddedLen(a) <= |data| && data[1] >= 2
            && data[2..data[1]] == MarkedValue(a, types) && Rest(data) == rest
  {
    hide TypeOctet, MarkedValue, UnpaddedLen;
    LengthAtLeastTwo(a);
    MarkedLength(a, types);
    var data := Marked(a, types) + rest;
    assert data[2..data[1]] == MarkedValue(a, types);
    assert data[|Marked(a, types)|..] == rest;
  }

  lemma {:induction false} ReadMarkedValue(a: Attribute, types: set<Byte>, depth: nat)
    requires depth <= MAX_DEPTH && Fits(a) && WellFormedAttribute(a, MAX_DEPTH - depth)
    ensures ParseValue(AttrType(a), !a.Unknown? || Marks(a, types), MarkedValue(a, types), depth) ==
            Ok(Parsed([a], MarkedIn(a, types)))
    decreases a, 1
  {
    hide ParseAttributes, ParseValue, MarkedAll, Value, AttrType, UnpaddedLen;
    if a.Group? {
      ReadMarked(a.attributes, types, depth + 1);
      ReadMarkedGroup(a, types, depth);
    } else if a.Unknown? {
      ReadMarkedUnknown(a, Marks(a, types), depth);
    } else {
      ReadBackValue(a, depth);
    }
  }

  lemma ReadMarkedUnknown(a: Attribute, mandatory: bool, depth: nat)
    requires a.Unknown? && WellFormedAttribute(a, 0)
    ensures ParseValue(AttrType(a), mandatory, Value(a), depth) ==
            Ok(Parsed([a], if mandatory then [a.unknownType] else []))
  {
  }

  lemma ReadMarkedGroup(a: Attribute, types: set<Byte>, depth: nat)
    requires a.Group? && depth < MAX_DEPTH
    requires ParseAttributes(MarkedAll(a.attributes, types), depth + 1) ==
             Ok(Parsed(a.attributes, MarkedTypes(a.attributes, types)))
    ensures ParseValue(AttrType(a), true, MarkedValue(a, types), depth) == Ok(Parsed([a], MarkedIn(a, types)))
  {
    hide ParseAttributes, MarkedAll;
    var value := MarkedValue(a, types);
    assert value[2..] == MarkedAll(a.attributes, types);
    assert U16OfBytes(value[0], value[1]) == a.id;
    assert GroupKindOf(GroupType(a.groupKind)) == a.groupKind;
  }

  /** Attributes marked in any way read as themselves, and the marked ones are listed. */
  lemma {:induction false} ReadMarked(s: seq<Attribute>, types: set<Byte>, depth: nat)
    requires depth <= MAX_DEPTH && AllFit(s) && AllWellFormed(s, MAX_DEPTH - depth)
    ensures ParseAttributes(MarkedAll(s, types), depth) == Ok(Parsed(s, MarkedTypes(s, types)))
    decreases s, 0
  {
    hide ParseAttributes, ParseAttribute, ParseValue, Marked, MarkedValue, AttrType, TypeOctet, UnpaddedLen, Rest, Marks,
         MarkedIn;
    if s == [] {
      NothingReads(depth);
    } else {
      var a, rest := s[0], MarkedAll(s[1..], types);
      var data := Marked(a, types) + rest;
      ReadMarkedValue(a, types, depth);
      ReadMarked(s[1..], types, depth);
      MarkedFrames(a, types, rest);
      MarkedTypeReads(a, types, MAX_DEPTH - depth);
      ReadFirstWith(data, a, MarkedIn(a, types), depth);
      ReadStepWith(data, a, MarkedIn(a, types), s[1..], MarkedTypes(s[1..], types), depth);
      assert s == [a] + s[1..];
    }
  }

  lemma NothingReads(depth: nat)
    ensures ParseAttributes([], depth) == Ok(Parsed([], []))
  {
  }

  lemma MarkedTypeReads(a: Attribute, types: set<Byte>, room: nat)
    requires WellFormedAttribute(a, room)
    ensures var octet := TypeOctet(a) + (if Marks(a, types) then 1 else 0);
            octet / 2 == AttrType(a) && (octet % 2 == 1 <==> !a.Unknown? || Marks(a, types))
  {
  }

  lemma ReadFirstWith(data: seq<Byte>, a: Attribute, unknown: seq<Byte>, depth: nat)
    requires |data| >= 2 && 2 <= data[1] <= |data| && Fits(a)
    requires ParseValue(data[0] / 2, data[0] % 2 == 1, data[2..data[1]], depth) == Ok(Parsed([a], unknown))
    ensures ParseAttribute(data, depth) == Ok(Parsed([a], unknown))
  {
    assert AllFit([a][1..]);
  }

  lemma ReadStepWith(data: seq<Byte>, a: Attribute, own: seq<Byte>, others: seq<Attribute>, more: seq<Byte>, depth: nat)
    requires data != [] && ParseAttribute(data, depth) == Ok(Parsed([a], own))
    requires ParseAttributes(Rest(data), depth) == Ok(Parsed(others, more))
    ensures ParseAttributes(data, depth) == Ok(Parsed([a] + others, own + more))
  {
  }

  /** A message's octets with the types given marked. */
  function MarkedBytes(m: Message, types: set<Byte>): seq<Byte>
    requires |MarkedAll(m.attributes, types)| <= MAX_PAYLOAD_LEN
  {
    HeaderBytes(m, |MarkedAll(m.attributes, types)|) + MarkedAll(m.attributes, types)
  }

  /**
   A well-formed message with attributes marked as mandatory is read as itself when it has none
   of the types marked, and otherwise refused with those it has.
   */
  lemma MarkedIsRefused(m: Message, types: set<Byte>)
    requires WellFormed(m) && ToBytes(m).Ok?
    ensures |MarkedAll(m.attributes, types)| <= MAX_PAYLOAD_LEN
    ensures var marked := MarkedTypes(m.attributes, types);
            Parse(MarkedBytes(m, types)) ==
            if marked == [] then Ok(m) else Err(ParseError(UnknownMandatory(marked), Some(m.AsEcho())))
  {
    hide HeaderBytes, ParseHeader, ParseAttributes, MarkedAll, MarkedTypes, ToBytes, EncodeAll;
    var body := MarkedAll(m.attributes, types);
    WritesExactlyWhen(m);
    MarkedAllLength(m.attributes, types);
    PaddedSumAligned(m.attributes);
    ReadMarked(m.attributes, types, 0);
    var data := MarkedBytes(m, types);
    HeaderReadsBack(m, |body|, data);
    assert data[COMMON_HEADER_LEN..COMMON_HEADER_LEN + |body|] == body;
    WithHeader(data, ParseHeader(data).value, body, m.attributes, MarkedTypes(m.attributes, types));
  }

  /** What a whole message makes of the attributes read. */
  lemma WithHeader(data: seq<Byte>, h: Header, payload: seq<Byte>, s: seq<Attribute>, unknown: seq<Byte>)
    requires ParseHeader(data) == Ok(h) && h.fragment.None? && h.MessageLen() == |data|
    requires data[h.HeaderLen()..h.MessageLen()] == payload && ParseAttributes(payload, 0) == Ok(Parsed(s, unknown))
    ensures Parse(data) ==
            if unknown != [] then Err(ParseError(UnknownMandatory(unknown), Some(h.AsEcho())))
            else Ok(Message(h.version, h.responder, h.primitive, h.conferenceId, h.transactionId, h.userId, s))
  {
    hide ParseHeader, ParseAttributes;
  }

  // ---- trailing octets ------------------------------------------------

  /** Octets after a message that is written make it unreadable, and are counted. */
  lemma TrailingIsRefused(m: Message, rest: seq<Byte>)
    requires WellFormed(m) && ToBytes(m).Ok?
    ensures Parse(ToBytes(m).value + rest) ==
            if rest == [] then Ok(m) else Err(ParseError(TrailingBytes(|rest|), Some(m.AsEcho())))
  {
    hide ToBytes, ParsePrefix, WellFormed;
    WriteThenRead(m, rest);
  }

  /** A Hello that carries a mandatory attribute of type 64. */
  const HELLO_64: seq<Byte> := [0x20, 0x0B, 0, 1, 0, 0, 0, 1, 0, 1, 0, 7, 0x81, 4, 0, 0]

  lemma HelloIsRefused()
    ensures Parse(HELLO_64) == Err(ParseError(UnknownMandatory([64]), Some(Echo(1, 1, 1, 7))))
  {
    hide Parse, ParseHeader, ParseAttributes;
    assert HELLO_64[12..16] == [0x81, 4, 0, 0];
    HelloHeader();
    TypeSixtyFour([0x81, 4, 0, 0]);
    WithHeader(HELLO_64, Header(1, false, None, Hello, 1, 1, 7, 4), [0x81, 4, 0, 0], [Unknown(64, [0, 0])], [64]);
  }

  lemma HelloHeader()
    ensures ParseHeader(HELLO_64) == Ok(Header(1, false, None, Hello, 1, 1, 7, 4))
  {
    hide PrimitiveOf, U16OfBytes, U32OfBytes;
    var d := HELLO_64;
    assert d[0] == 0x20 && d[1] == 11 && d[2] == 0 && d[3] == 1;
    assert d[4] == d[5] == d[6] == 0 && d[7] == 1 && d[8] == 0 && d[9] == 1 && d[10] == 0 && d[11] == 7;
    PrimitiveReads(Hello);
    HelloNumbers();
  }

  lemma HelloNumbers()
    ensures U16OfBytes(0, 1) == 1 && U16OfBytes(0, 7) == 7 && U32OfBytes(0, 0, 0, 1) == 1
  {
  }

  lemma TypeSixtyFour(payload: seq<Byte>)
    requires payload == [0x81, 4, 0, 0]
    ensures ParseAttributes(payload, 0) == Ok(Parsed([Unknown(64, [0, 0])], [64]))
  {
    hide ParseAttributes, ParseAttribute, ParseValue;
    var a := Unknown(64, [0, 0]);
    assert payload[2..4] == [0, 0] && Rest(payload) == [];
    NothingReads(0);
    assert WellFormedAttribute(a, 0) && AttrType(a) == 64 && Value(a) == [0, 0];
    ReadMarkedUnknown(a, true, 0);
    ReadFirstWith(payload, a, [64], 0);
    ReadStepWith(payload, a, [64], [], [], 0);
    assert [64] + [] == [64] && [a] + [] == [a];
  }
}
