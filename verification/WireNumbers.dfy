/**
 The numbers on the wire (sections 5.1 and 5.2 of RFC 8855), each with what it stands for and with
 nothing else, and one message octet by octet.
 */
module WireNumbers {
  import opened Wrappers
  import opened Octets
  import opened Messages
  import opened RoundTrip
  import Utf8

  lemma PrimitiveNumbers(p: Primitive)
    ensures p.FloorRequest? <==> p.AsU8() == 1
    ensures p.FloorRelease? <==> p.AsU8() == 2
    ensures p.FloorRequestQuery? <==> p.AsU8() == 3
    ensures p.FloorRequestStatus? <==> p.AsU8() == 4
    ensures p.UserQuery? <==> p.AsU8() == 5
    ensures p.UserStatus? <==> p.AsU8() == 6
    ensures p.FloorQuery? <==> p.AsU8() == 7
    ensures p.FloorStatus? <==> p.AsU8() == 8
    ensures p.ChairAction? <==> p.AsU8() == 9
    ensures p.ChairActionAck? <==> p.AsU8() == 10
    ensures p.Hello? <==> p.AsU8() == 11
    ensures p.HelloAck? <==> p.AsU8() == 12
    ensures p.Error? <==> p.AsU8() == 13
    ensures p.FloorRequestStatusAck? <==> p.AsU8() == 14
    ensures p.FloorStatusAck? <==> p.AsU8() == 15
    ensures p.Goodbye? <==> p.AsU8() == 16
    ensures p.GoodbyeAck? <==> p.AsU8() == 17
  {
  }

  lemma StatusNumbers(s: Status)
    ensures s.Pending? <==> s.AsU8() == 1
    ensures s.Accepted? <==> s.AsU8() == 2
    ensures s.Granted? <==> s.AsU8() == 3
    ensures s.Denied? <==> s.AsU8() == 4
    ensures s.Cancelled? <==> s.AsU8() == 5
    ensures s.Released? <==> s.AsU8() == 6
    ensures s.Revoked? <==> s.AsU8() == 7
    ensures s.IsTerminal() <==> s.AsU8() >= 4
  {
  }

  /** A code that is read names its cause. */
  lemma CodeNumbers(v: Byte)
    ensures CodeOf(v).ConferenceDoesNotExist? <==> v == 1
    ensures CodeOf(v).UserDoesNotExist? <==> v == 2
    ensures CodeOf(v).UnknownPrimitive? <==> v == 3
    ensures CodeOf(v).UnknownMandatoryAttribute? <==> v == 4
    ensures CodeOf(v).UnauthorizedOperation? <==> v == 5
    ensures CodeOf(v).InvalidFloorId? <==> v == 6
    ensures CodeOf(v).FloorRequestIdDoesNotExist? <==> v == 7
    ensures CodeOf(v).MaximumFloorRequestsReached? <==> v == 8
    ensures CodeOf(v).UseTls? <==> v == 9
    ensures CodeOf(v).UnableToParseMessage? <==> v == 10
    ensures CodeOf(v).UseDtls? <==> v == 11
    ensures CodeOf(v).UnsupportedVersion? <==> v == 12
    ensures CodeOf(v).IncorrectMessageLength? <==> v == 13
    ensures CodeOf(v).GenericError? <==> v == 14
  {
  }

  /** The type of an attribute that is well formed tells its kind. */
  lemma AttributeNumbers(a: Attribute)
    requires WellFormedAttribute(a, MAX_DEPTH)
    ensures a.Id? && a.idKind.BeneficiaryId? <==> AttrType(a) == 1
    ensures a.Id? && a.idKind.FloorId? <==> AttrType(a) == 2
    ensures a.Id? && a.idKind.FloorRequestId? <==> AttrType(a) == 3
    ensures a.PriorityAttr? <==> AttrType(a) == 4
    ensures a.RequestStatus? <==> AttrType(a) == 5
    ensures a.ErrorCode? <==> AttrType(a) == 6
    ensures a.TextAttr? && a.textKind.ErrorInfo? <==> AttrType(a) == 7
    ensures a.TextAttr? && a.textKind.ParticipantProvidedInfo? <==> AttrType(a) == 8
    ensures a.TextAttr? && a.textKind.StatusInfo? <==> AttrType(a) == 9
    ensures a.List? && a.listKind.SupportedAttributes? <==> AttrType(a) == 10
    ensures a.List? && a.listKind.SupportedPrimitives? <==> AttrType(a) == 11
    ensures a.TextAttr? && a.textKind.UserDisplayName? <==> AttrType(a) == 12
    ensures a.TextAttr? && a.textKind.UserUri? <==> AttrType(a) == 13
    ensures a.Group? && a.groupKind.BeneficiaryInformation? <==> AttrType(a) == 14
    ensures a.Group? && a.groupKind.FloorRequestInformation? <==> AttrType(a) == 15
    ensures a.Group? && a.groupKind.RequestedByInformation? <==> AttrType(a) == 16
    ensures a.Group? && a.groupKind.FloorRequestStatus? <==> AttrType(a) == 17
    ensures a.Group? && a.groupKind.OverallRequestStatus? <==> AttrType(a) == 18
  {
    hide AllWellFormed;
  }

  /** A request over UDP for floor 1 of conference 4321, in transaction 7, from user 1234: high priority, for "slides". */
  const SLIDES: Utf8.Text := [0x73, 0x6C, 0x69, 0x64, 0x65, 0x73]
  const REQUEST := Message(VERSION_UNRELIABLE, false, FloorRequest, 4321, 7, 1234,
                           [Id(FloorId, 1), PriorityAttr(High), TextAttr(ParticipantProvidedInfo, SLIDES)])
  const REQUEST_OCTETS: seq<Byte> :=
    [0x40, 1, 0, 4, 0, 0, 0x10, 0xE1, 0, 7, 0x04, 0xD2,
     0x05, 4, 0, 1, 0x09, 4, 0x60, 0, 0x11, 8, 0x73, 0x6C, 0x69, 0x64, 0x65, 0x73]

  lemma FirstOctets()
    ensures Encode(Id(FloorId, 1)) == [0x05, 4, 0, 1]
    ensures Encode(PriorityAttr(High)) == [0x09, 4, 0x60, 0]
  {
    assert Zeros(0) == [];
  }

  lemma TextOctets()
    ensures Encode(TextAttr(ParticipantProvidedInfo, SLIDES)) == [0x11, 8, 0x73, 0x6C, 0x69, 0x64, 0x65, 0x73]
  {
    hide Utf8.ValidUtf8;
    assert Zeros(0) == [];
  }

  lemma HeadOctets()
    ensures HeaderBytes(REQUEST, 16) == [0x40, 1, 0, 4, 0, 0, 0x10, 0xE1, 0, 7, 0x04, 0xD2]
  {
    hide BytesOfU16, BytesOfU32;
    Numbers();
  }

  lemma Numbers()
    ensures BytesOfU16(4) == [0, 4] && BytesOfU16(7) == [0, 7] && BytesOfU16(1234) == [4, 0xD2]
    ensures BytesOfU32(4321) == [0, 0, 0x10, 0xE1]
  {
  }

  lemma ThreeInARow(a: Attribute, b: Attribute, d: Attribute)
    ensures EncodeAll([a, b, d]) == Encode(a) + Encode(b) + Encode(d)
    ensures Fits(a) && Fits(b) && Fits(d) ==> AllFit([a, b, d])
    ensures WellFormedAttribute(a, 4) && WellFormedAttribute(b, 4) && WellFormedAttribute(d, 4) ==>
              AllWellFormed([a, b, d], 4)
  {
    hide Encode, Fits, WellFormedAttribute;
    assert [a, b, d][1..] == [b, d] && [b, d][1..] == [d] && [d][1..] == [];
    assert EncodeAll([d]) == Encode(d) + [] && EncodeAll([b, d]) == Encode(b) + EncodeAll([d]);
    assert AllFit([d]) == Fits(d) && AllFit([b, d]) == (Fits(b) && AllFit([d]));
    assert AllWellFormed([d], 4) == WellFormedAttribute(d, 4);
    assert AllWellFormed([b, d], 4) == (WellFormedAttribute(b, 4) && AllWellFormed([d], 4));
  }

  lemma BodyOctets()
    ensures EncodeAll(REQUEST.attributes) == REQUEST_OCTETS[12..]
    ensures AllFit(REQUEST.attributes) && AllWellFormed(REQUEST.attributes, MAX_DEPTH)
  {
    hide Encode, EncodeAll, AllFit, AllWellFormed, Utf8.ValidUtf8;
    FirstOctets();
    TextOctets();
    ThreeInARow(Id(FloorId, 1), PriorityAttr(High), TextAttr(ParticipantProvidedInfo, SLIDES));
  }

  lemma HeadAndBody(m: Message, head: seq<Byte>, body: seq<Byte>)
    requires AllFit(m.attributes) && EncodeAll(m.attributes) == body && |body| <= MAX_PAYLOAD_LEN
    requires HeaderBytes(m, |body|) == head
    ensures ToBytes(m) == Ok(head + body)
  {
    hide EncodeAll, HeaderBytes, AllFit;
    FitMembers(m.attributes);
  }

  lemma RequestOctetByOctet()
    ensures ToBytes(REQUEST) == Ok(REQUEST_OCTETS) && Parse(REQUEST_OCTETS) == Ok(REQUEST)
  {
    hide EncodeAll, HeaderBytes, AllFit, AllWellFormed, Parse, ToBytes;
    BodyOctets();
    HeadOctets();
    var head, body := REQUEST_OCTETS[..12], REQUEST_OCTETS[12..];
    assert head == [0x40, 1, 0, 4, 0, 0, 0x10, 0xE1, 0, 7, 0x04, 0xD2] && head + body == REQUEST_OCTETS;
    HeadAndBody(REQUEST, head, body);
    WriteThenRead(REQUEST, []);
  }
}
