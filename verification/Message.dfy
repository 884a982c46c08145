/**
 BFCP messages on the wire (sections 5.1 and 5.2 of RFC 8855): the entities, the
 lengths, what a message's octets are, and the writer and the reader themselves.
 The functions are the specification; the methods append, patch and consume as the
 program does and are proved against them.
 */
module Messages {
  import opened Wrappers
  import opened Octets
  import opened Utf8

  const VERSION_RELIABLE: Byte := 1
  const VERSION_UNRELIABLE: Byte := 2
  const COMMON_HEADER_LEN := 12
  const FRAGMENT_LEN := 4
  const MAX_PAYLOAD_LEN := 0xFFFF * 4
  const MAX_LENGTH: nat := 0xFF
  const MAX_DEPTH := 4

  // ---- the code tables ------------------------------------------------

  datatype Primitive =
    | FloorRequest | FloorRelease | FloorRequestQuery | FloorRequestStatus
    | UserQuery | UserStatus | FloorQuery | FloorStatus
    | ChairAction | ChairActionAck | Hello | HelloAck
    | Error | FloorRequestStatusAck | FloorStatusAck | Goodbye | GoodbyeAck
  {
    function AsU8(): Byte {
      match this
      case FloorRequest => 1
      case FloorRelease => 2
      case FloorRequestQuery => 3
      case FloorRequestStatus => 4
      case UserQuery => 5
      case UserStatus => 6
      case FloorQuery => 7
      case FloorStatus => 8
      case ChairAction => 9
      case ChairActionAck => 10
      case Hello => 11
      case HelloAck => 12
      case Error => 13
      case FloorRequestStatusAck => 14
      case FloorStatusAck => 15
      case Goodbye => 16
      case GoodbyeAck => 17
    }

    predicate IsAck() {
      FloorRequestStatusAck? || FloorStatusAck? || GoodbyeAck?
    }
  }

  /** Every primitive, in wire order. */
  const ALL_PRIMITIVES: seq<Primitive> := [
    FloorRequest, FloorRelease, FloorRequestQuery, Primitive.FloorRequestStatus,
    UserQuery, UserStatus, FloorQuery, FloorStatus,
    ChairAction, ChairActionAck, Hello, HelloAck,
    Error, FloorRequestStatusAck, FloorStatusAck, Goodbye, GoodbyeAck
  ]

  function PrimitiveOf(v: Byte): (p: Option<Primitive>)
    ensures p.Some? ==> p.value.AsU8() == v
    ensures p.None? <==> !(1 <= v <= 17)
  {
    if 1 <= v <= 17 then Some(ALL_PRIMITIVES[v - 1]) else None
  }

  datatype Status = Pending | Accepted | Granted | Denied | Cancelled | Released | Revoked
  {
    function AsU8(): Byte {
      match this
      case Pending => 1
      case Accepted => 2
      case Granted => 3
      case Denied => 4
      case Cancelled => 5
      case Released => 6
      case Revoked => 7
    }

    predicate IsTerminal() {
      Denied? || Cancelled? || Released? || Revoked?
    }
  }

  const ALL_STATUSES: seq<Status> := [Pending, Accepted, Granted, Denied, Cancelled, Released, Revoked]

  function StatusOf(v: Byte): (s: Option<Status>)
    ensures s.Some? ==> s.value.AsU8() == v
    ensures s.None? <==> !(1 <= v <= 7)
  {
    if 1 <= v <= 7 then Some(ALL_STATUSES[v - 1]) else None
  }

  datatype Code =
    | ConferenceDoesNotExist | UserDoesNotExist | UnknownPrimitive
    | UnknownMandatoryAttribute | UnauthorizedOperation | InvalidFloorId
    | FloorRequestIdDoesNotExist | MaximumFloorRequestsReached | UseTls
    | UnableToParseMessage | UseDtls | UnsupportedVersion
    | IncorrectMessageLength | GenericError
    | Other(value: Byte)
  {
    function AsU8(): Byte {
      match this
      case ConferenceDoesNotExist => 1
      case UserDoesNotExist => 2
      case UnknownPrimitive => 3
      case UnknownMandatoryAttribute => 4
      case UnauthorizedOperation => 5
      case InvalidFloorId => 6
      case FloorRequestIdDoesNotExist => 7
      case MaximumFloorRequestsReached => 8
      case UseTls => 9
      case UnableToParseMessage => 10
      case UseDtls => 11
      case UnsupportedVersion => 12
      case IncorrectMessageLength => 13
      case GenericError => 14
      case Other(v) => v
    }
  }

  function CodeOf(v: Byte): (c: Code)
    ensures c.AsU8() == v
    ensures c.Other? <==> !(1 <= v <= 14)
  {
    match v
    case 1 => ConferenceDoesNotExist
    case 2 => UserDoesNotExist
    case 3 => UnknownPrimitive
    case 4 => UnknownMandatoryAttribute
    case 5 => UnauthorizedOperation
    case 6 => InvalidFloorId
    case 7 => FloorRequestIdDoesNotExist
    case 8 => MaximumFloorRequestsReached
    case 9 => UseTls
    case 10 => UnableToParseMessage
    case 11 => UseDtls
    case 12 => UnsupportedVersion
    case 13 => IncorrectMessageLength
    case 14 => GenericError
    case other => Other(other)
  }

  datatype Priority = Lowest | Low | Normal | High | Highest
  {
    function AsU8(): Byte {
      match this
      case Lowest => 0
      case Low => 1
      case Normal => 2
      case High => 3
      case Highest => 4
    }
  }

  function PriorityOf(v: Byte): (p: Priority)
    ensures p.AsU8() == Min(v, 4)
  {
    match v
    case 0 => Lowest
    case 1 => Low
    case 2 => Normal
    case 3 => High
    case _ => Highest
  }

  // ---- attributes -----------------------------------------------------

  datatype IdKind = BeneficiaryId | FloorId | FloorRequestId

  datatype TextKind = ErrorInfo | ParticipantProvidedInfo | StatusInfo | UserDisplayName | UserUri

  datatype ListKind = SupportedAttributes | SupportedPrimitives

  datatype GroupKind =
    | BeneficiaryInformation | FloorRequestInformation | RequestedByInformation
    | FloorRequestStatus | OverallRequestStatus

  /**
   One attribute. Those the program always treats alike share a constructor and
   are told apart by their kind.
   */
  datatype Attribute =
    | Id(idKind: IdKind, value: U16)
    | PriorityAttr(priority: Priority)
    | RequestStatus(status: Status, queuePosition: Byte)
    | ErrorCode(code: Code, details: seq<Byte>)
    | TextAttr(textKind: TextKind, text: Text)
    | List(listKind: ListKind, octets: seq<Byte>)
    | Group(groupKind: GroupKind, id: U16, attributes: seq<Attribute>)
    | Unknown(unknownType: Byte, octets: seq<Byte>)

  /** The 7-bit type on the wire. */
  function AttrType(a: Attribute): Byte {
    match a
    case Id(BeneficiaryId, _) => 1
    case Id(FloorId, _) => 2
    case Id(FloorRequestId, _) => 3
    case PriorityAttr(_) => 4
    case RequestStatus(_, _) => 5
    case ErrorCode(_, _) => 6
    case TextAttr(ErrorInfo, _) => 7
    case TextAttr(ParticipantProvidedInfo, _) => 8
    case TextAttr(StatusInfo, _) => 9
    case List(SupportedAttributes, _) => 10
    case List(SupportedPrimitives, _) => 11
    case TextAttr(UserDisplayName, _) => 12
    case TextAttr(UserUri, _) => 13
    case Group(kind, _, _) => GroupType(kind)
    case Unknown(t, _) => t
  }

  function GroupType(kind: GroupKind): Byte {
    match kind
    case BeneficiaryInformation => 14
    case FloorRequestInformation => 15
    case RequestedByInformation => 16
    case FloorRequestStatus => 17
    case OverallRequestStatus => 18
  }

  function GroupKindOf(t: Byte): GroupKind
    requires 14 <= t <= 18
  {
    match t
    case 14 => BeneficiaryInformation
    case 15 => FloorRequestInformation
    case 16 => RequestedByInformation
    case 17 => GroupKind.FloorRequestStatus
    case _ => OverallRequestStatus
  }

  function TextKindOf(t: Byte): TextKind
    requires t in [7, 8, 9, 12, 13]
  {
    match t
    case 7 => ErrorInfo
    case 8 => ParticipantProvidedInfo
    case 9 => StatusInfo
    case 12 => UserDisplayName
    case _ => UserUri
  }

  /** The length the attribute's header states: its own padding left out, its children's counted. */
  function UnpaddedLen(a: Attribute): nat
    decreases a, 1
  {
    2 + match a
        case Id(_, _) => 2
        case PriorityAttr(_) => 2
        case RequestStatus(_, _) => 2
        case ErrorCode(_, details) => 1 + |details|
        case TextAttr(_, text) => |text|
        case List(_, octets) => |octets|
        case Unknown(_, octets) => |octets|
        case Group(_, _, attributes) => 2 + PaddedSum(attributes)
  }

  function PaddedSum(s: seq<Attribute>): nat
    decreases s, 0
  {
    if s == [] then 0 else Pad4(UnpaddedLen(s[0])) + PaddedSum(s[1..])
  }

  function PaddedLen(a: Attribute): nat {
    Pad4(UnpaddedLen(a))
  }

  predicate Fits(a: Attribute)
    decreases a, 1
  {
    UnpaddedLen(a) <= MAX_LENGTH && (a.Group? ==> AllFit(a.attributes))
  }

  predicate AllFit(s: seq<Attribute>)
    decreases s, 0
  {
    s == [] || (Fits(s[0]) && AllFit(s[1..]))
  }

  // ---- what an attribute's octets are ---------------------------------

  function Value(a: Attribute): seq<Byte>
    decreases a, 0
  {
    match a
    case Id(_, v) => BytesOfU16(v)
    case PriorityAttr(p) => [p.AsU8() * 32, 0]
    case RequestStatus(status, position) => [status.AsU8(), position]
    case ErrorCode(code, details) => [code.AsU8()] + details
    case TextAttr(_, text) => text
    case List(_, octets) => octets
    case Unknown(_, octets) => octets
    case Group(_, id, attributes) => BytesOfU16(id) + EncodeAll(attributes)
  }

  /** The type with its mandatory bit, set on every attribute the program defines. */
  function TypeOctet(a: Attribute): Byte {
    AttrType(a) * 2 % 0x100 + (if a.Unknown? then 0 else 1)
  }

  function LengthOctet(a: Attribute): Byte {
    Min(UnpaddedLen(a), MAX_LENGTH)
  }

  function Encode(a: Attribute): seq<Byte>
    decreases a, 1
  {
    var unpadded := [TypeOctet(a), LengthOctet(a)] + Value(a);
    unpadded + Zeros(Pad4(|unpadded|) - |unpadded|)
  }

  function EncodeAll(s: seq<Attribute>): seq<Byte>
    decreases s, 0
  {
    if s == [] then [] else Encode(s[0]) + EncodeAll(s[1..])
  }

  // ---- messages -------------------------------------------------------

  /** What a reply copies. */
  datatype Echo = Echo(version: Byte, conferenceId: U32, transactionId: U16, userId: U16)

  datatype Header = Header(version: Byte, responder: bool, fragment: Option<(U16, U16)>,
                           primitive: Primitive, conferenceId: U32, transactionId: U16, userId: U16,
                           payloadLen: nat)
  {
    function HeaderLen(): nat {
      COMMON_HEADER_LEN + if fragment.Some? then FRAGMENT_LEN else 0
    }

    function MessageLen(): nat {
      HeaderLen() + payloadLen
    }

    function AsEcho(): Echo {
      Echo(version, conferenceId, transactionId, userId)
    }
  }

  datatype ErrorKind =
    | Truncated
    | TrailingBytes(count: nat)
    | BadPrimitive(primitive: Byte)
    | UnknownMandatory(types: seq<Byte>)
    | BadAttributeLength(attrType: Byte)
    | BadAttributeValue(attrType: Byte)
    | Fragmented

  datatype ParseError = ParseError(kind: ErrorKind, echo: Option<Echo>)
  {
    /** The error code a floor server answers this with. */
    function ErrorCode(): Code {
      match kind
      case BadPrimitive(_) => UnknownPrimitive
      case UnknownMandatory(_) => UnknownMandatoryAttribute
      case Truncated => IncorrectMessageLength
      case TrailingBytes(_) => IncorrectMessageLength
      case _ => UnableToParseMessage
    }
  }

  datatype EncodeError = AttributeTooLong(attrType: Byte) | PayloadTooLong

  datatype Message = Message(version: Byte, responder: bool, primitive: Primitive, conferenceId: U32,
                             transactionId: U16, userId: U16, attributes: seq<Attribute>)
  {
    function AsEcho(): Echo {
      Echo(version, conferenceId, transactionId, userId)
    }

    function With(a: Attribute): Message {
      this.(attributes := attributes + [a])
    }
  }

  /** A response in the transaction `echo` names: the R flag is for unreliable transports. */
  function Response(echo: Echo, primitive: Primitive): Message {
    Message(echo.version, echo.version == VERSION_UNRELIABLE, primitive, echo.conferenceId,
            echo.transactionId, echo.userId, [])
  }

  /** An `Error` response, without its wording. */
  function ErrorMessage(echo: Echo, code: Code, details: seq<Byte>): Message {
    Response(echo, Error).With(ErrorCode(code, details))
  }

  function HeaderBytes(m: Message, payloadLen: nat): seq<Byte>
    requires payloadLen <= MAX_PAYLOAD_LEN
  {
    [m.version % 8 * 32 + (if m.responder then 16 else 0), m.primitive.AsU8()]
    + BytesOfU16(payloadLen / 4) + BytesOfU32(m.conferenceId)
    + BytesOfU16(m.transactionId) + BytesOfU16(m.userId)
  }

  /** The first attribute that does not fit its length octet, if any. */
  function FirstUnfit(s: seq<Attribute>): Option<Attribute> {
    if s == [] then None
    else if !Fits(s[0]) then Some(s[0])
    else FirstUnfit(s[1..])
  }

  function ToBytes(m: Message): Result<seq<Byte>, EncodeError> {
    var unfit := FirstUnfit(m.attributes);
    var body := EncodeAll(m.attributes);
    if unfit.Some? then Err(AttributeTooLong(AttrType(unfit.value)))
    else if |body| > MAX_PAYLOAD_LEN then Err(PayloadTooLong)
    else Ok(HeaderBytes(m, |body|) + body)
  }

  // ---- reading --------------------------------------------------------

  function EchoOf(data: seq<Byte>): Echo
    requires |data| >= COMMON_HEADER_LEN
  {
    Echo(data[0] / 32, U32OfBytes(data[4], data[5], data[6], data[7]),
         U16OfBytes(data[8], data[9]), U16OfBytes(data[10], data[11]))
  }

  predicate FragmentFlag(data: seq<Byte>)
    requires data != []
  {
    data[0] / 8 % 2 == 1
  }

  function PayloadLen(data: seq<Byte>): nat
    requires |data| >= 4
  {
    U16OfBytes(data[2], data[3]) * 4
  }

  function ParseHeader(data: seq<Byte>): Result<Header, ParseError> {
    if |data| < COMMON_HEADER_LEN then Err(ParseError(Truncated, None))
    else
      var echo := EchoOf(data);
      var primitive := PrimitiveOf(data[1]);
      if primitive.None? then Err(ParseError(BadPrimitive(data[1]), Some(echo)))
      else if FragmentFlag(data) && |data| < COMMON_HEADER_LEN + FRAGMENT_LEN then
        Err(ParseError(Truncated, Some(echo)))
      else
        var fragment :=
          if FragmentFlag(data) then Some((U16OfBytes(data[12], data[13]), U16OfBytes(data[14], data[15])))
          else None;
        Ok(Header(echo.version, data[0] / 16 % 2 == 1, fragment, primitive.value, echo.conferenceId,
                  echo.transactionId, echo.userId, PayloadLen(data)))
  }

  /** Attributes read, and the types of the mandatory ones among them that are not understood. */
  datatype Parsed = Parsed(attributes: seq<Attribute>, unknown: seq<Byte>)

  function ParseAttributes(data: seq<Byte>, depth: nat): (r: Result<Parsed, ErrorKind>)
    decreases |data|, 2
  {
    if data == [] then Ok(Parsed([], []))
    else
      match ParseAttribute(data, depth)
      case Err(e) => Err(e)
      case Ok(first) =>
        match ParseAttributes(Rest(data), depth)
        case Err(e) => Err(e)
        case Ok(others) => Ok(Parsed(first.attributes + others.attributes, first.unknown + others.unknown))
  }

  /** What follows the first attribute; its padding may be cut short by the end. */
  function Rest(data: seq<Byte>): (rest: seq<Byte>)
    requires |data| >= 2 && data[1] >= 2
    ensures |rest| < |data|
  {
    data[Min(Pad4(data[1]), |data|)..]
  }

  /** The attribute at the front, alone in its result. */
  function ParseAttribute(data: seq<Byte>, depth: nat): (r: Result<Parsed, ErrorKind>)
    requires data != []
    ensures r.Ok? ==> |data| >= 2 && data[1] >= 2
    decreases |data|, 1
  {
    if |data| < 2 then Err(Truncated)
    else
      var t := data[0] / 2;
      var len := data[1];
      if len < 2 || len > |data| then Err(BadAttributeLength(t))
      else
        match ParseValue(t, data[0] % 2 == 1, data[2..len], depth)
        case Err(e) => Err(e)
        case Ok(p) => if AllFit(p.attributes) then Ok(p) else Err(BadAttributeLength(t))
  }

  function ParseValue(t: Byte, mandatory: bool, value: seq<Byte>, depth: nat): Result<Parsed, ErrorKind>
    decreases |value|, 3
  {
    var bad := Err(BadAttributeValue(t));
    if 1 <= t <= 3 then
      if |value| < 2 then bad
      else
        var kind := if t == 1 then BeneficiaryId else if t == 2 then FloorId else FloorRequestId;
        Ok(Parsed([Id(kind, U16OfBytes(value[0], value[1]))], []))
    else if t == 4 then
      if |value| < 2 then bad else Ok(Parsed([PriorityAttr(PriorityOf(value[0] / 32))], []))
    else if t == 5 then
      if |value| < 2 || StatusOf(value[0]).None? then bad
      else Ok(Parsed([RequestStatus(StatusOf(value[0]).value, value[1])], []))
    else if t == 6 then
      if |value| < 1 then bad else Ok(Parsed([ErrorCode(CodeOf(value[0]), value[1..])], []))
    else if t in [7, 8, 9, 12, 13] then
      Ok(Parsed([TextAttr(TextKindOf(t), TextValue(value))], []))
    else if 10 <= t <= 11 then
      Ok(Parsed([List(if t == 10 then SupportedAttributes else SupportedPrimitives, value)], []))
    else if 14 <= t <= 18 then
      if depth >= MAX_DEPTH || |value| < 2 then bad
      else
        match ParseAttributes(value[2..], depth + 1)
        case Err(e) => Err(e)
        case Ok(inner) =>
          Ok(Parsed([Group(GroupKindOf(t), U16OfBytes(value[0], value[1]), inner.attributes)], inner.unknown))
    else Ok(Parsed([Unknown(t, value)], if mandatory then [t] else []))
  }

  function ParsePrefix(data: seq<Byte>): (r: Result<(Message, nat), ParseError>)
    ensures r.Ok? ==> r.value.1 <= |data|
  {
    match ParseHeader(data)
    case Err(e) => Err(e)
    case Ok(h) =>
      var echo := Some(h.AsEcho());
      var end := h.MessageLen();
      if h.fragment.Some? then Err(ParseError(Fragmented, echo))
      else if |data| < end then Err(ParseError(Truncated, echo))
      else
        match ParseAttributes(data[h.HeaderLen()..end], 0)
        case Err(kind) => Err(ParseError(kind, echo))
        case Ok(p) =>
          if p.unknown != [] then Err(ParseError(UnknownMandatory(p.unknown), echo))
          else
            Ok((Message(h.version, h.responder, h.primitive, h.conferenceId, h.transactionId, h.userId,
                        p.attributes), end))
  }

  function Parse(data: seq<Byte>): Result<Message, ParseError> {
    match ParsePrefix(data)
    case Err(e) => Err(e)
    case Ok((m, used)) =>
      if used != |data| then Err(ParseError(TrailingBytes(|data| - used), Some(m.AsEcho())))
      else Ok(m)
  }
}
