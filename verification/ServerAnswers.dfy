/**
 Which of the server's answers can be written. Every answer but one to a request is short; those
 carry texts, a request's and its user's, and are written exactly when the texts leave room.
 */
module ServerAnswers {
  import opened Wrappers
  import opened Octets
  import opened Utf8
  import opened Messages
  import opened RoundTrip
  import opened Accessors
  import opened OrderedKeys
  import opened IdAllocation
  import opened FloorServers
  import opened MandatoryAttributes
  import opened ReadableOctets
  import opened Encodability

  /** The response's octets, when there is one and it can be written. */
  function Written(out: Handled): Option<seq<Byte>> {
    if out.reply.Some? && ToBytes(out.reply.value).Ok? then Some(ToBytes(out.reply.value).value) else None
  }

  // ---- octets that cannot be read -------------------------------------

  lemma EchoIsOfTheHeader(data: seq<Byte>)
    requires Parse(data).Err?
    ensures Parse(data).error.echo == if |data| < COMMON_HEADER_LEN then None else Some(EchoOf(data))
  {
    hide ParseAttributes, EchoOf, PrimitiveOf, PayloadLen;
  }

  /** What an answer to octets that could not be read tells of them. */
  function Details(e: ParseError): seq<Byte> {
    if e.kind.UnknownMandatory? then Shifted(e.kind.types) else []
  }

  /** Each octet holds a type and, the mandatory bit left out, nothing else. */
  predicate Lists(details: seq<Byte>, types: seq<Byte>) {
    |details| == |types| && forall i :: 0 <= i < |types| ==> details[i] / 2 == types[i] && details[i] % 2 == 0
  }

  /** The details list, as their octets were without the mandatory bit, the types not understood. */
  lemma DetailsAre(data: seq<Byte>, e: ParseError)
    requires Parse(data) == Err(e) && e.kind.UnknownMandatory?
    ensures Payload(data).Some? && e.kind.types == NotUnderstood(Payload(data).value)
    ensures Lists(Details(e), NotUnderstood(Payload(data).value))
  {
    hide Parse, NotUnderstood, Payload;
    RefusedExactlyWhen(data, e.kind.types);
    ListedAreUndefined(Payload(data).value);
  }

  /**
   Octets that cannot be read leave the server as it was, and are answered with an `Error` in the
   transaction their header names exactly when the twelve octets of a header are there. The answer
   gives the code that tells why and, where that is mandatory attributes not understood, their types;
   it can be written unless there are more than 252 of them.
   */
  lemma UnreadableIsAnswered(s: Server, data: seq<Byte>, e: ParseError)
    requires s.nextRequestId != 0 && Parse(data) == Err(e)
    ensures var (t, out) := Handle(s, data);
            && t == s && out.notifications == [] && out.events == []
            && (out.reply.None? <==> |data| < COMMON_HEADER_LEN)
            && (out.reply.Some? ==>
                 && out.reply.value.primitive.Error? && out.reply.value.AsEcho() == EchoOf(data)
                 && out.reply.value.attributes == [ErrorCode(e.ErrorCode(), Details(e))]
                 && e.ErrorCode().AsU8() == Refusing(data)
                 && (if Refusing(data) == 4 then Payload(data).Some? && Lists(Details(e), NotUnderstood(Payload(data).value))
                     else Details(e) == [])
                 && (ToBytes(out.reply.value).Ok? <==> |Details(e)| <= 252))
  {
    hide Parse, EchoOf, ToBytes, Refusing, NotUnderstood, Payload;
    EchoIsOfTheHeader(data);
    CodeTellsWhy(data);
    if e.kind.UnknownMandatory? {
      DetailsAre(data, e);
    }
    if e.echo.Some? {
      RefusalWritesExactlyWhen(e.echo.value, e.ErrorCode(), Details(e));
      var none: seq<Attribute> := [];
      assert none + [ErrorCode(e.ErrorCode(), Details(e))] == [ErrorCode(e.ErrorCode(), Details(e))];
      UnreadableIs(e);
    }
  }

  lemma UnreadableIs(e: ParseError)
    requires e.echo.Some?
    ensures Unreadable(e) == Refusal(e.echo.value, e.ErrorCode(), Details(e))
  {
  }

  // ---- the short answers ----------------------------------------------

  lemma HelloIsWritten(echo: Echo)
    ensures ToBytes(HelloMessage(echo)).Ok?
  {
    hide ToBytes;
    var m := HelloMessage(echo);
    WritesExactlyWhen(m);
    One(m.attributes[0]);
    One(m.attributes[1]);
    PaddedSumOfBoth([m.attributes[0]], [m.attributes[1]]);
    assert m.attributes == [m.attributes[0]] + [m.attributes[1]];
  }

  /** An `Error` can be written if and only if its details come to at most 252 octets. */
  lemma RefusalWritesExactlyWhen(echo: Echo, code: Code, details: seq<Byte>)
    ensures ToBytes(ErrorMessage(echo, code, details)).Ok? <==> |details| <= 252
  {
    hide ToBytes;
    var m := ErrorMessage(echo, code, details);
    WritesExactlyWhen(m);
    One(ErrorCode(code, details));
    assert m.attributes == [ErrorCode(code, details)];
  }

  lemma EmptyIsWritten(echo: Echo, primitive: Primitive)
    ensures ToBytes(Response(echo, primitive)).Ok?
  {
    hide ToBytes;
    WritesExactlyWhen(Response(echo, primitive));
  }

  // ---- which requests are answered ------------------------------------

  /** The texts that an accepted message's answer must carry leave it room to be written. */
  predicate Answerable(s: Server, m: Message) {
    if Refused(s, m).Some? then true
    else
      var id := FirstIdOf(m, FloorRequestId);
      match m.primitive
      case Hello => true
      case Goodbye => true
      case FloorRequest =>
        NameRoom(s, m.userId) + Room(TextIn(m.attributes, ParticipantProvidedInfo)) <= 224
      case FloorRelease => id.Some? && id.value in s.requests && TextRoom(s, s.requests[id.value], None) <= 224
      case FloorRequestQuery =>
        id.Some? && id.value in s.requests && TextRoom(s, s.requests[id.value], None) <= 224
      case FloorQuery => IdsOf(m.attributes, FloorId) == [] || FloorWritable(s)
      case UserQuery =>
        var about := FirstIdOf(m, BeneficiaryId);
        UserWritable(s, if about.Some? then about.value else m.userId)
      case _ => false
  }

  /** Octets that have a header are answered unless the answer is too long. */
  predicate AnswerableOctets(s: Server, data: seq<Byte>) {
    match Parse(data)
    case Ok(m) => Answerable(s, m)
    case Err(e) => e.echo.Some? && |Details(e)| <= 252
  }

  lemma RequestIsAnswerable(s: Server, m: Message)
    requires Inv(s) && s.nextRequestId != 0 && !Spins(s, m) && Refused(s, m).None? && m.primitive.FloorRequest?
    ensures Written(HandleRequest(s, m).1).Some? <==> Answerable(s, m)
  {
    hide Inv, Refused, StatusMessage, ToBytes, TextIn, PriorityIn, Room;
    var (t, out) := HandleRequest(s, m);
    var id := Fresh(s.requests.Keys, s.nextRequestId);
    StatusWritesExactlyWhen(t, m.AsEcho(), t.requests[id], None);
    NoRoom();
  }

  lemma ReleaseIsAnswerable(s: Server, m: Message, id: U16)
    requires id in s.requests
    ensures Written(HandleRelease(s, m, id).1).Some? <==> TextRoom(s, s.requests[id], None) <= 224
  {
    hide StatusMessage, ToBytes, Room, Broadcast;
    var done := s.requests[id].(status := if s.requests[id].status.Granted? then Released else Cancelled);
    StatusWritesExactlyWhen(s.(requests := s.requests - {id}), m.AsEcho(), done, None);
  }

  lemma FloorQueryIsAnswerable(s: Server, m: Message)
    requires m.userId in s.users
    ensures Written(HandleFloorQuery(s, m).1).Some? <==>
            IdsOf(m.attributes, FloorId) == [] || FloorWritable(s)
  {
    hide FloorMessage, ToBytes, IdsOf, FloorWritable;
    var t := HandleFloorQuery(s, m).0;
    FloorStatusWritesExactlyWhen(t, m.AsEcho(), FloorMessage(t, m.AsEcho()).responder);
    EmptyIsWritten(m.AsEcho(), FloorStatus);
    SubscribingTakesNothing(s, t);
  }

  lemma SubscribingTakesNothing(s: Server, t: Server)
    requires t.requests == s.requests
    requires forall u :: u in s.users <==> u in t.users
    requires forall u :: u in s.users ==>
               t.users[u].displayName == s.users[u].displayName && t.users[u].uri == s.users[u].uri
    ensures FloorWritable(t) <==> FloorWritable(s)
  {
    hide Ascending, Room, InfosRoom;
    forall r: FloorServers.Request ensures TextRoom(t, r, None) == TextRoom(s, r, None) {
    }
    SameInfosRoom(s, t, Ascending(s.requests.Keys));
  }

  lemma {:induction false} SameInfosRoom(s: Server, t: Server, ids: seq<U16>)
    requires t.requests == s.requests && forall i :: 0 <= i < |ids| ==> ids[i] in s.requests
    requires forall r: FloorServers.Request :: TextRoom(t, r, None) == TextRoom(s, r, None)
    ensures InfosRoom(t, ids) == InfosRoom(s, ids)
    decreases |ids|
  {
    hide TextRoom;
    if ids != [] {
      SameInfosRoom(s, t, ids[1..]);
    }
  }

  /** What the server makes of a message is written exactly when the texts leave room. */
  lemma WrittenExactlyWhen(s: Server, m: Message)
    requires Inv(s) && s.nextRequestId != 0 && !Spins(s, m)
    ensures Written(HandleMessage(s, m).1).Some? <==> Answerable(s, m)
  {
    hide Inv, Refused, ToBytes, StatusMessage, FloorMessage, UserMessage, HelloMessage, ErrorMessage, HandleRequest,
         HandleRelease, HandleFloorQuery, RemoveUser, IdsOf, TextRoom, FloorWritable,
         UserWritable, NameRoom, Room;
    var echo := m.AsEcho();
    if Refused(s, m).Some? {
      RefusalWritesExactlyWhen(echo, Refused(s, m).value, []);
    } else if !m.primitive.IsAck() {
      AcceptedIs(s, m);
      match m.primitive
      case Hello => HelloIsWritten(echo);
      case Goodbye => EmptyIsWritten(echo, GoodbyeAck);
      case FloorRequest => RequestIsAnswerable(s, m);
      case FloorRelease => ReleaseIsAnswerable(s, m, FirstIdOf(m, FloorRequestId).value);
      case FloorRequestQuery =>
        StatusWritesExactlyWhen(s, echo, s.requests[FirstIdOf(m, FloorRequestId).value], None);
      case FloorQuery => FloorQueryIsAnswerable(s, m);
      case UserQuery =>
        var about := FirstIdOf(m, BeneficiaryId);
        UserStatusWritesExactlyWhen(s, echo, if about.Some? then about.value else m.userId);
      case _ =>
    }
  }

  lemma AcceptedIs(s: Server, m: Message)
    requires Refused(s, m).None?
    ensures m.primitive.FloorRelease? || m.primitive.FloorRequestQuery? ==>
              FirstIdOf(m, FloorRequestId).Some? && FirstIdOf(m, FloorRequestId).value in s.requests
    ensures m.primitive.FloorQuery? ==> m.userId in s.users
    ensures !m.primitive.ChairAction?
  {
    hide IdsOf;
  }

  /** What the server makes of any octets is written exactly when the answer is not too long. */
  lemma HandledWritesExactlyWhen(s: Server, data: seq<Byte>)
    requires Inv(s) && s.nextRequestId != 0 && !SpinsOn(s, data)
    ensures Written(Handle(s, data).1).Some? <==> AnswerableOctets(s, data)
  {
    hide Inv, Parse, ToBytes, HandleMessage, Spins, Answerable, Details, Unreadable;
    match Parse(data)
    case Ok(m) => WrittenExactlyWhen(s, m);
    case Err(e) =>
      if e.echo.Some? {
        UnreadableIs(e);
        RefusalWritesExactlyWhen(e.echo.value, e.ErrorCode(), Details(e));
      } else {
        NothingIsWritten(e);
      }
  }

  lemma NothingIsWritten(e: ParseError)
    requires e.echo.None?
    ensures Written(Unreadable(e)).None?
  {
  }
}
