/**
 Whether the server's own messages can be written, and what a client then reads: a
 FloorRequestStatus is written exactly when its optional texts leave room in one length octet.
 */
module Encodability {
  import opened Wrappers
  import opened Octets
  import opened Utf8
  import opened Messages
  import opened RoundTrip
  import opened Accessors
  import opened OrderedKeys
  import opened FloorServers
  import opened Subscribers
  import ServerMessages
  import opened ServerRuns

  /** What an optional text adds to the group it is in. */
  function Room(text: Option<Text>): (room: nat)
    ensures room % 4 == 0
  {
    if text.Some? then Pad4(2 + |text.value|) else 0
  }

  /** The names the server has for a user. */
  function Named(s: Server, userId: U16): User {
    if userId in s.users then s.users[userId] else User(None, None, false)
  }

  function NameRoom(s: Server, userId: U16): nat {
    Room(Named(s, userId).displayName) + Room(Named(s, userId).uri)
  }

  /** What the optional texts of a request's information come to, with their padding. */
  function TextRoom(s: Server, r: Request, info: Option<Text>): nat {
    NameRoom(s, r.userId) + Room(r.info) + Room(info)
  }

  lemma {:induction false} PaddedSumOfBoth(a: seq<Attribute>, b: seq<Attribute>)
    ensures PaddedSum(a + b) == PaddedSum(a) + PaddedSum(b)
    ensures AllFit(a + b) <==> AllFit(a) && AllFit(b)
    decreases |a|
  {
    hide UnpaddedLen, Pad4, Fits;
    if a == [] {
      assert a + b == b;
    } else {
      PaddedSumOfBoth(a[1..], b);
      assert (a + b)[1..] == a[1..] + b;
    }
  }

  lemma TextsTake(kind: TextKind, text: Option<Text>)
    ensures PaddedSum(TextAttrs(kind, text)) == Room(text)
    ensures AllFit(TextAttrs(kind, text)) <==> (text.Some? ==> 2 + |text.value| <= MAX_LENGTH)
    ensures Room(text) <= 224 ==> AllFit(TextAttrs(kind, text))
  {
    hide ValidUtf8;
    if text.Some? {
      assert [TextAttr(kind, text.value)][1..] == [];
    }
  }

  lemma One(a: Attribute)
    ensures PaddedSum([a]) == Pad4(UnpaddedLen(a)) && (AllFit([a]) <==> Fits(a))
  {
    hide UnpaddedLen, Fits;
    assert [a][1..] == [];
  }

  function Overall(r: Request, info: Option<Text>): Attribute {
    Group(OverallRequestStatus, r.id, [RequestStatus(r.status, 0)] + TextAttrs(StatusInfo, info))
  }

  function FloorPart(floorId: U16, status: Status): Attribute {
    Group(GroupKind.FloorRequestStatus, floorId, [RequestStatus(status, 0)])
  }

  lemma OverallTakes(r: Request, info: Option<Text>)
    ensures UnpaddedLen(Overall(r, info)) == 8 + Room(info) && (Room(info) <= 224 ==> Fits(Overall(r, info)))
  {
    hide TextAttrs, Pad4;
    var a := [RequestStatus(r.status, 0)];
    PaddedSumOfBoth(a, TextAttrs(StatusInfo, info));
    TextsTake(StatusInfo, info);
    One(RequestStatus(r.status, 0));
    assert Pad4(4) == 4;
  }

  lemma FloorTakes(floorId: U16, status: Status)
    ensures UnpaddedLen(FloorPart(floorId, status)) == 8 && Fits(FloorPart(floorId, status))
  {
    One(RequestStatus(status, 0));
  }

  lemma BeneficiaryTakes(s: Server, userId: U16)
    ensures UnpaddedLen(BeneficiaryInfo(s, userId)) == 4 + NameRoom(s, userId)
    ensures NameRoom(s, userId) <= 224 ==> Fits(BeneficiaryInfo(s, userId))
  {
    hide TextAttrs, Pad4, Room;
    if userId in s.users {
      var u := s.users[userId];
      PaddedSumOfBoth(TextAttrs(UserDisplayName, u.displayName), TextAttrs(UserUri, u.uri));
      TextsTake(UserDisplayName, u.displayName);
      TextsTake(UserUri, u.uri);
    } else {
      TextsTake(UserDisplayName, None);
      NoRoom();
    }
  }

  lemma NoRoom()
    ensures Room(None) == 0
  {
  }

  lemma Aligned(a: nat, b: nat)
    requires a % 4 == 0 && b % 4 == 0
    ensures (a + b) % 4 == 0
  {
  }

  lemma InfoParts(s: Server, r: Request, info: Option<Text>)
    ensures RequestInfo(s, r, info) ==
            Group(FloorRequestInformation, r.id,
                  [Overall(r, info), FloorPart(s.floorId, r.status), BeneficiaryInfo(s, r.userId), PriorityAttr(r.priority)]
                  + TextAttrs(ParticipantProvidedInfo, r.info))
  {
    hide TextAttrs, BeneficiaryInfo;
  }

  /** A request's information is its fixed 28 octets and its texts. */
  lemma InfoTakes(s: Server, r: Request, info: Option<Text>)
    ensures UnpaddedLen(RequestInfo(s, r, info)) == 28 + TextRoom(s, r, info)
    ensures TextRoom(s, r, info) <= 224 ==> Fits(RequestInfo(s, r, info))
    ensures TextRoom(s, r, info) % 4 == 0
  {
    hide TextAttrs, BeneficiaryInfo, Room, Pad4, UnpaddedLen, RequestInfo, PaddedSum, Fits, AllFit, Overall, FloorPart,
         NameRoom;
    NameRoomAligned(s, r.userId);
    Aligned(NameRoom(s, r.userId), Room(r.info));
    Aligned(NameRoom(s, r.userId) + Room(r.info), Room(info));
    OverallTakes(r, info);
    FloorTakes(s.floorId, r.status);
    BeneficiaryTakes(s, r.userId);
    TextsTake(ParticipantProvidedInfo, r.info);
    PriorityTakes(r.priority);
    Aligned(8, Room(info));
    Aligned(4, NameRoom(s, r.userId));
    InfoParts(s, r, info);
    FiveParts(r.id, Overall(r, info), FloorPart(s.floorId, r.status), BeneficiaryInfo(s, r.userId),
              PriorityAttr(r.priority), TextAttrs(ParticipantProvidedInfo, r.info));
  }

  lemma NameRoomAligned(s: Server, userId: U16)
    ensures NameRoom(s, userId) % 4 == 0
  {
    hide Room;
    Aligned(Room(Named(s, userId).displayName), Room(Named(s, userId).uri));
  }

  lemma FiveParts(id: U16, a: Attribute, b: Attribute, c: Attribute, d: Attribute, more: seq<Attribute>)
    requires UnpaddedLen(a) % 4 == 0 && UnpaddedLen(b) % 4 == 0 && UnpaddedLen(c) % 4 == 0 && UnpaddedLen(d) % 4 == 0
    ensures var g := Group(FloorRequestInformation, id, [a, b, c, d] + more);
            && UnpaddedLen(g) == 4 + UnpaddedLen(a) + UnpaddedLen(b) + UnpaddedLen(c) + UnpaddedLen(d) + PaddedSum(more)
            && (Fits(g) <==> UnpaddedLen(g) <= MAX_LENGTH && Fits(a) && Fits(b) && Fits(c) && Fits(d) && AllFit(more))
  {
    hide UnpaddedLen, PaddedSum, Fits, AllFit;
    SumOfFour(a, b, c, d, more);
    GroupTakes(FloorRequestInformation, id, [a, b, c, d] + more);
    PadAligned(UnpaddedLen(a));
    PadAligned(UnpaddedLen(b));
    PadAligned(UnpaddedLen(c));
    PadAligned(UnpaddedLen(d));
  }

  lemma PriorityTakes(p: Priority)
    ensures UnpaddedLen(PriorityAttr(p)) == 4 && Fits(PriorityAttr(p))
  {
  }

  lemma PadAligned(n: nat)
    ensures n % 4 == 0 ==> Pad4(n) == n
  {
  }

  lemma GroupTakes(kind: GroupKind, id: U16, s: seq<Attribute>)
    ensures UnpaddedLen(Group(kind, id, s)) == 4 + PaddedSum(s)
    ensures Fits(Group(kind, id, s)) <==> 4 + PaddedSum(s) <= MAX_LENGTH && AllFit(s)
  {
  }

  lemma SumOfFour(a: Attribute, b: Attribute, c: Attribute, d: Attribute, more: seq<Attribute>)
    ensures PaddedSum([a, b, c, d] + more) ==
            Pad4(UnpaddedLen(a)) + Pad4(UnpaddedLen(b)) + Pad4(UnpaddedLen(c)) + Pad4(UnpaddedLen(d)) + PaddedSum(more)
    ensures AllFit([a, b, c, d] + more) <==> Fits(a) && Fits(b) && Fits(c) && Fits(d) && AllFit(more)
  {
    hide UnpaddedLen, Fits, Pad4, PaddedSum, AllFit;
    PaddedSumOfBoth([a, b, c, d], more);
    PaddedSumOfBoth([a, b], [c, d]);
    PaddedSumOfBoth([a], [b]);
    PaddedSumOfBoth([c], [d]);
    One(a);
    One(b);
    One(c);
    One(d);
    assert [a, b] + [c, d] == [a, b, c, d] && [a] + [b] == [a, b] && [c] + [d] == [c, d];
  }

  /**
   The exact bound: a FloorRequestStatus can be written if and only if the name, the URI, the
   participant's text and the reason, each with its header and padding, come to at most 224 octets.
   */
  lemma StatusWritesExactlyWhen(s: Server, echo: Echo, r: Request, info: Option<Text>)
    ensures ToBytes(StatusMessage(s, echo, r, info)).Ok? <==> TextRoom(s, r, info) <= 224
    ensures ToBytes(StatusMessage(s, echo, r, info)).Err? ==>
              ToBytes(StatusMessage(s, echo, r, info)).error == AttributeTooLong(15)
  {
    hide RequestInfo, TextRoom, ToBytes, UnpaddedLen;
    var m := StatusMessage(s, echo, r, info);
    var a := RequestInfo(s, r, info);
    assert m.attributes == [a];
    WritesExactlyWhen(m);
    One(a);
    InfoTakes(s, r, info);
    InfoIsGroup(s, r, info);
    UnfitIs(m, a);
  }

  lemma InfoIsGroup(s: Server, r: Request, info: Option<Text>)
    ensures AttrType(RequestInfo(s, r, info)) == 15
    ensures Fits(RequestInfo(s, r, info)) ==> UnpaddedLen(RequestInfo(s, r, info)) <= MAX_LENGTH
  {
  }

  lemma UnfitIs(m: Message, a: Attribute)
    requires m.attributes == [a]
    ensures !Fits(a) ==> ToBytes(m) == Err(AttributeTooLong(AttrType(a)))
  {
    hide Fits, EncodeAll;
  }

  // ---- FloorStatus and UserStatus -------------------------------------

  /** A request's information fits its length octet exactly when its texts leave room. */
  lemma InfoFitsExactlyWhen(s: Server, r: Request, info: Option<Text>)
    ensures Fits(RequestInfo(s, r, info)) <==> TextRoom(s, r, info) <= 224
  {
    hide RequestInfo, TextRoom;
    InfoTakes(s, r, info);
    InfoIsGroup(s, r, info);
  }

  /** What the information of the requests named comes to. */
  function InfosRoom(s: Server, ids: seq<U16>): nat
    requires forall i :: 0 <= i < |ids| ==> ids[i] in s.requests
  {
    if ids == [] then 0 else 28 + TextRoom(s, s.requests[ids[0]], None) + InfosRoom(s, ids[1..])
  }

  predicate AllHaveRoom(s: Server, ids: seq<U16>)
    requires forall i :: 0 <= i < |ids| ==> ids[i] in s.requests
  {
    forall i :: 0 <= i < |ids| ==> TextRoom(s, s.requests[ids[i]], None) <= 224
  }

  lemma {:induction false} InfosTake(s: Server, ids: seq<U16>)
    requires forall i :: 0 <= i < |ids| ==> ids[i] in s.requests
    ensures PaddedSum(RequestInfos(s, ids)) == InfosRoom(s, ids)
    ensures AllFit(RequestInfos(s, ids)) <==> AllHaveRoom(s, ids)
    decreases |ids|
  {
    hide RequestInfo, TextRoom, UnpaddedLen, Fits, Pad4, RequestInfos;
    if ids != [] {
      var r := s.requests[ids[0]];
      var infos := RequestInfos(s, ids);
      assert infos[1..] == RequestInfos(s, ids[1..]);
      InfosTake(s, ids[1..]);
      InfoFitsExactlyWhen(s, r, None);
      InfoTakes(s, r, None);
      Aligned(28, TextRoom(s, r, None));
      PadAligned(28 + TextRoom(s, r, None));
      assert forall i :: 1 <= i < |ids| ==> ids[i] == ids[1..][i - 1];
    }
  }

  /** Every live request's texts leave room, and together the requests are not too long for one payload. */
  predicate FloorWritable(s: Server) {
    && (forall id :: id in s.requests ==> TextRoom(s, s.requests[id], None) <= 224)
    && 4 + InfosRoom(s, Ascending(s.requests.Keys)) <= MAX_PAYLOAD_LEN
  }

  /** A FloorStatus can be written if and only if each live request's texts, and all of them, leave room. */
  lemma FloorStatusWritesExactlyWhen(s: Server, echo: Echo, responder: bool)
    ensures ToBytes(FloorMessage(s, echo).(responder := responder)).Ok? <==> FloorWritable(s)
  {
    hide RequestInfos, ToBytes, Ascending, PaddedSum, AllFit, InfosRoom, TextRoom;
    var ids := Ascending(s.requests.Keys);
    var m := FloorMessage(s, echo).(responder := responder);
    assert m.attributes == [Id(FloorId, s.floorId)] + RequestInfos(s, ids) by {
      assert [] + [Id(FloorId, s.floorId)] == [Id(FloorId, s.floorId)];
    }
    WritesExactlyWhen(m);
    PaddedSumOfBoth([Id(FloorId, s.floorId)], RequestInfos(s, ids));
    FloorIdTakes(s.floorId);
    InfosTake(s, ids);
    assert forall id :: id in ids <==> id in s.requests;
    assert AllHaveRoom(s, ids) <==> forall id :: id in ids ==> TextRoom(s, s.requests[id], None) <= 224;
  }

  lemma FloorIdTakes(floorId: U16)
    ensures PaddedSum([Id(FloorId, floorId)]) == 4 && AllFit([Id(FloorId, floorId)])
  {
    One(Id(FloorId, floorId));
  }

  lemma BeneficiaryFitsExactlyWhen(s: Server, userId: U16)
    ensures Fits(BeneficiaryInfo(s, userId)) <==> NameRoom(s, userId) <= 248
  {
    hide TextAttrs, Pad4, Room;
    NameRoomAligned(s, userId);
    BeneficiaryTakes(s, userId);
    if userId in s.users {
      var u := s.users[userId];
      var name, uri := TextAttrs(UserDisplayName, u.displayName), TextAttrs(UserUri, u.uri);
      PaddedSumOfBoth(name, uri);
      TextsTake(UserDisplayName, u.displayName);
      TextsTake(UserUri, u.uri);
      RoomHolds(u.displayName);
      RoomHolds(u.uri);
      GroupTakes(BeneficiaryInformation, userId, name + uri);
    }
  }

  lemma RoomHolds(text: Option<Text>)
    ensures Room(text) <= 248 && text.Some? ==> 2 + |text.value| <= MAX_LENGTH
  {
  }

  /** The names of the user asked about leave room, and so do the texts of their request, if they have one. */
  predicate UserWritable(s: Server, about: U16) {
    NameRoom(s, about) <= 248
    && forall id :: id in s.requests && s.requests[id].userId == about ==> TextRoom(s, s.requests[id], None) <= 224
  }

  /** A UserStatus can be written if and only if those texts leave room. */
  lemma UserStatusWritesExactlyWhen(s: Server, echo: Echo, about: U16)
    requires Inv(s)
    ensures ToBytes(UserMessage(s, echo, about)).Ok? <==> UserWritable(s, about)
  {
    hide RequestInfos, ToBytes, RequestsOf, PaddedSum, AllFit, InfosRoom, TextRoom, NameRoom, Inv, UnpaddedLen, Fits,
         BeneficiaryInfo;
    var ids := RequestsOf(s, about);
    var first := BeneficiaryInfo(s, about);
    var m := UserMessage(s, echo, about);
    assert m.attributes == [first] + RequestInfos(s, ids) by {
      assert [] + [first] == [first];
    }
    WritesExactlyWhen(m);
    PaddedSumOfBoth([first], RequestInfos(s, ids));
    One(first);
    BeneficiaryFitsExactlyWhen(s, about);
    BeneficiaryTakes(s, about);
    InfosTake(s, ids);
    ServerMessages.OneRequestEach(s, about);
    OneHasRoom(s, ids);
    assert forall id :: id in s.requests && s.requests[id].userId == about ==> id in ids;
    assert AllHaveRoom(s, ids) <==> forall id :: id in ids ==> TextRoom(s, s.requests[id], None) <= 224;
  }

  lemma OneHasRoom(s: Server, ids: seq<U16>)
    requires |ids| <= 1 && forall i :: 0 <= i < |ids| ==> ids[i] in s.requests
    ensures AllHaveRoom(s, ids) ==> InfosRoom(s, ids) <= 252
  {
    hide TextRoom;
  }

  // ---- what the client reads ------------------------------------------

  lemma TextsAreWellFormed(kind: TextKind, text: Option<Text>, room: nat)
    ensures AllWellFormed(TextAttrs(kind, text), room)
  {
    hide ValidUtf8;
    if text.Some? {
      assert [TextAttr(kind, text.value)][1..] == [];
    }
  }

  lemma {:induction false} BothWellFormed(a: seq<Attribute>, b: seq<Attribute>, room: nat)
    ensures AllWellFormed(a + b, room) <==> AllWellFormed(a, room) && AllWellFormed(b, room)
    decreases |a|
  {
    hide WellFormedAttribute;
    if a == [] {
      assert a + b == b;
    } else {
      BothWellFormed(a[1..], b, room);
      assert (a + b)[1..] == a[1..] + b;
    }
  }

  lemma OneWellFormed(a: Attribute, room: nat)
    ensures AllWellFormed([a], room) <==> WellFormedAttribute(a, room)
  {
    hide WellFormedAttribute;
    assert [a][1..] == [];
  }

  lemma GroupWellFormed(kind: GroupKind, id: U16, s: seq<Attribute>, room: nat)
    ensures WellFormedAttribute(Group(kind, id, s), room) <==> room > 0 && AllWellFormed(s, room - 1)
  {
  }

  lemma InfoIsWellFormed(s: Server, r: Request, info: Option<Text>)
    ensures WellFormedAttribute(RequestInfo(s, r, info), MAX_DEPTH)
  {
    hide TextAttrs, WellFormedAttribute, AllWellFormed, RequestInfo, BeneficiaryInfo;
    var status := RequestStatus(r.status, 0);
    var overall, floor := Overall(r, info), FloorPart(s.floorId, r.status);
    var who, priority := BeneficiaryInfo(s, r.userId), PriorityAttr(r.priority);
    var texts := TextAttrs(ParticipantProvidedInfo, r.info);
    LeavesAreWellFormed(status, priority);
    OneWellFormed(status, 2);
    TextsAreWellFormed(StatusInfo, info, 2);
    BothWellFormed([status], TextAttrs(StatusInfo, info), 2);
    GroupWellFormed(OverallRequestStatus, r.id, overall.attributes, 3);
    GroupWellFormed(GroupKind.FloorRequestStatus, s.floorId, [status], 3);
    NamesAreWellFormed(s, r.userId);
    TextsAreWellFormed(ParticipantProvidedInfo, r.info, 3);
    FourWellFormed(overall, floor, who, priority, texts, 3);
    GroupWellFormed(FloorRequestInformation, r.id, [overall, floor, who, priority] + texts, MAX_DEPTH);
    InfoParts(s, r, info);
  }

  lemma FourWellFormed(a: Attribute, b: Attribute, c: Attribute, d: Attribute, more: seq<Attribute>, room: nat)
    requires WellFormedAttribute(a, room) && WellFormedAttribute(b, room) && WellFormedAttribute(c, room)
    requires WellFormedAttribute(d, room) && AllWellFormed(more, room)
    ensures AllWellFormed([a, b, c, d] + more, room)
  {
    hide WellFormedAttribute, AllWellFormed;
    OneWellFormed(a, room);
    OneWellFormed(b, room);
    OneWellFormed(c, room);
    OneWellFormed(d, room);
    BothWellFormed([a], [b], room);
    BothWellFormed([c], [d], room);
    BothWellFormed([a] + [b], [c] + [d], room);
    assert [a] + [b] + ([c] + [d]) == [a, b, c, d];
    BothWellFormed([a, b, c, d], more, room);
  }

  lemma LeavesAreWellFormed(status: Attribute, priority: Attribute)
    requires status.RequestStatus? && priority.PriorityAttr?
    ensures WellFormedAttribute(status, 2) && WellFormedAttribute(priority, 3)
  {
  }

  lemma NamesAreWellFormed(s: Server, userId: U16)
    ensures WellFormedAttribute(BeneficiaryInfo(s, userId), 3)
  {
    hide TextAttrs, AllWellFormed, WellFormedAttribute;
    if userId in s.users {
      var u := s.users[userId];
      TextsAreWellFormed(UserDisplayName, u.displayName, 2);
      TextsAreWellFormed(UserUri, u.uri, 2);
      BothWellFormed(TextAttrs(UserDisplayName, u.displayName), TextAttrs(UserUri, u.uri), 2);
    } else {
      EmptyWellFormed(2);
    }
    GroupWellFormed(BeneficiaryInformation, userId, BeneficiaryInfo(s, userId).attributes, 3);
  }

  lemma EmptyWellFormed(room: nat)
    ensures AllWellFormed([], room)
  {
  }

  lemma {:induction false} AllGroupsWellFormed(s: seq<Attribute>)
    requires forall i :: 0 <= i < |s| ==> WellFormedAttribute(s[i], MAX_DEPTH)
    ensures AllWellFormed(s, MAX_DEPTH)
  {
    hide WellFormedAttribute;
    if s != [] {
      AllGroupsWellFormed(s[1..]);
    }
  }

  /** A decision reaches the client as it was made: the octets written read as the request and its status. */
  lemma StatusIsRead(s: Server, echo: Echo, r: Request, info: Option<Text>, m: Message) returns (sent: seq<Byte>)
    requires echo.version < 8 && TextRoom(s, r, info) <= 224 && m == StatusMessage(s, echo, r, info)
    ensures ToBytes(m) == Ok(sent) && Parse(sent) == Ok(m) && ReportedStatus(m) == Some((r.id, r.status))
  {
    hide RequestInfo, TextRoom, ToBytes, ReportedStatus, Parse, AllWellFormed;
    StatusWritesExactlyWhen(s, echo, r, info);
    InfoIsWellFormed(s, r, info);
    OneWellFormed(RequestInfo(s, r, info), MAX_DEPTH);
    assert m.attributes == [RequestInfo(s, r, info)];
    WriteThenRead(m, []);
    StatusSays(s, echo, r, info);
    sent := ToBytes(m).value;
  }

  /** A FloorStatus reaches the client as it was: it is written, and read as exactly the requests granted. */
  lemma FloorStatusIsRead(s: Server, echo: Echo, m: Message) returns (sent: seq<Byte>)
    requires Inv(s) && echo.version < 8 && FloorWritable(s) && m == FloorMessage(s, echo)
    ensures ToBytes(m) == Ok(sent) && Parse(sent) == Ok(m) && GrantedIn(m) == GrantedSet(s)
  {
    hide RequestInfo, ToBytes, GrantedIn, Parse, AllWellFormed, WellFormedAttribute, Ascending, Inv, RequestInfos,
         FloorWritable;
    var ids := Ascending(s.requests.Keys);
    var infos := RequestInfos(s, ids);
    forall i | 0 <= i < |infos| ensures WellFormedAttribute(infos[i], MAX_DEPTH) {
      InfoIsWellFormed(s, s.requests[ids[i]], None);
    }
    AllGroupsWellFormed(infos);
    FloorIdIsWellFormed(s.floorId);
    BothWellFormed([Id(FloorId, s.floorId)], infos, MAX_DEPTH);
    assert m.attributes == [Id(FloorId, s.floorId)] + infos by {
      assert [] + [Id(FloorId, s.floorId)] == [Id(FloorId, s.floorId)];
    }
    FloorStatusWritesExactlyWhen(s, echo, m.responder);
    WriteThenRead(m, []);
    FloorMessageSays(s, echo);
    sent := ToBytes(m).value;
  }

  lemma FloorIdIsWellFormed(floorId: U16)
    ensures AllWellFormed([Id(FloorId, floorId)], MAX_DEPTH)
  {
    OneWellFormed(Id(FloorId, floorId), MAX_DEPTH);
  }
}
