/**
 A floor server for one floor (section 13 of RFC 8855). What each operation does to the
 server and what it sends is given on values; the class updates its fields in place and is
 proved to do exactly that, keeping the invariant every reachable state satisfies.
 */
module FloorServers {
  import opened Wrappers
  import opened Octets
  import opened Utf8
  import opened Messages
  import opened Accessors
  import opened OrderedKeys
  import opened IdAllocation

  datatype Transport = Reliable | Unreliable
  {
    function Version(): Byte {
      if Reliable? then VERSION_RELIABLE else VERSION_UNRELIABLE
    }
  }

  datatype User = User(displayName: Option<Text>, uri: Option<Text>, subscribed: bool)

  datatype Request = Request(id: U16, userId: U16, status: Status, priority: Priority, info: Option<Text>)

  /** What the owner needs to know after a message. */
  datatype Event =
    | SaidHello(userId: U16)
    | Requested(userId: U16, requestId: U16, priority: Priority, info: Option<Text>)
    | GaveBack(userId: U16, requestId: U16, wasGranted: bool)
    | Acknowledged(userId: U16, transactionId: U16)
    | SaidGoodbye(userId: U16, released: Option<U16>)

  /** A server-initiated message for one user. */
  datatype Notification = Notification(userId: U16, message: Message)

  datatype Handled = Handled(reply: Option<Message>, notifications: seq<Notification>, events: seq<Event>)

  const NOTHING := Handled(None, [], [])

  datatype Server = Server(conferenceId: U32, floorId: U16, transport: Transport,
                           users: map<U16, User>, requests: map<U16, Request>,
                           nextRequestId: U16, nextTransactionId: U16)

  function NewServer(conferenceId: U32, floorId: U16, transport: Transport): (s: Server)
    ensures Inv(s)
  {
    Server(conferenceId, floorId, transport, map[], map[], 1, 1)
  }

  // ---- the invariant --------------------------------------------------

  predicate RequestOk(s: Server, id: U16)
    requires id in s.requests
  {
    var r := s.requests[id];
    id != 0 && r.id == id && r.userId in s.users && (r.status.Pending? || r.status.Granted?)
  }

  /**
   Every request is kept under its own nonzero id, is its registered user's only one, and is
   pending or granted; no counter stands at zero.
   */
  predicate Inv(s: Server) {
    && s.nextRequestId != 0 && s.nextTransactionId != 0
    && (forall id :: id in s.requests ==> RequestOk(s, id))
    && (forall a, b :: a in s.requests && b in s.requests && s.requests[a].userId == s.requests[b].userId ==> a == b)
  }

  // ---- the messages the server builds ---------------------------------

  function TextAttrs(kind: TextKind, text: Option<Text>): seq<Attribute> {
    if text.Some? then [TextAttr(kind, text.value)] else []
  }

  function BeneficiaryInfo(s: Server, userId: U16): Attribute {
    var attributes :=
      if userId in s.users then
        TextAttrs(UserDisplayName, s.users[userId].displayName) + TextAttrs(UserUri, s.users[userId].uri)
      else [];
    Group(BeneficiaryInformation, userId, attributes)
  }

  function RequestInfo(s: Server, r: Request, info: Option<Text>): Attribute {
    var overall := [RequestStatus(r.status, 0)] + TextAttrs(StatusInfo, info);
    Group(FloorRequestInformation, r.id,
          [Group(OverallRequestStatus, r.id, overall),
           Group(GroupKind.FloorRequestStatus, s.floorId, [RequestStatus(r.status, 0)]),
           BeneficiaryInfo(s, r.userId),
           PriorityAttr(r.priority)] + TextAttrs(ParticipantProvidedInfo, r.info))
  }

  function RequestInfos(s: Server, ids: seq<U16>): (infos: seq<Attribute>)
    requires forall i :: 0 <= i < |ids| ==> ids[i] in s.requests
    ensures |infos| == |ids|
    ensures forall i :: 0 <= i < |ids| ==> infos[i] == RequestInfo(s, s.requests[ids[i]], None)
  {
    seq(|ids|, i requires 0 <= i < |ids| => RequestInfo(s, s.requests[ids[i]], None))
  }

  /** A FloorRequestStatus: not a response, whatever the version says. */
  function StatusMessage(s: Server, echo: Echo, r: Request, info: Option<Text>): Message {
    Response(echo, Primitive.FloorRequestStatus).With(RequestInfo(s, r, info)).(responder := false)
  }

  /** A FloorStatus: every ongoing request, by ascending id. */
  function FloorMessage(s: Server, echo: Echo): Message {
    var m := Response(echo, FloorStatus).With(Id(FloorId, s.floorId));
    m.(attributes := m.attributes + RequestInfos(s, Ascending(s.requests.Keys)))
  }

  function OwnedBy(s: Server, userId: U16): set<U16> {
    set id | id in s.requests && s.requests[id].userId == userId
  }

  function RequestsOf(s: Server, userId: U16): (ids: seq<U16>)
    ensures Ascends(ids) && |ids| == |OwnedBy(s, userId)|
    ensures forall id :: id in ids <==> id in s.requests && s.requests[id].userId == userId
  {
    Ascending(OwnedBy(s, userId))
  }

  function UserMessage(s: Server, echo: Echo, about: U16): Message {
    var m := Response(echo, UserStatus).With(BeneficiaryInfo(s, about));
    m.(attributes := m.attributes + RequestInfos(s, RequestsOf(s, about)))
  }

  function HelloMessage(echo: Echo): Message {
    Response(echo, HelloAck)
      .With(List(SupportedPrimitives, seq(17, i requires 0 <= i < 17 => ALL_PRIMITIVES[i].AsU8())))
      .With(List(SupportedAttributes, seq(18, i requires 0 <= i < 18 => 2 * (i + 1))))
  }

  // ---- notifications --------------------------------------------------

  /** The header of the next server-initiated message: transaction 0 over TCP, a fresh one over UDP. */
  function NextEcho(s: Server, userId: U16): Echo {
    Echo(s.transport.Version(), s.conferenceId, if s.transport.Reliable? then 0 else s.nextTransactionId, userId)
  }

  function Spent(s: Server): Server {
    if s.transport.Reliable? then s else s.(nextTransactionId := After(s.nextTransactionId))
  }

  function Subscribers(s: Server): (ids: seq<U16>)
    ensures forall u :: u in ids <==> u in s.users && s.users[u].subscribed
  {
    Ascending(set u | u in s.users && s.users[u].subscribed)
  }

  function FloorNotification(s: Server, userId: U16): Notification {
    Notification(userId, FloorMessage(s, NextEcho(s, userId)).(responder := false))
  }

  /** The floor's status to each of `ids`, in order, each in its own transaction. */
  function Broadcast(s: Server, ids: seq<U16>): (Server, seq<Notification>)
    decreases |ids|
  {
    if ids == [] then (s, [])
    else
      var (after, rest) := Broadcast(Spent(s), ids[1..]);
      (after, [FloorNotification(s, ids[0])] + rest)
  }

  // ---- the operations, on values --------------------------------------

  function AddUser(s: Server, userId: U16, displayName: Option<Text>, uri: Option<Text>): Server {
    s.(users := s.users[userId := User(displayName, uri, false)])
  }

  function LastGranted(requests: map<U16, Request>, ids: seq<U16>): Option<U16> {
    if ids == [] then None
    else
      var id := ids[|ids| - 1];
      if id in requests && requests[id].status.Granted? then Some(id) else LastGranted(requests, ids[..|ids| - 1])
  }

  /** The server without the user and their requests, before anyone is told. */
  function Without(s: Server, userId: U16): Server {
    s.(users := s.users - {userId},
       requests := map id | id in s.requests && s.requests[id].userId != userId :: s.requests[id])
  }

  function RemoveUser(s: Server, userId: U16): (Server, seq<Notification>, Option<U16>) {
    var released := LastGranted(s.requests, RequestsOf(s, userId));
    var t := Without(s, userId);
    if released.Some? then
      var (after, notifications) := Broadcast(t, Subscribers(t));
      (after, notifications, released)
    else (t, [], None)
  }

  function FirstGranted(s: Server, ids: seq<U16>): Option<(U16, U16)>
    requires forall i :: 0 <= i < |ids| ==> ids[i] in s.requests
  {
    if ids == [] then None
    else if s.requests[ids[0]].status.Granted? then Some((s.requests[ids[0]].userId, s.requests[ids[0]].id))
    else FirstGranted(s, ids[1..])
  }

  /** Who holds the floor: user and request. */
  function Holder(s: Server): Option<(U16, U16)> {
    FirstGranted(s, Ascending(s.requests.Keys))
  }

  /** The request as decided, kept unless that ends it. */
  function Decided(s: Server, id: U16, status: Status): Server
    requires id in s.requests
  {
    s.(requests := if status.IsTerminal() then s.requests - {id}
                   else s.requests[id := s.requests[id].(status := status)])
  }

  function Decide(s: Server, id: U16, status: Status, info: Option<Text>): (Server, seq<Notification>) {
    if id !in s.requests then (s, [])
    else
      var r := s.requests[id].(status := status);
      var t := Decided(s, id, status);
      var first := Notification(r.userId, StatusMessage(t, NextEcho(t, r.userId), r, info));
      var (after, rest) := Broadcast(Spent(t), Subscribers(t));
      (after, [first] + rest)
  }

  /** Why a message is answered with an error, if it is. */
  function Refused(s: Server, m: Message): Option<Code> {
    if m.version != s.transport.Version() then Some(UnsupportedVersion)
    else if m.conferenceId != s.conferenceId then Some(ConferenceDoesNotExist)
    else if m.primitive.IsAck() then None
    else if m.userId !in s.users then Some(UserDoesNotExist)
    else
      var floors := IdsOf(m.attributes, FloorId);
      var beneficiary := FirstIdOf(m, BeneficiaryId);
      var id := FirstIdOf(m, FloorRequestId);
      match m.primitive
      case FloorRequest =>
        if floors == [] || exists f :: f in floors && f != s.floorId then Some(InvalidFloorId)
        else if beneficiary.Some? && beneficiary.value != m.userId then Some(UnauthorizedOperation)
        else if exists r :: r in s.requests && s.requests[r].userId == m.userId then Some(MaximumFloorRequestsReached)
        else None
      case FloorRelease =>
        if id.None? || id.value !in s.requests then Some(FloorRequestIdDoesNotExist)
        else if s.requests[id.value].userId != m.userId then Some(UnauthorizedOperation)
        else None
      case FloorRequestQuery =>
        if id.None? || id.value !in s.requests then Some(FloorRequestIdDoesNotExist) else None
      case FloorQuery =>
        if exists f :: f in floors && f != s.floorId then Some(InvalidFloorId) else None
      case UserQuery =>
        if (if beneficiary.Some? then beneficiary.value else m.userId) !in s.users then Some(UserDoesNotExist) else None
      case ChairAction => Some(UnauthorizedOperation)
      case _ => None
  }

  /** The one message the program would never finish handling: it needs an id and every one is live. */
  predicate Spins(s: Server, m: Message) {
    Refused(s, m).None? && m.primitive.FloorRequest? && !HasFree(s.requests.Keys)
  }

  function Refusal(echo: Echo, code: Code, details: seq<Byte>): Handled {
    Handled(Some(ErrorMessage(echo, code, details)), [], [])
  }

  ghost function HandleRequest(s: Server, m: Message): (Server, Handled)
    requires s.nextRequestId != 0 && HasFree(s.requests.Keys)
  {
    var id := Fresh(s.requests.Keys, s.nextRequestId);
    var r := Request(id, m.userId, Pending, PriorityIn(m.attributes), TextIn(m.attributes, ParticipantProvidedInfo));
    var t := s.(nextRequestId := After(id), requests := s.requests[id := r]);
    (t, Handled(Some(StatusMessage(t, m.AsEcho(), r, None)), [], [Requested(m.userId, id, r.priority, r.info)]))
  }

  function HandleRelease(s: Server, m: Message, id: U16): (Server, Handled)
    requires id in s.requests
  {
    var wasGranted := s.requests[id].status.Granted?;
    var done := s.requests[id].(status := if wasGranted then Released else Cancelled);
    var t := s.(requests := s.requests - {id});
    var reply := StatusMessage(t, m.AsEcho(), done, None);
    var event := GaveBack(m.userId, id, wasGranted);
    if wasGranted then
      var (after, notifications) := Broadcast(t, Subscribers(t));
      (after, Handled(Some(reply), notifications, [event]))
    else (t, Handled(Some(reply), [], [event]))
  }

  function HandleFloorQuery(s: Server, m: Message): (Server, Handled)
    requires m.userId in s.users
  {
    var subscribed := IdsOf(m.attributes, FloorId) != [];
    var t := s.(users := s.users[m.userId := s.users[m.userId].(subscribed := subscribed)]);
    (t, Handled(Some(if subscribed then FloorMessage(t, m.AsEcho()) else Response(m.AsEcho(), FloorStatus)), [], []))
  }

  ghost function HandleMessage(s: Server, m: Message): (Server, Handled)
    requires s.nextRequestId != 0 && !Spins(s, m)
  {
    var echo := m.AsEcho();
    var refused := Refused(s, m);
    if refused.Some? then (s, Refusal(echo, refused.value, []))
    else if m.primitive.IsAck() then (s, Handled(None, [], [Acknowledged(m.userId, m.transactionId)]))
    else
      match m.primitive
      case Hello => (s, Handled(Some(HelloMessage(echo)), [], [SaidHello(m.userId)]))
      case FloorRequest => HandleRequest(s, m)
      case FloorRelease => HandleRelease(s, m, FirstIdOf(m, FloorRequestId).value)
      case FloorRequestQuery =>
        (s, Handled(Some(StatusMessage(s, echo, s.requests[FirstIdOf(m, FloorRequestId).value], None)), [], []))
      case FloorQuery => HandleFloorQuery(s, m)
      case UserQuery =>
        var beneficiary := FirstIdOf(m, BeneficiaryId);
        (s, Handled(Some(UserMessage(s, echo, if beneficiary.Some? then beneficiary.value else m.userId)), [], []))
      case Goodbye =>
        var (t, notifications, released) := RemoveUser(s, m.userId);
        (t, Handled(Some(Response(echo, GoodbyeAck)), notifications, [SaidGoodbye(m.userId, released)]))
      case _ => (s, NOTHING)
  }

  /** The types not understood, as an `Error` lists them. */
  function Shifted(types: seq<Byte>): (r: seq<Byte>)
    ensures |r| == |types| && forall i :: 0 <= i < |types| ==> r[i] == (types[i] as int) * 2 % 0x100
  {
    seq(|types|, i requires 0 <= i < |types| => (types[i] as int) * 2 % 0x100)
  }

  /** The answer to octets that could not be read. */
  function Unreadable(e: ParseError): Handled {
    if e.echo.None? then NOTHING
    else Refusal(e.echo.value, e.ErrorCode(), if e.kind.UnknownMandatory? then Shifted(e.kind.types) else [])
  }

  /** Octets that would make the program spin. */
  predicate SpinsOn(s: Server, data: seq<Byte>) {
    Parse(data).Ok? && Spins(s, Parse(data).value)
  }

  ghost function Handle(s: Server, data: seq<Byte>): (Server, Handled)
    requires s.nextRequestId != 0 && !SpinsOn(s, data)
  {
    match Parse(data)
    case Ok(m) => HandleMessage(s, m)
    case Err(e) => (s, Unreadable(e))
  }

  // ---- every operation keeps the invariant ----------------------------

  /** Servers that differ in their counters alone say the same about the floor. */
  predicate SameFloor(s: Server, t: Server) {
    && s.users == t.users && s.requests == t.requests && s.floorId == t.floorId
    && s.transport == t.transport && s.conferenceId == t.conferenceId
  }

  lemma SameFloorSays(s: Server, t: Server, echo: Echo)
    requires SameFloor(s, t)
    ensures FloorMessage(s, echo) == FloorMessage(t, echo)
  {
    hide RequestInfo, Ascending;
    var ids := Ascending(s.requests.Keys);
    forall i | 0 <= i < |ids| ensures RequestInfos(s, ids)[i] == RequestInfos(t, ids)[i] {
      SameInfo(s, t, s.requests[ids[i]]);
    }
    assert RequestInfos(s, ids) == RequestInfos(t, ids);
  }

  lemma SameInfo(s: Server, t: Server, r: Request)
    requires s.users == t.users && s.floorId == t.floorId
    ensures RequestInfo(s, r, None) == RequestInfo(t, r, None)
  {
  }

  /** The transaction id of the `k`-th notification from here on. */
  function TransactionAt(s: Server, k: nat): U16
    requires s.nextTransactionId != 0
  {
    if s.transport.Reliable? then 0 else Advance(s.nextTransactionId, k)
  }

  function EchoAt(s: Server, k: nat, userId: U16): Echo
    requires s.nextTransactionId != 0
  {
    Echo(s.transport.Version(), s.conferenceId, TransactionAt(s, k), userId)
  }

  /**
   A broadcast tells each user named, in order, the floor as it stands, in consecutive
   transactions, and changes nothing but the transaction counter.
   */
  lemma {:induction false} BroadcastIs(s: Server, ids: seq<U16>)
    requires s.nextTransactionId != 0
    ensures var (t, ns) := Broadcast(s, ids);
            && SameFloor(s, t) && t.nextRequestId == s.nextRequestId && t.nextTransactionId != 0
            && (forall k: nat :: TransactionAt(t, k) == TransactionAt(s, |ids| + k))
            && |ns| == |ids|
            && (forall k :: 0 <= k < |ids| ==>
                 ns[k] == Notification(ids[k], FloorMessage(s, EchoAt(s, k, ids[k])).(responder := false)))
    decreases |ids|
  {
    hide FloorMessage, TransactionAt, Spent, NextEcho, SameFloor;
    if ids == [] {
      SameFloorSelf(s);
    } else {
      var s1 := Spent(s);
      SpentAdvances(s);
      BroadcastIs(s1, ids[1..]);
      SameFloorVia(s, s1, Broadcast(s1, ids[1..]).0);
      forall k | 0 <= k < |ids|
        ensures Broadcast(s, ids).1[k] == Notification(ids[k], FloorMessage(s, EchoAt(s, k, ids[k])).(responder := false))
      {
        if k > 0 {
          EchoMoves(s, k, ids[k]);
          SameFloorSays(s1, s, EchoAt(s, k, ids[k]));
        } else {
          EchoFirst(s, ids[0]);
        }
      }
    }
  }

  lemma SameFloorSelf(s: Server)
    ensures SameFloor(s, s)
  {
  }

  lemma SameFloorVia(s: Server, t: Server, u: Server)
    requires SameFloor(s, t) && SameFloor(t, u)
    ensures SameFloor(s, u) && SameFloor(t, s)
  {
  }

  lemma EchoFirst(s: Server, userId: U16)
    requires s.nextTransactionId != 0
    ensures NextEcho(s, userId) == EchoAt(s, 0, userId)
  {
    AfterAdvances(s.nextTransactionId, 0);
  }

  lemma EchoMoves(s: Server, k: nat, userId: U16)
    requires s.nextTransactionId != 0 && k > 0
    ensures Spent(s).nextTransactionId != 0 && EchoAt(Spent(s), k - 1, userId) == EchoAt(s, k, userId)
  {
    hide TransactionAt;
    SpentAdvances(s);
  }

  lemma SpentAdvances(s: Server)
    requires s.nextTransactionId != 0
    ensures SameFloor(s, Spent(s)) && Spent(s).nextTransactionId != 0
    ensures Spent(s).nextRequestId == s.nextRequestId
    ensures NextEcho(s, 0).transactionId == TransactionAt(s, 0)
    ensures forall k: nat :: TransactionAt(Spent(s), k) == TransactionAt(s, 1 + k)
  {
    AfterAdvances(s.nextTransactionId, 0);
    if s.transport.Unreliable? {
      forall k: nat ensures TransactionAt(Spent(s), k) == TransactionAt(s, 1 + k) {
        AdvanceTwice(s.nextTransactionId, 1, k);
      }
    }
  }

  lemma SameFloorInv(s: Server, t: Server)
    requires Inv(s) && SameFloor(s, t) && t.nextRequestId != 0 && t.nextTransactionId != 0
    ensures Inv(t)
  {
    assert forall id :: id in t.requests ==> RequestOk(s, id);
  }

  lemma BroadcastKeeps(s: Server, ids: seq<U16>)
    requires Inv(s)
    ensures Inv(Broadcast(s, ids).0) && SameFloor(s, Broadcast(s, ids).0)
    ensures Broadcast(s, ids).0.nextRequestId == s.nextRequestId
  {
    BroadcastIs(s, ids);
    SameFloorInv(s, Broadcast(s, ids).0);
  }

  lemma AddUserKeeps(s: Server, userId: U16, displayName: Option<Text>, uri: Option<Text>)
    requires Inv(s)
    ensures Inv(AddUser(s, userId, displayName, uri))
  {
    var t := AddUser(s, userId, displayName, uri);
    assert forall id :: id in t.requests ==> RequestOk(s, id);
  }

  lemma WithoutKeeps(s: Server, userId: U16)
    requires Inv(s)
    ensures Inv(Without(s, userId))
  {
    var t := Without(s, userId);
    assert forall id :: id in t.requests ==> RequestOk(s, id);
  }

  lemma RemoveUserKeeps(s: Server, userId: U16)
    requires Inv(s)
    ensures Inv(RemoveUser(s, userId).0) && SameFloor(Without(s, userId), RemoveUser(s, userId).0)
    ensures RemoveUser(s, userId).0.nextRequestId == s.nextRequestId
  {
    hide Inv;
    WithoutKeeps(s, userId);
    BroadcastKeeps(Without(s, userId), Subscribers(Without(s, userId)));
  }

  lemma DecidedKeeps(s: Server, id: U16, status: Status)
    requires Inv(s) && id in s.requests && (status.Granted? || status.IsTerminal())
    ensures Inv(Decided(s, id, status)) && Inv(Spent(Decided(s, id, status)))
  {
    var t := Decided(s, id, status);
    assert forall r :: r in t.requests ==> RequestOk(s, r);
    SpentAdvances(t);
    SameFloorInv(t, Spent(t));
  }

  lemma DecideKeeps(s: Server, id: U16, status: Status, info: Option<Text>)
    requires Inv(s) && (status.Granted? || status.IsTerminal())
    ensures Inv(Decide(s, id, status, info).0)
    ensures id in s.requests ==> SameFloor(Decided(s, id, status), Decide(s, id, status, info).0)
    ensures id !in s.requests ==> Decide(s, id, status, info) == (s, [])
  {
    hide Inv, StatusMessage;
    if id in s.requests {
      var t := Decided(s, id, status);
      DecidedKeeps(s, id, status);
      BroadcastKeeps(Spent(t), Subscribers(t));
    }
  }

  lemma RequestKeeps(s: Server, m: Message)
    requires Inv(s) && HasFree(s.requests.Keys) && m.userId in s.users
    requires forall r :: r in s.requests ==> s.requests[r].userId != m.userId
    ensures Inv(HandleRequest(s, m).0)
  {
    hide StatusMessage, PriorityIn, TextIn;
    var t := HandleRequest(s, m).0;
    var id := Fresh(s.requests.Keys, s.nextRequestId);
    assert forall r :: r in s.requests ==> RequestOk(s, r);
    assert forall r :: r in t.requests ==> r == id || r in s.requests;
  }

  lemma ReleaseKeeps(s: Server, m: Message, id: U16)
    requires Inv(s) && id in s.requests
    ensures Inv(HandleRelease(s, m, id).0)
    ensures SameFloor(s.(requests := s.requests - {id}), HandleRelease(s, m, id).0)
  {
    hide StatusMessage;
    var t := s.(requests := s.requests - {id});
    assert forall r :: r in t.requests ==> RequestOk(s, r);
    BroadcastKeeps(t, Subscribers(t));
  }

  lemma FloorQueryKeeps(s: Server, m: Message)
    requires Inv(s) && m.userId in s.users
    ensures Inv(HandleFloorQuery(s, m).0)
  {
    hide FloorMessage;
    var t := HandleFloorQuery(s, m).0;
    assert forall r :: r in t.requests ==> RequestOk(s, r);
  }

  /** Whatever a client sends, the server's invariant stands. */
  lemma HandleMessageKeeps(s: Server, m: Message)
    requires Inv(s) && !Spins(s, m)
    ensures Inv(HandleMessage(s, m).0)
  {
    hide Inv, StatusMessage, FloorMessage, UserMessage, HelloMessage, IdsOf, HandleRequest, HandleRelease,
         HandleFloorQuery, RemoveUser;
    InvCounters(s);
    if Refused(s, m).None? && !m.primitive.IsAck() {
      match m.primitive
      case FloorRequest => RequestKeeps(s, m);
      case FloorRelease => ReleaseKeeps(s, m, FirstIdOf(m, FloorRequestId).value);
      case FloorQuery => FloorQueryKeeps(s, m);
      case Goodbye => RemoveUserKeeps(s, m.userId);
      case _ =>
    }
  }

  lemma InvCounters(s: Server)
    requires Inv(s)
    ensures s.nextRequestId != 0 && s.nextTransactionId != 0
  {
  }
}
