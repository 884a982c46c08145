/**
 What each message makes of the floor server, and what is said in return: told from the message's
 own attributes and the arguments given, operation by operation.
 */
module ServerReplies {
  import opened Wrappers
  import opened Octets
  import opened Utf8
  import opened Messages
  import opened Accessors
  import opened OrderedKeys
  import opened IdAllocation
  import opened FloorServers
  import opened Subscribers
  import opened ServerMessages
  import opened ServerRuns

  // ---- what a message carries -----------------------------------------

  /** The message names the floor. */
  ghost predicate Names(m: Message, floorId: U16) {
    Id(FloorId, floorId) in m.attributes
  }

  ghost predicate NamesSome(m: Message) {
    exists f: U16 :: Names(m, f)
  }

  ghost predicate NamesOther(m: Message, floorId: U16) {
    exists f: U16 :: f != floorId && Names(m, f)
  }

  /** `v` is the first id of its kind in the message. */
  ghost predicate FirstId(m: Message, kind: IdKind, v: U16) {
    exists i :: 0 <= i < |m.attributes| && m.attributes[i] == Id(kind, v)
                && forall j :: 0 <= j < i ==> !(m.attributes[j].Id? && m.attributes[j].idKind == kind)
  }

  ghost predicate HasNo(m: Message, kind: IdKind) {
    forall v: U16 :: Id(kind, v) !in m.attributes
  }

  lemma FloorsAre(m: Message, floorId: U16)
    ensures IdsOf(m.attributes, FloorId) != [] <==> NamesSome(m)
    ensures (exists f :: f in IdsOf(m.attributes, FloorId) && f != floorId) <==> NamesOther(m, floorId)
  {
    hide IdsOf;
    var ids := IdsOf(m.attributes, FloorId);
    forall f: U16 ensures f in ids <==> Names(m, f) {
      IdsAreThose(m.attributes, FloorId, f);
    }
    if ids != [] {
      assert ids[0] in ids;
    }
  }

  lemma FirstIdIs(m: Message, kind: IdKind)
    ensures FirstIdOf(m, kind).None? <==> HasNo(m, kind)
    ensures FirstIdOf(m, kind).Some? ==> FirstId(m, kind, FirstIdOf(m, kind).value)
  {
    hide IdsOf;
    var ids := IdsOf(m.attributes, kind);
    forall v: U16 ensures v in ids <==> Id(kind, v) in m.attributes {
      IdsAreThose(m.attributes, kind, v);
    }
    if ids != [] {
      assert ids[0] in ids;
      IdsAreThose(m.attributes, kind, ids[0]);
    }
  }

  lemma FirstIdIsOne(m: Message, kind: IdKind, v: U16, w: U16)
    requires FirstId(m, kind, v) && FirstId(m, kind, w)
    ensures v == w
  {
  }

  // ---- refusals -------------------------------------------------------

  /** The user has a request that is live. */
  predicate HasOne(s: Server, userId: U16) {
    exists r :: r in s.requests && s.requests[r].userId == userId
  }

  /** The first FLOOR-REQUEST-ID, if any, is of no live request. */
  ghost predicate NoSuchRequest(s: Server, m: Message) {
    forall id :: FirstId(m, FloorRequestId, id) ==> id !in s.requests
  }

  /** The code of the `Error` a message is answered with, as a number on the wire, and 0 for none. */
  ghost function Cause(s: Server, m: Message): Byte {
    if m.version != (if s.transport.Reliable? then 1 else 2) then 12
    else if m.conferenceId != s.conferenceId then 1
    else if m.primitive.FloorRequestStatusAck? || m.primitive.FloorStatusAck? || m.primitive.GoodbyeAck? then 0
    else if m.userId !in s.users then 2
    else if m.primitive.FloorRequest? then
      if !NamesSome(m) || NamesOther(m, s.floorId) then 6
      else if exists b: U16 :: b != m.userId && FirstId(m, BeneficiaryId, b) then 5
      else if HasOne(s, m.userId) then 8
      else 0
    else if m.primitive.FloorRelease? then
      if NoSuchRequest(s, m) then 7
      else if exists id :: FirstId(m, FloorRequestId, id) && id in s.requests && s.requests[id].userId != m.userId then 5
      else 0
    else if m.primitive.FloorRequestQuery? then (if NoSuchRequest(s, m) then 7 else 0)
    else if m.primitive.FloorQuery? then (if NamesOther(m, s.floorId) then 6 else 0)
    else if m.primitive.UserQuery? then
      if exists b: U16 :: FirstId(m, BeneficiaryId, b) && b !in s.users then 2 else 0
    else if m.primitive.ChairAction? then 5
    else 0
  }

  /** A message is refused exactly for its cause, with the code that tells it. */
  lemma RefusalTellsWhy(s: Server, m: Message)
    ensures (if Refused(s, m).Some? then Refused(s, m).value.AsU8() else 0) == Cause(s, m)
    ensures Refused(s, m).Some? <==> Cause(s, m) != 0
  {
    hide IdsOf, FirstIdOf, FirstId, NamesSome, NamesOther, HasNo;
    FloorsAre(m, s.floorId);
    FirstIdIs(m, BeneficiaryId);
    FirstIdIs(m, FloorRequestId);
    FirstIsUnique(m, BeneficiaryId);
    FirstIsUnique(m, FloorRequestId);
  }

  lemma FirstIsUnique(m: Message, kind: IdKind)
    ensures forall v: U16 :: FirstId(m, kind, v) <==> FirstIdOf(m, kind) == Some(v)
  {
    hide FirstIdOf, FirstId, HasNo;
    FirstIdIs(m, kind);
    forall v: U16 | FirstId(m, kind, v) ensures FirstIdOf(m, kind) == Some(v) {
      SomeId(m, kind, v);
      FirstIdIsOne(m, kind, v, FirstIdOf(m, kind).value);
    }
  }

  lemma SomeId(m: Message, kind: IdKind, v: U16)
    requires FirstId(m, kind, v)
    ensures !HasNo(m, kind)
  {
  }

  // ---- what is done ---------------------------------------------------

  /** Everything but the users, or but the requests, is as it was. */
  predicate OnlyUsers(s: Server, t: Server) {
    t == s.(users := t.users)
  }

  predicate OnlyRequests(s: Server, t: Server) {
    t == s.(requests := t.requests, nextRequestId := t.nextRequestId, nextTransactionId := t.nextTransactionId)
  }

  /** A query subscribes its sender exactly when it names the floor, and changes nobody else. */
  lemma FloorQueryDoes(s: Server, m: Message)
    requires Inv(s) && s.nextRequestId != 0 && Refused(s, m).None? && m.primitive.FloorQuery?
    ensures var (t, out) := HandleMessage(s, m);
            && OnlyUsers(s, t) && m.userId in s.users
            && t.users == s.users[m.userId := s.users[m.userId].(subscribed := t.users[m.userId].subscribed)]
            && (t.users[m.userId].subscribed <==> NamesSome(m))
            && out.notifications == [] && out.events == [] && out.reply.Some?
            && out.reply.value.primitive.FloorStatus?
            && (NamesSome(m) ==> Names(out.reply.value, s.floorId) && GrantedIn(out.reply.value) == GrantedSet(s))
            && (!NamesSome(m) ==> out.reply.value.attributes == [])
  {
    hide Inv, IdsOf, FloorMessage, GrantedIn, RequestOk, NamesSome, NamesOther;
    FloorsAre(m, s.floorId);
    var t := HandleFloorQuery(s, m).0;
    FloorQueryKeeps(s, m);
    FloorMessageSays(t, m.AsEcho());
    FloorMessageLists(t, m.AsEcho());
    assert GrantedSet(t) == GrantedSet(s);
    if NamesSome(m) {
      var reply := FloorMessage(t, m.AsEcho());
      assert reply.attributes[0] in reply.attributes;
    }
  }

  /** A request is kept as it was asked for, under an id that was not live, and its reply reports it pending. */
  lemma FloorRequestDoes(s: Server, m: Message)
    requires Inv(s) && s.nextRequestId != 0 && Refused(s, m).None? && m.primitive.FloorRequest? && !Spins(s, m)
    ensures HasFree(s.requests.Keys)
    ensures var (t, out) := HandleMessage(s, m);
            var id := Fresh(s.requests.Keys, s.nextRequestId);
            var r := Request(id, m.userId, Pending, PriorityIn(m.attributes), TextIn(m.attributes, ParticipantProvidedInfo));
            && id != 0 && id !in s.requests && OnlyRequests(s, t) && t.requests == s.requests[id := r]
            && t.nextTransactionId == s.nextTransactionId && t.nextRequestId == After(id)
            && out.notifications == [] && out.events == [Requested(m.userId, id, r.priority, r.info)]
            && out.reply.Some? && out.reply.value.primitive.FloorRequestStatus?
            && out.reply.value.attributes == [RequestInfo(t, r, None)]
            && ReportedStatus(out.reply.value) == Some((id, Pending))
  {
    hide Inv, IdsOf, RequestInfo, ReportedStatus, Refused, PriorityIn, TextIn;
    var t := HandleRequest(s, m).0;
    var id := Fresh(s.requests.Keys, s.nextRequestId);
    StatusSays(t, m.AsEcho(), t.requests[id], None);
    var none: seq<Attribute> := [];
    assert none + [RequestInfo(t, t.requests[id], None)] == [RequestInfo(t, t.requests[id], None)];
  }

  /**
   A release ends the request named: its reply reports it released if it was granted and cancelled
   if it was not, and the subscribers are told if it was granted.
   */
  lemma FloorReleaseDoes(s: Server, m: Message, id: U16)
    requires Inv(s) && s.nextRequestId != 0 && Refused(s, m).None? && m.primitive.FloorRelease?
    requires FirstId(m, FloorRequestId, id)
    ensures var (t, out) := HandleMessage(s, m);
            && id in s.requests && OnlyRequests(s, t) && t.requests == s.requests - {id}
            && t.nextRequestId == s.nextRequestId
            && out.reply.Some? && out.reply.value.primitive.FloorRequestStatus?
            && ReportedStatus(out.reply.value) == Some((id, if id in GrantedSet(s) then Released else Cancelled))
            && out.events == [GaveBack(m.userId, id, id in GrantedSet(s))]
            && (id in GrantedSet(s) ==> AreTold(t, out.notifications))
            && (id !in GrantedSet(s) ==> out.notifications == [])
  {
    hide Inv, IdsOf, StatusMessage, ReportedStatus, Broadcast, FirstId, FirstIdOf, AreTold, FloorServers.Subscribers;
    FirstIsUnique(m, FloorRequestId);
    KeyedById(s, id);
    var u := s.(requests := s.requests - {id});
    RemovedKeeps(s, id);
    StatusSays(u, m.AsEcho(), s.requests[id].(status := if s.requests[id].status.Granted? then Released else Cancelled), None);
    BroadcastKeeps(u, FloorServers.Subscribers(u));
    AllAreTold(u);
  }

  /** Every subscriber, and nobody else, is sent the floor as it is, in ascending order. */
  ghost predicate AreTold(s: Server, ns: seq<Notification>) {
    && |ns| == |FloorServers.Subscribers(s)|
    && forall k :: 0 <= k < |ns| ==>
         && ns[k].userId == ns[k].message.userId == FloorServers.Subscribers(s)[k]
         && ns[k].message.primitive.FloorStatus? && GrantedIn(ns[k].message) == GrantedSet(s)
  }

  lemma AllAreTold(s: Server)
    requires Inv(s)
    ensures AreTold(Broadcast(s, FloorServers.Subscribers(s)).0, Broadcast(s, FloorServers.Subscribers(s)).1)
  {
    hide Inv, Broadcast, FloorMessage, GrantedIn, FloorServers.Subscribers, TransactionAt;
    var ids := FloorServers.Subscribers(s);
    var (t, ns) := Broadcast(s, ids);
    InvCounters(s);
    BroadcastIs(s, ids);
    SameSubscribers(s, t);
    SameGrants(s, t);
    forall k | 0 <= k < |ns|
      ensures ns[k].userId == ns[k].message.userId == ids[k]
      ensures ns[k].message.primitive.FloorStatus? && GrantedIn(ns[k].message) == GrantedSet(s)
    {
      FloorMessageSays(s, EchoAt(s, k, ids[k]));
      IgnoresResponder(FloorMessage(s, EchoAt(s, k, ids[k])));
    }
  }

  lemma SameSubscribers(s: Server, t: Server)
    requires s.users == t.users
    ensures FloorServers.Subscribers(t) == FloorServers.Subscribers(s)
  {
  }

  /** A query for a request reports it as it stands, and changes nothing. */
  lemma FloorRequestQueryDoes(s: Server, m: Message, id: U16)
    requires Inv(s) && s.nextRequestId != 0 && Refused(s, m).None? && m.primitive.FloorRequestQuery?
    requires FirstId(m, FloorRequestId, id)
    ensures var (t, out) := HandleMessage(s, m);
            && t == s && id in s.requests && out.notifications == [] && out.events == [] && out.reply.Some?
            && out.reply.value.primitive.FloorRequestStatus?
            && out.reply.value.attributes == [RequestInfo(s, s.requests[id], None)]
            && ReportedStatus(out.reply.value) == Some((id, s.requests[id].status))
  {
    hide Inv, IdsOf, RequestInfo, ReportedStatus, FirstId, FirstIdOf;
    FirstIsUnique(m, FloorRequestId);
    KeyedById(s, id);
    StatusSays(s, m.AsEcho(), s.requests[id], None);
    var none: seq<Attribute> := [];
    assert none + [RequestInfo(s, s.requests[id], None)] == [RequestInfo(s, s.requests[id], None)];
  }

  /** A query for a user is answered with the beneficiary's status, or the sender's own without one. */
  lemma UserQueryDoes(s: Server, m: Message, about: U16)
    requires Inv(s) && s.nextRequestId != 0 && Refused(s, m).None? && m.primitive.UserQuery?
    requires FirstId(m, BeneficiaryId, about) || (HasNo(m, BeneficiaryId) && about == m.userId)
    ensures about in s.users && HandleMessage(s, m) == (s, Handled(Some(UserMessage(s, m.AsEcho(), about)), [], []))
  {
    hide Inv, IdsOf, UserMessage, FirstId, FirstIdOf, HasNo;
    FirstIsUnique(m, BeneficiaryId);
    FirstIdIs(m, BeneficiaryId);
  }

  /** A greeting is acknowledged, a goodbye too and its sender is gone, and an acknowledgement is only noted. */
  lemma ComingAndGoing(s: Server, m: Message)
    requires Inv(s) && s.nextRequestId != 0 && Refused(s, m).None? && !Spins(s, m)
    ensures var out := HandleMessage(s, m).1;
            && (m.primitive.Hello? ==>
                 HandleMessage(s, m) == (s, Handled(Some(HelloMessage(m.AsEcho())), [], [SaidHello(m.userId)])))
            && (m.primitive.Goodbye? ==>
                 && HandleMessage(s, m).0 == RemoveUser(s, m.userId).0 && out.reply.Some?
                 && out.reply.value.primitive.GoodbyeAck? && out.reply.value.attributes == []
                 && out.notifications == RemoveUser(s, m.userId).1
                 && out.events == [SaidGoodbye(m.userId, RemoveUser(s, m.userId).2)])
            && (m.primitive.FloorRequestStatusAck? || m.primitive.FloorStatusAck? || m.primitive.GoodbyeAck? ==>
                 HandleMessage(s, m) == (s, Handled(None, [], [Acknowledged(m.userId, m.transactionId)])))
            && (m.primitive.FloorRequestStatus? || m.primitive.UserStatus? || m.primitive.FloorStatus?
                || m.primitive.ChairActionAck? || m.primitive.HelloAck? || m.primitive.Error? ==>
                 HandleMessage(s, m) == (s, Handled(None, [], [])))
  {
    hide Inv, IdsOf, RemoveUser, HelloMessage;
  }

  // ---- the owner's operations -----------------------------------------

  /** A user who joins has the name and the URI given, is not subscribed, and changes nobody else. */
  lemma JoinDoes(s: Server, userId: U16, displayName: Option<Text>, uri: Option<Text>)
    requires Inv(s)
    ensures var t := Apply(s, Join(userId, displayName, uri)).0;
            && OnlyUsers(s, t) && t.users.Keys == s.users.Keys + {userId} && !t.users[userId].subscribed
            && (forall u :: u in s.users && u != userId ==> t.users[u] == s.users[u])
            && TextIn(BeneficiaryInfo(t, userId).attributes, UserDisplayName) == displayName
            && TextIn(BeneficiaryInfo(t, userId).attributes, UserUri) == uri
  {
    hide Inv, BeneficiaryInfo, TextIn, ValidUtf8;
    NamesCarried(AddUser(s, userId, displayName, uri), userId);
  }

  /** A user who leaves is gone with their requests, and the subscribers left are told when one was granted. */
  lemma LeaveDoes(s: Server, userId: U16)
    requires Inv(s)
    ensures var (t, ns, released) := RemoveUser(s, userId);
            && t.users == s.users - {userId}
            && (forall id :: id in t.requests <==> id in s.requests && s.requests[id].userId != userId)
            && (forall id :: id in t.requests ==> t.requests[id] == s.requests[id])
            && (released.Some? ==> AreTold(t, ns)) && (released.None? ==> ns == [])
  {
    hide Inv, Broadcast, AreTold, LastGranted, FloorServers.Subscribers, RequestsOf;
    RemoveUserKeeps(s, userId);
    WithoutKeeps(s, userId);
    AllAreTold(Without(s, userId));
  }

  /**
   A decision ends the request or sets its status, leaves every other request, tells the requester
   the status decided with the reason given, and then the subscribers.
   */
  lemma DecisionDoes(s: Server, id: U16, status: Status, info: Option<Text>)
    requires Inv(s) && (status.Granted? || status.IsTerminal()) && id in s.requests
    ensures var (t, ns) := Decide(s, id, status, info);
            && t.users == s.users
            && t.requests == (if status.IsTerminal() then s.requests - {id}
                              else s.requests[id := s.requests[id].(status := status)])
            && ns != [] && ns[0].userId == ns[0].message.userId == s.requests[id].userId
            && ns[0].message.primitive.FloorRequestStatus? && ReportedStatus(ns[0].message) == Some((id, status))
            && ReasonIn(ns[0].message) == info
            && AreTold(t, ns[1..])
  {
    hide Inv, Broadcast, AreTold, StatusMessage, ReportedStatus, ReasonIn, FloorServers.Subscribers;
    var u := Decided(s, id, status);
    DecideKeeps(s, id, status, info);
    DecidedKeeps(s, id, status);
    KeyedById(s, id);
    var r := s.requests[id].(status := status);
    StatusSays(u, NextEcho(u, r.userId), r, info);
    ReasonIsCarried(u, NextEcho(u, r.userId), r, info);
    SubscribersStay(u);
    AllAreTold(Spent(u));
    assert Decide(s, id, status, info).1[1..] == Broadcast(Spent(u), FloorServers.Subscribers(Spent(u))).1;
  }

  /** What the owner calls: granting decides Granted without a reason, denying and revoking give theirs. */
  lemma OwnerDecides(s: Server, id: U16, info: Option<Text>)
    requires Inv(s) && id in s.requests
    ensures Reports(Apply(s, Grant(id)).1, id, Granted, None)
    ensures Reports(Apply(s, Deny(id, info)).1, id, Denied, info)
    ensures Reports(Apply(s, Revoke(id, info)).1, id, Revoked, info)
  {
    hide Inv, Decide, AreTold, ReasonIn, ReportedStatus;
    DecisionDoes(s, id, Granted, None);
    DecisionDoes(s, id, Denied, info);
    DecisionDoes(s, id, Revoked, info);
  }

  /** The first notification reports the status with the reason, and nothing is replied. */
  predicate Reports(out: Handled, id: U16, status: Status, info: Option<Text>) {
    && out.reply.None? && out.events == [] && out.notifications != []
    && ReportedStatus(out.notifications[0].message) == Some((id, status))
    && ReasonIn(out.notifications[0].message) == info
  }

  /** The reason a FloorRequestStatus gives: the text of the overall status of its request. */
  function ReasonIn(m: Message): Option<Text> {
    if m.attributes != [] && m.attributes[0].Group? && m.attributes[0].attributes != []
       && m.attributes[0].attributes[0].Group? && m.attributes[0].attributes[0].groupKind.OverallRequestStatus? then
      TextIn(m.attributes[0].attributes[0].attributes, StatusInfo)
    else None
  }

  lemma ReasonIsCarried(s: Server, echo: Echo, r: Request, info: Option<Text>)
    ensures ReasonIn(StatusMessage(s, echo, r, info)) == info && StatusMessage(s, echo, r, info).userId == echo.userId
  {
    hide RequestInfo, TextIn, ValidUtf8;
    InfoCarries(s, r, info);
    assert StatusMessage(s, echo, r, info).attributes == [RequestInfo(s, r, info)];
  }
}
