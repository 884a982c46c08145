/**
 The operations a floor server undergoes, and what its subscribers have been told: each one's
 last FloorStatus names exactly the requests that are granted.
 */
module Subscribers {
  import opened Wrappers
  import opened Octets
  import opened Utf8
  import opened Messages
  import opened Accessors
  import opened OrderedKeys
  import opened IdAllocation
  import opened FloorServers

  datatype Op =
    | Receive(data: seq<Byte>)
    | Deliver(message: Message)
    | Join(userId: U16, displayName: Option<Text>, uri: Option<Text>)
    | Leave(userId: U16)
    | Grant(requestId: U16)
    | Deny(requestId: U16, info: Option<Text>)
    | Revoke(requestId: U16, info: Option<Text>)

  /** The operation the program would never finish. */
  predicate Stuck(s: Server, op: Op) {
    match op
    case Receive(data) => SpinsOn(s, data)
    case Deliver(m) => Spins(s, m)
    case _ => false
  }

  ghost function Apply(s: Server, op: Op): (Server, Handled)
    requires Inv(s) && !Stuck(s, op)
  {
    match op
    case Receive(data) => Handle(s, data)
    case Deliver(m) => HandleMessage(s, m)
    case Join(userId, displayName, uri) => (AddUser(s, userId, displayName, uri), NOTHING)
    case Leave(userId) => var r := RemoveUser(s, userId); (r.0, NOTHING.(notifications := r.1))
    case Grant(id) => var r := Decide(s, id, Granted, None); (r.0, NOTHING.(notifications := r.1))
    case Deny(id, info) => var r := Decide(s, id, Denied, info); (r.0, NOTHING.(notifications := r.1))
    case Revoke(id, info) => var r := Decide(s, id, Revoked, info); (r.0, NOTHING.(notifications := r.1))
  }

  lemma ApplyKeeps(s: Server, op: Op)
    requires Inv(s) && !Stuck(s, op)
    ensures Inv(Apply(s, op).0)
  {
    hide Inv, HandleMessage, RemoveUser, Decide, AddUser;
    InvCounters(s);
    match op
    case Receive(data) => if Parse(data).Ok? { HandleMessageKeeps(s, Parse(data).value); }
    case Deliver(m) => HandleMessageKeeps(s, m);
    case Join(userId, displayName, uri) => AddUserKeeps(s, userId, displayName, uri);
    case Leave(userId) => RemoveUserKeeps(s, userId);
    case Grant(id) => DecideKeeps(s, id, Granted, None);
    case Deny(id, info) => DecideKeeps(s, id, Denied, info);
    case Revoke(id, info) => DecideKeeps(s, id, Revoked, info);
  }

  // ---- what users are told --------------------------------------------

  /** For each user, the granted requests in the last FloorStatus sent to them. */
  type Views = map<U16, set<U16>>

  function See(views: Views, m: Message): Views {
    if m.primitive.FloorStatus? then views[m.userId := GrantedIn(m)] else views
  }

  function SeeAll(views: Views, ns: seq<Notification>): Views
    decreases |ns|
  {
    if ns == [] then views else SeeAll(See(views, ns[0].message), ns[1..])
  }

  function SeeHandled(views: Views, out: Handled): Views {
    SeeAll(if out.reply.Some? then See(views, out.reply.value) else views, out.notifications)
  }

  function GrantedSet(s: Server): set<U16> {
    set id | id in s.requests && s.requests[id].status.Granted?
  }

  predicate Coherent(s: Server, views: Views) {
    forall u :: u in s.users && s.users[u].subscribed ==> u in views && views[u] == GrantedSet(s)
  }

  lemma InfoSays(s: Server, r: Request, info: Option<Text>)
    ensures var a := RequestInfo(s, r, info);
            && a.Group? && a.groupKind.FloorRequestInformation? && a.id == r.id && OverallStatus(a.attributes) == Some(r.status)
  {
    hide BeneficiaryInfo;
    var a := RequestInfo(s, r, info);
    assert a.attributes[0].attributes[0] == RequestStatus(r.status, 0);
  }

  lemma {:induction false} InformationsOfInfos(s: seq<Attribute>)
    requires forall i :: 0 <= i < |s| ==> s[i].Group? && s[i].groupKind.FloorRequestInformation?
    ensures Informations(s) == s
  {
    if s != [] {
      InformationsOfInfos(s[1..]);
      assert [s[0]] + s[1..] == s;
    }
  }

  lemma InfosSay(s: Server, ids: seq<U16>, infos: seq<Attribute>, m: Message)
    requires Inv(s) && (forall id :: id in ids <==> id in s.requests)
    requires infos == RequestInfos(s, ids) && Informations(m.attributes) == infos
    ensures GrantedIn(m) == GrantedSet(s)
  {
    hide RequestInfo, Informations;
    forall i | 0 <= i < |ids|
      ensures infos[i].id == ids[i] && OverallStatus(infos[i].attributes) == Some(s.requests[ids[i]].status)
    {
      assert RequestOk(s, ids[i]);
      InfoSays(s, s.requests[ids[i]], None);
    }
    forall id ensures id in GrantedIn(m) <==> id in GrantedSet(s) {
      if id in s.requests {
        assert id in ids;
      }
    }
  }

  /** A FloorStatus says exactly which requests are granted. */
  lemma FloorMessageSays(s: Server, echo: Echo)
    requires Inv(s)
    ensures GrantedIn(FloorMessage(s, echo)) == GrantedSet(s)
    ensures FloorMessage(s, echo).primitive.FloorStatus? && FloorMessage(s, echo).userId == echo.userId
  {
    hide RequestInfo, GrantedIn, Inv, Ascending, RequestInfos, Informations, OverallStatus, Ascends;
    var ids := Ascending(s.requests.Keys);
    var infos := RequestInfos(s, ids);
    var m := FloorMessage(s, echo);
    assert m.attributes == [Id(FloorId, s.floorId)] + infos by {
      assert [] + [Id(FloorId, s.floorId)] == [Id(FloorId, s.floorId)];
    }
    forall i | 0 <= i < |ids| ensures infos[i].Group? && infos[i].groupKind.FloorRequestInformation? {
      InfoSays(s, s.requests[ids[i]], None);
    }
    InformationsOfInfos(infos);
    SkipFloorId(s.floorId, infos);
    InfosSay(s, ids, infos, m);
  }

  lemma SkipFloorId(floorId: U16, infos: seq<Attribute>)
    ensures Informations([Id(FloorId, floorId)] + infos) == Informations(infos)
  {
    assert ([Id(FloorId, floorId)] + infos)[1..] == infos;
  }

  /** Whether one of the notifications is for the user. */
  predicate Addresses(ns: seq<Notification>, u: U16) {
    exists k :: 0 <= k < |ns| && ns[k].message.userId == u
  }

  lemma AddressesFirst(ns: seq<Notification>, u: U16)
    requires ns != []
    ensures Addresses(ns, u) <==> ns[0].message.userId == u || Addresses(ns[1..], u)
  {
    if k :| 0 <= k < |ns| && ns[k].message.userId == u {
      if k > 0 {
        assert ns[1..][k - 1].message.userId == u;
      }
    }
    if k :| 0 <= k < |ns[1..]| && ns[1..][k].message.userId == u {
      assert ns[k + 1].message.userId == u;
    }
  }

  lemma {:induction false} SeeAllIs(views: Views, ns: seq<Notification>, granted: set<U16>)
    requires forall k :: 0 <= k < |ns| ==>
               ns[k].message.primitive.FloorStatus? && GrantedIn(ns[k].message) == granted
    ensures forall u :: u in SeeAll(views, ns) <==> u in views || Addresses(ns, u)
    ensures forall u :: u in SeeAll(views, ns) ==>
              SeeAll(views, ns)[u] == if Addresses(ns, u) then granted else views[u]
    decreases |ns|
  {
    hide GrantedIn, Addresses;
    if ns == [] {
      forall u ensures !Addresses(ns, u) {
        AddressesNone(ns, u);
      }
    } else {
      SeeAllIs(See(views, ns[0].message), ns[1..], granted);
      forall u ensures Addresses(ns, u) <==> ns[0].message.userId == u || Addresses(ns[1..], u) {
        AddressesFirst(ns, u);
      }
    }
  }

  lemma AddressesNone(ns: seq<Notification>, u: U16)
    requires ns == []
    ensures !Addresses(ns, u)
  {
  }

  /** After a broadcast to every subscriber, every subscriber has been told the floor as it is. */
  lemma BroadcastTells(s: Server, views: Views)
    requires Inv(s)
    ensures Coherent(Broadcast(s, Subscribers(s)).0, SeeAll(views, Broadcast(s, Subscribers(s)).1))
  {
    hide Broadcast, GrantedIn, GrantedSet, Inv, Ascending, SeeAll, Addresses, TransactionAt, Subscribers, FloorMessage;
    var ids := Subscribers(s);
    var (t, ns) := Broadcast(s, ids);
    InvCounters(s);
    BroadcastIs(s, ids);
    forall k | 0 <= k < |ns|
      ensures ns[k].message.primitive.FloorStatus? && GrantedIn(ns[k].message) == GrantedSet(s)
      ensures ns[k].message.userId == ids[k]
    {
      FloorMessageSays(s, EchoAt(s, k, ids[k]));
      IgnoresResponder(FloorMessage(s, EchoAt(s, k, ids[k])));
    }
    SeeAllIs(views, ns, GrantedSet(s));
    SameGrants(s, t);
    forall u | u in t.users && t.users[u].subscribed ensures Addresses(ns, u) {
      assert u in ids;
      AddressesAll(ns, ids, u);
    }
  }

  lemma SameGrants(s: Server, t: Server)
    requires s.requests == t.requests
    ensures GrantedSet(t) == GrantedSet(s)
  {
  }

  lemma AddressesAll(ns: seq<Notification>, ids: seq<U16>, u: U16)
    requires |ns| == |ids| && (forall k :: 0 <= k < |ns| ==> ns[k].message.userId == ids[k]) && u in ids
    ensures Addresses(ns, u)
  {
    var k :| 0 <= k < |ids| && ids[k] == u;
    assert ns[k].message.userId == u;
  }

  lemma IgnoresResponder(m: Message)
    ensures GrantedIn(m.(responder := false)) == GrantedIn(m)
  {
  }

  /** With the same grants and no new subscriber, what was told stays right. */
  lemma StillCoherent(s: Server, t: Server, views: Views)
    requires Coherent(s, views) && GrantedSet(t) == GrantedSet(s)
    requires forall u :: u in t.users && t.users[u].subscribed ==> u in s.users && s.users[u].subscribed
    ensures Coherent(t, views)
  {
  }

  lemma {:induction false} LastGrantedFinds(requests: map<U16, Request>, ids: seq<U16>)
    ensures LastGranted(requests, ids).None? <==> forall id :: id in ids && id in requests ==> !requests[id].status.Granted?
    ensures LastGranted(requests, ids).Some? ==>
              var id := LastGranted(requests, ids).value;
              id in ids && id in requests && requests[id].status.Granted?
  {
    if ids != [] {
      var init := ids[..|ids| - 1];
      assert ids == init + [ids[|ids| - 1]];
      LastGrantedFinds(requests, init);
    }
  }

  lemma LeaveTells(s: Server, userId: U16, views: Views)
    requires Inv(s) && Coherent(s, views)
    ensures Coherent(RemoveUser(s, userId).0, SeeAll(views, RemoveUser(s, userId).1))
  {
    hide Broadcast, RequestOk, LastGranted;
    var t := Without(s, userId);
    WithoutKeeps(s, userId);
    LastGrantedFinds(s.requests, RequestsOf(s, userId));
    if RemoveUser(s, userId).2.Some? {
      BroadcastTells(t, views);
    } else {
      assert GrantedSet(t) == GrantedSet(s);
      StillCoherent(s, t, views);
    }
  }

  lemma DecideTells(s: Server, id: U16, status: Status, info: Option<Text>, views: Views)
    requires Inv(s) && Coherent(s, views) && (status.Granted? || status.IsTerminal())
    ensures Coherent(Decide(s, id, status, info).0, SeeAll(views, Decide(s, id, status, info).1))
  {
    hide Broadcast, RequestOk, Inv, Coherent, StatusMessage, SeeAll;
    if id in s.requests {
      var t := Spent(Decided(s, id, status));
      DecidedKeeps(s, id, status);
      SubscribersStay(Decided(s, id, status));
      BroadcastTells(t, views);
      var ns := Decide(s, id, status, info).1;
      StatusIsUnseen(Decided(s, id, status), NextEcho(Decided(s, id, status), s.requests[id].userId),
                     s.requests[id].(status := status), info, views, ns);
    } else {
      SeeNothing(views);
    }
  }

  lemma SubscribersStay(s: Server)
    ensures Subscribers(Spent(s)) == Subscribers(s)
  {
  }

  lemma SeeNothing(views: Views)
    ensures SeeAll(views, []) == views
  {
  }

  lemma StatusIsUnseen(s: Server, echo: Echo, r: Request, info: Option<Text>, views: Views, ns: seq<Notification>)
    requires ns != [] && ns[0].message == StatusMessage(s, echo, r, info)
    ensures SeeAll(views, ns) == SeeAll(views, ns[1..])
    ensures See(views, StatusMessage(s, echo, r, info)) == views
  {
    hide RequestInfo;
  }

  lemma ReleaseTells(s: Server, m: Message, id: U16, views: Views)
    requires Inv(s) && Coherent(s, views) && id in s.requests
    ensures Coherent(HandleRelease(s, m, id).0, SeeHandled(views, HandleRelease(s, m, id).1))
  {
    hide Broadcast, RequestOk, StatusMessage, SeeAll;
    var t := s.(requests := s.requests - {id});
    var wasGranted := s.requests[id].status.Granted?;
    var done := s.requests[id].(status := if wasGranted then Released else Cancelled);
    StatusUnseen(t, m.AsEcho(), done, None, views);
    if wasGranted {
      assert forall r :: r in t.requests ==> RequestOk(s, r) && RequestOk(t, r) by { RequestsStayOk(s, t); }
      BroadcastTells(t, views);
    } else {
      assert GrantedSet(t) == GrantedSet(s);
      StillCoherent(s, t, views);
      SeeNothing(views);
    }
  }

  lemma RequestsStayOk(s: Server, t: Server)
    requires Inv(s) && t.users == s.users && t.requests.Keys <= s.requests.Keys
    requires forall r :: r in t.requests ==> t.requests[r] == s.requests[r]
    ensures forall r :: r in t.requests ==> RequestOk(s, r) && RequestOk(t, r)
  {
  }

  lemma StatusUnseen(s: Server, echo: Echo, r: Request, info: Option<Text>, views: Views)
    ensures See(views, StatusMessage(s, echo, r, info)) == views
  {
    hide RequestInfo;
  }

  lemma RequestTells(s: Server, m: Message, views: Views)
    requires Inv(s) && Coherent(s, views) && HasFree(s.requests.Keys)
    ensures Coherent(HandleRequest(s, m).0, SeeHandled(views, HandleRequest(s, m).1))
  {
    hide RequestOk, StatusMessage, PriorityIn, TextIn;
    var (t, out) := HandleRequest(s, m);
    var id := Fresh(s.requests.Keys, s.nextRequestId);
    var r := Request(id, m.userId, Pending, PriorityIn(m.attributes), TextIn(m.attributes, ParticipantProvidedInfo));
    StatusUnseen(t, m.AsEcho(), r, None, views);
    assert GrantedSet(t) == GrantedSet(s);
    StillCoherent(s, t, views);
  }

  lemma FloorQueryTells(s: Server, m: Message, views: Views)
    requires Inv(s) && Coherent(s, views) && m.userId in s.users
    ensures Coherent(HandleFloorQuery(s, m).0, SeeHandled(views, HandleFloorQuery(s, m).1))
  {
    hide RequestOk, FloorMessage, GrantedIn, IdsOf;
    var t := HandleFloorQuery(s, m).0;
    FloorQueryKeeps(s, m);
    FloorMessageSays(t, m.AsEcho());
    assert GrantedSet(t) == GrantedSet(s);
  }

  lemma MessageTells(s: Server, m: Message, views: Views)
    requires Inv(s) && Coherent(s, views) && !Spins(s, m)
    ensures Coherent(HandleMessage(s, m).0, SeeHandled(views, HandleMessage(s, m).1))
  {
    hide Inv, Coherent, StatusMessage, FloorMessage, RequestOk, HandleRequest, HandleRelease, HandleFloorQuery,
         RemoveUser, RequestInfo, RequestInfos, BeneficiaryInfo, GrantedIn, IdsOf;
    InvCounters(s);
    if Refused(s, m).None? && !m.primitive.IsAck() {
      match m.primitive
      case FloorRequest => RequestTells(s, m, views);
      case FloorRelease => ReleaseTells(s, m, FirstIdOf(m, FloorRequestId).value, views);
      case FloorRequestQuery =>
        StatusUnseen(s, m.AsEcho(), s.requests[FirstIdOf(m, FloorRequestId).value], None, views);
      case FloorQuery => FloorQueryTells(s, m, views);
      case Goodbye => LeaveTells(s, m.userId, views);
      case _ =>
    }
  }

  /** One operation keeps every subscriber told. */
  lemma ApplyTells(s: Server, op: Op, views: Views)
    requires Inv(s) && Coherent(s, views) && !Stuck(s, op)
    ensures Coherent(Apply(s, op).0, SeeHandled(views, Apply(s, op).1))
  {
    hide Inv, HandleMessage, RemoveUser, Decide, GrantedIn;
    InvCounters(s);
    match op
    case Receive(data) => if Parse(data).Ok? { MessageTells(s, Parse(data).value, views); }
    case Deliver(m) => MessageTells(s, m, views);
    case Join(userId, displayName, uri) => JoinTells(s, userId, displayName, uri, views);
    case Leave(userId) => LeaveTells(s, userId, views);
    case Grant(id) => DecideTells(s, id, Granted, None, views);
    case Deny(id, info) => DecideTells(s, id, Denied, info, views);
    case Revoke(id, info) => DecideTells(s, id, Revoked, info, views);
  }

  lemma JoinTells(s: Server, userId: U16, displayName: Option<Text>, uri: Option<Text>, views: Views)
    requires Coherent(s, views)
    ensures Coherent(AddUser(s, userId, displayName, uri), views)
  {
    assert GrantedSet(AddUser(s, userId, displayName, uri)) == GrantedSet(s);
  }
}
