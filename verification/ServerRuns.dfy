/**
 Whole runs of the floor server: any interleaving of client messages, joins, departures and
 the owner's decisions. A history keeps what each user was last told about the floor, which
 requests began and ended, and the transaction ids used; the theorems tie it to the server.
 */
module ServerRuns {
  import opened Wrappers
  import opened Octets
  import opened Messages
  import opened Accessors
  import opened OrderedKeys
  import opened IdAllocation
  import opened FloorServers
  import opened Subscribers

  /** The request ids that events say have begun. */
  function Begun(events: seq<Event>): multiset<U16> {
    if events == [] then multiset{}
    else (if events[0].Requested? then multiset{events[0].requestId} else multiset{}) + Begun(events[1..])
  }

  /** The request ids that events say were given back or withdrawn. */
  function GivenBack(events: seq<Event>): multiset<U16> {
    if events == [] then multiset{}
    else (if events[0].GaveBack? then multiset{events[0].requestId} else multiset{}) + GivenBack(events[1..])
  }

  /** The request ids that notifications report in a terminal status. */
  function ReportedOver(ns: seq<Notification>): multiset<U16> {
    if ns == [] then multiset{}
    else
      (if ns[0].message.primitive.FloorRequestStatus? && ReportedStatus(ns[0].message).Some?
          && ReportedStatus(ns[0].message).value.1.IsTerminal()
       then multiset{ReportedStatus(ns[0].message).value.0} else multiset{}) + ReportedOver(ns[1..])
  }

  /** The user whose departure the operation is, if it is one. */
  function Departs(op: Op, events: seq<Event>): Option<U16> {
    if op.Leave? then Some(op.userId)
    else if events != [] && events[0].SaidGoodbye? then Some(events[0].userId)
    else None
  }

  function Owned(s: Server, user: Option<U16>): set<U16> {
    if user.Some? then OwnedBy(s, user.value) else {}
  }

  /** The requests an operation ends, as its outputs say, with those of a user it removes. */
  function EndedBy(s: Server, op: Op, out: Handled): multiset<U16> {
    GivenBack(out.events) + ReportedOver(out.notifications) + multiset(Owned(s, Departs(op, out.events)))
  }

  function UsedBy(ns: seq<Notification>): (used: seq<U16>)
    ensures |used| == |ns| && forall k :: 0 <= k < |ns| ==> used[k] == ns[k].message.transactionId
  {
    seq(|ns|, k requires 0 <= k < |ns| => ns[k].message.transactionId)
  }

  datatype History = History(server: Server, views: Views, begun: multiset<U16>, ended: multiset<U16>, used: seq<U16>)

  function Beginning(s: Server): History {
    History(s, map[], multiset{}, multiset{}, [])
  }

  ghost function Next(h: History, op: Op): (h': History)
    requires Inv(h.server) && !Stuck(h.server, op)
    ensures Inv(h'.server)
  {
    ApplyKeeps(h.server, op);
    var (s, out) := Apply(h.server, op);
    History(s, SeeHandled(h.views, out), h.begun + Begun(out.events), h.ended + EndedBy(h.server, op, out),
            h.used + UsedBy(out.notifications))
  }

  /** No operation of the run is one the program would never finish. */
  ghost predicate Proceeds(h: History, ops: seq<Op>)
    requires Inv(h.server)
    decreases |ops|
  {
    ops == [] || (!Stuck(h.server, ops[0]) && Proceeds(Next(h, ops[0]), ops[1..]))
  }

  ghost function Run(h: History, ops: seq<Op>): (end: History)
    requires Inv(h.server) && Proceeds(h, ops)
    ensures Inv(end.server)
    decreases |ops|
  {
    if ops == [] then h else Run(Next(h, ops[0]), ops[1..])
  }

  // ---- every subscriber is told ---------------------------------------

  lemma {:induction false} RunTells(h: History, ops: seq<Op>)
    requires Inv(h.server) && Proceeds(h, ops) && Coherent(h.server, h.views)
    ensures Coherent(Run(h, ops).server, Run(h, ops).views)
    decreases |ops|
  {
    hide Inv, Coherent, Apply, Stuck, EndedBy, Begun, SeeHandled;
    if ops != [] {
      ApplyTells(h.server, ops[0], h.views);
      RunTells(Next(h, ops[0]), ops[1..]);
    }
  }

  lemma NobodySubscribedYet(conferenceId: U32, floorId: U16, transport: Transport)
    ensures Coherent(NewServer(conferenceId, floorId, transport), map[])
  {
  }

  /**
   Subscriber coherence over every run: whatever was received, joined, left and decided, the
   requests granted in the last FloorStatus sent to each current subscriber are exactly the
   requests granted now.
   */
  lemma SubscribersAreTold(conferenceId: U32, floorId: U16, transport: Transport, ops: seq<Op>, u: U16)
    requires Proceeds(Beginning(NewServer(conferenceId, floorId, transport)), ops)
    ensures var end := Run(Beginning(NewServer(conferenceId, floorId, transport)), ops);
            u in end.server.users && end.server.users[u].subscribed ==>
              u in end.views && end.views[u] == GrantedSet(end.server)
  {
    hide Run, Proceeds, Inv;
    NobodySubscribedYet(conferenceId, floorId, transport);
    RunTells(Beginning(NewServer(conferenceId, floorId, transport)), ops);
  }

  // ---- every request ends once ----------------------------------------

  predicate Balanced(s: Server, begun: multiset<U16>, ended: multiset<U16>) {
    begun == ended + multiset(s.requests.Keys)
  }

  lemma StatusSays(s: Server, echo: Echo, r: Request, info: Option<Utf8.Text>)
    ensures ReportedStatus(StatusMessage(s, echo, r, info)) == Some((r.id, r.status))
    ensures StatusMessage(s, echo, r, info).primitive.FloorRequestStatus?
  {
    hide RequestInfo, OverallStatus;
    InfoSays(s, r, info);
    var m := StatusMessage(s, echo, r, info);
    assert m.attributes == [RequestInfo(s, r, info)];
    assert Informations(m.attributes) == [RequestInfo(s, r, info)];
  }

  lemma {:induction false} BroadcastReportsNothing(s: Server, ids: seq<U16>)
    ensures ReportedOver(Broadcast(s, ids).1) == multiset{}
    decreases |ids|
  {
    hide ReportedStatus;
    if ids != [] {
      BroadcastReportsNothing(Spent(s), ids[1..]);
      var ns := Broadcast(s, ids).1;
      assert ns[1..] == Broadcast(Spent(s), ids[1..]).1;
      assert ns[0].message.primitive.FloorStatus?;
    }
  }

  lemma {:induction false} DecideReports(s: Server, id: U16, status: Status, info: Option<Utf8.Text>)
    requires Inv(s) && (status.Granted? || status.IsTerminal())
    ensures ReportedOver(Decide(s, id, status, info).1) ==
            if id in s.requests && status.IsTerminal() then multiset{id} else multiset{}
    ensures multiset(s.requests.Keys) ==
            multiset(Decide(s, id, status, info).0.requests.Keys) + ReportedOver(Decide(s, id, status, info).1)
  {
    hide ReportedStatus, StatusMessage, Broadcast, Inv;
    DecideKeeps(s, id, status, info);
    if id in s.requests {
      var t := Decided(s, id, status);
      var r := s.requests[id].(status := status);
      var ns := Decide(s, id, status, info).1;
      KeyedById(s, id);
      StatusSays(t, NextEcho(t, r.userId), r, info);
      BroadcastReportsNothing(Spent(t), FloorServers.Subscribers(t));
      assert ns[1..] == Broadcast(Spent(t), FloorServers.Subscribers(t)).1;
      if status.IsTerminal() {
        assert t.requests.Keys == s.requests.Keys - {id};
      } else {
        assert t.requests.Keys == s.requests.Keys;
      }
    }
  }

  lemma KeyedById(s: Server, id: U16)
    requires Inv(s) && id in s.requests
    ensures s.requests[id].id == id && id != 0 && s.requests[id].userId in s.users
  {
    assert RequestOk(s, id);
  }

  lemma LeaveEnds(s: Server, userId: U16)
    requires Inv(s)
    ensures multiset(s.requests.Keys) ==
            multiset(RemoveUser(s, userId).0.requests.Keys) + multiset(Owned(s, Some(userId)))
    ensures ReportedOver(RemoveUser(s, userId).1) == multiset{}
  {
    hide Inv, Broadcast, LastGranted;
    RemoveUserKeeps(s, userId);
    var t := Without(s, userId);
    BroadcastReportsNothing(t, FloorServers.Subscribers(t));
    assert s.requests.Keys == t.requests.Keys + Owned(s, Some(userId));
    assert t.requests.Keys !! Owned(s, Some(userId));
  }

  lemma OneEvent(e: Event)
    ensures Begun([e]) == if e.Requested? then multiset{e.requestId} else multiset{}
    ensures GivenBack([e]) == if e.GaveBack? then multiset{e.requestId} else multiset{}
    ensures Begun([]) == GivenBack([]) == multiset{}
  {
    assert [e][1..] == [];
  }

  lemma NoneOwned(s: Server)
    ensures Owned(s, None) == {}
  {
  }

  /** The live requests change by exactly those that began and those that ended. */
  predicate Balances(s: Server, op: Op, t: Server, out: Handled) {
    multiset(s.requests.Keys) + Begun(out.events) == multiset(t.requests.Keys) + EndedBy(s, op, out)
  }

  lemma QuietBalances(s: Server, op: Op, t: Server, out: Handled)
    requires t.requests.Keys == s.requests.Keys && out.notifications == [] && !op.Leave?
    requires out.events == [] || (exists e :: out.events == [e] && (e.SaidHello? || e.Acknowledged?))
    ensures Balances(s, op, t, out)
  {
    hide ReportedStatus, Inv;
    NoneOwned(s);
    if out.events != [] {
      OneEvent(out.events[0]);
      assert out.events == [out.events[0]];
    }
  }

  lemma RequestBalances(s: Server, op: Op, m: Message)
    requires s.nextRequestId != 0 && HasFree(s.requests.Keys) && !op.Leave?
    ensures Balances(s, op, HandleRequest(s, m).0, HandleRequest(s, m).1)
  {
    hide StatusMessage, ReportedStatus, Inv, Begun, GivenBack, PriorityIn, TextIn;
    var (t, out) := HandleRequest(s, m);
    var id := Fresh(s.requests.Keys, s.nextRequestId);
    NoneOwned(s);
    OneEvent(out.events[0]);
    assert t.requests.Keys == s.requests.Keys + {id};
  }

  lemma NoReports()
    ensures ReportedOver([]) == multiset{}
  {
  }

  lemma ReleaseBalances(s: Server, op: Op, m: Message, id: U16)
    requires Inv(s) && id in s.requests && !op.Leave?
    ensures Balances(s, op, HandleRelease(s, m, id).0, HandleRelease(s, m, id).1)
  {
    hide StatusMessage, ReportedStatus, Inv, Begun, GivenBack, Broadcast, ReportedOver, FloorServers.Subscribers, Owned;
    var (t, out) := HandleRelease(s, m, id);
    var u := s.(requests := s.requests - {id});
    NoneOwned(s);
    NoReports();
    ReleaseKeeps(s, m, id);
    BroadcastReportsNothing(u, FloorServers.Subscribers(u));
    OneEvent(GaveBack(m.userId, id, s.requests[id].status.Granted?));
    assert t.requests.Keys == s.requests.Keys - {id};
    assert multiset(s.requests.Keys) == multiset(s.requests.Keys - {id}) + multiset{id};
  }

  lemma GoodbyeBalances(s: Server, op: Op, t: Server, out: Handled, userId: U16, released: Option<U16>)
    requires Inv(s) && RemoveUser(s, userId) == (t, out.notifications, released) && !op.Leave?
    requires out.events == [SaidGoodbye(userId, released)]
    ensures Balances(s, op, t, out)
  {
    hide ReportedStatus, Inv, Begun, GivenBack, RemoveUser, ReportedOver, Owned;
    LeaveEnds(s, userId);
    OneEvent(out.events[0]);
  }

  lemma MessageBalances(s: Server, op: Op, m: Message)
    requires Inv(s) && !Spins(s, m) && !op.Leave?
    ensures Balances(s, op, HandleMessage(s, m).0, HandleMessage(s, m).1)
  {
    hide Inv, StatusMessage, FloorMessage, RequestOk, RemoveUser, IdsOf, UserMessage, HelloMessage, Balances,
         HandleRequest, HandleRelease;
    InvCounters(s);
    var (t, out) := HandleMessage(s, m);
    if Refused(s, m).None? && !m.primitive.IsAck() {
      match m.primitive
      case Hello =>
        assert out.events == [SaidHello(m.userId)];
        QuietBalances(s, op, t, out);
      case FloorRequest => RequestBalances(s, op, m);
      case FloorRelease => ReleaseBalances(s, op, m, FirstIdOf(m, FloorRequestId).value);
      case Goodbye => GoodbyeBalances(s, op, t, out, m.userId, RemoveUser(s, m.userId).2);
      case _ => QuietBalances(s, op, t, out);
    } else {
      assert out.events == [] || out.events == [Acknowledged(m.userId, m.transactionId)];
      QuietBalances(s, op, t, out);
    }
  }

  lemma DecideBalances(s: Server, op: Op, id: U16, status: Status, info: Option<Utf8.Text>)
    requires Inv(s) && (status.Granted? || status.IsTerminal()) && !op.Leave?
    ensures Balances(s, op, Decide(s, id, status, info).0, NOTHING.(notifications := Decide(s, id, status, info).1))
  {
    hide Inv, Decide, ReportedOver;
    NoneOwned(s);
    DecideReports(s, id, status, info);
  }

  lemma LeaveBalances(s: Server, userId: U16)
    requires Inv(s)
    ensures Balances(s, Leave(userId), RemoveUser(s, userId).0, NOTHING.(notifications := RemoveUser(s, userId).1))
  {
    hide Inv, RemoveUser, ReportedOver, Owned;
    LeaveEnds(s, userId);
  }

  /** Every operation balances. */
  lemma ApplyBalances(s: Server, op: Op)
    requires Inv(s) && !Stuck(s, op)
    ensures Balances(s, op, Apply(s, op).0, Apply(s, op).1)
  {
    hide Inv, HandleMessage, RemoveUser, Decide, Balances;
    InvCounters(s);
    match op
    case Receive(data) =>
      if Parse(data).Ok? {
        MessageBalances(s, op, Parse(data).value);
      } else {
        QuietBalances(s, op, Apply(s, op).0, Apply(s, op).1);
      }
    case Deliver(m) => MessageBalances(s, op, m);
    case Join(userId, displayName, uri) => QuietBalances(s, op, Apply(s, op).0, Apply(s, op).1);
    case Leave(userId) => LeaveBalances(s, userId);
    case Grant(id) => DecideBalances(s, op, id, Granted, None);
    case Deny(id, info) => DecideBalances(s, op, id, Denied, info);
    case Revoke(id, info) => DecideBalances(s, op, id, Revoked, info);
  }

  lemma BalanceCarries(begun: multiset<U16>, ended: multiset<U16>, live: multiset<U16>, b: multiset<U16>,
                       e: multiset<U16>, after: multiset<U16>)
    requires begun == ended + live && live + b == after + e
    ensures begun + b == ended + e + after
  {
    assert ended + live + b == ended + (live + b);
    assert ended + (after + e) == ended + e + after;
  }

  lemma {:induction false} RunBalances(h: History, ops: seq<Op>)
    requires Inv(h.server) && Proceeds(h, ops) && Balanced(h.server, h.begun, h.ended)
    ensures Balanced(Run(h, ops).server, Run(h, ops).begun, Run(h, ops).ended)
    decreases |ops|
  {
    hide Inv, Apply, Stuck, EndedBy, Begun, SeeHandled;
    if ops != [] {
      var (s, out) := Apply(h.server, ops[0]);
      ApplyBalances(h.server, ops[0]);
      BalanceCarries(h.begun, h.ended, multiset(h.server.requests.Keys), Begun(out.events),
                     EndedBy(h.server, ops[0], out), multiset(s.requests.Keys));
      RunBalances(Next(h, ops[0]), ops[1..]);
    }
  }

  /**
   Every request ends exactly once: over any run, for each id, the `Requested` events outnumber
   the endings reported by one while the request is live, and equal them when it is not.
   */
  lemma RequestsEndOnce(conferenceId: U32, floorId: U16, transport: Transport, ops: seq<Op>, id: U16)
    requires Proceeds(Beginning(NewServer(conferenceId, floorId, transport)), ops)
    ensures var end := Run(Beginning(NewServer(conferenceId, floorId, transport)), ops);
            end.begun[id] == end.ended[id] + if id in end.server.requests then 1 else 0
  {
    hide Run, Proceeds, Inv;
    RunBalances(Beginning(NewServer(conferenceId, floorId, transport)), ops);
  }

  /**
   No report comes after the end: each status a notification reports is of a request that was
   live before the operation, and a terminal one is of a request the operation removed.
   */
  lemma ReportsAreOfLiveRequests(s: Server, op: Op, k: nat)
    requires Inv(s) && !Stuck(s, op)
    requires k < |Apply(s, op).1.notifications| && Apply(s, op).1.notifications[k].message.primitive.FloorRequestStatus?
    ensures var (t, out) := Apply(s, op);
            var reported := ReportedStatus(out.notifications[k].message);
            && reported.Some? && reported.value.0 in s.requests
            && out.notifications[k].userId == s.requests[reported.value.0].userId
            && (reported.value.1.IsTerminal() ==> reported.value.0 !in t.requests)
            && (!reported.value.1.IsTerminal() ==>
                 reported.value.0 in t.requests && t.requests[reported.value.0].status == reported.value.1)
  {
    hide Inv, HandleMessage, RemoveUser, Decide, Broadcast, ReportedStatus;
    InvCounters(s);
    match op
    case Receive(data) => if Parse(data).Ok? { MessageNotifiesFloor(s, Parse(data).value, k); }
    case Deliver(m) => MessageNotifiesFloor(s, m, k);
    case Join(userId, displayName, uri) =>
    case Leave(userId) => LeaveNotifiesFloor(s, userId, k);
    case Grant(id) => DecideReportsTheRequest(s, id, Granted, None, k);
    case Deny(id, info) => DecideReportsTheRequest(s, id, Denied, info, k);
    case Revoke(id, info) => DecideReportsTheRequest(s, id, Revoked, info, k);
  }

  lemma BroadcastIsFloorStatus(s: Server, ids: seq<U16>, k: nat)
    requires Inv(s) && k < |Broadcast(s, ids).1|
    ensures Broadcast(s, ids).1[k].message.primitive.FloorStatus?
  {
    hide Inv, RequestInfos;
    InvCounters(s);
    BroadcastIs(s, ids);
  }

  lemma LeaveNotifiesFloor(s: Server, userId: U16, k: nat)
    requires Inv(s) && k < |RemoveUser(s, userId).1|
    ensures RemoveUser(s, userId).1[k].message.primitive.FloorStatus?
  {
    hide Inv, Broadcast, LastGranted;
    WithoutKeeps(s, userId);
    BroadcastIsFloorStatus(Without(s, userId), FloorServers.Subscribers(Without(s, userId)), k);
  }

  lemma MessageNotifiesFloor(s: Server, m: Message, k: nat)
    requires Inv(s) && !Spins(s, m)
    requires s.nextRequestId != 0 && k < |HandleMessage(s, m).1.notifications|
    ensures HandleMessage(s, m).1.notifications[k].message.primitive.FloorStatus?
  {
    hide Inv, Broadcast, RemoveUser, IdsOf, StatusMessage, FloorMessage, UserMessage, HelloMessage, RequestOk;
    if m.primitive.Goodbye? {
      LeaveNotifiesFloor(s, m.userId, k);
    } else if m.primitive.FloorRelease? {
      var t := s.(requests := s.requests - {FirstIdOf(m, FloorRequestId).value});
      RemovedKeeps(s, FirstIdOf(m, FloorRequestId).value);
      BroadcastIsFloorStatus(t, FloorServers.Subscribers(t), k);
    }
  }

  lemma RemovedKeeps(s: Server, id: U16)
    requires Inv(s)
    ensures Inv(s.(requests := s.requests - {id}))
  {
    var t := s.(requests := s.requests - {id});
    RequestsStayOk(s, t);
  }

  lemma DecideReportsTheRequest(s: Server, id: U16, status: Status, info: Option<Utf8.Text>, k: nat)
    requires Inv(s) && (status.Granted? || status.IsTerminal()) && k < |Decide(s, id, status, info).1|
    ensures var (t, ns) := Decide(s, id, status, info);
            && id in s.requests && (k > 0 ==> ns[k].message.primitive.FloorStatus?)
            && (k == 0 ==> ReportedStatus(ns[0].message) == Some((id, status)) && ns[0].userId == s.requests[id].userId)
            && (status.IsTerminal() ==> id !in t.requests)
            && (!status.IsTerminal() ==> id in t.requests && t.requests[id].status == status)
  {
    hide Inv, Broadcast, StatusMessage, ReportedStatus;
    DecideKeeps(s, id, status, info);
    var t := Decided(s, id, status);
    DecidedKeeps(s, id, status);
    KeyedById(s, id);
    StatusSays(t, NextEcho(t, s.requests[id].userId), s.requests[id].(status := status), info);
    if k > 0 {
      BroadcastIsFloorStatus(Spent(t), FloorServers.Subscribers(t), k - 1);
    }
  }

  /** A departure reports a request exactly when the user had one granted, and then that one. */
  lemma DepartureReports(s: Server, userId: U16)
    requires Inv(s)
    ensures var released := RemoveUser(s, userId).2;
            && (released.None? <==> forall id :: id in GrantedSet(s) ==> s.requests[id].userId != userId)
            && (released.Some? ==> released.value in GrantedSet(s) && s.requests[released.value].userId == userId)
  {
    hide Inv, Broadcast, LastGranted, Ascending;
    LastGrantedFinds(s.requests, RequestsOf(s, userId));
  }

  /** Events tell the truth about the requests they name. */
  lemma EventsAreTrue(s: Server, m: Message)
    requires Inv(s) && !Spins(s, m) && s.nextRequestId != 0
    ensures var (t, out) := HandleMessage(s, m);
            && |out.events| <= 1
            && (forall e :: e in out.events && e.Requested? ==>
                 && e.requestId !in s.requests && e.requestId in t.requests && e.requestId != 0
                 && t.requests[e.requestId] == Request(e.requestId, m.userId, Pending, e.priority, e.info))
            && (forall e :: e in out.events && e.GaveBack? ==>
                 && e.requestId in s.requests && e.requestId !in t.requests
                 && s.requests[e.requestId].userId == e.userId == m.userId
                 && (e.wasGranted <==> s.requests[e.requestId].status.Granted?))
            && (forall e :: e in out.events && e.SaidGoodbye? ==>
                 && e.userId == m.userId && e.userId !in t.users && Owned(t, Some(e.userId)) == {}
                 && (e.released.None? <==> forall id :: id in GrantedSet(s) ==> s.requests[id].userId != e.userId)
                 && (e.released.Some? ==>
                      e.released.value in GrantedSet(s) && s.requests[e.released.value].userId == e.userId))
  {
    hide Inv, Broadcast, IdsOf, StatusMessage, FloorMessage, UserMessage, HelloMessage, RequestOk, RemoveUser,
         FloorServers.Subscribers, PriorityIn, TextIn;
    if m.primitive.Goodbye? {
      RemoveUserKeeps(s, m.userId);
      DepartureReports(s, m.userId);
    } else if m.primitive.FloorRelease? && Refused(s, m).None? {
      ReleaseKeeps(s, m, FirstIdOf(m, FloorRequestId).value);
    }
  }

  /** A message answered with an error changes nothing and tells nobody else. */
  lemma ErrorsChangeNothing(s: Server, m: Message)
    requires Inv(s) && !Spins(s, m) && s.nextRequestId != 0
    ensures var (t, out) := HandleMessage(s, m);
            && (out.reply.Some? && out.reply.value.primitive.Error? <==> Refused(s, m).Some?)
            && (Refused(s, m).Some? ==>
                 && t == s && out.notifications == [] && out.events == []
                 && out.reply.value.attributes == [ErrorCode(Refused(s, m).value, [])])
  {
    hide Inv, Broadcast, IdsOf, RequestInfo, RequestInfos, RemoveUser, Refused, RequestOk;
    var none: seq<Attribute> := [];
    assert forall a :: none + [a] == [a];
  }
}
