/**
 The floor server as the program keeps it: an object whose maps and counters are updated in
 place. Each method is proved to leave the state, and to send, what `FloorServers` gives.
 */
module FloorControl {
  import opened Wrappers
  import opened Octets
  import opened Utf8
  import opened Messages
  import opened Accessors
  import opened IdAllocation
  import opened OrderedKeys
  import opened FloorServers

  class FloorServer {
    const conferenceId: U32
    const floorId: U16
    const transport: Transport
    var users: map<U16, User>
    var requests: map<U16, Request>
    var nextRequestId: U16
    var nextTransactionId: U16

    function State(): Server
      reads this
    {
      Server(conferenceId, floorId, transport, users, requests, nextRequestId, nextTransactionId)
    }

    ghost predicate Valid()
      reads this
    {
      Inv(State())
    }

    constructor (conferenceId: U32, floorId: U16, transport: Transport)
      ensures Valid() && State() == NewServer(conferenceId, floorId, transport)
    {
      this.conferenceId, this.floorId, this.transport := conferenceId, floorId, transport;
      users, requests := map[], map[];
      nextRequestId, nextTransactionId := 1, 1;
    }

    /** A user the conference admitted. */
    method Add(userId: U16, displayName: Option<Text>, uri: Option<Text>)
      requires Valid()
      modifies `users
      ensures Valid() && State() == AddUser(old(State()), userId, displayName, uri)
    {
      AddUserKeeps(State(), userId, displayName, uri);
      users := users[userId := User(displayName, uri, false)];
    }

    /** The user left: their requests go, and the others hear it when the floor falls free. */
    method Remove(userId: U16) returns (notifications: seq<Notification>, released: Option<U16>)
      requires Valid()
      modifies `users, `requests, `nextTransactionId
      ensures Valid() && (State(), notifications, released) == RemoveUser(old(State()), userId)
    {
      hide FloorMessage, LastGranted, RequestOk, Broadcast, Subscribers, RequestsOf;
      RemoveUserKeeps(State(), userId);
      ghost var s := State();
      users := users - {userId};
      var theirs := RequestsOf(State(), userId);
      RequestsIgnoreUsers(s, State(), userId);
      released := Forget(theirs);
      ForgottenIs(s, State(), userId);
      notifications := [];
      if released.Some? {
        WithoutKeeps(s, userId);
        InvCounters(State());
        notifications := FloorStatusToSubscribers();
      }
    }

    /** Drops the requests named, keeping the last granted one's id. */
    method Forget(theirs: seq<U16>) returns (released: Option<U16>)
      requires Ascends(theirs)
      modifies `requests
      ensures requests == old(requests) - (set id | id in theirs)
      ensures released == LastGranted(old(requests), theirs)
    {
      ghost var before := requests;
      released := None;
      var i := 0;
      while i < |theirs|
        invariant 0 <= i <= |theirs|
        invariant requests == before - (set id | id in theirs[..i])
        invariant released == LastGranted(before, theirs[..i])
      {
        hide LastGranted;
        var id := theirs[i];
        assert theirs[..i + 1] == theirs[..i] + [id];
        LastGrantedSnoc(before, theirs[..i], id);
        if id in requests {
          var r := requests[id];
          requests := requests - {id};
          if r.status.Granted? {
            released := Some(id);
          }
        }
        i := i + 1;
      }
      assert theirs[..i] == theirs;
    }

    /** Every subscriber is told the floor's status, by ascending user id. */
    method FloorStatusToSubscribers() returns (out: seq<Notification>)
      requires nextTransactionId != 0
      modifies `nextTransactionId
      ensures (State(), out) == Broadcast(old(State()), Subscribers(old(State())))
    {
      hide FloorMessage, Broadcast, Subscribers;
      ghost var s := State();
      var subscribers := Subscribers(State());
      out := [];
      var i := 0;
      ToldSoFar(s, subscribers);
      while i < |subscribers|
        invariant 0 <= i <= |subscribers| && nextTransactionId != 0
        invariant Broadcast(s, subscribers) ==
                  (Broadcast(State(), subscribers[i..]).0, out + Broadcast(State(), subscribers[i..]).1)
      {
        var userId := subscribers[i];
        ghost var told, before := State(), out;
        var echo := NotificationEcho(userId);
        SpentSays(told, echo);
        var message := FloorMessage(State(), echo).(responder := false);
        out := out + [Notification(userId, message)];
        assert subscribers[i..][1..] == subscribers[i + 1..];
        ToldNext(told, subscribers[i..], before);
        i := i + 1;
      }
      ToldAll(State(), subscribers[i..], out);
    }

    /** The header of a server-initiated message: a fresh transaction over UDP. */
    method NotificationEcho(userId: U16) returns (echo: Echo)
      modifies `nextTransactionId
      ensures echo == NextEcho(old(State()), userId) && State() == Spent(old(State()))
    {
      var transactionId: U16 := 0;
      if transport.Unreliable? {
        transactionId := nextTransactionId;
        nextTransactionId := After(nextTransactionId);
      }
      echo := Echo(transport.Version(), conferenceId, transactionId, userId);
    }

    /** The next request id that is not live; the search ends because one is not. */
    method FreshRequestId() returns (id: U16)
      requires nextRequestId != 0 && HasFree(requests.Keys)
      modifies `nextRequestId
      ensures id == Fresh(requests.Keys, old(nextRequestId)) && id != 0 && id !in requests
      ensures nextRequestId == After(id)
    {
      ghost var start, gap, passed := nextRequestId, Gap(requests.Keys, nextRequestId), 0;
      AfterAdvances(start, 0);
      while true
        invariant passed <= gap && nextRequestId == Advance(start, passed)
        decreases gap - passed
      {
        id := nextRequestId;
        nextRequestId := After(nextRequestId);
        if id !in requests {
          return;
        }
        AfterAdvances(start, passed);
        passed := passed + 1;
      }
    }

    /** The request as decided: the requester is told, and then every subscriber. */
    method DecideRequest(requestId: U16, status: Status, info: Option<Text>) returns (out: seq<Notification>)
      requires Valid() && (status.Granted? || status.IsTerminal())
      modifies `requests, `nextTransactionId
      ensures Valid() && (State(), out) == Decide(old(State()), requestId, status, info)
    {
      hide FloorMessage, StatusMessage;
      DecideKeeps(State(), requestId, status, info);
      if requestId !in requests {
        return [];
      }
      DecidedKeeps(State(), requestId, status);
      var request := requests[requestId];
      request := request.(status := status);
      if status.IsTerminal() {
        requests := requests - {requestId};
      } else {
        requests := requests[requestId := request];
      }
      var before := State();
      var echo := NotificationEcho(request.userId);
      SpentTells(before, echo, request, info);
      out := [Notification(request.userId, StatusMessage(State(), echo, request, info))];
      var rest := FloorStatusToSubscribers();
      out := out + rest;
    }

    method Grant(requestId: U16) returns (out: seq<Notification>)
      requires Valid()
      modifies `requests, `nextTransactionId
      ensures Valid() && (State(), out) == Decide(old(State()), requestId, Granted, None)
    {
      out := DecideRequest(requestId, Granted, None);
    }

    method Deny(requestId: U16, info: Option<Text>) returns (out: seq<Notification>)
      requires Valid()
      modifies `requests, `nextTransactionId
      ensures Valid() && (State(), out) == Decide(old(State()), requestId, Denied, info)
    {
      out := DecideRequest(requestId, Denied, info);
    }

    method Revoke(requestId: U16, info: Option<Text>) returns (out: seq<Notification>)
      requires Valid()
      modifies `requests, `nextTransactionId
      ensures Valid() && (State(), out) == Decide(old(State()), requestId, Revoked, info)
    {
      out := DecideRequest(requestId, Revoked, info);
    }

    /** Handles one message from a client, as octets. */
    method Receive(data: seq<Byte>) returns (out: Handled)
      requires Valid() && !SpinsOn(State(), data)
      modifies `users, `requests, `nextRequestId, `nextTransactionId
      ensures Valid() && (State(), out) == Handle(old(State()), data)
    {
      var parsed := Parse(data);
      if parsed.Ok? {
        out := HandleParsed(parsed.value);
      } else {
        out := NOTHING;
        if parsed.error.echo.Some? {
          var details := if parsed.error.kind.UnknownMandatory? then Shifted(parsed.error.kind.types) else [];
          out := Refusal(parsed.error.echo.value, parsed.error.ErrorCode(), details);
        }
      }
    }

    /** Handles a message already parsed. */
    method HandleParsed(m: Message) returns (out: Handled)
      requires Valid() && !Spins(State(), m)
      modifies `users, `requests, `nextRequestId, `nextTransactionId
      ensures Valid() && (State(), out) == HandleMessage(old(State()), m)
    {
      hide FloorMessage, StatusMessage, UserMessage, HelloMessage, IdsOf, RequestOk, HandleRequest, HandleRelease,
           HandleFloorQuery, RemoveUser;
      HandleMessageKeeps(State(), m);
      var echo := m.AsEcho();
      out := NOTHING;
      if m.version != transport.Version() {
        return Refusal(echo, UnsupportedVersion, []);
      }
      if m.conferenceId != conferenceId {
        return Refusal(echo, ConferenceDoesNotExist, []);
      }
      if m.primitive.IsAck() {
        return out.(events := [Acknowledged(m.userId, m.transactionId)]);
      }
      if m.userId !in users {
        return Refusal(echo, UserDoesNotExist, []);
      }
      match m.primitive
      case Hello =>
        out := out.(reply := Some(HelloMessage(echo)), events := [SaidHello(m.userId)]);
      case FloorRequest =>
        out := OnFloorRequest(m);
      case FloorRelease =>
        out := OnFloorRelease(m);
      case FloorRequestQuery =>
        var id := FirstIdOf(m, FloorRequestId);
        if id.None? || id.value !in requests {
          return Refusal(echo, FloorRequestIdDoesNotExist, []);
        }
        out := out.(reply := Some(StatusMessage(State(), echo, requests[id.value], None)));
      case FloorQuery =>
        out := OnFloorQuery(m);
      case UserQuery =>
        var beneficiary := FirstIdOf(m, BeneficiaryId);
        var about := if beneficiary.Some? then beneficiary.value else m.userId;
        if about !in users {
          return Refusal(echo, UserDoesNotExist, []);
        }
        out := out.(reply := Some(UserMessage(State(), echo, about)));
      case ChairAction =>
        return Refusal(echo, UnauthorizedOperation, []);
      case Goodbye =>
        out := out.(reply := Some(Response(echo, GoodbyeAck)));
        var notifications, released := Remove(m.userId);
        out := out.(notifications := notifications, events := [SaidGoodbye(m.userId, released)]);
      case _ =>
    }

    method OnFloorRequest(m: Message) returns (out: Handled)
      requires Valid() && !Spins(State(), m) && m.primitive.FloorRequest?
      requires m.version == transport.Version() && m.conferenceId == conferenceId && m.userId in users
      modifies `requests, `nextRequestId
      ensures (State(), out) == HandleMessage(old(State()), m)
    {
      hide StatusMessage, IdsOf, RequestOk, PriorityIn, TextIn, Inv;
      InvCounters(State());
      var echo := m.AsEcho();
      var floors := IdsOf(m.attributes, FloorId);
      if floors == [] || exists f :: f in floors && f != floorId {
        return Refusal(echo, InvalidFloorId, []);
      }
      var beneficiary := FirstIdOf(m, BeneficiaryId);
      if beneficiary.Some? && beneficiary.value != m.userId {
        return Refusal(echo, UnauthorizedOperation, []);
      }
      if exists r :: r in requests && requests[r].userId == m.userId {
        return Refusal(echo, MaximumFloorRequestsReached, []);
      }
      var id := FreshRequestId();
      var request := Request(id, m.userId, Pending, PriorityIn(m.attributes), TextIn(m.attributes, ParticipantProvidedInfo));
      requests := requests[id := request];
      out := Handled(Some(StatusMessage(State(), echo, request, None)), [],
                     [Requested(m.userId, id, request.priority, request.info)]);
    }

    method OnFloorRelease(m: Message) returns (out: Handled)
      requires Valid() && m.primitive.FloorRelease?
      requires m.version == transport.Version() && m.conferenceId == conferenceId && m.userId in users
      modifies `requests, `nextTransactionId
      ensures (State(), out) == HandleMessage(old(State()), m)
    {
      hide StatusMessage, FloorMessage, IdsOf, RequestOk, Inv;
      InvCounters(State());
      var echo := m.AsEcho();
      var named := FirstIdOf(m, FloorRequestId);
      if named.None? || named.value !in requests {
        return Refusal(echo, FloorRequestIdDoesNotExist, []);
      }
      var id := named.value;
      var request := requests[id];
      if request.userId != m.userId {
        return Refusal(echo, UnauthorizedOperation, []);
      }
      var wasGranted := request.status.Granted?;
      var done := request.(status := if wasGranted then Released else Cancelled);
      requests := requests - {id};
      out := Handled(Some(StatusMessage(State(), echo, done, None)), [], [GaveBack(m.userId, id, wasGranted)]);
      if wasGranted {
        var notifications := FloorStatusToSubscribers();
        out := out.(notifications := notifications);
      }
    }

    method OnFloorQuery(m: Message) returns (out: Handled)
      requires Valid() && m.primitive.FloorQuery?
      requires m.version == transport.Version() && m.conferenceId == conferenceId && m.userId in users
      modifies `users
      ensures (State(), out) == HandleMessage(old(State()), m)
    {
      hide FloorMessage, IdsOf, RequestOk, Inv;
      InvCounters(State());
      var floors := IdsOf(m.attributes, FloorId);
      if exists f :: f in floors && f != floorId {
        return Refusal(m.AsEcho(), InvalidFloorId, []);
      }
      var subscribed := floors != [];
      users := users[m.userId := users[m.userId].(subscribed := subscribed)];
      out := NOTHING.(reply := Some(if subscribed then FloorMessage(State(), m.AsEcho())
                                    else Response(m.AsEcho(), FloorStatus)));
    }
  }

  lemma RequestsIgnoreUsers(s: Server, t: Server, userId: U16)
    requires t.requests == s.requests
    ensures RequestsOf(t, userId) == RequestsOf(s, userId)
  {
    assert OwnedBy(t, userId) == OwnedBy(s, userId);
  }

  /** Dropping exactly a user's requests, with the user, is what `Without` says. */
  lemma ForgottenIs(s: Server, t: Server, userId: U16)
    requires t == s.(users := s.users - {userId}, requests := s.requests - (set id | id in RequestsOf(s, userId)))
    ensures t == Without(s, userId)
  {
    assert t.requests == Without(s, userId).requests;
  }

  lemma LastGrantedSnoc(requests: map<U16, Request>, ids: seq<U16>, id: U16)
    ensures LastGranted(requests, ids + [id]) ==
            if id in requests && requests[id].status.Granted? then Some(id) else LastGranted(requests, ids)
  {
    assert (ids + [id])[..|ids|] == ids;
  }

  lemma ToldSoFar(s: Server, ids: seq<U16>)
    ensures ids[0..] == ids
    ensures Broadcast(s, ids) == (Broadcast(s, ids).0, [] + Broadcast(s, ids).1)
  {
    assert [] + Broadcast(s, ids).1 == Broadcast(s, ids).1;
  }

  lemma ToldNext(s: Server, ids: seq<U16>, out: seq<Notification>)
    requires ids != []
    ensures (Broadcast(s, ids).0, out + Broadcast(s, ids).1) ==
            (Broadcast(Spent(s), ids[1..]).0, out + [FloorNotification(s, ids[0])] + Broadcast(Spent(s), ids[1..]).1)
  {
    var rest := Broadcast(Spent(s), ids[1..]).1;
    assert out + ([FloorNotification(s, ids[0])] + rest) == out + [FloorNotification(s, ids[0])] + rest;
  }

  lemma ToldAll(s: Server, ids: seq<U16>, out: seq<Notification>)
    requires ids == []
    ensures Broadcast(s, ids) == (s, []) && out + Broadcast(s, ids).1 == out
  {
  }

  lemma SpentSays(s: Server, echo: Echo)
    requires s.nextTransactionId != 0
    ensures FloorMessage(Spent(s), echo) == FloorMessage(s, echo)
    ensures Spent(s).nextTransactionId != 0
  {
    SpentAdvances(s);
    SameFloorSays(s, Spent(s), echo);
  }

  lemma SpentTells(s: Server, echo: Echo, r: Request, info: Option<Text>)
    ensures StatusMessage(Spent(s), echo, r, info) == StatusMessage(s, echo, r, info)
  {
  }
}
