/**
 Who is a subscriber, over whole runs: whoever's last accepted FloorQuery since they joined named
 the floor, and nobody else. A run shows a subscriber being told of a grant.
 */
module Subscriptions {
  import opened Wrappers
  import opened Octets
  import opened Messages
  import Utf8
  import opened Accessors
  import opened FloorServers
  import opened Subscribers
  import opened ServerMessages
  import opened ServerRuns
  import opened ServerReplies
  import opened ServerReach

  predicate Subscribed(s: Server, u: U16) {
    u in s.users && s.users[u].subscribed
  }

  /** The message an operation brings, if it can be read. */
  function Brought(op: Op): Option<Message> {
    match op
    case Receive(data) => if Parse(data).Ok? then Some(Parse(data).value) else None
    case Deliver(m) => Some(m)
    case _ => None
  }

  /** The operation brings an accepted message of the kind from the user. */
  predicate Says(s: Server, op: Op, u: U16, primitive: Primitive) {
    && Brought(op).Some? && Brought(op).value.primitive == primitive && Brought(op).value.userId == u
    && Refused(s, Brought(op).value).None?
  }

  /** What the operation settles about the user's subscription, if anything. */
  ghost function Settles(s: Server, op: Op, u: U16): Option<bool> {
    if Says(s, op, u, FloorQuery) then Some(NamesSome(Brought(op).value))
    else if Says(s, op, u, Goodbye) || (op.Leave? && op.userId == u) || (op.Join? && op.userId == u) then Some(false)
    else None
  }

  lemma MessageSubscribes(s: Server, m: Message, u: U16)
    requires Inv(s) && !Spins(s, m) && s.nextRequestId != 0
    ensures var t := HandleMessage(s, m).0;
            Subscribed(t, u) <==>
            if Refused(s, m).None? && m.userId == u && m.primitive.FloorQuery? then NamesSome(m)
            else if Refused(s, m).None? && m.userId == u && m.primitive.Goodbye? then false
            else Subscribed(s, u)
  {
    hide Inv, Refused, HandleMessage, RemoveUser, NamesSome, HelloMessage, UserMessage;
    if Refused(s, m).Some? {
      RefusedChangesNothing(s, m);
    } else {
      match m.primitive
      case FloorQuery => FloorQueryDoes(s, m);
      case FloorRequest => FloorRequestDoes(s, m);
      case FloorRelease => ReleaseKeepsUsers(s, m);
      case FloorRequestQuery => QueriesChangeNothing(s, m);
      case UserQuery => QueriesChangeNothing(s, m);
      case Goodbye => ComingAndGoing(s, m); LeaveDoes(s, m.userId);
      case ChairAction => QueriesChangeNothing(s, m);
      case _ => ComingAndGoing(s, m);
    }
  }

  lemma RefusedChangesNothing(s: Server, m: Message)
    requires Inv(s) && !Spins(s, m) && s.nextRequestId != 0 && Refused(s, m).Some?
    ensures HandleMessage(s, m).0 == s
  {
    hide Inv, Refused;
  }

  lemma QueriesChangeNothing(s: Server, m: Message)
    requires Inv(s) && !Spins(s, m) && s.nextRequestId != 0
    requires m.primitive.FloorRequestQuery? || m.primitive.UserQuery? || m.primitive.ChairAction?
    ensures HandleMessage(s, m).0 == s
  {
    hide Inv, IdsOf, RequestInfo, UserMessage;
  }

  lemma ReleaseKeepsUsers(s: Server, m: Message)
    requires Inv(s) && !Spins(s, m) && s.nextRequestId != 0 && Refused(s, m).None? && m.primitive.FloorRelease?
    ensures HandleMessage(s, m).0.users == s.users
  {
    hide Inv, IdsOf, StatusMessage, Broadcast, FloorServers.Subscribers;
    ReleaseKeeps(s, m, FirstIdOf(m, FloorRequestId).value);
  }

  lemma BroughtSubscribes(s: Server, op: Op, m: Message, u: U16)
    requires Inv(s) && !Stuck(s, op) && Brought(op) == Some(m)
    ensures Subscribed(Apply(s, op).0, u) <==>
            if Settles(s, op, u).Some? then Settles(s, op, u).value else Subscribed(s, u)
  {
    hide Inv, HandleMessage, Refused, NamesSome, Spins, Subscribed;
    InvCounters(s);
    MessageSubscribes(s, m, u);
  }

  lemma DecisionKeepsSubscriptions(s: Server, id: U16, status: Status, info: Option<Utf8.Text>, u: U16)
    requires Inv(s) && (status.Granted? || status.IsTerminal())
    ensures Subscribed(Decide(s, id, status, info).0, u) <==> Subscribed(s, u)
  {
    hide Inv, Decide;
    DecideKeeps(s, id, status, info);
  }

  /** Each operation changes a user's subscription only as it settles it. */
  lemma StepSubscribes(s: Server, op: Op, u: U16)
    requires Inv(s) && !Stuck(s, op)
    ensures Subscribed(Apply(s, op).0, u) <==>
            if Settles(s, op, u).Some? then Settles(s, op, u).value else Subscribed(s, u)
  {
    hide Inv, Handle, HandleMessage, RemoveUser, Decide, Refused, NamesSome, Stuck, Parse, BeneficiaryInfo;
    if Brought(op).Some? {
      BroughtSubscribes(s, op, Brought(op).value, u);
    } else {
      match op
      case Receive(data) => UnreadableChangesNothing(s, data);
      case Join(userId, displayName, uri) => JoinDoes(s, userId, displayName, uri);
      case Leave(userId) => LeaveDoes(s, userId);
      case Grant(id) => DecisionKeepsSubscriptions(s, id, Granted, None, u);
      case Deny(id, info) => DecisionKeepsSubscriptions(s, id, Denied, info, u);
      case Revoke(id, info) => DecisionKeepsSubscriptions(s, id, Revoked, info, u);
    }
  }

  lemma UnreadableChangesNothing(s: Server, data: seq<Byte>)
    requires Inv(s) && Parse(data).Err? && !Stuck(s, Receive(data))
    ensures Apply(s, Receive(data)).0 == s
  {
    hide Inv, Parse;
    InvCounters(s);
  }

  /** The last thing settled along a run, beginning with `word`. */
  ghost function LastWord(h: History, ops: seq<Op>, u: U16, word: bool): bool
    requires Inv(h.server) && Proceeds(h, ops)
    decreases |ops|
  {
    if ops == [] then word
    else
      var settled := Settles(h.server, ops[0], u);
      LastWord(Next(h, ops[0]), ops[1..], u, if settled.Some? then settled.value else word)
  }

  lemma {:induction false} RunSubscribes(h: History, ops: seq<Op>, u: U16)
    requires Inv(h.server) && Proceeds(h, ops)
    ensures Subscribed(Run(h, ops).server, u) <==> LastWord(h, ops, u, Subscribed(h.server, u))
    decreases |ops|
  {
    hide Inv, Stuck, Settles, Subscribed, Apply, EndedBy, Begun, SeeHandled;
    if ops != [] {
      StepSubscribes(h.server, ops[0], u);
      RunSubscribes(Next(h, ops[0]), ops[1..], u);
    }
  }

  /** Over every run of a new server: a user is subscribed exactly when their last word was a query naming the floor. */
  lemma SubscribedExactlyWhen(conferenceId: U32, floorId: U16, transport: Transport, ops: seq<Op>, u: U16)
    requires Proceeds(Beginning(NewServer(conferenceId, floorId, transport)), ops)
    ensures var start := Beginning(NewServer(conferenceId, floorId, transport));
            Subscribed(Run(start, ops).server, u) <==> LastWord(start, ops, u, false)
  {
    hide Inv, Proceeds, Run, LastWord;
    RunSubscribes(Beginning(NewServer(conferenceId, floorId, transport)), ops, u);
  }

  // ---- a subscriber is told -------------------------------------------

  /** The floor asked about by a user. */
  function Querying(userId: U16): Message {
    Message(VERSION_UNRELIABLE, false, FloorQuery, 1, 1, userId, [Id(FloorId, 1)])
  }

  lemma QueryingIsAccepted(s: Server, userId: U16)
    requires LikeOrigin(s) && userId in s.users
    ensures Refused(s, Querying(userId)).None? && NamesSome(Querying(userId))
  {
    var m := Querying(userId);
    assert m.attributes[0] == Id(FloorId, 1);
    assert m.attributes[1..] == [];
    assert IdsOf(m.attributes, FloorId) == [1] && IdsOf(m.attributes, BeneficiaryId) == [];
    assert Names(m, 1);
  }

  lemma QueryIsHandled(s: Server, userId: U16)
    requires Inv(s) && Refused(s, Querying(userId)).None?
    ensures !Stuck(s, Deliver(Querying(userId)))
    ensures Apply(s, Deliver(Querying(userId))).0.requests == s.requests
  {
    hide Inv, Refused, FloorMessage, IdsOf;
    InvCounters(s);
  }

  /** Whoever is subscribed is among those told of a grant, and told exactly what is granted then. */
  lemma SubscriberIsAmongThem(s: Server, id: U16, u: U16) returns (k: nat)
    requires Inv(s) && id in s.requests && Subscribed(s, u)
    ensures var ns := Apply(s, Grant(id)).1.notifications;
            && k < |ns| && ns[k].userId == ns[k].message.userId == u
            && ns[k].message.primitive.FloorStatus? && GrantedIn(ns[k].message) == GrantedSet(s) + {id}
  {
    hide Inv, Decide, ReportedStatus, GrantedIn, ReasonIn;
    DecisionDoes(s, id, Granted, None);
    GrantedOne(s, id);
    var (t, ns) := Decide(s, id, Granted, None);
    assert u in FloorServers.Subscribers(t);
    var j :| 0 <= j < |FloorServers.Subscribers(t)| && FloorServers.Subscribers(t)[j] == u;
    assert ns[1..][j] == ns[j + 1];
    k := j + 1;
  }

  /** A user joins, asks for the floor and subscribes to it; granted, they are told that they hold it. */
  lemma SubscriberIsTold() returns (ops: seq<Op>, id: U16, k: nat)
    ensures CanRun(ops) && Subscribed(Reached(ops), 0) && id in Reached(ops).requests
    ensures var ns := Apply(Reached(ops), Grant(id)).1.notifications;
            && k < |ns| && ns[k].userId == 0
            && ns[k].message.primitive.FloorStatus? && GrantedIn(ns[k].message) == {id}
  {
    hide Inv, Apply, CanRun, Reached, Refused, Stuck, GrantedIn, NamesSome, Settles;
    var before := AllAsk(1, 1);
    var a := Reached(before);
    QueryingIsAccepted(a, 0);
    QueryIsHandled(a, 0);
    var op := Deliver(Querying(0));
    ReachOneMore(before, op);
    ops := before + [op];
    QuerySettles(a, 0);
    StepSubscribes(a, op, 0);
    assert |Reached(ops).requests| == 1;
    id :| id in Reached(ops).requests;
    k := SubscriberIsAmongThem(Reached(ops), id, 0);
    assert GrantedSet(Reached(ops)) == {};
  }

  lemma QuerySettles(s: Server, userId: U16)
    requires Refused(s, Querying(userId)).None? && NamesSome(Querying(userId))
    ensures Settles(s, Deliver(Querying(userId)), userId) == Some(true)
  {
    hide Refused, NamesSome;
  }
}
