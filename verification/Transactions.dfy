/**
 The floor server behind one UDP client's transactions: each datagram is sorted by the peer,
 a request is handed to the server and its response sent and kept, and a retransmission is
 answered with the response kept. A transaction is executed at most once exactly when its
 response can be written; which requests those are is stated for every message.
 */
module Transactions {
  import opened Wrappers
  import opened Octets
  import opened Messages
  import opened RoundTrip
  import opened Accessors
  import opened IdAllocation
  import Encodability
  import Utf8
  import opened FloorServers
  import opened ServerAnswers
  import opened Subscribers
  import opened UdpTransport

  datatype System = System(server: Server, peer: Peer)

  /** A datagram reaches the server only as a request, or when its header cannot be read. */
  predicate Executes(sys: System, data: seq<Byte>, now: nat) {
    Sort(sys.peer, data, now).1.Request? || Sort(sys.peer, data, now).1.Unreadable?
  }

  /** One datagram: the system after it, and what is sent back. */
  ghost function OnDatagram(sys: System, data: seq<Byte>, now: nat): (System, Option<seq<Byte>>)
    requires Inv(sys.server) && (Executes(sys, data, now) ==> !SpinsOn(sys.server, data))
  {
    var (peer, sorted) := Sort(sys.peer, data, now);
    match sorted
    case Request =>
      var (server, out) := Handle(sys.server, data);
      if Written(out).Some? then
        (System(server, Cached(peer, TransactionOf(data), Written(out).value, now)), Written(out))
      else (System(server, peer), None)
    case Unreadable =>
      var (server, out) := Handle(sys.server, data);
      (System(server, peer), Written(out))
    case Replay(bytes) => (System(sys.server, peer), Some(bytes))
    case Acked(_) => (System(sys.server, peer), None)
    case Stray => (System(sys.server, peer), None)
  }

  /** The datagram is a request that is executed and answered. */
  ghost predicate Answers(sys: System, data: seq<Byte>, now: nat)
    requires Inv(sys.server) && (Executes(sys, data, now) ==> !SpinsOn(sys.server, data))
  {
    Sort(sys.peer, data, now).1.Request? && OnDatagram(sys, data, now).1.Some?
  }

  /** A request, not a response, in the transaction named. */
  predicate RequestIn(data: seq<Byte>, transactionId: U16) {
    match ParseHeader(data)
    case Ok(h) => !h.responder && h.transactionId == transactionId
    case Err(_) => false
  }

  predicate Holds(p: Peer, r: Response) {
    p.response == Some(r)
  }

  /** A retransmission is replayed exactly within T2 of its answer; later it is a new request. */
  lemma ReplayedExactlyWithin(p: Peer, r: Response, data: seq<Byte>, now: nat)
    requires Holds(p, r) && RequestIn(data, r.transactionId)
    ensures Sort(p, data, now) == (p, if now < r.at + T2 then Replay(r.bytes) else Inbound.Request)
  {
    hide ParseHeader;
  }

  // ---- octets in, octets out ------------------------------------------

  /** A message a client writes is handled as that message. */
  lemma HandledAsWritten(s: Server, m: Message)
    requires Inv(s) && s.nextRequestId != 0 && WellFormed(m) && ToBytes(m).Ok? && !Spins(s, m)
    ensures !SpinsOn(s, ToBytes(m).value) && Handle(s, ToBytes(m).value) == HandleMessage(s, m)
  {
    hide Inv, HandleMessage, Spins, ToBytes, WellFormed, Parse;
    WriteThenRead(m, []);
  }

  /** A datagram is executed and answered exactly when it is a request whose answer's texts leave room. */
  lemma AnswersExactlyWhen(sys: System, data: seq<Byte>, now: nat)
    requires CanRun(sys, Datagram(data, now))
    ensures Answers(sys, data, now) <==> Sort(sys.peer, data, now).1.Request? && AnswerableOctets(sys.server, data)
  {
    hide Inv, Handle, Sort, SpinsOn, AnswerableOctets, Written;
    InvCounters(sys.server);
    if Sort(sys.peer, data, now).1.Request? {
      HandledWritesExactlyWhen(sys.server, data);
    }
  }

  lemma HeaderOfMessage(data: seq<Byte>, m: Message)
    requires Parse(data) == Ok(m)
    ensures ParseHeader(data).Ok?
    ensures ParseHeader(data).value.responder == m.responder && ParseHeader(data).value.transactionId == m.transactionId
  {
    hide ParseAttributes, ParseHeader;
  }

  // ---- what may fall in between ---------------------------------------

  datatype Op =
    | Datagram(data: seq<Byte>, now: nat)
    | Timer(now: nat)
    | Send(message: Message, now: nat)
    | Owner(op: Subscribers.Op)

  ghost predicate CanRun(sys: System, op: Op) {
    && Inv(sys.server)
    && match op
       case Datagram(data, now) => Executes(sys, data, now) ==> !SpinsOn(sys.server, data)
       case Owner(op) => !Stuck(sys.server, op)
       case _ => true
  }

  ghost function Step(sys: System, op: Op): System
    requires CanRun(sys, op)
  {
    match op
    case Datagram(data, now) => OnDatagram(sys, data, now).0
    case Timer(now) => sys.(peer := Tick(sys.peer, now).0)
    case Send(m, now) => sys.(peer := Notified(sys.peer, m, now).0)
    case Owner(op) => sys.(server := Apply(sys.server, op).0)
  }

  /** Nothing newer is answered, and no time passes `limit`. */
  ghost predicate Interlude(sys: System, ops: seq<Op>, limit: nat)
    decreases |ops|
  {
    ops == [] ||
    (&& CanRun(sys, ops[0])
     && (ops[0].Datagram? ==> !Answers(sys, ops[0].data, ops[0].now))
     && (ops[0].Timer? ==> ops[0].now < limit)
     && Interlude(Step(sys, ops[0]), ops[1..], limit))
  }

  ghost function Run(sys: System, ops: seq<Op>, limit: nat): System
    requires Interlude(sys, ops, limit)
    decreases |ops|
  {
    if ops == [] then sys else Run(Step(sys, ops[0]), ops[1..], limit)
  }

  lemma StepKeepsInv(sys: System, op: Op)
    requires CanRun(sys, op)
    ensures Inv(Step(sys, op).server)
  {
    hide Inv, Apply, HandleMessage, Sort, Written, SpinsOn, ToBytes;
    match op
    case Datagram(data, now) =>
      if Executes(sys, data, now) {
        InvCounters(sys.server);
        HandleIsReceive(sys.server, data);
        ApplyKeeps(sys.server, Receive(data));
      }
    case Owner(op) => ApplyKeeps(sys.server, op);
    case _ =>
  }

  lemma HandleIsReceive(s: Server, data: seq<Byte>)
    requires Inv(s) && s.nextRequestId != 0 && !SpinsOn(s, data)
    ensures !Stuck(s, Receive(data)) && Apply(s, Receive(data)) == Handle(s, data)
  {
    hide Inv, Handle, SpinsOn;
  }

  lemma DatagramKeepsResponse(sys: System, data: seq<Byte>, now: nat, r: Response)
    requires CanRun(sys, Datagram(data, now)) && Holds(sys.peer, r) && !Answers(sys, data, now)
    ensures Holds(OnDatagram(sys, data, now).0.peer, r)
  {
    hide Inv, Handle, Written, SpinsOn, ParseHeader;
  }

  lemma TimerKeepsResponse(p: Peer, now: nat, r: Response)
    requires Holds(p, r) && now < r.at + T2
    ensures Holds(Tick(p, now).0, r)
  {
    hide ParseHeader;
  }

  lemma StepKeepsResponse(sys: System, op: Op, limit: nat, r: Response)
    requires CanRun(sys, op) && Holds(sys.peer, r) && limit <= r.at + T2
    requires op.Datagram? ==> !Answers(sys, op.data, op.now)
    requires op.Timer? ==> op.now < limit
    ensures Holds(Step(sys, op).peer, r)
  {
    hide Inv, OnDatagram, Answers, Tick, Apply, ToBytes;
    match op
    case Datagram(data, now) => DatagramKeepsResponse(sys, data, now, r);
    case Timer(now) => TimerKeepsResponse(sys.peer, now, r);
    case _ =>
  }

  lemma {:induction false} InterludeKeepsResponse(sys: System, ops: seq<Op>, limit: nat, r: Response)
    requires Interlude(sys, ops, limit) && Inv(sys.server) && Holds(sys.peer, r) && limit <= r.at + T2
    ensures Holds(Run(sys, ops, limit).peer, r) && Inv(Run(sys, ops, limit).server)
    decreases |ops|
  {
    hide Inv, Step, CanRun, Answers, Holds;
    if ops != [] {
      StepKeepsInv(sys, ops[0]);
      StepKeepsResponse(sys, ops[0], limit, r);
      InterludeKeepsResponse(Step(sys, ops[0]), ops[1..], limit, r);
    }
  }

  /** An answer is kept as it was sent. */
  lemma AnswerIsKept(sys: System, data: seq<Byte>, now: nat)
    requires CanRun(sys, Datagram(data, now)) && Answers(sys, data, now)
    ensures var (after, sent) := OnDatagram(sys, data, now);
            Holds(after.peer, Response(TransactionOf(data), sent.value, now)) && RequestIn(data, TransactionOf(data))
  {
    hide Inv, Handle, Written, SpinsOn, ParseHeader;
  }

  /** No response is kept that the transaction would be answered with. */
  predicate Unkept(p: Peer, transactionId: U16, now: nat) {
    p.response.Some? ==> p.response.value.transactionId != transactionId || Since(now, p.response.value.at) >= T2
  }

  lemma RequestExactlyWhen(p: Peer, data: seq<Byte>, now: nat)
    ensures Sort(p, data, now).1.Request? <==> RequestIn(data, TransactionOf(data)) && Unkept(p, TransactionOf(data), now)
    ensures forall t :: RequestIn(data, t) ==> t == TransactionOf(data)
  {
    hide ParseHeader;
  }

  /** What is not answered leaves the response kept, or lets it be forgotten. */
  lemma NoResponseComes(sys: System, op: Op)
    requires CanRun(sys, op) && (op.Datagram? ==> !Answers(sys, op.data, op.now))
    ensures Step(sys, op).peer.response.Some? ==> Step(sys, op).peer.response == sys.peer.response
  {
    hide Inv, Handle, Written, SpinsOn, ParseHeader, Apply, ToBytes;
  }

  lemma {:induction false} InterludeKeepsNone(sys: System, ops: seq<Op>, limit: nat, transactionId: U16, now: nat)
    requires Interlude(sys, ops, limit) && Unkept(sys.peer, transactionId, now)
    ensures Unkept(Run(sys, ops, limit).peer, transactionId, now)
    decreases |ops|
  {
    hide Inv, Step, CanRun, Answers;
    if ops != [] {
      NoResponseComes(sys, ops[0]);
      InterludeKeepsNone(Step(sys, ops[0]), ops[1..], limit, transactionId, now);
    }
  }

  lemma UnansweredIsUnkept(sys: System, data: seq<Byte>, now: nat)
    requires CanRun(sys, Datagram(data, now)) && Sort(sys.peer, data, now).1.Request? && !Answers(sys, data, now)
    ensures OnDatagram(sys, data, now).0.peer == sys.peer && Unkept(sys.peer, TransactionOf(data), now)
  {
    hide Inv, Handle, Written, SpinsOn, ParseHeader;
    RequestExactlyWhen(sys.peer, data, now);
  }

  /**
   At most once, exactly. A request was executed. Whatever then happens short of T2 and of a newer
   answer (ticks, acknowledgements, notifications, strays, other retransmissions, the owner's
   decisions, other clients' messages), any request datagram in the same transaction gets the
   identical octets and leaves server and peer exactly as they are if the answer could be written,
   and is executed again if it could not.
   */
  lemma RequestsExecuteAtMostOnce(sys: System, data: seq<Byte>, now: nat, ops: seq<Op>, again: seq<Byte>, later: nat)
    requires CanRun(sys, Datagram(data, now)) && Sort(sys.peer, data, now).1.Request?
    requires Interlude(OnDatagram(sys, data, now).0, ops, now + T2)
    requires RequestIn(again, TransactionOf(data)) && later < now + T2
    ensures var (after, sent) := OnDatagram(sys, data, now);
            var before := Run(after, ops, now + T2);
            && (AnswerableOctets(sys.server, data) ==>
                 CanRun(before, Datagram(again, later)) && OnDatagram(before, again, later) == (before, sent))
            && (now <= later ==> (Executes(before, again, later) <==> !AnswerableOctets(sys.server, data)))
  {
    hide Inv, OnDatagram, Interlude, Run, Answers, RequestIn, Sort, SpinsOn, AnswerableOctets, Unkept;
    AnswersExactlyWhen(sys, data, now);
    if Answers(sys, data, now) {
      AnsweredIsReplayed(sys, data, now, ops, again, later);
    } else if now <= later {
      UnansweredIsUnkept(sys, data, now);
      InterludeKeepsNone(OnDatagram(sys, data, now).0, ops, now + T2, TransactionOf(data), now);
      StillUnkept(Run(OnDatagram(sys, data, now).0, ops, now + T2).peer, TransactionOf(data), now, later);
      RequestExactlyWhen(Run(OnDatagram(sys, data, now).0, ops, now + T2).peer, again, later);
    }
  }

  lemma StillUnkept(p: Peer, transactionId: U16, now: nat, later: nat)
    requires Unkept(p, transactionId, now) && now <= later
    ensures Unkept(p, transactionId, later)
  {
  }

  lemma AnsweredIsReplayed(sys: System, data: seq<Byte>, now: nat, ops: seq<Op>, again: seq<Byte>, later: nat)
    requires CanRun(sys, Datagram(data, now)) && Answers(sys, data, now)
    requires Interlude(OnDatagram(sys, data, now).0, ops, now + T2)
    requires RequestIn(again, TransactionOf(data)) && later < now + T2
    ensures var (answered, sent) := OnDatagram(sys, data, now);
            var before := Run(answered, ops, now + T2);
            && CanRun(before, Datagram(again, later))
            && OnDatagram(before, again, later) == (before, sent) && !Executes(before, again, later)
  {
    hide Inv, Handle, Interlude, Run, Answers, Holds, RequestIn, Sort, SpinsOn, Written;
    var (answered, sent) := OnDatagram(sys, data, now);
    SentWhenAnswered(sys, data, now);
    var r := Response(TransactionOf(data), sent.value, now);
    StepKeepsInv(sys, Datagram(data, now));
    AnswerIsKept(sys, data, now);
    InterludeKeepsResponse(answered, ops, now + T2, r);
    ReplayedExactlyWithin(Run(answered, ops, now + T2).peer, r, again, later);
  }

  lemma SentWhenAnswered(sys: System, data: seq<Byte>, now: nat)
    requires CanRun(sys, Datagram(data, now)) && Answers(sys, data, now)
    ensures OnDatagram(sys, data, now).1.Some?
  {
    hide OnDatagram;
  }

  // ---- notifications that are never sent ------------------------------

  /**
   The floor's status reaches a subscriber's peer exactly when every live request's texts, and all of
   them, leave room; otherwise it is neither sent nor queued, and nobody is told.
   */
  lemma FloorStatusIsDroppedExactlyWhen(s: Server, userId: Octets.U16, p: Peer, now: nat, m: Message)
    requires m == FloorNotification(s, userId).message
    ensures Notified(p, m, now) == (p, None) <==> !Encodability.FloorWritable(s)
  {
    hide FloorMessage, ToBytes, Encodability.FloorWritable;
    Encodability.FloorStatusWritesExactlyWhen(s, NextEcho(s, userId), false);
    if ToBytes(m).Ok? {
      assert |p.queue + [ToBytes(m).value]| > |p.queue|;
      assert Notified(p, m, now).0.queue != p.queue || Notified(p, m, now).1.Some?;
    }
  }

  // ---- a request that is executed twice -------------------------------

  /** A text of `n` letters. */
  function Letters(n: nat): (t: Utf8.Text)
    ensures |t| == n
  {
    if n == 0 then [] else [0x61] + Letters(n - 1)
  }

  /** One user, of one server, at a new peer. */
  const ALONE: System := System(AddUser(NewServer(1, 1, Unreliable), 7, None, None), NEW_PEER)

  /** Their request for the floor, with a text of `n` octets. */
  function Asking(n: nat): Message {
    Message(VERSION_UNRELIABLE, false, FloorRequest, 1, 1, 7,
            [Id(FloorId, 1), TextAttr(ParticipantProvidedInfo, Letters(n))])
  }

  lemma AskingIsRead(n: nat) returns (data: seq<Byte>)
    requires n <= 253
    ensures ToBytes(Asking(n)) == Ok(data) && WellFormed(Asking(n)) && Parse(data) == Ok(Asking(n))
  {
    hide ToBytes, Parse, Letters, Utf8.ValidUtf8, PaddedSum, AllFit, AllWellFormed;
    var m := Asking(n);
    var a, b := m.attributes[0], m.attributes[1];
    assert m.attributes == [a] + [b];
    Encodability.PaddedSumOfBoth([a], [b]);
    Encodability.One(a);
    Encodability.One(b);
    WritesExactlyWhen(m);
    Encodability.BothWellFormed([a], [b], MAX_DEPTH);
    Encodability.OneWellFormed(a, MAX_DEPTH);
    Encodability.OneWellFormed(b, MAX_DEPTH);
    WriteThenRead(m, []);
    data := ToBytes(m).value;
  }

  lemma AskingCarries(n: nat)
    ensures IdsOf(Asking(n).attributes, FloorId) == [1] && IdsOf(Asking(n).attributes, BeneficiaryId) == []
    ensures TextIn(Asking(n).attributes, ParticipantProvidedInfo) == Some(Letters(n))
  {
    hide Letters, Utf8.ValidUtf8;
    var s := Asking(n).attributes;
    assert s[1..] == [s[1]] && [s[1]][1..] == [];
    assert IdsOf([s[1]], FloorId) == [] && IdsOf([s[1]], BeneficiaryId) == [];
  }

  lemma AloneStands()
    ensures Inv(ALONE.server) && LikeAlone(ALONE.server) && ALONE.server.requests == map[]
    ensures ALONE.server.nextRequestId == 1 && HasFree(ALONE.server.requests.Keys)
  {
    hide Inv;
    hide HasFree;
    AddUserKeeps(NewServer(1, 1, Unreliable), 7, None, None);
    NoneIsPassedOver(ALONE.server.requests.Keys, 1);
  }

  /** A server as `ALONE` has it, with at most the one request. */
  predicate LikeAlone(s: Server) {
    && s.transport.Unreliable? && s.conferenceId == 1 && s.floorId == 1 && s.users == ALONE.server.users
    && s.requests.Keys <= {1}
  }

  lemma AskingIsChecked(s: Server, n: nat)
    requires LikeAlone(s) && forall id :: id in s.requests ==> s.requests[id].userId == 7
    ensures Refused(s, Asking(n)) == if s.requests == map[] then None else Some(MaximumFloorRequestsReached)
    ensures !Spins(s, Asking(n))
  {
    hide Letters, Utf8.ValidUtf8, IdsOf;
    AskingCarries(n);
    assert 7 in s.users && 2 !in s.requests.Keys;
    if s.requests != map[] {
      assert 1 in s.requests;
    }
  }

  lemma RequestIsHandled(s: Server, m: Message)
    requires s.nextRequestId != 0 && !Spins(s, m) && Refused(s, m).None? && m.primitive.FloorRequest?
    ensures HasFree(s.requests.Keys) && HandleMessage(s, m) == HandleRequest(s, m)
  {
    hide HandleRequest, Refused;
  }

  lemma RefusalIsHandled(s: Server, m: Message)
    requires s.nextRequestId != 0 && !Spins(s, m) && Refused(s, m).Some?
    ensures HandleMessage(s, m) == (s, Refusal(m.AsEcho(), Refused(s, m).value, []))
  {
    hide Refused, Refusal;
  }

  lemma NoNames()
    ensures Encodability.NameRoom(ALONE.server, 7) == 0
  {
  }

  /** The first request of all has the identifier 1, and its text is the one given. */
  lemma FirstRequestIs(n: nat)
    requires !Spins(ALONE.server, Asking(n)) && Refused(ALONE.server, Asking(n)).None?
    ensures var (t, out) := HandleRequest(ALONE.server, Asking(n));
            && LikeAlone(t) && t.requests.Keys == {1} && t.requests[1].userId == 7
            && (n >= 223 ==> Written(out).None?)
  {
    hide Letters, Utf8.ValidUtf8, StatusMessage, ToBytes, PriorityIn, TextIn, Refused, Inv, HasFree, Fresh;
    AloneStands();
    AskingCarries(n);
    RequestIsAnswerable(ALONE.server, Asking(n));
    NoneIsPassedOver(ALONE.server.requests.Keys, 1);
    NoNames();
    if n >= 223 {
      Encodability.RoomHolds(Some(Letters(n)));
    }
  }

  /**
   With a text of 223 octets or more the request is accepted and nothing is sent or kept; sent
   again, it is refused as one request too many, by the request it has itself begun.
   */
  lemma LongInfoIsExecutedTwice(n: nat, now: nat, later: nat)
    returns (data: seq<Byte>, after: System, sent: seq<Byte>)
    requires 223 <= n <= 253 && now <= later < now + T2
    ensures ToBytes(Asking(n)) == Ok(data)
    ensures CanRun(ALONE, Datagram(data, now)) && OnDatagram(ALONE, data, now) == (after, None)
    ensures 1 in after.server.requests && after.server.requests[1].userId == 7
    ensures CanRun(after, Datagram(data, later)) && OnDatagram(after, data, later).0.server == after.server
    ensures OnDatagram(after, data, later).1 == Some(sent)
    ensures ToBytes(ErrorMessage(Asking(n).AsEcho(), MaximumFloorRequestsReached, [])) == Ok(sent)
  {
    hide Inv, ToBytes, Parse, ParseHeader, HandleRequest, HandleMessage, ErrorMessage, Spins, Refused, Handle, WellFormed,
         HasFree, Letters, Utf8.ValidUtf8;
    var m := Asking(n);
    data := AskingIsRead(n);
    AloneStands();
    AskingIsChecked(ALONE.server, n);
    FirstRequestIs(n);
    HandledAsWritten(ALONE.server, m);
    HeaderOfMessage(data, m);
    RequestIsHandled(ALONE.server, m);
    after := System(HandleRequest(ALONE.server, m).0, NEW_PEER);
    StepKeepsInv(ALONE, Datagram(data, now));
    InvCounters(after.server);
    AskingIsChecked(after.server, n);
    HandledAsWritten(after.server, m);
    RefusalIsHandled(after.server, m);
    RefusalWritesExactlyWhen(m.AsEcho(), MaximumFloorRequestsReached, []);
    sent := ToBytes(ErrorMessage(m.AsEcho(), MaximumFloorRequestsReached, [])).value;
  }
}
