/**
 What holds of the floor server in every run: its searches for a request id end, its
 transaction ids do not repeat within a cycle, replies stay in the sender's transaction, and
 an owner who grants only a free floor never has two holders.
 */
module ServerSafety {
  import opened Wrappers
  import opened Octets
  import opened Messages
  import opened Accessors
  import opened OrderedKeys
  import opened IdAllocation
  import opened FloorServers
  import opened Subscribers
  import opened ServerRuns

  // ---- request ids ----------------------------------------------------

  /** One request each: there are no more requests than users who have one. */
  lemma {:induction false} OwnersCount(requests: map<U16, Request>, owners: set<U16>)
    requires forall id :: id in requests ==> requests[id].userId in owners
    requires forall a, b :: a in requests && b in requests && requests[a].userId == requests[b].userId ==> a == b
    ensures |requests| <= |owners|
    decreases |requests|
  {
    if requests != map[] {
      var id :| id in requests;
      var fewer, others := requests - {id}, owners - {requests[id].userId};
      assert requests.Keys == fewer.Keys + {id};
      assert owners == others + {requests[id].userId};
      OwnersCount(fewer, others);
    }
  }

  /**
   The search for an id meets only live ones for ever, and an acceptable request is never answered,
   exactly when all 65535 ids are live.
   */
  lemma SpinsExactlyWhen(s: Server, m: Message)
    requires Inv(s) && Refused(s, m).None? && m.primitive.FloorRequest?
    ensures Spins(s, m) <==> |s.requests| == CYCLE
    ensures Spins(s, m) <==> forall k: nat :: Advance(s.nextRequestId, k) in s.requests.Keys
  {
    hide Refused, RequestOk;
    LiveIdsCount(s);
    FreeExactlyWhen(s.requests.Keys);
    EndlessExactlyWhen(s.requests.Keys, s.nextRequestId);
  }

  lemma LiveIdsCount(s: Server)
    requires Inv(s)
    ensures 0 !in s.requests && |s.requests| <= CYCLE
  {
    assert forall id :: id in s.requests ==> RequestOk(s, id);
    var all := CountUpTo(CYCLE);
    assert s.requests.Keys <= all;
    SubsetCounts(s.requests.Keys, all);
  }

  /**
   Termination: while one of the 65536 user ids is unregistered, no message makes the
   search for a request id go on for ever, by counting one request per user.
   */
  lemma NeverSpins(s: Server, m: Message)
    requires Inv(s) && |s.users| < 0x1_0000
    ensures !Spins(s, m)
  {
    hide IdsOf;
    if Spins(s, m) {
      LiveIdsCount(s);
      FreeExactlyWhen(s.requests.Keys);
      assert forall id :: id in s.requests ==> RequestOk(s, id);
      var others := s.users.Keys - {m.userId};
      assert s.users.Keys == others + {m.userId};
      OwnersCount(s.requests, others);
      assert false;
    }
  }

  /** Every user registered along a run, all but one id at most: the run proceeds to its end. */
  ghost predicate RoomFor(h: History, ops: seq<Op>)
    requires Inv(h.server)
    decreases |ops|
  {
    |h.server.users| < 0x1_0000
    && (ops == [] || (!Stuck(h.server, ops[0]) ==> RoomFor(Next(h, ops[0]), ops[1..])))
  }

  lemma {:induction false} RunsProceed(h: History, ops: seq<Op>)
    requires Inv(h.server) && RoomFor(h, ops)
    ensures Proceeds(h, ops)
    decreases |ops|
  {
    hide Inv, Next, Spins, SpinsOn;
    if ops != [] {
      NeverStuck(h.server, ops[0]);
      RunsProceed(Next(h, ops[0]), ops[1..]);
    }
  }

  lemma NeverStuck(s: Server, op: Op)
    requires Inv(s) && |s.users| < 0x1_0000
    ensures !Stuck(s, op)
  {
    hide Inv, Spins;
    match op
    case Receive(data) => if Parse(data).Ok? { NeverSpins(s, Parse(data).value); }
    case Deliver(m) => NeverSpins(s, m);
    case _ =>
  }

  // ---- transaction ids ------------------------------------------------

  /** The notifications of an operation take the next transaction ids, one each, in order. */
  ghost predicate Consecutive(s: Server, t: Server, ns: seq<Notification>) {
    && s.nextTransactionId != 0 && t.nextTransactionId != 0 && t.transport == s.transport
    && (forall k :: 0 <= k < |ns| ==> ns[k].message.transactionId == TransactionAt(s, k))
    && (forall k: nat :: TransactionAt(t, k) == TransactionAt(s, |ns| + k))
  }

  lemma BroadcastIsConsecutive(s: Server, ids: seq<U16>)
    requires Inv(s)
    ensures Consecutive(s, Broadcast(s, ids).0, Broadcast(s, ids).1)
  {
    hide Inv, RequestInfos, Broadcast, TransactionAt;
    InvCounters(s);
    BroadcastIs(s, ids);
  }

  lemma DecideIsConsecutive(s: Server, id: U16, status: Status, info: Option<Utf8.Text>)
    requires Inv(s) && (status.Granted? || status.IsTerminal())
    ensures Consecutive(s, Decide(s, id, status, info).0, Decide(s, id, status, info).1)
  {
    hide Inv, Broadcast, RequestInfo, TransactionAt, Spent;
    InvCounters(s);
    if id in s.requests {
      var t := Decided(s, id, status);
      DecidedKeeps(s, id, status);
      SpentAdvances(t);
      var rest := Broadcast(Spent(t), FloorServers.Subscribers(t));
      BroadcastIsConsecutive(Spent(t), FloorServers.Subscribers(t));
      SameCounter(s, t);
      EchoFirst(t, s.requests[id].userId);
      var ns := Decide(s, id, status, info).1;
      forall k | 0 <= k < |ns| ensures ns[k].message.transactionId == TransactionAt(s, k) {
        if k > 0 {
          assert ns[k] == rest.1[k - 1];
          assert TransactionAt(Spent(t), k - 1) == TransactionAt(t, 1 + (k - 1));
        }
      }
      forall k: nat ensures TransactionAt(rest.0, k) == TransactionAt(s, |ns| + k) {
        assert TransactionAt(rest.0, k) == TransactionAt(Spent(t), |rest.1| + k);
        assert TransactionAt(Spent(t), |rest.1| + k) == TransactionAt(t, 1 + (|rest.1| + k));
      }
    } else {
      NoNotifications(s);
    }
  }

  lemma SameCounter(s: Server, t: Server)
    requires s.nextTransactionId == t.nextTransactionId != 0 && s.transport == t.transport
    ensures forall k: nat :: TransactionAt(t, k) == TransactionAt(s, k)
  {
  }

  lemma NoNotifications(s: Server)
    requires s.nextTransactionId != 0
    ensures Consecutive(s, s, [])
  {
  }

  lemma QuietIsConsecutive(s: Server, t: Server)
    requires s.nextTransactionId == t.nextTransactionId != 0 && s.transport == t.transport
    ensures Consecutive(s, t, [])
  {
  }

  lemma ConsecutiveFrom(s: Server, u: Server, t: Server, ns: seq<Notification>)
    requires s.nextTransactionId == u.nextTransactionId != 0 && s.transport == u.transport && Consecutive(u, t, ns)
    ensures Consecutive(s, t, ns)
  {
    hide TransactionAt;
    SameCounter(s, u);
  }

  lemma LeaveIsConsecutive(s: Server, userId: U16)
    requires Inv(s)
    ensures Consecutive(s, RemoveUser(s, userId).0, RemoveUser(s, userId).1)
  {
    hide Inv, Broadcast, LastGranted, Consecutive;
    InvCounters(s);
    var u := Without(s, userId);
    WithoutKeeps(s, userId);
    if RemoveUser(s, userId).2.Some? {
      BroadcastIsConsecutive(u, FloorServers.Subscribers(u));
      ConsecutiveFrom(s, u, RemoveUser(s, userId).0, RemoveUser(s, userId).1);
    } else {
      QuietIsConsecutive(s, u);
    }
  }

  lemma MessageIsConsecutive(s: Server, m: Message)
    requires Inv(s) && !Spins(s, m) && s.nextRequestId != 0
    ensures Consecutive(s, HandleMessage(s, m).0, HandleMessage(s, m).1.notifications)
  {
    hide Inv, Broadcast, RemoveUser, IdsOf, StatusMessage, FloorMessage, UserMessage, HelloMessage, RequestOk,
         Consecutive, FloorServers.Subscribers;
    InvCounters(s);
    if m.primitive.Goodbye? && Refused(s, m).None? {
      LeaveIsConsecutive(s, m.userId);
    } else if m.primitive.FloorRelease? && Refused(s, m).None? {
      var id := FirstIdOf(m, FloorRequestId).value;
      var u := s.(requests := s.requests - {id});
      RemovedKeeps(s, id);
      BroadcastIsConsecutive(u, FloorServers.Subscribers(u));
      var (t, out) := HandleMessage(s, m);
      if s.requests[id].status.Granted? {
        ConsecutiveFrom(s, u, t, out.notifications);
      } else {
        QuietIsConsecutive(s, t);
      }
    } else {
      QuietIsConsecutive(s, HandleMessage(s, m).0);
    }
  }

  lemma ApplyIsConsecutive(s: Server, op: Op)
    requires Inv(s) && !Stuck(s, op)
    ensures Consecutive(s, Apply(s, op).0, Apply(s, op).1.notifications)
  {
    hide Inv, HandleMessage, RemoveUser, Decide, Consecutive;
    InvCounters(s);
    match op
    case Receive(data) =>
      if Parse(data).Ok? {
        MessageIsConsecutive(s, Parse(data).value);
      } else {
        NoNotifications(s);
      }
    case Deliver(m) => MessageIsConsecutive(s, m);
    case Join(userId, displayName, uri) => QuietIsConsecutive(s, Apply(s, op).0);
    case Leave(userId) => LeaveIsConsecutive(s, userId);
    case Grant(id) => DecideIsConsecutive(s, id, Granted, None);
    case Deny(id, info) => DecideIsConsecutive(s, id, Denied, info);
    case Revoke(id, info) => DecideIsConsecutive(s, id, Revoked, info);
  }

  /** The ids used so far are the first of the server's cycle, and the next ones come after them. */
  ghost predicate Counted(origin: Server, h: History)
    requires origin.nextTransactionId != 0
  {
    && h.server.nextTransactionId != 0 && h.server.transport == origin.transport
    && (forall k :: 0 <= k < |h.used| ==> h.used[k] == TransactionAt(origin, k))
    && (forall k: nat :: TransactionAt(h.server, k) == TransactionAt(origin, |h.used| + k))
  }

  lemma CountOn(origin: Server, h: History, op: Op)
    requires Inv(h.server) && !Stuck(h.server, op) && origin.nextTransactionId != 0 && Counted(origin, h)
    ensures Counted(origin, Next(h, op))
  {
    hide Inv, Apply, TransactionAt, EndedBy, Begun, SeeHandled, Stuck;
    ApplyIsConsecutive(h.server, op);
    var n := |Apply(h.server, op).1.notifications|;
    forall k: nat ensures TransactionAt(Next(h, op).server, k) == TransactionAt(origin, |h.used| + n + k) {
      assert TransactionAt(h.server, n + k) == TransactionAt(origin, |h.used| + (n + k));
    }
  }

  lemma {:induction false} RunCounts(origin: Server, h: History, ops: seq<Op>)
    requires Inv(h.server) && Proceeds(h, ops) && origin.nextTransactionId != 0 && Counted(origin, h)
    ensures Counted(origin, Run(h, ops))
    decreases |ops|
  {
    hide Inv, Next, Counted, Stuck;
    if ops != [] {
      CountOn(origin, h, ops[0]);
      RunCounts(origin, Next(h, ops[0]), ops[1..]);
    }
  }

  /**
   Transaction ids over every run, across every batch and subscriber: over UDP they are never
   zero and no 65535 consecutive ones repeat; over TCP every one is zero.
   */
  lemma TransactionIdsDoNotRepeat(conferenceId: U32, floorId: U16, transport: Transport, ops: seq<Op>, j: nat, k: nat)
    requires Proceeds(Beginning(NewServer(conferenceId, floorId, transport)), ops)
    requires j < k < |Run(Beginning(NewServer(conferenceId, floorId, transport)), ops).used|
    ensures var used := Run(Beginning(NewServer(conferenceId, floorId, transport)), ops).used;
            && (transport.Reliable? ==> used[j] == 0)
            && (transport.Unreliable? ==> used[j] != 0 && used[j] == j % CYCLE + 1)
            && (transport.Unreliable? && k - j < CYCLE ==> used[j] != used[k])
  {
    hide Run, Proceeds, Inv;
    var origin := NewServer(conferenceId, floorId, transport);
    RunCounts(origin, Beginning(origin), ops);
    if k - j < CYCLE {
      CycleIsExact(1, j, k);
    }
  }

  // ---- replies --------------------------------------------------------

  /** A reply stays in the sender's transaction; R marks responses over UDP, but never a FloorRequestStatus. */
  lemma RepliesEcho(s: Server, m: Message)
    requires Inv(s) && !Spins(s, m) && s.nextRequestId != 0
    ensures var reply := HandleMessage(s, m).1.reply;
            reply.Some? ==>
              && reply.value.AsEcho() == m.AsEcho()
              && reply.value.responder == (m.version == VERSION_UNRELIABLE && !reply.value.primitive.FloorRequestStatus?)
  {
    hide Inv, Broadcast, RemoveUser, IdsOf, RequestInfo, RequestInfos, BeneficiaryInfo, Refused, RequestOk;
  }

  // ---- the holder -----------------------------------------------------

  predicate OneHolder(s: Server) {
    forall a, b :: a in GrantedSet(s) && b in GrantedSet(s) ==> a == b
  }

  /** The search stops at the first granted request, or past the last when there is none. */
  lemma {:induction false} FirstGrantedAt(s: Server, ids: seq<U16>) returns (i: nat)
    requires forall k :: 0 <= k < |ids| ==> ids[k] in s.requests
    ensures i <= |ids| && forall j :: 0 <= j < i ==> !s.requests[ids[j]].status.Granted?
    ensures i < |ids| ==> s.requests[ids[i]].status.Granted?
    ensures FirstGranted(s, ids) ==
            if i < |ids| then Some((s.requests[ids[i]].userId, s.requests[ids[i]].id)) else None
    decreases |ids|
  {
    if ids == [] || s.requests[ids[0]].status.Granted? {
      i := 0;
    } else {
      var rest := FirstGrantedAt(s, ids[1..]);
      i := rest + 1;
      assert forall j :: 1 <= j < |ids| ==> ids[j] == ids[1..][j - 1];
    }
  }

  /** The holder is the granted request with the least id; there is none exactly when none is granted. */
  lemma HolderIs(s: Server)
    requires Inv(s)
    ensures Holder(s).None? <==> GrantedSet(s) == {}
    ensures Holder(s).Some? ==>
              var (user, id) := Holder(s).value;
              && id in GrantedSet(s) && s.requests[id].userId == user
              && forall other :: other in GrantedSet(s) ==> id <= other
  {
    hide Inv, FirstGranted, Ascending;
    var ids := Ascending(s.requests.Keys);
    var i := FirstGrantedAt(s, ids);
    forall other | other in GrantedSet(s) ensures i < |ids| && ids[i] <= other {
      assert other in ids;
      var j :| 0 <= j < |ids| && ids[j] == other;
    }
    if i < |ids| {
      KeyedById(s, ids[i]);
      assert ids[i] in GrantedSet(s);
    }
  }

  /** Granting leaves one holder exactly when no other request is granted; the server does not check. */
  lemma GrantKeepsOneHolderExactlyWhen(s: Server, id: U16)
    requires Inv(s) && OneHolder(s)
    ensures OneHolder(Decide(s, id, Granted, None).0) <==> id !in s.requests || GrantedSet(s) <= {id}
  {
    hide Inv, Broadcast, StatusMessage;
    DecideKeeps(s, id, Granted, None);
    if id in s.requests {
      GrantedAfter(s, id, Decide(s, id, Granted, None).0);
    }
  }

  lemma GrantedAfter(s: Server, id: U16, t: Server)
    requires id in s.requests && SameFloor(Decided(s, id, Granted), t)
    ensures GrantedSet(t) == GrantedSet(s) + {id}
  {
  }

  /** An owner's discipline: a grant is made only while nobody holds the floor. */
  predicate Disciplined(s: Server, op: Op) {
    op.Grant? ==> Holder(s).None?
  }

  lemma GrantsOnlyShrink(s: Server, op: Op)
    requires Inv(s) && !Stuck(s, op) && !op.Grant?
    ensures GrantedSet(Apply(s, op).0) <= GrantedSet(s)
  {
    hide Inv, HandleMessage, Broadcast, StatusMessage, LastGranted;
    InvCounters(s);
    match op
    case Receive(data) => if Parse(data).Ok? { MessageOnlyReleases(s, Parse(data).value); }
    case Deliver(m) => MessageOnlyReleases(s, m);
    case Join(userId, displayName, uri) =>
    case Leave(userId) => RemoveUserKeeps(s, userId);
    case Deny(id, info) => DecideKeeps(s, id, Denied, info);
    case Revoke(id, info) => DecideKeeps(s, id, Revoked, info);
  }

  lemma MessageOnlyReleases(s: Server, m: Message)
    requires Inv(s) && !Spins(s, m) && s.nextRequestId != 0
    ensures GrantedSet(HandleMessage(s, m).0) <= GrantedSet(s)
  {
    hide Inv, Broadcast, RemoveUser, IdsOf, StatusMessage, FloorMessage, UserMessage, HelloMessage, RequestOk,
         FloorServers.Subscribers;
    if m.primitive.Goodbye? {
      RemoveUserKeeps(s, m.userId);
    } else if m.primitive.FloorRelease? && Refused(s, m).None? {
      ReleaseKeeps(s, m, FirstIdOf(m, FloorRequestId).value);
    }
  }

  lemma DisciplineKeepsOneHolder(s: Server, op: Op)
    requires Inv(s) && !Stuck(s, op) && OneHolder(s) && Disciplined(s, op)
    ensures OneHolder(Apply(s, op).0)
  {
    hide Inv, HandleMessage, RemoveUser, Decide, Holder;
    if op.Grant? {
      HolderIs(s);
      GrantKeepsOneHolderExactlyWhen(s, op.requestId);
    } else {
      GrantsOnlyShrink(s, op);
    }
  }

  ghost predicate DisciplinedRun(h: History, ops: seq<Op>)
    requires Inv(h.server) && Proceeds(h, ops)
    decreases |ops|
  {
    ops == [] || (Disciplined(h.server, ops[0]) && DisciplinedRun(Next(h, ops[0]), ops[1..]))
  }

  lemma {:induction false} RunKeepsOneHolder(h: History, ops: seq<Op>)
    requires Inv(h.server) && Proceeds(h, ops) && DisciplinedRun(h, ops) && OneHolder(h.server)
    ensures OneHolder(Run(h, ops).server)
    decreases |ops|
  {
    hide Inv, Stuck, OneHolder, Disciplined, Apply, EndedBy, Begun, SeeHandled;
    if ops != [] {
      DisciplineKeepsOneHolder(h.server, ops[0]);
      RunKeepsOneHolder(Next(h, ops[0]), ops[1..]);
    }
  }

  /**
   Exclusivity over every run in which the owner grants only a free floor: at most one request
   is granted, `Holder` names exactly it, and a departure reports it exactly when its user leaves.
   */
  lemma TheFloorHasOneHolder(conferenceId: U32, floorId: U16, transport: Transport, ops: seq<Op>, userId: U16)
    requires Proceeds(Beginning(NewServer(conferenceId, floorId, transport)), ops)
    requires DisciplinedRun(Beginning(NewServer(conferenceId, floorId, transport)), ops)
    ensures var s := Run(Beginning(NewServer(conferenceId, floorId, transport)), ops).server;
            && (Holder(s).None? ==> GrantedSet(s) == {})
            && (Holder(s).Some? ==> GrantedSet(s) == {Holder(s).value.1})
            && RemoveUser(s, userId).2 ==
               (if Holder(s).Some? && Holder(s).value.0 == userId then Some(Holder(s).value.1) else None)
  {
    hide Run, Proceeds, DisciplinedRun, Inv, Holder, RemoveUser;
    var s := Run(Beginning(NewServer(conferenceId, floorId, transport)), ops).server;
    RunKeepsOneHolder(Beginning(NewServer(conferenceId, floorId, transport)), ops);
    HolderIs(s);
    DepartureReports(s, userId);
  }
}
