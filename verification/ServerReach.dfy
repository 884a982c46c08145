/**
 States that runs of a new server do reach: two holders of the floor, when the owner grants it
 twice; and every identifier live, when 65536 users have joined and all but one have asked.
 */
module ServerReach {
  import opened Wrappers
  import opened Octets
  import opened Messages
  import opened Accessors
  import opened IdAllocation
  import opened FloorServers
  import opened Subscribers
  import opened ServerRuns
  import opened ServerSafety

  const ORIGIN := NewServer(1, 1, Unreliable)

  ghost predicate CanRun(ops: seq<Op>) {
    Proceeds(Beginning(ORIGIN), ops)
  }

  ghost function Reached(ops: seq<Op>): (s: Server)
    requires CanRun(ops)
    ensures Inv(s)
  {
    Run(Beginning(ORIGIN), ops).server
  }

  lemma {:induction false} OneMore(h: History, ops: seq<Op>, op: Op)
    requires Inv(h.server) && Proceeds(h, ops) && !Stuck(Run(h, ops).server, op)
    ensures Proceeds(h, ops + [op]) && Run(h, ops + [op]) == Next(Run(h, ops), op)
    decreases |ops|
  {
    hide Inv, Next, Stuck;
    if ops == [] {
      assert [] + [op] == [op] && [op][1..] == [];
    } else {
      assert (ops + [op])[1..] == ops[1..] + [op];
      OneMore(Next(h, ops[0]), ops[1..], op);
    }
  }

  lemma ReachOneMore(ops: seq<Op>, op: Op)
    requires CanRun(ops) && !Stuck(Reached(ops), op)
    ensures CanRun(ops + [op]) && Reached(ops + [op]) == Apply(Reached(ops), op).0
  {
    hide Inv, Stuck, Apply, Run, Proceeds;
    OneMore(Beginning(ORIGIN), ops, op);
  }

  /** The floor asked for by a user. */
  function Asking(userId: U16): Message {
    Message(VERSION_UNRELIABLE, false, FloorRequest, 1, 1, userId, [Id(FloorId, 1)])
  }

  predicate LikeOrigin(s: Server) {
    s.transport.Unreliable? && s.conferenceId == 1 && s.floorId == 1
  }

  /** The first `n` user ids are registered and nobody has asked. */
  predicate Joined(s: Server, n: nat) {
    LikeOrigin(s) && s.requests == map[] && forall u: U16 :: u < n ==> u in s.users
  }

  lemma {:induction false} AllJoin(n: nat) returns (ops: seq<Op>)
    requires n <= 0x1_0000
    ensures CanRun(ops) && Joined(Reached(ops), n)
  {
    hide Inv;
    if n == 0 {
      ops := [];
    } else {
      ops := AllJoin(n - 1);
      ReachOneMore(ops, Join(n - 1, None, None));
      ops := ops + [Join(n - 1, None, None)];
    }
  }

  /** Of the first `n` users the first `k` have asked, and nobody else. */
  predicate Asked(s: Server, n: nat, k: nat) {
    && LikeOrigin(s) && |s.requests| == k
    && (forall u: U16 :: u < n ==> u in s.users)
    && (forall id :: id in s.requests ==> s.requests[id].userId < k && s.requests[id].status.Pending?)
  }

  lemma NextIsAccepted(s: Server, n: nat, k: nat)
    requires k < n <= 0x1_0000 && Asked(s, n, k)
    ensures Refused(s, Asking(k)).None?
  {
    var m := Asking(k);
    assert m.attributes[1..] == [];
    assert IdsOf(m.attributes, FloorId) == [1] && IdsOf(m.attributes, BeneficiaryId) == [];
  }

  lemma NextAsks(s: Server, n: nat, k: nat)
    requires Inv(s) && k < n <= 0x1_0000 && k < CYCLE && Asked(s, n, k)
    ensures !Stuck(s, Deliver(Asking(k))) && Asked(Apply(s, Deliver(Asking(k))).0, n, k + 1)
  {
    hide Inv, Refused, StatusMessage, PriorityIn, TextIn;
    NextIsAccepted(s, n, k);
    InvCounters(s);
    SpinsExactlyWhen(s, Asking(k));
    var t := HandleRequest(s, Asking(k)).0;
    var id := Fresh(s.requests.Keys, s.nextRequestId);
    assert t.requests.Keys == s.requests.Keys + {id};
    assert |t.requests.Keys| == k + 1;
  }

  lemma {:induction false} AllAsk(n: nat, k: nat) returns (ops: seq<Op>)
    requires k <= n <= 0x1_0000 && k <= CYCLE
    ensures CanRun(ops) && Asked(Reached(ops), n, k)
  {
    hide Inv, Apply, Stuck;
    if k == 0 {
      ops := AllJoin(n);
    } else {
      ops := AllAsk(n, k - 1);
      NextAsks(Reached(ops), n, k - 1);
      ReachOneMore(ops, Deliver(Asking(k - 1)));
      ops := ops + [Deliver(Asking(k - 1))];
    }
  }

  /**
   With every user id registered a run reaches a state in which an acceptable request is never
   answered: 65535 identifiers are live, and the search for another meets them over and over.
   */
  lemma SearchCanBeEndless() returns (ops: seq<Op>, s: Server)
    ensures CanRun(ops) && s == Reached(ops) && |s.requests| == CYCLE
    ensures Refused(s, Asking(0xFFFF)).None? && Stuck(s, Deliver(Asking(0xFFFF)))
    ensures forall k: nat :: Advance(s.nextRequestId, k) in s.requests.Keys
  {
    hide Inv, Refused, Asked, CanRun;
    ops := AllAsk(0x1_0000, CYCLE);
    s := Reached(ops);
    NextIsAccepted(s, 0x1_0000, CYCLE);
    AskedCount(s, 0x1_0000, CYCLE);
    SpinsExactlyWhen(s, Asking(0xFFFF));
  }

  lemma AskedCount(s: Server, n: nat, k: nat)
    requires Asked(s, n, k)
    ensures |s.requests| == k
  {
  }

  lemma GrantedOne(s: Server, id: U16)
    requires Inv(s) && id in s.requests
    ensures var t := Apply(s, Grant(id)).0;
            t.requests.Keys == s.requests.Keys && GrantedSet(t) == GrantedSet(s) + {id}
  {
    hide Inv, Decide;
    DecideKeeps(s, id, Granted, None);
  }

  /** Two users ask and the owner grants both: the floor has two holders. */
  lemma TwoCanHold() returns (before: seq<Op>, a: U16, b: U16)
    ensures CanRun(before) && CanRun(before + [Grant(a), Grant(b)]) && a != b
    ensures GrantedSet(Reached(before)) == {}
    ensures GrantedSet(Reached(before + [Grant(a), Grant(b)])) == {a, b}
    ensures !OneHolder(Reached(before + [Grant(a), Grant(b)]))
  {
    hide Inv, CanRun, Reached, Apply;
    before := AllAsk(2, 2);
    var s := Reached(before);
    NobodyHolds(s);
    a, b := TwoLive(s.requests.Keys);
    ReachOneMore(before, Grant(a));
    GrantedOne(s, a);
    ReachOneMore(before + [Grant(a)], Grant(b));
    GrantedOne(Reached(before + [Grant(a)]), b);
    assert before + [Grant(a)] + [Grant(b)] == before + [Grant(a), Grant(b)];
  }

  lemma NobodyHolds(s: Server)
    requires Asked(s, 2, 2)
    ensures GrantedSet(s) == {} && |s.requests.Keys| == 2
  {
  }

  lemma TwoLive(live: set<U16>) returns (a: U16, b: U16)
    requires |live| == 2
    ensures a in live && b in live && a != b
  {
    a :| a in live;
    assert live == live - {a} + {a};
    b :| b in live - {a};
  }
}
