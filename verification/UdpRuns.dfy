/**
 Whole runs of one UDP peer, watched from outside: every message accepted is numbered,
 and every message sent is a flight with the times of its transmissions and how it ended.
 What is proved of the watch is what an owner can rely on: bounded retransmission, no
 message lost or doubled, and the exact condition for first-in first-out.
 */
module UdpRuns {
  import opened Wrappers
  import opened Octets
  import opened Messages
  import opened RoundTrip
  import opened UdpTransport

  datatype Op =
    | Receive(data: seq<Byte>, now: nat)
    | Cache(transactionId: U16, bytes: seq<Byte>, now: nat)
    | Notify(message: Message, now: nat)
    | OnTick(now: nat)

  datatype Fate = InFlight | Done | Abandoned(at: nat) | Dropped

  /** A message that has left the queue: the timer it started with, and when it was transmitted. */
  datatype Flight = Flight(id: nat, t1: nat, sentAt: seq<nat>, fate: Fate)

  /** A peer and its history; `accepted` holds the messages taken, in order, numbered by position. */
  datatype World = World(peer: Peer, accepted: seq<Message>, waiting: seq<nat>, log: seq<Flight>)

  const NEW_WORLD := World(NEW_PEER, [], [], [])

  // ---- the watch ------------------------------------------------------

  function Last(w: World): Flight
    requires w.log != []
  {
    w.log[|w.log| - 1]
  }

  function WithLast(w: World, f: Flight): seq<Flight>
    requires w.log != []
  {
    w.log[|w.log| - 1 := f]
  }

  function DroppedFlights(ids: seq<nat>): (d: seq<Flight>)
    ensures |d| == |ids| && forall i :: 0 <= i < |ids| ==> d[i] == Flight(ids[i], 0, [], Dropped)
  {
    seq(|ids|, i requires 0 <= i < |ids| => Flight(ids[i], 0, [], Dropped))
  }

  function WatchNotify(w: World, m: Message, now: nat): World {
    var (peer, sent) := Notified(w.peer, m, now);
    if ToBytes(m).Err? then w.(peer := peer)
    else
      var id := |w.accepted|;
      var accepted := w.accepted + [m];
      if sent.Some? then World(peer, accepted, w.waiting, w.log + [Flight(id, w.peer.t1, [now], InFlight)])
      else World(peer, accepted, w.waiting + [id], w.log)
  }

  function WatchReceive(w: World, data: seq<Byte>, now: nat): World {
    var (peer, r) := Sort(w.peer, data, now);
    if r.Acked? && w.log != [] then w.(peer := peer, log := WithLast(w, Last(w).(fate := Done)))
    else w.(peer := peer)
  }

  /** A datagram on a tick is a retransmission when the peer was busy, and the next message otherwise. */
  function WatchTick(w: World, now: nat): World {
    var (peer, tick) := Tick(w.peer, now);
    if tick.broken && w.log != [] then
      World(peer, w.accepted, [], WithLast(w, Last(w).(fate := Abandoned(now))) + DroppedFlights(w.waiting))
    else if tick.send != [] && w.peer.outstanding.Some? && w.log != [] then
      w.(peer := peer, log := WithLast(w, Last(w).(sentAt := Last(w).sentAt + [now])))
    else if tick.send != [] && w.waiting != [] then
      World(peer, w.accepted, w.waiting[1..], w.log + [Flight(w.waiting[0], w.peer.t1, [now], InFlight)])
    else w.(peer := peer)
  }

  function Step(w: World, op: Op): World {
    match op
    case Receive(data, now) => WatchReceive(w, data, now)
    case Cache(transactionId, bytes, now) => w.(peer := Cached(w.peer, transactionId, bytes, now))
    case Notify(m, now) => WatchNotify(w, m, now)
    case OnTick(now) => WatchTick(w, now)
  }

  function Run(w: World, ops: seq<Op>): World
    decreases |ops|
  {
    if ops == [] then w else Run(Step(w, ops[0]), ops[1..])
  }

  // ---- the invariant --------------------------------------------------

  function Pow2(n: nat): nat {
    if n == 0 then 1 else 2 * Pow2(n - 1)
  }

  /** Each transmission waits out the timer before it: t1, then twice that, and so on. */
  predicate Spaced(sentAt: seq<nat>, t1: nat) {
    forall i :: 0 <= i < |sentAt| - 1 ==> sentAt[i + 1] >= sentAt[i] + t1 * Pow2(i)
  }

  predicate FlightOk(f: Flight) {
    if f.fate.Dropped? then f.sentAt == []
    else
      && 1 <= |f.sentAt| <= 1 + MAX_RETRANSMITS && f.t1 >= T1 && Spaced(f.sentAt, f.t1)
      && (f.fate.Abandoned? ==> |f.sentAt| == 1 + MAX_RETRANSMITS && f.fate.at >= f.sentAt[0] + 15 * f.t1)
  }

  /** What is outstanding is the last flight, and its timer stands where the flight says. */
  predicate FlightMatches(w: World, o: Outstanding, f: Flight) {
    && f.id < |w.accepted| && f.sentAt != [] && ToBytes(w.accepted[f.id]) == Ok(o.bytes)
    && o.transactionId == w.accepted[f.id].transactionId
    && f.t1 == w.peer.t1 && |f.sentAt| == 1 + o.retransmits && o.sentAt == f.sentAt[0]
    && o.interval == f.t1 * Pow2(o.retransmits) && o.due == f.sentAt[o.retransmits] + o.interval
  }

  predicate QueueMatches(w: World) {
    && |w.waiting| == |w.peer.queue|
    && forall i :: 0 <= i < |w.waiting| ==>
         w.waiting[i] < |w.accepted| && ToBytes(w.accepted[w.waiting[i]]) == Ok(w.peer.queue[i])
  }

  predicate InFlightMatches(w: World) {
    && (forall i :: 0 <= i < |w.log| - 1 ==> !w.log[i].fate.InFlight?)
    && (w.peer.outstanding.Some? <==> w.log != [] && Last(w).fate.InFlight?)
    && (w.peer.outstanding.Some? ==> FlightMatches(w, w.peer.outstanding.value, Last(w)))
  }

  function Ids(log: seq<Flight>): (ids: seq<nat>)
    ensures |ids| == |log| && forall i :: 0 <= i < |log| ==> ids[i] == log[i].id
  {
    seq(|log|, i requires 0 <= i < |log| => log[i].id)
  }

  function UpTo(n: nat): (ids: seq<nat>)
    ensures |ids| == n && forall i :: 0 <= i < n ==> ids[i] == i
  {
    seq(n, i requires 0 <= i < n => i)
  }

  /** The messages that have left and then those that wait. */
  function Order(w: World): seq<nat> {
    Ids(w.log) + w.waiting
  }

  /** Every accepted message is exactly one of: in a flight, dropped, or waiting. */
  predicate Conserved(w: World) {
    multiset(Order(w)) == multiset(UpTo(|w.accepted|))
  }

  predicate Inv(w: World) {
    && w.peer.t1 >= T1 && QueueMatches(w) && InFlightMatches(w)
    && (forall i :: 0 <= i < |w.log| ==> FlightOk(w.log[i]))
  }

  // ---- every step keeps the invariant ---------------------------------

  lemma NotifyKeeps(w: World, m: Message, now: nat)
    requires Inv(w)
    ensures Inv(WatchNotify(w, m, now))
  {
    hide ToBytes;
    var v := WatchNotify(w, m, now);
    if ToBytes(m).Ok? {
      assert forall i :: 0 <= i < |w.accepted| ==> v.accepted[i] == w.accepted[i];
    }
  }

  lemma ReceiveKeeps(w: World, data: seq<Byte>, now: nat)
    requires Inv(w)
    ensures Inv(WatchReceive(w, data, now))
  {
    hide ToBytes, ParseHeader, Spaced;
  }

  lemma SpacedOn(sentAt: seq<nat>, t1: nat, now: nat)
    requires sentAt != [] && Spaced(sentAt, t1)
    requires now >= sentAt[|sentAt| - 1] + t1 * Pow2(|sentAt| - 1)
    ensures Spaced(sentAt + [now], t1)
  {
  }

  /** Four transmissions and the last wait come to fifteen times the first timer. */
  lemma FifteenTimes(sentAt: seq<nat>, t1: nat, now: nat)
    requires |sentAt| == 4 && Spaced(sentAt, t1) && now >= sentAt[3] + t1 * Pow2(3)
    ensures now >= sentAt[0] + 15 * t1
  {
    assert Pow2(0) == 1 && Pow2(1) == 2 && Pow2(2) == 4 && Pow2(3) == 8;
    assert sentAt[1] >= sentAt[0] + t1 * Pow2(0);
    assert sentAt[2] >= sentAt[1] + t1 * Pow2(1);
    assert sentAt[3] >= sentAt[2] + t1 * Pow2(2);
  }

  lemma RetransmitKeeps(w: World, now: nat)
    requires Inv(w) && w.peer.outstanding.Some? && now >= w.peer.outstanding.value.due
    requires w.peer.outstanding.value.retransmits < MAX_RETRANSMITS
    ensures Inv(WatchTick(w, now))
  {
    hide ToBytes, Spaced;
    var o, f := w.peer.outstanding.value, Last(w);
    SpacedOn(f.sentAt, f.t1, now);
    assert f.t1 * Pow2(o.retransmits) * 2 == f.t1 * Pow2(o.retransmits + 1);
  }

  lemma AbandonKeeps(w: World, now: nat)
    requires Inv(w) && w.peer.outstanding.Some? && now >= w.peer.outstanding.value.due
    requires w.peer.outstanding.value.retransmits >= MAX_RETRANSMITS
    ensures Inv(WatchTick(w, now))
  {
    hide ToBytes, Spaced;
    var f := Last(w);
    FifteenTimes(f.sentAt, f.t1, now);
  }

  lemma NextKeeps(w: World, now: nat)
    requires Inv(w) && w.peer.outstanding.None? && w.peer.queue != []
    ensures Inv(WatchTick(w, now))
  {
    hide ToBytes, ParseHeader;
    QueuedTransaction(w.accepted[w.waiting[0]]);
  }

  /** The transaction id re-read from queued octets is the one the message carried. */
  lemma QueuedTransaction(m: Message)
    requires ToBytes(m).Ok?
    ensures TransactionOf(ToBytes(m).value) == m.transactionId
  {
    hide ToBytes, ParseHeader, HeaderBytes, EncodeAll;
    WrittenIs(m);
    HeaderReadsBack(m, |EncodeAll(m.attributes)|, ToBytes(m).value);
  }

  lemma TickKeeps(w: World, now: nat)
    requires Inv(w)
    ensures Inv(WatchTick(w, now))
  {
    hide ToBytes, Spaced;
    if w.peer.outstanding.Some? {
      if now >= w.peer.outstanding.value.due {
        if w.peer.outstanding.value.retransmits >= MAX_RETRANSMITS {
          AbandonKeeps(w, now);
        } else {
          RetransmitKeeps(w, now);
        }
      }
    } else if w.peer.queue != [] {
      NextKeeps(w, now);
    }
  }

  lemma StepKeeps(w: World, op: Op)
    requires Inv(w)
    ensures Inv(Step(w, op))
  {
    hide Inv, WatchTick, WatchNotify, WatchReceive;
    match op
    case Receive(data, now) => ReceiveKeeps(w, data, now);
    case Cache(transactionId, bytes, now) => CacheKeeps(w, transactionId, bytes, now);
    case Notify(m, now) => NotifyKeeps(w, m, now);
    case OnTick(now) => TickKeeps(w, now);
  }

  lemma CacheKeeps(w: World, transactionId: U16, bytes: seq<Byte>, now: nat)
    requires Inv(w)
    ensures Inv(w.(peer := Cached(w.peer, transactionId, bytes, now)))
  {
    hide ToBytes, Spaced;
  }

  /** In every run each message is transmitted at most four times, and none is given up on too soon. */
  lemma {:induction false} RunKeeps(w: World, ops: seq<Op>)
    requires Inv(w)
    ensures Inv(Run(w, ops))
    decreases |ops|
  {
    hide Inv, Step;
    if ops != [] {
      StepKeeps(w, ops[0]);
      RunKeeps(Step(w, ops[0]), ops[1..]);
    }
  }

  /**
   Retransmission bounds over every run: at most four transmissions of each message, each
   waiting out a timer that starts at no less than T1 and doubles; a connection is reported
   broken only after all four and fifteen first timers, so never within 7.5 seconds.
   */
  lemma RetransmissionIsBounded(ops: seq<Op>, i: nat)
    requires i < |Run(NEW_WORLD, ops).log|
    ensures var f := Run(NEW_WORLD, ops).log[i];
            && |f.sentAt| <= 4
            && (f.sentAt != [] ==> f.t1 >= 500 && Spaced(f.sentAt, f.t1))
            && (f.fate.Abandoned? ==> |f.sentAt| == 4 && f.fate.at >= f.sentAt[0] + 15 * f.t1 >= f.sentAt[0] + 7500)
  {
    hide Spaced, Step;
    RunKeeps(NEW_WORLD, ops);
  }

  /** The back-off over every run: what is outstanding waits its first timer times a power of two. */
  lemma BackOffIsExact(ops: seq<Op>)
    requires Run(NEW_WORLD, ops).peer.outstanding.Some?
    ensures var w := Run(NEW_WORLD, ops);
            var o := w.peer.outstanding.value;
            && w.log != [] && Last(w).fate.InFlight? && |Last(w).sentAt| == 1 + o.retransmits <= 4
            && o.interval == w.peer.t1 * Pow2(o.retransmits) && w.peer.t1 == Last(w).t1 >= T1
            && o.due == Last(w).sentAt[o.retransmits] + o.interval
            && Last(w).id < |w.accepted| && ToBytes(w.accepted[Last(w).id]) == Ok(o.bytes)
            && o.transactionId == w.accepted[Last(w).id].transactionId
  {
    hide Spaced, Step, ToBytes;
    RunKeeps(NEW_WORLD, ops);
  }

  // ---- conservation and order -----------------------------------------

  /** The message goes out ahead of messages that were accepted before it and still wait. */
  predicate Overtakes(w: World, op: Op) {
    op.Notify? && ToBytes(op.message).Ok? && w.peer.outstanding.None? && w.peer.queue != []
  }

  function Inserted(s: seq<nat>, at: nat, id: nat): seq<nat>
    requires at <= |s|
  {
    s[..at] + [id] + s[at..]
  }

  /** Where a newly accepted message enters the order: at its end, unless it overtakes the queue. */
  function Place(w: World, op: Op): (at: nat)
    ensures at <= |Order(w)|
  {
    if Overtakes(w, op) then |w.log| else |Order(w)|
  }

  lemma NotifyOrder(w: World, op: Op)
    requires Inv(w) && op.Notify?
    ensures ToBytes(op.message).Err? ==> Order(Step(w, op)) == Order(w) && Step(w, op).accepted == w.accepted
    ensures ToBytes(op.message).Ok? ==>
              && Order(Step(w, op)) == Inserted(Order(w), Place(w, op), |w.accepted|)
              && Step(w, op).accepted == w.accepted + [op.message]
  {
    hide ToBytes;
    var v := Step(w, op);
    if ToBytes(op.message).Ok? {
      if w.peer.outstanding.Some? {
        assert Order(v) == Order(w) + [|w.accepted|];
      } else {
        assert Ids(v.log) == Ids(w.log) + [|w.accepted|];
        assert Order(w)[..|w.log|] == Ids(w.log) && Order(w)[|w.log|..] == w.waiting;
      }
    }
  }

  lemma ReceiveOrder(w: World, data: seq<Byte>, now: nat)
    ensures Order(WatchReceive(w, data, now)) == Order(w) && WatchReceive(w, data, now).accepted == w.accepted
  {
    hide ParseHeader;
    assert Ids(WatchReceive(w, data, now).log) == Ids(w.log);
  }

  lemma BrokenOrder(log: seq<Flight>, f: Flight, ids: seq<nat>)
    requires log != [] && f.id == log[|log| - 1].id
    ensures Ids(log[|log| - 1 := f] + DroppedFlights(ids)) == Ids(log) + ids
    ensures Ids(log[|log| - 1 := f]) == Ids(log)
  {
  }

  lemma TickOrder(w: World, now: nat)
    requires Inv(w)
    ensures Order(WatchTick(w, now)) == Order(w) && WatchTick(w, now).accepted == w.accepted
  {
    hide ParseHeader, Spaced, ToBytes, FlightMatches, FlightOk, Forgotten, Started, Ids;
    var v := WatchTick(w, now);
    if w.log != [] {
      BrokenOrder(w.log, Last(w).(fate := Abandoned(now)), w.waiting);
      BrokenOrder(w.log, Last(w).(sentAt := Last(w).sentAt + [now]), w.waiting);
    }
    if w.peer.outstanding.None? && w.waiting != [] {
      NextOrder(w.log, w.waiting, w.peer.t1, now);
    }
  }

  lemma NextOrder(log: seq<Flight>, waiting: seq<nat>, t1: nat, now: nat)
    requires waiting != []
    ensures Ids(log + [Flight(waiting[0], t1, [now], InFlight)]) + waiting[1..] == Ids(log) + waiting
  {
  }

  /** A step leaves the order of messages as it is, or lets one new message in. */
  lemma StepOrder(w: World, op: Op)
    requires Inv(w)
    ensures var v := Step(w, op);
            || (Order(v) == Order(w) && v.accepted == w.accepted && !Overtakes(w, op))
            || (Order(v) == Inserted(Order(w), Place(w, op), |w.accepted|) && |v.accepted| == |w.accepted| + 1)
  {
    hide Inv, ToBytes, WatchTick, WatchNotify, WatchReceive;
    match op
    case Receive(data, now) => ReceiveOrder(w, data, now);
    case Cache(transactionId, bytes, now) =>
    case Notify(m, now) => NotifyOrder(w, op);
    case OnTick(now) => TickOrder(w, now);
  }

  lemma InsertedCounts(s: seq<nat>, at: nat, id: nat)
    requires at <= |s|
    ensures multiset(Inserted(s, at, id)) == multiset(s) + multiset{id}
  {
    assert s == s[..at] + s[at..];
  }

  lemma {:induction false} RunConserves(w: World, ops: seq<Op>)
    requires Inv(w) && Conserved(w)
    ensures Conserved(Run(w, ops))
    decreases |ops|
  {
    hide Inv, Step, Order, Place;
    if ops != [] {
      var v := Step(w, ops[0]);
      StepKeeps(w, ops[0]);
      StepOrder(w, ops[0]);
      if |v.accepted| == |w.accepted| + 1 {
        InsertedCounts(Order(w), Place(w, ops[0]), |w.accepted|);
        assert UpTo(|v.accepted|) == UpTo(|w.accepted|) + [|w.accepted|];
      }
      RunConserves(v, ops[1..]);
    }
  }

  /**
   Conservation over every run: each message accepted is in exactly one flight, dropped
   with the queue exactly once, or waiting exactly once.
   */
  lemma MessagesAreConserved(ops: seq<Op>)
    ensures Conserved(Run(NEW_WORLD, ops))
    ensures |Run(NEW_WORLD, ops).log| + |Run(NEW_WORLD, ops).waiting| == |Run(NEW_WORLD, ops).accepted|
  {
    hide Step, Run;
    assert Order(NEW_WORLD) == UpTo(0);
    RunConserves(NEW_WORLD, ops);
    var w := Run(NEW_WORLD, ops);
    assert |multiset(Order(w))| == |Order(w)| && |multiset(UpTo(|w.accepted|))| == |w.accepted|;
  }

  // ---- what is sent ---------------------------------------------------

  /** The server-initiated octets an operation sends. */
  function Sent(w: World, op: Op): seq<seq<Byte>> {
    match op
    case Notify(m, now) => var sent := Notified(w.peer, m, now).1; if sent.Some? then [sent.value] else []
    case OnTick(now) => Tick(w.peer, now).1.send
    case _ => []
  }

  function AllSent(w: World, ops: seq<Op>): seq<seq<Byte>>
    decreases |ops|
  {
    if ops == [] then [] else Sent(w, ops[0]) + AllSent(Step(w, ops[0]), ops[1..])
  }

  /** The octets of the message a flight is for, as often as it was transmitted. */
  function FlightOctets(accepted: seq<Message>, f: Flight): multiset<seq<Byte>> {
    if f.id < |accepted| && ToBytes(accepted[f.id]).Ok? then multiset{}[ToBytes(accepted[f.id]).value := |f.sentAt|]
    else multiset{}
  }

  function Transmitted(accepted: seq<Message>, log: seq<Flight>): multiset<seq<Byte>> {
    if log == [] then multiset{}
    else Transmitted(accepted, log[..|log| - 1]) + FlightOctets(accepted, log[|log| - 1])
  }

  predicate AllKnown(accepted: seq<Message>, log: seq<Flight>) {
    forall i :: 0 <= i < |log| ==> log[i].id < |accepted|
  }

  lemma {:induction false} MoreAccepted(accepted: seq<Message>, m: Message, log: seq<Flight>)
    requires AllKnown(accepted, log)
    ensures Transmitted(accepted + [m], log) == Transmitted(accepted, log) && AllKnown(accepted + [m], log)
  {
    hide ToBytes;
    if log != [] {
      MoreAccepted(accepted, m, log[..|log| - 1]);
    }
  }

  lemma OneMoreFlight(accepted: seq<Message>, log: seq<Flight>, f: Flight)
    ensures Transmitted(accepted, log + [f]) == Transmitted(accepted, log) + FlightOctets(accepted, f)
  {
    hide FlightOctets;
    assert (log + [f])[..|log|] == log;
  }

  lemma LastFlightIs(accepted: seq<Message>, log: seq<Flight>, f: Flight)
    requires log != []
    ensures Transmitted(accepted, log[|log| - 1 := f]) ==
            Transmitted(accepted, log[..|log| - 1]) + FlightOctets(accepted, f)
  {
    hide FlightOctets;
    assert log[|log| - 1 := f][..|log| - 1] == log[..|log| - 1];
  }

  lemma NothingIn(accepted: seq<Message>, f: Flight)
    requires f.sentAt == []
    ensures FlightOctets(accepted, f) == multiset{}
  {
    hide ToBytes;
  }

  lemma {:induction false} DroppedSendNothing(accepted: seq<Message>, log: seq<Flight>, ids: seq<nat>)
    ensures Transmitted(accepted, log + DroppedFlights(ids)) == Transmitted(accepted, log)
    decreases |ids|
  {
    hide ToBytes, Transmitted, FlightOctets;
    if ids == [] {
      assert log + DroppedFlights(ids) == log;
    } else {
      var init := ids[..|ids| - 1];
      var f := Flight(ids[|ids| - 1], 0, [], Dropped);
      DroppedSendNothing(accepted, log, init);
      assert DroppedFlights(ids) == DroppedFlights(init) + [f];
      assert log + (DroppedFlights(init) + [f]) == log + DroppedFlights(init) + [f];
      OneMoreFlight(accepted, log + DroppedFlights(init), f);
      NothingIn(accepted, f);
    }
  }

  lemma NotifySends(w: World, m: Message, now: nat)
    requires Inv(w) && AllKnown(w.accepted, w.log)
    ensures var v := Step(w, Notify(m, now));
            && Transmitted(v.accepted, v.log) == Transmitted(w.accepted, w.log) + multiset(Sent(w, Notify(m, now)))
            && AllKnown(v.accepted, v.log)
  {
    hide ToBytes, Transmitted;
    if ToBytes(m).Ok? {
      MoreAccepted(w.accepted, m, w.log);
      OneMoreFlight(w.accepted + [m], w.log, Flight(|w.accepted|, w.peer.t1, [now], InFlight));
    }
  }

  lemma ReceiveSends(w: World, data: seq<Byte>, now: nat)
    requires AllKnown(w.accepted, w.log)
    ensures var v := WatchReceive(w, data, now);
            Transmitted(v.accepted, v.log) == Transmitted(w.accepted, w.log) && AllKnown(v.accepted, v.log)
  {
    hide ToBytes, ParseHeader, Transmitted;
    if w.log != [] {
      LastFlightIs(w.accepted, w.log, Last(w).(fate := Done));
      LastFlightIs(w.accepted, w.log, Last(w));
      assert w.log[|w.log| - 1 := Last(w)] == w.log;
    }
  }

  /** The octets sent so far, and that each flight is of a message accepted. */
  predicate Tallies(w: World, sent: multiset<seq<Byte>>) {
    Transmitted(w.accepted, w.log) == sent && AllKnown(w.accepted, w.log)
  }

  lemma RetransmitSends(w: World, f: Flight, now: nat, bytes: seq<Byte>)
    requires w.log != [] && Last(w) == f && AllKnown(w.accepted, w.log) && ToBytes(w.accepted[f.id]) == Ok(bytes)
    ensures Tallies(w.(log := WithLast(w, f.(sentAt := f.sentAt + [now]))),
                    Transmitted(w.accepted, w.log) + multiset{bytes})
  {
    hide ToBytes, Transmitted;
    LastFlightIs(w.accepted, w.log, f);
    assert w.log[|w.log| - 1 := f] == w.log;
    LastFlightIs(w.accepted, w.log, f.(sentAt := f.sentAt + [now]));
  }

  lemma AbandonSends(w: World, f: Flight, now: nat)
    requires w.log != [] && Last(w) == f && AllKnown(w.accepted, w.log)
    requires forall i :: 0 <= i < |w.waiting| ==> w.waiting[i] < |w.accepted|
    ensures Tallies(w.(log := WithLast(w, f.(fate := Abandoned(now))) + DroppedFlights(w.waiting), waiting := []),
                    Transmitted(w.accepted, w.log))
  {
    hide ToBytes, Transmitted;
    LastFlightIs(w.accepted, w.log, f);
    assert w.log[|w.log| - 1 := f] == w.log;
    LastFlightIs(w.accepted, w.log, f.(fate := Abandoned(now)));
    DroppedSendNothing(w.accepted, WithLast(w, f.(fate := Abandoned(now))), w.waiting);
  }

  lemma NextSends(w: World, now: nat, bytes: seq<Byte>)
    requires w.waiting != [] && AllKnown(w.accepted, w.log)
    requires w.waiting[0] < |w.accepted| && ToBytes(w.accepted[w.waiting[0]]) == Ok(bytes)
    ensures Tallies(w.(log := w.log + [Flight(w.waiting[0], w.peer.t1, [now], InFlight)], waiting := w.waiting[1..]),
                    Transmitted(w.accepted, w.log) + multiset{bytes})
  {
    hide ToBytes, Transmitted;
    OneMoreFlight(w.accepted, w.log, Flight(w.waiting[0], w.peer.t1, [now], InFlight));
  }

  lemma PeerAside(w: World, peer: Peer, sent: multiset<seq<Byte>>)
    ensures Tallies(w.(peer := peer), sent) <==> Tallies(w, sent)
  {
  }

  lemma TickSends(w: World, now: nat)
    requires Inv(w) && AllKnown(w.accepted, w.log)
    ensures Tallies(WatchTick(w, now), Transmitted(w.accepted, w.log) + multiset(Sent(w, OnTick(now))))
  {
    hide ToBytes, ParseHeader, Transmitted, Spaced, FlightOk, Tallies, AllKnown, Pow2;
    var v, sent, before := WatchTick(w, now), Sent(w, OnTick(now)), Transmitted(w.accepted, w.log);
    KeepsTally(w);
    AddedOctets(before, sent);
    if w.peer.outstanding.Some? {
      var f, o := Last(w), w.peer.outstanding.value;
      if now < o.due {
        PeerAside(w, v.peer, before);
      } else if o.retransmits >= MAX_RETRANSMITS {
        AbandonSends(w, f, now);
        PeerAside(w.(log := WithLast(w, f.(fate := Abandoned(now))) + DroppedFlights(w.waiting), waiting := []), v.peer,
                  before);
      } else {
        RetransmitSends(w, f, now, o.bytes);
        PeerAside(w.(log := WithLast(w, f.(sentAt := f.sentAt + [now]))), v.peer, before + multiset{o.bytes});
      }
    } else if w.waiting != [] {
      NextSends(w, now, w.peer.queue[0]);
      PeerAside(w.(log := w.log + [Flight(w.waiting[0], w.peer.t1, [now], InFlight)], waiting := w.waiting[1..]), v.peer,
                before + multiset{w.peer.queue[0]});
    } else {
      PeerAside(w, v.peer, before);
    }
  }

  lemma AddedOctets(before: multiset<seq<Byte>>, sent: seq<seq<Byte>>)
    ensures sent == [] ==> before + multiset(sent) == before
    ensures |sent| == 1 ==> before + multiset(sent) == before + multiset{sent[0]}
  {
    if |sent| == 1 {
      assert sent == [sent[0]];
    }
  }

  lemma KeepsTally(w: World)
    requires AllKnown(w.accepted, w.log)
    ensures Tallies(w, Transmitted(w.accepted, w.log))
  {
  }

  lemma StepSends(w: World, op: Op)
    requires Inv(w) && AllKnown(w.accepted, w.log)
    ensures Transmitted(Step(w, op).accepted, Step(w, op).log) == Transmitted(w.accepted, w.log) + multiset(Sent(w, op))
    ensures AllKnown(Step(w, op).accepted, Step(w, op).log)
  {
    hide Inv, WatchTick, WatchNotify, WatchReceive, Transmitted, Tick, Notified, AllKnown;
    match op
    case Receive(data, now) => ReceiveSends(w, data, now);
    case Cache(transactionId, bytes, now) =>
    case Notify(m, now) => NotifySends(w, m, now);
    case OnTick(now) => TickSends(w, now);
  }

  lemma {:induction false} RunSends(w: World, ops: seq<Op>)
    requires Inv(w) && AllKnown(w.accepted, w.log)
    ensures Transmitted(Run(w, ops).accepted, Run(w, ops).log) == Transmitted(w.accepted, w.log) + multiset(AllSent(w, ops))
    decreases |ops|
  {
    hide Inv, Step, Transmitted, Sent, AllKnown;
    if ops != [] {
      StepKeeps(w, ops[0]);
      StepSends(w, ops[0]);
      RunSends(Step(w, ops[0]), ops[1..]);
    }
  }

  /**
   What is sent over every run: the datagrams sent for the server are, one for one, the octets of
   the accepted messages at the transmissions logged, and nothing else is ever sent.
   */
  lemma WhatIsSentWasAccepted(ops: seq<Op>)
    ensures multiset(AllSent(NEW_WORLD, ops)) == Transmitted(Run(NEW_WORLD, ops).accepted, Run(NEW_WORLD, ops).log)
  {
    hide Step, Run, AllSent;
    RunSends(NEW_WORLD, ops);
  }

  // ---- first in, first out --------------------------------------------

  predicate Increasing(s: seq<nat>) {
    forall i, j :: 0 <= i < j < |s| ==> s[i] < s[j]
  }

  predicate NeverOvertakes(w: World, ops: seq<Op>)
    decreases |ops|
  {
    ops == [] || (!Overtakes(w, ops[0]) && NeverOvertakes(Step(w, ops[0]), ops[1..]))
  }

  predicate AllBelow(s: seq<nat>, n: nat) {
    forall i :: 0 <= i < |s| ==> s[i] < n
  }

  /** Inserting the largest keeps an order increasing exactly when it goes last; no insertion repairs one. */
  lemma InsertedIncreases(s: seq<nat>, at: nat, id: nat)
    requires at <= |s| && AllBelow(s, id)
    ensures Increasing(Inserted(s, at, id)) <==> Increasing(s) && at == |s|
    ensures AllBelow(Inserted(s, at, id), id + 1)
  {
    var t := Inserted(s, at, id);
    if at < |s| {
      assert t[at] == id && t[at + 1] == s[at];
    }
    if Increasing(t) {
      forall i, j | 0 <= i < j < |s| ensures s[i] < s[j] {
        var i', j' := if i < at then i else i + 1, if j < at then j else j + 1;
        assert s[i] == t[i'] && s[j] == t[j'];
      }
    }
  }

  lemma OvertakenPlace(w: World, op: Op)
    requires Inv(w)
    ensures Place(w, op) == |Order(w)| <==> !Overtakes(w, op)
  {
    hide ToBytes;
  }

  lemma {:induction false} RunOrder(w: World, ops: seq<Op>)
    requires Inv(w) && AllBelow(Order(w), |w.accepted|)
    ensures Increasing(Order(Run(w, ops))) <==> Increasing(Order(w)) && NeverOvertakes(w, ops)
    decreases |ops|
  {
    hide Inv, Step, Order, Place, Overtakes, Increasing;
    if ops != [] {
      var v := Step(w, ops[0]);
      StepKeeps(w, ops[0]);
      StepOrder(w, ops[0]);
      OvertakenPlace(w, ops[0]);
      if |v.accepted| == |w.accepted| + 1 {
        InsertedIncreases(Order(w), Place(w, ops[0]), |w.accepted|);
      }
      RunOrder(v, ops[1..]);
    }
  }

  /**
   First in, first out, exactly: over a whole run messages leave and wait in the order they
   were accepted if and only if none was given to an idle peer while others still waited.
   */
  lemma FifoExactlyWhen(ops: seq<Op>)
    ensures Increasing(Order(Run(NEW_WORLD, ops))) <==> NeverOvertakes(NEW_WORLD, ops)
  {
    hide Step, Run;
    RunOrder(NEW_WORLD, ops);
  }

  /** A notification without attributes, and its acknowledgement. */
  function Told(transactionId: U16): Message {
    Message(VERSION_UNRELIABLE, false, FloorStatus, 1, transactionId, 1, [])
  }

  function Acknowledging(transactionId: U16): Message {
    Message(VERSION_UNRELIABLE, true, FloorStatusAck, 1, transactionId, 1, [])
  }

  /** Three notifications; the first is acknowledged, and the third then goes out ahead of the second. */
  lemma ThirdOvertakesSecond() returns (ack: seq<Byte>, ops: seq<Op>)
    ensures ToBytes(Acknowledging(1)) == Ok(ack)
    ensures ops == [Notify(Told(1), 0), Notify(Told(2), 10), Receive(ack, 20), Notify(Told(3), 30)]
    ensures Order(Run(NEW_WORLD, ops)) == [0, 2, 1] && !Increasing(Order(Run(NEW_WORLD, ops)))
  {
    hide ToBytes, ParseHeader, HeaderBytes, Order, Run, Sort, WatchNotify;
    WritesExactlyWhen(Told(1));
    WritesExactlyWhen(Told(2));
    WritesExactlyWhen(Told(3));
    WritesExactlyWhen(Acknowledging(1));
    WrittenIs(Acknowledging(1));
    ack := ToBytes(Acknowledging(1)).value;
    HeaderReadsBack(Acknowledging(1), 0, ack);
    var b1, b2, b3 := ToBytes(Told(1)).value, ToBytes(Told(2)).value, ToBytes(Told(3)).value;
    ops := [Notify(Told(1), 0), Notify(Told(2), 10), Receive(ack, 20), Notify(Told(3), 30)];
    var f := Flight(0, T1, [0], InFlight);
    var o := Outstanding(1, b1, 0, T1, 0, T1);
    var w2 := World(Peer(None, Some(o), [b2], T1), [Told(1), Told(2)], [1], [f]);
    var w3 := World(Peer(None, None, [b2], T1), [Told(1), Told(2)], [1], [f.(fate := Done)]);
    TwoGiven(b1, b2);
    Acknowledged(w2.peer, ack, 20);
    assert Step(w2, ops[2]) == w3;
    ThirdGiven(w3, b2, b3);
    FourSteps(NEW_WORLD, ops);
    OrderIs(Step(w3, ops[3]), [0, 2], [1]);
    assert [0, 2] + [1] == [0, 2, 1] && [0, 2, 1][1] > [0, 2, 1][2];
  }

  lemma TwoGiven(b1: seq<Byte>, b2: seq<Byte>)
    requires ToBytes(Told(1)) == Ok(b1) && ToBytes(Told(2)) == Ok(b2)
    ensures Step(Step(NEW_WORLD, Notify(Told(1), 0)), Notify(Told(2), 10)) ==
            World(Peer(None, Some(Outstanding(1, b1, 0, T1, 0, T1)), [b2], T1), [Told(1), Told(2)], [1],
                  [Flight(0, T1, [0], InFlight)])
  {
    hide ToBytes;
  }

  lemma Acknowledged(p: Peer, ack: seq<Byte>, now: nat)
    requires p.outstanding.Some? && p.outstanding.value.sentAt + T1 >= now && p.t1 == T1
    ensures ParseHeader(ack).Ok? && Acks(p, ParseHeader(ack).value) ==>
              Sort(p, ack, now) == (p.(outstanding := None), Acked(p.outstanding.value.transactionId))
  {
    hide ParseHeader;
  }

  lemma ThirdGiven(w: World, b2: seq<Byte>, b3: seq<Byte>)
    requires w == World(Peer(None, None, [b2], T1), [Told(1), Told(2)], [1], [Flight(0, T1, [0], Done)])
    requires ToBytes(Told(3)) == Ok(b3)
    ensures Step(w, Notify(Told(3), 30)).log == [Flight(0, T1, [0], Done), Flight(2, T1, [30], InFlight)]
    ensures Step(w, Notify(Told(3), 30)).waiting == [1]
  {
    hide ToBytes;
  }

  lemma FourSteps(w: World, ops: seq<Op>)
    requires |ops| == 4
    ensures Run(w, ops) == Step(Step(Step(Step(w, ops[0]), ops[1]), ops[2]), ops[3])
  {
    hide Step;
    var w2 := Step(Step(w, ops[0]), ops[1]);
    assert ops[1..][1..] == ops[2..] && ops[2..][1..] == [ops[3]] && [ops[3]][1..] == [];
    assert Run(Step(w2, ops[2]), [ops[3]]) == Step(Step(w2, ops[2]), ops[3]);
    assert Run(w2, ops[2..]) == Run(Step(w2, ops[2]), [ops[3]]);
    assert Run(Step(w, ops[0]), ops[1..]) == Run(w2, ops[2..]);
  }

  lemma OrderIs(w: World, left: seq<nat>, waiting: seq<nat>)
    requires |left| == |w.log| && w.waiting == waiting && forall i :: 0 <= i < |w.log| ==> w.log[i].id == left[i]
    ensures Order(w) == left + waiting
  {
    assert Ids(w.log) == left;
  }

  /** A tick after an acknowledgement clears the way: nothing accepted next can overtake. */
  lemma TickClearsTheWay(w: World, now: nat, op: Op)
    requires Inv(w) && w.peer.outstanding.None?
    ensures !Overtakes(WatchTick(w, now), op)
  {
    hide ToBytes, Spaced;
  }

  // ---- the timer ------------------------------------------------------

  /** A datagram that acknowledges a first transmission after its retransmission was due. */
  predicate LateAck(p: Peer, op: Op) {
    && op.Receive? && ParseHeader(op.data).Ok? && Acks(p, ParseHeader(op.data).value)
    && p.outstanding.value.retransmits == 0 && op.now > p.outstanding.value.due
  }

  /** From T1 the timer moves exactly on a late acknowledgement of a first transmission. */
  lemma TimerMovesExactlyWhen(w: World, op: Op)
    requires Inv(w) && w.peer.t1 == T1
    ensures Step(w, op).peer.t1 == T1 <==> !LateAck(w.peer, op)
  {
    hide ToBytes, Spaced, ParseHeader;
    assert Pow2(0) == 1;
  }

  predicate NeverLate(w: World, ops: seq<Op>)
    decreases |ops|
  {
    ops == [] || (!LateAck(w.peer, ops[0]) && NeverLate(Step(w, ops[0]), ops[1..]))
  }

  /** The timer is T1 from here to the end of the run. */
  predicate Steady(w: World, ops: seq<Op>) {
    forall k :: 0 <= k <= |ops| ==> Run(w, ops[..k]).peer.t1 == T1
  }

  lemma SteadyOn(w: World, ops: seq<Op>)
    requires ops != [] && w.peer.t1 == T1
    ensures Steady(w, ops) <==> Steady(Step(w, ops[0]), ops[1..])
  {
    hide Step;
    forall k | 0 <= k < |ops| ensures Run(w, ops[..k + 1]) == Run(Step(w, ops[0]), ops[1..][..k]) {
      assert ops[..k + 1][1..] == ops[1..][..k];
    }
    assert Run(w, ops[..0]) == w;
    if Steady(Step(w, ops[0]), ops[1..]) {
      forall k | 0 <= k <= |ops| ensures Run(w, ops[..k]).peer.t1 == T1 {
        if k > 0 {
          assert Run(w, ops[..k - 1 + 1]) == Run(Step(w, ops[0]), ops[1..][..k - 1]);
        }
      }
    }
  }

  lemma {:induction false} SteadyExactlyWhen(w: World, ops: seq<Op>)
    requires Inv(w) && w.peer.t1 == T1
    ensures Steady(w, ops) <==> NeverLate(w, ops)
    decreases |ops|
  {
    hide Inv, Step, LateAck, Steady;
    if ops == [] {
      SteadyAtOnce(w);
    } else {
      StepKeeps(w, ops[0]);
      TimerMovesExactlyWhen(w, ops[0]);
      SteadyOn(w, ops);
      if LateAck(w.peer, ops[0]) {
        SteadyNow(Step(w, ops[0]), ops[1..]);
      } else {
        SteadyExactlyWhen(Step(w, ops[0]), ops[1..]);
      }
    }
  }

  lemma SteadyAtOnce(w: World)
    requires w.peer.t1 == T1
    ensures Steady(w, [])
  {
  }

  lemma SteadyNow(w: World, ops: seq<Op>)
    requires w.peer.t1 != T1
    ensures !Steady(w, ops)
  {
    hide Step;
    assert Run(w, ops[..0]) == w;
  }

  /** The timer never falls below T1, and is T1 throughout a run exactly without late acknowledgements. */
  lemma TimerIsStable(ops: seq<Op>)
    ensures Run(NEW_WORLD, ops).peer.t1 >= T1
    ensures (forall k :: 0 <= k <= |ops| ==> Run(NEW_WORLD, ops[..k]).peer.t1 == T1) <==> NeverLate(NEW_WORLD, ops)
  {
    hide Step, Run;
    RunKeeps(NEW_WORLD, ops);
    SteadyExactlyWhen(NEW_WORLD, ops);
  }
}
