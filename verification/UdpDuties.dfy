/**
 What a UDP peer must do, and when: the octets in flight go out again at each doubled timer until
 four transmissions have gone unanswered, what waits goes out when nothing is in flight, and exactly
 an acknowledgement in its transaction settles a message.
 */
module UdpDuties {
  import opened Wrappers
  import opened Octets
  import opened Messages
  import opened UdpTransport
  import opened UdpRuns

  // ---- what must be sent, and when ------------------------------------

  /** When the next transmission, or giving up, falls due: one doubled timer after the last. */
  function DueAt(f: Flight): nat
    requires f.sentAt != []
  {
    f.sentAt[|f.sentAt| - 1] + f.t1 * Pow2(|f.sentAt| - 1)
  }

  predicate Busy(w: World) {
    w.log != [] && Last(w).fate.InFlight? && Last(w).sentAt != [] && Last(w).id < |w.accepted|
  }

  lemma BusyExactlyWhen(w: World)
    requires Inv(w)
    ensures w.peer.outstanding.Some? <==> Busy(w)
    ensures w.peer.outstanding.Some? ==>
              var o := w.peer.outstanding.value;
              && o.due == DueAt(Last(w)) && 1 + o.retransmits == |Last(w).sentAt| <= 4
              && ToBytes(w.accepted[Last(w).id]) == Ok(o.bytes)
              && o.transactionId == w.accepted[Last(w).id].transactionId && o.sentAt == Last(w).sentAt[0]
  {
    hide ToBytes, Spaced, Pow2;
  }

  /**
   A tick while a message is in flight: before it falls due nothing happens; then the same octets
   are sent once more while there have been fewer than four transmissions, and after four the
   connection is reported broken, the message given up and the queue dropped.
   */
  lemma BusyTick(w: World, now: nat)
    requires Inv(w) && Busy(w)
    ensures var (tick, v, f) := (Tick(w.peer, now).1, WatchTick(w, now), Last(w));
            && (now < DueAt(f) ==> tick == Ticked([], false) && v.log == w.log && v.waiting == w.waiting)
            && (now >= DueAt(f) && |f.sentAt| < 4 ==>
                 && !tick.broken && |tick.send| == 1 && ToBytes(w.accepted[f.id]) == Ok(tick.send[0])
                 && v.log == WithLast(w, f.(sentAt := f.sentAt + [now])) && v.waiting == w.waiting)
            && (now >= DueAt(f) && |f.sentAt| == 4 ==>
                 && tick == Ticked([], true) && v.waiting == []
                 && v.log == WithLast(w, f.(fate := Abandoned(now))) + DroppedFlights(w.waiting))
            && v.accepted == w.accepted
  {
    hide ToBytes, Spaced, Pow2, FlightOk;
    BusyExactlyWhen(w);
  }

  /** A tick while nothing is in flight sends the message that has waited longest, if any waits. */
  lemma IdleTick(w: World, now: nat)
    requires Inv(w) && !Busy(w)
    ensures var (tick, v) := (Tick(w.peer, now).1, WatchTick(w, now));
            && !tick.broken && v.accepted == w.accepted
            && (w.waiting == [] ==> tick.send == [] && v.log == w.log && v.waiting == [])
            && (w.waiting != [] ==>
                 && w.waiting[0] < |w.accepted| && |tick.send| == 1
                 && ToBytes(w.accepted[w.waiting[0]]) == Ok(tick.send[0])
                 && v.log == w.log + [Flight(w.waiting[0], w.peer.t1, [now], InFlight)] && v.waiting == w.waiting[1..])
  {
    hide ToBytes, Spaced, Pow2, FlightOk, ParseHeader;
    BusyExactlyWhen(w);
  }

  /** A message given is sent at once while nothing is in flight, and waits otherwise. */
  lemma NotifyMust(w: World, m: Message, now: nat, bytes: seq<Byte>)
    requires Inv(w) && ToBytes(m) == Ok(bytes)
    ensures var (sent, v) := (Notified(w.peer, m, now).1, WatchNotify(w, m, now));
            if Busy(w) then sent == None && v.log == w.log && v.waiting == w.waiting + [|w.accepted|]
            else
              && sent == Some(bytes) && v.waiting == w.waiting
              && v.log == w.log + [Flight(|w.accepted|, w.peer.t1, [now], InFlight)]
  {
    hide ToBytes, Spaced, Pow2, FlightOk;
    BusyExactlyWhen(w);
  }

  /**
   What settles the message in flight is exactly an acknowledgement, marked as a response, in its
   transaction; only a first transmission tunes the timer, to the time it took but no less than T1.
   */
  lemma SettledExactlyWhen(w: World, data: seq<Byte>, now: nat)
    requires Inv(w)
    ensures var (p, r) := Sort(w.peer, data, now);
            && (r.Acked? <==>
                 && Busy(w) && ParseHeader(data).Ok?
                 && var h := ParseHeader(data).value;
                    && h.responder && h.transactionId == w.accepted[Last(w).id].transactionId
                    && (h.primitive.FloorRequestStatusAck? || h.primitive.FloorStatusAck? || h.primitive.GoodbyeAck?))
            && (!r.Acked? ==> p == w.peer)
            && (r.Acked? ==>
                 && p == w.peer.(outstanding := None, t1 := p.t1)
                 && p.t1 == if |Last(w).sentAt| > 1 then w.peer.t1
                            else if now > Last(w).sentAt[0] + 500 then now - Last(w).sentAt[0]
                            else 500)
  {
    hide ToBytes, Spaced, Pow2, FlightOk, ParseHeader;
    BusyExactlyWhen(w);
  }

  /** A response is forgotten by the first tick after T2, and by no other. */
  lemma ForgottenExactlyWhen(p: Peer, now: nat)
    ensures Tick(p, now).0.response ==
            if p.response.Some? && now >= p.response.value.at + 10_000 then None else p.response
  {
    hide ParseHeader;
  }

  /** Nobody answers: the message goes out at 0, 500, 1500 and 3500, and is given up at 7500. */
  lemma FourTimesThenBroken(m: Message, bytes: seq<Byte>) returns (ops: seq<Op>)
    requires ToBytes(m) == Ok(bytes)
    ensures ops == [Notify(m, 0), OnTick(500), OnTick(1500), OnTick(3500), OnTick(7500)]
    ensures Run(NEW_WORLD, ops).log == [Flight(0, T1, [0, 500, 1500, 3500], Abandoned(7500))]
    ensures AllSent(NEW_WORLD, ops) == [bytes, bytes, bytes, bytes]
    ensures Tick(Run(NEW_WORLD, ops[..4]).peer, 7500).1.broken
  {
    hide ToBytes, Inv, WatchTick, WatchNotify, Tick, Notified, Busy, Pow2, OnlyInFlight;
    ops := [Notify(m, 0), OnTick(500), OnTick(1500), OnTick(3500), OnTick(7500)];
    Powers();
    var w1 := Step(NEW_WORLD, ops[0]);
    StartsEmpty();
    NotifyMust(NEW_WORLD, m, 0, bytes);
    FirstTransmission(m, bytes);
    var one: seq<nat>, two: seq<nat>, three: seq<nat> := [0], [0, 500], [0, 500, 1500];
    assert one + [500] == two && two + [1500] == three && three + [3500] == [0, 500, 1500, 3500];
    var w2 := SentAgain(w1, m, bytes, one, 500);
    var w3 := SentAgain(w2, m, bytes, two, 1500);
    var w4 := SentAgain(w3, m, bytes, three, 3500);
    GivenUp(w4, m, bytes, 7500);
    FiveSteps(NEW_WORLD, ops);
  }

  lemma Powers()
    ensures Pow2(0) == 1 && Pow2(1) == 2 && Pow2(2) == 4 && Pow2(3) == 8
  {
  }

  lemma StartsEmpty()
    ensures Inv(NEW_WORLD) && !Busy(NEW_WORLD)
  {
  }

  /** One message, transmitted so often, in flight. */
  predicate OnlyInFlight(w: World, m: Message, sentAt: seq<nat>) {
    Inv(w) && w.accepted == [m] && w.waiting == [] && w.log == [Flight(0, T1, sentAt, InFlight)]
  }

  lemma FirstTransmission(m: Message, bytes: seq<Byte>)
    requires ToBytes(m) == Ok(bytes)
    ensures OnlyInFlight(Step(NEW_WORLD, Notify(m, 0)), m, [0]) && Sent(NEW_WORLD, Notify(m, 0)) == [bytes]
  {
    hide ToBytes, Inv, WatchTick;
    StartsEmpty();
    StepKeeps(NEW_WORLD, Notify(m, 0));
  }

  lemma SentAgain(w: World, m: Message, bytes: seq<Byte>, sentAt: seq<nat>, now: nat) returns (v: World)
    requires ToBytes(m) == Ok(bytes) && OnlyInFlight(w, m, sentAt) && 0 < |sentAt| < 4
    requires now == sentAt[|sentAt| - 1] + T1 * Pow2(|sentAt| - 1)
    ensures v == Step(w, OnTick(now)) && OnlyInFlight(v, m, sentAt + [now]) && Sent(w, OnTick(now)) == [bytes]
  {
    hide ToBytes, Inv, WatchTick, Tick, Pow2;
    BusyTick(w, now);
    StepKeeps(w, OnTick(now));
    v := Step(w, OnTick(now));
  }

  lemma GivenUp(w: World, m: Message, bytes: seq<Byte>, now: nat)
    requires ToBytes(m) == Ok(bytes) && OnlyInFlight(w, m, [0, 500, 1500, 3500]) && now == 7500
    ensures Step(w, OnTick(now)).log == [Flight(0, T1, [0, 500, 1500, 3500], Abandoned(7500))]
    ensures Sent(w, OnTick(now)) == [] && Tick(w.peer, now).1.broken
  {
    hide ToBytes, Inv, WatchTick, Tick, Pow2;
    Powers();
    BusyTick(w, now);
  }

  lemma FiveSteps(w: World, ops: seq<Op>)
    requires |ops| == 5
    ensures var w1 := Step(w, ops[0]);
            var w2 := Step(w1, ops[1]);
            var w3 := Step(w2, ops[2]);
            var w4 := Step(w3, ops[3]);
            && Run(w, ops) == Step(w4, ops[4]) && Run(w, ops[..4]) == w4
            && AllSent(w, ops) ==
               Sent(w, ops[0]) + Sent(w1, ops[1]) + Sent(w2, ops[2]) + Sent(w3, ops[3]) + Sent(w4, ops[4])
  {
    hide Step, Sent;
    FourSteps(w, ops[..4]);
    OneMoreStep(w, ops[..4], ops[4]);
    assert ops[..4] + [ops[4]] == ops;
    var w1 := Step(w, ops[0]);
    assert AllSent(w, ops) == Sent(w, ops[0]) + AllSent(w1, ops[1..]);
    assert AllSent(w1, ops[1..]) == Sent(w1, ops[1]) + AllSent(Step(w1, ops[1]), ops[2..]) by {
      assert ops[1..][1..] == ops[2..];
    }
    var w2 := Step(w1, ops[1]);
    assert AllSent(w2, ops[2..]) == Sent(w2, ops[2]) + AllSent(Step(w2, ops[2]), ops[3..]) by {
      assert ops[2..][1..] == ops[3..];
    }
    var w3 := Step(w2, ops[2]);
    assert AllSent(w3, ops[3..]) == Sent(w3, ops[3]) + AllSent(Step(w3, ops[3]), ops[4..]) by {
      assert ops[3..][1..] == ops[4..];
    }
    var w4 := Step(w3, ops[3]);
    assert AllSent(w4, ops[4..]) == Sent(w4, ops[4]) by {
      assert ops[4..][1..] == [];
    }
  }

  lemma {:induction false} OneMoreStep(w: World, ops: seq<Op>, op: Op)
    ensures Run(w, ops + [op]) == Step(Run(w, ops), op)
    decreases |ops|
  {
    hide Step;
    if ops == [] {
      assert [] + [op] == [op] && [op][1..] == [];
    } else {
      assert (ops + [op])[1..] == ops[1..] + [op];
      OneMoreStep(Step(w, ops[0]), ops[1..], op);
    }
  }
}
