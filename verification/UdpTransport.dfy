/**
 One UDP client's transactions with the floor server: the last response is kept for
 replay, and server-initiated messages go out one at a time, retransmitted on a doubling
 timer until acknowledged or given up on. Instants and durations are in milliseconds.
 */
module UdpTransport {
  import opened Wrappers
  import opened Octets
  import opened Messages

  const T1: nat := 500
  const MAX_RETRANSMITS: nat := 3
  const T2: nat := 10_000

  /** A server-initiated message in flight. */
  datatype Outstanding = Outstanding(transactionId: U16, bytes: seq<Byte>, sentAt: nat, due: nat,
                                     retransmits: nat, interval: nat)

  datatype Response = Response(transactionId: U16, bytes: seq<Byte>, at: nat)

  /** What a datagram from the client turned out to be. */
  datatype Inbound =
    | Request
    | Replay(bytes: seq<Byte>)
    | Acked(transactionId: U16)
    | Stray
    | Unreadable

  /** What a timer tick asks the caller to do. */
  datatype Ticked = Ticked(send: seq<seq<Byte>>, broken: bool)

  datatype Peer = Peer(response: Option<Response>, outstanding: Option<Outstanding>, queue: seq<seq<Byte>>, t1: nat)

  const NEW_PEER := Peer(None, None, [], T1)

  /** Time passed since `at`, none when the clock has not reached it. */
  function Since(now: nat, at: nat): nat {
    if now >= at then now - at else 0
  }

  // ---- the operations, on values --------------------------------------

  /** Whether the datagram acknowledges what is outstanding. */
  predicate Acks(p: Peer, h: Header) {
    && h.responder && p.outstanding.Some?
    && p.outstanding.value.transactionId == h.transactionId && h.primitive.IsAck()
  }

  function Sort(p: Peer, data: seq<Byte>, now: nat): (Peer, Inbound) {
    match ParseHeader(data)
    case Err(_) => (p, Unreadable)
    case Ok(h) =>
      if Acks(p, h) then
        var o := p.outstanding.value;
        var t1 := if o.retransmits == 0 then Max(Since(now, o.sentAt), T1) else p.t1;
        (p.(outstanding := None, t1 := t1), Acked(o.transactionId))
      else if h.responder then (p, Stray)
      else if p.response.Some? && p.response.value.transactionId == h.transactionId
              && Since(now, p.response.value.at) < T2 then (p, Replay(p.response.value.bytes))
      else (p, Request)
  }

  function Cached(p: Peer, transactionId: U16, bytes: seq<Byte>, now: nat): Peer {
    p.(response := Some(Response(transactionId, bytes, now)))
  }

  function Started(p: Peer, transactionId: U16, bytes: seq<Byte>, now: nat): Peer {
    p.(outstanding := Some(Outstanding(transactionId, bytes, now, now + p.t1, 0, p.t1)))
  }

  function Notified(p: Peer, m: Message, now: nat): (Peer, Option<seq<Byte>>) {
    match ToBytes(m)
    case Err(_) => (p, None)
    case Ok(bytes) =>
      if p.outstanding.Some? then (p.(queue := p.queue + [bytes]), None)
      else (Started(p, m.transactionId, bytes, now), Some(bytes))
  }

  /** The transaction id re-read from a queued message's octets. */
  function TransactionOf(bytes: seq<Byte>): U16 {
    match ParseHeader(bytes)
    case Ok(h) => h.transactionId
    case Err(_) => 0
  }

  function Forgotten(p: Peer, now: nat): Peer {
    if p.response.Some? && Since(now, p.response.value.at) >= T2 then p.(response := None) else p
  }

  function Tick(p: Peer, now: nat): (Peer, Ticked) {
    var p := Forgotten(p, now);
    match p.outstanding
    case Some(o) =>
      if now < o.due then (p, Ticked([], false))
      else if o.retransmits >= MAX_RETRANSMITS then (p.(outstanding := None, queue := []), Ticked([], true))
      else
        var o := o.(retransmits := o.retransmits + 1, interval := o.interval * 2, due := now + o.interval * 2);
        (p.(outstanding := Some(o)), Ticked([o.bytes], false))
    case None =>
      if p.queue == [] then (p, Ticked([], false))
      else
        var next := p.queue[0];
        (Started(p.(queue := p.queue[1..]), TransactionOf(next), next, now), Ticked([next], false))
  }

  // ---- the peer -------------------------------------------------------

  class UdpPeer {
    var response: Option<Response>
    var outstanding: Option<Outstanding>
    var queue: seq<seq<Byte>>
    var t1: nat

    function State(): Peer
      reads this
    {
      Peer(response, outstanding, queue, t1)
    }

    constructor ()
      ensures State() == NEW_PEER
    {
      response, outstanding, queue, t1 := None, None, [], T1;
    }

    /** Sorts a datagram before the floor server sees it. */
    method Receive(data: seq<Byte>, now: nat) returns (r: Inbound)
      modifies `outstanding, `t1
      ensures (State(), r) == Sort(old(State()), data, now)
    {
      var header := ParseHeader(data);
      if header.Err? {
        return Unreadable;
      }
      var h := header.value;
      if h.responder {
        var acked := false;
        if outstanding.Some? && outstanding.value.transactionId == h.transactionId && h.primitive.IsAck() {
          if outstanding.value.retransmits == 0 {
            t1 := Max(Since(now, outstanding.value.sentAt), T1);
          }
          acked := true;
        }
        if acked {
          var transactionId := outstanding.value.transactionId;
          outstanding := None;
          return Acked(transactionId);
        }
        return Stray;
      }
      if response.Some? && response.value.transactionId == h.transactionId && Since(now, response.value.at) < T2 {
        return Replay(response.value.bytes);
      }
      return Request;
    }

    /** Keeps the response just sent, for replay. */
    method CacheResponse(transactionId: U16, bytes: seq<Byte>, now: nat)
      modifies `response
      ensures State() == Cached(old(State()), transactionId, bytes, now)
    {
      response := Some(Response(transactionId, bytes, now));
    }

    /** Sends a server-initiated message now when the way is clear, and queues it otherwise. */
    method Notify(m: Message, now: nat) returns (r: Option<seq<Byte>>)
      modifies `outstanding, `queue
      ensures (State(), r) == Notified(old(State()), m, now)
    {
      var bytes := ToBytes(m);
      if bytes.Err? {
        return None;
      }
      if outstanding.Some? {
        queue := queue + [bytes.value];
        return None;
      }
      var sent := Start(m.transactionId, bytes.value, now);
      return Some(sent);
    }

    method Start(transactionId: U16, bytes: seq<Byte>, now: nat) returns (sent: seq<Byte>)
      modifies `outstanding
      ensures State() == Started(old(State()), transactionId, bytes, now) && sent == bytes
    {
      outstanding := Some(Outstanding(transactionId, bytes, now, now + t1, 0, t1));
      sent := bytes;
    }

    /** Time passed: forget an old response, retransmit what is due, send what was queued. */
    method OnTick(now: nat) returns (tick: Ticked)
      modifies this
      ensures (State(), tick) == Tick(old(State()), now)
    {
      tick := Ticked([], false);
      if response.Some? && Since(now, response.value.at) >= T2 {
        response := None;
      }
      if outstanding.Some? {
        var o := outstanding.value;
        if now >= o.due {
          if o.retransmits >= MAX_RETRANSMITS {
            tick := tick.(broken := true);
            outstanding := None;
            queue := [];
            return;
          }
          o := o.(retransmits := o.retransmits + 1);
          o := o.(interval := o.interval * 2);
          o := o.(due := now + o.interval);
          outstanding := Some(o);
          tick := tick.(send := tick.send + [o.bytes]);
          assert tick.send == [o.bytes];
        }
      } else if queue != [] {
        var next := queue[0];
        queue := queue[1..];
        var sent := Start(TransactionOf(next), next, now);
        tick := tick.(send := tick.send + [sent]);
        assert tick.send == [next];
      }
    }

    /** When the next retransmission is due. */
    function NextDue(): Option<nat>
      reads this
    {
      if outstanding.Some? then Some(outstanding.value.due) else None
    }
  }
}
