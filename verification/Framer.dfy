/**
 Cutting messages out of a TCP stream. The framer is polled at any moment on whatever
 has arrived; the reference is the cut of the whole stream at once, and the theorem is
 that no chunking and no polling changes what comes out or where frames end.
 */
module Framer {
  import opened Wrappers
  import opened Octets
  import opened Messages
  import opened RoundTrip

  /** What a poll gives: a message, an error, or nothing yet. */
  type Polled = Result<Option<Message>, ParseError>

  // ---- the framer -----------------------------------------------------

  class TcpFramer {
    var buf: seq<Byte>

    constructor ()
      ensures buf == []
    {
      buf := [];
    }

    /** Octets read from the socket. */
    method Push(data: seq<Byte>)
      modifies this
      ensures buf == old(buf) + data
    {
      buf := buf + data;
    }

    /** The next whole message, or nothing while one is still arriving. */
    method NextMessage() returns (r: Polled)
      modifies this
      ensures (r, buf) == Poll(old(buf))
    {
      if |buf| < COMMON_HEADER_LEN {
        return Ok(None);
      }
      var header := ParseHeader(buf);
      if header.Err? {
        if header.error.kind.BadPrimitive? {
          var total := COMMON_HEADER_LEN + PayloadLen(buf);
          if |buf| < total {
            return Ok(None);
          }
          buf := buf[total..];
        }
        return Err(header.error);
      }
      var total := header.value.MessageLen();
      if |buf| < total {
        return Ok(None);
      }
      var frame := buf[..total];
      buf := buf[total..];
      var message := Parse(frame);
      r := if message.Ok? then Ok(Some(message.value)) else Err(message.error);
    }

    /** Octets waiting for the rest of their message. */
    function Pending(): nat
      reads this
    {
      |buf|
    }
  }

  /** One poll: its answer, and what stays in the buffer. */
  function Poll(buf: seq<Byte>): (Polled, seq<Byte>) {
    if |buf| < COMMON_HEADER_LEN then (Ok(None), buf)
    else
      match ParseHeader(buf)
      case Err(e) =>
        if !e.kind.BadPrimitive? then (Err(e), buf)
        else
          var total := COMMON_HEADER_LEN + PayloadLen(buf);
          if |buf| < total then (Ok(None), buf) else (Err(e), buf[total..])
      case Ok(h) =>
        var total := h.MessageLen();
        if |buf| < total then (Ok(None), buf)
        else
          match Parse(buf[..total])
          case Ok(m) => (Ok(Some(m)), buf[total..])
          case Err(e) => (Err(e), buf[total..])
  }

  // ---- the reference: frames of a whole stream ------------------------

  /** Where the first frame ends, once enough of it is there to tell. */
  function FrameLen(s: seq<Byte>): Option<nat>
    requires |s| >= COMMON_HEADER_LEN
  {
    var extra := if PrimitiveOf(s[1]).Some? && FragmentFlag(s) then FRAGMENT_LEN else 0;
    if |s| < COMMON_HEADER_LEN + extra then None else Some(COMMON_HEADER_LEN + extra + PayloadLen(s))
  }

  /** Whether a whole frame stands at the front. */
  predicate Whole(s: seq<Byte>) {
    |s| >= COMMON_HEADER_LEN && FrameLen(s).Some? && FrameLen(s).value <= |s|
  }

  /** What each frame of the stream reads as, in order. */
  function Frames(s: seq<Byte>): seq<Result<Message, ParseError>> {
    if !Whole(s) then [] else [Parse(s[..FrameLen(s).value])] + Frames(s[FrameLen(s).value..])
  }

  /** The octets of the frame still arriving. */
  function Tail(s: seq<Byte>): (tail: seq<Byte>)
    ensures !Whole(tail)
  {
    if !Whole(s) then s else Tail(s[FrameLen(s).value..])
  }

  /**
   A poll that comes too early: the fragment flag is set, the primitive is known and
   the fragment fields have not arrived. The framer then reports an error although
   nothing is wrong with the stream yet.
   */
  predicate Premature(buf: seq<Byte>) {
    COMMON_HEADER_LEN <= |buf| < COMMON_HEADER_LEN + FRAGMENT_LEN && PrimitiveOf(buf[1]).Some? && FragmentFlag(buf)
  }

  /** A frame is read from its own octets: an unknown primitive is reported as from the stream. */
  lemma HeaderOfFrame(buf: seq<Byte>)
    requires Whole(buf)
    ensures var frame := buf[..FrameLen(buf).value];
            ParseHeader(frame) == ParseHeader(buf) && Whole(frame)
  {
    hide Parse;
  }

  lemma BadPrimitiveFrame(frame: seq<Byte>)
    requires |frame| >= COMMON_HEADER_LEN && PrimitiveOf(frame[1]).None?
    ensures ParseHeader(frame) == Err(ParseError(BadPrimitive(frame[1]), Some(EchoOf(frame))))
    ensures Parse(frame) == Err(ParseHeader(frame).error)
  {
    hide PrimitiveOf, EchoOf;
  }

  /** A poll takes exactly the first whole frame, and otherwise takes nothing. */
  lemma PollTakesOneFrame(buf: seq<Byte>)
    ensures Whole(buf) ==>
              var n := FrameLen(buf).value;
              Poll(buf) == (match Parse(buf[..n]) case Ok(m) => Ok(Some(m)) case Err(e) => Err(e), buf[n..])
    ensures !Whole(buf) ==> Poll(buf).1 == buf
    ensures !Whole(buf) && !Premature(buf) ==> Poll(buf).0 == Ok(None)
    ensures Premature(buf) ==> Poll(buf).0 == Err(ParseError(Truncated, Some(EchoOf(buf))))
  {
    hide Parse, PrimitiveOf, EchoOf, U16OfBytes;
    if |buf| >= COMMON_HEADER_LEN && PrimitiveOf(buf[1]).None? {
      BadPrimitiveFrame(buf);
      if Whole(buf) {
        HeaderOfFrame(buf);
        BadPrimitiveFrame(buf[..FrameLen(buf).value]);
      }
    }
  }

  /**
   What a poll takes of a whole frame, by the octets: twelve and four times the number stated in the
   third and fourth of them, and four more for a fragment of a known primitive.
   */
  lemma PollTakesWhatIsStated(buf: seq<Byte>)
    requires Whole(buf)
    ensures var n := 12 + 4 * (256 * (buf[2] as int) + buf[3] as int) + if 1 <= buf[1] <= 17 && buf[0] % 16 >= 8 then 4 else 0;
            n <= |buf| && Poll(buf).1 == buf[n..]
  {
    hide Parse, PrimitiveOf, EchoOf, Poll;
    PollTakesOneFrame(buf);
    FourthBit(buf[0]);
  }

  /** A poll gives `Ok(None)` exactly when no frame is whole and none is seen too early. */
  lemma PollWaits(buf: seq<Byte>)
    ensures Poll(buf).0 == Ok(None) <==> !Whole(buf) && !Premature(buf)
  {
    hide Parse, ParseHeader, PrimitiveOf, EchoOf, Poll;
    PollTakesOneFrame(buf);
  }

  // ---- more octets change nothing that was whole ----------------------

  lemma WholeStays(s: seq<Byte>, more: seq<Byte>)
    requires Whole(s)
    ensures Whole(s + more) && FrameLen(s + more) == FrameLen(s)
    ensures (s + more)[..FrameLen(s).value] == s[..FrameLen(s).value]
    ensures (s + more)[FrameLen(s).value..] == s[FrameLen(s).value..] + more
  {
    hide PrimitiveOf, U16OfBytes;
  }

  /** Cutting a stream is cutting its first part and then what that left with the rest. */
  lemma {:induction false} FramesCompose(s: seq<Byte>, more: seq<Byte>)
    ensures Frames(s + more) == Frames(s) + Frames(Tail(s) + more)
    ensures Tail(s + more) == Tail(Tail(s) + more)
    decreases |s|
  {
    hide Parse, PrimitiveOf, U16OfBytes, FrameLen;
    if Whole(s) {
      WholeStays(s, more);
      WholeIsLong(s);
      FramesCompose(s[FrameLen(s).value..], more);
    }
  }

  lemma WholeIsLong(s: seq<Byte>)
    requires Whole(s)
    ensures FrameLen(s).value >= COMMON_HEADER_LEN
  {
  }

  // ---- runs of the framer ---------------------------------------------

  /** What the owner does with a framer: give it octets, or ask for a message. */
  datatype Op = Push(data: seq<Byte>) | Ask

  /** A buffer and everything its polls have answered, early ones apart. */
  datatype Session = Session(buf: seq<Byte>, results: seq<Result<Message, ParseError>>, early: nat)

  function Answered(s: Session): Session {
    match Poll(s.buf)
    case (Ok(None), buf) => s.(buf := buf)
    case (Ok(Some(m)), buf) => s.(buf := buf, results := s.results + [Ok(m)])
    case (Err(e), buf) =>
      if Premature(s.buf) then s.(buf := buf, early := s.early + 1)
      else s.(buf := buf, results := s.results + [Err(e)])
  }

  function Step(s: Session, op: Op): Session {
    match op
    case Push(data) => s.(buf := s.buf + data)
    case Ask => Answered(s)
  }

  function Run(s: Session, ops: seq<Op>): Session
    decreases |ops|
  {
    if ops == [] then s else Run(Step(s, ops[0]), ops[1..])
  }

  function Pushed(ops: seq<Op>): seq<Byte> {
    if ops == [] then [] else (if ops[0].Push? then ops[0].data else []) + Pushed(ops[1..])
  }

  /** A poll moves one frame from the buffer to the answers, or nothing at all. */
  lemma PollKeeps(s: Session)
    ensures Answered(s).results + Frames(Answered(s).buf) == s.results + Frames(s.buf)
    ensures Tail(Answered(s).buf) == Tail(s.buf)
    ensures Answered(s).early == s.early + if Premature(s.buf) then 1 else 0
  {
    hide Parse, PrimitiveOf, U16OfBytes, Poll, ParseHeader;
    PollTakesOneFrame(s.buf);
    if Whole(s.buf) {
      var n := FrameLen(s.buf).value;
      PrematureIsPart(s.buf);
      assert s.results + [Parse(s.buf[..n])] + Frames(s.buf[n..]) == s.results + ([Parse(s.buf[..n])] + Frames(s.buf[n..]));
    }
  }

  lemma PrematureIsPart(s: seq<Byte>)
    requires Whole(s)
    ensures !Premature(s)
  {
  }

  /**
   Every run: what has been answered, followed by the frames still in the buffer, is
   the cut of everything pushed, whatever the chunks and whenever the polls; and the
   incomplete end of the buffer is the incomplete end of the stream.
   */
  lemma {:induction false} RunCutsTheStream(s: Session, ops: seq<Op>)
    ensures Run(s, ops).results + Frames(Run(s, ops).buf) == s.results + Frames(s.buf + Pushed(ops))
    ensures Tail(Run(s, ops).buf) == Tail(s.buf + Pushed(ops))
    decreases |ops|
  {
    hide Frames, Tail, Poll, Premature;
    if ops == [] {
      assert s.buf + [] == s.buf;
    } else {
      var next := Step(s, ops[0]);
      var later := Pushed(ops[1..]);
      RunCutsTheStream(next, ops[1..]);
      match ops[0] {
        case Push(data) =>
          assert s.buf + data + later == s.buf + (data + later);
        case Ask =>
          assert [] + later == later;
          PollThenMore(s, later);
      }
    }
  }

  lemma PollThenMore(s: Session, later: seq<Byte>)
    ensures Answered(s).results + Frames(Answered(s).buf + later) == s.results + Frames(s.buf + later)
    ensures Tail(Answered(s).buf + later) == Tail(s.buf + later)
  {
    hide Frames, Tail, Poll, Premature, Answered;
    PollKeeps(s);
    FramesCompose(s.buf, later);
    FramesCompose(Answered(s).buf, later);
    var rest := Frames(Tail(s.buf) + later);
    assert s.results + (Frames(s.buf) + rest) == s.results + Frames(s.buf) + rest;
    assert Answered(s).results + (Frames(Answered(s).buf) + rest) == Answered(s).results + Frames(Answered(s).buf) + rest;
  }

  const START := Session([], [], 0)

  /**
   Chunking independence: a run polled until nothing is whole has answered exactly the
   frames of what was pushed and holds exactly its tail, so the chunks do not show.
   */
  lemma PolledOut(ops: seq<Op>)
    requires !Whole(Run(START, ops).buf)
    ensures Run(START, ops).results == Frames(Pushed(ops))
    ensures Run(START, ops).buf == Tail(Pushed(ops))
  {
    hide Run, Whole;
    RunCutsTheStream(START, ops);
    assert START.buf + Pushed(ops) == Pushed(ops);
    var end := Run(START, ops);
    assert Frames(end.buf) == [];
    assert end.results + Frames(end.buf) == end.results;
    assert START.results + Frames(Pushed(ops)) == Frames(Pushed(ops));
  }

  /** No poll of the run comes while a fragment's header is half arrived. */
  predicate NeverPremature(s: Session, ops: seq<Op>)
    decreases |ops|
  {
    ops == [] || ((ops[0].Ask? ==> !Premature(s.buf)) && NeverPremature(Step(s, ops[0]), ops[1..]))
  }

  lemma {:induction false} EarlyCounts(s: Session, ops: seq<Op>)
    ensures Run(s, ops).early >= s.early
    ensures Run(s, ops).early == s.early <==> NeverPremature(s, ops)
    decreases |ops|
  {
    hide Poll, Premature, Frames;
    if ops != [] {
      EarlyCounts(Step(s, ops[0]), ops[1..]);
      if ops[0].Ask? {
        PollKeeps(s);
      }
    }
  }

  // ---- which streams can be polled too early --------------------------

  /** The header at the front is there, its primitive is known, and it is a fragment's. */
  predicate Fragment(s: seq<Byte>) {
    |s| >= COMMON_HEADER_LEN && PrimitiveOf(s[1]).Some? && FragmentFlag(s)
  }

  /** No frame of the stream is a fragment's, whatever else is wrong with it, and its incomplete end is not. */
  predicate Unfragmented(s: seq<Byte>) {
    !Fragment(s) && (Whole(s) ==> Unfragmented(s[FrameLen(s).value..]))
  }

  lemma {:induction false} TailIsNoFragment(past: seq<Byte>, later: seq<Byte>)
    requires Unfragmented(past + later)
    ensures !Fragment(Tail(past))
    decreases |past|
  {
    hide PrimitiveOf, FrameLen;
    if Whole(past) {
      WholeStays(past, later);
      WholeIsLong(past);
      TailIsNoFragment(past[FrameLen(past).value..], later);
    }
  }

  lemma PrematureIsFragment(buf: seq<Byte>)
    requires Premature(buf)
    ensures Fragment(Tail(buf))
  {
    hide PrimitiveOf;
    if Whole(buf) {
      PrematureIsPart(buf);
    }
  }

  lemma {:induction false} UnfragmentedIsNeverPremature(s: Session, past: seq<Byte>, ops: seq<Op>)
    requires Unfragmented(past + Pushed(ops)) && Tail(s.buf) == Tail(past)
    ensures NeverPremature(s, ops)
    decreases |ops|
  {
    hide Poll, Premature, Frames, Whole, Tail, Fragment, Unfragmented;
    if ops != [] {
      var later := Pushed(ops[1..]);
      match ops[0] {
        case Push(data) =>
          assert past + data + later == past + (data + later);
          FramesCompose(s.buf, data);
          FramesCompose(past, data);
          UnfragmentedIsNeverPremature(Step(s, ops[0]), past + data, ops[1..]);
        case Ask =>
          assert [] + later == later;
          TailIsNoFragment(past, later);
          if Premature(s.buf) {
            PrematureIsFragment(s.buf);
          }
          PollKeeps(s);
          UnfragmentedIsNeverPremature(Step(s, ops[0]), past, ops[1..]);
      }
    }
  }

  lemma FragmentIsPremature(s: seq<Byte>)
    requires Fragment(s)
    ensures Premature(s[..COMMON_HEADER_LEN])
  {
    hide PrimitiveOf;
  }

  lemma FrameIsWhole(s: seq<Byte>)
    requires Whole(s)
    ensures var frame := s[..FrameLen(s).value];
            Whole(frame) && FrameLen(frame) == FrameLen(s) && frame[FrameLen(s).value..] == []
  {
    hide PrimitiveOf, U16OfBytes;
  }

  /** The whole first frame, pushed alone and asked for, leaves the buffer empty. */
  lemma FrameLeavesNothing(q: Session, s: seq<Byte>)
    requires q.buf == [] && Whole(s)
    ensures Step(Step(q, Push(s[..FrameLen(s).value])), Ask).buf == []
  {
    hide Parse, PrimitiveOf, U16OfBytes, Poll, ParseHeader, Premature, FrameLen, FragmentFlag;
    var frame := s[..FrameLen(s).value];
    assert [] + frame == frame;
    FrameIsWhole(s);
    PollTakesOneFrame(frame);
  }

  lemma PushedTwo(a: seq<Byte>, ops: seq<Op>)
    ensures Pushed([Push(a), Ask] + ops) == a + Pushed(ops)
  {
    var all := [Push(a), Ask] + ops;
    assert all[1..] == [Ask] + ops && all[1..][1..] == ops;
    assert [] + Pushed(ops) == Pushed(ops);
  }

  /** Pushing frame by frame and asking after the header of a fragment polls too early. */
  lemma {:induction false} FragmentShows(q: Session, s: seq<Byte>) returns (ops: seq<Op>)
    requires q.buf == [] && !Unfragmented(s)
    ensures Pushed(ops) == s && !NeverPremature(q, ops)
    decreases |s|
  {
    hide Poll, Premature, Frames, PrimitiveOf, FrameLen, U16OfBytes;
    var n := if Fragment(s) then COMMON_HEADER_LEN else FrameLen(s).value;
    var later: seq<Op>;
    if Fragment(s) {
      FragmentIsPremature(s);
      later := [Push(s[n..])];
      assert s[n..] + [] == s[n..];
    } else {
      WholeIsLong(s);
      FrameLeavesNothing(q, s);
      later := FragmentShows(Step(Step(q, Push(s[..n])), Ask), s[n..]);
    }
    ops := [Push(s[..n]), Ask] + later;
    PushedTwo(s[..n], later);
    assert s[..n] + s[n..] == s;
    assert ops[1..] == [Ask] + later && ops[1..][1..] == later;
    assert [] + s[..n] == s[..n];
  }

  /**
   The chunks and the moments of polling never show exactly for a stream without fragments,
   malformed frames or not: every stream with one has a run that draws an early error.
   */
  lemma EarlyAnswersAre(s: seq<Byte>)
    ensures (forall ops | Pushed(ops) == s :: Run(START, ops).early == 0) <==> Unfragmented(s)
  {
    hide Run, NeverPremature, Unfragmented, Pushed;
    if Unfragmented(s) {
      forall ops | Pushed(ops) == s ensures Run(START, ops).early == 0 {
        assert [] + Pushed(ops) == s;
        UnfragmentedIsNeverPremature(START, [], ops);
        EarlyCounts(START, ops);
      }
    } else {
      var ops := FragmentShows(START, s);
      EarlyCounts(START, ops);
    }
  }

  /** A fragment's frame, sixteen octets without a payload. */
  const FRAGMENT: seq<Byte> := [0x28, 1, 0, 0, 0, 0, 0, 1, 0, 1, 0, 1, 0, 0, 0, 0]

  const ONE_CHUNK: seq<Op> := [Push(FRAGMENT), Ask]
  const TWO_CHUNKS: seq<Op> := [Push(FRAGMENT[..12]), Ask, Push(FRAGMENT[12..]), Ask]

  /**
   Such a run: in one chunk the fragment draws its one error, and in two chunks with a poll
   between them it draws another one before.
   */
  lemma HalfAHeaderIsAnError()
    ensures Pushed(TWO_CHUNKS) == Pushed(ONE_CHUNK) == FRAGMENT && !Unfragmented(FRAGMENT)
    ensures Run(START, ONE_CHUNK) == Session([], [Parse(FRAGMENT)], 0)
    ensures Run(START, TWO_CHUNKS) == Session([], [Parse(FRAGMENT)], 1) && Parse(FRAGMENT).Err?
    ensures Poll(FRAGMENT[..12]).0.Err? && Poll(FRAGMENT[..12]).1 == FRAGMENT[..12]
  {
    hide Parse, ParseHeader, Poll, EchoOf, Run, Pushed, Unfragmented, Premature;
    FragmentPolls();
    var head, rest := FRAGMENT[..12], FRAGMENT[12..];
    RunFour(START, Push(head), Ask, Push(rest), Ask);
    RunTwo(START, Push(FRAGMENT), Ask);
    assert START.buf + FRAGMENT == FRAGMENT && START.buf + head == head && head + rest == FRAGMENT;
    assert START.results + [Parse(FRAGMENT)] == [Parse(FRAGMENT)];
    var early := Session(head, [], 1);
    assert Step(Step(START, Push(head)), Ask) == early;
    assert early.results + [Parse(FRAGMENT)] == [Parse(FRAGMENT)];
    PushedTwo(head, [Push(rest), Ask]);
    PushedTwo(rest, []);
    assert [Push(rest), Ask] + [] == [Push(rest), Ask];
    assert TWO_CHUNKS == [Push(head), Ask] + [Push(rest), Ask];
    PushedTwo(FRAGMENT, []);
    assert ONE_CHUNK + [] == ONE_CHUNK;
    NothingPushed();
    assert rest + [] == rest && FRAGMENT + [] == FRAGMENT;
  }

  lemma NothingPushed()
    ensures Pushed([]) == []
  {
  }

  lemma RunTwo(s: Session, a: Op, b: Op)
    ensures Run(s, [a, b]) == Step(Step(s, a), b)
  {
    hide Step;
    assert [a, b][1..] == [b] && [b][1..] == [];
    assert Run(Step(s, a), [b]) == Step(Step(s, a), b);
  }

  lemma RunFour(s: Session, a: Op, b: Op, c: Op, d: Op)
    ensures Run(s, [a, b, c, d]) == Step(Step(Step(Step(s, a), b), c), d)
  {
    hide Step;
    assert [a, b, c, d][1..] == [b, c, d] && [b, c, d][1..] == [c, d];
    RunTwo(Step(Step(s, a), b), c, d);
  }

  lemma FragmentPolls()
    ensures Premature(FRAGMENT[..12]) && !Premature(FRAGMENT) && !Unfragmented(FRAGMENT) && Parse(FRAGMENT).Err?
    ensures Poll(FRAGMENT[..12]) == (Err(ParseError(Truncated, Some(EchoOf(FRAGMENT[..12])))), FRAGMENT[..12])
    ensures Poll(FRAGMENT) == (Err(Parse(FRAGMENT).error), [])
  {
    hide Poll, EchoOf, U16OfBytes, U32OfBytes;
    assert FRAGMENT[0] / 8 % 2 == 1 && FRAGMENT[1] == 1 && FRAGMENT[2] == 0 && FRAGMENT[3] == 0;
    assert U16OfBytes(0, 0) == 0 by { NoPayload(); }
    PollTakesOneFrame(FRAGMENT[..12]);
    PollTakesOneFrame(FRAGMENT);
    assert FRAGMENT[..16] == FRAGMENT && FRAGMENT[16..] == [];
  }

  lemma NoPayload()
    ensures U16OfBytes(0, 0) == 0
  {
  }

  // ---- streams of written messages ------------------------------------

  predicate Writable(m: Message) {
    WellFormed(m) && ToBytes(m).Ok?
  }

  predicate AllWritable(s: seq<Message>) {
    s == [] || (Writable(s[0]) && AllWritable(s[1..]))
  }

  function Stream(s: seq<Message>): seq<Byte>
    requires AllWritable(s)
  {
    if s == [] then [] else ToBytes(s[0]).value + Stream(s[1..])
  }

  function Oks(s: seq<Message>): (r: seq<Result<Message, ParseError>>)
    ensures |r| == |s| && forall i :: 0 <= i < |s| ==> r[i] == Ok(s[i])
  {
    seq(|s|, i requires 0 <= i < |s| => Ok(s[i]))
  }

  /** A written message is one whole frame and never looks like a fragment. */
  lemma WrittenIsOneFrame(m: Message, rest: seq<Byte>)
    requires ToBytes(m).Ok?
    ensures var s := ToBytes(m).value + rest;
            Whole(s) && FrameLen(s).value == |ToBytes(m).value| && !FragmentFlag(s) && PrimitiveOf(s[1]).Some?
  {
    hide HeaderBytes, EncodeAll, ParseHeader, ToBytes, BytesOfU16, U16OfBytes;
    var body := EncodeAll(m.attributes);
    WrittenIs(m);
    HeaderOctets(m, |body|, body + rest);
    PrimitiveReads(m.primitive);
    var s := ToBytes(m).value + rest;
    assert s == HeaderBytes(m, |body|) + (body + rest);
    FlagsRead(m.version, m.responder, s[0]);
    PayloadReads(|body|, s[2], s[3]);
  }

  lemma PayloadReads(payloadLen: nat, hi: Byte, lo: Byte)
    requires payloadLen <= MAX_PAYLOAD_LEN && payloadLen % 4 == 0
    requires hi == payloadLen / 4 / 0x100 && lo == payloadLen / 4 % 0x100
    ensures U16OfBytes(hi, lo) * 4 == payloadLen
  {
  }

  lemma {:induction false} StreamFrames(s: seq<Message>, tail: seq<Byte>)
    requires AllWritable(s) && !Whole(tail)
    ensures Frames(Stream(s) + tail) == Oks(s)
    ensures Tail(Stream(s) + tail) == tail
  {
    hide Parse, ToBytes, WellFormed, Whole, FrameLen;
    if s == [] {
      assert [] + tail == tail;
    } else {
      var b := ToBytes(s[0]).value;
      var rest := Stream(s[1..]) + tail;
      assert Stream(s) + tail == b + rest;
      WrittenIsOneFrame(s[0], rest);
      WriteThenRead(s[0], rest);
      assert (b + rest)[..|b|] == b && (b + rest)[|b|..] == rest;
      StreamFrames(s[1..], tail);
      assert Oks(s) == [Ok(s[0])] + Oks(s[1..]);
    }
  }

  /**
   The framer undoes serialization: push the octets of any well-formed messages and the
   start of another in any chunks, poll at any moments, and what has been answered plus
   what further polls will answer is those messages in order. Once polled out, exactly
   the messages are out and exactly the incomplete octets are pending.
   */
  lemma FramerUndoesWriting(s: seq<Message>, tail: seq<Byte>, ops: seq<Op>)
    requires AllWritable(s) && !Whole(tail) && Pushed(ops) == Stream(s) + tail
    ensures var end := Run(START, ops);
            && end.results + Frames(end.buf) == Oks(s)
            && (!Whole(end.buf) ==> end.results == Oks(s) && end.buf == tail)
  {
    hide Run, Whole, Stream, AllWritable;
    RunCutsTheStream(START, ops);
    StreamFrames(s, tail);
    assert START.buf + Pushed(ops) == Pushed(ops);
    assert START.results + Oks(s) == Oks(s);
    if !Whole(Run(START, ops).buf) {
      PolledOut(ops);
    }
  }

  lemma PartIsIncomplete(whole: seq<Byte>, part: seq<Byte>)
    requires Whole(whole) && !FragmentFlag(whole) && part <= whole && |part| < FrameLen(whole).value
    ensures !Whole(part) && !Fragment(part)
  {
    hide PrimitiveOf, U16OfBytes;
  }

  /** However a stream of written messages is cut off, there is no fragment in it. */
  lemma {:induction false} WrittenIsUnfragmented(s: seq<Message>, part: seq<Byte>)
    requires AllWritable(s) && part <= Stream(s)
    ensures Unfragmented(part)
    decreases |s|
  {
    hide Parse, ToBytes, WellFormed, FrameLen;
    if s != [] {
      var b := ToBytes(s[0]).value;
      var stream := b + Stream(s[1..]);
      WrittenIsOneFrame(s[0], Stream(s[1..]));
      if |part| >= |b| {
        WrittenIsOneFrame(s[0], part[|b|..]);
        assert part == b + part[|b|..];
        assert part[|b|..] <= stream[|b|..] == Stream(s[1..]);
        WrittenIsUnfragmented(s[1..], part[|b|..]);
      } else {
        PartIsIncomplete(stream, part);
      }
    }
  }

  /** Over a stream of written messages, whole or cut off, no poll however early reports an error. */
  lemma WrittenIsNeverPremature(msgs: seq<Message>, ops: seq<Op>)
    requires AllWritable(msgs) && Pushed(ops) <= Stream(msgs)
    ensures Run(START, ops).early == 0
  {
    hide Run, Unfragmented, Pushed, Stream, AllWritable;
    WrittenIsUnfragmented(msgs, Pushed(ops));
    EarlyAnswersAre(Pushed(ops));
  }

  /** A stream is its frames' octets and the tail: nothing is lost, and no frame reaches into another. */
  function FrameOctets(s: seq<Byte>): nat {
    if !Whole(s) then 0 else FrameLen(s).value + FrameOctets(s[FrameLen(s).value..])
  }

  lemma {:induction false} OctetsAreConserved(s: seq<Byte>)
    ensures |s| == FrameOctets(s) + |Tail(s)|
    ensures Tail(s) == s[FrameOctets(s)..]
  {
    hide FrameLen;
    if Whole(s) {
      WholeIsLong(s);
      OctetsAreConserved(s[FrameLen(s).value..]);
    }
  }

  /**
   What a frame holds moves nothing after it: with the same header and another payload, good or
   bad, only the frame's own result differs, and the other frames and the tail are the same.
   */
  lemma PayloadMovesNothing(before: seq<Byte>, s: seq<Byte>, t: seq<Byte>)
    requires Tail(before) == [] && Whole(s) && |t| == |s| && t[..COMMON_HEADER_LEN] == s[..COMMON_HEADER_LEN]
    requires t[FrameLen(s).value..] == s[FrameLen(s).value..]
    ensures var n, i := FrameLen(s).value, |Frames(before)|;
            && i < |Frames(before + s)| == |Frames(before + t)|
            && Frames(before + s)[i] == Parse(s[..n]) && Frames(before + t)[i] == Parse(t[..n])
            && (forall j :: 0 <= j < |Frames(before + s)| && j != i ==> Frames(before + t)[j] == Frames(before + s)[j])
            && Tail(before + t) == Tail(before + s)
  {
    hide Parse, FrameLen, FragmentFlag, Frames, Tail, Whole;
    FrameLengthIsInHeader(s, t);
    FramesCompose(before, s);
    FramesCompose(before, t);
    assert [] + s == s && [] + t == t;
    FirstFrame(s);
    FirstFrame(t);
  }

  lemma FirstFrame(s: seq<Byte>)
    requires Whole(s)
    ensures var n := FrameLen(s).value;
            Frames(s) == [Parse(s[..n])] + Frames(s[n..]) && Tail(s) == Tail(s[n..])
  {
    hide Parse, FrameLen;
  }

  lemma FrameLengthIsInHeader(s: seq<Byte>, t: seq<Byte>)
    requires Whole(s) && |t| == |s| && t[..COMMON_HEADER_LEN] == s[..COMMON_HEADER_LEN]
    ensures Whole(t) && FrameLen(t) == FrameLen(s)
  {
    hide PrimitiveOf, U16OfBytes;
    assert forall i :: 0 <= i < 4 ==> t[i] == t[..COMMON_HEADER_LEN][i] == s[i];
  }
}
