/**
 Exactly which octets are read as a message, told from the octets alone, and which error code
 answers the others. What is read need not be what the writer would write: values may be longer
 than they have to be, and the padding of the last attribute may be cut short.
 */
module ReadableOctets {
  import opened Wrappers
  import opened Octets
  import opened Utf8
  import opened Messages
  import opened RoundTrip
  import opened MandatoryAttributes

  // ---- what rewriting takes -------------------------------------------

  /** How many octets the attribute would take, unpadded, if it were written again. */
  function RewrittenValue(t: Byte, value: seq<Byte>): nat
    decreases |value|, 1
  {
    if 1 <= t <= 5 then 4
    else if t in [7, 8, 9, 12, 13] then 2 + |TextValue(value)|
    else if 14 <= t <= 18 then 4 + if |value| >= 2 then Rewritten(value[2..]) else 0
    else 2 + |value|
  }

  /** How many octets all of them would take. */
  function Rewritten(data: seq<Byte>): nat
    decreases |data|, 0
  {
    if |data| < 2 || !(2 <= data[1] <= |data|) then 0
    else Pad4(RewrittenValue(data[0] / 2, data[2..data[1]])) + Rewritten(Rest(data))
  }

  // ---- what can be read -----------------------------------------------

  /** A value of its type: long enough, a status in its range, a group within four levels. */
  predicate ReadableValue(t: Byte, value: seq<Byte>, depth: nat)
    decreases |value|, 1
  {
    && (1 <= t <= 5 ==> |value| >= 2)
    && (t == 5 ==> 1 <= value[0] <= 7)
    && (t == 6 ==> |value| >= 1)
    && (14 <= t <= 18 ==> depth < 4 && |value| >= 2 && Readable(value[2..], depth + 1))
  }

  /** Attributes end to end, each of a readable value and not too long to be written again. */
  predicate Readable(data: seq<Byte>, depth: nat)
    decreases |data|, 0
  {
    data == [] ||
    (&& |data| >= 2 && 2 <= data[1] <= |data|
     && ReadableValue(data[0] / 2, data[2..data[1]], depth)
     && RewrittenValue(data[0] / 2, data[2..data[1]]) <= 255
     && Readable(Rest(data), depth))
  }

  lemma {:induction false} ReadsExactlyWhen(data: seq<Byte>, depth: nat)
    ensures ParseAttributes(data, depth).Ok? <==> Readable(data, depth)
    ensures ParseAttributes(data, depth).Ok? ==>
              var s := ParseAttributes(data, depth).value.attributes;
              AllFit(s) && PaddedSum(s) == Rewritten(data)
    decreases |data|, 2
  {
    hide ParseValue, UnpaddedLen, Fits, RewrittenValue, ReadableValue, Pad4;
    if |data| >= 2 && 2 <= data[1] <= |data| {
      ValueReadsExactlyWhen(data[0] / 2, data[0] % 2 == 1, data[2..data[1]], depth);
      ReadsExactlyWhen(Rest(data), depth);
    }
  }

  lemma {:induction false} ValueReadsExactlyWhen(t: Byte, mandatory: bool, value: seq<Byte>, depth: nat)
    requires t < 0x80
    ensures ParseValue(t, mandatory, value, depth).Ok? <==> ReadableValue(t, value, depth)
    ensures ParseValue(t, mandatory, value, depth).Ok? ==>
              var s := ParseValue(t, mandatory, value, depth).value.attributes;
              && |s| == 1 && UnpaddedLen(s[0]) == RewrittenValue(t, value)
              && (AllFit(s) <==> RewrittenValue(t, value) <= 255)
    decreases |value|, 3
  {
    hide ParseAttributes, PriorityOf, CodeOf, TextValue, PaddedSum, Rewritten, Readable;
    if 14 <= t <= 18 && |value| >= 2 {
      ReadsExactlyWhen(value[2..], depth + 1);
    }
  }

  /** The number of octets a header says the payload has. */
  function Stated(data: seq<Byte>): nat
    requires |data| >= 12
  {
    4 * ((data[2] as int) * 256 + data[3] as int)
  }

  predicate Known(data: seq<Byte>)
    requires |data| >= 12
  {
    1 <= data[1] <= 17
  }

  /** The fragment bit, the fourth of the first octet from its end. */
  predicate Part(data: seq<Byte>)
    requires |data| >= 12
  {
    data[0] % 16 >= 8
  }

  /** The attributes' octets are all there. */
  predicate Arrived(data: seq<Byte>)
    requires |data| >= 12
  {
    |data| >= 12 + Stated(data)
  }

  /**
   The message at the front is read exactly when the header is there with a known primitive and
   without the fragment bit, the payload it states is there, its attributes read, and none of them
   is mandatory and not understood; and octets are read as one message when nothing follows.
   */
  lemma MessageReadsExactlyWhen(data: seq<Byte>)
    ensures ParsePrefix(data).Ok? <==>
            && |data| >= 12 && Known(data) && !Part(data) && Arrived(data)
            && Readable(data[12..12 + Stated(data)], 0) && NotUnderstood(data[12..12 + Stated(data)]) == []
    ensures ParsePrefix(data).Ok? ==> ParsePrefix(data).value.1 == 12 + Stated(data)
    ensures Parse(data).Ok? <==> ParsePrefix(data).Ok? && |data| == 12 + Stated(data)
    ensures Parse(data).Ok? ==> Parse(data).value == ParsePrefix(data).value.0
  {
    hide ParseAttributes, EchoOf, PrimitiveOf, NotUnderstood, Readable;
    if |data| >= 12 {
      HeaderBits(data);
      if Arrived(data) {
        ReadsExactlyWhen(data[12..12 + Stated(data)], 0);
        if ParseAttributes(data[12..12 + Stated(data)], 0).Ok? {
          ListedExactly(data[12..12 + Stated(data)], 0);
        }
      }
    }
  }

  lemma HeaderBits(data: seq<Byte>)
    requires |data| >= 12
    ensures PayloadLen(data) == Stated(data) && (FragmentFlag(data) <==> Part(data))
    ensures PrimitiveOf(data[1]).Some? <==> Known(data)
  {
    hide PrimitiveOf;
    FourthBit(data[0]);
  }

  /** Every field of a header, by its octets; three bits of the first are ignored. */
  lemma HeaderByOctets(data: seq<Byte>)
    requires |data| >= 12 && Known(data) && (Part(data) ==> |data| >= 16)
    ensures ParseHeader(data).Ok?
    ensures var (h, d) := (ParseHeader(data).value, data);
            && h.version == d[0] / 32 && (h.responder <==> d[0] % 32 >= 16)
            && h.primitive.AsU8() == d[1] && h.payloadLen == Stated(d)
            && h.conferenceId == ((d[4] as int * 256 + d[5] as int) * 256 + d[6] as int) * 256 + d[7] as int
            && h.transactionId == d[8] as int * 256 + d[9] as int && h.userId == d[10] as int * 256 + d[11] as int
            && h.fragment == if Part(d) then Some((d[12] as int * 256 + d[13] as int, d[14] as int * 256 + d[15] as int))
                             else None
  {
    hide PrimitiveOf;
    HeaderBits(data);
    FifthBit(data[0]);
  }

  lemma FifthBit(b: Byte)
    ensures b / 16 % 2 == 1 <==> b % 32 >= 16
  {
  }

  // ---- what the others are answered with ------------------------------

  /** The first thing wrong with one value, if anything. */
  function FaultIn(t: Byte, value: seq<Byte>, depth: nat): Option<ErrorKind>
    decreases |value|, 1
  {
    if 14 <= t <= 18 && depth < 4 && |value| >= 2 then Fault(value[2..], depth + 1)
    else if !ReadableValue(t, value, depth) then Some(BadAttributeValue(t))
    else None
  }

  /** The first thing wrong with the attributes, if anything: a lone octet, a length, or a value. */
  function Fault(data: seq<Byte>, depth: nat): Option<ErrorKind>
    decreases |data|, 0
  {
    if data == [] then None
    else if |data| == 1 then Some(Truncated)
    else if !(2 <= data[1] <= |data|) then Some(BadAttributeLength(data[0] / 2))
    else if FaultIn(data[0] / 2, data[2..data[1]], depth).Some? then FaultIn(data[0] / 2, data[2..data[1]], depth)
    else if RewrittenValue(data[0] / 2, data[2..data[1]]) > 255 then Some(BadAttributeLength(data[0] / 2))
    else Fault(Rest(data), depth)
  }

  lemma {:induction false} FaultExactly(data: seq<Byte>, depth: nat)
    ensures Fault(data, depth) ==
            match ParseAttributes(data, depth) case Ok(_) => None case Err(kind) => Some(kind)
    decreases |data|, 2
  {
    hide ParseValue, AllFit, FaultIn, RewrittenValue, ReadableValue;
    if |data| >= 2 && 2 <= data[1] <= |data| {
      ValueReadsExactlyWhen(data[0] / 2, data[0] % 2 == 1, data[2..data[1]], depth);
      FaultInExactly(data[0] / 2, data[0] % 2 == 1, data[2..data[1]], depth);
      FaultExactly(Rest(data), depth);
    }
  }

  lemma {:induction false} FaultInExactly(t: Byte, mandatory: bool, value: seq<Byte>, depth: nat)
    requires t < 0x80
    ensures FaultIn(t, value, depth) ==
            match ParseValue(t, mandatory, value, depth) case Ok(_) => None case Err(kind) => Some(kind)
    decreases |value|, 3
  {
    hide ParseAttributes, PriorityOf, CodeOf, TextValue, Fault, Readable;
    if 14 <= t <= 18 && |value| >= 2 {
      FaultExactly(value[2..], depth + 1);
      ReadsExactlyWhen(value[2..], depth + 1);
    }
  }

  /** Why octets with a header are not read. */
  function Why(data: seq<Byte>): ErrorKind
    requires |data| >= 12
  {
    if !Known(data) then BadPrimitive(data[1])
    else if Part(data) then (if |data| < 16 then Truncated else Fragmented)
    else if !Arrived(data) then Truncated
    else
      var payload := data[12..12 + Stated(data)];
      if Fault(payload, 0).Some? then Fault(payload, 0).value
      else if NotUnderstood(payload) != [] then UnknownMandatory(NotUnderstood(payload))
      else TrailingBytes(|data| - 12 - Stated(data))
  }

  /** Octets that are not read are refused for what is first wrong with them. */
  lemma ErrorTellsWhy(data: seq<Byte>)
    requires Parse(data).Err?
    ensures Parse(data).error ==
            if |data| < 12 then ParseError(Truncated, None) else ParseError(Why(data), Some(EchoOf(data)))
  {
    hide ParseAttributes, EchoOf, PrimitiveOf, NotUnderstood, Fault;
    if |data| >= 12 {
      HeaderBits(data);
      if Arrived(data) {
        FaultExactly(data[12..12 + Stated(data)], 0);
        if ParseAttributes(data[12..12 + Stated(data)], 0).Ok? {
          ListedExactly(data[12..12 + Stated(data)], 0);
        }
      }
    }
  }

  /** Why octets with a header are not read, as a number on the wire. */
  function Refusing(data: seq<Byte>): Byte
    requires |data| >= 12
  {
    if !Known(data) then 3
    else if Part(data) then (if |data| < 16 then 13 else 10)
    else if !Arrived(data) then 13
    else
      var payload := data[12..12 + Stated(data)];
      if Fault(payload, 0).Some? then (if Fault(payload, 0) == Some(Truncated) then 13 else 10)
      else if NotUnderstood(payload) != [] then 4
      else 13
  }

  /** Octets that are not read have their header's transaction and the code that tells why. */
  lemma CodeTellsWhy(data: seq<Byte>)
    requires Parse(data).Err?
    ensures Parse(data).error.echo.Some? <==> |data| >= 12
    ensures |data| >= 12 ==> Parse(data).error.ErrorCode().AsU8() == Refusing(data)
  {
    hide Parse, EchoOf, NotUnderstood, Fault;
    ErrorTellsWhy(data);
    if |data| >= 12 && Arrived(data) {
      FaultIsOfThree(data[12..12 + Stated(data)], 0);
    }
  }

  /** What can be wrong with attributes: they end too soon, or a length or a value is wrong. */
  lemma {:induction false} FaultIsOfThree(data: seq<Byte>, depth: nat)
    ensures Fault(data, depth).Some? ==>
              var e := Fault(data, depth).value;
              e.Truncated? || e.BadAttributeLength? || e.BadAttributeValue?
    decreases |data|
  {
    hide ReadableValue, RewrittenValue;
    if |data| >= 2 && 2 <= data[1] <= |data| {
      if data[1] >= 4 {
        FaultIsOfThree(data[2..data[1]][2..], depth + 1);
      }
      FaultIsOfThree(Rest(data), depth);
    }
  }

  // ---- longer values --------------------------------------------------

  /** Of an id, a priority or a status only the first two octets are read. */
  lemma RestIsIgnored(t: Byte, mandatory: bool, value: seq<Byte>, depth: nat)
    requires 1 <= t <= 5 && |value| >= 2
    ensures ParseValue(t, mandatory, value, depth) == ParseValue(t, mandatory, value[..2], depth)
  {
    hide PriorityOf, StatusOf;
  }

  /** A priority is the upper three bits of its octet, and no more than the highest. */
  lemma PriorityReads(mandatory: bool, value: seq<Byte>, depth: nat)
    requires |value| >= 2
    ensures var r := ParseValue(4, mandatory, value, depth);
            && r.Ok? && |r.value.attributes| == 1 && r.value.attributes[0].PriorityAttr?
            && r.value.attributes[0].priority.AsU8() == (if value[0] >= 128 then 4 else value[0] / 32)
  {
    hide PriorityOf;
    var p := PriorityOf(value[0] / 32);
  }
}
