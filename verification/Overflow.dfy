/**
 The one way a message that was read cannot be written again. Text that is not UTF-8 is read
 as replacement characters, three octets for one, so a long enough stream frame of it
 outgrows the payload length: these frames are read, and writing them back is refused.
 */
module Overflow {
  import opened Wrappers
  import opened Octets
  import opened Utf8
  import opened Messages
  import opened RoundTrip

  /** The invalid octets in each attribute of the frame. */
  const JUNK := 82

  function Invalid(k: nat): (s: seq<Byte>)
    ensures |s| == k && forall i :: 0 <= i < k ==> s[i] == 0xFF
  {
    seq(k, _ => 0xFF)
  }

  function Replaced(k: nat): (s: seq<Byte>)
    ensures |s| == 3 * k
  {
    if k == 0 then [] else REPLACEMENT + Replaced(k - 1)
  }

  lemma {:induction false} InvalidIsReplaced(k: nat)
    ensures Lossy(Invalid(k)) == Replaced(k) && ValidUtf8(Replaced(k))
  {
    if k > 0 {
      assert FirstChunk(Invalid(k)) == Chunk(1, false);
      assert Invalid(k)[1..] == Invalid(k - 1);
      InvalidIsReplaced(k - 1);
    }
    LossyIsValid(Invalid(k));
  }

  /** An ERROR-INFO of `k` invalid octets on the wire. */
  function Block(k: nat): seq<Byte>
    requires k <= MAX_VALUE_LEN
  {
    [15, 2 + k] + Invalid(k)
  }

  function Blocks(k: nat, n: nat): seq<Byte>
    requires k <= MAX_VALUE_LEN
  {
    if n == 0 then [] else Block(k) + Blocks(k, n - 1)
  }

  function Copies(a: Attribute, n: nat): seq<Attribute> {
    if n == 0 then [] else [a] + Copies(a, n - 1)
  }

  function Info(k: nat): Attribute {
    TextAttr(ErrorInfo, TextValue(Invalid(k)))
  }

  lemma InfoIs(k: nat)
    requires 3 * k <= MAX_VALUE_LEN
    ensures |TextValue(Invalid(k))| == 3 * k && UnpaddedLen(Info(k)) == 2 + 3 * k && Fits(Info(k))
  {
    hide Lossy, Replaced, ValidUtf8;
    InvalidIsReplaced(k);
  }

  lemma BlockReads(k: nat, rest: seq<Byte>)
    requires 3 * k <= MAX_VALUE_LEN && Pad4(2 + k) == 2 + k
    ensures var data := Block(k) + rest;
            ParseAttribute(data, 0) == Ok(Parsed([Info(k)], [])) && Rest(data) == rest
  {
    hide Lossy, TextValue, ValidUtf8, ParseAttribute, ParseAttributes, Fits;
    var data := Block(k) + rest;
    InfoIs(k);
    assert data[2..data[1]] == Invalid(k);
    assert data[2 + k..] == rest;
    ReadFirst(data, Info(k), 0);
  }

  lemma {:induction false} BlocksRead(k: nat, n: nat)
    requires 3 * k <= MAX_VALUE_LEN && Pad4(2 + k) == 2 + k
    ensures |Blocks(k, n)| == (2 + k) * n
    ensures ParseAttributes(Blocks(k, n), 0) == Ok(Parsed(Copies(Info(k), n), []))
  {
    hide ParseAttribute, TextValue, Rest;
    if n > 0 {
      BlocksRead(k, n - 1);
      BlockReads(k, Blocks(k, n - 1));
      ReadStep(Blocks(k, n), Info(k), Copies(Info(k), n - 1), 0);
      assert (2 + k) * n == (2 + k) * (n - 1) + (2 + k);
    }
  }

  lemma {:induction false} CopiesTake(a: Attribute, n: nat)
    ensures PaddedSum(Copies(a, n)) == n * PaddedLen(a)
  {
    hide UnpaddedLen, Pad4;
    if n > 0 {
      CopiesTake(a, n - 1);
      assert Copies(a, n)[1..] == Copies(a, n - 1);
    }
  }

  /** A message of `n` such attributes, as it is read. */
  function Content(k: nat, n: nat): Message {
    Message(VERSION_RELIABLE, false, Error, 1, 1, 1, Copies(Info(k), n))
  }

  /** A frame of `n` such attributes, as its octets arrive. */
  function Frame(k: nat, n: nat): seq<Byte>
    requires k <= MAX_VALUE_LEN && (2 + k) * n <= MAX_PAYLOAD_LEN
  {
    HeaderBytes(Content(k, n).(attributes := []), (2 + k) * n) + Blocks(k, n)
  }

  lemma FrameReads(k: nat, n: nat)
    requires 3 * k <= MAX_VALUE_LEN && Pad4(2 + k) == 2 + k && (2 + k) * n <= MAX_PAYLOAD_LEN && (2 + k) * n % 4 == 0
    ensures Parse(Frame(k, n)) == Ok(Content(k, n)) && |Frame(k, n)| == COMMON_HEADER_LEN + (2 + k) * n
    ensures ToBytes(Content(k, n)).Err? <==> n * Pad4(2 + 3 * k) > MAX_PAYLOAD_LEN
    ensures ToBytes(Content(k, n)).Err? ==> ToBytes(Content(k, n)).error == PayloadTooLong
  {
    hide HeaderBytes, Blocks, Copies, Info, ToBytes, ParsePrefix, ParseAttributes, Pad4, UnpaddedLen;
    BlocksRead(k, n);
    var body, m := Blocks(k, n), Content(k, n);
    ReadWritten(m, body, []);
    SameHeader(m, (2 + k) * n);
    assert body + [] == body;
    InfoIs(k);
    CopiesTake(Info(k), n);
    ReadIsWellFormed(Frame(k, n), m);
  }

  /**
   Every frame of 1058 to 3120 attributes of 82 invalid octets is read and cannot be written again,
   although it was within the payload length itself.
   */
  lemma ReadButNotWritten(n: nat)
    requires 1058 <= n <= 3120
    ensures Parse(Frame(JUNK, n)) == Ok(Content(JUNK, n))
    ensures ToBytes(Content(JUNK, n)) == Err(PayloadTooLong)
  {
    hide Frame, Content, ToBytes, Parse;
    FrameReads(JUNK, n);
  }

  lemma SameHeader(m: Message, payloadLen: nat)
    requires payloadLen <= MAX_PAYLOAD_LEN
    ensures HeaderBytes(m, payloadLen) == HeaderBytes(m.(attributes := []), payloadLen)
  {
  }
}
