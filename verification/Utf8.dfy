/**
 Text on the wire. A Rust `String` is its UTF-8 octets, so a text is the octet
 sequences that section 4 of RFC 3629 allows, and its length is counted in octets.
 What arrives is decoded lossily and then cut to what a length octet can carry.
 */
module Utf8 {
  import opened Octets

  const REPLACEMENT: seq<Byte> := [0xEF, 0xBF, 0xBD]

  /** The longest value an attribute's 8-bit length leaves room for. */
  const MAX_VALUE_LEN := 253

  predicate IsTail(b: Byte) {
    0x80 <= b <= 0xBF
  }

  /**
   The length of the character of RFC 3629, section 4, at the front of `s`; 0 when none stands there.
   */
  function CharLen(s: seq<Byte>): (n: nat)
    ensures n <= 4 && n <= |s|
  {
    if |s| >= 1 && s[0] <= 0x7F then 1
    else if |s| >= 2 && 0xC2 <= s[0] <= 0xDF && IsTail(s[1]) then 2
    else if |s| >= 3 && IsTail(s[2]) &&
            (|| (s[0] == 0xE0 && 0xA0 <= s[1] <= 0xBF)
             || (0xE1 <= s[0] <= 0xEC && IsTail(s[1]))
             || (s[0] == 0xED && 0x80 <= s[1] <= 0x9F)
             || (0xEE <= s[0] <= 0xEF && IsTail(s[1]))) then 3
    else if |s| >= 4 && IsTail(s[2]) && IsTail(s[3]) &&
            (|| (s[0] == 0xF0 && 0x90 <= s[1] <= 0xBF)
             || (0xF1 <= s[0] <= 0xF3 && IsTail(s[1]))
             || (s[0] == 0xF4 && 0x80 <= s[1] <= 0x8F)) then 4
    else 0
  }

  predicate ValidUtf8(s: seq<Byte>) {
    s == [] || (CharLen(s) > 0 && ValidUtf8(s[CharLen(s)..]))
  }

  type Text = s: seq<Byte> | ValidUtf8(s) witness []

  // ---- lossy decoding, as the standard library scans ------------------

  /** The octet at `i`, 0 past the end. */
  function At(s: seq<Byte>, i: nat): Byte {
    if i < |s| then s[i] else 0
  }

  /** How long a character a first octet announces; 0 when it starts none. */
  function Width(b: Byte): nat {
    if b < 0x80 then 1
    else if 0xC2 <= b <= 0xDF then 2
    else if 0xE0 <= b <= 0xEF then 3
    else if 0xF0 <= b <= 0xF4 then 4
    else 0
  }

  predicate SecondAllowed(first: Byte, second: Byte) {
    if first == 0xE0 then 0xA0 <= second <= 0xBF
    else if first == 0xED then 0x80 <= second <= 0x9F
    else if first == 0xF0 then 0x90 <= second <= 0xBF
    else if first == 0xF4 then 0x80 <= second <= 0x8F
    else IsTail(second)
  }

  datatype Chunk = Chunk(len: nat, ok: bool)

  /**
   One step of the scan: a whole character, or the longest start of one that
   cannot be continued, which a single replacement character stands for.
   */
  function FirstChunk(s: seq<Byte>): (c: Chunk)
    requires s != []
    ensures 1 <= c.len <= |s|
    ensures c.ok <==> CharLen(s) > 0
    ensures c.ok ==> c.len == CharLen(s)
  {
    var w := Width(s[0]);
    if w == 0 then Chunk(1, false)
    else if w == 1 then Chunk(1, true)
    else if !SecondAllowed(s[0], At(s, 1)) then Chunk(1, false)
    else if w == 2 then Chunk(2, true)
    else if !IsTail(At(s, 2)) then Chunk(2, false)
    else if w == 3 then Chunk(3, true)
    else if !IsTail(At(s, 3)) then Chunk(3, false)
    else Chunk(4, true)
  }

  function Lossy(v: seq<Byte>): seq<Byte> {
    if v == [] then []
    else
      var c := FirstChunk(v);
      (if c.ok then v[..c.len] else REPLACEMENT) + Lossy(v[c.len..])
  }

  /** A whole character before valid text is valid text. */
  lemma ValidPrepend(c: seq<Byte>, t: seq<Byte>)
    requires c != [] && CharLen(c) == |c| && ValidUtf8(t)
    ensures CharLen(c + t) == |c| && ValidUtf8(c + t)
  {
    assert (c + t)[..|c|] == c;
    assert (c + t)[|c|..] == t;
  }

  lemma {:induction false} LossyIsValid(v: seq<Byte>)
    ensures ValidUtf8(Lossy(v))
  {
    if v != [] {
      var c := FirstChunk(v);
      LossyIsValid(v[c.len..]);
      ValidPrepend(if c.ok then v[..c.len] else REPLACEMENT, Lossy(v[c.len..]));
    }
  }

  /** Decoding changes exactly the texts that are not UTF-8. */
  lemma {:induction false} LossyIdentity(v: seq<Byte>)
    ensures Lossy(v) == v <==> ValidUtf8(v)
  {
    LossyIsValid(v);
    if ValidUtf8(v) {
      LossyOfValid(v);
    }
  }

  lemma {:induction false} LossyOfValid(v: seq<Byte>)
    requires ValidUtf8(v)
    ensures Lossy(v) == v
  {
    if v != [] {
      LossyOfValid(v[CharLen(v)..]);
    }
  }

  /** Each octet replaced becomes at most three. */
  lemma {:induction false} LossyTriples(v: seq<Byte>)
    ensures |Lossy(v)| <= 3 * |v|
  {
    if v != [] {
      LossyTriples(v[FirstChunk(v).len..]);
    }
  }

  // ---- cutting at a character boundary --------------------------------

  predicate IsBoundary(s: seq<Byte>, k: nat)
    requires k <= |s|
  {
    k == 0 || k == |s| || !IsTail(s[k])
  }

  /** In valid text a boundary is exactly where cutting leaves valid text. */
  lemma {:induction false} BoundaryCutsValid(s: seq<Byte>, k: nat)
    requires ValidUtf8(s) && k <= |s|
    ensures IsBoundary(s, k) <==> ValidUtf8(s[..k])
  {
    if k == 0 || k == |s| {
      assert s[..|s|] == s && s[..0] == [];
    } else {
      var n := CharLen(s);
      if k < n {
        InsideCharacter(s, k);
      } else {
        BoundaryCutsValid(s[n..], k - n);
        assert s[..n] + s[n..][..k - n] == s[..k];
        assert CharLen(s[..n]) == n && CharLen(s[..k]) == n;
        assert s[..k][n..] == s[n..][..k - n];
        if k == n {
          NextStarts(s[n..]);
        } else {
          assert s[k] == s[n..][k - n];
        }
      }
    }
  }

  lemma InsideCharacter(s: seq<Byte>, k: nat)
    requires 0 < k < CharLen(s)
    ensures IsTail(s[k]) && CharLen(s[..k]) == 0
  {
  }

  lemma NextStarts(s: seq<Byte>)
    requires CharLen(s) > 0
    ensures !IsTail(s[0])
  {
  }

  /** The last boundary at or below `k`. */
  function BoundaryBelow(s: seq<Byte>, k: nat): (b: nat)
    requires k <= |s|
    ensures b <= k && IsBoundary(s, b)
    ensures forall j :: b < j <= k ==> !IsBoundary(s, j)
  {
    if IsBoundary(s, k) then k else BoundaryBelow(s, k - 1)
  }

  /** What a text attribute's value reads as. */
  function TextValue(v: seq<Byte>): (t: Text)
    ensures |t| <= MAX_VALUE_LEN
  {
    LossyIsValid(v);
    var s := Lossy(v);
    if |s| <= MAX_VALUE_LEN then s
    else
      var cut := BoundaryBelow(s, MAX_VALUE_LEN);
      BoundaryCutsValid(s, cut);
      s[..cut]
  }

  /**
   The value read is the longest text within the limit that the decoded octets
   begin with, and it is the octets themselves exactly when they are text that fits.
   */
  lemma TextValueIsLongest(v: seq<Byte>, p: seq<Byte>)
    requires p <= Lossy(v) && ValidUtf8(p) && |p| <= MAX_VALUE_LEN
    ensures p <= TextValue(v) <= Lossy(v)
  {
    LossyIsValid(v);
    var s := Lossy(v);
    assert p == s[..|p|];
    BoundaryCutsValid(s, |p|);
    if |s| > MAX_VALUE_LEN {
      assert |p| <= BoundaryBelow(s, MAX_VALUE_LEN);
    }
  }

  lemma TextValueIdentity(v: seq<Byte>)
    ensures TextValue(v) == v <==> ValidUtf8(v) && |v| <= MAX_VALUE_LEN
  {
    if ValidUtf8(v) {
      LossyOfValid(v);
    }
  }

  method TextOf(v: seq<Byte>) returns (s: seq<Byte>)
    ensures s == TextValue(v)
  {
    s := Lossy(v);
    if |s| > MAX_VALUE_LEN {
      var cut := MAX_VALUE_LEN;
      while !IsBoundary(s, cut)
        invariant 0 <= cut <= MAX_VALUE_LEN
        invariant BoundaryBelow(s, cut) == BoundaryBelow(s, MAX_VALUE_LEN)
        decreases cut
      {
        cut := cut - 1;
      }
      s := s[..cut];
    }
  }
}
