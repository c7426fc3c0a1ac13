/**
 UTF-8 (RFC 3629, section 4) as dead letters pass through it: a message is decoded with malformed
 bytes replaced, and a replay encodes the text again.
 */
module Utf8 {

  type Byte = n: int | 0 <= n < 256

  type Bytes = seq<Byte>

  // ---------------------------------------------------------------- encoding

  function EncodeChar(c: char): Bytes {
    var n := c as int;
    if n < 0x80 then [n]
    else if n < 0x800 then [0xC0 + n / 64, 0x80 + n % 64]
    else if n < 0x10000 then [0xE0 + n / 4096, 0x80 + n / 64 % 64, 0x80 + n % 64]
    else [0xF0 + n / 262144, 0x80 + n / 4096 % 64, 0x80 + n / 64 % 64, 0x80 + n % 64]
  }

  function Encode(text: string): Bytes {
    if text == "" then [] else EncodeChar(text[0]) + Encode(text[1..])
  }

  // ---------------------------------------------------------------- well-formed bytes

  predicate Tail(b: Byte) { 0x80 <= b <= 0xBF }

  /** The second byte of a three-byte sequence: no overlong form, no surrogate. */
  predicate SecondOfThree(lead: Byte, b: Byte) {
    || (lead == 0xE0 && 0xA0 <= b <= 0xBF)
    || (lead == 0xED && 0x80 <= b <= 0x9F)
    || (0xE1 <= lead <= 0xEF && lead != 0xED && Tail(b))
  }

  /** The second byte of a four-byte sequence: no overlong form, nothing above U+10FFFF. */
  predicate SecondOfFour(lead: Byte, b: Byte) {
    || (lead == 0xF0 && 0x90 <= b <= 0xBF)
    || (0xF1 <= lead <= 0xF3 && Tail(b))
    || (lead == 0xF4 && 0x80 <= b <= 0x8F)
  }

  /** The length of the character the bytes start with, or 0 if they start with none. */
  function UnitLength(bytes: Bytes): (n: nat)
    ensures n <= |bytes|
  {
    if |bytes| >= 1 && bytes[0] < 0x80 then 1
    else if |bytes| >= 2 && 0xC2 <= bytes[0] <= 0xDF && Tail(bytes[1]) then 2
    else if |bytes| >= 3 && SecondOfThree(bytes[0], bytes[1]) && Tail(bytes[2]) then 3
    else if |bytes| >= 4 && SecondOfFour(bytes[0], bytes[1]) && Tail(bytes[2]) && Tail(bytes[3]) then 4
    else 0
  }

  predicate WellFormed(bytes: Bytes) {
    bytes == [] || (UnitLength(bytes) > 0 && WellFormed(bytes[UnitLength(bytes)..]))
  }

  // ---------------------------------------------------------------- decoding

  const REPLACEMENT := '\U{FFFD}'

  /** The scalar value of the character the bytes start with. */
  function ValueAt(bytes: Bytes): (n: int)
    requires UnitLength(bytes) > 0
    ensures 0 <= n < 0xD800 || 0xE000 <= n < 0x11_0000
  {
    var b0: int := bytes[0];
    if UnitLength(bytes) == 1 then b0
    else if UnitLength(bytes) == 2 then (b0 - 0xC0) * 64 + Six(bytes[1])
    else if UnitLength(bytes) == 3 then (b0 - 0xE0) * 4096 + Six(bytes[1]) * 64 + Six(bytes[2])
    else (b0 - 0xF0) * 262144 + Six(bytes[1]) * 4096 + Six(bytes[2]) * 64 + Six(bytes[3])
  }

  /** The six bits a tail byte carries. */
  function Six(b: Byte): int { b as int - 0x80 }

  function CharAt(bytes: Bytes): char
    requires UnitLength(bytes) > 0
  {
    ValueAt(bytes) as char
  }

  /** How many malformed bytes one replacement character stands for. */
  function Skipped(bytes: Bytes): (n: nat)
    requires bytes != []
    ensures 1 <= n <= |bytes|
  {
    if |bytes| >= 3 && SecondOfFour(bytes[0], bytes[1]) && Tail(bytes[2]) then 3
    else if |bytes| >= 2 && (SecondOfThree(bytes[0], bytes[1]) || SecondOfFour(bytes[0], bytes[1])) then 2
    else 1
  }

  /** `decode("utf-8", errors="replace")`. */
  function Decode(bytes: Bytes): string {
    if bytes == [] then ""
    else if UnitLength(bytes) > 0 then [CharAt(bytes)] + Decode(bytes[UnitLength(bytes)..])
    else [REPLACEMENT] + Decode(bytes[Skipped(bytes)..])
  }

  /** The bytes are the beginning of some character, but not all of it. */
  ghost predicate Begins(bytes: Bytes) { exists more: Bytes :: UnitLength(bytes + more) > |bytes| }

  /** One replacement character stands for the longest beginning of a character that is there, and for one
      byte if there is none. */
  lemma SkipsMaximalPart(bytes: Bytes)
    requires bytes != [] && UnitLength(bytes) == 0
    ensures var n := Skipped(bytes);
            && (n > 1 ==> Begins(bytes[..n]))
            && forall m | n < m <= |bytes| :: !Begins(bytes[..m])
  {
    var n := Skipped(bytes);
    if n > 1 {
      var tail: Bytes := [0x80, 0x80];
      assert (bytes[..n] + tail)[0] == bytes[0] && (bytes[..n] + tail)[1] == bytes[1];
      assert UnitLength(bytes[..n] + tail) > n;
    }
    forall m, more: Bytes | n < m <= |bytes|
      ensures UnitLength(bytes[..m] + more) <= m
    {
      assert forall i | 0 <= i < m :: (bytes[..m] + more)[i] == bytes[i];
    }
  }

  // ---------------------------------------------------------------- round trips

  lemma CharUnit(c: char, rest: Bytes)
    ensures UnitLength(EncodeChar(c) + rest) == |EncodeChar(c)| && CharAt(EncodeChar(c) + rest) == c
  {
    var n := c as int;
    assert n / 64 / 64 == n / 4096 && n / 4096 / 64 == n / 262144;
  }

  lemma Digits(a: int, b: int, c: int, d: int)
    requires 0 <= b < 64 && 0 <= c < 64 && 0 <= d < 64
    ensures var n := a * 262144 + b * 4096 + c * 64 + d;
            n / 262144 == a && n / 4096 % 64 == b && n / 64 % 64 == c && n % 64 == d
            && n / 64 == a * 4096 + b * 64 + c && n / 4096 == a * 64 + b
  {
    var n := a * 262144 + b * 4096 + c * 64 + d;
    assert n / 64 == a * 4096 + b * 64 + c;
    assert n / 4096 == a * 64 + b;
  }

  lemma UnitChar(bytes: Bytes)
    requires UnitLength(bytes) > 0
    ensures EncodeChar(CharAt(bytes)) == bytes[..UnitLength(bytes)]
  {
    var b0: int := bytes[0];
    match UnitLength(bytes) {
      case 1 => assert EncodeChar(CharAt(bytes)) == [bytes[0]];
      case 2 => Digits(0, 0, b0 - 0xC0, Six(bytes[1]));
      case 3 => Digits(0, b0 - 0xE0, Six(bytes[1]), Six(bytes[2]));
      case _ => Digits(b0 - 0xF0, Six(bytes[1]), Six(bytes[2]), Six(bytes[3]));
    }
  }

  /** Encoding yields well-formed bytes and decodes back to the text. */
  lemma {:induction false} EncodeRoundTrip(text: string)
    ensures WellFormed(Encode(text)) && Decode(Encode(text)) == text
  {
    if text != "" {
      EncodeRoundTrip(text[1..]);
      CharUnit(text[0], Encode(text[1..]));
      assert Encode(text)[|EncodeChar(text[0])|..] == Encode(text[1..]);
    }
  }

  lemma EncodeCons(c: char, rest: string)
    ensures Encode([c] + rest) == EncodeChar(c) + Encode(rest)
  {
    assert ([c] + rest)[1..] == rest;
  }

  /** Decoding the first character and encoding it again, whatever the rest is. */
  lemma FirstUnit(bytes: Bytes, rest: Bytes)
    requires UnitLength(bytes) > 0 && Encode(Decode(bytes[UnitLength(bytes)..])) == rest
    ensures Encode(Decode(bytes)) == bytes[..UnitLength(bytes)] + rest
  {
    UnitChar(bytes);
    EncodeCons(CharAt(bytes), Decode(bytes[UnitLength(bytes)..]));
  }

  lemma {:induction false} DecodeRoundTrip(bytes: Bytes)
    requires WellFormed(bytes)
    ensures Encode(Decode(bytes)) == bytes
  {
    if bytes != [] {
      var n := UnitLength(bytes);
      DecodeRoundTrip(bytes[n..]);
      FirstUnit(bytes, bytes[n..]);
      assert bytes == bytes[..n] + bytes[n..];
    }
  }

  /** Decoding with replacement loses nothing exactly if the bytes are well-formed. */
  lemma RoundTripIffWellFormed(bytes: Bytes)
    ensures Encode(Decode(bytes)) == bytes <==> WellFormed(bytes)
  {
    EncodeRoundTrip(Decode(bytes));
    if WellFormed(bytes) {
      DecodeRoundTrip(bytes);
    }
  }

  /** Decoding goes on after well-formed bytes as if it began there. */
  lemma {:induction false} DecodeAppend(bytes: Bytes, more: Bytes)
    requires WellFormed(bytes)
    ensures Decode(bytes + more) == Decode(bytes) + Decode(more)
    decreases |bytes|
  {
    if bytes == [] {
      assert bytes + more == more;
    } else {
      var n := UnitLength(bytes);
      UnitStays(bytes, more);
      assert (bytes + more)[n..] == bytes[n..] + more;
      DecodeAppend(bytes[n..], more);
    }
  }

  lemma UnitStays(bytes: Bytes, more: Bytes)
    requires UnitLength(bytes) > 0
    ensures UnitLength(bytes + more) == UnitLength(bytes) && CharAt(bytes + more) == CharAt(bytes)
  {}

  /** U+FFFD, encoded. */
  const REPLACED: Bytes := [0xEF, 0xBF, 0xBD]

  /** A stray byte decodes to the same text as an encoded replacement character in its place. */
  lemma StrayByte(before: Bytes, after: Bytes)
    requires WellFormed(before)
    ensures Decode(before + ([0xFF] + after)) == Decode(before + (REPLACED + after))
    ensures !WellFormed(before + ([0xFF] + after))
  {
    var stray, replaced: Bytes := [0xFF] + after, REPLACED + after;
    DecodeAppend(before, stray);
    DecodeAppend(before, replaced);
    assert stray[1..] == after && replaced[3..] == after;
    assert ValueAt(replaced) == 0xFFFD;
    StrayIsMalformed(before, after);
  }

  lemma {:induction false} StrayIsMalformed(before: Bytes, after: Bytes)
    requires WellFormed(before)
    ensures !WellFormed(before + ([0xFF] + after))
    decreases |before|
  {
    var bytes := before + ([0xFF] + after);
    if before == [] {
      assert bytes[0] == 0xFF;
    } else {
      var n := UnitLength(before);
      UnitStays(before, [0xFF] + after);
      assert bytes[n..] == before[n..] + ([0xFF] + after);
      StrayIsMalformed(before[n..], after);
    }
  }
}
