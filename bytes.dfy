/**
 * Bytes and the conversions between chars and bytes: the cast `(byte) c`, `String.getBytes` in
 * UTF-8, and the reader's view of ASCII bytes as chars.
 */
module Bytes {

  /** A Java byte, kept as the unsigned bit pattern that goes on the wire. */
  type byte = b: int | 0 <= b < 256

  /** `(byte) c`: the low 8 bits of a char. */
  function LowByte(c: char): byte {
    (c as int) % 256
  }

  /** The array `Util.charArrayToBytes` returns for chars. */
  function CharsToBytes(chars: string): seq<byte> {
    seq(|chars|, i requires 0 <= i < |chars| => LowByte(chars[i]))
  }

  /** The UTF-8 encoding of one char. */
  function Utf8(c: char): (r: seq<byte>)
    ensures 1 <= |r| <= 4
  {
    var n := c as int;
    if n < 0x80 then [n]
    else if n < 0x800 then [0xC0 + n / 0x40, 0x80 + n % 0x40]
    else if n < 0x1_0000 then [0xE0 + n / 0x1000, 0x80 + (n / 0x40) % 0x40, 0x80 + n % 0x40]
    else [0xF0 + n / 0x4_0000, 0x80 + (n / 0x1000) % 0x40, 0x80 + (n / 0x40) % 0x40, 0x80 + n % 0x40]
  }

  /** `String.getBytes(StandardCharsets.UTF_8)`. */
  function Encode(s: string): seq<byte>
    decreases |s|
  {
    if s == [] then [] else Utf8(s[0]) + Encode(s[1..])
  }

  predicate IsAscii(s: string) {
    forall i | 0 <= i < |s| :: s[i] as int < 0x80
  }

  predicate IsAsciiBytes(bs: seq<byte>) {
    forall i | 0 <= i < |bs| :: bs[i] < 0x80
  }

  /**
   * The chars an input stream reader makes of bytes, one char per byte.  This is what UTF-8
   * decoding gives for ASCII bytes, and what ISO-8859-1 decoding gives for every byte.
   */
  function Latin1(bs: seq<byte>): string {
    seq(|bs|, i requires 0 <= i < |bs| => bs[i] as char)
  }

  lemma {:induction false} EncodeAppend(a: string, b: string)
    ensures Encode(a + b) == Encode(a) + Encode(b)
    decreases |a|
  {
    if a == [] {
      assert a + b == b;
    } else {
      assert (a + b)[1..] == a[1..] + b;
      EncodeAppend(a[1..], b);
    }
  }

  /** On ASCII text UTF-8 is the identity on code points: one byte per char, equal to the char's code. */
  lemma {:induction false} EncodeAscii(s: string)
    requires IsAscii(s)
    ensures Encode(s) == CharsToBytes(s)
    ensures IsAsciiBytes(Encode(s)) && Latin1(Encode(s)) == s
    decreases |s|
  {
    if s != [] {
      EncodeAscii(s[1..]);
      assert Encode(s) == [s[0] as int] + Encode(s[1..]);
    }
  }

  /** Casting the chars read from bytes back to bytes gives the bytes: the two conversions cancel. */
  lemma LowBytesOfLatin1(bs: seq<byte>)
    ensures CharsToBytes(Latin1(bs)) == bs
  {
  }

  /** ASCII text written as bytes and read back one char per byte is the text again. */
  lemma AsciiReadBack(s: string)
    requires IsAscii(s)
    ensures Latin1(CharsToBytes(s)) == s
  {
  }

  lemma AsciiAppend(a: string, b: string)
    requires IsAscii(a) && IsAscii(b)
    ensures IsAscii(a + b)
  {
  }

  lemma CharsToBytesAppend(a: string, b: string)
    ensures CharsToBytes(a + b) == CharsToBytes(a) + CharsToBytes(b)
  {
  }

  lemma Latin1Append(a: seq<byte>, b: seq<byte>)
    ensures Latin1(a + b) == Latin1(a) + Latin1(b)
  {
  }
}
