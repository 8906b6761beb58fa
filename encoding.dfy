/** Byte-level encodings of strings: UTF-8 (what `Buffer.from(s)` and the
    Node crypto API use for string inputs), UTF-16 code units (what
    `charCodeAt` and `length` see) and lowercase hexadecimal (what
    `digest('hex')` produces). Strings are sequences of Unicode scalar
    values. */
module Encoding {

  newtype byte = x: int | 0 <= x < 256

  predicate IsAscii(s: string) {
    forall i :: 0 <= i < |s| ==> s[i] as int < 0x80
  }

  /** The UTF-8 encoding of one scalar value. */
  function Utf8Char(c: char): (bs: seq<byte>)
    ensures 1 <= |bs| <= 4
    ensures c as int < 0x80 <==> bs[0] < 0x80
    ensures c as int < 0x80 ==> bs == [c as int as byte]
  {
    var n := c as int;
    if n < 0x80 then [n as byte]
    else if n < 0x800 then [(0xC0 + n / 0x40) as byte, (0x80 + n % 0x40) as byte]
    else if n < 0x10000 then
      [(0xE0 + n / 0x1000) as byte, (0x80 + (n / 0x40) % 0x40) as byte, (0x80 + n % 0x40) as byte]
    else
      [(0xF0 + n / 0x40000) as byte, (0x80 + (n / 0x1000) % 0x40) as byte,
       (0x80 + (n / 0x40) % 0x40) as byte, (0x80 + n % 0x40) as byte]
  }

  /** `Buffer.from(s)`: the UTF-8 bytes of `s`. */
  function Utf8(s: string): (bs: seq<byte>)
    ensures |bs| >= |s|
    ensures IsAscii(s) ==> |bs| == |s| && forall i :: 0 <= i < |s| ==> bs[i] as int == s[i] as int
  {
    if s == [] then [] else Utf8Char(s[0]) + Utf8(s[1..])
  }

  /** An ASCII string and any string have the same UTF-8 bytes only when
      they are the same string, so comparing the encodings of a hex digest
      and a claimed hash compares the strings themselves. */
  lemma {:induction false} Utf8AsciiInjective(a: string, b: string)
    requires IsAscii(a)
    requires Utf8(a) == Utf8(b)
    ensures a == b
  {
    if a == [] {
      assert |Utf8(b)| == 0;
    } else {
      assert b != [];
      var ea, eb := Utf8Char(a[0]), Utf8Char(b[0]);
      assert Utf8(a) == ea + Utf8(a[1..]) && Utf8(b) == eb + Utf8(b[1..]);
      assert ea == [a[0] as int as byte];
      assert eb[0] == Utf8(b)[0] == Utf8(a)[0] == ea[0];
      assert b[0] as int < 0x80;
      assert a[0] == b[0];
      assert Utf8(a[1..]) == Utf8(b[1..]);
      Utf8AsciiInjective(a[1..], b[1..]);
    }
  }

  /** The UTF-16 code units of one scalar value. */
  function Utf16Char(c: char): (units: seq<int>)
    ensures 1 <= |units| <= 2
    ensures forall i :: 0 <= i < |units| ==> 0 <= units[i] < 0x10000
    ensures c as int < 0x10000 <==> units == [c as int]
  {
    var n := c as int;
    if n < 0x10000 then [n]
    else [0xD800 + (n - 0x10000) / 0x400, 0xDC00 + (n - 0x10000) % 0x400]
  }

  /** The code units a JavaScript string is made of: `s.length` counts
      them and `s.charCodeAt(i)` returns the i-th. */
  function Utf16(s: string): (units: seq<int>)
    ensures |units| >= |s|
    ensures forall i :: 0 <= i < |units| ==> 0 <= units[i] < 0x10000
  {
    if s == [] then [] else Utf16Char(s[0]) + Utf16(s[1..])
  }

  predicate IsHexDigit(c: char) {
    '0' <= c <= '9' || 'a' <= c <= 'f'
  }

  function HexDigit(n: int): (c: char)
    requires 0 <= n < 16
    ensures IsHexDigit(c) && c as int < 0x80
  {
    if n < 10 then ('0' as int + n) as char else ('a' as int + n - 10) as char
  }

  function HexValue(c: char): (n: int)
    requires IsHexDigit(c)
    ensures 0 <= n < 16
  {
    if c <= '9' then c as int - '0' as int else c as int - 'a' as int + 10
  }

  /** `digest('hex')`: two lowercase hex digits per byte, high nibble first. */
  function Hex(bs: seq<byte>): (s: string)
    ensures |s| == 2 * |bs| && |s| % 2 == 0
    ensures IsAscii(s)
    ensures forall i :: 0 <= i < |s| ==> IsHexDigit(s[i])
  {
    if bs == [] then ""
    else [HexDigit(bs[0] as int / 16), HexDigit(bs[0] as int % 16)] + Hex(bs[1..])
  }

  /** Reads a hex string back into bytes. */
  function Unhex(s: string): (bs: seq<byte>)
    requires |s| % 2 == 0
    requires forall i :: 0 <= i < |s| ==> IsHexDigit(s[i])
  {
    if s == [] then [] else [(HexValue(s[0]) * 16 + HexValue(s[1])) as byte] + Unhex(s[2..])
  }

  /** A hex digest encodes its bytes without loss. */
  lemma {:induction false} UnhexHex(bs: seq<byte>)
    ensures Unhex(Hex(bs)) == bs
  {
    if bs != [] {
      var s := Hex(bs);
      var hi, lo := bs[0] as int / 16, bs[0] as int % 16;
      assert HexValue(HexDigit(hi)) == hi && HexValue(HexDigit(lo)) == lo;
      assert s[2..] == Hex(bs[1..]);
      UnhexHex(bs[1..]);
    }
  }
}
