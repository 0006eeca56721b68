/**
 * UTF-8, as Python's `str.encode('utf-8')` and strict `bytes.decode('utf-8')`
 * use it for the queue message body: the job id the handlers set on their
 * output slot travels through the queue as UTF-8 bytes, and the poller decodes
 * those bytes back into the id.  Decoding accepts exactly the well-formed byte
 * sequences of the Unicode standard (no overlong forms, no surrogates, nothing
 * above U+10FFFF) and fails on anything else.
 */
module Utf8 {
  import opened Wrappers

  newtype byte = x: int | 0 <= x < 256

  predicate InRange(b: byte, lo: int, hi: int) {
    lo <= b as int <= hi
  }

  /** The bytes of one scalar value, shortest form. */
  function EncodeChar(c: char): (bs: seq<byte>)
    ensures 1 <= |bs| <= 4
    ensures (|bs| == 1) == (c as int < 0x80)
    ensures forall k :: 1 <= k < |bs| ==> InRange(bs[k], 0x80, 0xBF)
  {
    var cp := c as int;
    if cp < 0x80 then
      [cp as byte]
    else if cp < 0x800 then
      [(0xC0 + cp / 64) as byte, (0x80 + cp % 64) as byte]
    else if cp < 0x10000 then
      [(0xE0 + cp / 4096) as byte, (0x80 + cp / 64 % 64) as byte, (0x80 + cp % 64) as byte]
    else
      [(0xF0 + cp / 262144) as byte, (0x80 + cp / 4096 % 64) as byte,
       (0x80 + cp / 64 % 64) as byte, (0x80 + cp % 64) as byte]
  }

  function Encode(s: string): (bs: seq<byte>)
    ensures |s| <= |bs| <= 4 * |s|
  {
    if s == [] then [] else EncodeChar(s[0]) + Encode(s[1..])
  }

  /**
   * The first scalar value of a non-empty byte sequence and the number of
   * bytes it takes, or None when the sequence does not start with a
   * well-formed UTF-8 sequence.
   */
  function DecodeFirst(bs: seq<byte>): (r: Option<(char, nat)>)
    requires |bs| > 0
    ensures r.Some? ==> 1 <= r.value.1 <= |bs| && r.value.1 <= 4
  {
    var b0 := bs[0] as int;
    if b0 < 0x80 then
      Some((b0 as char, 1))
    else if 0xC2 <= b0 <= 0xDF then
      if |bs| >= 2 && InRange(bs[1], 0x80, 0xBF) then
        Some((((b0 - 0xC0) * 64 + (bs[1] as int - 0x80)) as char, 2))
      else None
    else if 0xE0 <= b0 <= 0xEF then
      var lo := if b0 == 0xE0 then 0xA0 else 0x80;
      var hi := if b0 == 0xED then 0x9F else 0xBF;
      if |bs| >= 3 && InRange(bs[1], lo, hi) && InRange(bs[2], 0x80, 0xBF) then
        Some((((b0 - 0xE0) * 4096 + (bs[1] as int - 0x80) * 64 + (bs[2] as int - 0x80)) as char, 3))
      else None
    else if 0xF0 <= b0 <= 0xF4 then
      var lo := if b0 == 0xF0 then 0x90 else 0x80;
      var hi := if b0 == 0xF4 then 0x8F else 0xBF;
      if |bs| >= 4 && InRange(bs[1], lo, hi) && InRange(bs[2], 0x80, 0xBF) && InRange(bs[3], 0x80, 0xBF) then
        Some((((b0 - 0xF0) * 262144 + (bs[1] as int - 0x80) * 4096
               + (bs[2] as int - 0x80) * 64 + (bs[3] as int - 0x80)) as char, 4))
      else None
    else
      None
  }

  /** Strict decoding: None is Python's UnicodeDecodeError. */
  function Decode(bs: seq<byte>): (r: Option<string>)
    ensures r.Some? ==> |r.value| <= |bs|
    // Bytes below 0x80 are ASCII: they always decode, one character per byte.
    ensures (forall k :: 0 <= k < |bs| ==> bs[k] < 0x80) ==> r.Some? && |r.value| == |bs|
    decreases |bs|
  {
    if bs == [] then Some([])
    else match DecodeFirst(bs)
      case None => None
      case Some((c, n)) =>
        match Decode(bs[n..])
        case None => None
        case Some(rest) => Some([c] + rest)
  }

  /** Splits a code point into 6-bit groups; all the arithmetic below is linear over these. */
  lemma Groups(cp: int)
    requires 0 <= cp
    ensures cp == cp / 262144 * 262144 + cp / 4096 % 64 * 4096 + cp / 64 % 64 * 64 + cp % 64
    ensures cp / 4096 == cp / 262144 * 64 + cp / 4096 % 64
    ensures cp / 64 == cp / 4096 * 64 + cp / 64 % 64
    ensures 0 <= cp / 4096 % 64 < 64 && 0 <= cp / 64 % 64 < 64 && 0 <= cp % 64 < 64
  {
    var a, c := cp / 64, cp / 4096;
    assert cp == a * 64 + cp % 64;
    assert a == a / 64 * 64 + a % 64;
    assert c == a / 64 by {
      assert cp == a / 64 * 4096 + a % 64 * 64 + cp % 64;
    }
    assert c == c / 64 * 64 + c % 64;
    assert cp / 262144 == c / 64 by {
      assert cp == c / 64 * 262144 + c % 64 * 4096 + a % 64 * 64 + cp % 64;
    }
  }

  lemma DecodeEncodeTwo(c: char, rest: seq<byte>)
    requires 0x80 <= c as int < 0x800
    ensures DecodeFirst(EncodeChar(c) + rest) == Some((c, 2))
  {
    var bs := EncodeChar(c) + rest;
    var cp := c as int;
    Groups(cp);
    assert bs[0] as int == 0xC0 + cp / 64 && bs[1] as int == 0x80 + cp % 64;
  }

  lemma DecodeEncodeThree(c: char, rest: seq<byte>)
    requires 0x800 <= c as int < 0x10000
    ensures DecodeFirst(EncodeChar(c) + rest) == Some((c, 3))
  {
    var bs := EncodeChar(c) + rest;
    var cp := c as int;
    Groups(cp);
    var q, m, r := cp / 4096, cp / 64 % 64, cp % 64;
    assert cp == q * 4096 + m * 64 + r;
    assert bs[0] as int == 0xE0 + q && bs[1] as int == 0x80 + m && bs[2] as int == 0x80 + r;
  }

  lemma DecodeEncodeFour(c: char, rest: seq<byte>)
    requires 0x10000 <= c as int
    ensures DecodeFirst(EncodeChar(c) + rest) == Some((c, 4))
  {
    var bs := EncodeChar(c) + rest;
    var cp := c as int;
    Groups(cp);
    var q, h, m, r := cp / 262144, cp / 4096 % 64, cp / 64 % 64, cp % 64;
    assert cp == q * 262144 + h * 4096 + m * 64 + r;
    assert bs[0] as int == 0xF0 + q && bs[1] as int == 0x80 + h;
    assert bs[2] as int == 0x80 + m && bs[3] as int == 0x80 + r;
  }

  lemma DecodeEncodeChar(c: char, rest: seq<byte>)
    ensures |EncodeChar(c) + rest| > 0
    ensures DecodeFirst(EncodeChar(c) + rest) == Some((c, |EncodeChar(c)|))
  {
    var cp := c as int;
    if cp < 0x80 {
    } else if cp < 0x800 {
      DecodeEncodeTwo(c, rest);
    } else if cp < 0x10000 {
      DecodeEncodeThree(c, rest);
    } else {
      DecodeEncodeFour(c, rest);
    }
  }

  /** What the poller decodes is exactly what was enqueued. */
  lemma {:induction false} DecodeEncode(s: string)
    ensures Decode(Encode(s)) == Some(s)
  {
    if s != [] {
      var e := EncodeChar(s[0]);
      DecodeEncodeChar(s[0], Encode(s[1..]));
      assert (e + Encode(s[1..]))[|e|..] == Encode(s[1..]);
      DecodeEncode(s[1..]);
      assert [s[0]] + s[1..] == s;
    }
  }

  lemma EncodeDecodeFirst(bs: seq<byte>)
    requires |bs| > 0 && DecodeFirst(bs).Some?
    ensures EncodeChar(DecodeFirst(bs).value.0) == bs[..DecodeFirst(bs).value.1]
  {
    var (c, n) := DecodeFirst(bs).value;
    var cp := c as int;
    var e := EncodeChar(c);
    if n == 1 {
    } else if n == 2 {
      var q, r := bs[0] as int - 0xC0, bs[1] as int - 0x80;
      assert cp == q * 64 + r;
      assert cp / 64 == q && cp % 64 == r;
      assert e == bs[..2];
    } else if n == 3 {
      var q, m, r := bs[0] as int - 0xE0, bs[1] as int - 0x80, bs[2] as int - 0x80;
      assert cp == q * 4096 + m * 64 + r;
      assert cp / 64 == q * 64 + m && cp % 64 == r;
      assert cp / 4096 == q && cp / 64 % 64 == m;
      assert e == bs[..3];
    } else {
      var q, h, m, r := bs[0] as int - 0xF0, bs[1] as int - 0x80, bs[2] as int - 0x80, bs[3] as int - 0x80;
      assert cp == q * 262144 + h * 4096 + m * 64 + r;
      assert cp / 64 == q * 4096 + h * 64 + m && cp % 64 == r;
      assert cp / 4096 == q * 64 + h && cp / 64 % 64 == m;
      assert cp / 262144 == q && cp / 4096 % 64 == h;
      assert e == bs[..4];
    }
  }

  /** Decoding is injective: a body that decodes is the encoding of its text. */
  lemma {:induction false} EncodeDecode(bs: seq<byte>)
    requires Decode(bs).Some?
    ensures Encode(Decode(bs).value) == bs
    decreases |bs|
  {
    if bs != [] {
      var first := DecodeFirst(bs).value;
      var c, n := first.0, first.1;
      var tail := Decode(bs[n..]).value;
      assert Decode(bs).value == [c] + tail;
      EncodeDecodeFirst(bs);
      EncodeDecode(bs[n..]);
      calc {
        Encode([c] + tail);
        { assert ([c] + tail)[0] == c && ([c] + tail)[1..] == tail; }
        EncodeChar(c) + Encode(tail);
        bs[..n] + bs[n..];
        bs;
      }
    }
  }
}
